/** The part of sd-bus the codec relies on: a message under construction is a stack of open
    containers, each with its contents signature and how much of it is filled. */
module Messages {
  import opened Options
  import opened Signatures
  import opened Values

  datatype Kind = Root | ArrayKind | StructKind | VariantKind | EntryKind

  datatype Wire =
    | Leaf(code: Code, datum: Datum)
    | Node(kind: Kind, sig: string, items: seq<Wire>)

  datatype Frame = Frame(kind: Kind, sig: string, index: nat, items: seq<Wire>)

  // ----- Contents signatures

  predicate IsEntry(s: string) {
    match Entry(s)
    case Some((_, _, n)) => n == |s|
    case None => false
  }

  predicate ValidContents(kind: Kind, sig: string) {
    match kind
    case Root => false
    case ArrayKind => Single(sig).Some? || IsEntry(sig)
    case StructKind => sig != "" && All(sig).Some?
    case VariantKind => Single(sig).Some?
    case EntryKind => IsEntry("{" + sig + "}")
  }

  /** What a container adds to the signature of the container around it. */
  function Piece(kind: Kind, sig: string): string {
    match kind
    case Root => ""
    case ArrayKind => "a" + sig
    case StructKind => "(" + sig + ")"
    case VariantKind => "v"
    case EntryKind => "{" + sig + "}"
  }

  // ----- Operations on the stack of frames

  /** Only the outermost container may grow its signature; any other must be told what its own
      signature announces. */
  predicate Admits(f: Frame, piece: string) {
    if f.index < |f.sig| then piece <= f.sig[f.index..] else f.kind == Root
  }

  function Advance(f: Frame, piece: string): Frame
    requires f.index <= |f.sig|
  {
    if f.index == |f.sig| then f.(sig := f.sig + piece, index := |f.sig| + |piece|)
    else if f.kind == ArrayKind then f
    else f.(index := f.index + |piece|)
  }

  function Top(fs: seq<Frame>): Frame
    requires fs != []
  {
    fs[|fs| - 1]
  }

  predicate Ready(fs: seq<Frame>) {
    fs != [] && forall i :: 0 <= i < |fs| ==> fs[i].index <= |fs[i].sig|
  }

  /** The stack after the innermost container received one whole item with signature `piece`. */
  function Emit(fs: seq<Frame>, piece: string, w: Wire): seq<Frame>
    requires Ready(fs)
  {
    var f := Advance(Top(fs), piece);
    fs[..|fs| - 1] + [f.(items := f.items + [w])]
  }

  function Open(fs: seq<Frame>, kind: Kind, sig: string): Option<seq<Frame>>
    requires Ready(fs)
  {
    if && ValidContents(kind, sig)
       && Admits(Top(fs), Piece(kind, sig))
       && (kind == EntryKind ==> Top(fs).kind == ArrayKind)
    then Some(fs[..|fs| - 1] + [Advance(Top(fs), Piece(kind, sig)), Frame(kind, sig, 0, [])])
    else None
  }

  /** Every container but an array must be complete when it is closed. */
  function Close(fs: seq<Frame>): Option<seq<Frame>>
    requires fs != []
  {
    var f := Top(fs);
    if |fs| >= 2 && (f.kind == ArrayKind || f.index == |f.sig|) then
      var outer := fs[|fs| - 2];
      Some(fs[..|fs| - 2] + [outer.(items := outer.items + [Node(f.kind, f.sig, f.items)])])
    else None
  }

  /** The stack with one more container open, partly filled. */
  ghost function Inside(fs: seq<Frame>, kind: Kind, sig: string, index: nat, items: seq<Wire>): seq<Frame>
    requires Ready(fs)
  {
    fs[..|fs| - 1] + [Advance(Top(fs), Piece(kind, sig)), Frame(kind, sig, index, items)]
  }

  lemma {:induction false} OpenInside(fs: seq<Frame>, kind: Kind, sig: string)
    requires Ready(fs) && Open(fs, kind, sig).Some?
    ensures Open(fs, kind, sig).value == Inside(fs, kind, sig, 0, [])
    ensures Ready(Inside(fs, kind, sig, 0, []))
  {
  }

  lemma {:induction false} InsideReady(fs: seq<Frame>, kind: Kind, sig: string, i: nat, xs: seq<Wire>,
      j: nat, ys: seq<Wire>)
    requires Ready(fs) && Ready(Inside(fs, kind, sig, i, xs)) && j <= |sig|
    ensures Ready(Inside(fs, kind, sig, j, ys))
  {
    var a, b := Inside(fs, kind, sig, i, xs), Inside(fs, kind, sig, j, ys);
    assert forall n :: 0 <= n < |b| - 1 ==> b[n] == a[n];
  }

  lemma {:induction false} TopInside(fs: seq<Frame>, kind: Kind, sig: string, index: nat, items: seq<Wire>)
    requires Ready(fs)
    ensures Inside(fs, kind, sig, index, items) != []
    ensures Top(Inside(fs, kind, sig, index, items)) == Frame(kind, sig, index, items)
  {
  }

  lemma {:induction false} EmitInside(fs: seq<Frame>, kind: Kind, sig: string, index: nat, items: seq<Wire>,
                                      piece: string, w: Wire)
    requires Ready(fs) && index < |sig| && Ready(Inside(fs, kind, sig, index, items))
    ensures Emit(Inside(fs, kind, sig, index, items), piece, w)
         == Inside(fs, kind, sig, if kind == ArrayKind then index else index + |piece|, items + [w])
  {
  }

  /** Opening, filling and closing a container is emitting one item. */
  lemma {:induction false} CloseInside(fs: seq<Frame>, kind: Kind, sig: string, index: nat, items: seq<Wire>)
    requires Ready(fs) && (kind == ArrayKind || index == |sig|)
    ensures Close(Inside(fs, kind, sig, index, items)) == Some(Emit(fs, Piece(kind, sig), Node(kind, sig, items)))
  {
  }

  /** sd_bus_message under construction; each call reports failure and then changes nothing. */
  class Message {
    var frames: seq<Frame>
    var sealed: bool

    constructor ()
      ensures frames == [Frame(Root, "", 0, [])] && !sealed
    {
      frames := [Frame(Root, "", 0, [])];
      sealed := false;
    }

    method OpenContainer(kind: Kind, sig: string) returns (ok: bool)
      requires Ready(frames) && !sealed
      modifies this`frames
      ensures Ready(frames)
      ensures ok == Open(old(frames), kind, sig).Some?
      ensures frames == if ok then Open(old(frames), kind, sig).value else old(frames)
    {
      var r := Open(frames, kind, sig);
      ok := r.Some?;
      if ok { frames := r.value; }
    }

    method CloseContainer() returns (ok: bool)
      requires Ready(frames) && !sealed
      modifies this`frames
      ensures Ready(frames)
      ensures ok == Close(old(frames)).Some?
      ensures frames == if ok then Close(old(frames)).value else old(frames)
    {
      var r := Close(frames);
      ok := r.Some?;
      if ok { frames := r.value; }
    }

    method AppendBasic(code: Code, datum: Datum) returns (ok: bool)
      requires Ready(frames) && !sealed
      modifies this`frames
      ensures Ready(frames)
      ensures ok == Admits(Top(old(frames)), [code])
      ensures frames == if ok then Emit(old(frames), [code], Leaf(code, datum)) else old(frames)
    {
      ok := Admits(Top(frames), [code]);
      if ok { frames := Emit(frames, [code], Leaf(code, datum)); }
    }

    /** sd_bus_message_append_array for bytes: a whole "ay" in one call. */
    method AppendBytes(s: string) returns (ok: bool)
      requires Ready(frames) && !sealed
      modifies this`frames
      ensures Ready(frames)
      ensures ok == Admits(Top(old(frames)), "ay")
      ensures frames == if ok then Emit(old(frames), "ay", ByteArray(s)) else old(frames)
    {
      ok := Admits(Top(frames), "ay");
      if ok { frames := Emit(frames, "ay", ByteArray(s)); }
    }

    /** A message can be sealed once every container is closed. */
    method Seal() returns (ok: bool)
      requires frames != [] && !sealed
      modifies this`sealed
      ensures ok == (|frames| == 1) && sealed == ok
    {
      ok := |frames| == 1;
      sealed := ok;
    }
  }

  function ByteArray(s: string): Wire {
    Node(ArrayKind, "y", seq(|s|, i requires 0 <= i < |s| => Leaf('y', Int(s[i] as int))))
  }

  // ----- Well-typed wire values

  /** A wire value has a type: signatures recorded in containers are those of their contents. */
  ghost predicate Typed(t: Type, w: Wire)
    decreases w
  {
    match t
    case Basic(c) => w.Leaf? && w.code == c && DatumFits(c, w.datum)
    case Variant =>
      && w.Node? && w.kind == VariantKind && |w.items| == 1
      && Single(w.sig).Some? && Typed(Single(w.sig).value, w.items[0])
    case Array(e) =>
      && w.Node? && w.kind == ArrayKind && w.sig == Show(e)
      && forall i :: 0 <= i < |w.items| ==> Typed(e, w.items[i])
    case Struct(_, _) =>
      && w.Node? && w.kind == StructKind && w.sig == ShowAll(Fields(t)) && |w.items| == |Fields(t)|
      && forall i :: 0 <= i < |w.items| ==> Typed(Fields(t)[i], w.items[i])
    case Dict(k, e) =>
      && w.Node? && w.kind == ArrayKind && w.sig == ShowEntry(k, e)
      && forall i :: 0 <= i < |w.items| ==>
           var p := w.items[i];
           && p.Node? && p.kind == EntryKind && p.sig == [k] + Show(e) && |p.items| == 2
           && p.items[0].Leaf? && p.items[0].code == k && DatumFits(k, p.items[0].datum)
           && Typed(e, p.items[1])
  }

  ghost predicate DatumFits(code: Code, d: Datum) {
    match d
    case Int(n) => InRange(code, n)
    case Bit(_) => code == 'b'
    case Dbl(_) => code == 'd'
    case Chars(s) => TextFits(code, s)
  }

  // ----- What a conforming value becomes on the wire

  ghost function ToWire(t: Type, v: Value): Wire
    requires Conforms(t, v)
    decreases v
  {
    match t
    case Basic(c) => Leaf(c, ToDatum(c, v).value)
    case Variant =>
      Node(VariantKind, v.items[0].s, [ToWire(Single(v.items[0].s).value, v.items[1])])
    case Array(e) =>
      if e == Basic('y') then ByteArray(v.s)
      else Node(ArrayKind, Show(e), seq(|v.items|, i requires 0 <= i < |v.items| => ToWire(e, v.items[i])))
    case Struct(_, _) =>
      Node(StructKind, ShowAll(Fields(t)),
           seq(|v.items|, i requires 0 <= i < |v.items| => ToWire(Fields(t)[i], v.items[i])))
    case Dict(k, e) =>
      Node(ArrayKind, ShowEntry(k, e),
           seq(|v.slots|, i requires 0 <= i < |v.slots| => EntryWire(k, e, v.slots[i])))
  }

  ghost function EntryWire(k: Code, e: Type, p: Pair): Wire
    requires ToDatum(k, p.key).Some? && Conforms(e, p.value)
    decreases p
  {
    Node(EntryKind, [k] + Show(e), [Leaf(k, ToDatum(k, p.key).value), ToWire(e, p.value)])
  }
}
