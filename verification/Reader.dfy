/** The reader of src/message.c: items of a sealed message become Janet values. */
module Reader {
  import opened Options
  import opened Signatures
  import opened Values
  import opened Messages

  // ----- What reading yields

  function FromDatum(code: Code, d: Datum): Value {
    match d
    case Bit(b) => Boolean(b)
    case Dbl(x) => Number(x)
    case Chars(s) => Str(s)
    case Int(n) => if code == 'x' then S64(n) else if code == 't' then U64(n) else FromInt(n)
  }

  /** janet_table_put: a NaN key is dropped, an equal key overwritten. */
  function Put(slots: seq<Pair>, k: Value, v: Value): seq<Pair> {
    if k == Number(NaN) then slots
    else if slots == [] then [Pair(k, v)]
    else if slots[0].key == k then [Pair(k, v)] + slots[1..]
    else [slots[0]] + Put(slots[1..], k, v)
  }

  predicate IsDict(sig: string) {
    sig != "" && sig[0] == '{'
  }

  /** What sd-bus guarantees of a message that was sealed or received: containers hold what their
      kind calls for. */
  predicate Readable(w: Wire)
    decreases w
  {
    match w
    case Leaf(_, _) => true
    case Node(kind, sig, items) =>
      match kind
      case VariantKind => |items| == 1 && Readable(items[0])
      case StructKind => forall i :: 0 <= i < |items| ==> Readable(items[i])
      case ArrayKind =>
        if IsDict(sig) then forall i :: 0 <= i < |items| ==> ReadableEntry(items[i])
        else forall i :: 0 <= i < |items| ==> Readable(items[i])
      case _ => false
  }

  predicate ReadableEntry(w: Wire)
    decreases w
  {
    && w.Node? && w.kind == EntryKind && |w.items| == 2
    && w.items[0].Leaf? && w.sig != "" && w.sig[0] == w.items[0].code
    && Readable(w.items[1])
  }

  function Decode(w: Wire): Value
    requires Readable(w)
    decreases w
  {
    match w
    case Leaf(c, d) => FromDatum(c, d)
    case Node(kind, sig, items) =>
      if kind == VariantKind then Indexed(true, [Str(sig), Decode(items[0])])
      else if kind == StructKind then Indexed(true, seq(|items|, i requires 0 <= i < |items| => Decode(items[i])))
      else if IsDict(sig) then Dictionary(true, Table(items))
      else Indexed(false, seq(|items|, i requires 0 <= i < |items| => Decode(items[i])))
  }

  /** The table that putting the entries in order builds. */
  function Table(es: seq<Wire>): seq<Pair>
    requires forall i :: 0 <= i < |es| ==> ReadableEntry(es[i])
    decreases es
  {
    if es == [] then []
    else
      var e := es[|es| - 1];
      Put(Table(es[..|es| - 1]), EntryKey(e), EntryValue(e))
  }

  function EntryKey(e: Wire): Value
    requires ReadableEntry(e)
  {
    FromDatum(e.items[0].code, e.items[0].datum)
  }

  function EntryValue(e: Wire): Value
    requires ReadableEntry(e)
    decreases e
  {
    Decode(e.items[1])
  }

  ghost function DecodeAll(ws: seq<Wire>): seq<Value>
    requires forall i :: 0 <= i < |ws| ==> Readable(ws[i])
  {
    seq(|ws|, i requires 0 <= i < |ws| => Decode(ws[i]))
  }

  // ----- The read cursor of sd-bus

  /** A container being read: its items and how many were read. */
  datatype View = View(items: seq<Wire>, pos: nat)

  datatype Peeked = AtEnd | AtBasic(code: Code) | AtContainer(kind: Kind, sig: string)

  function Weight(w: Wire): nat {
    match w
    case Leaf(_, _) => 1
    case Node(_, _, items) => 1 + Weights(items)
  }

  function Weights(ws: seq<Wire>): nat {
    if ws == [] then 0 else Weight(ws[0]) + Weights(ws[1..])
  }

  lemma {:induction false} WeightsSuffix(ws: seq<Wire>, i: nat)
    requires i <= |ws|
    ensures Weights(ws[i..]) <= Weights(ws)
    ensures i < |ws| ==> Weight(ws[i]) <= Weights(ws[i..]) && Weights(ws[i + 1..]) < Weights(ws[i..])
  {
    if i < |ws| {
      assert ws[i..][1..] == ws[i + 1..];
      WeightPositive(ws[i]);
    }
    if i == 0 {
      assert ws[0..] == ws;
    } else {
      assert ws[1..][i - 1..] == ws[i..];
      WeightsSuffix(ws[1..], i - 1);
    }
  }

  lemma WeightPositive(w: Wire)
    ensures Weight(w) >= 1
  {
  }

  function Here(st: seq<View>): View
    requires st != []
  {
    st[|st| - 1]
  }

  /** One item of the innermost container has been read, and every container entered on the way
      has been left. */
  function Bump(st: seq<View>): seq<View>
    requires st != []
  {
    st[..|st| - 1] + [Here(st).(pos := Here(st).pos + 1)]
  }

  class Source {
    const body: seq<Wire>
    var stack: seq<View>

    constructor (body: seq<Wire>)
      ensures this.body == body && stack == [View(body, 0)]
    {
      this.body := body;
      stack := [View(body, 0)];
    }

    /** The innermost container is sound: its items are readable and the cursor is inside. */
    ghost predicate Valid()
      reads this
    {
      && stack != [] && Here(stack).pos <= |Here(stack).items|
      && forall i :: 0 <= i < |Here(stack).items| ==> Readable(Here(stack).items[i])
    }

    /** What is left to read in the innermost container. */
    function Rest(): seq<Wire>
      reads this
      requires stack != [] && Here(stack).pos <= |Here(stack).items|
    {
      Here(stack).items[Here(stack).pos..]
    }

    method Rewind()
      modifies this
      ensures stack == [View(body, 0)]
    {
      stack := [View(body, 0)];
    }

    method Peek() returns (r: Peeked)
      requires stack != [] && Here(stack).pos <= |Here(stack).items|
      ensures r == PeekAt(Rest())
    {
      r := PeekAt(Rest());
    }

    method ReadBasic(code: Code) returns (d: Datum)
      requires stack != [] && Here(stack).pos <= |Here(stack).items|
      requires Rest() != [] && Rest()[0].Leaf? && Rest()[0].code == code
      modifies this
      ensures d == old(Rest())[0].datum && stack == Bump(old(stack))
    {
      d := Rest()[0].datum;
      stack := Bump(stack);
    }

    method Enter(kind: Kind, sig: string)
      requires stack != [] && Here(stack).pos <= |Here(stack).items|
      requires Rest() != [] && Rest()[0].Node? && Rest()[0].kind == kind && Rest()[0].sig == sig
      modifies this
      ensures stack == old(stack) + [View(old(Rest())[0].items, 0)]
    {
      stack := stack + [View(Rest()[0].items, 0)];
    }

    /** A container can be left only once it has been read to its end. */
    method Exit()
      requires |stack| >= 2 && Here(stack).pos == |Here(stack).items|
      modifies this
      ensures stack == Bump(old(stack)[..|old(stack)| - 1])
    {
      stack := Bump(stack[..|stack| - 1]);
    }
  }

  function PeekAt(rest: seq<Wire>): Peeked {
    if rest == [] then AtEnd
    else match rest[0]
         case Leaf(c, _) => AtBasic(c)
         case Node(k, s, _) => AtContainer(k, s)
  }

  // ----- Reading

  /** Reads one item, or nothing at the end of the current container. */
  method ReadCompleteType(src: Source) returns (r: Option<Value>)
    requires src.Valid()
    modifies src
    ensures old(src.Rest()) == [] ==> r == None && src.stack == old(src.stack)
    ensures old(src.Rest()) != [] ==> r == Some(Decode(old(src.Rest())[0])) && src.stack == Bump(old(src.stack))
    ensures src.Valid()
    decreases Weights(src.Rest()), 1
  {
    hide Weights;
    var what := src.Peek();
    if what == AtEnd {
      return None;
    }
    ghost var w := src.Rest()[0];
    var v: Value;
    if what.AtBasic? {
      v := ReadBasicType(src, what.code);
    } else if what.kind == VariantKind {
      v := ReadVariantType(src, what.sig);
    } else if what.kind == StructKind {
      v := ReadStructType(src, what.sig);
    } else if what.kind == ArrayKind && IsDict(what.sig) {
      v := ReadDictType(src, what.sig);
    } else if what.kind == ArrayKind {
      v := ReadArrayType(src, what.sig);
    } else {
      assert false;
    }
    return Some(v);
  }

  method ReadBasicType(src: Source, code: Code) returns (v: Value)
    requires src.Valid() && src.Rest() != [] && src.Rest()[0].Leaf? && src.Rest()[0].code == code
    modifies src
    ensures src.Valid() && v == Decode(old(src.Rest())[0]) && src.stack == Bump(old(src.stack))
  {
    var d := src.ReadBasic(code);
    v := FromDatum(code, d);
  }

  /** The next item is a container of this kind and contents. */
  ghost predicate Next(src: Source, kind: Kind, sig: string)
    reads src
  {
    && src.Valid() && src.Rest() != []
    && src.Rest()[0].Node? && src.Rest()[0].kind == kind && src.Rest()[0].sig == sig
  }

  method ReadVariantType(src: Source, sig: string) returns (v: Value)
    requires Next(src, VariantKind, sig)
    modifies src
    ensures src.Valid() && v == Decode(old(src.Rest())[0]) && src.stack == Bump(old(src.stack))
    decreases Weights(src.Rest()), 0
  {
    hide Weights;
    ghost var st, w := src.stack, src.Rest()[0];
    EnterDecreases(src.Rest());
    src.Enter(VariantKind, sig);
    assert src.Rest() == w.items;
    var obj := ReadCompleteType(src);
    assert obj.Some?;
    src.Exit();
    assert src.stack == Bump(st);
    return Indexed(true, [Str(sig), obj.value]);
  }

  /** Reads to the end of the container just entered, as the loops over array and struct items do. */
  method ReadItems(src: Source, ghost st: seq<View>, ghost w: Wire) returns (vs: seq<Value>)
    requires w.Node? && st != [] && src.stack == st + [View(w.items, 0)] && src.Valid()
    modifies src
    ensures vs == DecodeAll(w.items) && src.stack == st + [View(w.items, |w.items|)]
    decreases Weights(w.items), 2
  {
    hide Weights, Decode, Readable;
    vs := [];
    assert src.Rest() == w.items;
    while true
      invariant |vs| <= |w.items| && src.stack == st + [View(w.items, |vs|)] && src.Valid()
      invariant vs == DecodeAll(w.items)[..|vs|]
      decreases |w.items| - |vs|
    {
      WeightsSuffix(w.items, |vs|);
      assert src.Rest() == w.items[|vs|..];
      var obj := ReadCompleteType(src);
      if obj.None? {
        break;
      }
      assert src.stack == st + [View(w.items, |vs| + 1)];
      vs := vs + [obj.value];
    }
  }

  method ReadStructType(src: Source, sig: string) returns (v: Value)
    requires Next(src, StructKind, sig)
    modifies src
    ensures src.Valid() && v == Decode(old(src.Rest())[0]) && src.stack == Bump(old(src.stack))
    decreases Weights(src.Rest()), 0
  {
    hide Weights;
    ghost var st, w := src.stack, src.Rest()[0];
    EnterDecreases(src.Rest());
    src.Enter(StructKind, sig);
    var vs := ReadItems(src, st, w);
    src.Exit();
    assert src.stack == Bump(st);
    return Indexed(true, vs);
  }

  method ReadArrayType(src: Source, sig: string) returns (v: Value)
    requires Next(src, ArrayKind, sig) && !IsDict(sig)
    modifies src
    ensures src.Valid() && v == Decode(old(src.Rest())[0]) && src.stack == Bump(old(src.stack))
    decreases Weights(src.Rest()), 0
  {
    hide Weights;
    ghost var st, w := src.stack, src.Rest()[0];
    EnterDecreases(src.Rest());
    src.Enter(ArrayKind, sig);
    var vs := ReadItems(src, st, w);
    src.Exit();
    assert src.stack == Bump(st);
    return Indexed(false, vs);
  }

  lemma {:induction false} EnterDecreases(rest: seq<Wire>)
    requires rest != [] && rest[0].Node?
    ensures Weights(rest[0].items) < Weights(rest)
  {
  }

  method ReadDictType(src: Source, sig: string) returns (v: Value)
    requires Next(src, ArrayKind, sig) && IsDict(sig)
    modifies src
    ensures src.Valid() && v == Decode(old(src.Rest())[0]) && src.stack == Bump(old(src.stack))
    decreases Weights(src.Rest()), 0
  {
    hide Weights, Put;
    ghost var st, w := src.stack, src.Rest()[0];
    EnterDecreases(src.Rest());
    src.Enter(ArrayKind, sig);
    var tbl: seq<Pair> := [];
    ghost var n := 0;
    while true
      invariant n <= |w.items| && src.stack == st + [View(w.items, n)]
      invariant tbl == Table(w.items[..n])
      decreases |w.items| - n
    {
      WeightsSuffix(w.items, n);
      assert src.Rest() == w.items[n..];
      var what := src.Peek();
      if what == AtEnd {
        break;
      }
      assert ReadableEntry(w.items[n]);
      var key, value := ReadEntry(src, what.sig, st, w, n);
      assert w.items[..n + 1][..n] == w.items[..n];
      tbl := Put(tbl, key, value);
      n := n + 1;
    }
    assert w.items[..n] == w.items;
    src.Exit();
    assert src.stack == Bump(st);
    return Dictionary(true, tbl);
  }

  /** One dictionary entry: enter, key, value, exit. */
  method ReadEntry(src: Source, sig: string, ghost st: seq<View>, ghost w: Wire, ghost n: nat)
    returns (key: Value, value: Value)
    requires w.Node? && n < |w.items| && ReadableEntry(w.items[n]) && sig == w.items[n].sig
    requires st != [] && src.stack == st + [View(w.items, n)]
    modifies src
    ensures key == EntryKey(w.items[n]) && value == EntryValue(w.items[n])
    ensures src.stack == st + [View(w.items, n + 1)]
    decreases Weights(w.items[n..]), 0
  {
    hide Weights, Decode;
    ghost var e := w.items[n];
    ghost var outer := src.stack;
    assert src.Rest() == w.items[n..];
    WeightsSuffix(w.items, n);
    EnterDecreases(w.items[n..]);
    src.Enter(EntryKind, sig);
    assert src.Rest() == e.items;
    WeightsSuffix(e.items, 0);
    var code: Code := sig[0];
    var d := src.ReadBasic(code);
    key := FromDatum(code, d);
    assert src.stack == outer + [View(e.items, 1)];
    assert src.Rest() == e.items[1..];
    var obj := ReadCompleteType(src);
    assert obj.Some?;
    value := obj.value;
    assert src.stack == outer + [View(e.items, 2)];
    src.Exit();
  }

  // ----- message-read

  datatype Selector = Everything | Remainder | Count(n: int) | BadKeyword

  /** The cursor stands at item `pos` of the container (or body) holding `items`, inside the
      containers of `st`. */
  ghost predicate At(src: Source, st: seq<View>, items: seq<Wire>, pos: nat)
    reads src
  {
    && src.stack == st + [View(items, pos)] && pos <= |items|
    && AllReadable(items)
  }

  ghost predicate AllReadable(ws: seq<Wire>) {
    forall i :: 0 <= i < |ws| ==> Readable(ws[i])
  }

  /** One round of the loops of message-read. */
  method ReadNext(src: Source, ghost st: seq<View>, ghost items: seq<Wire>, ghost pos: nat)
    returns (item: Option<Value>)
    requires At(src, st, items, pos)
    modifies src
    ensures pos == |items| ==> item == None && At(src, st, items, pos)
    ensures pos < |items| ==> item == Some(DecodeAll(items)[pos]) && At(src, st, items, pos + 1)
  {
    hide Decode, Readable, Weights;
    item := ReadCompleteType(src);
    if item.Some? {
      assert src.stack == st + [View(items, pos + 1)];
    }
  }

  ghost function Min(a: nat, b: nat): nat {
    if a < b then a else b
  }

  /** cfun_message_read: the items read, and the result: nil for none, the item itself for one, and
      an array for more. Everything is read from the start of the body, wherever the cursor was
      left. */
  method MessageRead(src: Source, what: Selector, ghost st: seq<View>, ghost items: seq<Wire>, ghost pos: nat)
    returns (r: Option<Value>, vs: seq<Value>)
    requires At(src, st, items, pos) && (what == Everything ==> AllReadable(src.body))
    modifies src
    ensures r.None? <==> what == BadKeyword || (what.Count? && what.n < 0)
    ensures r.None? ==> At(src, st, items, pos)
    ensures r.Some? && |vs| == 0 ==> r == Some(Nil)
    ensures r.Some? && |vs| == 1 ==> r == Some(vs[0])
    ensures r.Some? && |vs| >= 2 ==> r == Some(Indexed(false, vs))
    ensures what == Everything ==> At(src, [], src.body, |src.body|) && vs == DecodeAll(src.body)
    ensures what == Remainder ==> At(src, st, items, |items|) && vs == DecodeAll(items)[pos..]
    ensures what.Count? && what.n >= 0 ==>
      var stop := Min(pos + what.n, |items|);
      At(src, st, items, stop) && vs == DecodeAll(items)[pos..stop]
  {
    hide Decode, Readable;
    vs := [];
    if what == Everything || what == Remainder {
      ghost var (st, items, from) := if what == Everything then ([], src.body, 0) else (st, items, pos);
      if what == Everything {
        src.Rewind();
        assert [View(src.body, 0)] == [] + [View(src.body, 0)];
      }
      while true
        invariant from + |vs| <= |items| && At(src, st, items, from + |vs|)
        invariant vs == DecodeAll(items)[from..from + |vs|]
        decreases |items| - |vs|
      {
        var item := ReadNext(src, st, items, from + |vs|);
        if item.None? {
          break;
        }
        vs := vs + [item.value];
      }
    } else if what == BadKeyword {
      return None, vs;
    } else {
      if what.n < 0 {
        return None, vs;
      }
      var i := 0;
      while i < what.n
        invariant 0 <= i <= what.n && |vs| == i && pos + i <= |items| && At(src, st, items, pos + i)
        invariant vs == DecodeAll(items)[pos..pos + i]
      {
        var item := ReadNext(src, st, items, pos + i);
        if item.None? {
          break;
        }
        vs := vs + [item.value];
        i := i + 1;
      }
    }
    if |vs| == 0 {
      return Some(Nil), vs;
    }
    return Some(if |vs| == 1 then vs[0] else Indexed(false, vs)), vs;
  }

  /** Reading in chunks of any sizes and then the rest yields, in all, every item from the cursor to
      the end of its container. */
  method ReadInChunks(src: Source, counts: seq<nat>, ghost st: seq<View>, ghost items: seq<Wire>, ghost from: nat)
    returns (vs: seq<Value>)
    requires At(src, st, items, from)
    modifies src
    ensures vs == DecodeAll(items)[from..] && At(src, st, items, |items|)
  {
    hide Decode, Readable;
    vs := [];
    ghost var pos := from;
    for i := 0 to |counts|
      invariant At(src, st, items, pos) && from <= pos && vs == DecodeAll(items)[from..pos]
    {
      var _, chunk := MessageRead(src, Count(counts[i]), st, items, pos);
      ghost var stop := Min(pos + counts[i], |items|);
      assert DecodeAll(items)[from..pos] + DecodeAll(items)[pos..stop] == DecodeAll(items)[from..stop];
      vs := vs + chunk;
      pos := stop;
    }
    var _, rest := MessageRead(src, Remainder, st, items, pos);
    assert DecodeAll(items)[from..pos] + DecodeAll(items)[pos..|items|] == DecodeAll(items)[from..];
    vs := vs + rest;
  }
}
