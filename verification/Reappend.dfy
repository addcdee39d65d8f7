/** Appending what was read: when it is accepted, and that it builds the same message. */
module Reappend {
  import opened Signatures
  import opened Values
  import opened Messages
  import opened Writer
  import opened Reader
  import opened RoundTrip

  // ----- Byte arrays do not come back as bytes

  /** No byte array is appended on the way. */
  ghost predicate NoBytes(t: Type, v: Value)
    requires Conforms(t, v)
    decreases v
  {
    match t
    case Basic(_) => true
    case Variant => NoBytes(Single(v.items[0].s).value, v.items[1])
    case Array(e) => e != Basic('y') && forall i :: 0 <= i < |v.items| ==> NoBytes(e, v.items[i])
    case Struct(_, _) => forall i :: 0 <= i < |v.items| ==> NoBytes(Fields(t)[i], v.items[i])
    case Dict(_, e) => forall i :: 0 <= i < |v.slots| ==> NoBytes(e, v.slots[i].value)
  }

  lemma {:induction false} BasicStable(c: Code, v: Value)
    requires ToDatum(c, v).Some?
    ensures ToDatum(c, NormalBasic(c, v)) == ToDatum(c, v)
  {
  }

  /** The normal form conforms again exactly when no byte array was met, and is then the same
      on the wire. */
  lemma {:induction false} NormalStable(t: Type, v: Value)
    requires Conforms(t, v)
    ensures Conforms(t, Normal(t, v)) <==> NoBytes(t, v)
    ensures NoBytes(t, v) ==> ToWire(t, Normal(t, v)) == ToWire(t, v)
    decreases v, 1
  {
    match t
    case Basic(c) => BasicStable(c, v);
    case Variant => NormalStable(Single(v.items[0].s).value, v.items[1]);
    case Array(e) => if e != Basic('y') { ArrayStable(t, v); }
    case Struct(_, _) => StructStable(t, v);
    case Dict(_, _) => DictStable(t, v);
  }

  /** What is read of the byte array "a" is refused where it came from: the code takes byte arrays
      from text only. */
  lemma {:induction false} BytesNotStable()
    ensures var t, v := Array(Basic('y')), Str("a");
      && Conforms(t, v) && Normal(t, v) == Indexed(false, [FromInt(97)])
      && !Conforms(t, Normal(t, v)) && Conforms(Array(Basic('q')), Normal(t, v))
  {
    assert 'a' as int == 97;
    assert Normal(Array(Basic('y')), Str("a")) == Indexed(false, [FromInt(97)]);
  }

  lemma {:induction false} ArrayStable(t: Type, v: Value)
    requires t.Array? && t.elem != Basic('y') && Conforms(t, v)
    ensures Conforms(t, Normal(t, v)) <==> NoBytes(t, v)
    ensures NoBytes(t, v) ==> ToWire(t, Normal(t, v)) == ToWire(t, v)
    decreases v, 0
  {
    var e, n := t.elem, Normal(t, v);
    forall i | 0 <= i < |v.items|
      ensures n.items[i] == Normal(e, v.items[i])
      ensures Conforms(e, n.items[i]) <==> NoBytes(e, v.items[i])
      ensures NoBytes(e, v.items[i]) ==> ToWire(e, n.items[i]) == ToWire(e, v.items[i])
    {
      NormalStable(e, v.items[i]);
    }
    assert |n.items| == |v.items|;
    ArrayConforms(t, n);
    ArrayConforms(t, v);
    if NoBytes(t, v) {
      assert ToWire(t, n).items == ToWire(t, v).items;
    }
  }

  lemma {:induction false} StructStable(t: Type, v: Value)
    requires t.Struct? && Conforms(t, v)
    ensures Conforms(t, Normal(t, v)) <==> NoBytes(t, v)
    ensures NoBytes(t, v) ==> ToWire(t, Normal(t, v)) == ToWire(t, v)
    decreases v, 0
  {
    var ts, n := Fields(t), Normal(t, v);
    forall i | 0 <= i < |v.items|
      ensures n.items[i] == Normal(ts[i], v.items[i])
      ensures Conforms(ts[i], n.items[i]) <==> NoBytes(ts[i], v.items[i])
      ensures NoBytes(ts[i], v.items[i]) ==> ToWire(ts[i], n.items[i]) == ToWire(ts[i], v.items[i])
    {
      NormalStable(ts[i], v.items[i]);
    }
    assert |n.items| == |v.items|;
    StructConforms(t, n);
    StructConforms(t, v);
    if NoBytes(t, v) {
      assert ToWire(t, n).items == ToWire(t, v).items;
    }
  }

  lemma {:induction false} DictStable(t: Type, v: Value)
    requires t.Dict? && Conforms(t, v)
    ensures Conforms(t, Normal(t, v)) <==> NoBytes(t, v)
    ensures NoBytes(t, v) ==> ToWire(t, Normal(t, v)) == ToWire(t, v)
    decreases v, 0
  {
    hide ToDatum, NormalBasic;
    var n := Normal(t, v);
    forall i | 0 <= i < |v.slots|
      ensures SlotConforms(t, n.slots[i]) <==> NoBytes(t.value, v.slots[i].value)
      ensures NoBytes(t.value, v.slots[i].value) ==>
        EntryWire(t.key, t.value, n.slots[i]) == EntryWire(t.key, t.value, v.slots[i])
    {
      assert n.slots[i] == NormalPair(t.key, t.value, v.slots[i]);
      BasicStable(t.key, v.slots[i].key);
      NormalStable(t.value, v.slots[i].value);
    }
    assert |n.slots| == |v.slots|;
    DictConforms(t, n);
    DictConforms(t, v);
    if NoBytes(t, v) {
      assert ToWire(t, n).items == ToWire(t, v).items;
    }
  }

  // ----- Slot order

  /** A reordering of `n` positions and its inverse. */
  ghost predicate Permutation(p: seq<nat>, q: seq<nat>, n: nat) {
    && |p| == |q| == n
    && (forall i :: 0 <= i < n ==> p[i] < n && q[i] < n)
    && (forall i :: 0 <= i < n ==> q[p[i]] == i && p[q[i]] == i)
  }

  /** Equal but for the order of dictionary slots, at any depth. */
  ghost predicate SameValue(a: Value, b: Value)
    decreases a, 1
  {
    match a
    case Indexed(k, xs) =>
      b.Indexed? && b.tuple == k && |b.items| == |xs| && forall i :: 0 <= i < |xs| ==> SameValue(xs[i], b.items[i])
    case Dictionary(k, xs) =>
      && b.Dictionary? && b.table == k && |b.slots| == |xs|
      && exists p, q :: Permutation(p, q, |xs|) && SameSlots(a, b.slots, p)
    case _ => a == b
  }

  ghost predicate SameSlots(a: Value, ys: seq<Pair>, p: seq<nat>)
    requires a.Dictionary? && |ys| == |p| == |a.slots| && forall i :: 0 <= i < |p| ==> p[i] < |p|
    decreases a, 0
  {
    forall i :: 0 <= i < |a.slots| ==> a.slots[i].key == ys[p[i]].key && SameValue(a.slots[i].value, ys[p[i]].value)
  }

  /** Equal but for the order of dictionary entries, at any depth. */
  ghost predicate SameWire(a: Wire, b: Wire)
    decreases a, 1
  {
    match a
    case Leaf(_, _) => a == b
    case Node(k, s, xs) =>
      && b.Node? && b.kind == k && b.sig == s && |b.items| == |xs|
      && if k == ArrayKind && IsDict(s)
         then exists p, q :: Permutation(p, q, |xs|) && SameItems(a, b.items, p)
         else forall i :: 0 <= i < |xs| ==> SameWire(xs[i], b.items[i])
  }

  ghost predicate SameItems(a: Wire, ys: seq<Wire>, p: seq<nat>)
    requires a.Node? && |ys| == |p| == |a.items| && forall i :: 0 <= i < |p| ==> p[i] < |p|
    decreases a, 0
  {
    forall i :: 0 <= i < |a.items| ==> SameWire(a.items[i], ys[p[i]])
  }

  /** Values that differ in slot order only are accepted alike and written alike. */
  lemma {:induction false} SameValueSameWire(t: Type, a: Value, b: Value)
    requires Conforms(t, a) && SameValue(a, b)
    ensures Conforms(t, b) && SameWire(ToWire(t, a), ToWire(t, b))
    decreases a, 1
  {
    match t
    case Basic(c) => SameBasic(c, a, b);
    case Variant =>
      assert a.items[0] == b.items[0];
      SameValueSameWire(Single(a.items[0].s).value, a.items[1], b.items[1]);
    case Array(e) => if e == Basic('y') { SameBytes(a); } else { SameArray(t, a, b); }
    case Struct(_, _) => SameStruct(t, a, b);
    case Dict(_, _) => SameDict(t, a, b);
  }

  lemma {:induction false} SameBasic(c: Code, a: Value, b: Value)
    requires ToDatum(c, a).Some? && SameValue(a, b)
    ensures a == b
  {
  }

  lemma {:induction false} SameBytes(a: Value)
    requires a.Text?
    ensures SameWire(ByteArray(a.s), ByteArray(a.s))
  {
  }

  lemma {:induction false} SameArray(t: Type, a: Value, b: Value)
    requires t.Array? && t.elem != Basic('y') && Conforms(t, a) && SameValue(a, b)
    ensures Conforms(t, b) && SameWire(ToWire(t, a), ToWire(t, b))
    decreases a, 0
  {
    forall i | 0 <= i < |a.items|
      ensures Conforms(t.elem, b.items[i]) && SameWire(ToWire(t.elem, a.items[i]), ToWire(t.elem, b.items[i]))
    {
      SameValueSameWire(t.elem, a.items[i], b.items[i]);
    }
    ArrayConforms(t, a);
    ArrayConforms(t, b);
  }

  lemma {:induction false} SameStruct(t: Type, a: Value, b: Value)
    requires t.Struct? && Conforms(t, a) && SameValue(a, b)
    ensures Conforms(t, b) && SameWire(ToWire(t, a), ToWire(t, b))
    decreases a, 0
  {
    forall i | 0 <= i < |a.items|
      ensures Conforms(Fields(t)[i], b.items[i])
      ensures SameWire(ToWire(Fields(t)[i], a.items[i]), ToWire(Fields(t)[i], b.items[i]))
    {
      SameValueSameWire(Fields(t)[i], a.items[i], b.items[i]);
    }
    StructConforms(t, a);
    StructConforms(t, b);
  }

  lemma {:induction false} SameDict(t: Type, a: Value, b: Value)
    requires t.Dict? && Conforms(t, a) && SameValue(a, b)
    ensures Conforms(t, b) && SameWire(ToWire(t, a), ToWire(t, b))
    decreases a, 0
  {
    hide ToDatum, SameWire, EntryWire, ToWire, Conforms, SameValue, SameItems;
    ConformsHead(t, a);
    DictConforms(t, a);
    var p, q := Reordered(a, b);
    var n := |a.slots|;
    forall i | 0 <= i < n
      ensures SlotConforms(t, b.slots[p[i]])
      ensures SameWire(EntryWire(t.key, t.value, a.slots[i]), EntryWire(t.key, t.value, b.slots[p[i]]))
    {
      SameEntry(t, a.slots[i], b.slots[p[i]]);
    }
    forall j | 0 <= j < n ensures SlotConforms(t, b.slots[j]) {
      assert p[q[j]] == j;
    }
    DictConforms(t, b);
    SameNode(t, a, b, p, q);
  }

  lemma {:induction false} Reordered(a: Value, b: Value) returns (p: seq<nat>, q: seq<nat>)
    requires a.Dictionary? && SameValue(a, b)
    ensures b.Dictionary? && |b.slots| == |a.slots| && Permutation(p, q, |a.slots|)
    ensures forall i :: 0 <= i < |a.slots| ==>
      a.slots[i].key == b.slots[p[i]].key && SameValue(a.slots[i].value, b.slots[p[i]].value)
  {
    p, q :| Permutation(p, q, |a.slots|) && SameSlots(a, b.slots, p);
  }

  lemma {:induction false} SameEntry(t: Type, x: Pair, y: Pair)
    requires t.Dict? && SlotConforms(t, x) && x.key == y.key && SameValue(x.value, y.value)
    ensures SlotConforms(t, y) && SameWire(EntryWire(t.key, t.value, x), EntryWire(t.key, t.value, y))
    decreases x, 0
  {
    hide ToDatum;
    SameValueSameWire(t.value, x.value, y.value);
  }

  lemma {:induction false} SameNode(t: Type, a: Value, b: Value, p: seq<nat>, q: seq<nat>)
    requires t.Dict? && a.Dictionary? && b.Dictionary? && Conforms(t, a) && Conforms(t, b)
    requires |a.slots| == |b.slots| && Permutation(p, q, |a.slots|)
    requires forall i :: 0 <= i < |a.slots| ==>
      && SlotConforms(t, a.slots[i]) && SlotConforms(t, b.slots[p[i]])
      && SameWire(EntryWire(t.key, t.value, a.slots[i]), EntryWire(t.key, t.value, b.slots[p[i]]))
    ensures SameWire(ToWire(t, a), ToWire(t, b))
  {
    hide ToDatum, EntryWire, ToWire, Conforms, SameWire;
    DictConforms(t, a);
    DictConforms(t, b);
    var x, y := ToWire(t, a), ToWire(t, b);
    forall i | 0 <= i < |x.items| ensures SameWire(x.items[i], y.items[p[i]]) {
      assert x.items[i] == EntryWire(t.key, t.value, a.slots[i]);
      assert y.items[p[i]] == EntryWire(t.key, t.value, b.slots[p[i]]);
    }
    SameByItems(x, y, p, q);
  }

  lemma {:induction false} SameByItems(x: Wire, y: Wire, p: seq<nat>, q: seq<nat>)
    requires x.Node? && y.Node? && x.kind == y.kind == ArrayKind && x.sig == y.sig && IsDict(x.sig)
    requires |x.items| == |y.items| && Permutation(p, q, |x.items|) && SameItems(x, y.items, p)
    ensures SameWire(x, y)
  {
  }

  lemma {:induction false} SameSymmetric(a: Value, b: Value)
    requires SameValue(a, b)
    ensures SameValue(b, a)
    decreases a
  {
    match a
    case Indexed(_, xs) =>
      forall i | 0 <= i < |xs| ensures SameValue(b.items[i], xs[i]) { SameSymmetric(xs[i], b.items[i]); }
    case Dictionary(_, xs) =>
      var p, q :| Permutation(p, q, |xs|) && SameSlots(a, b.slots, p);
      forall j | 0 <= j < |xs| ensures b.slots[j].key == xs[q[j]].key && SameValue(b.slots[j].value, xs[q[j]].value) {
        assert p[q[j]] == j;
        SameSymmetric(xs[q[j]].value, b.slots[j].value);
      }
      assert Permutation(q, p, |xs|) && SameSlots(b, a.slots, q);
    case _ =>
  }

  // ----- Stability

  /** Appending what was read, whatever slot order its tables have by then, succeeds exactly when
      no byte array was appended the first time, and then builds the same message but for the
      order of dictionary entries. */
  lemma {:induction false} ReappendStable(t: Type, v: Value, again: Value)
    requires Conforms(t, v) && Janet(v) && KeysDistinct(t, v)
    requires Readable(ToWire(t, v)) && SameValue(Decode(ToWire(t, v)), again)
    ensures Conforms(t, again) <==> NoBytes(t, v)
    ensures NoBytes(t, v) ==> SameWire(ToWire(t, v), ToWire(t, again))
  {
    hide Conforms, ToWire, Decode, Readable, Normal, NoBytes, SameValue, SameWire, Janet, KeysDistinct;
    RoundTripExact(t, v);
    NormalStable(t, v);
    var n := Normal(t, v);
    if NoBytes(t, v) {
      SameValueSameWire(t, n, again);
    }
    if Conforms(t, again) {
      SameSymmetric(n, again);
      SameValueSameWire(t, again, n);
    }
  }

  /** The same for whole argument lists: re-appending what was read from a message. */
  lemma {:induction false} ReappendAll(ts: seq<Type>, vs: seq<Value>, again: seq<Value>)
    requires ConformAll(ts, vs) && |again| == |vs|
    requires forall i :: 0 <= i < |vs| ==> Janet(vs[i]) && KeysDistinct(ts[i], vs[i])
    requires forall i :: 0 <= i < |vs| ==>
      Readable(ToWire(ts[i], vs[i])) && SameValue(Decode(ToWire(ts[i], vs[i])), again[i])
    ensures ConformAll(ts, again) <==> forall i :: 0 <= i < |vs| ==> NoBytes(ts[i], vs[i])
    ensures ConformAll(ts, again) ==> forall i :: 0 <= i < |vs| ==> SameWire(ToWires(ts, vs)[i], ToWires(ts, again)[i])
  {
    hide Conforms, ToWire, Decode, Readable, NoBytes, SameValue, SameWire, Janet, KeysDistinct;
    forall i | 0 <= i < |vs|
      ensures Conforms(ts[i], again[i]) <==> NoBytes(ts[i], vs[i])
      ensures NoBytes(ts[i], vs[i]) ==> SameWire(ToWire(ts[i], vs[i]), ToWire(ts[i], again[i]))
    {
      ReappendStable(ts[i], vs[i], again[i]);
    }
  }
}
