/** Writing and then reading: what comes back, exactly when, and what writing that again does. */
module RoundTrip {
  import opened Options
  import opened Signatures
  import opened Values
  import opened Messages
  import opened Writer
  import opened Reader

  // ----- Normal forms (the "Returns" column of the type table)

  ghost function NormalBasic(c: Code, v: Value): Value {
    if c == 'x' && v.Number? && v.d.Finite? then S64(v.d.r.Floor)
    else if c == 't' && v.Number? && v.d.Finite? then U64(v.d.r.Floor)
    else v
  }

  ghost function Normal(t: Type, v: Value): Value
    requires Conforms(t, v)
    decreases v
  {
    match t
    case Basic(c) => NormalBasic(c, v)
    case Variant => Indexed(true, [v.items[0], Normal(Single(v.items[0].s).value, v.items[1])])
    case Array(e) =>
      if e == Basic('y') then Indexed(false, seq(|v.s|, i requires 0 <= i < |v.s| => FromInt(v.s[i] as int)))
      else Indexed(false, seq(|v.items|, i requires 0 <= i < |v.items| => Normal(e, v.items[i])))
    case Struct(_, _) =>
      Indexed(true, seq(|v.items|, i requires 0 <= i < |v.items| => Normal(Fields(t)[i], v.items[i])))
    case Dict(k, e) => Dictionary(true, seq(|v.slots|, i requires 0 <= i < |v.slots| => NormalPair(k, e, v.slots[i])))
  }

  ghost function NormalPair(k: Code, e: Type, p: Pair): Pair
    requires ToDatum(k, p.key).Some? && Conforms(e, p.value)
    decreases p
  {
    Pair(NormalBasic(k, p.key), Normal(e, p.value))
  }

  /** In every dictionary met on the way, distinct slots have distinct keys on the wire. */
  ghost predicate KeysDistinct(t: Type, v: Value)
    requires Conforms(t, v)
    decreases v
  {
    match t
    case Basic(_) => true
    case Variant => KeysDistinct(Single(v.items[0].s).value, v.items[1])
    case Array(e) => e != Basic('y') ==> forall i :: 0 <= i < |v.items| ==> KeysDistinct(e, v.items[i])
    case Struct(_, _) => forall i :: 0 <= i < |v.items| ==> KeysDistinct(Fields(t)[i], v.items[i])
    case Dict(k, e) =>
      && (forall i, j :: 0 <= i < j < |v.slots| ==> ToDatum(k, v.slots[i].key) != ToDatum(k, v.slots[j].key))
      && (forall i :: 0 <= i < |v.slots| ==> KeysDistinct(e, v.slots[i].value))
  }

  lemma {:induction false} BasicRoundTrip(c: Code, v: Value)
    requires ToDatum(c, v).Some?
    ensures FromDatum(c, ToDatum(c, v).value) == NormalBasic(c, v)
  {
  }

  lemma {:induction false} KeysStayDistinct(c: Code, v: Value, w: Value)
    requires ToDatum(c, v).Some? && ToDatum(c, w).Some?
    ensures NormalBasic(c, v) == NormalBasic(c, w) <==> ToDatum(c, v) == ToDatum(c, w)
  {
  }

  // ----- What is written is well typed, and what is well typed can be read

  lemma {:induction false} DatumIsTyped(c: Code, v: Value)
    requires ToDatum(c, v).Some? && Janet(v)
    ensures DatumFits(c, ToDatum(c, v).value)
  {
  }

  /** Every item written has the type its signature says. */
  lemma {:induction false} WireIsTyped(t: Type, v: Value)
    requires Conforms(t, v) && Janet(v)
    ensures Typed(t, ToWire(t, v))
    decreases v
  {
    match t
    case Basic(c) => DatumIsTyped(c, v);
    case Variant => WireIsTyped(Single(v.items[0].s).value, v.items[1]);
    case Array(e) =>
      if e != Basic('y') {
        forall i | 0 <= i < |v.items| ensures Typed(e, ToWire(e, v.items[i])) { WireIsTyped(e, v.items[i]); }
      } else {
        assert Show(e) == "y";
      }
    case Struct(_, _) =>
      forall i | 0 <= i < |v.items| ensures Typed(Fields(t)[i], ToWire(Fields(t)[i], v.items[i])) {
        WireIsTyped(Fields(t)[i], v.items[i]);
      }
    case Dict(k, e) =>
      forall i | 0 <= i < |v.slots|
        ensures Typed(e, ToWire(e, v.slots[i].value)) && DatumFits(k, ToDatum(k, v.slots[i].key).value)
      {
        WireIsTyped(e, v.slots[i].value);
        DatumIsTyped(k, v.slots[i].key);
      }
  }

  lemma {:induction false} TypedIsReadable(t: Type, w: Wire)
    requires Typed(t, w)
    ensures Readable(w)
    decreases w
  {
    match t
    case Basic(_) =>
    case Variant => TypedIsReadable(Single(w.sig).value, w.items[0]);
    case Array(e) =>
      forall i | 0 <= i < |w.items| ensures Readable(w.items[i]) { TypedIsReadable(e, w.items[i]); }
    case Struct(_, _) =>
      forall i | 0 <= i < |w.items| ensures Readable(w.items[i]) { TypedIsReadable(Fields(t)[i], w.items[i]); }
    case Dict(_, e) =>
      forall i | 0 <= i < |w.items| ensures ReadableEntry(w.items[i]) { TypedIsReadable(e, w.items[i].items[1]); }
  }

  lemma {:induction false} WireIsReadable(t: Type, v: Value)
    requires Conforms(t, v) && Janet(v)
    ensures Readable(ToWire(t, v))
  {
    WireIsTyped(t, v);
    TypedIsReadable(t, ToWire(t, v));
  }

  // ----- The "Returns" column

  /** A value of the kind that reading a type returns, at every depth. */
  ghost predicate Returned(t: Type, v: Value)
    decreases v
  {
    match t
    case Basic(c) => ReturnedBasic(c, v)
    case Variant =>
      && v.Indexed? && v.tuple && |v.items| == 2
      && exists u :: v.items[0] == Text(StringText, Show(u)) && Returned(u, v.items[1])
    case Array(e) => v.Indexed? && !v.tuple && forall x :: x in v.items ==> Returned(e, x)
    case Struct(f, ts) =>
      && v.Indexed? && v.tuple && |v.items| == 1 + |ts| && Returned(f, v.items[0])
      && forall i :: 1 <= i < |v.items| ==> Returned(ts[i - 1], v.items[i])
    case Dict(k, e) =>
      v.Dictionary? && v.table && forall p :: p in v.slots ==> ReturnedBasic(k, p.key) && Returned(e, p.value)
  }

  ghost predicate ReturnedBasic(c: Code, v: Value) {
    match c
    case 'b' => v.Boolean?
    case 'x' => v.S64?
    case 't' => v.U64?
    case 's' | 'o' | 'g' => v.Text? && v.kind == StringText
    case 'h' => true
    case _ => v.Number?
  }

  /** Every well-typed item is read as what the table says its type returns. */
  lemma {:induction false} TypedIsReturned(t: Type, w: Wire)
    requires Typed(t, w)
    ensures Readable(w) && Returned(t, Decode(w))
    decreases w
  {
    hide Show, Single, DatumFits, ReturnedBasic, Put, Table;
    TypedIsReadable(t, w);
    match t
    case Basic(c) => DatumReturned(c, w.datum);
    case Variant =>
      var u := Single(w.sig).value;
      SingleExact(w.sig, u);
      TypedIsReturned(u, w.items[0]);
      assert Decode(w).items[1] == Decode(w.items[0]);
    case Array(e) =>
      NoDictSig(e);
      forall i | 0 <= i < |w.items| ensures Returned(e, Decode(w.items[i])) { TypedIsReturned(e, w.items[i]); }
    case Struct(_, ts) =>
      forall i | 0 <= i < |w.items| ensures Returned(Fields(t)[i], Decode(w.items[i])) {
        TypedIsReturned(Fields(t)[i], w.items[i]);
      }
      assert forall i :: 1 <= i < |w.items| ==> Fields(t)[i] == ts[i - 1];
    case Dict(k, e) =>
      forall i | 0 <= i < |w.items|
        ensures ReadableEntry(w.items[i])
        ensures ReturnedBasic(k, EntryKey(w.items[i])) && Returned(e, EntryValue(w.items[i]))
      {
        DatumReturned(k, w.items[i].items[0].datum);
        TypedIsReturned(e, w.items[i].items[1]);
      }
      TableReturned(k, e, w.items);
  }

  lemma {:induction false} NoDictSig(e: Type)
    ensures !IsDict(Show(e))
  {
  }

  lemma {:induction false} DatumReturned(c: Code, d: Datum)
    requires DatumFits(c, d)
    ensures ReturnedBasic(c, FromDatum(c, d))
  {
  }

  lemma {:induction false} TableReturned(k: Code, e: Type, es: seq<Wire>)
    requires forall i :: 0 <= i < |es| ==>
      ReadableEntry(es[i]) && ReturnedBasic(k, EntryKey(es[i])) && Returned(e, EntryValue(es[i]))
    ensures forall p :: p in Table(es) ==> ReturnedBasic(k, p.key) && Returned(e, p.value)
  {
    hide Returned, ReturnedBasic, Put;
    if es != [] {
      var n := |es| - 1;
      TableReturned(k, e, es[..n]);
      PutAmong(Table(es[..n]), EntryKey(es[n]), EntryValue(es[n]));
    }
  }

  lemma {:induction false} PutAmong(slots: seq<Pair>, k: Value, v: Value)
    ensures forall p :: p in Put(slots, k, v) ==> p in slots || p == Pair(k, v)
  {
    if slots != [] {
      PutAmong(slots[1..], k, v);
    }
  }

  // ----- Tables

  lemma {:induction false} PutLength(slots: seq<Pair>, k: Value, v: Value)
    ensures |slots| <= |Put(slots, k, v)| <= |slots| + 1
    ensures (exists i :: 0 <= i < |slots| && slots[i].key == k) ==> |Put(slots, k, v)| == |slots|
    ensures k != Number(NaN) && (forall i :: 0 <= i < |slots| ==> slots[i].key != k) ==>
      Put(slots, k, v) == slots + [Pair(k, v)]
  {
    if slots != [] && k != Number(NaN) && slots[0].key != k {
      PutLength(slots[1..], k, v);
      assert slots == [slots[0]] + slots[1..];
      if i :| 0 <= i < |slots| && slots[i].key == k {
        assert slots[1..][i - 1].key == k;
      }
    }
  }

  ghost predicate DistinctKeys(es: seq<Wire>)
    requires forall i :: 0 <= i < |es| ==> ReadableEntry(es[i])
  {
    && (forall i, j :: 0 <= i < j < |es| ==> EntryKey(es[i]) != EntryKey(es[j]))
    && (forall i :: 0 <= i < |es| ==> EntryKey(es[i]) != Number(NaN))
  }

  /** Putting entries one by one keeps them all, in order, when their keys are distinct. */
  lemma {:induction false} TableKeeps(es: seq<Wire>)
    requires forall i :: 0 <= i < |es| ==> ReadableEntry(es[i])
    requires DistinctKeys(es)
    ensures |Table(es)| == |es|
    ensures forall i :: 0 <= i < |es| ==> Table(es)[i] == Pair(EntryKey(es[i]), EntryValue(es[i]))
    decreases |es|
  {
    hide Put, ReadableEntry, EntryKey, EntryValue;
    if es != [] {
      var n := |es| - 1;
      FrontDistinct(es);
      TableKeeps(es[..n]);
      PutLength(Table(es[..n]), EntryKey(es[n]), EntryValue(es[n]));
    }
  }

  /** Otherwise some entry is lost. */
  lemma {:induction false} TableShrinks(es: seq<Wire>)
    requires forall i :: 0 <= i < |es| ==> ReadableEntry(es[i])
    ensures |Table(es)| <= |es|
    ensures !DistinctKeys(es) ==> |Table(es)| < |es|
    decreases |es|
  {
    hide Put, ReadableEntry, EntryKey, EntryValue;
    if es != [] {
      var n := |es| - 1;
      TableShrinks(es[..n]);
      PutLength(Table(es[..n]), EntryKey(es[n]), EntryValue(es[n]));
      PutNaN(Table(es[..n]), EntryValue(es[n]));
      if DistinctKeys(es[..n]) && !DistinctKeys(es) {
        TableKeeps(es[..n]);
        if EntryKey(es[n]) != Number(NaN) {
          LastCollides(es);
        }
      }
    }
  }

  lemma {:induction false} LastCollides(es: seq<Wire>)
    requires es != [] && forall i :: 0 <= i < |es| ==> ReadableEntry(es[i])
    requires DistinctKeys(es[..|es| - 1]) && !DistinctKeys(es) && EntryKey(es[|es| - 1]) != Number(NaN)
    ensures exists i :: 0 <= i < |es| - 1 && EntryKey(es[i]) == EntryKey(es[|es| - 1])
  {
  }

  lemma {:induction false} PutNaN(slots: seq<Pair>, v: Value)
    ensures Put(slots, Number(NaN), v) == slots
  {
  }

  lemma FrontDistinct(es: seq<Wire>)
    requires es != [] && forall i :: 0 <= i < |es| ==> ReadableEntry(es[i])
    ensures DistinctKeys(es) ==> DistinctKeys(es[..|es| - 1])
  {
  }

  // ----- The round trip

  /** What is read back is the normal form of what was written, exactly when no dictionary on the
      way has two keys that are one on the wire. */
  lemma {:induction false} RoundTripExact(t: Type, v: Value)
    requires Conforms(t, v) && Janet(v)
    ensures Readable(ToWire(t, v))
    ensures Decode(ToWire(t, v)) == Normal(t, v) <==> KeysDistinct(t, v)
    decreases v, 1
  {
    WireIsReadable(t, v);
    match t
    case Basic(c) => BasicRoundTrip(c, v);
    case Variant => RoundTripExact(Single(v.items[0].s).value, v.items[1]);
    case Array(e) => if e == Basic('y') { BytesRoundTrip(v); } else { ArrayRoundTrip(t, v); }
    case Struct(_, _) => StructRoundTrip(t, v);
    case Dict(_, _) => DictRoundTrip(t, v);
  }

  const TWO_ONES := Dictionary(true, [Pair(FromInt(1), FromInt(10)), Pair(S64(1), FromInt(20))])

  /** Two keys of a Janet table that are one on the wire: the later entry replaces the earlier. */
  lemma {:induction false} KeysCollide()
    ensures var t := Dict('x', Basic('i'));
      && Janet(TWO_ONES) && Conforms(t, TWO_ONES) && !KeysDistinct(t, TWO_ONES)
      && Readable(ToWire(t, TWO_ONES))
      && Decode(ToWire(t, TWO_ONES)) == Dictionary(true, [Pair(S64(1), FromInt(20))])
  {
    hide Decode, Readable, Table, Put, ToWire, Conforms;
    var t := Dict('x', Basic('i'));
    TwoOnes();
    WireIsReadable(t, TWO_ONES);
    DecodeDict(ToWire(t, TWO_ONES));
    OneEntryLeft();
  }

  lemma {:induction false} TwoOnes()
    ensures var t := Dict('x', Basic('i'));
      && Janet(TWO_ONES) && Conforms(t, TWO_ONES) && !KeysDistinct(t, TWO_ONES)
      && ToWire(t, TWO_ONES) == Node(ArrayKind, "{xi}", [OneWire(10), OneWire(20)])
  {
    hide ToWire;
    assert ToDatum('x', TWO_ONES.slots[0].key) == ToDatum('x', TWO_ONES.slots[1].key);
    TwoWires();
  }

  lemma {:induction false} TwoWires()
    ensures Conforms(Dict('x', Basic('i')), TWO_ONES)
    ensures ToWire(Dict('x', Basic('i')), TWO_ONES) == Node(ArrayKind, "{xi}", [OneWire(10), OneWire(20)])
  {
    hide EntryWire, OneWire;
    OneEntryWire(FromInt(1), 10);
    OneEntryWire(S64(1), 20);
    assert Conforms(Dict('x', Basic('i')), TWO_ONES);
    assert ToWire(Dict('x', Basic('i')), TWO_ONES).items == [OneWire(10), OneWire(20)];
    assert ShowEntry('x', Basic('i')) == "{xi}";
  }

  /** An entry under the key 1 of type x. */
  function OneWire(n: int): Wire {
    Node(EntryKind, "xi", [Leaf('x', Int(1)), Leaf('i', Int(n))])
  }

  lemma {:induction false} OneEntryWire(key: Value, n: int)
    requires ToDatum('x', key) == Some(Int(1)) && InRange('i', n)
    ensures Conforms(Basic('i'), FromInt(n)) && EntryWire('x', Basic('i'), Pair(key, FromInt(n))) == OneWire(n)
  {
    assert ['x'] + Show(Basic('i')) == "xi";
  }

  lemma {:induction false} DecodeDict(w: Wire)
    requires w.Node? && w.kind == ArrayKind && IsDict(w.sig) && Readable(w)
    ensures (forall i :: 0 <= i < |w.items| ==> ReadableEntry(w.items[i]))
    ensures Decode(w) == Dictionary(true, Table(w.items))
  {
  }

  lemma {:induction false} OneEntryLeft()
    ensures ReadableEntry(OneWire(10)) && ReadableEntry(OneWire(20))
    ensures Table([OneWire(10), OneWire(20)]) == [Pair(S64(1), FromInt(20))]
  {
    var es := [OneWire(10), OneWire(20)];
    assert es[..1] == [OneWire(10)] && [OneWire(10)][..0] == [];
    assert Table([OneWire(10)]) == [Pair(S64(1), FromInt(10))];
  }

  lemma {:induction false} BytesRoundTrip(v: Value)
    requires v.Text? && Readable(ByteArray(v.s))
    ensures Decode(ByteArray(v.s)) == Normal(Array(Basic('y')), v)
  {
  }

  lemma {:induction false} ArrayRoundTrip(t: Type, v: Value)
    requires t.Array? && t.elem != Basic('y') && Conforms(t, v) && Janet(v) && Readable(ToWire(t, v))
    ensures Decode(ToWire(t, v)) == Normal(t, v) <==> KeysDistinct(t, v)
    decreases v, 0
  {
    var e, n := t.elem, |v.items|;
    var w := ToWire(t, v);
    forall i | 0 <= i < n
      ensures Readable(ToWire(e, v.items[i]))
      ensures Decode(ToWire(e, v.items[i])) == Normal(e, v.items[i]) <==> KeysDistinct(e, v.items[i])
    {
      RoundTripExact(e, v.items[i]);
    }
    var got, want := Decode(w).items, Normal(t, v).items;
    assert |got| == |want| == n;
    assert forall i :: 0 <= i < n ==> got[i] == Decode(ToWire(e, v.items[i])) && want[i] == Normal(e, v.items[i]);
  }

  lemma {:induction false} StructRoundTrip(t: Type, v: Value)
    requires t.Struct? && Conforms(t, v) && Janet(v) && Readable(ToWire(t, v))
    ensures Decode(ToWire(t, v)) == Normal(t, v) <==> KeysDistinct(t, v)
    decreases v, 0
  {
    var ts, n := Fields(t), |v.items|;
    var w := ToWire(t, v);
    forall i | 0 <= i < n
      ensures Readable(ToWire(ts[i], v.items[i]))
      ensures Decode(ToWire(ts[i], v.items[i])) == Normal(ts[i], v.items[i]) <==> KeysDistinct(ts[i], v.items[i])
    {
      RoundTripExact(ts[i], v.items[i]);
    }
    var got, want := Decode(w).items, Normal(t, v).items;
    assert |got| == |want| == n;
    assert forall i :: 0 <= i < n ==>
      got[i] == Decode(ToWire(ts[i], v.items[i])) && want[i] == Normal(ts[i], v.items[i]);
  }

  lemma {:induction false} DictRoundTrip(t: Type, v: Value)
    requires t.Dict? && Conforms(t, v) && Janet(v) && Readable(ToWire(t, v))
    ensures Decode(ToWire(t, v)) == Normal(t, v) <==> KeysDistinct(t, v)
    decreases v, 0
  {
    hide ToDatum, KeysDistinct, ReadableEntry, EntryKey, EntryValue, EntryWire;
    hide NormalPair, Normal, ToWire, Decode, Table, Readable;
    var n := |v.slots|;
    DictShapes(t, v);
    var es, want := ToWire(t, v).items, Normal(t, v).slots;
    forall i | 0 <= i < n
      ensures EntryKey(es[i]) == want[i].key == NormalBasic(t.key, v.slots[i].key)
      ensures EntryValue(es[i]) == want[i].value <==> KeysDistinct(t.value, v.slots[i].value)
    {
      SlotRoundTrip(t.key, t.value, v.slots[i]);
    }
    KeysMatch(t, v, es);
    TableShrinks(es);
    if DistinctKeys(es) {
      TableKeeps(es);
      assert (forall i :: 0 <= i < n ==> EntryValue(es[i]) == want[i].value) <==> Table(es) == want;
    }
    KeysDistinctDict(t, v);
  }

  lemma {:induction false} DictShapes(t: Type, v: Value)
    requires t.Dict? && Conforms(t, v) && Readable(ToWire(t, v))
    ensures ToWire(t, v).Node? && Normal(t, v).Dictionary?
    ensures var es, want := ToWire(t, v).items, Normal(t, v).slots;
      && |es| == |want| == |v.slots| && Normal(t, v) == Dictionary(true, want)
      && (forall i :: 0 <= i < |es| ==> ReadableEntry(es[i]) && SlotConforms(t, v.slots[i]))
      && Decode(ToWire(t, v)) == Dictionary(true, Table(es))
      && (forall i :: 0 <= i < |es| ==> es[i] == EntryWire(t.key, t.value, v.slots[i]))
      && (forall i :: 0 <= i < |es| ==> want[i] == NormalPair(t.key, t.value, v.slots[i]))
  {
    hide ToDatum, ReadableEntry, EntryWire, NormalPair, Table;
  }

  lemma {:induction false} SlotRoundTrip(k: Code, e: Type, p: Pair)
    requires ToDatum(k, p.key).Some? && Conforms(e, p.value) && Janet(p.value) && ReadableEntry(EntryWire(k, e, p))
    ensures EntryKey(EntryWire(k, e, p)) == NormalPair(k, e, p).key == NormalBasic(k, p.key)
    ensures EntryValue(EntryWire(k, e, p)) == NormalPair(k, e, p).value <==> KeysDistinct(e, p.value)
    decreases p, 0
  {
    hide ToDatum, NormalBasic, KeysDistinct, FromDatum;
    BasicRoundTrip(k, p.key);
    RoundTripExact(e, p.value);
  }

  lemma {:induction false} KeysDistinctDict(t: Type, v: Value)
    requires t.Dict? && Conforms(t, v)
    ensures KeysDistinct(t, v) <==>
      && (forall i, j :: 0 <= i < j < |v.slots| ==> ToDatum(t.key, v.slots[i].key) != ToDatum(t.key, v.slots[j].key))
      && (forall i :: 0 <= i < |v.slots| ==> KeysDistinct(t.value, v.slots[i].value))
  {
  }

  /** The keys read are pairwise distinct exactly when the keys on the wire are. */
  lemma {:induction false} KeysMatch(t: Type, v: Value, es: seq<Wire>)
    requires t.Dict? && Conforms(t, v) && Janet(v) && |es| == |v.slots|
    requires forall i :: 0 <= i < |es| ==> ReadableEntry(es[i]) && EntryKey(es[i]) == NormalBasic(t.key, v.slots[i].key)
    ensures DistinctKeys(es) <==>
      forall i, j :: 0 <= i < j < |es| ==> ToDatum(t.key, v.slots[i].key) != ToDatum(t.key, v.slots[j].key)
  {
    hide ToDatum, ReadableEntry, EntryKey, NormalBasic;
    forall i, j | 0 <= i < j < |es|
      ensures EntryKey(es[i]) == EntryKey(es[j]) <==> ToDatum(t.key, v.slots[i].key) == ToDatum(t.key, v.slots[j].key)
    {
      KeysStayDistinct(t.key, v.slots[i].key, v.slots[j].key);
    }
    forall i | 0 <= i < |es| ensures EntryKey(es[i]) != Number(NaN) {
      NormalNotNaN(t.key, v.slots[i].key);
    }
  }

  lemma NormalNotNaN(c: Code, v: Value)
    requires v != Number(NaN)
    ensures NormalBasic(c, v) != Number(NaN)
  {
  }
}
