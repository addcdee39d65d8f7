/** Exported properties: Set requests and change signals (src/export.c, init.janet). */
module Properties {
  import opened Messages
  import opened Reader
  import opened Values

  type ReadableWire = w: Wire | Readable(w) witness Leaf('s', Chars(""))

  /** The payload of a Set request: sd-bus hands over exactly one item of the property's type.
      Reading it fails only where a file descriptor cannot be duplicated (src/message.c:446-448). */
  datatype Request = Payload(item: ReadableWire) | Unreadable

  /** What message-read yields. */
  function Asked(req: Request): Value
    requires req.Payload?
  {
    Decode(req.item)
  }

  /** An item is never read as nil, so a setter that stores a value never looks like one that did
      not. */
  lemma {:induction false} ReadNeverNil(w: Wire)
    requires Readable(w)
    ensures Decode(w) != Nil
  {
  }

  datatype SetterKind = NoSetter | PlainSetter | SignalSetter

  class Property {
    /** Janet's deep-not=. */
    const differs: (Value, Value) -> bool
    const setter: SetterKind
    var value: Value
    var signals: nat

    /** sdbus/property and create_vtable_property: only properties flagged 'w' have a setter, and it
        signals exactly for those also flagged 'e' or 'i'. */
    constructor (value: Value, flags: string, differs: (Value, Value) -> bool)
      ensures this.value == value && signals == 0 && this.differs == differs
      ensures setter != NoSetter <==> 'w' in flags
      ensures setter == SignalSetter <==> 'w' in flags && ('e' in flags || 'i' in flags)
    {
      this.value, this.differs, signals := value, differs, 0;
      var writable := 'w' in flags;
      if writable && ('e' in flags || 'i' in flags) {
        setter := SignalSetter;
      } else if writable {
        setter := PlainSetter;
      } else {
        setter := NoSetter;
      }
    }

    /** property-setter inside property-wrapper: the new value when it was stored, nil when it
        was the old one, and the caught error when the payload could not be read. */
    method Store(req: Request) returns (out: Value)
      modifies this`value
      ensures value == NewValue(differs, old(value), req)
      ensures out != Nil <==> Signalled(differs, old(value), req)
    {
      match req {
        case Unreadable =>
          return Str("error");
        case Payload(item) =>
          var v := Decode(item);
          if differs(value, v) {
            ReadNeverNil(item);
            value := v;
            return v;
          }
          return Nil;
      }
    }

    /** property_handler_core: 1 when the setter returned nil. */
    method HandlerCore(req: Request) returns (rv: int)
      modifies this`value
      ensures value == NewValue(differs, old(value), req)
      ensures rv == 0 <==> Signalled(differs, old(value), req)
    {
      var out := Store(req);
      return if out == Nil then 1 else 0;
    }

    method Set(req: Request)
      modifies this
      ensures value == if setter == NoSetter then old(value) else NewValue(differs, old(value), req)
      ensures signals == old(signals) + if setter == SignalSetter && Signalled(differs, old(value), req) then 1 else 0
    {
      match setter {
        case NoSetter =>
        case PlainSetter =>
          var _ := HandlerCore(req);
        case SignalSetter =>
          var rv := HandlerCore(req);
          if rv == 0 {
            signals := signals + 1;
          }
      }
    }

    /** A whole history of requests. */
    method SetAll(reqs: seq<Request>)
      modifies this
      ensures setter != NoSetter ==> value == Stored(differs, old(value), reqs)
      ensures setter == NoSetter ==> value == old(value)
      ensures signals == old(signals) + if setter == SignalSetter then Signals(differs, old(value), reqs) else 0
    {
      for i := 0 to |reqs|
        invariant setter != NoSetter ==> value == Stored(differs, old(value), reqs[..i])
        invariant setter == NoSetter ==> value == old(value)
        invariant signals ==
                  old(signals) + if setter == SignalSetter then Signals(differs, old(value), reqs[..i]) else 0
      {
        assert reqs[..i + 1][..i] == reqs[..i];
        Set(reqs[i]);
      }
      assert reqs[..|reqs|] == reqs;
    }
  }

  ghost function NewValue(differs: (Value, Value) -> bool, v: Value, req: Request): Value {
    if req.Payload? && differs(v, Asked(req)) then Asked(req) else v
  }

  ghost predicate Signalled(differs: (Value, Value) -> bool, v: Value, req: Request) {
    req.Payload? ==> differs(v, Asked(req))
  }

  ghost function Stored(differs: (Value, Value) -> bool, v: Value, reqs: seq<Request>): Value {
    if reqs == [] then v
    else NewValue(differs, Stored(differs, v, reqs[..|reqs| - 1]), reqs[|reqs| - 1])
  }

  ghost function Signals(differs: (Value, Value) -> bool, v: Value, reqs: seq<Request>): nat {
    if reqs == [] then 0
    else
      var front := reqs[..|reqs| - 1];
      Signals(differs, v, front) + if Signalled(differs, Stored(differs, v, front), reqs[|reqs| - 1]) then 1 else 0
  }

  /** A property from its definition through a history of requests: only writable ones change, and
      only those flagged 'e' or 'i' signal. */
  method Served(value: Value, flags: string, differs: (Value, Value) -> bool, reqs: seq<Request>)
    returns (last: Value, signals: nat)
    ensures last == if 'w' in flags then Stored(differs, value, reqs) else value
    ensures signals == if 'w' in flags && ('e' in flags || 'i' in flags) then Signals(differs, value, reqs) else 0
  {
    var p := new Property(value, flags, differs);
    p.SetAll(reqs);
    return p.value, p.signals;
  }

  // ----- Histories

  /** Janet's deep equality is symmetric and transitive. It is not reflexive: a value that holds
      NaN differs from itself. */
  ghost predicate PartialEquivalence(differs: (Value, Value) -> bool) {
    && (forall a, b :: differs(a, b) == differs(b, a))
    && (forall a, b, c :: !differs(a, b) && !differs(b, c) ==> !differs(a, c))
  }

  /** The value asked for last in the first `n` requests, leaving out those that cannot be read. */
  ghost function LastAsked(v: Value, reqs: seq<Request>, n: nat): Value
    requires n <= |reqs|
  {
    if n == 0 then v else if reqs[n - 1].Payload? then Asked(reqs[n - 1]) else LastAsked(v, reqs, n - 1)
  }

  /** How many of the first `n` requests ask for something else than the last one that was read. */
  ghost function Changes(differs: (Value, Value) -> bool, v: Value, reqs: seq<Request>, n: nat): nat
    requires n <= |reqs|
  {
    if n == 0 then 0
    else
      var req := reqs[n - 1];
      Changes(differs, v, reqs, n - 1)
      + if req.Payload? && differs(LastAsked(v, reqs, n - 1), Asked(req)) then 1 else 0
  }

  /** How many of the first `n` requests cannot be read. */
  ghost function Faults(reqs: seq<Request>, n: nat): nat
    requires n <= |reqs|
  {
    if n == 0 then 0 else Faults(reqs, n - 1) + if reqs[n - 1].Unreadable? then 1 else 0
  }

  /** Over any history of requests, the stored value is the one last asked for, or deeply equal to
      it, and there is one signal for every request that asks for something else than the one
      before it and one for every request that cannot be read. */
  lemma {:induction false} History(differs: (Value, Value) -> bool, v: Value, reqs: seq<Request>, n: nat)
    requires PartialEquivalence(differs) && n <= |reqs|
    ensures Stored(differs, v, reqs[..n]) == LastAsked(v, reqs, n)
         || !differs(Stored(differs, v, reqs[..n]), LastAsked(v, reqs, n))
    ensures Signals(differs, v, reqs[..n]) == Changes(differs, v, reqs, n) + Faults(reqs, n)
  {
    hide Decode;
    if n > 0 {
      History(differs, v, reqs, n - 1);
      assert reqs[..n][..n - 1] == reqs[..n - 1];
    }
  }

  /** A request is signalled if and only if the value afterwards differs from the value before,
      exactly unless the payload cannot be read: that leaves the value alone and is signalled all
      the same (which only a value that differs from itself hides). */
  lemma {:induction false} SignalIsChange(differs: (Value, Value) -> bool, v: Value, req: Request)
    requires PartialEquivalence(differs)
    ensures (Signalled(differs, v, req) <==> differs(v, NewValue(differs, v, req))) <==>
      !(req.Unreadable? && !differs(v, v))
    ensures req.Unreadable? ==> NewValue(differs, v, req) == v
  {
    hide Decode;
    if req.Payload? && !differs(v, Asked(req)) {
      assert !differs(Asked(req), v);
    }
  }

  /** A signal without a change: a property of signature "h" is sent a descriptor that cannot be
      duplicated. */
  lemma {:induction false} SignalWithoutChange()
    ensures var equality := (a, b) => a != b;
      && PartialEquivalence(equality)
      && Stored(equality, Nil, [Unreadable]) == Nil && Signals(equality, Nil, [Unreadable]) == 1
  {
    var equality: (Value, Value) -> bool := (a, b) => a != b;
    assert [Unreadable][..0] == [];
    assert Stored(equality, Nil, []) == Nil && Signals(equality, Nil, []) == 0;
  }
}
