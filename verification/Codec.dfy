/** The codec end to end: a whole message is built, sealed and read. */
module Codec {
  import opened Options
  import opened Signatures
  import opened Values
  import opened Messages
  import opened ErrorContexts
  import opened Writer
  import opened Reader
  import opened RoundTrip

  /** An accepted append, outside any container, extends the recorded signature by exactly the
      given one and the body by one item per argument, and leaves no container open. */
  lemma {:induction false} AppendedBody(s: string, fs: seq<Frame>, vs: seq<Value>, ts: seq<Type>)
    requires AtRoot(fs) && All(s) == Some(ts) && ConformAll(ts, vs) && AcceptsAll(s, fs, vs)
    ensures AppendedAll(s, fs, vs) == [Frame(Root, fs[0].sig + s, |fs[0].sig| + |s|, fs[0].items + ToWires(ts, vs))]
    decreases |vs|
  {
    hide First, Show, Conforms, ToWire;
    if vs == [] {
      assert s == "" && fs[0].sig + s == fs[0].sig && fs[0].items + [] == fs[0].items;
    } else {
      AllStep(s);
      AcceptsAllStep(s, fs, vs);
      var (t, n) := First(s).value;
      var fs1, w := Appended(s, fs, vs[0]), ToWire(t, vs[0]);
      FirstSound(s);
      assert fs1 == [Frame(Root, fs[0].sig + s[..n], |fs[0].sig| + n, fs[0].items + [w])];
      ConformAllStep(ts, vs);
      AppendedBody(s[n..], fs1, vs[1..], ts[1..]);
      assert fs[0].sig + s[..n] + s[n..] == fs[0].sig + s;
      assert ToWires(ts, vs) == [w] + ToWires(ts[1..], vs[1..]);
      assert fs[0].items + [w] + ToWires(ts[1..], vs[1..]) == fs[0].items + ToWires(ts, vs);
    }
  }

  /** All arguments keep their dictionary keys apart. */
  ghost predicate AllKeysDistinct(ts: seq<Type>, vs: seq<Value>)
    requires ConformAll(ts, vs)
  {
    forall i :: 0 <= i < |vs| ==> KeysDistinct(ts[i], vs[i])
  }

  ghost function Normals(ts: seq<Type>, vs: seq<Value>): seq<Value>
    requires ConformAll(ts, vs)
  {
    seq(|vs|, i requires 0 <= i < |vs| => Normal(ts[i], vs[i]))
  }

  ghost predicate JanetAll(vs: seq<Value>) {
    forall i :: 0 <= i < |vs| ==> Janet(vs[i])
  }

  lemma {:induction false} BodyRoundTrip(ts: seq<Type>, vs: seq<Value>)
    requires ConformAll(ts, vs) && JanetAll(vs)
    ensures forall i :: 0 <= i < |vs| ==> Typed(ts[i], ToWires(ts, vs)[i]) && Readable(ToWires(ts, vs)[i])
    ensures DecodeAll(ToWires(ts, vs)) == Normals(ts, vs) <==> AllKeysDistinct(ts, vs)
  {
    hide Conforms, ToWire, Normal, Decode, Readable, Typed, KeysDistinct;
    forall i | 0 <= i < |vs|
      ensures Typed(ts[i], ToWires(ts, vs)[i]) && Readable(ToWires(ts, vs)[i])
      ensures Decode(ToWires(ts, vs)[i]) == Normal(ts[i], vs[i]) <==> KeysDistinct(ts[i], vs[i])
    {
      WireIsTyped(ts[i], vs[i]);
      RoundTripExact(ts[i], vs[i]);
    }
    var got, want := DecodeAll(ToWires(ts, vs)), Normals(ts, vs);
    assert forall i :: 0 <= i < |vs| ==> got[i] == Decode(ToWires(ts, vs)[i]) && want[i] == Normal(ts[i], vs[i]);
  }

  lemma {:induction false} WiresLength(ts: seq<Type>, vs: seq<Value>)
    requires ConformAll(ts, vs)
    ensures |ToWires(ts, vs)| == |vs|
  {
  }

  /** cfun_message_append: at least one argument, and a signature that is a C string. */
  method MessageAppend(msg: Message, ctx: ErrorContext, signature: string, args: seq<Value>) returns (r: Outcome)
    requires Ready(msg.frames) && !msg.sealed
    modifies msg`frames, ctx
    ensures Ready(msg.frames)
    ensures r.Ok? <==> args != [] && AcceptsAll(signature, old(msg.frames), args)
    ensures r.Ok? ==> msg.frames == AppendedAll(signature, old(msg.frames), args)
  {
    if args == [] {
      return Raised(BadCount);
    }
    if '\0' in signature {
      if AcceptsAll(signature, msg.frames, args) { AcceptedHasNoNul(signature, msg.frames, args); }
      return Raised(BadSignature);
    }
    var out, _, _ := AppendData(msg, ctx, signature, args);
    return out;
  }

  lemma {:induction false} AcceptedHasNoNul(s: string, fs: seq<Frame>, vs: seq<Value>)
    requires Ready(fs) && AcceptsAll(s, fs, vs)
    ensures '\0' !in s
    decreases |vs|
  {
    hide First, Show, Conforms, ToWire, Appended, AppendedAll;
    if vs != [] {
      AcceptsAllStep(s, fs, vs);
      var (t, n) := First(s).value;
      AcceptedHasNoNul(s[n..], Appended(s, fs, vs[0]), vs[1..]);
      FirstSound(s);
      ShowHasNoNul(t);
      assert s == s[..n] + s[n..];
    }
  }

  /** Append to a fresh message, seal it and read all of it, as the tests do; with an empty
      signature nothing is appended, whatever the arguments. Otherwise this succeeds exactly when
      the signature splits into as many complete types as there are arguments and each conforms;
      and it yields the normal forms exactly when dictionary keys stay apart on the wire. */
  method FromMessage(signature: string, args: seq<Value>) returns (r: Option<Value>)
    requires JanetAll(args)
    ensures signature == "" ==> r == Some(Nil)
    ensures signature != "" ==> (r.Some? <==> All(signature).Some? && ConformAll(All(signature).value, args))
    ensures signature != "" && r.Some? ==>
      var ts := All(signature).value;
      && (|args| == 1 ==> (r.value == Normals(ts, args)[0] <==> AllKeysDistinct(ts, args)))
      && (|args| != 1 ==> |args| >= 2 && (r.value == Indexed(false, Normals(ts, args)) <==> AllKeysDistinct(ts, args)))
  {
    hide First, Show, ShowAll, Conforms, ToWire, Normal, Decode, Readable, All, AcceptsAll, AppendedAll;
    hide ToWires, Normals, AllKeysDistinct, ConformAll, Culprit, Label, Janet, JanetAll, Typed;
    var msg := new Message();
    var ctx := new ErrorContext();
    ghost var fs := msg.frames;
    if signature != "" {
      AcceptanceExact(signature, fs, args);
      NothingAppended(signature, fs);
      var out := MessageAppend(msg, ctx, signature, args);
      if out.Raised? {
        return None;
      }
      AppendedBody(signature, fs, args, All(signature).value);
      BodyRoundTrip(All(signature).value, args);
      WiresLength(All(signature).value, args);
    }
    var ok := msg.Seal();
    var src := new Source(msg.frames[0].items);
    assert src.stack == [] + [View(src.body, 0)];
    ghost var vs: seq<Value>;
    r, vs := MessageRead(src, Everything, [], src.body, 0);
    if signature != "" {
      NormalsLength(All(signature).value, args);
    }
  }

  lemma NormalsLength(ts: seq<Type>, vs: seq<Value>)
    requires ConformAll(ts, vs)
    ensures |Normals(ts, vs)| == |vs|
  {
  }

  lemma {:induction false} NothingAppended(s: string, fs: seq<Frame>)
    requires Ready(fs)
    ensures AcceptsAll(s, fs, []) <==> s == ""
    ensures s == "" ==> AppendedAll(s, fs, []) == fs
  {
  }
}
