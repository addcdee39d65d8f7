/** The error context of src/unwrap.c: which argument and which part of the signature a type
    error is reported against. */
module ErrorContexts {
  import opened Options

  /** A panic raised while appending. A type error carries the rendered context; other panics are
      told apart by their cause: the signature, a count of arguments, a value, or sd-bus. */
  datatype Fault =
    | TypeError(expected: string, argc: nat, outer: Option<string>, inner: Option<string>)
    | BadSignature
    | BadCount
    | BadValue
    | BusError

  const MAX_SPAN := 12

  /** A recorded span as it appears in an error: at most 12 characters, then an ellipsis. */
  ghost function Rendered(sig: string, len: nat): string
    requires len <= |sig|
  {
    if len <= MAX_SPAN then sig[..len] else sig[..MAX_SPAN] + "..."
  }

  /** The C string at the start of a buffer. */
  function CString(buf: seq<char>): string {
    if buf == [] || buf[0] == '\0' then "" else [buf[0]] + CString(buf[1..])
  }

  lemma {:induction false} CStringOfText(s: string, rest: seq<char>)
    requires '\0' !in s
    ensures CString(s + ['\0'] + rest) == s
  {
    if s == "" {
      assert s + ['\0'] + rest == ['\0'] + rest;
    } else {
      assert (s + ['\0'] + rest)[1..] == s[1..] + ['\0'] + rest;
      CStringOfText(s[1..], rest);
    }
  }

  class ErrorContext {
    var sig0: Option<string>
    var len0: nat
    var sig1: Option<string>
    var len1: nat
    var depth: nat
    var argc: nat

    ghost predicate Valid()
      reads this
    {
      && (sig0.Some? ==> len0 <= |sig0.value| && '\0' !in sig0.value)
      && (sig1.Some? ==> len1 <= |sig1.value| && '\0' !in sig1.value)
    }

    constructor ()
      ensures Valid() && sig0 == None && sig1 == None && depth == 0 && argc == 0
    {
      sig0, len0, sig1, len1, depth, argc := None, 0, None, 0, 0, 0;
    }

    method Reset()
      modifies this
      ensures Valid() && sig0 == None && sig1 == None && depth == 0 && argc == 0
    {
      sig0, len0, sig1, len1, depth, argc := None, 0, None, 0, 0, 0;
    }

    method Inc()
      requires Valid()
      modifies this`argc
      ensures Valid() && argc == old(argc) + 1
    {
      argc := argc + 1;
    }

    method Set(sig: string, len: nat)
      requires Valid() && len <= |sig| && '\0' !in sig
      modifies this
      ensures Valid() && depth == old(depth) + 1 && argc == old(argc)
      ensures old(depth) == 0 ==> sig0 == Some(sig) && len0 == len && sig1 == old(sig1) && len1 == old(len1)
      ensures old(depth) > 0 ==> sig1 == Some(sig) && len1 == len && sig0 == old(sig0) && len0 == old(len0)
    {
      depth := depth + 1;
      if depth > 1 {
        sig1, len1 := Some(sig), len;
      } else {
        sig0, len0 := Some(sig), len;
      }
    }

    method Exit()
      requires Valid()
      modifies this`depth
      ensures Valid() && depth == if old(depth) > 0 then old(depth) - 1 else 0
    {
      if depth > 0 {
        depth := depth - 1;
      }
    }

    /** dbus_type_error: the outer span always, the inner one only when nested. */
    method Raise(expected: string) returns (f: Fault)
      requires Valid()
      ensures f.TypeError? && f.expected == expected && f.argc == argc
      ensures f.outer == Recorded(sig0, len0)
      ensures f.inner == if f.outer.Some? && depth > 1 then Recorded(sig1, len1) else None
    {
      var sigbuf := Format(sig0, len0);
      if sigbuf.None? {
        return TypeError(expected, argc, None, None);
      }
      if depth > 1 {
        var childbuf := Format(sig1, len1);
        if childbuf.Some? {
          return TypeError(expected, argc, sigbuf, childbuf);
        }
      }
      return TypeError(expected, argc, sigbuf, None);
    }
  }

  ghost function Recorded(sig: Option<string>, len: nat): Option<string>
    requires sig.Some? ==> len <= |sig.value|
  {
    if sig.None? || len == 0 then None else Some(Rendered(sig.value, len))
  }

  /** format_errctx, on a 16-byte buffer: what the buffer then holds, read as a C string. */
  method Format(sig: Option<string>, len: nat) returns (r: Option<string>)
    requires sig.Some? ==> len <= |sig.value| && '\0' !in sig.value
    ensures r == Recorded(sig, len)
  {
    if len == 0 || sig.None? {
      return None;
    }
    var n := if len > 16 - 4 then 16 - 4 else len;
    var buf := new char[16];
    var i := 0;
    while i < n
      invariant 0 <= i <= n
      invariant buf[..i] == sig.value[..i]
    {
      buf[i] := sig.value[i];
      i := i + 1;
    }
    buf[n] := '\0';
    ghost var span := sig.value[..n];
    assert buf[..n] == span;
    if n < len {
      buf[n], buf[n + 1], buf[n + 2] := '.', '.', '.';
      buf[16 - 1] := '\0';
      span := span + "...";
      assert buf[..15] == span;
    }
    assert buf[..] == span + ['\0'] + buf[|span| + 1..];
    CStringOfText(span, buf[|span| + 1..]);
    return Some(CString(buf[..]));
  }
}
