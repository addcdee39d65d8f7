/** Bracket matching and span computation of src/message.c (match, find_subtype, span_next_type),
    and the proof that on grammatical text they find the boundaries of the grammar. */
module Spans {
  import opened Options
  import opened Signatures

  ghost predicate Brackets(open: char, close: char) {
    (open == '(' && close == ')') || (open == '{' && close == '}')
  }

  /** The nesting depth after reading `c`, when only one kind of bracket is counted. */
  function Depth(c: char, open: char, close: char, depth: nat): int {
    if c == open then depth + 1 else if c == close then depth - 1 else depth
  }

  /** Where the depth first reaches zero, as the number of characters read. */
  function Scan(s: string, open: char, close: char, depth: nat): (r: Option<nat>)
    ensures r.Some? ==> 1 <= r.value <= |s|
  {
    if s == "" then None
    else if Depth(s[0], open, close, depth) <= 0 then Some(1)
    else Shift(Scan(s[1..], open, close, Depth(s[0], open, close, depth)), 1)
  }

  function Shift(r: Option<nat>, n: nat): Option<nat> {
    if r.Some? then Some(r.value + n) else None
  }

  /** The offset from the opener at `at` to its closer; None is the panic "Unmatched". */
  method Match(text: string, at: nat, open: char, close: char) returns (r: Option<nat>)
    requires at < |text|
    ensures r == Scan(text[at + 1..], open, close, 1)
  {
    hide Scan;
    var depth: int := 1;
    var length := 0;
    while at + 1 + length < |text|
      invariant at + 1 + length <= |text| && depth >= 1
      invariant Scan(text[at + 1..], open, close, 1) == Shift(Scan(text[at + 1 + length..], open, close, depth), length)
    {
      var ch := text[at + 1 + length];
      ScanStep(text[at + 1 + length..], open, close, depth);
      assert text[at + 1 + length..][1..] == text[at + 1 + length + 1..];
      if ch == open {
        depth := depth + 1;
      } else if ch == close {
        depth := depth - 1;
      }
      length := length + 1;
      if depth == 0 {
        return Some(length);
      }
    }
    ScanNil(text[at + 1 + length..], open, close, depth);
    return None;
  }

  lemma {:induction false} ScanNil(s: string, open: char, close: char, depth: nat)
    requires s == ""
    ensures Scan(s, open, close, depth) == None
  {
  }

  lemma {:induction false} ScanStep(s: string, open: char, close: char, depth: nat)
    requires s != ""
    ensures var d := Depth(s[0], open, close, depth);
      Scan(s, open, close, depth) == if d <= 0 then Some(1) else Shift(Scan(s[1..], open, close, d), 1)
  {
  }

  lemma {:induction false} ScanCons(c: char, s: string, open: char, close: char, depth: nat)
    requires Depth(c, open, close, depth) >= 1
    ensures Scan([c] + s, open, close, depth) == Shift(Scan(s, open, close, Depth(c, open, close, depth)), 1)
  {
  }

  /** A complete type is balanced in either kind of bracket and never closes more than it opened. */
  lemma {:induction false} ScanType(t: Type, rest: string, open: char, close: char, depth: nat)
    requires Brackets(open, close) && depth >= 1
    ensures Scan(Show(t) + rest, open, close, depth) == Shift(Scan(rest, open, close, depth), |Show(t)|)
    decreases t, 1
  {
    hide Scan;
    match t
    case Basic(c) =>
      ScanCons(c, rest, open, close, depth);
    case Variant =>
      ScanCons('v', rest, open, close, depth);
    case Array(e) =>
      assert Show(t) + rest == ['a'] + (Show(e) + rest);
      ScanCons('a', Show(e) + rest, open, close, depth);
      ScanType(e, rest, open, close, depth);
    case Struct(f, ts) =>
      ScanStruct(f, ts, rest, open, close, depth);
    case Dict(k, v) =>
      assert Show(t) + rest == ['a'] + (ShowEntry(k, v) + rest);
      ScanCons('a', ShowEntry(k, v) + rest, open, close, depth);
      ScanEntry(k, v, rest, open, close, depth);
  }

  lemma {:induction false} ScanStruct(f: Type, ts: seq<Type>, rest: string, open: char, close: char, depth: nat)
    requires Brackets(open, close) && depth >= 1
    ensures var s := Show(Struct(f, ts));
      Scan(s + rest, open, close, depth) == Shift(Scan(rest, open, close, depth), |s|)
    decreases Struct(f, ts), 0
  {
    hide Scan;
    var d := Depth('(', open, close, depth);
    var inner := ShowAll(ts) + ([')'] + rest);
    assert Show(Struct(f, ts)) + rest == ['('] + (Show(f) + inner);
    ScanCons('(', Show(f) + inner, open, close, depth);
    ScanType(f, inner, open, close, d);
    ScanTypes(ts, [')'] + rest, open, close, d);
    ScanCons(')', rest, open, close, d);
  }

  lemma {:induction false} ScanEntry(k: Code, v: Type, rest: string, open: char, close: char, depth: nat)
    requires Brackets(open, close) && depth >= 1
    ensures Scan(ShowEntry(k, v) + rest, open, close, depth) == Shift(Scan(rest, open, close, depth), |ShowEntry(k, v)|)
    decreases v, 2
  {
    hide Scan;
    var d := Depth('{', open, close, depth);
    var inner := Show(v) + (['}'] + rest);
    assert ShowEntry(k, v) + rest == ['{'] + ([k] + inner);
    ScanCons('{', [k] + inner, open, close, depth);
    ScanCons(k, inner, open, close, d);
    ScanType(v, ['}'] + rest, open, close, d);
    ScanCons('}', rest, open, close, d);
  }

  lemma {:induction false} ScanTypes(ts: seq<Type>, rest: string, open: char, close: char, depth: nat)
    requires Brackets(open, close) && depth >= 1
    ensures Scan(ShowAll(ts) + rest, open, close, depth) == Shift(Scan(rest, open, close, depth), |ShowAll(ts)|)
    decreases ts, 0
  {
    if ts == [] {
      assert ShowAll(ts) + rest == rest;
    } else {
      assert ShowAll(ts) + rest == Show(ts[0]) + (ShowAll(ts[1..]) + rest);
      ScanType(ts[0], ShowAll(ts[1..]) + rest, open, close, depth);
      ScanTypes(ts[1..], rest, open, close, depth);
    }
  }

  /** On a struct, matching from its opener stops at its own closer. */
  lemma MatchStruct(f: Type, ts: seq<Type>, rest: string)
    ensures Scan((Show(Struct(f, ts)) + rest)[1..], '(', ')', 1) == Some(|Show(Struct(f, ts))| - 1)
  {
    var inner := ShowAll(ts) + ([')'] + rest);
    assert (Show(Struct(f, ts)) + rest)[1..] == Show(f) + inner;
    ScanType(f, inner, '(', ')', 1);
    ScanTypes(ts, [')'] + rest, '(', ')', 1);
  }

  /** On a dict entry, matching from its opener stops at its own closer. */
  lemma MatchEntry(k: Code, v: Type, rest: string)
    ensures Scan((ShowEntry(k, v) + rest)[1..], '{', '}', 1) == Some(|ShowEntry(k, v)| - 1)
  {
    var inner := Show(v) + (['}'] + rest);
    assert (ShowEntry(k, v) + rest)[1..] == [k] + inner;
    ScanCons(k, inner, '{', '}', 1);
    ScanType(v, ['}'] + rest, '{', '}', 1);
  }

  // ----- find_subtype and span_next_type

  /** None is a panic: the terminator or an unmatched bracket was reached. */
  function FindSubtype(s: string): (r: Option<nat>)
    ensures r.Some? ==> r.value < |s|
  {
    if s == "" then None
    else if s[0] == 'a' then Shift(FindSubtype(s[1..]), 1)
    else if s[0] == '{' then Scan(s[1..], '{', '}', 1)
    else if s[0] == '(' then Scan(s[1..], '(', ')', 1)
    else Some(0)
  }

  /** strchr also finds the terminator, so NUL counts as basic. */
  predicate IsBasicType(c: char) {
    IsCode(c) || c == '\0'
  }

  function SpanNextType(s: string): (r: Option<nat>)
    requires s != ""
    ensures r.Some? ==> 1 <= r.value <= |s|
  {
    if IsBasicType(s[0]) || s[0] == 'v' then Some(1)
    else if s[0] == 'a' then Shift(FindSubtype(s), 1)
    else if s[0] == '(' then Scan(s[1..], '(', ')', 1)
    else None
  }

  /** find_subtype yields the offset of the last character of the first type, so one less than
      its length, whatever the type. */
  lemma {:induction false} FindSubtypeOfShow(t: Type, rest: string)
    ensures FindSubtype(Show(t) + rest) == Some(|Show(t)| - 1)
  {
    match t
    case Basic(c) =>
    case Variant =>
    case Array(e) =>
      assert (Show(t) + rest)[1..] == Show(e) + rest;
      FindSubtypeOfShow(e, rest);
    case Struct(f, ts) =>
      MatchStruct(f, ts, rest);
    case Dict(k, v) =>
      assert (Show(t) + rest)[1..] == ShowEntry(k, v) + rest;
      MatchEntry(k, v, rest);
  }

  /** span_next_type is the length of the next type, except that it is one short for a struct. */
  lemma SpanOfShow(t: Type, rest: string)
    ensures SpanNextType(Show(t) + rest) == Some(if t.Struct? then |Show(t)| - 1 else |Show(t)|)
  {
    if t.Struct? {
      MatchStruct(t.first, t.rest, rest);
    } else {
      FindSubtypeOfShow(t, rest);
    }
  }
}
