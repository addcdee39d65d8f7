/** D-Bus type signatures: the grammar of the D-Bus Specification (section "Type System") as a
    printer and as a parser, and the proof that the two are inverse. */
module Signatures {
  import opened Options

  /** The codes of the basic types. */
  predicate IsCode(c: char) {
    c == 'y' || c == 'b' || c == 'n' || c == 'q' || c == 'i' || c == 'u' || c == 'x' ||
    c == 't' || c == 'd' || c == 's' || c == 'o' || c == 'g' || c == 'h'
  }

  type Code = c: char | IsCode(c) witness 'y'

  /** A single complete type. A dictionary is an array of dict entries and is one constructor
      here, because an entry never stands alone as a complete type; a struct is never empty. */
  datatype Type =
    | Basic(code: Code)
    | Variant
    | Array(elem: Type)
    | Struct(first: Type, rest: seq<Type>)
    | Dict(key: Code, value: Type)

  function Fields(t: Type): seq<Type>
    requires t.Struct?
  {
    [t.first] + t.rest
  }

  // ----- The grammar, as a printer

  function Show(t: Type): (s: string)
    ensures s != "" && (IsCode(s[0]) || s[0] == 'v' || s[0] == 'a' || s[0] == '(')
    decreases t, 1
  {
    match t
    case Basic(c) => [c]
    case Variant => "v"
    case Array(e) => "a" + Show(e)
    case Struct(f, ts) => "(" + (Show(f) + ShowAll(ts)) + ")"
    case Dict(k, v) => "a" + ShowEntry(k, v)
  }

  function ShowEntry(k: Code, v: Type): string
    decreases v, 2
  {
    "{" + ([k] + Show(v)) + "}"
  }

  function ShowAll(ts: seq<Type>): string
    decreases ts, 0
  {
    if ts == [] then "" else Show(ts[0]) + ShowAll(ts[1..])
  }

  // ----- The grammar, as a parser

  /** The first complete type of `s` and its length. */
  function First(s: string): (r: Option<(Type, nat)>)
    ensures r.Some? ==> 1 <= r.value.1 <= |s|
    decreases |s|, 1
  {
    if s == "" then None
    else if IsCode(s[0]) then Some((Basic(s[0]), 1))
    else if s[0] == 'v' then Some((Variant, 1))
    else if s[0] == 'a' && |s| > 1 && s[1] == '{' then
      match Entry(s[1..])
      case Some((k, v, n)) => Some((Dict(k, v), n + 1))
      case None => None
    else if s[0] == 'a' then
      match First(s[1..])
      case Some((e, n)) => Some((Array(e), n + 1))
      case None => None
    else if s[0] == '(' then Group(s)
    else None
  }

  /** A struct at the start of `s`. */
  function Group(s: string): (r: Option<(Type, nat)>)
    requires s != ""
    ensures r.Some? ==> 1 <= r.value.1 <= |s|
    decreases |s|, 0
  {
    var (ts, n) := Longest(s[1..]);
    if ts != [] && n + 1 < |s| && s[n + 1] == ')' then Some((Struct(ts[0], ts[1..]), n + 2))
    else None
  }

  /** A dict entry at the start of `s`: key code, value type and length. */
  function Entry(s: string): (r: Option<(Code, Type, nat)>)
    ensures r.Some? ==> 4 <= r.value.2 <= |s|
    decreases |s|, 0
  {
    if |s| > 1 && s[0] == '{' && IsCode(s[1]) then
      match First(s[2..])
      case Some((v, n)) =>
        if n + 2 < |s| && s[n + 2] == '}' then
          Some((s[1], v, n + 3))
        else None
      case None => None
    else None
  }

  /** As many complete types as fit at the start of `s`, and their total length. */
  function Longest(s: string): (r: (seq<Type>, nat))
    ensures r.1 <= |s|
    decreases |s|, 2
  {
    match First(s)
    case None => ([], 0)
    case Some((t, n)) =>
      var (ts, m) := Longest(s[n..]);
      ([t] + ts, n + m)
  }

  /** A whole string read as a sequence of complete types. */
  function All(s: string): Option<seq<Type>>
  {
    var (ts, n) := Longest(s);
    if n == |s| then Some(ts) else None
  }

  /** A whole string read as one complete type. */
  function Single(s: string): Option<Type>
  {
    match First(s)
    case Some((t, n)) => if n == |s| then Some(t) else None
    case None => None
  }

  lemma {:induction false} FirstOfShow(t: Type, rest: string)
    ensures First(Show(t) + rest) == Some((t, |Show(t)|))
    decreases t, 1
  {
    match t
    case Basic(_) =>
    case Variant =>
    case Array(e) =>
      assert (Show(t) + rest)[1..] == Show(e) + rest;
      FirstOfShow(e, rest);
    case Struct(f, ts) =>
      StructOfShow(f, ts, rest);
    case Dict(k, v) =>
      assert (Show(t) + rest)[1..] == ShowEntry(k, v) + rest;
      EntryOfShow(k, v, rest);
  }

  lemma {:induction false} StructOfShow(f: Type, ts: seq<Type>, rest: string)
    ensures First(Show(Struct(f, ts)) + rest) == Some((Struct(f, ts), |Show(Struct(f, ts))|))
    decreases Struct(f, ts), 0
  {
    hide First, Longest, Group;
    var s := Show(Struct(f, ts)) + rest;
    var tail := ShowAll(ts) + (")" + rest);
    NoTypeAtCloser(rest);
    assert Longest(Show(f) + tail) == ([f] + ts, |Show(f)| + |ShowAll(ts)|) by {
      LongestOfShow(ts, ")" + rest);
      FirstOfShow(f, tail);
      LongestStep(f, tail);
    }
    assert s[1..] == Show(f) + tail;
    GroupStep(s, f, ts, |Show(f)| + |ShowAll(ts)|);
  }

  lemma {:induction false} NoTypeAtCloser(rest: string)
    ensures First(")" + rest) == None
  {
  }

  lemma {:induction false} GroupStep(s: string, f: Type, ts: seq<Type>, n: nat)
    requires n + 1 < |s| && s[0] == '(' && s[n + 1] == ')' && Longest(s[1..]) == ([f] + ts, n)
    ensures First(s) == Some((Struct(f, ts), n + 2))
  {
  }

  lemma {:induction false} LongestStep(f: Type, tail: string)
    requires First(Show(f) + tail) == Some((f, |Show(f)|))
    ensures Longest(Show(f) + tail) == ([f] + Longest(tail).0, |Show(f)| + Longest(tail).1)
  {
  }

  lemma {:induction false} EntryOfShow(k: Code, v: Type, rest: string)
    ensures Entry(ShowEntry(k, v) + rest) == Some((k, v, |ShowEntry(k, v)|))
    decreases v, 2
  {
    assert (ShowEntry(k, v) + rest)[2..] == Show(v) + ("}" + rest);
    FirstOfShow(v, "}" + rest);
  }

  lemma {:induction false} LongestOfShow(ts: seq<Type>, rest: string)
    requires First(rest).None?
    ensures Longest(ShowAll(ts) + rest) == (ts, |ShowAll(ts)|)
    decreases ts, 0
  {
    hide First;
    if ts == [] {
      assert ShowAll(ts) + rest == rest;
    } else {
      var tail := ShowAll(ts[1..]) + rest;
      assert ShowAll(ts) + rest == Show(ts[0]) + tail;
      FirstOfShow(ts[0], tail);
      LongestStep(ts[0], tail);
      LongestOfShow(ts[1..], rest);
      assert [ts[0]] + ts[1..] == ts;
    }
  }

  /** The parser inverts the printer, on whole strings. */
  lemma AllOfShow(ts: seq<Type>)
    ensures All(ShowAll(ts)) == Some(ts)
  {
    assert ShowAll(ts) + "" == ShowAll(ts);
    LongestOfShow(ts, "");
  }

  lemma SingleOfShow(t: Type)
    ensures Single(Show(t)) == Some(t)
  {
    assert Show(t) + "" == Show(t);
    FirstOfShow(t, "");
  }

  // ----- Parsing is sound: what was consumed is what the printer prints

  lemma {:induction false} FirstSound(s: string)
    requires First(s).Some?
    ensures s[..First(s).value.1] == Show(First(s).value.0)
    decreases |s|, 1
  {
    if s[0] == 'a' && |s| > 1 && s[1] == '{' {
      EntrySound(s[1..]);
      assert s[..First(s).value.1] == "a" + s[1..][..First(s).value.1 - 1];
    } else if s[0] == 'a' {
      FirstSound(s[1..]);
      assert s[..First(s).value.1] == "a" + s[1..][..First(s).value.1 - 1];
    } else if s[0] == '(' {
      GroupSound(s);
    }
  }

  lemma {:induction false} GroupSound(s: string)
    requires s != "" && s[0] == '(' && Group(s).Some?
    ensures s[..Group(s).value.1] == Show(Group(s).value.0)
    decreases |s|, 0
  {
    var (ts, n) := Longest(s[1..]);
    LongestSound(s[1..]);
    assert s[..n + 2] == "(" + s[1..][..n] + ")";
  }

  lemma {:induction false} EntrySound(s: string)
    requires Entry(s).Some?
    ensures s[..Entry(s).value.2] == ShowEntry(Entry(s).value.0, Entry(s).value.1)
    decreases |s|, 0
  {
    FirstSound(s[2..]);
    var n := First(s[2..]).value.1;
    assert s[..n + 3] == "{" + ([s[1]] + s[2..][..n]) + "}";
  }

  lemma {:induction false} LongestSound(s: string)
    ensures s[..Longest(s).1] == ShowAll(Longest(s).0)
    decreases |s|, 2
  {
    if First(s).Some? {
      var n := First(s).value.1;
      FirstSound(s);
      LongestSound(s[n..]);
      assert s[..n + Longest(s[n..]).1] == s[..n] + s[n..][..Longest(s[n..]).1];
    }
  }

  /** A signature with every kind of type, read. */
  lemma {:induction false} Sample()
    ensures All("vas(ia{sv})") == Some([Variant, Array(Basic('s')), Struct(Basic('i'), [Dict('s', Variant)])])
  {
    hide Show, All;
    var a, b, c := Variant, Array(Basic('s')), Struct(Basic('i'), [Dict('s', Variant)]);
    SampleTypes();
    ShowAllMore(c, []);
    ShowAllMore(b, [c]);
    ShowAllMore(a, [b, c]);
    assert [c] + [] == [c] && [b] + [c] == [b, c] && [a] + [b, c] == [a, b, c];
    assert "(ia{sv})" + "" == "(ia{sv})" && "as" + "(ia{sv})" == "as(ia{sv})";
    assert "v" + "as(ia{sv})" == "vas(ia{sv})";
    AllOfShow([a, b, c]);
  }

  lemma {:induction false} SampleTypes()
    ensures Show(Variant) == "v" && Show(Array(Basic('s'))) == "as"
    ensures Show(Struct(Basic('i'), [Dict('s', Variant)])) == "(ia{sv})" && ShowAll([]) == ""
  {
    var dict := Dict('s', Variant);
    assert Show(dict) == "a{sv}";
    assert [dict][1..] == [] && ShowAll([dict]) == "a{sv}";
  }

  lemma {:induction false} ShowAllMore(t: Type, ts: seq<Type>)
    ensures ShowAll([t] + ts) == Show(t) + ShowAll(ts)
  {
    assert ([t] + ts)[1..] == ts;
  }

  /** The sequences of complete types are exactly the printed ones, each read in one way only. */
  lemma AllExact(s: string, ts: seq<Type>)
    ensures All(s) == Some(ts) <==> s == ShowAll(ts)
  {
    AllOfShow(ts);
    LongestSound(s);
  }

  lemma SingleExact(s: string, t: Type)
    ensures Single(s) == Some(t) <==> s == Show(t)
  {
    SingleOfShow(t);
    if Single(s).Some? {
      FirstSound(s);
    }
  }
}
