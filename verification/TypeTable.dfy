/** The type table of docs/index.md for basic types: which values each code takes, said without the
    conversions of `Values` and proved to be what they compute. */
module TypeTable {
  import opened Options
  import opened Signatures
  import opened Values

  // ----- Integers

  ghost predicate IsInteger(c: Code) {
    c in {'y', 'n', 'q', 'i', 'u', 'x', 't'}
  }

  /** Two to the width of the C type behind an integer code. */
  ghost function Modulus(c: Code): int
    requires IsInteger(c)
  {
    match c
    case 'y' => 0x100
    case 'n' | 'q' => 0x1_0000
    case 'i' | 'u' => 0x1_0000_0000
    case _ => 0x1_0000_0000_0000_0000
  }

  /** What a cast to the C type makes of an integer: its low bits, read as two's complement under
      the signed codes. */
  ghost function Cast(c: Code, n: int): int
    requires IsInteger(c)
  {
    var low := n % Modulus(c);
    if c in {'n', 'i', 'x'} && low >= Modulus(c) / 2 then low - Modulus(c) else low
  }

  ghost function Numeral(n: int): Value {
    Number(Finite(n as real))
  }

  /** A number is taken when the cast keeps it, and under 64-bit codes only while doubles are
      exact. */
  ghost predicate TakesNumber(c: Code, n: int)
    requires IsInteger(c)
  {
    Cast(c, n) == n && (c in {'x', 't'} ==> -9007199254740992 < n < 9007199254740992)
  }

  // ----- Text

  ghost predicate Scalar(cp: int) {
    0 <= cp < 0xd800 || 0xe000 <= cp < 0x11_0000
  }

  /** One code point in UTF-8 (RFC 3629, section 3). */
  ghost function Encoded(cp: int): string
    requires Scalar(cp)
  {
    if cp < 0x80 then [cp as char]
    else if cp < 0x800 then [(0xc0 + cp / 64) as char, (0x80 + cp % 64) as char]
    else if cp < 0x1_0000 then
      [(0xe0 + cp / 4096) as char, (0x80 + cp / 64 % 64) as char, (0x80 + cp % 64) as char]
    else
      [(0xf0 + cp / 262144) as char, (0x80 + cp / 4096 % 64) as char,
       (0x80 + cp / 64 % 64) as char, (0x80 + cp % 64) as char]
  }

  ghost predicate Scalars(cps: seq<int>) {
    forall i :: 0 <= i < |cps| ==> Scalar(cps[i])
  }

  ghost function EncodedAll(cps: seq<int>): string
    requires Scalars(cps)
  {
    if cps == [] then "" else Encoded(cps[0]) + EncodedAll(cps[1..])
  }

  /** A non-empty name of letters, digits and underscores. */
  ghost predicate Element(e: string) {
    e != "" && forall i :: 0 <= i < |e| ==>
      e[i] == '_' || 48 <= e[i] as int <= 57 || 65 <= e[i] as int <= 90 || 97 <= e[i] as int <= 122
  }

  ghost predicate Elements(es: seq<string>) {
    es != [] && forall i :: 0 <= i < |es| ==> Element(es[i])
  }

  ghost function Path(es: seq<string>): string {
    if es == [] then "" else "/" + es[0] + Path(es[1..])
  }

  /** sd-bus takes complete types, and also dict entries outside arrays. */
  datatype Piece = Complete(t: Type) | Loose(key: Code, value: Type)

  ghost function Printed(ps: seq<Piece>): string {
    if ps == [] then "" else PrintedPiece(ps[0]) + Printed(ps[1..])
  }

  ghost function PrintedPiece(p: Piece): string {
    match p
    case Complete(t) => Show(t)
    case Loose(k, v) => ShowEntry(k, v)
  }

  ghost predicate Spelled(c: Code, s: string) {
    match c
    case 's' => exists cps :: Scalars(cps) && EncodedAll(cps) == s
    case 'o' => s == "/" || exists es :: Elements(es) && Path(es) == s
    case 'g' => PrintedPieces(s)
    case _ => false
  }

  ghost predicate PrintedPieces(s: string) {
    exists ps :: Printed(ps) == s
  }

  // ----- The table

  ghost predicate Takes(c: Code, v: Value) {
    match c
    case 'b' => v.Boolean?
    case 'd' => v.Number?
    case 's' | 'o' | 'g' => v.Text? && v.kind == StringText && '\0' !in v.s && Spelled(c, v.s)
    case 'h' => false
    case 'x' => v.S64? || exists n :: v == Numeral(n) && TakesNumber('x', n)
    case 't' => v.U64? || exists n :: v == Numeral(n) && TakesNumber('t', n)
    case _ => exists n :: v == Numeral(n) && TakesNumber(c, n)
  }

  /** What goes on the wire for a value. */
  ghost predicate Means(c: Code, v: Value, d: Datum) {
    match c
    case 'b' => d.Bit? && v == Boolean(d.b)
    case 'd' => d.Dbl? && v == Number(d.d)
    case 's' | 'o' | 'g' => d.Chars? && v == Text(StringText, d.s)
    case 'h' => false
    case _ => d.Int? && (v == Numeral(d.n) || (c == 'x' && v == S64(d.n)) || (c == 't' && v == U64(d.n)))
  }

  lemma {:induction false} Codes(c: char)
    ensures IsCode(c) <==> c in "ybnqiuxtdsogh"
  {
  }

  /** The ranges are those of the casts. */
  lemma {:induction false} RangeIsCast(c: Code, n: int)
    requires IsInteger(c)
    ensures InRange(c, n) <==> Cast(c, n) == n
  {
  }

  lemma {:induction false} WholeIsNumeral(d: Double, n: int)
    ensures Whole(d) == Some(n) <==> Number(d) == Numeral(n)
  {
  }

  /** The table is what the conversions compute, for every code and every value. */
  lemma {:induction false} TakesExact(c: Code, v: Value)
    ensures ToDatum(c, v).Some? <==> Takes(c, v)
    ensures ToDatum(c, v).Some? ==> Means(c, v, ToDatum(c, v).value)
  {
    hide TextFits, Spelled, InRange, TakesNumber, Whole;
    if v.Text? { SpelledExact(c, v.s); }
    if v.Number? && IsInteger(c) {
      NumberTaken(c, v.d);
    }
    OtherCodes(c);
  }

  lemma {:induction false} OtherCodes(c: Code)
    ensures IsInteger(c) || c in {'b', 'd', 's', 'o', 'g', 'h'}
  {
  }

  lemma {:induction false} NumberTaken(c: Code, d: Double)
    requires IsInteger(c)
    ensures (exists n :: Number(d) == Numeral(n) && TakesNumber(c, n)) <==>
      Whole(d).Some? && InRange(c, Whole(d).value) && (c in {'x', 't'} ==> Exact64(Whole(d).value))
    ensures Whole(d).Some? ==> Number(d) == Numeral(Whole(d).value)
  {
    hide InRange, Cast;
    forall n ensures Whole(d) == Some(n) <==> Number(d) == Numeral(n) {
      WholeIsNumeral(d, n);
    }
    if Whole(d).Some? { RangeIsCast(c, Whole(d).value); }
  }

  lemma {:induction false} SpelledExact(c: Code, s: string)
    ensures TextFits(c, s) <==> Spelled(c, s)
  {
    hide Utf8, ObjectPath, SignatureText, EncodedAll, Path, Printed, Elements, Scalars;
    match c
    case 's' => Utf8Exact(s);
    case 'o' => PathExact(s);
    case 'g' => PiecesExact(s);
    case _ =>
  }

  // ----- Containers

  /** The "Accepts" column for every type, with variants by the print of their type and byte arrays
      as the code has them. */
  ghost predicate Accepted(t: Type, v: Value)
    decreases v
  {
    match t
    case Basic(c) => Takes(c, v)
    case Variant =>
      && v.Indexed? && v.tuple && |v.items| == 2
      && exists u :: v.items[0] == Text(StringText, Show(u)) && Accepted(u, v.items[1])
    case Array(e) =>
      || (e == Basic('y') && v.Text?)
      || (e != Basic('y') && v.Indexed? && forall x :: x in v.items ==> Accepted(e, x))
    case Struct(f, ts) =>
      && v.Indexed? && |v.items| == 1 + |ts| && Accepted(f, v.items[0])
      && forall i :: 1 <= i < |v.items| ==> Accepted(ts[i - 1], v.items[i])
    case Dict(k, e) =>
      v.Dictionary? && forall p :: p in v.slots ==> Takes(k, p.key) && Accepted(e, p.value)
  }

  /** Conforming to a type is being accepted by the table, at every depth. */
  lemma {:induction false} ConformsExact(t: Type, v: Value)
    ensures Conforms(t, v) <==> Accepted(t, v)
    decreases v, 1
  {
    hide Takes, ToDatum, Show, Single;
    match t
    case Basic(c) => TakesExact(c, v);
    case Variant =>
      if v.Indexed? && |v.items| == 2 { VariantExact(v); }
    case Array(e) =>
      if v.Indexed? {
        forall i | 0 <= i < |v.items| ensures Conforms(e, v.items[i]) <==> Accepted(e, v.items[i]) {
          ConformsExact(e, v.items[i]);
        }
      }
    case Struct(f, ts) =>
      if v.Indexed? && |v.items| == 1 + |ts| {
        forall i | 0 <= i < |v.items|
          ensures Conforms(Fields(t)[i], v.items[i]) <==> Accepted(Fields(t)[i], v.items[i])
        {
          ConformsExact(Fields(t)[i], v.items[i]);
        }
        assert forall i :: 1 <= i < |v.items| ==> Fields(t)[i] == ts[i - 1];
      }
    case Dict(k, e) =>
      if v.Dictionary? {
        forall i | 0 <= i < |v.slots|
          ensures ToDatum(k, v.slots[i].key).Some? <==> Takes(k, v.slots[i].key)
          ensures Conforms(e, v.slots[i].value) <==> Accepted(e, v.slots[i].value)
        {
          TakesExact(k, v.slots[i].key);
          ConformsExact(e, v.slots[i].value);
        }
      }
  }

  lemma {:induction false} VariantExact(v: Value)
    requires v.Indexed? && |v.items| == 2
    ensures Conforms(Variant, v) <==> Accepted(Variant, v)
    decreases v, 0
  {
    hide Show, Single;
    if v.items[0].Text? {
      var sig := v.items[0].s;
      if Single(sig).Some? {
        var u := Single(sig).value;
        SingleExact(sig, u);
        ConformsExact(u, v.items[1]);
      }
      forall u | v.items[0] == Text(StringText, Show(u)) ensures Single(sig) == Some(u) {
        SingleExact(sig, u);
      }
    }
  }

  // ----- UTF-8

  lemma {:induction false} Utf8Exact(s: string)
    ensures Utf8(s) <==> exists cps :: Scalars(cps) && EncodedAll(cps) == s
  {
    hide Utf8, EncodedAll, Scalars;
    if Utf8(s) { var cps := Decoded(s); }
    if cps :| Scalars(cps) && EncodedAll(cps) == s { EncodedIsUtf8(cps); }
  }

  lemma {:induction false} EncodedIsUtf8(cps: seq<int>)
    requires Scalars(cps)
    ensures Utf8(EncodedAll(cps))
  {
    hide Utf8, Encoded;
    if cps == [] {
      NothingIsUtf8();
    } else {
      EncodedIsUtf8(cps[1..]);
      OneMoreScalar(cps[0], EncodedAll(cps[1..]));
    }
  }

  lemma {:induction false} NothingIsUtf8()
    ensures Utf8("")
  {
  }

  lemma {:induction false} OneMoreScalar(cp: int, rest: string)
    requires Scalar(cp) && Utf8(rest)
    ensures Utf8(Encoded(cp) + rest)
  {
    hide Utf8;
    var e := Encoded(cp);
    if |e| == 1 {
      Utf8Ahead1(e[0], rest);
    } else if |e| == 2 {
      Utf8Ahead2(e[0], e[1], rest);
    } else if |e| == 3 {
      Utf8Ahead3(e[0], e[1], e[2], rest);
    } else {
      Utf8Ahead4(e[0], e[1], e[2], e[3], rest);
    }
  }

  lemma {:induction false} Utf8Ahead1(a: char, rest: string)
    requires a as int < 0x80 && Utf8(rest)
    ensures Utf8([a] + rest)
  {
    assert ([a] + rest)[1..] == rest;
  }

  lemma {:induction false} Utf8Ahead2(a: char, b: char, rest: string)
    requires 0xc2 <= a as int <= 0xdf && Follow(b) && Utf8(rest)
    ensures Utf8([a, b] + rest)
  {
    assert ([a, b] + rest)[2..] == rest;
  }

  lemma {:induction false} Utf8Ahead3(a: char, b: char, c: char, rest: string)
    requires 0xe0 <= a as int <= 0xef && Follow(b) && Follow(c) && Utf8(rest)
    requires (a as int == 0xe0 ==> b as int >= 0xa0) && (a as int == 0xed ==> b as int <= 0x9f)
    ensures Utf8([a, b, c] + rest)
  {
    assert ([a, b, c] + rest)[3..] == rest;
  }

  lemma {:induction false} Utf8Ahead4(a: char, b: char, c: char, d: char, rest: string)
    requires 0xf0 <= a as int <= 0xf4 && Follow(b) && Follow(c) && Follow(d) && Utf8(rest)
    requires (a as int == 0xf0 ==> b as int >= 0x90) && (a as int == 0xf4 ==> b as int <= 0x8f)
    ensures Utf8([a, b, c, d] + rest)
  {
    assert ([a, b, c, d] + rest)[4..] == rest;
  }

  /** The code points of well-formed UTF-8. */
  lemma {:induction false} Decoded(s: string) returns (cps: seq<int>)
    requires Utf8(s)
    ensures Scalars(cps) && EncodedAll(cps) == s
    decreases |s|
  {
    hide Utf8, Encoded;
    if s == "" {
      cps := [];
    } else {
      var cp, n := FirstScalar(s);
      var rest := Decoded(s[n..]);
      cps := [cp] + rest;
      assert cps[1..] == rest;
      assert s == s[..n] + s[n..];
    }
  }

  lemma {:induction false} FirstScalar(s: string) returns (cp: int, n: nat)
    requires s != "" && Utf8(s)
    ensures Scalar(cp) && 1 <= n <= |s| && s[..n] == Encoded(cp) && Utf8(s[n..])
  {
    hide Encoded;
    var a := s[0] as int;
    if a < 0x80 {
      cp, n := a, 1;
      Encodes1(s[0]);
    } else if a <= 0xdf {
      cp, n := (a - 0xc0) * 64 + (s[1] as int - 0x80), 2;
      Encodes2(s[0], s[1]);
    } else if a <= 0xef {
      cp, n := (a - 0xe0) * 4096 + (s[1] as int - 0x80) * 64 + (s[2] as int - 0x80), 3;
      Encodes3(s[0], s[1], s[2]);
    } else {
      cp := (a - 0xf0) * 262144 + (s[1] as int - 0x80) * 4096 + (s[2] as int - 0x80) * 64 + (s[3] as int - 0x80);
      n := 4;
      Encodes4(s[0], s[1], s[2], s[3]);
    }
  }

  lemma {:induction false} Encodes1(a: char)
    requires a as int < 0x80
    ensures Scalar(a as int) && Encoded(a as int) == [a]
  {
  }

  lemma {:induction false} Encodes2(a: char, b: char)
    requires 0xc2 <= a as int <= 0xdf && Follow(b)
    ensures var cp := (a as int - 0xc0) * 64 + (b as int - 0x80);
      Scalar(cp) && Encoded(cp) == [a, b]
  {
  }

  lemma {:induction false} Encodes3(a: char, b: char, c: char)
    requires 0xe0 <= a as int <= 0xef && Follow(b) && Follow(c)
    requires (a as int == 0xe0 ==> b as int >= 0xa0) && (a as int == 0xed ==> b as int <= 0x9f)
    ensures var cp := (a as int - 0xe0) * 4096 + (b as int - 0x80) * 64 + (c as int - 0x80);
      Scalar(cp) && Encoded(cp) == [a, b, c]
  {
  }

  lemma {:induction false} Encodes4(a: char, b: char, c: char, d: char)
    requires 0xf0 <= a as int <= 0xf4 && Follow(b) && Follow(c) && Follow(d)
    requires (a as int == 0xf0 ==> b as int >= 0x90) && (a as int == 0xf4 ==> b as int <= 0x8f)
    ensures var cp :=
        (a as int - 0xf0) * 262144 + (b as int - 0x80) * 4096 + (c as int - 0x80) * 64 + (d as int - 0x80);
      Scalar(cp) && Encoded(cp) == [a, b, c, d]
  {
    var x, y, z, w := a as int - 0xf0, b as int - 0x80, c as int - 0x80, d as int - 0x80;
    var cp := x * 262144 + y * 4096 + z * 64 + w;
    Digits(x, y, z, w);
    assert 0x1_0000 <= cp < 0x11_0000;
  }

  /** The digits of a number to the base 64. */
  lemma {:induction false} Digits(x: int, y: int, z: int, w: int)
    requires 0 <= y < 64 && 0 <= z < 64 && 0 <= w < 64
    ensures var n := x * 262144 + y * 4096 + z * 64 + w;
      n / 262144 == x && n / 4096 % 64 == y && n / 64 % 64 == z && n % 64 == w
  {
    var n := x * 262144 + y * 4096 + z * 64 + w;
    assert n / 64 == x * 4096 + y * 64 + z;
    assert n / 4096 == x * 64 + y;
  }

  // ----- Object paths

  lemma {:induction false} PathExact(s: string)
    ensures ObjectPath(s) <==> s == "/" || exists es :: Elements(es) && Path(es) == s
  {
    hide Path;
    if ObjectPath(s) && s != "/" { var es := Split(s); }
    if es :| Elements(es) && Path(es) == s { PathIsObjectPath(es); }
  }

  lemma {:induction false} PathIsObjectPath(es: seq<string>)
    requires Elements(es)
    ensures ObjectPath(Path(es)) && |Path(es)| > 1
  {
    hide ObjectPath;
    assert Element(es[0]);
    if |es| == 1 {
      assert Path(es) == "/" + es[0] + "" == "/" + es[0];
      OneElement(es[0]);
    } else {
      assert Elements(es[1..]);
      PathIsObjectPath(es[1..]);
      MoreElements(es[0], Path(es[1..]));
    }
  }

  lemma {:induction false} OneElement(e: string)
    requires Element(e)
    ensures ObjectPath("/" + e)
  {
    var s := "/" + e;
    forall i | 1 <= i < |s| ensures s[i] != '/' && PathChar(s[i]) {
      assert s[i] == e[i - 1];
    }
  }

  lemma {:induction false} MoreElements(e: string, rest: string)
    requires Element(e) && ObjectPath(rest) && |rest| > 1
    ensures ObjectPath("/" + e + rest)
  {
    var s := "/" + e + rest;
    forall i | 1 <= i < |s| ensures s[i] == if i <= |e| then e[i - 1] else rest[i - 1 - |e|] {
    }
    assert forall i :: 0 <= i < |e| ==> e[i] != '/' && PathChar(e[i]);
  }

  /** The offset of the first slash after the first character. */
  ghost function NextSlash(s: string, i: nat): (n: nat)
    requires i <= |s|
    ensures i <= n <= |s| && (n < |s| ==> s[n] == '/')
    ensures forall j :: i <= j < n ==> s[j] != '/'
    decreases |s| - i
  {
    if i == |s| || s[i] == '/' then i else NextSlash(s, i + 1)
  }

  lemma {:induction false} Split(s: string) returns (es: seq<string>)
    requires ObjectPath(s) && |s| > 1
    ensures Elements(es) && Path(es) == s
    decreases |s|
  {
    var n := NextSlash(s, 1);
    assert s[1] != '/' && n > 1;
    var e := s[1..n];
    forall i | 0 <= i < |e| ensures e[i] != '/' && PathChar(e[i]) {
      assert e[i] == s[i + 1];
    }
    assert Element(e);
    if n == |s| {
      es := [e];
      assert Path(es[1..]) == "" && "/" + e + "" == s;
    } else {
      var rest := s[n..];
      RestIsPath(s, n);
      var more := Split(rest);
      es := [e] + more;
      assert es[1..] == more && "/" + e + rest == s;
    }
  }

  lemma {:induction false} RestIsPath(s: string, n: nat)
    requires ObjectPath(s) && 1 < n < |s| && s[n] == '/'
    ensures ObjectPath(s[n..]) && |s[n..]| > 1
  {
    var r := s[n..];
    assert forall i :: 0 <= i < |r| ==> r[i] == s[n + i];
  }

  // ----- Signatures as text

  lemma {:induction false} PiecesExact(s: string)
    ensures SignatureText(s) <==> PrintedPieces(s)
  {
    hide Printed, SignatureText;
    if SignatureText(s) {
      var ps := Pieces(s);
      assert Printed(ps) == s;
    }
    if ps :| Printed(ps) == s { PrintedIsText(ps); }
  }

  lemma {:induction false} PrintedIsText(ps: seq<Piece>)
    ensures SignatureText(Printed(ps))
  {
    hide First, Entry, Show, ShowEntry;
    if ps != [] {
      var rest := Printed(ps[1..]);
      PrintedIsText(ps[1..]);
      match ps[0]
      case Complete(t) =>
        FirstOfShow(t, rest);
        assert (Show(t) + rest)[|Show(t)|..] == rest;
      case Loose(k, v) =>
        EntryOfShow(k, v, rest);
        NoTypeAtBrace(k, v, rest);
        assert (ShowEntry(k, v) + rest)[|ShowEntry(k, v)|..] == rest;
    }
  }

  lemma {:induction false} NoTypeAtBrace(k: Code, v: Type, rest: string)
    ensures ShowEntry(k, v) != "" && First(ShowEntry(k, v) + rest).None?
  {
    assert ShowEntry(k, v)[0] == '{';
  }

  lemma {:induction false} Pieces(s: string) returns (ps: seq<Piece>)
    requires SignatureText(s)
    ensures Printed(ps) == s
    decreases |s|
  {
    hide First, Entry, Show, ShowEntry;
    if s == "" {
      ps := [];
    } else if First(s).Some? {
      var (t, n) := First(s).value;
      FirstSound(s);
      var more := Pieces(s[n..]);
      ps := [Complete(t)] + more;
      assert ps[1..] == more && s == s[..n] + s[n..];
    } else {
      var (k, v, n) := Entry(s).value;
      EntrySound(s);
      var more := Pieces(s[n..]);
      ps := [Loose(k, v)] + more;
      assert ps[1..] == more && s == s[..n] + s[n..];
    }
  }

  // ----- At the edges

  /** The code takes every number from `low` to `high` and none just outside. */
  ghost predicate TakesUpTo(c: Code, low: int, high: int) {
    Takes(c, Numeral(low)) && Takes(c, Numeral(high)) && !Takes(c, Numeral(low - 1)) && !Takes(c, Numeral(high + 1))
  }

  lemma {:induction false} Edges()
    ensures TakesUpTo('y', 0, 255)
    ensures TakesUpTo('n', -32768, 32767) && TakesUpTo('q', 0, 65535)
    ensures TakesUpTo('i', -2147483648, 2147483647) && TakesUpTo('u', 0, 4294967295)
    ensures TakesUpTo('x', -9007199254740991, 9007199254740991) && TakesUpTo('t', 0, 9007199254740991)
  {
    hide Takes, TakesUpTo;
    Edge('y', 0, 255);
    Edge('n', -32768, 32767);
    Edge('q', 0, 65535);
    Edge('i', -2147483648, 2147483647);
    Edge('u', 0, 4294967295);
    Edge('x', -9007199254740991, 9007199254740991);
    Edge('t', 0, 9007199254740991);
  }

  lemma {:induction false} Edge(c: Code, low: int, high: int)
    requires IsInteger(c) && TakesNumber(c, low) && TakesNumber(c, high)
    requires !TakesNumber(c, low - 1) && !TakesNumber(c, high + 1)
    ensures TakesUpTo(c, low, high)
  {
    hide Takes, TakesNumber;
    TakesNumeral(c, low);
    TakesNumeral(c, high);
    TakesNumeral(c, low - 1);
    TakesNumeral(c, high + 1);
  }

  lemma {:induction false} TakesNumeral(c: Code, n: int)
    requires IsInteger(c)
    ensures Takes(c, Numeral(n)) <==> TakesNumber(c, n)
  {
    assert forall m :: Numeral(m) == Numeral(n) ==> m == n;
  }
}
