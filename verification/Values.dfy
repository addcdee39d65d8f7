/** Janet values, the range and type checks of src/unwrap.c, and the relation "value conforms to
    D-Bus type" that docs/index.md promises. */
module Values {
  import opened Options
  import opened Signatures

  /** An IEEE-754 double; rounding plays no part here, so finite ones are reals. */
  datatype Double = Finite(r: real) | NaN | PosInf | NegInf

  datatype TextKind = StringText | SymbolText | KeywordText | BufferText

  datatype Pair = Pair(key: Value, value: Value)

  /** Files, streams and cyclic data are not part of the model. Text is a sequence of bytes
      (characters below 256). A dictionary is its sequence of occupied slots, in slot order. */
  datatype Value =
    | Nil
    | Boolean(b: bool)
    | Number(d: Double)
    | S64(n: int)
    | U64(n: int)
    | Text(kind: TextKind, s: string)
    | Indexed(tuple: bool, items: seq<Value>)
    | Dictionary(table: bool, slots: seq<Pair>)
    | Other(tag: nat)

  function Str(s: string): Value { Text(StringText, s) }

  predicate Bytes(s: string) {
    forall i :: 0 <= i < |s| ==> s[i] as int < 256
  }

  /** What Janet guarantees of its own values: text is bytes, boxed integers are in range,
      dictionary keys are distinct and neither nil nor NaN. */
  ghost predicate Janet(v: Value) {
    match v
    case S64(n) => -0x8000_0000_0000_0000 <= n < 0x8000_0000_0000_0000
    case U64(n) => 0 <= n < 0x1_0000_0000_0000_0000
    case Text(_, s) => Bytes(s)
    case Indexed(_, items) => forall i :: 0 <= i < |items| ==> Janet(items[i])
    case Dictionary(_, slots) =>
      && (forall i :: 0 <= i < |slots| ==> Janet(slots[i].key) && Janet(slots[i].value))
      && (forall i :: 0 <= i < |slots| ==> slots[i].key != Nil && slots[i].key != Number(NaN))
      && (forall i, j :: 0 <= i < j < |slots| ==> slots[i].key != slots[j].key)
    case _ => true
  }

  // ----- Wire data of basic type

  datatype Datum = Int(n: int) | Bit(b: bool) | Dbl(d: Double) | Chars(s: string)

  predicate InRange(code: Code, n: int) {
    match code
    case 'y' => 0 <= n <= 0xff
    case 'n' => -0x8000 <= n <= 0x7fff
    case 'q' => 0 <= n <= 0xffff
    case 'i' => -0x8000_0000 <= n <= 0x7fff_ffff
    case 'u' => 0 <= n <= 0xffff_ffff
    case 'x' => -0x8000_0000_0000_0000 <= n <= 0x7fff_ffff_ffff_ffff
    case 't' => 0 <= n <= 0xffff_ffff_ffff_ffff
    case _ => false
  }

  /** The integer a number stands for, when it is one. */
  function Whole(d: Double): Option<int> {
    if d.Finite? && d.r == d.r.Floor as real then Some(d.r.Floor) else None
  }

  function FromInt(n: int): Value { Number(Finite(n as real)) }

  /** A number may stand for a 64-bit integer when it is exact, that is, below 2^53. */
  predicate Exact64(n: int) {
    -0x20_0000_0000_0000 < n < 0x20_0000_0000_0000
  }

  predicate PathChar(c: char) {
    'a' <= c <= 'z' || 'A' <= c <= 'Z' || '0' <= c <= '9' || c == '_'
  }

  /** Object paths: "/" or slash-separated non-empty elements of letters, digits and underscore. */
  predicate ObjectPath(s: string) {
    && s != "" && s[0] == '/'
    && (forall i :: 0 <= i < |s| ==> s[i] == '/' || PathChar(s[i]))
    && (forall i :: 1 <= i < |s| ==> !(s[i - 1] == '/' && s[i] == '/'))
    && (|s| > 1 ==> s[|s| - 1] != '/')
  }

  /** Text accepted for type 'g': complete types, and also bare dict entries. */
  predicate SignatureText(s: string) {
    if s == "" then true
    else match First(s)
         case Some((_, n)) => SignatureText(s[n..])
         case None =>
           match Entry(s)
           case Some((_, _, n)) => SignatureText(s[n..])
           case None => false
  }

  predicate Follow(c: char) { 0x80 <= c as int <= 0xbf }

  /** Well-formed UTF-8 (the table of RFC 3629, section 4). */
  predicate Utf8(s: string) {
    if s == "" then true
    else
      var a := s[0] as int;
      if a < 0x80 then Utf8(s[1..])
      else if 0xc2 <= a <= 0xdf then |s| > 1 && Follow(s[1]) && Utf8(s[2..])
      else if 0xe0 <= a <= 0xef then
        && |s| > 2 && Follow(s[1]) && Follow(s[2])
        && (a == 0xe0 ==> s[1] as int >= 0xa0) && (a == 0xed ==> s[1] as int <= 0x9f)
        && Utf8(s[3..])
      else if 0xf0 <= a <= 0xf4 then
        && |s| > 3 && Follow(s[1]) && Follow(s[2]) && Follow(s[3])
        && (a == 0xf0 ==> s[1] as int >= 0x90) && (a == 0xf4 ==> s[1] as int <= 0x8f)
        && Utf8(s[4..])
      else false
  }

  /** What sd-bus checks of a string-like argument. */
  predicate TextFits(code: Code, s: string) {
    match code
    case 's' => Utf8(s)
    case 'o' => ObjectPath(s)
    case 'g' => SignatureText(s)
    case _ => false
  }

  /** The wire datum a Janet value stands for under a basic type, None when it is refused. */
  function ToDatum(code: Code, v: Value): Option<Datum> {
    match code
    case 'b' => if v.Boolean? then Some(Bit(v.b)) else None
    case 'd' => if v.Number? then Some(Dbl(v.d)) else None
    case 's' | 'o' | 'g' =>
      if v.Text? && v.kind == StringText && '\0' !in v.s && TextFits(code, v.s) then Some(Chars(v.s)) else None
    case 'h' => None
    case 'x' => if v.S64? then Some(Int(v.n)) else ExactDatum(code, v)
    case 't' => if v.U64? then Some(Int(v.n)) else ExactDatum(code, v)
    case _ =>
      if v.Number? && Whole(v.d).Some? && InRange(code, Whole(v.d).value) then Some(Int(Whole(v.d).value)) else None
  }

  function ExactDatum(code: Code, v: Value): Option<Datum> {
    if v.Number? && Whole(v.d).Some? && Exact64(Whole(v.d).value) && InRange(code, Whole(v.d).value)
    then Some(Int(Whole(v.d).value)) else None
  }

  // ----- Conformance

  /** A value conforms to a complete type: the "Accepts" column of the type table, with exact
      lengths for structs, an own, complete signature inside every variant, and one departure that
      the code makes: byte arrays are taken from text only, not from arrays or tuples
      (src/message.c:216-223). */
  ghost predicate Conforms(t: Type, v: Value)
    decreases v
  {
    match t
    case Basic(c) => ToDatum(c, v).Some?
    case Variant =>
      && v.Indexed? && v.tuple && |v.items| == 2
      && v.items[0].Text? && v.items[0].kind == StringText
      && Single(v.items[0].s).Some?
      && Conforms(Single(v.items[0].s).value, v.items[1])
    case Array(e) =>
      if e == Basic('y') then v.Text?
      else v.Indexed? && forall i :: 0 <= i < |v.items| ==> Conforms(e, v.items[i])
    case Struct(_, _) =>
      && v.Indexed? && |v.items| == |Fields(t)|
      && forall i :: 0 <= i < |v.items| ==> Conforms(Fields(t)[i], v.items[i])
    case Dict(k, e) =>
      && v.Dictionary?
      && forall i :: 0 <= i < |v.slots| ==> ToDatum(k, v.slots[i].key).Some? && Conforms(e, v.slots[i].value)
  }
}
