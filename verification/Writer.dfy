/** The writer of src/message.c: a cursor walks the signature while Janet values are appended to
    the message; containers recurse with a cursor of their own over a scratch copy. */
module Writer {
  import opened Options
  import opened Signatures
  import opened Spans
  import opened Values
  import opened Messages
  import opened Boundaries
  import opened ErrorContexts
  import TypeTable

  datatype Outcome = Ok | Raised(fault: Fault)

  // ----- What appending must achieve

  /** Appending `v` at the front of the signature text `s` is right to succeed. */
  ghost predicate Accepts(s: string, fs: seq<Frame>, v: Value)
    requires Ready(fs)
  {
    First(s).Some? && Conforms(First(s).value.0, v) && Admits(Top(fs), Show(First(s).value.0))
  }

  /** The message after a rightful append. */
  ghost function Appended(s: string, fs: seq<Frame>, v: Value): seq<Frame>
    requires Ready(fs) && Accepts(s, fs, v)
  {
    Emit(fs, Show(First(s).value.0), ToWire(First(s).value.0, v))
  }

  /** Appending all of `vs`, one complete type of `s` each, is right to succeed. */
  ghost predicate AcceptsAll(s: string, fs: seq<Frame>, vs: seq<Value>)
    requires Ready(fs)
    decreases |vs|
  {
    if vs == [] then s == ""
    else
      && Accepts(s, fs, vs[0])
      && (EmitReady(fs, Show(First(s).value.0), ToWire(First(s).value.0, vs[0]));
          AcceptsAll(s[First(s).value.1..], Appended(s, fs, vs[0]), vs[1..]))
  }

  ghost function AppendedAll(s: string, fs: seq<Frame>, vs: seq<Value>): seq<Frame>
    requires Ready(fs) && AcceptsAll(s, fs, vs)
    decreases |vs|
  {
    if vs == [] then fs
    else
      EmitReady(fs, Show(First(s).value.0), ToWire(First(s).value.0, vs[0]));
      AppendedAll(s[First(s).value.1..], Appended(s, fs, vs[0]), vs[1..])
  }

  lemma {:induction false} EmitReady(fs: seq<Frame>, piece: string, w: Wire)
    requires Ready(fs) && Admits(Top(fs), piece)
    ensures Ready(Emit(fs, piece, w))
  {
  }

  // ----- Type errors

  /** The check of src/unwrap.c that an argument of this type meets first. */
  ghost predicate HeadOk(t: Type, v: Value) {
    match t
    case Basic(c) => BasicOk(c, v)
    case Variant => v.Indexed? && v.tuple
    case Array(e) => if e == Basic('y') then v.Text? else v.Indexed?
    case Struct(_, _) => v.Indexed?
    case Dict(_, _) => v.Dictionary?
  }

  /** 64-bit integers are converted by Janet itself, which raises an error of its own. */
  ghost predicate BasicOk(c: Code, v: Value) {
    match c
    case 'b' => v.Boolean?
    case 'd' => v.Number?
    case 's' | 'o' | 'g' => v.Text? && v.kind == StringText
    case 'x' | 't' => true
    case _ => ToDatum(c, v).Some?
  }

  /** What a type error calls the argument that this check expects. */
  ghost function Wanted(t: Type): string {
    match t
    case Basic(c) => WantedBasic(c)
    case Variant => "tuple"
    case Array(e) => if e == Basic('y') then "bytes" else "indexed"
    case Struct(_, _) => "indexed"
    case Dict(_, _) => "dictionary"
  }

  ghost function WantedBasic(c: Code): string {
    match c
    case 'y' => "8 bit unsigned integer"
    case 'b' => "boolean"
    case 'n' => "16 bit signed integer"
    case 'q' => "16 bit unsigned integer"
    case 'i' => "32 bit signed integer"
    case 'u' => "32 bit unsigned integer"
    case 'd' => "number"
    case 's' | 'o' | 'g' => "string"
    case _ => ":core/file or :core/stream"
  }

  lemma {:induction false} ConformsHead(t: Type, v: Value)
    ensures Conforms(t, v) ==> HeadOk(t, v)
  {
  }

  /** `x` has to be appended as a `u` in the course of appending `v` as a `t`. */
  ghost predicate Within(t: Type, v: Value, u: Type, x: Value)
    decreases v
  {
    || (t == u && v == x)
    || match t
       case Variant =>
         && v.Indexed? && |v.items| == 2 && v.items[0].Text? && Single(v.items[0].s).Some?
         && Within(Single(v.items[0].s).value, v.items[1], u, x)
       case Array(e) => v.Indexed? && exists i :: 0 <= i < |v.items| && Within(e, v.items[i], u, x)
       case Struct(_, _) =>
         v.Indexed? && exists i :: 0 <= i < |v.items| && i < |Fields(t)| && Within(Fields(t)[i], v.items[i], u, x)
       case Dict(_, e) => v.Dictionary? && exists i :: 0 <= i < |v.slots| && Within(e, v.slots[i].value, u, x)
       case _ => false
  }

  /** The name a type has in an error message. */
  ghost function Label(t: Type): string {
    Rendered(Show(t), if t.Struct? then |Show(t)| - 1 else |Show(t)|)
  }

  // ----- Cursor and scratch copies

  class Parser {
    const text: string
    var cursor: nat

    constructor (text: string)
      ensures this.text == text && cursor == 0
    {
      this.text := text;
      cursor := 0;
    }

    /** The character at an offset; the terminator is one past the last character. */
    function At(i: nat): char
      requires i <= |text|
    {
      if i < |text| then text[i] else '\0'
    }

    function Tail(): string
      reads this
      requires cursor <= |text|
    {
      text[cursor..]
    }

    method Next()
      requires cursor < |text|
      modifies this
      ensures cursor == old(cursor) + 1
    {
      cursor := cursor + 1;
    }

    method Skip(n: nat)
      requires cursor + n <= |text|
      modifies this
      ensures cursor == old(cursor) + n
    {
      cursor := cursor + n;
    }
  }

  /** A zeroed allocation of `size` bytes receives `n` bytes of the text: the C string in it. */
  method Scratch(text: string, from: nat, n: nat, size: nat) returns (s: string)
    requires from + n <= |text| && n < size && '\0' !in text
    ensures s == text[from..from + n]
  {
    var buf := new char[size](_ => '\0');
    var i := 0;
    while i < n
      invariant 0 <= i <= n
      invariant forall j :: 0 <= j < i ==> buf[j] == text[from + j]
      invariant forall j :: i <= j < size ==> buf[j] == '\0'
    {
      buf[i] := text[from + i];
      i := i + 1;
    }
    assert buf[..] == text[from..from + n] + ['\0'] + buf[n + 1..];
    CStringOfText(text[from..from + n], buf[n + 1..]);
    return CString(buf[..]);
  }

  /** The dictionary's scratch signature, first with its braces and then, in the same buffer,
      without them. */
  method EntryScratch(text: string, from: nat, end: nat) returns (braced: string, bare: string)
    requires 1 <= end && from + end < |text| && '\0' !in text
    ensures braced == text[from..from + end + 1] && bare == text[from + 1..from + end]
  {
    var buf := new char[end + 2](_ => '\0');
    var i := 0;
    while i < end + 1
      invariant 0 <= i <= end + 1
      invariant forall j :: 0 <= j < i ==> buf[j] == text[from + j]
      invariant forall j :: i <= j < end + 2 ==> buf[j] == '\0'
    {
      buf[i] := text[from + i];
      i := i + 1;
    }
    assert buf[..] == text[from..from + end + 1] + ['\0'] + buf[end + 2..];
    CStringOfText(text[from..from + end + 1], buf[end + 2..]);
    braced := CString(buf[..]);

    i := 0;
    while i < end - 1
      invariant 0 <= i <= end - 1
      invariant forall j :: 0 <= j < i ==> buf[j] == text[from + 1 + j]
      invariant forall j :: i <= j < end ==> buf[j] == text[from + j]
    {
      buf[i] := buf[i + 1];
      i := i + 1;
    }
    buf[end - 1] := '\0';
    assert buf[..] == text[from + 1..from + end] + ['\0'] + buf[end..];
    CStringOfText(text[from + 1..from + end], buf[end..]);
    bare := CString(buf[..]);
  }

  // ----- Reports

  /** Where a type error arose: a type and value, and the slot if it was a dictionary key. */
  datatype Blame = Blame(t: Type, v: Value, slot: Option<nat>)

  ghost predicate Culprit(t: Type, v: Value, at: Blame) {
    && Within(t, v, at.t, at.v)
    && match at.slot
       case None => !HeadOk(at.t, at.v)
       case Some(i) => at.t.Dict? && at.v.Dictionary? && i < |at.v.slots| && !BasicOk(at.t.key, at.v.slots[i].key)
  }

  ghost function WantedAt(at: Blame): string {
    if at.slot.Some? && at.t.Dict? then WantedBasic(at.t.key) else Wanted(at.t)
  }

  /** A type error names the argument and its type, and inside a container also the type that
      failed, and says what that type wants; a dictionary key has no type of its own in the report. */
  ghost predicate Reports(r: Outcome, t: Type, v: Value, at: Blame, argc: nat, outer: Option<string>, nested: bool) {
    r.Raised? && r.fault.TypeError? ==>
      && Culprit(t, v, at)
      && r.fault.expected == WantedAt(at)
      && r.fault.argc == argc
      && r.fault.outer == outer
      && (at.slot == None ==>
            || r.fault.inner == Some(Label(at.t))
            || (r.fault.inner == None && !nested && at.t == t && at.v == v))
  }

  /** A value that fails its first check is reported, unless the signature or the message stands in
      the way before. */
  ghost predicate Caught(r: Outcome, s: string, fs: seq<Frame>, v: Value, at: Blame)
    requires Ready(fs)
  {
    First(s).Some? && Admits(Top(fs), Show(First(s).value.0)) && !HeadOk(First(s).value.0, v) ==>
      r.Raised? && r.fault.TypeError? && at == Blame(First(s).value.0, v, None)
  }

  /** The error context is on the type at the front of `s`. */
  ghost predicate Current(ctx: ErrorContext, s: string)
    reads ctx
  {
    && ctx.Valid() && ctx.depth >= 1 && s != "" && SpanNextType(s).Some?
    && (if ctx.depth == 1 then ctx.sig0 == Some(s) && ctx.len0 == SpanNextType(s).value
        else ctx.sig1 == Some(s) && ctx.len1 == SpanNextType(s).value && ctx.sig0.Some? && ctx.len0 > 0)
  }

  lemma {:induction false} LabelOfText(s: string)
    requires First(s).Some?
    ensures SpanNextType(s).Some? && Rendered(s, SpanNextType(s).value) == Label(First(s).value.0)
  {
    var (t, n) := First(s).value;
    SplitFirst(s);
    SpanOfShow(t, s[n..]);
    var len := SpanNextType(s).value;
    assert s[..len] == Show(t)[..len];
  }

  lemma {:induction false} ReportsAnyway(r: Outcome, t: Type, v: Value, at: Blame,
                                         argc: nat, outer: Option<string>, nested: bool)
    requires Reports(r, t, v, at, argc, outer, true)
    ensures Reports(r, t, v, at, argc, outer, nested)
  {
  }

  /** A type error on the current type itself. */
  method RaiseHere(ctx: ErrorContext, expected: string, ghost s: string, ghost v: Value) returns (r: Outcome)
    requires Current(ctx, s) && First(s).Some? && !HeadOk(First(s).value.0, v)
    requires expected == Wanted(First(s).value.0)
    ensures r.Raised? && r.fault.TypeError? && r.fault.expected == expected
    ensures var t := First(s).value.0;
      && !Conforms(t, v)
      && Reports(r, t, v, Blame(t, v, None), ctx.argc, Recorded(ctx.sig0, ctx.len0), ctx.depth > 1)
  {
    hide First, Show, Conforms, HeadOk, SpanNextType, Within, Label, Wanted;
    LabelOfText(s);
    ghost var t := First(s).value.0;
    WithinSelf(t, v);
    ConformsHead(t, v);
    var f := ctx.Raise(expected);
    return Raised(f);
  }

  // ----- Appending

  /** What every append needs: a character to look at and a message that is still open. */
  ghost predicate Can(p: Parser, msg: Message, ctx: ErrorContext)
    reads p, msg, ctx
  {
    && p.cursor < |p.text| && '\0' !in p.text
    && Ready(msg.frames) && !msg.sealed
    && ctx.Valid() && (ctx.depth > 0 ==> ctx.sig0.Some? && ctx.len0 > 0)
  }

  /** The check that the conversion of src/unwrap.c makes first, None when it is passed. */
  method FirstCheck(c: Code, v: Value) returns (expected: Option<string>)
    ensures expected == if BasicOk(c, v) then None else Some(WantedBasic(c))
  {
    hide ToDatum;
    match c {
      case 'b' => return if v.Boolean? then None else Some("boolean");
      case 'd' => return if v.Number? then None else Some("number");
      case 's' | 'o' | 'g' => return if v.Text? && v.kind == StringText then None else Some("string");
      case 'x' | 't' => return None;
      case 'y' => return if ToDatum(c, v).Some? then None else Some("8 bit unsigned integer");
      case 'n' => return if ToDatum(c, v).Some? then None else Some("16 bit signed integer");
      case 'q' => return if ToDatum(c, v).Some? then None else Some("16 bit unsigned integer");
      case 'i' => return if ToDatum(c, v).Some? then None else Some("32 bit signed integer");
      case 'u' => return if ToDatum(c, v).Some? then None else Some("32 bit unsigned integer");
      case _ => return if ToDatum(c, v).Some? then None else Some(":core/file or :core/stream");
    }
  }

  lemma {:induction false} BasicOkIfConverted(c: Code, v: Value)
    requires ToDatum(c, v).Some?
    ensures BasicOk(c, v)
  {
  }

  lemma {:induction false} FirstOfCode(c: Code, rest: string)
    ensures First([c] + rest) == Some((Basic(c), 1))
  {
  }

  /** A value is appended exactly when the type table takes it and the container admits it; a value
      that fails its first check is always a type error. */
  method AppendBasicType(p: Parser, msg: Message, ctx: ErrorContext, v: Value) returns (r: Outcome)
    requires Can(p, msg, ctx) && IsCode(p.text[p.cursor])
    modifies msg`frames
    ensures Ready(msg.frames)
    ensures r.Ok? <==> TypeTable.Takes(p.text[p.cursor], v) && Admits(Top(old(msg.frames)), [p.text[p.cursor]])
    ensures TypeTable.Takes(p.text[p.cursor], v) <==> ToDatum(p.text[p.cursor], v).Some?
    ensures var c := p.text[p.cursor];
      r.Ok? ==>
        var d := ToDatum(c, v).value;
        TypeTable.Means(c, v, d) && msg.frames == Emit(old(msg.frames), [c], Leaf(c, d))
    ensures r.Raised? && r.fault.TypeError? <==> !BasicOk(p.text[p.cursor], v)
    ensures r.Raised? && r.fault.TypeError? ==>
      && r.fault.expected == WantedBasic(p.text[p.cursor]) && r.fault.argc == ctx.argc
      && r.fault.outer == Recorded(ctx.sig0, ctx.len0)
      && r.fault.inner == if r.fault.outer.Some? && ctx.depth > 1 then Recorded(ctx.sig1, ctx.len1) else None
  {
    hide BasicOk, ToDatum, WantedBasic, TypeTable.Takes, TypeTable.Means;
    var c: Code := p.text[p.cursor];
    TypeTable.TakesExact(c, v);
    if ToDatum(c, v).Some? { BasicOkIfConverted(c, v); }
    var expected := FirstCheck(c, v);
    if expected.Some? {
      var f := ctx.Raise(expected.value);
      return Raised(f);
    }
    var d := ToDatum(c, v);
    if d.None? {
      return Raised(BadValue);
    }
    var ok := msg.AppendBasic(c, d.value);
    return if ok then Ok else Raised(BusError);
  }

  method AppendCompleteType(p: Parser, msg: Message, ctx: ErrorContext, v: Value) returns (r: Outcome, ghost at: Blame)
    requires Can(p, msg, ctx)
    modifies p, msg`frames, ctx
    ensures p.cursor <= |p.text| && Ready(msg.frames) && ctx.Valid()
    ensures r.Ok? <==> Accepts(old(p.Tail()), old(msg.frames), v)
    ensures r.Ok? ==> p.cursor + 1 == old(p.cursor) + First(old(p.Tail())).value.1
    ensures r.Ok? ==> msg.frames == Appended(old(p.Tail()), old(msg.frames), v)
    ensures r.Ok? ==> ctx.depth == old(ctx.depth)
    ensures ctx.argc == old(ctx.argc)
    ensures old(ctx.depth) > 0 ==> ctx.sig0 == old(ctx.sig0) && ctx.len0 == old(ctx.len0)
    ensures old(ctx.depth) == 0 && SpanNextType(old(p.Tail())).Some? ==>
      ctx.sig0 == Some(old(p.Tail())) && ctx.len0 == SpanNextType(old(p.Tail())).value
    ensures Caught(r, old(p.Tail()), old(msg.frames), v, at)
    ensures r.Raised? && r.fault.TypeError? ==>
      && First(old(p.Tail())).Some?
      && Reports(r, First(old(p.Tail())).value.0, v, at, ctx.argc, Recorded(ctx.sig0, ctx.len0), old(ctx.depth) > 0)
    decreases v, 3
  {
    hide First, Show, SpanNextType, Conforms, ToWire, Within;
    at := Blame(Variant, v, None);
    ghost var s, fs := p.Tail(), msg.frames;
    if First(s).Some? { LabelOfText(s); }
    var span := SpanNextType(p.Tail());
    if span.None? {
      return Raised(BadSignature), at;
    }
    ctx.Set(p.Tail(), span.value);
    var ch := p.At(p.cursor);
    if IsBasicType(ch) {
      r, at := AppendLeaf(p, msg, ctx, v);
    } else if ch == 'v' {
      r, at := AppendVariantType(p, msg, ctx, v);
    } else if ch == '(' {
      r, at := AppendStructType(p, msg, ctx, v);
    } else if ch == 'a' {
      r, at := AppendArrayType(p, msg, ctx, v);
    } else {
      UnsupportedHead(s);
      return Raised(BadSignature), at;
    }
    if r.Ok? {
      ctx.Exit();
    }
  }

  lemma {:induction false} UnsupportedHead(s: string)
    requires s != "" && !IsCode(s[0]) && s[0] != 'v' && s[0] != '(' && s[0] != 'a'
    ensures First(s).None?
  {
  }

  /** append_basic_type as a complete type of its own. */
  method AppendLeaf(p: Parser, msg: Message, ctx: ErrorContext, v: Value) returns (r: Outcome, ghost at: Blame)
    requires Can(p, msg, ctx) && IsBasicType(p.text[p.cursor]) && Current(ctx, p.Tail())
    modifies msg`frames
    ensures Ready(msg.frames)
    ensures r.Ok? <==> Accepts(p.Tail(), old(msg.frames), v)
    ensures r.Ok? ==> First(p.Tail()).value.1 == 1
    ensures r.Ok? ==> msg.frames == Appended(p.Tail(), old(msg.frames), v)
    ensures Caught(r, p.Tail(), old(msg.frames), v, at)
    ensures r.Raised? && r.fault.TypeError? ==>
      && First(p.Tail()).Some?
      && Reports(r, First(p.Tail()).value.0, v, at, ctx.argc, Recorded(ctx.sig0, ctx.len0), ctx.depth > 1)
    decreases v, 0
  {
    hide First, BasicOk, ToDatum;
    var c := p.text[p.cursor];
    at := Blame(Basic(c), v, None);
    assert p.Tail() == [c] + p.text[p.cursor + 1..];
    FirstOfCode(c, p.text[p.cursor + 1..]);
    LabelOfText(p.Tail());
    r := AppendBasicType(p, msg, ctx, v);
  }

  // ----- Variants

  method AppendVariantType(p: Parser, msg: Message, ctx: ErrorContext, v: Value) returns (r: Outcome, ghost at: Blame)
    requires Can(p, msg, ctx) && p.text[p.cursor] == 'v' && Current(ctx, p.Tail())
    modifies p, msg`frames, ctx
    ensures p.cursor <= |p.text| && Ready(msg.frames) && ctx.Valid()
    ensures r.Ok? <==> Accepts(old(p.Tail()), old(msg.frames), v)
    ensures r.Ok? ==> p.cursor + 1 == old(p.cursor) + First(old(p.Tail())).value.1
    ensures r.Ok? ==> msg.frames == Appended(old(p.Tail()), old(msg.frames), v)
    ensures r.Ok? ==> ctx.depth == old(ctx.depth)
    ensures ctx.argc == old(ctx.argc) && ctx.sig0 == old(ctx.sig0) && ctx.len0 == old(ctx.len0)
    ensures Caught(r, old(p.Tail()), old(msg.frames), v, at)
    ensures r.Raised? && r.fault.TypeError? ==>
      && First(old(p.Tail())).Some?
      && Reports(r, First(old(p.Tail())).value.0, v, at, ctx.argc, Recorded(ctx.sig0, ctx.len0), old(ctx.depth) > 1)
    decreases v, 2
  {
    hide First, Show, Within, SpanNextType, Single, Label, Inside, Emit, Close;
    at := Blame(Variant, v, None);
    ghost var s, fs := p.Tail(), msg.frames;
    FirstOfVariant(s);
    if !(v.Indexed? && v.tuple) {
      r := RaiseHere(ctx, "tuple", s, v);
      return;
    }
    if |v.items| != 2 {
      return Raised(BadCount), at;
    }
    if !(v.items[0].Text? && v.items[0].kind == StringText) {
      return Raised(BadValue), at;
    }
    var sig := v.items[0].s;
    if '\0' in sig {
      if Single(sig).Some? { SingleHasNoNul(sig); }
      return Raised(BadValue), at;
    }
    var ok := msg.OpenContainer(VariantKind, sig);
    if !ok {
      return Raised(BusError), at;
    }
    OpenInside(fs, VariantKind, sig);
    SingleIsFirst(sig);
    ghost var t := Single(sig).value;
    var inner := new Parser(sig);
    assert inner.Tail() == sig;
    r, at := AppendCompleteType(inner, msg, ctx, v.items[1]);
    if r.Ok? {
      VariantCloses(fs, sig, ToWire(t, v.items[1]));
      var closed := msg.CloseContainer();
      assert closed;
    } else if r.fault.TypeError? {
      WithinVariant(v, at.t, at.v);
    }
  }

  lemma {:induction false} VariantCloses(fs: seq<Frame>, sig: string, w: Wire)
    requires Ready(fs) && sig != "" && Ready(Inside(fs, VariantKind, sig, 0, []))
    ensures Close(Emit(Inside(fs, VariantKind, sig, 0, []), sig, w)) == Some(Emit(fs, "v", Node(VariantKind, sig, [w])))
  {
    EmitInside(fs, VariantKind, sig, 0, [], sig, w);
    assert [] + [w] == [w];
    CloseInside(fs, VariantKind, sig, |sig|, [w]);
  }

  lemma {:induction false} FirstOfVariant(s: string)
    requires s != "" && s[0] == 'v'
    ensures First(s) == Some((Variant, 1)) && Show(Variant) == "v"
  {
  }

  lemma {:induction false} WithinSelf(t: Type, v: Value)
    ensures Within(t, v, t, v)
  {
  }

  lemma {:induction false} WithinVariant(v: Value, u: Type, x: Value)
    requires v.Indexed? && |v.items| == 2 && v.items[0].Text? && Single(v.items[0].s).Some?
    requires Within(Single(v.items[0].s).value, v.items[1], u, x)
    ensures Within(Variant, v, u, x)
  {
  }

  lemma {:induction false} SingleIsFirst(s: string)
    requires Single(s).Some?
    ensures First(s) == Some((Single(s).value, |s|)) && Show(Single(s).value) == s && s != ""
  {
    SingleExact(s, Single(s).value);
  }

  lemma {:induction false} ShowHasNoNul(t: Type)
    ensures '\0' !in Show(t)
    decreases t, 1
  {
    match t
    case Basic(_) =>
    case Variant =>
    case Array(e) => ShowHasNoNul(e);
    case Struct(f, ts) => ShowHasNoNul(f); ShowAllHasNoNul(ts);
    case Dict(_, e) => ShowHasNoNul(e);
  }

  lemma {:induction false} ShowAllHasNoNul(ts: seq<Type>)
    ensures '\0' !in ShowAll(ts)
    decreases ts, 0
  {
    if ts != [] {
      ShowHasNoNul(ts[0]);
      ShowAllHasNoNul(ts[1..]);
    }
  }

  lemma {:induction false} SingleHasNoNul(s: string)
    requires Single(s).Some?
    ensures '\0' !in s
  {
    SingleIsFirst(s);
    ShowHasNoNul(Single(s).value);
  }

  // ----- Structs

  method AppendStructType(p: Parser, msg: Message, ctx: ErrorContext, v: Value) returns (r: Outcome, ghost at: Blame)
    requires Can(p, msg, ctx) && p.text[p.cursor] == '(' && Current(ctx, p.Tail())
    modifies p, msg`frames, ctx
    ensures p.cursor <= |p.text| && Ready(msg.frames) && ctx.Valid()
    ensures r.Ok? <==> Accepts(old(p.Tail()), old(msg.frames), v)
    ensures r.Ok? ==> p.cursor + 1 == old(p.cursor) + First(old(p.Tail())).value.1
    ensures r.Ok? ==> msg.frames == Appended(old(p.Tail()), old(msg.frames), v)
    ensures r.Ok? ==> ctx.depth == old(ctx.depth)
    ensures ctx.argc == old(ctx.argc) && ctx.sig0 == old(ctx.sig0) && ctx.len0 == old(ctx.len0)
    ensures Caught(r, old(p.Tail()), old(msg.frames), v, at)
    ensures r.Raised? && r.fault.TypeError? ==>
      && First(old(p.Tail())).Some?
      && Reports(r, First(old(p.Tail())).value.0, v, at, ctx.argc, Recorded(ctx.sig0, ctx.len0), old(ctx.depth) > 1)
    decreases v, 2
  {
    hide Reports, Recorded, First, Show, Within, Scan, All, SpanNextType, ShowAll;
    hide Conforms, ToWire, Label, Inside, Emit, Close, Accepts, Appended, Open;
    at := Blame(Variant, v, None);
    ghost var s, fs := p.Tail(), msg.frames;
    var end := Match(p.text, p.cursor, '(', ')');
    assert p.text[p.cursor + 1..] == s[1..];
    if end.None? {
      StructNeedsMatch(s, fs, v);
      return Raised(BadSignature), at;
    }
    if end.value < 2 {
      StructNeedsMatch(s, fs, v);
      return Raised(BadSignature), at;
    }
    var sig := Scratch(p.text, p.cursor + 1, end.value - 1, end.value);
    assert sig == s[1..end.value];
    p.Skip(end.value);
    StructOpens(s, end.value, fs, v);
    var ok := msg.OpenContainer(StructKind, sig);
    if !ok {
      return Raised(BusError), at;
    }
    OpenInside(fs, StructKind, sig);
    ghost var t := First(s).value.0;
    if !v.Indexed? {
      at := Blame(t, v, None);
      r := RaiseHere(ctx, "indexed", s, v);
      return;
    }
    if |v.items| == 0 {
      StructConforms(t, v);
      return Raised(BadCount), at;
    }
    r, at := AppendFields(sig, msg, ctx, v, t, fs);
    ReportsAnyway(r, t, v, at, ctx.argc, Recorded(ctx.sig0, ctx.len0), old(ctx.depth) > 1);
    if r.Ok? {
      CloseInside(fs, StructKind, sig, |sig|, ToWire(t, v).items);
      var closed := msg.CloseContainer();
      assert closed;
    }
  }

  lemma {:induction false} StructNeedsMatch(s: string, fs: seq<Frame>, v: Value)
    requires Ready(fs) && s != "" && s[0] == '('
    requires Scan(s[1..], '(', ')', 1).None? || Scan(s[1..], '(', ')', 1).value < 2
    ensures First(s).None? && !Accepts(s, fs, v)
  {
    if First(s).Some? {
      StructBoundary(s);
    }
  }

  /** Opening the cut-out struct succeeds exactly when a struct starts here and is admitted. */
  lemma {:induction false} StructOpens(s: string, end: nat, fs: seq<Frame>, v: Value)
    requires Ready(fs) && s != "" && s[0] == '(' && Scan(s[1..], '(', ')', 1) == Some(end) && end >= 2
    ensures Open(fs, StructKind, s[1..end]).Some? <==> First(s).Some? && Admits(Top(fs), Show(First(s).value.0))
    ensures First(s).Some? ==>
      && First(s).value.1 == end + 1 && First(s).value.0.Struct?
      && s[1..end] == ShowAll(Fields(First(s).value.0)) && Show(First(s).value.0) == Piece(StructKind, s[1..end])
    ensures Accepts(s, fs, v) <==> Open(fs, StructKind, s[1..end]).Some? && Conforms(First(s).value.0, v)
    ensures Accepts(s, fs, v) ==>
      Appended(s, fs, v) == Emit(fs, Piece(StructKind, s[1..end]), ToWire(First(s).value.0, v))
  {
    hide First, Scan, Conforms, ToWire, All, Admits;
    var sig := s[1..end];
    if First(s).Some? {
      StructBoundary(s);
      SplitFirst(s);
      var t := First(s).value.0;
      AllExact(sig, Fields(t));
      assert Show(t) == s[..end + 1];
      ScanLast(s[1..], '(', ')', 1);
      assert s[..end + 1] == "(" + sig + ")";
    }
    if All(sig).Some? {
      StructFromContents(s, end);
    }
  }

  /** The loop of append_struct_type over the elements of the value. */
  method AppendFields(sig: string, msg: Message, ctx: ErrorContext, v: Value, ghost t: Type, ghost fs: seq<Frame>)
    returns (r: Outcome, ghost at: Blame)
    requires t.Struct? && v.Indexed? && |v.items| > 0 && sig == ShowAll(Fields(t)) && '\0' !in sig
    requires Ready(fs) && Ready(msg.frames) && msg.frames == Inside(fs, StructKind, sig, 0, []) && !msg.sealed
    requires ctx.Valid() && ctx.depth > 0 && ctx.sig0.Some? && ctx.len0 > 0
    modifies msg`frames, ctx
    ensures Ready(msg.frames) && ctx.Valid()
    ensures r.Ok? <==> Conforms(t, v)
    ensures r.Ok? ==> ToWire(t, v) == Node(StructKind, sig, ToWire(t, v).items)
    ensures r.Ok? ==> msg.frames == Inside(fs, StructKind, sig, |sig|, ToWire(t, v).items)
    ensures r.Ok? ==> ctx.depth == old(ctx.depth)
    ensures ctx.argc == old(ctx.argc) && ctx.sig0 == old(ctx.sig0) && ctx.len0 == old(ctx.len0)
    ensures Reports(r, t, v, at, ctx.argc, Recorded(ctx.sig0, ctx.len0), true)
    decreases v, 1
  {
    hide First, Show, Within, ShowAll, Inside, Emit, Conforms, ToWire, Label, SpanNextType, Accepts, Appended;
    at := Blame(Variant, v, None);
    var inner := new Parser(sig);
    var i := 0;
    ghost var ts := Fields(t);
    ghost var ws: seq<Wire> := [];
    assert ts[0..] == ts && sig[0..] == sig;
    while i < |v.items|
      invariant 0 <= i <= |v.items| && i <= |ts| && inner.cursor <= |sig| && sig[inner.cursor..] == ShowAll(ts[i..])
      invariant Ready(msg.frames) && msg.frames == Inside(fs, StructKind, sig, inner.cursor, ws)
      invariant FieldsDone(ts, v.items, ws, i)
      invariant ctx.Valid() && ctx.depth == old(ctx.depth)
      invariant ctx.argc == old(ctx.argc) && ctx.sig0 == old(ctx.sig0) && ctx.len0 == old(ctx.len0)
    {
      ShowAllFront(ts, i);
      if inner.At(inner.cursor) == '\0' {
        StructConforms(t, v);
        return Raised(BadCount), at;
      }
      FieldStep(ts, i, sig, inner.cursor, fs, ws, v.items[i]);
      r, at := AppendCompleteType(inner, msg, ctx, v.items[i]);
      if r.Raised? {
        if r.fault.TypeError? { WithinStruct(t, v, i, at.t, at.v); }
        StructConforms(t, v);
        return;
      }
      ws := ws + [ToWire(ts[i], v.items[i])];
      inner.Next();
      i := i + 1;
    }
    ShowAllFront(ts, i);
    StructConforms(t, v);
    if inner.At(inner.cursor) != '\0' {
      return Raised(BadCount), at;
    }
    assert ws == ToWire(t, v).items;
    r := Ok;
  }

  ghost predicate FieldsDone(ts: seq<Type>, items: seq<Value>, ws: seq<Wire>, i: nat) {
    && |ws| == i <= |ts| && i <= |items|
    && forall j :: 0 <= j < i ==> Conforms(ts[j], items[j]) && ws[j] == ToWire(ts[j], items[j])
  }

  lemma {:induction false} StructConforms(t: Type, v: Value)
    requires t.Struct? && v.Indexed?
    ensures Conforms(t, v) <==>
      |v.items| == |Fields(t)| && forall i :: 0 <= i < |v.items| ==> Conforms(Fields(t)[i], v.items[i])
    ensures Conforms(t, v) ==>
      && ToWire(t, v) == Node(StructKind, ShowAll(Fields(t)), ToWire(t, v).items) && |ToWire(t, v).items| == |v.items|
      && forall i :: 0 <= i < |v.items| ==> ToWire(t, v).items[i] == ToWire(Fields(t)[i], v.items[i])
  {
  }

  /** The next field is accepted exactly when the element conforms, and fills the struct further. */
  lemma {:induction false} FieldStep(ts: seq<Type>, i: nat, sig: string, cursor: nat, fs: seq<Frame>,
      ws: seq<Wire>, x: Value)
    requires i < |ts| && cursor <= |sig| && sig[cursor..] == ShowAll(ts[i..])
    requires Ready(fs) && Ready(Inside(fs, StructKind, sig, cursor, ws))
    ensures First(sig[cursor..]) == Some((ts[i], |Show(ts[i])|)) && cursor + |Show(ts[i])| <= |sig|
    ensures Accepts(sig[cursor..], Inside(fs, StructKind, sig, cursor, ws), x) <==> Conforms(ts[i], x)
    ensures Conforms(ts[i], x) ==>
      Appended(sig[cursor..], Inside(fs, StructKind, sig, cursor, ws), x)
      == Inside(fs, StructKind, sig, cursor + |Show(ts[i])|, ws + [ToWire(ts[i], x)])
    ensures sig[cursor + |Show(ts[i])|..] == ShowAll(ts[i + 1..])
  {
    hide First, Conforms, ToWire, Inside, Emit, Show, ShowAll;
    TopInside(fs, StructKind, sig, cursor, ws);
    ShowAllFront(ts, i);
    assert sig[cursor + |Show(ts[i])|..] == sig[cursor..][|Show(ts[i])|..];
    if Conforms(ts[i], x) {
      EmitInside(fs, StructKind, sig, cursor, ws, Show(ts[i]), ToWire(ts[i], x));
    }
  }

  /** The text of the remaining fields: empty only at the end, else headed by the next type. */
  lemma {:induction false} ShowAllFront(ts: seq<Type>, i: nat)
    requires i <= |ts|
    ensures ShowAll(ts[i..]) == "" <==> i == |ts|
    ensures i < |ts| ==>
      && First(ShowAll(ts[i..])) == Some((ts[i], |Show(ts[i])|))
      && Show(ts[i]) <= ShowAll(ts[i..])
      && ShowAll(ts[i..])[|Show(ts[i])|..] == ShowAll(ts[i + 1..])
  {
    if i < |ts| {
      assert ts[i..][1..] == ts[i + 1..];
      FirstOfShow(ts[i], ShowAll(ts[i + 1..]));
    }
  }

  lemma {:induction false} WithinStruct(t: Type, v: Value, i: nat, u: Type, x: Value)
    requires t.Struct? && v.Indexed? && i < |v.items| && i < |Fields(t)| && Within(Fields(t)[i], v.items[i], u, x)
    ensures Within(t, v, u, x)
  {
  }

  // ----- Arrays

  method AppendArrayType(p: Parser, msg: Message, ctx: ErrorContext, v: Value) returns (r: Outcome, ghost at: Blame)
    requires Can(p, msg, ctx) && p.text[p.cursor] == 'a' && Current(ctx, p.Tail())
    modifies p, msg`frames, ctx
    ensures p.cursor <= |p.text| && Ready(msg.frames) && ctx.Valid()
    ensures r.Ok? <==> Accepts(old(p.Tail()), old(msg.frames), v)
    ensures r.Ok? ==> p.cursor + 1 == old(p.cursor) + First(old(p.Tail())).value.1
    ensures r.Ok? ==> msg.frames == Appended(old(p.Tail()), old(msg.frames), v)
    ensures r.Ok? ==> ctx.depth == old(ctx.depth)
    ensures ctx.argc == old(ctx.argc) && ctx.sig0 == old(ctx.sig0) && ctx.len0 == old(ctx.len0)
    ensures Caught(r, old(p.Tail()), old(msg.frames), v, at)
    ensures r.Raised? && r.fault.TypeError? ==>
      && First(old(p.Tail())).Some?
      && Reports(r, First(old(p.Tail())).value.0, v, at, ctx.argc, Recorded(ctx.sig0, ctx.len0), old(ctx.depth) > 1)
    decreases v, 2
  {
    hide Reports, Recorded, First, Show, Within, FindSubtype, SpanNextType, Conforms;
    hide ToWire, Label, Single, Inside, Emit, Close, Accepts, Appended, Open;
    at := Blame(Variant, v, None);
    ghost var s, fs := p.Tail(), msg.frames;
    if p.At(p.cursor + 1) == '{' {
      p.Next();
      r, at := AppendDictType(p, msg, ctx, v);
      return;
    }
    if p.At(p.cursor + 1) == 'y' {
      r, at := AppendByteArray(p, msg, ctx, v);
      return;
    }
    var end := FindSubtype(p.Tail());
    if end.None? {
      LoneArray(s, fs, v);
      return Raised(BadSignature), at;
    }
    SubtypeNeedsText(s);
    var sig := Scratch(p.text, p.cursor + 1, end.value, end.value + 1);
    assert sig == s[1..end.value + 1];
    p.Skip(end.value);
    ArrayOpens(s, end.value, fs, v);
    var ok := msg.OpenContainer(ArrayKind, sig);
    if !ok {
      return Raised(BusError), at;
    }
    OpenInside(fs, ArrayKind, sig);
    ghost var t := First(s).value.0;
    if !v.Indexed? {
      at := Blame(t, v, None);
      r := RaiseHere(ctx, "indexed", s, v);
      return;
    }
    r, at := AppendElements(sig, msg, ctx, v, t, fs);
    ReportsAnyway(r, t, v, at, ctx.argc, Recorded(ctx.sig0, ctx.len0), old(ctx.depth) > 1);
    if r.Ok? {
      CloseInside(fs, ArrayKind, sig, 0, ToWire(t, v).items);
      var closed := msg.CloseContainer();
      assert closed;
    }
  }

  /** The byte-array branch of append_array_type. */
  method AppendByteArray(p: Parser, msg: Message, ctx: ErrorContext, v: Value) returns (r: Outcome, ghost at: Blame)
    requires Can(p, msg, ctx) && p.text[p.cursor] == 'a' && p.At(p.cursor + 1) == 'y' && Current(ctx, p.Tail())
    modifies p, msg`frames, ctx
    ensures p.cursor <= |p.text| && Ready(msg.frames) && ctx.Valid()
    ensures r.Ok? <==> Accepts(old(p.Tail()), old(msg.frames), v)
    ensures r.Ok? ==> p.cursor + 1 == old(p.cursor) + First(old(p.Tail())).value.1
    ensures r.Ok? ==> msg.frames == Appended(old(p.Tail()), old(msg.frames), v)
    ensures r.Ok? ==> ctx.depth == old(ctx.depth)
    ensures ctx.argc == old(ctx.argc) && ctx.sig0 == old(ctx.sig0) && ctx.len0 == old(ctx.len0)
    ensures Caught(r, old(p.Tail()), old(msg.frames), v, at)
    ensures r.Raised? && r.fault.TypeError? ==>
      && First(old(p.Tail())).Some?
      && Reports(r, First(old(p.Tail())).value.0, v, at, ctx.argc, Recorded(ctx.sig0, ctx.len0), old(ctx.depth) > 1)
  {
    hide First, Show, Within, SpanNextType, Conforms, ToWire, Label, Emit, Accepts, Appended;
    ghost var s, fs := p.Tail(), msg.frames;
    p.Next();
    BytesSpec(s, fs, v);
    at := Blame(Array(Basic('y')), v, None);
    if !v.Text? {
      r := RaiseHere(ctx, "bytes", s, v);
      return;
    }
    var ok := msg.AppendBytes(v.s);
    return if ok then Ok else Raised(BusError), at;
  }

  /** Bytes are one "ay" and need text. */
  lemma {:induction false} BytesSpec(s: string, fs: seq<Frame>, v: Value)
    requires |s| >= 2 && s[0] == 'a' && s[1] == 'y' && Ready(fs)
    ensures First(s) == Some((Array(Basic('y')), 2))
    ensures Accepts(s, fs, v) <==> v.Text? && Admits(Top(fs), "ay")
    ensures Accepts(s, fs, v) ==> Appended(s, fs, v) == Emit(fs, "ay", ByteArray(v.s))
  {
    assert Show(Array(Basic('y'))) == "ay";
    assert s == Show(Array(Basic('y'))) + s[2..];
    FirstOfShow(Array(Basic('y')), s[2..]);
  }

  lemma {:induction false} LoneArray(s: string, fs: seq<Frame>, v: Value)
    requires Ready(fs) && s != "" && s[0] == 'a' && FindSubtype(s).None?
    ensures First(s).None? && !Accepts(s, fs, v)
  {
    if First(s).Some? {
      SplitFirst(s);
      FindSubtypeOfShow(First(s).value.0, s[First(s).value.1..]);
    }
  }

  lemma {:induction false} SubtypeNeedsText(s: string)
    requires s != "" && s[0] == 'a' && FindSubtype(s).Some?
    ensures |s| > 1 && FindSubtype(s).value >= 1
  {
  }

  /** Opening the cut-out element type succeeds exactly when an array starts here and is admitted. */
  lemma {:induction false} ArrayOpens(s: string, end: nat, fs: seq<Frame>, v: Value)
    requires Ready(fs) && |s| > 1 && s[0] == 'a' && s[1] != '{' && s[1] != 'y' && FindSubtype(s) == Some(end)
    ensures Open(fs, ArrayKind, s[1..end + 1]).Some? <==> First(s).Some? && Admits(Top(fs), Show(First(s).value.0))
    ensures First(s).Some? ==>
      && First(s).value.1 == end + 1 && First(s).value.0.Array? && First(s).value.0.elem != Basic('y')
      && s[1..end + 1] == Show(First(s).value.0.elem) && Show(First(s).value.0) == Piece(ArrayKind, s[1..end + 1])
    ensures Accepts(s, fs, v) <==> Open(fs, ArrayKind, s[1..end + 1]).Some? && Conforms(First(s).value.0, v)
    ensures Accepts(s, fs, v) ==>
      Appended(s, fs, v) == Emit(fs, Piece(ArrayKind, s[1..end + 1]), ToWire(First(s).value.0, v))
  {
    hide First, FindSubtype, Conforms, ToWire, Entry;
    var sig := s[1..end + 1];
    ArrayFromContents(s, end);
    NoEntryHead(sig);
    if First(s).Some? {
      SingleIsFirst(sig);
      SplitFirst(s);
    }
  }

  lemma {:induction false} NoEntryHead(s: string)
    requires s == "" || s[0] != '{'
    ensures !IsEntry(s)
  {
  }

  /** The loop of append_array_type; the cursor is reset before every element. */
  method AppendElements(sig: string, msg: Message, ctx: ErrorContext, v: Value, ghost t: Type, ghost fs: seq<Frame>)
    returns (r: Outcome, ghost at: Blame)
    requires t.Array? && t.elem != Basic('y') && v.Indexed? && sig == Show(t.elem) && '\0' !in sig
    requires Ready(fs) && Ready(msg.frames) && msg.frames == Inside(fs, ArrayKind, sig, 0, []) && !msg.sealed
    requires ctx.Valid() && ctx.depth > 0 && ctx.sig0.Some? && ctx.len0 > 0
    modifies msg`frames, ctx
    ensures Ready(msg.frames) && ctx.Valid()
    ensures r.Ok? <==> Conforms(t, v)
    ensures r.Ok? ==> ToWire(t, v) == Node(ArrayKind, sig, ToWire(t, v).items)
    ensures r.Ok? ==> msg.frames == Inside(fs, ArrayKind, sig, 0, ToWire(t, v).items)
    ensures r.Ok? ==> ctx.depth == old(ctx.depth)
    ensures ctx.argc == old(ctx.argc) && ctx.sig0 == old(ctx.sig0) && ctx.len0 == old(ctx.len0)
    ensures Reports(r, t, v, at, ctx.argc, Recorded(ctx.sig0, ctx.len0), true)
    decreases v, 1
  {
    hide First, Show, Within, Inside, Emit, Conforms, ToWire, Label, SpanNextType, Accepts, Appended;
    at := Blame(Variant, v, None);
    var inner := new Parser(sig);
    var i := 0;
    ghost var ws: seq<Wire> := [];
    while i < |v.items|
      invariant 0 <= i <= |v.items| && inner.cursor == 0
      invariant Ready(msg.frames) && msg.frames == Inside(fs, ArrayKind, sig, 0, ws)
      invariant ElementsDone(t.elem, v.items, ws, i)
      invariant ctx.Valid() && ctx.depth == old(ctx.depth)
      invariant ctx.argc == old(ctx.argc) && ctx.sig0 == old(ctx.sig0) && ctx.len0 == old(ctx.len0)
    {
      ElementStep(t.elem, fs, ws, v.items[i]);
      assert inner.Tail() == sig;
      r, at := AppendCompleteType(inner, msg, ctx, v.items[i]);
      if r.Raised? {
        if r.fault.TypeError? { WithinArray(t, v, i, at.t, at.v); }
        ArrayConforms(t, v);
        return;
      }
      ws := ws + [ToWire(t.elem, v.items[i])];
      inner.cursor := 0;
      i := i + 1;
    }
    ArrayConforms(t, v);
    assert ws == ToWire(t, v).items;
    r := Ok;
  }

  ghost predicate ElementsDone(e: Type, items: seq<Value>, ws: seq<Wire>, i: nat) {
    && |ws| == i <= |items|
    && forall j :: 0 <= j < i ==> Conforms(e, items[j]) && ws[j] == ToWire(e, items[j])
  }

  lemma {:induction false} ArrayConforms(t: Type, v: Value)
    requires t.Array? && t.elem != Basic('y') && v.Indexed?
    ensures Conforms(t, v) <==> forall i :: 0 <= i < |v.items| ==> Conforms(t.elem, v.items[i])
    ensures Conforms(t, v) ==>
      && ToWire(t, v) == Node(ArrayKind, Show(t.elem), ToWire(t, v).items) && |ToWire(t, v).items| == |v.items|
      && forall i :: 0 <= i < |v.items| ==> ToWire(t, v).items[i] == ToWire(t.elem, v.items[i])
  {
  }

  /** The next element is accepted exactly when it conforms, and leaves the array ready for another. */
  lemma {:induction false} ElementStep(e: Type, fs: seq<Frame>, ws: seq<Wire>, x: Value)
    requires Ready(fs) && Ready(Inside(fs, ArrayKind, Show(e), 0, ws))
    ensures First(Show(e)) == Some((e, |Show(e)|))
    ensures Accepts(Show(e), Inside(fs, ArrayKind, Show(e), 0, ws), x) <==> Conforms(e, x)
    ensures Conforms(e, x) ==>
      Appended(Show(e), Inside(fs, ArrayKind, Show(e), 0, ws), x)
      == Inside(fs, ArrayKind, Show(e), 0, ws + [ToWire(e, x)])
  {
    hide First, Conforms, ToWire;
    FirstOfShow(e, "");
    assert Show(e) + "" == Show(e) && Show(e)[0..] == Show(e);
    if Conforms(e, x) {
      EmitInside(fs, ArrayKind, Show(e), 0, ws, Show(e), ToWire(e, x));
    }
  }

  lemma {:induction false} WithinArray(t: Type, v: Value, i: nat, u: Type, x: Value)
    requires t.Array? && v.Indexed? && i < |v.items| && Within(t.elem, v.items[i], u, x)
    ensures Within(t, v, u, x)
  {
  }

  // ----- Dictionaries

  /** Called with the cursor on the brace, one past the 'a'. */
  method AppendDictType(p: Parser, msg: Message, ctx: ErrorContext, v: Value) returns (r: Outcome, ghost at: Blame)
    requires p.cursor > 0 && Can(p, msg, ctx) && p.text[p.cursor] == '{' && p.text[p.cursor - 1] == 'a'
    requires Current(ctx, p.text[p.cursor - 1..])
    modifies p, msg`frames, ctx
    ensures p.cursor <= |p.text| && Ready(msg.frames) && ctx.Valid()
    ensures r.Ok? <==> Accepts(p.text[old(p.cursor) - 1..], old(msg.frames), v)
    ensures r.Ok? ==> p.cursor + 2 == old(p.cursor) + First(p.text[old(p.cursor) - 1..]).value.1
    ensures r.Ok? ==> msg.frames == Appended(p.text[old(p.cursor) - 1..], old(msg.frames), v)
    ensures r.Ok? ==> ctx.depth == old(ctx.depth)
    ensures ctx.argc == old(ctx.argc) && ctx.sig0 == old(ctx.sig0) && ctx.len0 == old(ctx.len0)
    ensures Caught(r, p.text[old(p.cursor) - 1..], old(msg.frames), v, at)
    ensures r.Raised? && r.fault.TypeError? ==>
      && First(p.text[old(p.cursor) - 1..]).Some?
      && Reports(r, First(p.text[old(p.cursor) - 1..]).value.0, v, at, ctx.argc,
                 Recorded(ctx.sig0, ctx.len0), old(ctx.depth) > 1)
    decreases v, 1
  {
    hide Reports, Recorded, First, Show, Within, SpanNextType, Conforms, ToWire;
    hide Label, Inside, Emit, Close, Accepts, Appended, Open, Scan, Entry;
    at := Blame(Variant, v, None);
    ghost var s, fs := p.text[p.cursor - 1..], msg.frames;
    var end := Match(p.text, p.cursor, '{', '}');
    assert p.text[p.cursor + 1..] == s[2..];
    if end.None? {
      DictNeedsMatch(s, fs, v);
      return Raised(BadSignature), at;
    }
    if end.value < 3 {
      DictNeedsMatch(s, fs, v);
      return Raised(BadSignature), at;
    }
    var braced, bare := EntryScratch(p.text, p.cursor, end.value);
    assert braced == s[1..end.value + 2] && bare == s[2..end.value + 1];
    p.Skip(end.value);
    DictOpens(s, end.value, fs, v);
    if !IsBasicType(braced[1]) {
      return Raised(BadSignature), at;
    }
    var ok := msg.OpenContainer(ArrayKind, braced);
    if !ok {
      return Raised(BusError), at;
    }
    OpenInside(fs, ArrayKind, braced);
    ghost var t := First(s).value.0;
    if !v.Dictionary? {
      at := Blame(t, v, None);
      r := RaiseHere(ctx, "dictionary", s, v);
      return;
    }
    r, at := AppendSlots(braced, bare, msg, ctx, v, t, fs);
    ReportsAnyway(r, t, v, at, ctx.argc, Recorded(ctx.sig0, ctx.len0), old(ctx.depth) > 1);
    if r.Ok? {
      CloseInside(fs, ArrayKind, braced, 0, ToWire(t, v).items);
      var closed := msg.CloseContainer();
      assert closed;
    }
  }

  lemma {:induction false} DictNeedsMatch(s: string, fs: seq<Frame>, v: Value)
    requires Ready(fs) && |s| >= 2 && s[0] == 'a' && s[1] == '{'
    requires Scan(s[2..], '{', '}', 1).None? || Scan(s[2..], '{', '}', 1).value < 3
    ensures First(s).None? && !Accepts(s, fs, v)
  {
    assert s[1..][1..] == s[2..];
    if First(s).Some? {
      EntryBoundary(s[1..]);
    }
  }

  lemma {:induction false} FirstOfDict(s: string)
    requires |s| >= 2 && s[0] == 'a' && s[1] == '{'
    ensures First(s).Some? <==> Entry(s[1..]).Some?
    ensures First(s).Some? ==>
      First(s).value == (Dict(Entry(s[1..]).value.0, Entry(s[1..]).value.1), Entry(s[1..]).value.2 + 1)
  {
  }

  lemma {:induction false} EntryHead(s: string)
    requires Entry(s).Some?
    ensures |s| > 1 && IsCode(s[1])
  {
  }

  lemma {:induction false} NoSingleBrace(s: string)
    requires s != "" && s[0] == '{'
    ensures Single(s).None?
  {
  }

  /** Opening the cut-out entry succeeds exactly when a dictionary starts here and is admitted. */
  lemma {:induction false} DictOpens(s: string, end: nat, fs: seq<Frame>, v: Value)
    requires Ready(fs) && |s| >= 2 && s[0] == 'a' && s[1] == '{' && end >= 3 && Scan(s[2..], '{', '}', 1) == Some(end)
    ensures end + 2 <= |s|
    ensures Open(fs, ArrayKind, s[1..end + 2]).Some? <==> First(s).Some? && Admits(Top(fs), Show(First(s).value.0))
    ensures First(s).Some? ==>
      && First(s).value.1 == end + 2 && First(s).value.0.Dict? && IsCode(s[2])
      && s[1..end + 2] == ShowEntry(First(s).value.0.key, First(s).value.0.value)
      && s[2..end + 1] == [First(s).value.0.key] + Show(First(s).value.0.value)
      && Show(First(s).value.0) == Piece(ArrayKind, s[1..end + 2])
    ensures Accepts(s, fs, v) <==> Open(fs, ArrayKind, s[1..end + 2]).Some? && Conforms(First(s).value.0, v)
    ensures Accepts(s, fs, v) ==>
      Appended(s, fs, v) == Emit(fs, Piece(ArrayKind, s[1..end + 2]), ToWire(First(s).value.0, v))
  {
    hide First, Scan, Conforms, ToWire, Entry, Single, Admits;
    var e := s[1..];
    assert e[1..] == s[2..] && e[..end + 1] == s[1..end + 2];
    EntryFromContents(e, end);
    FirstOfDict(s);
    NoSingleBrace(e[..end + 1]);
    if Entry(e).Some? {
      EntryBoundary(e);
      EntryHead(e);
      var (k, t, _) := Entry(e).value;
      assert s[2..end + 1] == ShowEntry(k, t)[1..end];
    }
  }

  /** The loop of append_dict_type over the occupied slots, in slot order. */
  method AppendSlots(braced: string, bare: string, msg: Message, ctx: ErrorContext, v: Value,
                     ghost t: Type, ghost fs: seq<Frame>)
    returns (r: Outcome, ghost at: Blame)
    requires t.Dict? && v.Dictionary?
    requires braced == ShowEntry(t.key, t.value) && bare == [t.key] + Show(t.value) && '\0' !in bare
    requires Ready(fs) && Ready(msg.frames) && msg.frames == Inside(fs, ArrayKind, braced, 0, []) && !msg.sealed
    requires ctx.Valid() && ctx.depth > 0 && ctx.sig0.Some? && ctx.len0 > 0
    modifies msg`frames, ctx
    ensures Ready(msg.frames) && ctx.Valid()
    ensures r.Ok? <==> Conforms(t, v)
    ensures r.Ok? ==> ToWire(t, v) == Node(ArrayKind, braced, ToWire(t, v).items)
    ensures r.Ok? ==> msg.frames == Inside(fs, ArrayKind, braced, 0, ToWire(t, v).items)
    ensures r.Ok? ==> ctx.depth == old(ctx.depth)
    ensures ctx.argc == old(ctx.argc) && ctx.sig0 == old(ctx.sig0) && ctx.len0 == old(ctx.len0)
    ensures Reports(r, t, v, at, ctx.argc, Recorded(ctx.sig0, ctx.len0), true)
    decreases v, 0
  {
    hide First, Show, ShowEntry, Within, Inside, Emit, Conforms, ToWire, Label, SpanNextType, EntryWire, ToDatum;
    at := Blame(Variant, v, None);
    var i := 0;
    ghost var ws: seq<Wire> := [];
    while i < |v.slots|
      invariant 0 <= i <= |v.slots|
      invariant Ready(msg.frames) && msg.frames == Inside(fs, ArrayKind, braced, 0, ws)
      invariant SlotsDone(t, v.slots, ws, i)
      invariant ctx.Valid() && ctx.depth == old(ctx.depth)
      invariant ctx.argc == old(ctx.argc) && ctx.sig0 == old(ctx.sig0) && ctx.len0 == old(ctx.len0)
    {
      r, at := AppendSlot(braced, bare, msg, ctx, v, i, t, fs, ws);
      if r.Raised? {
        DictConforms(t, v);
        return;
      }
      ws := ws + [EntryWire(t.key, t.value, v.slots[i])];
      i := i + 1;
    }
    DictConforms(t, v);
    assert ws == ToWire(t, v).items;
    r := Ok;
  }

  ghost predicate SlotConforms(t: Type, p: Pair)
    requires t.Dict?
  {
    ToDatum(t.key, p.key).Some? && Conforms(t.value, p.value)
  }

  ghost predicate SlotsDone(t: Type, slots: seq<Pair>, ws: seq<Wire>, i: nat)
    requires t.Dict?
  {
    && |ws| == i <= |slots|
    && forall j :: 0 <= j < i ==> SlotConforms(t, slots[j]) && ws[j] == EntryWire(t.key, t.value, slots[j])
  }

  lemma {:induction false} DictConforms(t: Type, v: Value)
    requires t.Dict? && v.Dictionary?
    ensures Conforms(t, v) <==> forall i :: 0 <= i < |v.slots| ==> SlotConforms(t, v.slots[i])
    ensures Conforms(t, v) ==>
      && ToWire(t, v) == Node(ArrayKind, ShowEntry(t.key, t.value), ToWire(t, v).items)
      && |ToWire(t, v).items| == |v.slots|
      && forall i :: 0 <= i < |v.slots| ==> ToWire(t, v).items[i] == EntryWire(t.key, t.value, v.slots[i])
  {
  }

  /** One dictionary entry: open, key, value, close. */
  method AppendSlot(braced: string, bare: string, msg: Message, ctx: ErrorContext, v: Value, i: nat,
                    ghost t: Type, ghost fs: seq<Frame>, ghost ws: seq<Wire>)
    returns (r: Outcome, ghost at: Blame)
    requires t.Dict? && v.Dictionary? && i < |v.slots|
    requires braced == ShowEntry(t.key, t.value) && bare == [t.key] + Show(t.value) && '\0' !in bare
    requires Ready(fs) && Ready(msg.frames) && msg.frames == Inside(fs, ArrayKind, braced, 0, ws) && !msg.sealed
    requires ctx.Valid() && ctx.depth > 0 && ctx.sig0.Some? && ctx.len0 > 0
    modifies msg`frames, ctx
    ensures Ready(msg.frames) && ctx.Valid()
    ensures r.Ok? <==> SlotConforms(t, v.slots[i])
    ensures r.Ok? ==> msg.frames == Inside(fs, ArrayKind, braced, 0, ws + [EntryWire(t.key, t.value, v.slots[i])])
    ensures r.Ok? ==> ctx.depth == old(ctx.depth)
    ensures ctx.argc == old(ctx.argc) && ctx.sig0 == old(ctx.sig0) && ctx.len0 == old(ctx.len0)
    ensures Reports(r, t, v, at, ctx.argc, Recorded(ctx.sig0, ctx.len0), true)
    decreases v.slots[i], 0
  {
    hide First, Show, ShowEntry, Within, Inside, Emit, Conforms, ToWire;
    hide Label, SpanNextType, Accepts, Appended, ToDatum, Open, Close, Admits, BasicOk;
    at := Blame(t, v, Some(i));
    WithinSelf(t, v);
    ghost var k, e, pair := t.key, t.value, v.slots[i];
    ghost var fs0 := msg.frames;
    SlotSteps(t, fs, ws, pair);
    var ok := msg.OpenContainer(EntryKind, bare);
    assert ok;
    var inner := new Parser(bare);
    r := AppendBasicType(inner, msg, ctx, v.slots[i].key);
    if r.Raised? {
      return;
    }
    inner.Next();
    assert inner.Tail() == Show(e);
    r, at := AppendCompleteType(inner, msg, ctx, v.slots[i].value);
    if r.Raised? {
      if r.fault.TypeError? { WithinDict(t, v, i, at.t, at.v); }
      return;
    }
    ok := msg.CloseContainer();
    assert ok;
  }

  /** The four sd-bus calls of one entry succeed as they should and add up to one array item. */
  lemma {:induction false} SlotSteps(t: Type, fs: seq<Frame>, ws: seq<Wire>, p: Pair)
    requires t.Dict? && Ready(fs) && Ready(Inside(fs, ArrayKind, ShowEntry(t.key, t.value), 0, ws))
    ensures var bare, f0 := [t.key] + Show(t.value), Inside(fs, ArrayKind, ShowEntry(t.key, t.value), 0, ws);
      var f1 := Inside(f0, EntryKind, bare, 0, []);
      && Open(f0, EntryKind, bare) == Some(f1) && Ready(f1) && Admits(Top(f1), [t.key])
      && (ToDatum(t.key, p.key).Some? ==>
            var f2 := Emit(f1, [t.key], Leaf(t.key, ToDatum(t.key, p.key).value));
            && Ready(f2) && First(Show(t.value)) == Some((t.value, |Show(t.value)|))
            && (Accepts(Show(t.value), f2, p.value) <==> Conforms(t.value, p.value))
            && (Conforms(t.value, p.value) ==>
                  Close(Appended(Show(t.value), f2, p.value)) ==
                  Some(Inside(fs, ArrayKind, ShowEntry(t.key, t.value), 0, ws + [EntryWire(t.key, t.value, p)]))))
  {
    hide First, Show, Conforms, ToWire, ToDatum, Inside, Entry;
    var k, e := t.key, t.value;
    var bare, braced := [k] + Show(e), ShowEntry(k, e);
    var f0 := Inside(fs, ArrayKind, braced, 0, ws);
    var f1 := Inside(f0, EntryKind, bare, 0, []);
    EntryOpens(k, e, fs, ws);
    if ToDatum(k, p.key).Some? {
      var leaf := Leaf(k, ToDatum(k, p.key).value);
      var f2 := Emit(f1, [k], leaf);
      EmitInside(f0, EntryKind, bare, 0, [], [k], leaf);
      assert [] + [leaf] == [leaf];
      EntryValueStep(k, e, f0, leaf, p.value);
      if Conforms(e, p.value) {
        var w := ToWire(e, p.value);
        CloseInside(f0, EntryKind, bare, |bare|, [leaf, w]);
        EmitInside(fs, ArrayKind, braced, 0, ws, braced, EntryWire(k, e, p));
      }
    }
  }

  lemma {:induction false} EntryOpens(k: Code, e: Type, fs: seq<Frame>, ws: seq<Wire>)
    requires Ready(fs) && Ready(Inside(fs, ArrayKind, ShowEntry(k, e), 0, ws))
    ensures var bare, f0 := [k] + Show(e), Inside(fs, ArrayKind, ShowEntry(k, e), 0, ws);
      var f1 := Inside(f0, EntryKind, bare, 0, []);
      Open(f0, EntryKind, bare) == Some(f1) && Ready(f1) && Admits(Top(f1), [k])
  {
    hide Entry, Show;
    var bare, f0 := [k] + Show(e), Inside(fs, ArrayKind, ShowEntry(k, e), 0, ws);
    EntryOfShow(k, e, "");
    assert ShowEntry(k, e) + "" == ShowEntry(k, e) == "{" + bare + "}";
    OpenInside(f0, EntryKind, bare);
  }

  lemma {:induction false} EntryValueStep(k: Code, e: Type, f0: seq<Frame>, leaf: Wire, x: Value)
    requires Ready(f0) && Ready(Inside(f0, EntryKind, [k] + Show(e), 0, []))
    ensures var f2 := Inside(f0, EntryKind, [k] + Show(e), 1, [leaf]);
      && Ready(f2) && First(Show(e)) == Some((e, |Show(e)|))
      && (Accepts(Show(e), f2, x) <==> Conforms(e, x))
      && (Conforms(e, x) ==>
            Appended(Show(e), f2, x) == Inside(f0, EntryKind, [k] + Show(e), 1 + |Show(e)|, [leaf, ToWire(e, x)]))
  {
    hide First, Conforms, ToWire;
    FirstOfShow(e, "");
    assert Show(e) + "" == Show(e) && ([k] + Show(e))[1..] == Show(e);
    InsideReady(f0, EntryKind, [k] + Show(e), 0, [], 1, [leaf]);
    if Conforms(e, x) {
      EmitInside(f0, EntryKind, [k] + Show(e), 1, [leaf], Show(e), ToWire(e, x));
      assert [leaf] + [ToWire(e, x)] == [leaf, ToWire(e, x)];
    }
  }

  lemma {:induction false} WithinDict(t: Type, v: Value, i: nat, u: Type, x: Value)
    requires t.Dict? && v.Dictionary? && i < |v.slots| && Within(t.value, v.slots[i].value, u, x)
    ensures Within(t, v, u, x)
  {
  }

  // ----- Argument lists

  /** append_data: each argument takes the next complete type, and none of either may be left.
      A type error names the first argument at fault, counted from one, by its own type. */
  method AppendData(msg: Message, ctx: ErrorContext, signature: string, args: seq<Value>)
    returns (r: Outcome, ghost ts: seq<Type>, ghost at: Blame)
    requires '\0' !in signature && Ready(msg.frames) && !msg.sealed
    modifies msg`frames, ctx
    ensures Ready(msg.frames) && ctx.Valid()
    ensures r.Ok? <==> AcceptsAll(signature, old(msg.frames), args)
    ensures r.Ok? ==>
      msg.frames == AppendedAll(signature, old(msg.frames), args) && ctx.depth == 0 && ctx.argc == |args|
    ensures r.Raised? && r.fault.TypeError? ==>
      && 0 < |ts| <= |args| && r.fault.argc == |ts|
      && ShowAll(ts) <= signature
      && (forall j :: 0 <= j < |ts| - 1 ==> Conforms(ts[j], args[j]))
      && Culprit(ts[|ts| - 1], args[|ts| - 1], at)
      && r.fault.outer == Some(Label(ts[|ts| - 1]))
      && (at.slot == None ==>
            || r.fault.inner == Some(Label(at.t))
            || (r.fault.inner == None && at.t == ts[|ts| - 1] && at.v == args[|ts| - 1]))
  {
    hide First, Show, ShowAll, Within, Conforms, ToWire, Label, SpanNextType, Accepts, Appended, Emit;
    at := Blame(Variant, Nil, None);
    ts := [];
    ctx.Reset();
    var p := new Parser(signature);
    var i := 0;
    ShowAllNil();
    while i < |args|
      invariant 0 <= i <= |args| && p.cursor <= |signature| && |ts| == i
      invariant signature[..p.cursor] == ShowAll(ts)
      invariant Ready(msg.frames)
      invariant AcceptsAll(signature, old(msg.frames), args) == AcceptsAll(p.Tail(), msg.frames, args[i..])
      invariant AcceptsAll(p.Tail(), msg.frames, args[i..]) ==>
        AppendedAll(signature, old(msg.frames), args) == AppendedAll(p.Tail(), msg.frames, args[i..])
      invariant ctx.Valid() && ctx.depth == 0 && ctx.argc == i
      invariant forall j :: 0 <= j < i ==> Conforms(ts[j], args[j])
    {
      ghost var s, fs := p.Tail(), msg.frames;
      AcceptsAllStep(s, fs, args[i..]);
      if p.At(p.cursor) == '\0' {
        return Raised(BadCount), ts, at;
      }
      ctx.Inc();
      r, at := AppendCompleteType(p, msg, ctx, args[i]);
      if First(s).Some? {
        LabelOfText(s);
        ts := ts + [First(s).value.0];
        ShowAllPrefix(signature, |signature| - |s|, ts);
      }
      if r.Raised? {
        return;
      }
      AcceptedConforms(s, fs, args[i]);
      p.Next();
      assert args[i..][1..] == args[i + 1..];
      assert s[First(s).value.1..] == p.Tail();
      i := i + 1;
    }
    if p.At(p.cursor) != '\0' {
      return Raised(BadCount), ts, at;
    }
    r := Ok;
  }

  lemma {:induction false} ShowAllNil()
    ensures ShowAll([]) == ""
  {
  }

  lemma {:induction false} AcceptedConforms(s: string, fs: seq<Frame>, v: Value)
    requires Ready(fs) && Accepts(s, fs, v)
    ensures First(s).Some? && Conforms(First(s).value.0, v)
  {
  }

  lemma {:induction false} AcceptsAllStep(s: string, fs: seq<Frame>, vs: seq<Value>)
    requires Ready(fs) && vs != []
    ensures AcceptsAll(s, fs, vs) ==> Accepts(s, fs, vs[0]) && s != ""
    ensures Accepts(s, fs, vs[0]) ==>
      && First(s).Some? && Ready(Appended(s, fs, vs[0]))
      && AcceptsAll(s, fs, vs) == AcceptsAll(s[First(s).value.1..], Appended(s, fs, vs[0]), vs[1..])
      && (AcceptsAll(s, fs, vs) ==>
            AppendedAll(s, fs, vs) == AppendedAll(s[First(s).value.1..], Appended(s, fs, vs[0]), vs[1..]))
  {
  }

  /** The types read so far print as the part of the signature before the cursor. */
  lemma {:induction false} ShowAllPrefix(s: string, cursor: nat, ts: seq<Type>)
    requires cursor <= |s| && ts != [] && s[..cursor] == ShowAll(ts[..|ts| - 1])
    requires First(s[cursor..]).Some? && First(s[cursor..]).value.0 == ts[|ts| - 1]
    ensures s[..cursor + First(s[cursor..]).value.1] == ShowAll(ts) <= s
  {
    hide First;
    var n := First(s[cursor..]).value.1;
    FirstSound(s[cursor..]);
    ShowAllAppend(ts[..|ts| - 1], ts[|ts| - 1]);
    assert ts[..|ts| - 1] + [ts[|ts| - 1]] == ts;
    assert s[..cursor + n] == s[..cursor] + s[cursor..][..n];
  }

  lemma {:induction false} ShowAllAppend(ts: seq<Type>, t: Type)
    ensures ShowAll(ts + [t]) == ShowAll(ts) + Show(t)
  {
    if ts == [] {
      assert ts + [t] == [t] && [t][1..] == [];
    } else {
      assert (ts + [t])[1..] == ts[1..] + [t];
      ShowAllAppend(ts[1..], t);
    }
  }

  // ----- Acceptance is exact

  /** No container is open, and the recorded signature is all written. */
  ghost predicate AtRoot(fs: seq<Frame>) {
    |fs| == 1 && fs[0].kind == Root && fs[0].index == |fs[0].sig|
  }

  ghost predicate ConformAll(ts: seq<Type>, vs: seq<Value>) {
    |ts| == |vs| && forall i :: 0 <= i < |vs| ==> Conforms(ts[i], vs[i])
  }

  ghost function ToWires(ts: seq<Type>, vs: seq<Value>): seq<Wire>
    requires ConformAll(ts, vs)
  {
    seq(|vs|, i requires 0 <= i < |vs| => ToWire(ts[i], vs[i]))
  }

  /** Outside any container, an argument list is accepted exactly when the signature splits into
      as many complete types as there are arguments, each conforming to its own. */
  lemma {:induction false} AcceptanceExact(s: string, fs: seq<Frame>, vs: seq<Value>)
    requires AtRoot(fs)
    ensures AcceptsAll(s, fs, vs) <==> All(s).Some? && ConformAll(All(s).value, vs)
    decreases |vs|
  {
    hide First, Show, Conforms, ToWire;
    if vs == [] {
      AllExact(s, []);
      ShowAllNil();
      if s != "" && All(s).Some? { AllExact(s, All(s).value); }
    } else {
      AllStep(s);
      AcceptsAllStep(s, fs, vs);
      if Accepts(s, fs, vs[0]) {
        AcceptanceExact(s[First(s).value.1..], Appended(s, fs, vs[0]), vs[1..]);
        if All(s).Some? { ConformAllStep(All(s).value, vs); }
      }
    }
  }

  lemma {:induction false} AllStep(s: string)
    ensures First(s).None? ==> (All(s).Some? <==> s == "") && (All(s).Some? ==> All(s).value == [])
    ensures First(s).Some? ==>
      && s != ""
      && (All(s).Some? <==> All(s[First(s).value.1..]).Some?)
      && (All(s).Some? ==> All(s).value == [First(s).value.0] + All(s[First(s).value.1..]).value)
  {
  }

  lemma {:induction false} ConformAllStep(ts: seq<Type>, vs: seq<Value>)
    requires vs != [] && ts != []
    ensures ConformAll(ts, vs) <==> Conforms(ts[0], vs[0]) && ConformAll(ts[1..], vs[1..])
  {
  }
}
