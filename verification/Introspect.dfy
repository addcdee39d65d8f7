/** The grammar of introspect.janet: every rule is an instance of one tag builder, so the parser
    is one recursive function over the rule table. A PEG result is the rest of the input. */
module Introspect {
  import opened Options

  datatype Tag = NodeTag | InterfaceTag | MethodTag | SignalTag | PropertyTag | ArgTag | AnnotationTag

  function Name(t: Tag): string {
    match t
    case NodeTag => "node"
    case InterfaceTag => "interface"
    case MethodTag => "method"
    case SignalTag => "signal"
    case PropertyTag => "property"
    case ArgTag => "arg"
    case AnnotationTag => "annotation"
  }

  /** The alternatives for child elements, in the order they are tried. */
  function Children(t: Tag): seq<Tag> {
    match t
    case NodeTag => [NodeTag, InterfaceTag]
    case InterfaceTag => [MethodTag, SignalTag, PropertyTag, AnnotationTag]
    case MethodTag => [ArgTag, AnnotationTag]
    case SignalTag => [ArgTag, AnnotationTag]
    case PropertyTag => [AnnotationTag]
    case ArgTag => []
    case AnnotationTag => []
  }

  function Keys(t: Tag): seq<string> {
    match t
    case NodeTag => ["name"]
    case InterfaceTag => ["name"]
    case MethodTag => ["name"]
    case SignalTag => ["name"]
    case PropertyTag => ["name", "type", "access"]
    case ArgTag => ["name", "type", "direction"]
    case AnnotationTag => ["name", "value"]
  }

  // ----- Parsed data

  /** Janet data built by the *-struct functions; keywords and symbols are strings. */
  datatype Data = Str(s: string) | Struct(m: map<string, Data>) | List(xs: seq<Data>)

  datatype Attr = Attr(key: string, value: string)

  /** An error raised while building a struct ends the whole parse. */
  datatype Built = Ok(d: Data) | Raise

  datatype Parsed<+T> = Fail | Error | Got(v: T, rest: string)

  function AttrMap(attrs: seq<Attr>): map<string, string> {
    if attrs == [] then map[] else AttrMap(attrs[..|attrs| - 1])[attrs[|attrs| - 1].key := attrs[|attrs| - 1].value]
  }

  // ----- The struct builders

  function Get(d: Data, key: string): Option<Data> {
    if d.Struct? && key in d.m then Some(d.m[key]) else None
  }

  /** The tests the builders filter and group children by. */
  datatype Test = DirectionIs(dir: string) | NoDirection | WithType | Member | NoMember | WithPath | NoPath

  predicate Passes(test: Test, d: Data) {
    match test
    case DirectionIs(dir) => Get(d, "direction") == Some(Str(dir))
    case NoDirection => Get(d, "direction").None?
    case WithType => Get(d, "type").Some?
    case Member => HoldsStruct(d)
    case NoMember => !HoldsStruct(d)
    case WithPath => Get(d, "path").Some?
    case NoPath => Get(d, "path").None?
  }

  function Filter(xs: seq<Data>, test: Test): seq<Data> {
    if xs == [] then []
    else (if Passes(test, xs[0]) then [xs[0]] else []) + Filter(xs[1..], test)
  }

  /** merge: later structs win. */
  function Merge(xs: seq<Data>): map<string, Data> {
    if xs == [] then map[]
    else (if xs[0].Struct? then xs[0].m else map[]) + Merge(xs[1..])
  }

  function Or(attrs: map<string, string>, key: string): Data {
    Str(if key in attrs then attrs[key] else "")
  }

  /** member?: a value of the struct is itself a dictionary. The code looks at whichever value comes
      first; all values of a built child agree in this (Summaries, AnyValueDecides). */
  predicate HoldsStruct(d: Data) {
    d.Struct? && exists k :: k in d.m && d.m[k].Struct?
  }

  /** group-by: the members of one group, absent when there are none. */
  function Group(key: string, xs: seq<Data>): map<string, Data> {
    if xs == [] then map[] else map[key := List(xs)]
  }

  function ToStruct(tag: Tag, attrs: map<string, string>, kids: seq<Data>): Built {
    match tag
    case AnnotationTag =>
      if "name" in attrs && "value" in attrs
      then Ok(Struct(map["name" := Str(attrs["name"]), "value" := Str(attrs["value"])])) else Raise
    case ArgTag =>
      if "type" in attrs
      then Ok(Struct(map["name" := Or(attrs, "name"), "type" := Str(attrs["type"]),
                         "direction" := Or(attrs, "direction"), "annotations" := List(kids)])) else Raise
    case MethodTag =>
      if "name" in attrs
      then Ok(Struct(map[attrs["name"] := Struct(map[
        "kind" := Str("method"),
        "in" := List(Filter(kids, DirectionIs("in"))),
        "out" := List(Filter(kids, DirectionIs("out"))),
        "annotations" := List(Filter(kids, NoDirection))])])) else Raise
    case SignalTag =>
      if "name" in attrs
      then Ok(Struct(map[attrs["name"] := Struct(map[
        "kind" := Str("signal"),
        "args" := List(Filter(kids, WithType)),
        "annotations" := List(Filter(kids, NoDirection))])])) else Raise
    case PropertyTag =>
      if "name" in attrs && "type" in attrs && "access" in attrs
      then Ok(Struct(map[attrs["name"] := Struct(map[
        "kind" := Str("property"), "type" := Str(attrs["type"]), "access" := Str(attrs["access"]),
        "annotations" := List(kids)])])) else Raise
    case InterfaceTag =>
      if "name" in attrs
      then Ok(Struct(map[attrs["name"] := Struct(
        map["members" := Struct(Merge(Filter(kids, Member)))]
        + Group("annotations", Filter(kids, NoMember)))])) else Raise
    case NodeTag =>
      Ok(Struct(
        map["path" := Or(attrs, "name"), "interfaces" := Struct(Merge(Filter(kids, NoPath)))]
        + Group("children", Filter(kids, WithPath))))
  }

  // ----- Lexical rules

  predicate IsSpace(c: char) {
    c == ' ' || c == '\t' || c == '\r' || c == '\n' || c == '\0' || c as int == 12 || c as int == 11
  }

  predicate Blank(s: string) {
    forall i :: 0 <= i < |s| ==> IsSpace(s[i])
  }

  /** :s* */
  function SkipSpace(s: string): (r: string)
    ensures |r| <= |s|
  {
    if s != "" && IsSpace(s[0]) then SkipSpace(s[1..]) else s
  }

  function Literal(lit: string, s: string): Option<string> {
    if lit <= s then Some(s[|lit|..]) else None
  }

  /** Everything up to the next quote or the end. */
  function Unquoted(s: string): (n: nat)
    ensures n <= |s|
  {
    if s == "" || s[0] == '"' then 0 else 1 + Unquoted(s[1..])
  }

  /** An ordered choice of keys commits to the first that matches. */
  function FirstKey(keys: seq<string>, s: string): Option<string> {
    if keys == [] then None
    else if keys[0] <= s then Some(keys[0])
    else FirstKey(keys[1..], s)
  }

  function Attribute(keys: seq<string>, s: string): (r: Option<(Attr, string)>)
    ensures r.Some? ==> |r.value.1| < |s|
  {
    match FirstKey(keys, s)
    case None => None
    case Some(key) =>
      if key <= s && key + "=\"" <= s then
        var body := s[|key| + 2..];
        var n := Unquoted(body);
        if n < |body| then Some((Attr(key, body[..n]), body[n + 1..])) else None
      else None
  }

  /** (any (* :s+ :attribute)) */
  function Attributes(keys: seq<string>, s: string): (r: (seq<Attr>, string))
    ensures |r.1| <= |s|
    decreases |s|
  {
    if s == "" || !IsSpace(s[0]) then ([], s)
    else
      match Attribute(keys, SkipSpace(s))
      case None => ([], s)
      case Some((a, rest)) =>
        var (more, end) := Attributes(keys, rest);
        ([a] + more, end)
  }

  /** "<" name attributes, then `close`, then white space: an empty tag or an opening tag. */
  function Head(tag: Tag, close: string, s: string): (r: Option<(seq<Attr>, string)>)
    ensures r.Some? ==> |r.value.1| < |s|
  {
    match Literal("<" + Name(tag), s)
    case None => None
    case Some(s1) =>
      var (attrs, s2) := Attributes(Keys(tag), s1);
      match Literal(close, s2)
      case None => None
      case Some(s3) => Some((attrs, SkipSpace(s3)))
  }

  function EmptyTag(tag: Tag, s: string): Option<(seq<Attr>, string)> { Head(tag, "/>", s) }

  function OpenTag(tag: Tag, s: string): Option<(seq<Attr>, string)> { Head(tag, ">", s) }

  function CloseTag(tag: Tag, s: string): (r: Option<string>)
    ensures r.Some? ==> |r.value| <= |s|
  {
    match Literal("</" + Name(tag) + ">", s)
    case None => None
    case Some(rest) => Some(SkipSpace(rest))
  }

  // ----- Elements

  function Build(tag: Tag, attrs: seq<Attr>, kids: seq<Data>, rest: string): Parsed<Data> {
    match ToStruct(tag, AttrMap(attrs), kids)
    case Ok(d) => Got(d, rest)
    case Raise => Error
  }

  function Element(tag: Tag, s: string): (r: Parsed<Data>)
    ensures r.Got? ==> |r.rest| < |s|
    decreases |s|, 0
  {
    match EmptyTag(tag, s)
    case Some((attrs, rest)) => Build(tag, attrs, [], rest)
    case None =>
      match OpenTag(tag, s)
      case None => Fail
      case Some((attrs, s1)) =>
        match Many(Children(tag), s1)
        case Fail => Fail
        case Error => Error
        case Got(kids, s2) =>
          match CloseTag(tag, s2)
          case None => Fail
          case Some(rest) => Build(tag, attrs, kids, rest)
  }

  /** (any (+ children)) */
  function Many(tags: seq<Tag>, s: string): (r: Parsed<seq<Data>>)
    ensures !r.Fail?
    ensures r.Got? ==> |r.rest| <= |s|
    decreases |s|, 2
  {
    match Choice(tags, s)
    case Fail => Got([], s)
    case Error => Error
    case Got(d, rest) =>
      match Many(tags, rest)
      case Error => Error
      case Got(ds, end) => Got([d] + ds, end)
      case Fail => Error
  }

  function Choice(tags: seq<Tag>, s: string): (r: Parsed<Data>)
    ensures r.Got? ==> |r.rest| < |s|
    decreases |s|, 1, |tags|
  {
    if tags == [] then Fail
    else match Element(tags[0], s)
         case Fail => Choice(tags[1..], s)
         case Error => Error
         case Got(d, rest) => Got(d, rest)
  }

  // ----- The whole document

  /** (? :doctype) */
  function Doctype(s: string): string {
    if "<!DOCTYPE" <= s && '>' in s[9..] then SkipSpace(s[9 + Thru(s[9..])..]) else s
  }

  /** (thru ">"): up to and including the first one. */
  function Thru(s: string): (n: nat)
    requires '>' in s
    ensures n <= |s|
  {
    if s[0] == '>' then 1 else 1 + Thru(s[1..])
  }

  datatype Answer = Nothing | Failed | Found(d: Data)

  function ParseXml(input: string, destination: string, path: string): Answer {
    match Element(NodeTag, Doctype(input))
    case Fail => Nothing
    case Error => Failed
    case Got(d, rest) =>
      if rest != "" then Nothing
      else Found(Struct(map["destination" := Str(destination), "path" := Str(path)]
                        + Copy(d, "interfaces") + Copy(d, "children")))
  }

  function Copy(d: Data, key: string): map<string, Data> {
    match Get(d, key)
    case Some(x) => map[key := x]
    case None => map[]
  }
}
