/** Introspection documents as trees with their exact layout: the grammar accepts the printed
    trees and nothing else, and builds the fold of the tree. */
module Documents {
  import opened Options
  import opened Introspect

  /** An attribute with the white space before it. */
  datatype Spaced = Spaced(space: string, attr: Attr)

  /** An element: `gap` follows its empty or opening tag, `tail` its closing tag. */
  datatype Elem = Elem(tag: Tag, attrs: seq<Spaced>, empty: bool, gap: string, kids: seq<Elem>, tail: string)

  function PrintAttrs(attrs: seq<Spaced>): string {
    if attrs == [] then ""
    else attrs[0].space + (attrs[0].attr.key + "=\"" + (attrs[0].attr.value + ("\"" + PrintAttrs(attrs[1..]))))
  }

  function Print(e: Elem): string {
    var head := "<" + Name(e.tag) + PrintAttrs(e.attrs);
    if e.empty then head + ("/>" + e.gap)
    else head + (">" + (e.gap + (PrintAll(e.kids) + ("</" + Name(e.tag) + ">" + e.tail))))
  }

  function PrintAll(es: seq<Elem>): string {
    if es == [] then "" else Print(es[0]) + PrintAll(es[1..])
  }

  predicate GoodAttr(tag: Tag, a: Spaced) {
    a.space != "" && Blank(a.space) && a.attr.key in Keys(tag) && '"' !in a.attr.value
  }

  /** A tree the printer may lay out: known attributes and children, white space where allowed. */
  predicate Good(e: Elem) {
    && (forall i :: 0 <= i < |e.attrs| ==> GoodAttr(e.tag, e.attrs[i]))
    && Blank(e.gap) && Blank(e.tail)
    && (e.empty ==> e.kids == [] && e.tail == "")
    && (forall i :: 0 <= i < |e.kids| ==> e.kids[i].tag in Children(e.tag) && Good(e.kids[i]))
  }

  function Plain(attrs: seq<Spaced>): seq<Attr> {
    if attrs == [] then [] else [attrs[0].attr] + Plain(attrs[1..])
  }

  datatype BuiltAll = OkAll(ds: seq<Data>) | RaiseAll

  /** The fold of a tree by the struct builders, children first. */
  function Fold(e: Elem): Built {
    match FoldAll(e.kids)
    case RaiseAll => Raise
    case OkAll(ds) => ToStruct(e.tag, AttrMap(Plain(e.attrs)), ds)
  }

  function FoldAll(es: seq<Elem>): BuiltAll {
    if es == [] then OkAll([])
    else match Fold(es[0])
         case Raise => RaiseAll
         case Ok(d) =>
           match FoldAll(es[1..])
           case RaiseAll => RaiseAll
           case OkAll(ds) => OkAll([d] + ds)
  }

  // ----- When the builders raise

  /** The attributes a builder cannot do without. */
  function Required(tag: Tag): set<string> {
    match tag
    case NodeTag => {}
    case InterfaceTag => {"name"}
    case MethodTag => {"name"}
    case SignalTag => {"name"}
    case PropertyTag => {"name", "type", "access"}
    case ArgTag => {"type"}
    case AnnotationTag => {"name", "value"}
  }

  predicate Has(attrs: seq<Spaced>, key: string) {
    exists i :: 0 <= i < |attrs| && attrs[i].attr.key == key
  }

  /** The element or one inside it lacks an attribute that its builder needs. */
  ghost predicate Lacking(e: Elem) {
    || (exists key :: key in Required(e.tag) && !Has(e.attrs, key))
    || (exists i :: 0 <= i < |e.kids| && Lacking(e.kids[i]))
  }

  lemma {:induction false} AttrMapHas(attrs: seq<Spaced>, key: string)
    ensures key in AttrMap(Plain(attrs)) <==> Has(attrs, key)
  {
    if attrs != [] {
      var front, n := attrs[..|attrs| - 1], |attrs| - 1;
      AttrMapHas(front, key);
      PlainFront(attrs);
      var plain := Plain(attrs);
      assert plain[..|plain| - 1] == Plain(front);
      if Has(attrs, key) && attrs[n].attr.key != key {
        var i :| 0 <= i < |attrs| && attrs[i].attr.key == key;
        assert front[i].attr.key == key;
      }
      if Has(front, key) {
        var i :| 0 <= i < |front| && front[i].attr.key == key;
        assert attrs[i].attr.key == key;
      }
    }
  }

  lemma {:induction false} PlainFront(attrs: seq<Spaced>)
    requires attrs != []
    ensures Plain(attrs) == Plain(attrs[..|attrs| - 1]) + [attrs[|attrs| - 1].attr]
  {
    if |attrs| == 1 {
      assert attrs[..0] == [] && attrs[1..] == [];
    } else {
      PlainFront(attrs[1..]);
      assert attrs[1..][..|attrs| - 2] == attrs[..|attrs| - 1][1..];
    }
  }

  /** A builder raises exactly for want of an attribute. */
  lemma {:induction false} ToStructRaises(tag: Tag, attrs: map<string, string>, kids: seq<Data>)
    ensures ToStruct(tag, attrs, kids).Raise? <==> !(Required(tag) <= attrs.Keys)
  {
    hide Filter, Merge;
  }

  lemma {:induction false} FoldAllRaises(es: seq<Elem>)
    ensures FoldAll(es).RaiseAll? <==> exists i :: 0 <= i < |es| && Fold(es[i]).Raise?
  {
    hide Fold;
    if es != [] {
      FoldAllRaises(es[1..]);
      assert forall i :: 0 <= i < |es| - 1 ==> es[1..][i] == es[i + 1];
      if i :| 0 < i < |es| && Fold(es[i]).Raise? {
        assert Fold(es[1..][i - 1]).Raise?;
      }
    }
  }

  /** Building a tree raises exactly when some element of it lacks an attribute it needs. */
  lemma {:induction false} RaiseExact(e: Elem)
    ensures Fold(e).Raise? <==> Lacking(e)
  {
    hide ToStruct, AttrMap, Plain, FoldAll, Required, Has, Fold;
    forall i | 0 <= i < |e.kids| ensures Fold(e.kids[i]).Raise? <==> Lacking(e.kids[i]) {
      RaiseExact(e.kids[i]);
    }
    FoldKids(e);
    FoldAllRaises(e.kids);
    if FoldAll(e.kids).OkAll? {
      var attrs := AttrMap(Plain(e.attrs));
      ToStructRaises(e.tag, attrs, FoldAll(e.kids).ds);
      forall key ensures key in attrs <==> Has(e.attrs, key) {
        AttrMapHas(e.attrs, key);
      }
    }
  }

  // ----- The tables of the grammar, read the other way round

  /** Which elements may carry an attribute. */
  ghost function Carriers(key: string): set<Tag> {
    if key == "name" then
      {NodeTag, InterfaceTag, MethodTag, SignalTag, PropertyTag, ArgTag, AnnotationTag}
    else if key == "type" then {PropertyTag, ArgTag}
    else if key == "access" then {PropertyTag}
    else if key == "direction" then {ArgTag}
    else if key == "value" then {AnnotationTag}
    else {}
  }

  /** Which elements an element may stand in. */
  ghost function Parents(child: Tag): set<Tag> {
    match child
    case NodeTag => {NodeTag}
    case InterfaceTag => {NodeTag}
    case MethodTag => {InterfaceTag}
    case SignalTag => {InterfaceTag}
    case PropertyTag => {InterfaceTag}
    case ArgTag => {MethodTag, SignalTag}
    case AnnotationTag => {InterfaceTag, MethodTag, SignalTag, PropertyTag}
  }

  lemma {:induction false} KeysExact(tag: Tag, key: string)
    ensures key in Keys(tag) <==> tag in Carriers(key)
  {
    assert Keys(PropertyTag) == ["name"] + ["type", "access"] && Keys(ArgTag) == ["name"] + ["type", "direction"];
  }

  lemma {:induction false} ChildrenExact(tag: Tag, child: Tag)
    ensures child in Children(tag) <==> tag in Parents(child)
  {
    assert Children(InterfaceTag) == [MethodTag, SignalTag] + [PropertyTag, AnnotationTag];
  }

  /** White space is blank, tab, newline, vertical tab, form feed, return and NUL. */
  lemma {:induction false} SpacesExact(c: char)
    ensures IsSpace(c) <==> c as int in {32, 9, 10, 11, 12, 13, 0}
  {
  }

  predicate NoSpace(s: string) {
    s == "" || !IsSpace(s[0])
  }

  // ----- Lexical lemmas

  lemma {:induction false} SkipBlank(ws: string, s: string)
    requires Blank(ws) && NoSpace(s)
    ensures SkipSpace(ws + s) == s
  {
    if ws == "" {
      assert ws + s == s;
    } else {
      assert (ws + s)[1..] == ws[1..] + s;
      SkipBlank(ws[1..], s);
    }
  }

  lemma {:induction false} UnquotedText(v: string, s: string)
    requires '"' !in v
    ensures Unquoted(v + ("\"" + s)) == |v|
  {
    if v == "" {
      assert v + ("\"" + s) == "\"" + s;
    } else {
      assert (v + ("\"" + s))[1..] == v[1..] + ("\"" + s);
      UnquotedText(v[1..], s);
    }
  }

  lemma {:induction false} LiteralOf(lit: string, s: string)
    ensures Literal(lit, lit + s) == Some(s)
  {
  }

  lemma {:induction false} KeyAmong(ks: seq<string>, key: string, t: string)
    requires key in ks && key <= t && key != ""
    requires forall k :: k in ks ==> k != "" && (k[0] == key[0] ==> k == key)
    ensures FirstKey(ks, t) == Some(key)
  {
    assert ks[0] in ks && forall k :: k in ks[1..] ==> k in ks;
    if ks[0] <= t {
      assert ks[0][0] == t[0] == key[0];
    } else {
      KeyAmong(ks[1..], key, t);
    }
  }

  /** The keys of a tag start with different letters, so the first that fits is the right one. */
  lemma {:induction false} KeyFound(tag: Tag, key: string, s: string)
    requires key in Keys(tag)
    ensures FirstKey(Keys(tag), key + s) == Some(key)
  {
    KeyAmong(Keys(tag), key, key + s);
  }

  lemma {:induction false} AttributeOf(tag: Tag, a: Spaced, s: string)
    requires GoodAttr(tag, a)
    ensures Attribute(Keys(tag), a.attr.key + "=\"" + (a.attr.value + ("\"" + s))) == Some((a.attr, s))
  {
    hide FirstKey, Keys, Unquoted;
    var key, v := a.attr.key, a.attr.value;
    var body := v + ("\"" + s);
    var t := key + "=\"" + body;
    KeyFound(tag, key, "=\"" + body);
    assert t == key + ("=\"" + body);
    UnquotedText(v, s);
    assert t[|key| + 2..] == body && body[..|v|] == v && body[|v| + 1..] == s;
  }

  lemma {:induction false} AttributesOf(tag: Tag, attrs: seq<Spaced>, s: string)
    requires forall i :: 0 <= i < |attrs| ==> GoodAttr(tag, attrs[i])
    requires NoSpace(s)
    ensures Attributes(Keys(tag), PrintAttrs(attrs) + s) == (Plain(attrs), s)
  {
    hide Attribute, Keys;
    if attrs == [] {
      assert PrintAttrs(attrs) + s == s;
    } else {
      var a := attrs[0];
      var more := PrintAttrs(attrs[1..]) + s;
      var rest := a.attr.key + "=\"" + (a.attr.value + ("\"" + more));
      var all := PrintAttrs(attrs) + s;
      assert all == a.space + rest;
      KeyStart(tag, a.attr.key);
      SkipBlank(a.space, rest);
      AttributeOf(tag, a, more);
      AttributesOf(tag, attrs[1..], s);
      assert IsSpace(all[0]);
    }
  }

  lemma {:induction false} KeyStart(tag: Tag, key: string)
    requires key in Keys(tag)
    ensures key != "" && !IsSpace(key[0])
  {
  }

  // ----- Tags

  lemma {:induction false} HeadOf(tag: Tag, attrs: seq<Spaced>, close: string, gap: string, s: string)
    requires forall i :: 0 <= i < |attrs| ==> GoodAttr(tag, attrs[i])
    requires close != "" && !IsSpace(close[0]) && Blank(gap) && NoSpace(s)
    ensures Head(tag, close, "<" + Name(tag) + PrintAttrs(attrs) + (close + (gap + s))) == Some((Plain(attrs), s))
  {
    hide Attributes, Keys, Name, PrintAttrs, SkipSpace;
    var tail := close + (gap + s);
    assert "<" + Name(tag) + PrintAttrs(attrs) + tail == ("<" + Name(tag)) + (PrintAttrs(attrs) + tail);
    LiteralOf("<" + Name(tag), PrintAttrs(attrs) + tail);
    AttributesOf(tag, attrs, tail);
    LiteralOf(close, gap + s);
    SkipBlank(gap, s);
  }

  /** A head closes in one way only: no text is both an empty tag and an opening tag. */
  lemma {:induction false} EmptyOrOpen(tag: Tag, s: string)
    ensures EmptyTag(tag, s).None? || OpenTag(tag, s).None?
  {
    hide Attributes, Keys, Name, SkipSpace;
    if "<" + Name(tag) <= s {
      var s2 := Attributes(Keys(tag), s[|Name(tag)| + 1..]).1;
      assert "/>" <= s2 ==> s2[0] == '/';
      assert ">" <= s2 ==> s2[0] == '>';
    }
  }

  /** The names of two tags differ within their first two letters. */
  lemma {:induction false} NamesDiffer(a: Tag, b: Tag)
    ensures |Name(a)| >= 2 && |Name(b)| >= 2
    ensures Name(a)[0] == Name(b)[0] && Name(a)[1] == Name(b)[1] ==> a == b
    ensures Name(a)[0] != '/'
  {
  }

  /** Text that opens with another name is no element of this tag, nor is a closing tag. */
  lemma {:induction false} WrongTag(tag: Tag, s: string)
    requires !("<" + Name(tag) <= s)
    ensures Element(tag, s) == Fail
  {
  }

  lemma {:induction false} OtherName(tag: Tag, other: Tag, s: string)
    requires tag != other
    ensures !("<" + Name(other) <= "<" + Name(tag) + s)
  {
    hide Name;
    NamesDiffer(tag, other);
    var t, l := "<" + Name(tag) + s, "<" + Name(other);
    assert t[1] == Name(tag)[0] && t[2] == Name(tag)[1];
    assert l[1] == Name(other)[0] && l[2] == Name(other)[1];
  }

  lemma {:induction false} ChoiceOf(tags: seq<Tag>, tag: Tag, s: string)
    requires tag in tags
    ensures Choice(tags, "<" + Name(tag) + s) == Element(tag, "<" + Name(tag) + s)
            || Element(tag, "<" + Name(tag) + s).Fail?
  {
    hide Element, Name;
    if tags[0] != tag {
      OtherName(tag, tags[0], s);
      WrongTag(tags[0], "<" + Name(tag) + s);
      ChoiceOf(tags[1..], tag, s);
    }
  }

  lemma {:induction false} NoChoice(tags: seq<Tag>, s: string)
    ensures Choice(tags, "</" + s) == Fail
  {
    hide Element, Name;
    if tags != [] {
      NamesDiffer(tags[0], tags[0]);
      var t, l := "</" + s, "<" + Name(tags[0]);
      assert t[1] == '/' && l[1] == Name(tags[0])[0];
      WrongTag(tags[0], t);
      NoChoice(tags[1..], s);
    }
  }

  lemma {:induction false} CloseTagOf(tag: Tag, tail: string, s: string)
    requires Blank(tail) && NoSpace(s)
    ensures CloseTag(tag, "</" + Name(tag) + ">" + tail + s) == Some(s)
  {
    hide Name, SkipSpace;
    assert "</" + Name(tag) + ">" + tail + s == ("</" + Name(tag) + ">") + (tail + s);
    LiteralOf("</" + Name(tag) + ">", tail + s);
    SkipBlank(tail, s);
  }

  // ----- Completeness

  function Expect(b: Built, rest: string): Parsed<Data> {
    match b
    case Ok(d) => Got(d, rest)
    case Raise => Error
  }

  function ExpectAll(b: BuiltAll, rest: string): Parsed<seq<Data>> {
    match b
    case OkAll(ds) => Got(ds, rest)
    case RaiseAll => Error
  }

  lemma {:induction false} PrintStarts(e: Elem)
    ensures exists s :: Print(e) == "<" + Name(e.tag) + s
  {
    hide Name, PrintAll, PrintAttrs;
    var head := PrintAttrs(e.attrs);
    var inner := e.gap + (PrintAll(e.kids) + ("</" + Name(e.tag) + ">" + e.tail));
    var t := if e.empty then "/>" + e.gap else ">" + inner;
    assert Print(e) == "<" + Name(e.tag) + (head + t);
  }

  /** Printed trees parse, and as what the fold of the tree says, whatever follows. */
  lemma {:induction false} Complete(e: Elem, s: string)
    requires Good(e) && NoSpace(s)
    ensures Element(e.tag, Print(e) + s) == Expect(Fold(e), s)
    decreases e, 1
  {
    hide Name, PrintAttrs, Head, ToStruct, Fold, FoldAll, CloseTag, PrintAll, Many, AttrMap, Plain;
    var head := "<" + Name(e.tag) + PrintAttrs(e.attrs);
    if e.empty {
      assert Print(e) + s == head + ("/>" + (e.gap + s));
      HeadOf(e.tag, e.attrs, "/>", e.gap, s);
      FoldNoKids(e);
    } else {
      var foot := "</" + Name(e.tag) + ">" + e.tail + s;
      var inner := PrintAll(e.kids) + foot;
      assert Print(e) + s == head + (">" + (e.gap + inner));
      InnerStarts(e.kids, foot);
      HeadOf(e.tag, e.attrs, ">", e.gap, inner);
      EmptyOrOpen(e.tag, Print(e) + s);
      assert foot == "</" + (Name(e.tag) + ">" + e.tail + s);
      NoChoice(Children(e.tag), Name(e.tag) + ">" + e.tail + s);
      CompleteAll(Children(e.tag), e.kids, foot);
      CloseTagOf(e.tag, e.tail, s);
      FoldKids(e);
    }
  }

  lemma {:induction false} FoldNoKids(e: Elem)
    requires e.kids == []
    ensures Fold(e) == ToStruct(e.tag, AttrMap(Plain(e.attrs)), [])
  {
  }

  lemma {:induction false} FoldKids(e: Elem)
    ensures Fold(e) == match FoldAll(e.kids)
      case RaiseAll => Raise
      case OkAll(ds) => ToStruct(e.tag, AttrMap(Plain(e.attrs)), ds)
  {
  }

  lemma {:induction false} InnerStarts(es: seq<Elem>, s: string)
    requires NoSpace(s)
    ensures NoSpace(PrintAll(es) + s)
  {
  }

  lemma {:induction false} CompleteAll(tags: seq<Tag>, es: seq<Elem>, foot: string)
    requires forall i :: 0 <= i < |es| ==> es[i].tag in tags && Good(es[i])
    requires Choice(tags, foot) == Fail && NoSpace(foot)
    ensures Many(tags, PrintAll(es) + foot) == ExpectAll(FoldAll(es), foot)
    decreases es, 0
  {
    hide Element, Print, Fold, Good, Choice, Name, NoSpace;
    if es == [] {
      assert PrintAll(es) + foot == foot;
    } else {
      var more := PrintAll(es[1..]) + foot;
      assert PrintAll(es) + foot == Print(es[0]) + more;
      InnerStarts(es[1..], foot);
      Complete(es[0], more);
      ChoiceOfPrint(tags, es[0], more);
      CompleteAll(tags, es[1..], foot);
    }
  }

  lemma {:induction false} ChoiceOfPrint(tags: seq<Tag>, e: Elem, more: string)
    requires e.tag in tags && !Element(e.tag, Print(e) + more).Fail?
    ensures Choice(tags, Print(e) + more) == Element(e.tag, Print(e) + more)
  {
    hide Element, Print, Choice, Name;
    PrintStarts(e);
    var t :| Print(e) == "<" + Name(e.tag) + t;
    assert Print(e) + more == "<" + Name(e.tag) + (t + more);
    ChoiceOf(tags, e.tag, t + more);
  }

  // ----- Soundness: whatever parses is a printed tree

  lemma {:induction false} SkipSound(s: string) returns (ws: string)
    ensures s == ws + SkipSpace(s) && Blank(ws) && NoSpace(SkipSpace(s))
    ensures s != "" && IsSpace(s[0]) ==> ws != ""
  {
    if s != "" && IsSpace(s[0]) {
      var rest := SkipSound(s[1..]);
      ws := [s[0]] + rest;
    } else {
      ws := "";
    }
  }

  lemma {:induction false} UnquotedSound(s: string)
    ensures '"' !in s[..Unquoted(s)] && (Unquoted(s) < |s| ==> s[Unquoted(s)] == '"')
  {
    if s != "" && s[0] != '"' {
      UnquotedSound(s[1..]);
      assert s[..Unquoted(s)] == [s[0]] + s[1..][..Unquoted(s[1..])];
    }
  }

  lemma {:induction false} FirstKeySound(ks: seq<string>, s: string)
    requires FirstKey(ks, s).Some?
    ensures FirstKey(ks, s).value in ks && FirstKey(ks, s).value <= s
  {
    if !(ks[0] <= s) {
      FirstKeySound(ks[1..], s);
    }
  }

  lemma {:induction false} AttributeSound(ks: seq<string>, s: string)
    requires Attribute(ks, s).Some?
    ensures var (a, rest) := Attribute(ks, s).value;
      && a.key in ks && '"' !in a.value && s == a.key + "=\"" + (a.value + ("\"" + rest))
  {
    hide FirstKey, Unquoted;
    FirstKeySound(ks, s);
    var (a, rest) := Attribute(ks, s).value;
    var body := s[|a.key| + 2..];
    QuoteSplit(body);
    PrefixSplit(a.key + "=\"", s);
  }

  lemma {:induction false} QuoteSplit(body: string)
    requires Unquoted(body) < |body|
    ensures var n := Unquoted(body);
      '"' !in body[..n] && body == body[..n] + ("\"" + body[n + 1..])
  {
    hide Unquoted;
    UnquotedSound(body);
  }

  lemma {:induction false} PrefixSplit(lit: string, s: string)
    requires lit <= s
    ensures s == lit + s[|lit|..]
  {
  }

  lemma {:induction false} AttributesSound(tag: Tag, s: string) returns (attrs: seq<Spaced>)
    ensures var (plain, rest) := Attributes(Keys(tag), s);
      && (forall i :: 0 <= i < |attrs| ==> GoodAttr(tag, attrs[i]))
      && Plain(attrs) == plain && s == PrintAttrs(attrs) + rest
    decreases |s|
  {
    hide Attribute, Keys, SkipSpace, Blank;
    attrs := [];
    assert PrintAttrs([]) + s == s;
    if s != "" && IsSpace(s[0]) && Attribute(Keys(tag), SkipSpace(s)).Some? {
      var (a, rest) := Attribute(Keys(tag), SkipSpace(s)).value;
      var ws := SkipSound(s);
      AttributeSound(Keys(tag), SkipSpace(s));
      var more := AttributesSound(tag, rest);
      attrs := [Spaced(ws, a)] + more;
      assert attrs[1..] == more;
      var end := Attributes(Keys(tag), rest).1;
      assert PrintAttrs(attrs) + end == ws + (a.key + "=\"" + (a.value + ("\"" + (PrintAttrs(more) + end))));
    }
  }

  lemma {:induction false} HeadSound(tag: Tag, close: string, s: string) returns (attrs: seq<Spaced>, gap: string)
    requires Head(tag, close, s).Some?
    ensures var (plain, rest) := Head(tag, close, s).value;
      && (forall i :: 0 <= i < |attrs| ==> GoodAttr(tag, attrs[i]))
      && Plain(attrs) == plain && Blank(gap) && NoSpace(rest)
      && s == "<" + Name(tag) + PrintAttrs(attrs) + (close + (gap + rest))
  {
    hide Attributes, Keys, Name, PrintAttrs, SkipSpace, GoodAttr;
    var s1 := s[|Name(tag)| + 1..];
    attrs := AttributesSound(tag, s1);
    var s2 := Attributes(Keys(tag), s1).1;
    gap := SkipSound(s2[|close|..]);
    assert s == ("<" + Name(tag)) + s1;
    assert s2 == close + s2[|close|..];
  }

  lemma {:induction false} Sound(tag: Tag, s: string) returns (e: Elem)
    requires Element(tag, s).Got?
    ensures Good(e) && e.tag == tag && NoSpace(Element(tag, s).rest)
    ensures s == Print(e) + Element(tag, s).rest && Fold(e) == Ok(Element(tag, s).v)
    decreases |s|, 0
  {
    hide Name, PrintAttrs, Head, ToStruct, CloseTag, PrintAll, Many, AttrMap, Plain, GoodAttr, FoldAll, SkipSpace;
    var rest := Element(tag, s).rest;
    if EmptyTag(tag, s).Some? {
      var attrs, gap := HeadSound(tag, "/>", s);
      e := Elem(tag, attrs, true, gap, [], "");
      FoldNoKids(e);
      assert s == Print(e) + rest;
    } else {
      var attrs, gap := HeadSound(tag, ">", s);
      var s1 := OpenTag(tag, s).value.1;
      var kids := SoundAll(Children(tag), s1);
      var s2 := Many(Children(tag), s1).rest;
      var tail := CloseTagSound(tag, s2);
      e := Elem(tag, attrs, false, gap, kids, tail);
      FoldKids(e);
      assert s == Print(e) + rest;
    }
  }

  lemma {:induction false} CloseTagSound(tag: Tag, s: string) returns (tail: string)
    requires CloseTag(tag, s).Some?
    ensures Blank(tail) && NoSpace(CloseTag(tag, s).value)
    ensures s == "</" + Name(tag) + ">" + tail + CloseTag(tag, s).value
  {
    hide Name, SkipSpace;
    var lit := "</" + Name(tag) + ">";
    tail := SkipSound(s[|lit|..]);
    assert s == lit + s[|lit|..];
  }

  lemma {:induction false} SoundAll(tags: seq<Tag>, s: string) returns (es: seq<Elem>)
    requires Many(tags, s).Got?
    ensures forall i :: 0 <= i < |es| ==> es[i].tag in tags && Good(es[i])
    ensures s == PrintAll(es) + Many(tags, s).rest && FoldAll(es) == OkAll(Many(tags, s).v)
    decreases |s|, 2
  {
    hide Choice, Print, Fold, Good;
    if Choice(tags, s).Got? {
      var e := SoundChoice(tags, s);
      var rest := Choice(tags, s).rest;
      var more := SoundAll(tags, rest);
      es := [e] + more;
      assert es[1..] == more;
      assert PrintAll(es) + Many(tags, s).rest == Print(e) + (PrintAll(more) + Many(tags, rest).rest);
    } else {
      es := [];
      assert PrintAll(es) + s == s;
    }
  }

  lemma {:induction false} SoundChoice(tags: seq<Tag>, s: string) returns (e: Elem)
    requires Choice(tags, s).Got?
    ensures e.tag in tags && Good(e) && s == Print(e) + Choice(tags, s).rest && Fold(e) == Ok(Choice(tags, s).v)
    decreases |s|, 1, |tags|
  {
    hide Element, Print, Fold, Good;
    if Element(tags[0], s).Got? {
      e := Sound(tags[0], s);
    } else {
      e := SoundChoice(tags[1..], s);
    }
  }

  // ----- Whole documents

  datatype Header = NoHeader | Header(body: string, space: string)

  datatype Document = Document(header: Header, root: Elem)

  predicate GoodDocument(doc: Document) {
    && Good(doc.root) && doc.root.tag == NodeTag
    && (doc.header.Header? ==> '>' !in doc.header.body && Blank(doc.header.space))
  }

  function PrintHeader(h: Header): string {
    if h.NoHeader? then "" else "<!DOCTYPE" + (h.body + (">" + h.space))
  }

  function PrintDocument(doc: Document): string {
    PrintHeader(doc.header) + Print(doc.root)
  }

  /** What parse-xml returns for a root node. */
  function Result(d: Data, destination: string, path: string): Data {
    Struct(map["destination" := Str(destination), "path" := Str(path)] + Copy(d, "interfaces") + Copy(d, "children"))
  }

  lemma {:induction false} ThruOf(body: string, s: string)
    requires '>' !in body
    ensures '>' in body + (">" + s) && Thru(body + (">" + s)) == |body| + 1
  {
    var t := body + (">" + s);
    assert t[|body|] == '>';
    if body != "" {
      assert t[1..] == body[1..] + (">" + s);
      ThruOf(body[1..], s);
    }
  }

  lemma {:induction false} ThruSound(s: string)
    requires '>' in s
    ensures 1 <= Thru(s) && s[Thru(s) - 1] == '>' && '>' !in s[..Thru(s) - 1]
  {
    if s[0] != '>' {
      ThruSound(s[1..]);
      assert s[..Thru(s) - 1] == [s[0]] + s[1..][..Thru(s[1..]) - 1];
    }
  }

  lemma {:induction false} HeaderSkipped(doc: Document)
    requires GoodDocument(doc)
    ensures Doctype(PrintDocument(doc)) == Print(doc.root)
  {
    hide Good, Print, Thru, SkipSpace;
    var p, input := Print(doc.root), PrintDocument(doc);
    PrintStarts(doc.root);
    if doc.header.NoHeader? {
      assert input == p && input[1] == 'n';
    } else {
      HeaderText(doc.header, p);
    }
  }

  lemma {:induction false} HeaderText(h: Header, p: string)
    requires h.Header? && '>' !in h.body && Blank(h.space) && NoSpace(p)
    ensures Doctype(PrintHeader(h) + p) == p
  {
    hide Thru, SkipSpace;
    var after := h.body + (">" + (h.space + p));
    HeaderAhead("<!DOCTYPE", h.body, h.space, p);
    ThruOf(h.body, h.space + p);
    SkipBlank(h.space, p);
    assert PrintHeader(h) + p == "<!DOCTYPE" + after;
  }

  lemma {:induction false} HeaderAhead(lit: string, body: string, space: string, p: string)
    ensures var after := body + (">" + (space + p));
      var input := lit + after;
      && lit + (body + (">" + space)) + p == input
      && lit <= input && input[|lit|..] == after && input[|lit| + |body| + 1..] == space + p
  {
  }

  /** Every well-formed document is consumed whole and yields the fold of its tree. */
  lemma {:induction false} ParseComplete(doc: Document, destination: string, path: string)
    requires GoodDocument(doc)
    ensures ParseXml(PrintDocument(doc), destination, path) ==
      match Fold(doc.root) case Ok(d) => Found(Result(d, destination, path)) case Raise => Failed
  {
    hide Good, Print, Doctype, Fold, Element;
    HeaderSkipped(doc);
    Complete(doc.root, "");
    assert Print(doc.root) + "" == Print(doc.root);
  }

  /** On a well-formed document parse-xml raises exactly when some element lacks an attribute that
      its builder needs, and otherwise has a result. */
  lemma {:induction false} ParseRaises(doc: Document, destination: string, path: string)
    requires GoodDocument(doc)
    ensures ParseXml(PrintDocument(doc), destination, path) == Failed <==> Lacking(doc.root)
    ensures ParseXml(PrintDocument(doc), destination, path).Found? <==> !Lacking(doc.root)
  {
    hide Good, Print, Fold, ParseXml, Lacking;
    ParseComplete(doc, destination, path);
    RaiseExact(doc.root);
  }

  lemma {:induction false} HeaderSplit(lit: string, input: string, n: nat, ws: string, rest: string)
    requires lit <= input && 1 <= n <= |input| - |lit| && input[|lit| + n - 1] == '>' && input[|lit| + n..] == ws + rest
    ensures input == lit + (input[|lit|..][..n - 1] + (">" + ws)) + rest
  {
  }

  lemma {:induction false} HeaderSound(input: string) returns (h: Header)
    ensures h.Header? ==> '>' !in h.body && Blank(h.space)
    ensures input == PrintHeader(h) + Doctype(input)
  {
    hide Thru, SkipSpace;
    if "<!DOCTYPE" <= input && '>' in input[9..] {
      ThruSound(input[9..]);
      var n := Thru(input[9..]);
      var ws := SkipSound(input[9 + n..]);
      h := Header(input[9..][..n - 1], ws);
      HeaderSplit("<!DOCTYPE", input, n, ws, Doctype(input));
    } else {
      h := NoHeader;
      assert "" + input == input;
    }
  }

  /** Nothing else is accepted: an input with a result is a well-formed document. */
  lemma {:induction false} ParseSound(input: string, destination: string, path: string) returns (doc: Document)
    requires ParseXml(input, destination, path).Found?
    ensures GoodDocument(doc) && input == PrintDocument(doc)
    ensures Fold(doc.root).Ok? && ParseXml(input, destination, path).d == Result(Fold(doc.root).d, destination, path)
  {
    hide Good, Print, Fold, Element, Doctype, PrintHeader;
    var s := Doctype(input);
    var root := Sound(NodeTag, s);
    assert s == Print(root) + "" == Print(root);
    var h := HeaderSound(input);
    doc := Document(h, root);
  }
}
