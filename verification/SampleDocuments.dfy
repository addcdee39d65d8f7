/** Whole documents, text and result: one with every element and every attribute and white space
    between them, and one whose interface is called "path". */
module SampleDocuments {
  import opened Introspect
  import opened Documents

  // ----- The documents

  const ANNOTATION := Elem(AnnotationTag, [Say("name", "k"), Say("value", "v")], true, "\n", [], "")

  const IN_ARG := Elem(ArgTag, [Say("name", "x"), Say("type", "i"), Say("direction", "in")], true, "\n", [], "")

  const OUT_ARG := Elem(ArgTag, [Say("name", "y"), Say("type", "u"), Say("direction", "out")], true, "\n", [], "")

  const BARE_ARG := Elem(ArgTag, [Say("type", "s")], true, "", [], "")

  const METHOD := Elem(MethodTag, [Say("name", "M")], false, "\n", [ANNOTATION, IN_ARG, OUT_ARG], "\n")

  const SIGNAL := Elem(SignalTag, [Say("name", "S")], false, "", [BARE_ARG], "\n")

  const PROPERTY :=
    Elem(PropertyTag, [Say("name", "P"), Say("type", "as"), Say("access", "read")], true, "\n", [], "")

  const INTERFACE :=
    Elem(InterfaceTag, [Say("name", "I")], false, "\n", [METHOD, SIGNAL, PROPERTY, ANNOTATION], "\n")

  const CHILD := Elem(NodeTag, [Say("name", "b")], true, "\n", [], "")

  const NODE := Elem(NodeTag, [Say("name", "/a")], false, "\n", [INTERFACE, CHILD], "")

  const DOCUMENT := Document(Header("", "\n"), NODE)

  function Say(key: string, value: string): Spaced {
    Spaced(" ", Attr(key, value))
  }

  const ANNOTATION_XML := "<annotation" + (" name=\"k\"" + " value=\"v\"") + "/>\n"

  const IN_ARG_XML := "<arg" + (" name=\"x\"" + (" type=\"i\"" + " direction=\"in\"")) + "/>\n"

  const OUT_ARG_XML := "<arg" + (" name=\"y\"" + (" type=\"u\"" + " direction=\"out\"")) + "/>\n"

  const METHOD_XML := "<method" + " name=\"M\"" + ">\n" + (ANNOTATION_XML + (IN_ARG_XML + OUT_ARG_XML)) + "</method>\n"

  const SIGNAL_XML := "<signal" + " name=\"S\"" + ">" + ("<arg" + " type=\"s\"" + "/>") + "</signal>\n"

  const PROPERTY_XML := "<property" + (" name=\"P\"" + (" type=\"as\"" + " access=\"read\"")) + "/>\n"

  const INTERFACE_XML :=
    "<interface" + " name=\"I\"" + ">\n"
    + (METHOD_XML + (SIGNAL_XML + (PROPERTY_XML + ANNOTATION_XML)))
    + "</interface>\n"

  const CHILD_XML := "<node" + " name=\"b\"" + "/>\n"

  const NODE_XML := "<node" + " name=\"/a\"" + ">\n" + (INTERFACE_XML + CHILD_XML) + "</node>"

  const DOCUMENT_XML := "<!DOCTYPE>\n" + NODE_XML

  // ----- Texts

  lemma {:induction false} PrintAttr(key: string, value: string, more: seq<Spaced>, text: string)
    requires text == " " + key + "=\"" + value + "\""
    ensures PrintAttrs([Say(key, value)] + more) == text + PrintAttrs(more)
  {
    var attrs := [Say(key, value)] + more;
    assert attrs[1..] == more;
    assert " " + (key + "=\"" + (value + ("\"" + PrintAttrs(more)))) == text + PrintAttrs(more);
  }

  lemma {:induction false} PrintOneAttr(key: string, value: string, text: string)
    requires text == " " + key + "=\"" + value + "\""
    ensures PrintAttrs([Say(key, value)]) == text
  {
    PrintAttr(key, value, [], text);
    assert [Say(key, value)] + [] == [Say(key, value)];
    assert text + "" == text;
  }

  lemma {:induction false} PrintEmpty(e: Elem, name: string, attrs: string, end: string)
    requires e.empty && "<" + Name(e.tag) == name && PrintAttrs(e.attrs) == attrs && end == "/>" + e.gap
    ensures Print(e) == name + attrs + end
  {
  }

  lemma {:induction false} PrintFull(e: Elem, name: string, attrs: string, open: string, kids: string, close: string)
    requires !e.empty && "<" + Name(e.tag) == name && PrintAttrs(e.attrs) == attrs && PrintAll(e.kids) == kids
    requires open == ">" + e.gap && close == "</" + Name(e.tag) + ">" + e.tail
    ensures Print(e) == name + attrs + open + kids + close
  {
    hide Name, PrintAttrs, PrintAll;
  }

  lemma {:induction false} PrintKids(e: Elem, es: seq<Elem>)
    ensures PrintAll([e] + es) == Print(e) + PrintAll(es)
  {
    assert ([e] + es)[1..] == es;
  }

  lemma {:induction false} PrintLastKid(e: Elem)
    ensures PrintAll([e]) == Print(e)
  {
    PrintKids(e, []);
    assert [e] + [] == [e] && Print(e) + "" == Print(e);
  }

  lemma {:induction false} PrintTwoAttrs(k1: string, v1: string, t1: string, k2: string, v2: string, t2: string)
    requires t1 == " " + k1 + "=\"" + v1 + "\"" && t2 == " " + k2 + "=\"" + v2 + "\""
    ensures PrintAttrs([Say(k1, v1), Say(k2, v2)]) == t1 + t2
  {
    PrintOneAttr(k2, v2, t2);
    PrintAttr(k1, v1, [Say(k2, v2)], t1);
    assert [Say(k1, v1)] + [Say(k2, v2)] == [Say(k1, v1), Say(k2, v2)];
  }

  lemma {:induction false} PrintThreeAttrs(k1: string, v1: string, t1: string, k2: string, v2: string, t2: string,
      k3: string, v3: string, t3: string)
    requires t1 == " " + k1 + "=\"" + v1 + "\"" && t2 == " " + k2 + "=\"" + v2 + "\""
    requires t3 == " " + k3 + "=\"" + v3 + "\""
    ensures PrintAttrs([Say(k1, v1), Say(k2, v2), Say(k3, v3)]) == t1 + (t2 + t3)
  {
    PrintTwoAttrs(k2, v2, t2, k3, v3, t3);
    PrintAttr(k1, v1, [Say(k2, v2), Say(k3, v3)], t1);
    assert [Say(k1, v1)] + [Say(k2, v2), Say(k3, v3)] == [Say(k1, v1), Say(k2, v2), Say(k3, v3)];
  }

  lemma {:induction false} AnnotationText()
    ensures Print(ANNOTATION) == ANNOTATION_XML
  {
    hide Print, PrintAttrs;
    PrintTwoAttrs("name", "k", " name=\"k\"", "value", "v", " value=\"v\"");
    PrintEmpty(ANNOTATION, "<annotation", " name=\"k\"" + " value=\"v\"", "/>\n");
  }

  lemma {:induction false} InArgText()
    ensures Print(IN_ARG) == IN_ARG_XML
  {
    hide Print, PrintAttrs;
    PrintThreeAttrs("name", "x", " name=\"x\"", "type", "i", " type=\"i\"", "direction", "in", " direction=\"in\"");
    PrintEmpty(IN_ARG, "<arg", " name=\"x\"" + (" type=\"i\"" + " direction=\"in\""), "/>\n");
  }

  lemma {:induction false} OutArgText()
    ensures Print(OUT_ARG) == OUT_ARG_XML
  {
    hide Print, PrintAttrs;
    PrintThreeAttrs("name", "y", " name=\"y\"", "type", "u", " type=\"u\"", "direction", "out", " direction=\"out\"");
    PrintEmpty(OUT_ARG, "<arg", " name=\"y\"" + (" type=\"u\"" + " direction=\"out\""), "/>\n");
  }

  lemma {:induction false} MethodText()
    ensures Print(METHOD) == METHOD_XML
  {
    hide Print, PrintAttrs, PrintAll;
    AnnotationText();
    InArgText();
    OutArgText();
    PrintLastKid(OUT_ARG);
    PrintKids(IN_ARG, [OUT_ARG]);
    PrintKids(ANNOTATION, [IN_ARG, OUT_ARG]);
    assert [IN_ARG] + [OUT_ARG] == [IN_ARG, OUT_ARG] && [ANNOTATION] + [IN_ARG, OUT_ARG] == METHOD.kids;
    PrintOneAttr("name", "M", " name=\"M\"");
    PrintFull(METHOD, "<method", " name=\"M\"", ">\n", ANNOTATION_XML + (IN_ARG_XML + OUT_ARG_XML), "</method>\n");
  }

  lemma {:induction false} SignalText()
    ensures Print(SIGNAL) == SIGNAL_XML
  {
    hide Print, PrintAttrs, PrintAll;
    PrintOneAttr("type", "s", " type=\"s\"");
    PrintEmpty(BARE_ARG, "<arg", " type=\"s\"", "/>");
    PrintLastKid(BARE_ARG);
    PrintOneAttr("name", "S", " name=\"S\"");
    PrintFull(SIGNAL, "<signal", " name=\"S\"", ">", "<arg" + " type=\"s\"" + "/>", "</signal>\n");
  }

  lemma {:induction false} PropertyText()
    ensures Print(PROPERTY) == PROPERTY_XML
  {
    hide Print, PrintAttrs;
    PrintThreeAttrs("name", "P", " name=\"P\"", "type", "as", " type=\"as\"", "access", "read", " access=\"read\"");
    PrintEmpty(PROPERTY, "<property", " name=\"P\"" + (" type=\"as\"" + " access=\"read\""), "/>\n");
  }

  lemma {:induction false} InterfaceText()
    ensures Print(INTERFACE) == INTERFACE_XML
  {
    hide Print, PrintAttrs, PrintAll;
    MethodText();
    SignalText();
    PropertyText();
    AnnotationText();
    PrintLastKid(ANNOTATION);
    PrintKids(PROPERTY, [ANNOTATION]);
    PrintKids(SIGNAL, [PROPERTY, ANNOTATION]);
    PrintKids(METHOD, [SIGNAL, PROPERTY, ANNOTATION]);
    assert [PROPERTY] + [ANNOTATION] == [PROPERTY, ANNOTATION];
    assert [SIGNAL] + [PROPERTY, ANNOTATION] == [SIGNAL, PROPERTY, ANNOTATION];
    assert [METHOD] + [SIGNAL, PROPERTY, ANNOTATION] == INTERFACE.kids;
    PrintOneAttr("name", "I", " name=\"I\"");
    PrintFull(INTERFACE, "<interface", " name=\"I\"", ">\n",
              METHOD_XML + (SIGNAL_XML + (PROPERTY_XML + ANNOTATION_XML)), "</interface>\n");
  }

  lemma {:induction false} NodeText()
    ensures Print(NODE) == NODE_XML
  {
    hide Print, PrintAttrs, PrintAll;
    InterfaceText();
    PrintOneAttr("name", "b", " name=\"b\"");
    PrintEmpty(CHILD, "<node", " name=\"b\"", "/>\n");
    PrintLastKid(CHILD);
    PrintKids(INTERFACE, [CHILD]);
    assert [INTERFACE] + [CHILD] == NODE.kids;
    PrintOneAttr("name", "/a", " name=\"/a\"");
    PrintFull(NODE, "<node", " name=\"/a\"", ">\n", INTERFACE_XML + CHILD_XML, "</node>");
  }

  lemma {:induction false} DocumentText()
    ensures PrintDocument(DOCUMENT) == DOCUMENT_XML
  {
    hide Print;
    NodeText();
    assert "<!DOCTYPE" + ("" + (">" + "\n")) == "<!DOCTYPE>\n";
  }

  // ----- Well-formedness

  lemma {:induction false} LeavesGood()
    ensures Good(ANNOTATION) && Good(IN_ARG) && Good(OUT_ARG) && Good(BARE_ARG) && Good(PROPERTY) && Good(CHILD)
  {
    hide Keys, Good, GoodAttr;
    AllKeys();
    var spaced := [ANNOTATION, IN_ARG, OUT_ARG, BARE_ARG, PROPERTY, CHILD];
    forall i | 0 <= i < |spaced| ensures Good(spaced[i]) {
      forall j | 0 <= j < |spaced[i].attrs| ensures GoodAttr(spaced[i].tag, spaced[i].attrs[j]) {
        SayGood(spaced[i].tag, spaced[i].attrs[j]);
      }
      LeafGood(spaced[i]);
    }
    assert Good(spaced[0]) && Good(spaced[1]) && Good(spaced[2]);
    assert Good(spaced[3]) && Good(spaced[4]) && Good(spaced[5]);
  }

  lemma {:induction false} SayGood(tag: Tag, a: Spaced)
    requires a.space == " " && a.attr.key in Keys(tag) && '"' !in a.attr.value
    ensures GoodAttr(tag, a)
  {
  }

  lemma {:induction false} LeafGood(e: Elem)
    requires e.empty && e.kids == [] && e.tail == "" && (e.gap == "" || e.gap == "\n")
    requires forall j :: 0 <= j < |e.attrs| ==> GoodAttr(e.tag, e.attrs[j])
    ensures Good(e)
  {
  }

  lemma {:induction false} AllKeys()
    ensures "name" in Keys(NodeTag) && "name" in Keys(InterfaceTag) && "name" in Keys(MethodTag)
    ensures "name" in Keys(SignalTag)
    ensures "name" in Keys(PropertyTag) && "type" in Keys(PropertyTag) && "access" in Keys(PropertyTag)
    ensures "name" in Keys(ArgTag) && "type" in Keys(ArgTag) && "direction" in Keys(ArgTag)
    ensures "name" in Keys(AnnotationTag) && "value" in Keys(AnnotationTag)
  {
    assert Keys(PropertyTag)[1] == "type" && Keys(PropertyTag)[2] == "access";
    assert Keys(ArgTag)[1] == "type" && Keys(ArgTag)[2] == "direction";
    assert Keys(AnnotationTag)[1] == "value";
  }

  lemma {:induction false} DocumentGood()
    ensures GoodDocument(DOCUMENT)
  {
    hide Keys;
    AllKeys();
    LeavesGood();
    assert Good(METHOD);
    assert Good(SIGNAL);
    assert Good(INTERFACE);
  }

  // ----- Results

  const ANNOTATION_DATA := Struct(map["name" := Str("k"), "value" := Str("v")])

  const IN_ARG_DATA :=
    Struct(map["name" := Str("x"), "type" := Str("i"), "direction" := Str("in"), "annotations" := List([])])

  const OUT_ARG_DATA :=
    Struct(map["name" := Str("y"), "type" := Str("u"), "direction" := Str("out"), "annotations" := List([])])

  const BARE_ARG_DATA :=
    Struct(map["name" := Str(""), "type" := Str("s"), "direction" := Str(""), "annotations" := List([])])

  const METHOD_DATA :=
    Struct(map["kind" := Str("method"), "in" := List([IN_ARG_DATA]), "out" := List([OUT_ARG_DATA]),
               "annotations" := List([ANNOTATION_DATA])])

  const SIGNAL_DATA :=
    Struct(map["kind" := Str("signal"), "args" := List([BARE_ARG_DATA]), "annotations" := List([])])

  const PROPERTY_DATA :=
    Struct(map["kind" := Str("property"), "type" := Str("as"), "access" := Str("read"), "annotations" := List([])])

  const INTERFACE_DATA :=
    Struct(map["members" := Struct(map["M" := METHOD_DATA, "S" := SIGNAL_DATA, "P" := PROPERTY_DATA]),
               "annotations" := List([ANNOTATION_DATA])])

  const CHILD_DATA := Struct(map["path" := Str("b"), "interfaces" := Struct(map[])])

  lemma {:induction false} AttrMapNext(attrs: seq<Spaced>, a: Spaced)
    ensures AttrMap(Plain(attrs + [a])) == AttrMap(Plain(attrs))[a.attr.key := a.attr.value]
  {
    var all := attrs + [a];
    PlainFront(all);
    assert all[..|all| - 1] == attrs;
    assert Plain(all)[..|Plain(all)| - 1] == Plain(attrs);
  }

  lemma {:induction false} AttrMapOne(a: Spaced)
    ensures AttrMap(Plain([a])) == map[a.attr.key := a.attr.value]
  {
    AttrMapNext([], a);
    assert [] + [a] == [a];
  }

  lemma {:induction false} AttrMapTwo(a: Spaced, b: Spaced)
    ensures AttrMap(Plain([a, b])) == map[a.attr.key := a.attr.value][b.attr.key := b.attr.value]
  {
    AttrMapOne(a);
    AttrMapNext([a], b);
    assert [a] + [b] == [a, b];
  }

  lemma {:induction false} AttrMapThree(a: Spaced, b: Spaced, c: Spaced)
    ensures AttrMap(Plain([a, b, c])) ==
      map[a.attr.key := a.attr.value][b.attr.key := b.attr.value][c.attr.key := c.attr.value]
  {
    AttrMapTwo(a, b);
    AttrMapNext([a, b], c);
    assert [a, b] + [c] == [a, b, c];
  }

  lemma {:induction false} FoldKid(e: Elem, es: seq<Elem>, d: Data, ds: seq<Data>)
    requires Fold(e) == Ok(d) && FoldAll(es) == OkAll(ds)
    ensures FoldAll([e] + es) == OkAll([d] + ds)
  {
    assert ([e] + es)[1..] == es;
  }

  lemma {:induction false} FoldNone()
    ensures FoldAll([]) == OkAll([])
  {
  }

  lemma {:induction false} FoldLastKid(e: Elem, d: Data)
    requires Fold(e) == Ok(d)
    ensures FoldAll([e]) == OkAll([d])
  {
    FoldNone();
    FoldKid(e, [], d, []);
    assert [e] + [] == [e] && [d] + [] == [d];
  }

  lemma {:induction false} FilterNext(d: Data, ds: seq<Data>, test: Test)
    ensures Filter([d] + ds, test) == (if Passes(test, d) then [d] else []) + Filter(ds, test)
  {
    assert ([d] + ds)[1..] == ds;
  }

  lemma {:induction false} MergeNext(m: map<string, Data>, ds: seq<Data>)
    ensures Merge([Struct(m)] + ds) == m + Merge(ds)
  {
    assert ([Struct(m)] + ds)[1..] == ds;
  }

  lemma {:induction false} LeavesBuilt()
    ensures Fold(ANNOTATION) == Ok(ANNOTATION_DATA)
    ensures Fold(IN_ARG) == Ok(IN_ARG_DATA) && Fold(OUT_ARG) == Ok(OUT_ARG_DATA) && Fold(BARE_ARG) == Ok(BARE_ARG_DATA)
  {
    hide Fold, AttrMap, Plain;
    AttrMapTwo(ANNOTATION.attrs[0], ANNOTATION.attrs[1]);
    AttrMapThree(IN_ARG.attrs[0], IN_ARG.attrs[1], IN_ARG.attrs[2]);
    AttrMapThree(OUT_ARG.attrs[0], OUT_ARG.attrs[1], OUT_ARG.attrs[2]);
    AttrMapOne(BARE_ARG.attrs[0]);
    FoldNoKids(ANNOTATION);
    FoldNoKids(IN_ARG);
    FoldNoKids(OUT_ARG);
    FoldNoKids(BARE_ARG);
  }

  lemma {:induction false} FilterThree(a: Data, b: Data, c: Data, test: Test)
    ensures Filter([a, b, c], test) ==
      (if Passes(test, a) then [a] else [])
      + ((if Passes(test, b) then [b] else []) + (if Passes(test, c) then [c] else []))
  {
    hide Passes;
    FilterNext(c, [], test);
    FilterNext(b, [c], test);
    FilterNext(a, [b, c], test);
    assert [c] + [] == [c] && [b] + [c] == [b, c] && [a] + [b, c] == [a, b, c];
    assert Filter([], test) == [];
  }

  lemma {:induction false} MethodBuilt()
    ensures Fold(METHOD) == Ok(Struct(map["M" := METHOD_DATA]))
  {
    hide Fold, FoldAll, AttrMap, Plain, Filter;
    LeavesBuilt();
    FoldLastKid(OUT_ARG, OUT_ARG_DATA);
    FoldKid(IN_ARG, [OUT_ARG], IN_ARG_DATA, [OUT_ARG_DATA]);
    assert [IN_ARG] + [OUT_ARG] == [IN_ARG, OUT_ARG] && [IN_ARG_DATA] + [OUT_ARG_DATA] == [IN_ARG_DATA, OUT_ARG_DATA];
    FoldKid(ANNOTATION, [IN_ARG, OUT_ARG], ANNOTATION_DATA, [IN_ARG_DATA, OUT_ARG_DATA]);
    assert [ANNOTATION] + [IN_ARG, OUT_ARG] == METHOD.kids;
    assert [ANNOTATION_DATA] + [IN_ARG_DATA, OUT_ARG_DATA] == [ANNOTATION_DATA, IN_ARG_DATA, OUT_ARG_DATA];
    AttrMapOne(METHOD.attrs[0]);
    FoldKids(METHOD);
    MethodLists();
  }

  lemma {:induction false} MethodLists()
    ensures var kids := [ANNOTATION_DATA, IN_ARG_DATA, OUT_ARG_DATA];
      && Filter(kids, DirectionIs("in")) == [IN_ARG_DATA] && Filter(kids, DirectionIs("out")) == [OUT_ARG_DATA]
      && Filter(kids, NoDirection) == [ANNOTATION_DATA]
  {
    hide Filter;
    FilterThree(ANNOTATION_DATA, IN_ARG_DATA, OUT_ARG_DATA, DirectionIs("in"));
    FilterThree(ANNOTATION_DATA, IN_ARG_DATA, OUT_ARG_DATA, DirectionIs("out"));
    FilterThree(ANNOTATION_DATA, IN_ARG_DATA, OUT_ARG_DATA, NoDirection);
    assert "in" != "out";
  }

  lemma {:induction false} SignalBuilt()
    ensures Fold(SIGNAL) == Ok(Struct(map["S" := SIGNAL_DATA]))
  {
    hide Fold, FoldAll, AttrMap, Plain, Filter;
    LeavesBuilt();
    FoldLastKid(BARE_ARG, BARE_ARG_DATA);
    AttrMapOne(SIGNAL.attrs[0]);
    FoldKids(SIGNAL);
    FilterNext(BARE_ARG_DATA, [], WithType);
    FilterNext(BARE_ARG_DATA, [], NoDirection);
    assert [BARE_ARG_DATA] + [] == [BARE_ARG_DATA];
    FilterNothing(WithType);
    FilterNothing(NoDirection);
  }

  lemma {:induction false} FilterNothing(test: Test)
    ensures Filter([], test) == []
  {
  }

  lemma {:induction false} PropertyBuilt()
    ensures Fold(PROPERTY) == Ok(Struct(map["P" := PROPERTY_DATA]))
  {
    hide Fold, AttrMap, Plain;
    AttrMapThree(PROPERTY.attrs[0], PROPERTY.attrs[1], PROPERTY.attrs[2]);
    FoldNoKids(PROPERTY);
  }

  lemma {:induction false} InterfaceBuilt()
    ensures Fold(INTERFACE) == Ok(Struct(map["I" := INTERFACE_DATA]))
  {
    hide Fold, FoldAll, AttrMap, Plain, Filter, Merge;
    InterfaceKids();
    AttrMapOne(INTERFACE.attrs[0]);
    FoldKids(INTERFACE);
    InterfaceLists(METHOD_DATA, SIGNAL_DATA, PROPERTY_DATA);
    assert map["members" := Struct(map["M" := METHOD_DATA, "S" := SIGNAL_DATA, "P" := PROPERTY_DATA])]
      + map["annotations" := List([ANNOTATION_DATA])] == INTERFACE_DATA.m;
  }

  lemma {:induction false} InterfaceKids()
    ensures FoldAll(INTERFACE.kids) == OkAll(
      [Struct(map["M" := METHOD_DATA]), Struct(map["S" := SIGNAL_DATA]), Struct(map["P" := PROPERTY_DATA]),
       ANNOTATION_DATA])
  {
    hide Fold, FoldAll, AttrMap, Plain, Filter, Merge;
    MethodBuilt();
    SignalBuilt();
    PropertyBuilt();
    LeavesBuilt();
    var m, s := Struct(map["M" := METHOD_DATA]), Struct(map["S" := SIGNAL_DATA]);
    var p, a := Struct(map["P" := PROPERTY_DATA]), ANNOTATION_DATA;
    FoldLastKid(ANNOTATION, a);
    FoldKid(PROPERTY, [ANNOTATION], p, [a]);
    assert [PROPERTY] + [ANNOTATION] == [PROPERTY, ANNOTATION] && [p] + [a] == [p, a];
    FoldKid(SIGNAL, [PROPERTY, ANNOTATION], s, [p, a]);
    assert [SIGNAL] + [PROPERTY, ANNOTATION] == [SIGNAL, PROPERTY, ANNOTATION] && [s] + [p, a] == [s, p, a];
    FoldKid(METHOD, [SIGNAL, PROPERTY, ANNOTATION], m, [s, p, a]);
    assert [METHOD] + [SIGNAL, PROPERTY, ANNOTATION] == INTERFACE.kids && [m] + [s, p, a] == [m, s, p, a];
  }

  /** Whatever the three members are, the members and the annotation are told apart. */
  lemma {:induction false} InterfaceLists(md: Data, sd: Data, pd: Data)
    requires md.Struct? && sd.Struct? && pd.Struct?
    ensures var m, s, p := Struct(map["M" := md]), Struct(map["S" := sd]), Struct(map["P" := pd]);
      var kids := [m, s, p, ANNOTATION_DATA];
      && Merge(Filter(kids, Member)) == map["M" := md, "S" := sd, "P" := pd]
      && Filter(kids, NoMember) == [ANNOTATION_DATA]
  {
    hide Filter, Merge, HoldsStruct;
    var m, s, p := Struct(map["M" := md]), Struct(map["S" := sd]), Struct(map["P" := pd]);
    var a := ANNOTATION_DATA;
    OneValue("M", md);
    OneValue("S", sd);
    OneValue("P", pd);
    TwoTexts();
    FilterThree(s, p, a, Member);
    FilterThree(s, p, a, NoMember);
    FilterNext(m, [s, p, a], Member);
    FilterNext(m, [s, p, a], NoMember);
    assert [m] + [s, p, a] == [m, s, p, a];
    assert Filter([m, s, p, a], Member) == [m, s, p];
    assert Filter([m, s, p, a], NoMember) == [a];
    MergeThree("M", md, "S", sd, "P", pd);
  }

  lemma {:induction false} OneValue(name: string, d: Data)
    requires d.Struct?
    ensures HoldsStruct(Struct(map[name := d]))
  {
    assert name in map[name := d];
  }

  lemma {:induction false} TwoTexts()
    ensures !HoldsStruct(ANNOTATION_DATA)
  {
  }

  lemma {:induction false} MergeThree(a: string, x: Data, b: string, y: Data, c: string, z: Data)
    requires a != b && b != c && a != c
    ensures Merge([Struct(map[a := x]), Struct(map[b := y]), Struct(map[c := z])]) == map[a := x, b := y, c := z]
  {
    hide Merge;
    var k, l, m := map[a := x], map[b := y], map[c := z];
    MergeNothing();
    MergeNext(m, []);
    MergeNext(l, [Struct(m)]);
    MergeNext(k, [Struct(l), Struct(m)]);
    assert [Struct(m)] + [] == [Struct(m)] && [Struct(l)] + [Struct(m)] == [Struct(l), Struct(m)];
    assert [Struct(k)] + [Struct(l), Struct(m)] == [Struct(k), Struct(l), Struct(m)];
  }

  lemma {:induction false} MergeNothing()
    ensures Merge([]) == map[]
  {
  }

  lemma {:induction false} ChildBuilt()
    ensures Fold(CHILD) == Ok(CHILD_DATA)
  {
    hide Fold, AttrMap, Plain;
    AttrMapOne(CHILD.attrs[0]);
    FoldNoKids(CHILD);
    assert CHILD_DATA.m + map[] == CHILD_DATA.m;
  }

  lemma {:induction false} NodeBuilt()
    ensures Fold(NODE) == Ok(Struct(map[
      "path" := Str("/a"), "interfaces" := Struct(map["I" := INTERFACE_DATA]), "children" := List([CHILD_DATA])]))
  {
    hide Fold, FoldAll, AttrMap, Plain, Filter, Merge;
    InterfaceBuilt();
    ChildBuilt();
    var i, c := Struct(map["I" := INTERFACE_DATA]), CHILD_DATA;
    FoldLastKid(CHILD, c);
    FoldKid(INTERFACE, [CHILD], i, [c]);
    assert [INTERFACE] + [CHILD] == NODE.kids && [i] + [c] == [i, c];
    AttrMapOne(NODE.attrs[0]);
    FoldKids(NODE);
    NodeLists(INTERFACE_DATA);
    assert map["path" := Str("/a"), "interfaces" := Struct(map["I" := INTERFACE_DATA])] + map["children" := List([c])]
      == map["path" := Str("/a"), "interfaces" := Struct(map["I" := INTERFACE_DATA]), "children" := List([c])];
  }

  lemma {:induction false} NodeLists(d: Data)
    ensures var kids := [Struct(map["I" := d]), CHILD_DATA];
      Merge(Filter(kids, NoPath)) == map["I" := d] && Filter(kids, WithPath) == [CHILD_DATA]
  {
    hide Filter, Merge;
    var i, c := Struct(map["I" := d]), CHILD_DATA;
    FilterNothing(NoPath);
    FilterNothing(WithPath);
    FilterNext(c, [], NoPath);
    FilterNext(c, [], WithPath);
    FilterNext(i, [c], NoPath);
    FilterNext(i, [c], WithPath);
    assert [c] + [] == [c] && [i] + [c] == [i, c];
    MergeNothing();
    MergeNext(map["I" := d], []);
    assert [i] + [] == [i];
  }

  /** The whole of what parse-xml makes of the document. */
  lemma {:induction false} DocumentResult(destination: string, path: string)
    ensures ParseXml(DOCUMENT_XML, destination, path) == Found(Struct(map[
      "destination" := Str(destination), "path" := Str(path),
      "interfaces" := Struct(map["I" := INTERFACE_DATA]), "children" := List([CHILD_DATA])]))
  {
    hide ParseXml, Fold, PrintDocument, GoodDocument;
    DocumentText();
    DocumentGood();
    NodeBuilt();
    ParseComplete(DOCUMENT, destination, path);
    NodeResult("/a", Struct(map["I" := INTERFACE_DATA]), List([CHILD_DATA]), destination, path);
  }

  lemma {:induction false} NodeResult(name: string, ifaces: Data, children: Data, destination: string, path: string)
    ensures Result(Struct(map["path" := Str(name), "interfaces" := ifaces, "children" := children]), destination, path)
      == Struct(map["destination" := Str(destination), "path" := Str(path),
                    "interfaces" := ifaces, "children" := children])
  {
  }

  // ----- An interface called "path"

  const PATH_XML := "<node" + ">" + ("<interface" + " name=\"path\"" + "/>") + "</node>"

  const PATH_INTERFACE := Elem(InterfaceTag, [Say("name", "path")], true, "", [], "")

  const PATH_DOCUMENT := Document(NoHeader, Elem(NodeTag, [], false, "", [PATH_INTERFACE], ""))

  const PATH_DATA := Struct(map["path" := Struct(map["members" := Struct(map[])])])

  /** The interface of this document lands under :children and is lost from :interfaces. */
  lemma {:induction false} PathInterfaceLost(destination: string, path: string)
    ensures ParseXml(PATH_XML, destination, path) == Found(Struct(map[
      "destination" := Str(destination), "path" := Str(path),
      "interfaces" := Struct(map[]), "children" := List([PATH_DATA])]))
  {
    hide ParseXml, Fold, PrintDocument, GoodDocument;
    PathPrinted();
    PathBuilt();
    ParseComplete(PATH_DOCUMENT, destination, path);
    NodeResult("", Struct(map[]), List([PATH_DATA]), destination, path);
  }

  lemma {:induction false} PathPrinted()
    ensures PrintDocument(PATH_DOCUMENT) == PATH_XML && GoodDocument(PATH_DOCUMENT)
  {
    hide Print, PrintAll, PrintAttrs;
    PathGood();
    PrintOneAttr("name", "path", " name=\"path\"");
    PrintEmpty(PATH_INTERFACE, "<interface", " name=\"path\"", "/>");
    PrintLastKid(PATH_INTERFACE);
    PrintNoAttrs();
    PrintFull(PATH_DOCUMENT.root, "<node", "", ">", "<interface" + " name=\"path\"" + "/>", "</node>");
    assert "<node" + "" == "<node" && "" + PATH_XML == PATH_XML;
  }

  lemma {:induction false} PathGood()
    ensures GoodDocument(PATH_DOCUMENT)
  {
    hide Keys;
    AllKeys();
    assert Good(PATH_INTERFACE);
  }

  lemma {:induction false} PrintNoAttrs()
    ensures PrintAttrs([]) == ""
  {
  }

  lemma {:induction false} PathBuilt()
    ensures Fold(PATH_DOCUMENT.root) == Ok(Struct(map[
      "path" := Str(""), "interfaces" := Struct(map[]), "children" := List([PATH_DATA])]))
  {
    hide Fold, FoldAll, AttrMap, Plain, Filter;
    AttrMapOne(PATH_INTERFACE.attrs[0]);
    FoldNoKids(PATH_INTERFACE);
    FilterNothing(Member);
    FilterNothing(NoMember);
    assert map["members" := Struct(map[])] + map[] == map["members" := Struct(map[])];
    FoldLastKid(PATH_INTERFACE, PATH_DATA);
    FoldKids(PATH_DOCUMENT.root);
    NoAttrs();
    FilterNothing(NoPath);
    FilterNothing(WithPath);
    FilterNext(PATH_DATA, [], NoPath);
    FilterNext(PATH_DATA, [], WithPath);
    assert [PATH_DATA] + [] == [PATH_DATA];
    assert map["path" := Str(""), "interfaces" := Struct(map[])] + map["children" := List([PATH_DATA])] ==
      map["path" := Str(""), "interfaces" := Struct(map[]), "children" := List([PATH_DATA])];
  }

  lemma {:induction false} NoAttrs()
    ensures AttrMap(Plain([])) == map[]
  {
  }
}
