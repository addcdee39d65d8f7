/** What the struct builders of introspect.janet say about a document: the tests they make on
    already built data sort children exactly by their tags. */
module Summaries {
  import opened Options
  import opened Introspect
  import opened Documents

  /** The value of the last attribute of that name. */
  ghost function Given(attrs: seq<Spaced>, key: string): Option<string> {
    if attrs == [] then None
    else
      var last := attrs[|attrs| - 1].attr;
      if last.key == key then Some(last.value) else Given(attrs[..|attrs| - 1], key)
  }

  /** The same, empty if the attribute is missing. */
  ghost function GivenOr(attrs: seq<Spaced>, key: string): string {
    if Given(attrs, key).Some? then Given(attrs, key).value else ""
  }

  lemma {:induction false} AttrMapGives(attrs: seq<Spaced>, key: string)
    ensures var m := AttrMap(Plain(attrs)); Given(attrs, key) == if key in m then Some(m[key]) else None
  {
    if attrs != [] {
      AttrMapGives(attrs[..|attrs| - 1], key);
      PlainFront(attrs);
      var plain := Plain(attrs);
      assert plain[..|plain| - 1] == Plain(attrs[..|attrs| - 1]);
    }
  }

  /** What the builders see of an element's attributes. */
  lemma {:induction false} AttrsGiven(e: Elem)
    ensures var m := AttrMap(Plain(e.attrs));
      forall key :: key in m <==> Given(e.attrs, key).Some?
    ensures var m := AttrMap(Plain(e.attrs));
      forall key :: key in m ==> Given(e.attrs, key) == Some(m[key])
  {
    hide AttrMap, Plain, Given;
    forall key ensures var m := AttrMap(Plain(e.attrs));
      Given(e.attrs, key) == if key in m then Some(m[key]) else None
    {
      AttrMapGives(e.attrs, key);
    }
  }

  /** All children were built. */
  ghost predicate Folds(es: seq<Elem>) {
    forall i :: 0 <= i < |es| ==> Fold(es[i]).Ok?
  }

  /** Ways to select children by what they are in the document. An interface called "path" is not
      tabled with the others but filed among the child nodes. */
  datatype Kin = Args | ArgsTo(dir: string) | Annotations | Members | Interfaces | Tabled | Filed

  ghost predicate Is(kin: Kin, e: Elem) {
    match kin
    case Args => e.tag == ArgTag
    case ArgsTo(dir) => e.tag == ArgTag && GivenOr(e.attrs, "direction") == dir
    case Annotations => e.tag == AnnotationTag
    case Members => e.tag == MethodTag || e.tag == SignalTag || e.tag == PropertyTag
    case Interfaces => e.tag == InterfaceTag
    case Tabled => e.tag == InterfaceTag && NameOf(e) != "path"
    case Filed => e.tag == NodeTag || (e.tag == InterfaceTag && NameOf(e) == "path")
  }

  /** What was built of the selected children, in document order. */
  ghost function Listed(es: seq<Elem>, p: Kin): seq<Data>
    requires Folds(es)
  {
    if es == [] then []
    else
      assert Folds(es[1..]) by { FoldsTail(es); }
      (if Is(p, es[0]) then [Fold(es[0]).d] else []) + Listed(es[1..], p)
  }

  lemma FoldsTail(es: seq<Elem>)
    requires es != [] && Folds(es)
    ensures Folds(es[1..])
  {
  }

  lemma {:induction false} FoldAllOk(es: seq<Elem>)
    requires FoldAll(es).OkAll?
    ensures Folds(es) && |FoldAll(es).ds| == |es|
    ensures forall i :: 0 <= i < |es| ==> FoldAll(es).ds[i] == Fold(es[i]).d
  {
    hide Fold;
    if es != [] {
      FoldAllOk(es[1..]);
      forall i | 0 <= i < |es| ensures Fold(es[i]).Ok? && FoldAll(es).ds[i] == Fold(es[i]).d {
        if i > 0 { assert es[i] == es[1..][i - 1]; }
      }
    }
  }

  /** A test on built data that agrees with a test on elements selects the same children. */
  lemma {:induction false} FilterIsListed(es: seq<Elem>, q: Test, p: Kin)
    requires FoldAll(es).OkAll? && Folds(es)
    requires forall i :: 0 <= i < |es| ==> (Passes(q, Fold(es[i]).d) <==> Is(p, es[i]))
    ensures Filter(FoldAll(es).ds, q) == Listed(es, p)
  {
    hide Fold;
    if es != [] {
      FoldsTail(es);
      assert FoldAll(es).ds[1..] == FoldAll(es[1..]).ds;
      forall i | 0 <= i < |es| - 1 ensures Passes(q, Fold(es[1..][i]).d) <==> Is(p, es[1..][i]) {
        assert es[1..][i] == es[i + 1];
      }
      FilterIsListed(es[1..], q, p);
    }
  }

  // ----- What each kind of child looks like once built

  lemma {:induction false} BuiltKid(e: Elem)
    requires Fold(e).Ok?
    ensures var d := Fold(e).d;
      match e.tag
      case ArgTag =>
        Get(d, "direction") == Some(Str(GivenOr(e.attrs, "direction"))) && Passes(WithType, d) && Passes(NoMember, d)
      case AnnotationTag => Passes(NoDirection, d) && !Passes(WithType, d) && Passes(NoMember, d)
      case NodeTag => Passes(WithPath, d)
      case _ => Named(e) && Passes(Member, d) && (Passes(WithPath, d) <==> NameOf(e) == "path")
  {
    hide AttrMap, Plain, Given;
    AttrsGiven(e);
  }

  ghost function NameOf(e: Elem): string {
    GivenOr(e.attrs, "name")
  }

  /** A child that was built into a single entry under its own name. */
  ghost predicate Named(e: Elem) {
    Fold(e).Ok? && Fold(e).d.Struct? && Given(e.attrs, "name").Some? && Fold(e).d.m.Keys == {NameOf(e)}
  }

  /** What was built of a named child, without its name. */
  ghost function Body(e: Elem): Data
    requires Named(e)
  {
    Fold(e).d.m[NameOf(e)]
  }

  // ----- Arguments and annotations

  /** An argument is built of its own name, type and direction. */
  lemma {:induction false} ArgSummary(e: Elem)
    requires Good(e) && e.tag == ArgTag && Fold(e).Ok?
    ensures Given(e.attrs, "type").Some?
    ensures Fold(e).d == Struct(map[
      "name" := Str(GivenOr(e.attrs, "name")),
      "type" := Str(Given(e.attrs, "type").value),
      "direction" := Str(GivenOr(e.attrs, "direction")),
      "annotations" := List([])])
  {
    hide AttrMap, Plain, Given;
    FoldNoKids(e);
    AttrsGiven(e);
  }

  lemma {:induction false} AnnotationSummary(e: Elem)
    requires Good(e) && e.tag == AnnotationTag && Fold(e).Ok?
    ensures Given(e.attrs, "name").Some? && Given(e.attrs, "value").Some?
    ensures Fold(e).d == Struct(map[
      "name" := Str(Given(e.attrs, "name").value), "value" := Str(Given(e.attrs, "value").value)])
  {
    hide AttrMap, Plain, Given;
    FoldNoKids(e);
    AttrsGiven(e);
  }

  // ----- Members

  /** A method's arguments by their explicit direction and its annotations, each in document order. */
  lemma {:induction false} MethodSummary(e: Elem)
    requires Good(e) && e.tag == MethodTag && Fold(e).Ok?
    ensures Named(e) && Folds(e.kids)
    ensures Body(e) == Struct(map[
      "kind" := Str("method"),
      "in" := List(Listed(e.kids, ArgsTo("in"))),
      "out" := List(Listed(e.kids, ArgsTo("out"))),
      "annotations" := List(Listed(e.kids, Annotations))])
  {
    hide Filter, Listed, AttrMap, Plain, FoldAll, Given;
    AttrsGiven(e);
    FoldKids(e);
    FoldAllOk(e.kids);
    forall i | 0 <= i < |e.kids|
      ensures Passes(DirectionIs("in"), Fold(e.kids[i]).d) <==> Is(ArgsTo("in"), e.kids[i])
      ensures Passes(DirectionIs("out"), Fold(e.kids[i]).d) <==> Is(ArgsTo("out"), e.kids[i])
      ensures Passes(NoDirection, Fold(e.kids[i]).d) <==> Is(Annotations, e.kids[i])
    {
      BuiltKid(e.kids[i]);
    }
    FilterIsListed(e.kids, DirectionIs("in"), ArgsTo("in"));
    FilterIsListed(e.kids, DirectionIs("out"), ArgsTo("out"));
    FilterIsListed(e.kids, NoDirection, Annotations);
  }

  lemma {:induction false} SignalSummary(e: Elem)
    requires Good(e) && e.tag == SignalTag && Fold(e).Ok?
    ensures Named(e) && Folds(e.kids)
    ensures Body(e) == Struct(map[
      "kind" := Str("signal"),
      "args" := List(Listed(e.kids, Args)),
      "annotations" := List(Listed(e.kids, Annotations))])
  {
    hide Filter, Listed, AttrMap, Plain, FoldAll, Given;
    AttrsGiven(e);
    FoldKids(e);
    FoldAllOk(e.kids);
    forall i | 0 <= i < |e.kids|
      ensures Passes(WithType, Fold(e.kids[i]).d) <==> Is(Args, e.kids[i])
      ensures Passes(NoDirection, Fold(e.kids[i]).d) <==> Is(Annotations, e.kids[i])
    {
      BuiltKid(e.kids[i]);
    }
    FilterIsListed(e.kids, WithType, Args);
    FilterIsListed(e.kids, NoDirection, Annotations);
  }

  lemma {:induction false} PropertySummary(e: Elem)
    requires Good(e) && e.tag == PropertyTag && Fold(e).Ok?
    ensures Named(e) && Folds(e.kids) && Given(e.attrs, "type").Some? && Given(e.attrs, "access").Some?
    ensures Body(e) == Struct(map[
      "kind" := Str("property"),
      "type" := Str(Given(e.attrs, "type").value),
      "access" := Str(Given(e.attrs, "access").value),
      "annotations" := List(Listed(e.kids, Annotations))])
  {
    hide Listed, AttrMap, Plain, FoldAll, Given;
    AttrsGiven(e);
    FoldKids(e);
    FoldAllOk(e.kids);
    ListedAll(e.kids, Annotations);
  }

  lemma {:induction false} ListedAll(es: seq<Elem>, p: Kin)
    requires FoldAll(es).OkAll? && Folds(es) && forall i :: 0 <= i < |es| ==> Is(p, es[i])
    ensures Listed(es, p) == FoldAll(es).ds
  {
    hide Fold, Is;
    if es != [] {
      FoldsTail(es);
      ListedAll(es[1..], p);
    }
  }

  /** The builder of interfaces looks at the first value of a child to tell members from
      annotations. All values of a child agree in this, so it does not matter which comes first. */
  lemma {:induction false} AnyValueDecides(e: Elem, k: string)
    requires e.tag in Children(InterfaceTag) && Fold(e).Ok?
    ensures Fold(e).d.Struct? && Fold(e).d.m.Keys != {}
    ensures HoldsStruct(Fold(e).d) <==> Is(Members, e)
    ensures k in Fold(e).d.m ==> (Fold(e).d.m[k].Struct? <==> Is(Members, e))
  {
    BuiltKid(e);
    if e.tag == AnnotationTag {
      assert Fold(e).d.m.Keys == {"name", "value"};
    }
  }

  // ----- Interfaces and nodes

  /** The child is selected and no later selected child has its name. */
  ghost predicate Last(es: seq<Elem>, p: Kin, i: nat) {
    i < |es| && Is(p, es[i]) && forall j :: i < j < |es| && Is(p, es[j]) ==> NameOf(es[j]) != NameOf(es[i])
  }

  /** Of every name, the last selected child is in the table. */
  ghost predicate Holds(m: map<string, Data>, es: seq<Elem>, p: Kin) {
    forall i: nat :: Last(es, p, i) ==> Named(es[i]) && NameOf(es[i]) in m && m[NameOf(es[i])] == Body(es[i])
  }

  /** Nothing else is in the table. */
  ghost predicate HoldsOnly(m: map<string, Data>, es: seq<Elem>, p: Kin) {
    forall n :: n in m ==> exists i :: 0 <= i < |es| && Is(p, es[i]) && NameOf(es[i]) == n
  }

  ghost predicate Tabulates(m: map<string, Data>, es: seq<Elem>, p: Kin) {
    Holds(m, es, p) && HoldsOnly(m, es, p)
  }

  /** Merging children keeps the last one of every name, and adds nothing. */
  lemma {:induction false} MergeTabulates(es: seq<Elem>, p: Kin)
    requires Folds(es)
    requires forall i :: 0 <= i < |es| && Is(p, es[i]) ==> Named(es[i])
    ensures Tabulates(Merge(Listed(es, p)), es, p)
  {
    hide Fold, Is, NameOf, Listed, Merge, Holds, HoldsOnly;
    if es == [] {
      ListedNil(p);
    } else {
      FoldsTail(es);
      assert forall i :: 0 <= i < |es| - 1 ==> es[1..][i] == es[i + 1];
      MergeTabulates(es[1..], p);
      MergeStep(es, p);
      OneMore(es, p, Merge(Listed(es[1..], p)));
    }
  }

  lemma {:induction false} OneMore(es: seq<Elem>, p: Kin, tail: map<string, Data>)
    requires es != [] && Tabulates(tail, es[1..], p) && (Is(p, es[0]) ==> Named(es[0]))
    ensures Tabulates(if Is(p, es[0]) then Fold(es[0]).d.m + tail else tail, es, p)
  {
    hide Fold, Is, NameOf, Named, Tabulates;
    var m := if Is(p, es[0]) then (NamedStruct(es[0]); Fold(es[0]).d.m + tail) else tail;
    HoldsMore(es, p, tail);
    OnlyMore(es, p, tail);
    assert Tabulates(m, es, p) by { BothTabulate(m, es, p); }
  }

  lemma {:induction false} NamedStruct(e: Elem)
    requires Named(e)
    ensures Fold(e).Ok? && Fold(e).d.Struct? && Fold(e).d.m.Keys == {NameOf(e)} && Fold(e).d.m[NameOf(e)] == Body(e)
  {
  }

  lemma {:induction false} BothTabulate(m: map<string, Data>, es: seq<Elem>, p: Kin)
    requires Holds(m, es, p) && HoldsOnly(m, es, p)
    ensures Tabulates(m, es, p)
  {
  }

  lemma {:induction false} HoldsMore(es: seq<Elem>, p: Kin, tail: map<string, Data>)
    requires es != [] && Tabulates(tail, es[1..], p) && (Is(p, es[0]) ==> Named(es[0]))
    ensures Holds(if Is(p, es[0]) then Fold(es[0]).d.m + tail else tail, es, p)
  {
    hide Fold, Is, NameOf, Named, Body;
    if Is(p, es[0]) { NamedStruct(es[0]); }
    var m := if Is(p, es[0]) then Fold(es[0]).d.m + tail else tail;
    forall i: nat | Last(es, p, i)
      ensures Named(es[i]) && NameOf(es[i]) in m && m[NameOf(es[i])] == Body(es[i])
    {
      if i > 0 {
        assert es[1..][i - 1] == es[i];
        assert Last(es[1..], p, i - 1) by {
          forall j | i - 1 < j < |es| - 1 && Is(p, es[1..][j]) ensures NameOf(es[1..][j]) != NameOf(es[i]) {
            assert es[1..][j] == es[j + 1];
          }
        }
      } else {
        LastNotAgain(es, p, tail);
      }
    }
  }

  lemma {:induction false} LastNotAgain(es: seq<Elem>, p: Kin, tail: map<string, Data>)
    requires es != [] && HoldsOnly(tail, es[1..], p) && Last(es, p, 0)
    ensures NameOf(es[0]) !in tail
  {
    hide Is, NameOf;
    assert forall j :: 0 <= j < |es| - 1 ==> es[1..][j] == es[j + 1];
  }

  lemma {:induction false} OnlyMore(es: seq<Elem>, p: Kin, tail: map<string, Data>)
    requires es != [] && Tabulates(tail, es[1..], p) && (Is(p, es[0]) ==> Named(es[0]))
    ensures HoldsOnly(if Is(p, es[0]) then Fold(es[0]).d.m + tail else tail, es, p)
  {
    hide Fold, Is, NameOf, Named, Body, Holds;
    if Is(p, es[0]) { NamedStruct(es[0]); }
    forall n | n in tail ensures exists i :: 0 <= i < |es| && Is(p, es[i]) && NameOf(es[i]) == n {
      var j :| 0 <= j < |es| - 1 && Is(p, es[1..][j]) && NameOf(es[1..][j]) == n;
      assert es[j + 1] == es[1..][j];
    }
  }

  lemma {:induction false} ListedNil(p: Kin)
    ensures Folds([]) && Tabulates(Merge(Listed([], p)), [], p)
  {
  }

  lemma {:induction false} MergeStep(es: seq<Elem>, p: Kin)
    requires es != [] && Folds(es) && Folds(es[1..]) && (Is(p, es[0]) ==> Named(es[0]))
    ensures var tail := Merge(Listed(es[1..], p));
      Merge(Listed(es, p)) == if Is(p, es[0]) then Fold(es[0]).d.m + tail else tail
  {
    hide Fold, AttrMap, Plain, Is;
    if Is(p, es[0]) {
      assert Listed(es, p) == [Fold(es[0]).d] + Listed(es[1..], p);
      assert Listed(es, p)[1..] == Listed(es[1..], p);
    } else {
      assert Listed(es, p) == Listed(es[1..], p);
    }
  }

  /** An interface's members are its methods, signals and properties, each under its name; of
      several with one name the last is kept. */
  lemma {:induction false} InterfaceSummary(e: Elem)
    requires Good(e) && e.tag == InterfaceTag && Fold(e).Ok?
    ensures Named(e) && Folds(e.kids)
    ensures Body(e).Struct? && "members" in Body(e).m && Body(e).m["members"].Struct?
    ensures Tabulates(Body(e).m["members"].m, e.kids, Members)
    ensures Listed(e.kids, Annotations) == [] ==> Body(e).m.Keys == {"members"}
    ensures Listed(e.kids, Annotations) != [] ==>
      Body(e).m.Keys == {"members", "annotations"} && Body(e).m["annotations"] == List(Listed(e.kids, Annotations))
  {
    hide Filter, Listed, AttrMap, Plain, FoldAll, Merge, Tabulates, Given;
    AttrsGiven(e);
    FoldKids(e);
    FoldAllOk(e.kids);
    forall i | 0 <= i < |e.kids|
      ensures Passes(Member, Fold(e.kids[i]).d) <==> Is(Members, e.kids[i])
      ensures Passes(NoMember, Fold(e.kids[i]).d) <==> Is(Annotations, e.kids[i])
      ensures Is(Members, e.kids[i]) ==> Named(e.kids[i])
    {
      BuiltKid(e.kids[i]);
    }
    FilterIsListed(e.kids, Member, Members);
    FilterIsListed(e.kids, NoMember, Annotations);
    MergeTabulates(e.kids, Members);
  }

  ghost predicate SomeInterfaceCalledPath(es: seq<Elem>) {
    exists i :: 0 <= i < |es| && es[i].tag == InterfaceTag && NameOf(es[i]) == "path"
  }

  /** Child nodes and interfaces are told apart, exactly unless an interface is called "path". */
  lemma {:induction false} NodeGroups(e: Elem)
    requires Good(e) && e.tag == NodeTag && Fold(e).Ok?
    ensures Folds(e.kids)
    ensures (forall i :: 0 <= i < |e.kids| ==> (Passes(NoPath, Fold(e.kids[i]).d) <==> Is(Interfaces, e.kids[i])))
      <==> !SomeInterfaceCalledPath(e.kids)
  {
    hide Filter, AttrMap, Plain, FoldAll, Merge;
    FoldKids(e);
    FoldAllOk(e.kids);
    forall i | 0 <= i < |e.kids|
      ensures Passes(NoPath, Fold(e.kids[i]).d) <==> Is(Interfaces, e.kids[i]) && NameOf(e.kids[i]) != "path"
    {
      BuiltKid(e.kids[i]);
    }
  }

  /** How a child of a node is grouped. */
  lemma {:induction false} GroupedKid(e: Elem)
    requires e.tag in Children(NodeTag) && Fold(e).Ok?
    ensures Passes(NoPath, Fold(e).d) <==> Is(Tabled, e)
    ensures Passes(WithPath, Fold(e).d) <==> Is(Filed, e)
    ensures Is(Tabled, e) ==> Named(e)
  {
    hide Given, AttrMap, Plain, FoldAll;
    BuiltKid(e);
  }

  /** A node's interfaces, each under its name (of several with one name the last), and its child
      nodes in document order; interfaces called "path" are filed among the latter. */
  lemma {:induction false} NodeSummary(e: Elem)
    requires Good(e) && e.tag == NodeTag && Fold(e).Ok?
    ensures Folds(e.kids)
    ensures Fold(e).d.Struct? && "path" in Fold(e).d.m && "interfaces" in Fold(e).d.m
    ensures Fold(e).d.m["path"] == Str(GivenOr(e.attrs, "name"))
    ensures Fold(e).d.m["interfaces"].Struct? && Tabulates(Fold(e).d.m["interfaces"].m, e.kids, Tabled)
    ensures Listed(e.kids, Filed) == [] ==> Fold(e).d.m.Keys == {"path", "interfaces"}
    ensures Listed(e.kids, Filed) != [] ==>
      && Fold(e).d.m.Keys == {"path", "interfaces", "children"}
      && Fold(e).d.m["children"] == List(Listed(e.kids, Filed))
  {
    hide Filter, Listed, AttrMap, Plain, FoldAll, Merge, Tabulates, Given, Passes, Is, Named;
    AttrsGiven(e);
    FoldKids(e);
    FoldAllOk(e.kids);
    forall i | 0 <= i < |e.kids|
      ensures Passes(NoPath, Fold(e.kids[i]).d) <==> Is(Tabled, e.kids[i])
      ensures Passes(WithPath, Fold(e.kids[i]).d) <==> Is(Filed, e.kids[i])
      ensures Is(Tabled, e.kids[i]) ==> Named(e.kids[i])
    {
      GroupedKid(e.kids[i]);
    }
    FilterIsListed(e.kids, NoPath, Tabled);
    FilterIsListed(e.kids, WithPath, Filed);
    MergeTabulates(e.kids, Tabled);
  }

  // ----- Nested nodes

  ghost function Selected(es: seq<Elem>, p: Kin): seq<Elem> {
    if es == [] then [] else (if Is(p, es[0]) then [es[0]] else []) + Selected(es[1..], p)
  }

  lemma {:induction false} SelectedListed(es: seq<Elem>, p: Kin)
    requires Folds(es)
    ensures Folds(Selected(es, p)) && |Listed(es, p)| == |Selected(es, p)|
    ensures forall k :: 0 <= k < |Selected(es, p)| ==> Listed(es, p)[k] == Fold(Selected(es, p)[k]).d
    ensures forall k :: 0 <= k < |Selected(es, p)| ==> Selected(es, p)[k] in es
  {
    hide Fold, Is;
    if es != [] {
      FoldsTail(es);
      SelectedListed(es[1..], p);
      assert forall x :: x in es[1..] ==> x in es;
    }
  }

  /** The node of the document that the places `ks` among child nodes lead to. */
  ghost function Descend(e: Elem, ks: seq<nat>): Option<Elem>
    decreases |ks|
  {
    if ks == [] then Some(e)
    else
      var nodes := Selected(e.kids, Filed);
      if e.tag == NodeTag && ks[0] < |nodes| then Descend(nodes[ks[0]], ks[1..]) else None
  }

  /** The same places in parsed data: (get-in data [:children k ...]). */
  function GetChild(d: Data, ks: seq<nat>): Option<Data> {
    if ks == [] then Some(d)
    else
      match Get(d, "children")
      case Some(List(xs)) => if ks[0] < |xs| then GetChild(xs[ks[0]], ks[1..]) else None
      case _ => None
  }

  lemma {:induction false} Descended(e: Elem, ks: seq<nat>)
    requires Good(e) && Fold(e).Ok? && Descend(e, ks).Some?
    ensures var node := Descend(e, ks).value;
      Good(node) && Fold(node).Ok? && GetChild(Fold(e).d, ks) == Some(Fold(node).d)
    decreases |ks|
  {
    hide Fold, Good, Selected, Listed, Tabulates, Is;
    if ks != [] {
      NodeSummary(e);
      SelectedListed(e.kids, Filed);
      var node := Selected(e.kids, Filed)[ks[0]];
      var i :| 0 <= i < |e.kids| && e.kids[i] == node;
      GoodKid(e, i);
      Descended(node, ks[1..]);
    }
  }

  /** For every document that no builder raises on, parse-xml has an entry for every member of every
      interface of every node, at any depth, holding what was built of it; only interfaces called
      "path" and what a later sibling of the same name replaces are not found. */
  lemma {:induction false} MemberFound(doc: Document, destination: string, path: string, ks: seq<nat>, i: nat, j: nat)
    requires GoodDocument(doc) && Fold(doc.root).Ok?
    requires Descend(doc.root, ks).Some? && Descend(doc.root, ks).value.tag == NodeTag
    requires var node := Descend(doc.root, ks).value;
      Last(node.kids, Tabled, i) && Last(node.kids[i].kids, Members, j)
    ensures var iface := Descend(doc.root, ks).value.kids[i];
      var member := iface.kids[j];
      var r := ParseXml(PrintDocument(doc), destination, path);
      && r.Found? && Named(iface) && Named(member) && GetChild(r.d, ks).Some?
      && GetIn(GetChild(r.d, ks).value, "interfaces", NameOf(iface), "members", NameOf(member)) == Some(Body(member))
  {
    hide ParseXml, PrintDocument, Fold, Listed, Tabulates, Result, NameOf, Named, Body, Good, Descend, GetChild;
    var root, node := doc.root, Descend(doc.root, ks).value;
    var iface := node.kids[i];
    ParseComplete(doc, destination, path);
    Descended(root, ks);
    GoodKid(node, i);
    NodeSummary(node);
    InterfaceSummary(iface);
    ResultChild(Fold(root).d, destination, path, ks);
    Tabulated(Fold(node).d.m["interfaces"], node.kids, Tabled, i);
    Tabulated(Body(iface).m["members"], iface.kids, Members, j);
  }

  lemma {:induction false} GoodKid(e: Elem, i: nat)
    requires Good(e) && i < |e.kids|
    ensures Good(e.kids[i])
  {
  }

  lemma {:induction false} Tabulated(d: Data, es: seq<Elem>, p: Kin, i: nat)
    requires d.Struct? && Tabulates(d.m, es, p) && Last(es, p, i)
    ensures Named(es[i]) && Get(d, NameOf(es[i])) == Some(Body(es[i]))
  {
  }

  /** parse-xml copies the interfaces and the children of the root. */
  lemma {:induction false} ResultChild(d: Data, destination: string, path: string, ks: seq<nat>)
    requires GetChild(d, ks).Some?
    ensures var r := Result(d, destination, path);
      GetChild(r, ks).Some? && Get(GetChild(r, ks).value, "interfaces") == Get(GetChild(d, ks).value, "interfaces")
  {
  }

  /** get-in */
  function GetIn(d: Data, a: string, b: string, c: string, e: string): Option<Data> {
    match Get(d, a)
    case None => None
    case Some(x) =>
      match Get(x, b)
      case None => None
      case Some(y) => match Get(y, c) case None => None case Some(z) => Get(z, e)
  }
}
