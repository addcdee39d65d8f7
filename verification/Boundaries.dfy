/** On any text, grammatical or not, the scratch signature cut out by the span computations is
    valid exactly when a complete type starts there; and it is then exactly that type's contents. */
module Boundaries {
  import opened Options
  import opened Signatures
  import opened Spans
  import opened Messages

  /** The rest of a text after its first complete type. */
  lemma {:induction false} SplitFirst(s: string)
    requires First(s).Some?
    ensures s == Show(First(s).value.0) + s[First(s).value.1..]
    ensures |Show(First(s).value.0)| == First(s).value.1
  {
    FirstSound(s);
    assert s == s[..First(s).value.1] + s[First(s).value.1..];
  }

  lemma {:induction false} StructBoundary(s: string)
    requires s != "" && s[0] == '(' && First(s).Some?
    ensures var (t, n) := First(s).value;
      t.Struct? && n >= 3 && Scan(s[1..], '(', ')', 1) == Some(n - 1) && s[1..n - 1] == ShowAll(Fields(t))
  {
    hide First, Scan;
    var (t, n) := First(s).value;
    SplitFirst(s);
    StructHead(s);
    MatchStruct(t.first, t.rest, s[n..]);
    assert Fields(t)[1..] == t.rest;
    assert s[1..n - 1] == Show(t)[1..n - 1];
    assert Show(t)[1..n - 1] == Show(t.first) + ShowAll(t.rest);
  }

  lemma {:induction false} StructHead(s: string)
    requires s != "" && s[0] == '(' && First(s).Some?
    ensures First(s).value.0.Struct?
  {
  }

  lemma {:induction false} StructFromContents(s: string, end: nat)
    requires s != "" && s[0] == '(' && Scan(s[1..], '(', ')', 1) == Some(end)
    requires end >= 2 && All(s[1..end]).Some?
    ensures var ts := All(s[1..end]).value;
      ts != [] && First(s) == Some((Struct(ts[0], ts[1..]), end + 1))
  {
    var ts := All(s[1..end]).value;
    ScanLast(s[1..], '(', ')', 1);
    StructClosed(s, end, ts);
  }

  lemma {:induction false} StructClosed(s: string, end: nat, ts: seq<Type>)
    requires 2 <= end < |s| && s[0] == '(' && s[end] == ')' && All(s[1..end]) == Some(ts)
    ensures ts != [] && First(s) == Some((Struct(ts[0], ts[1..]), end + 1))
  {
    AllExact(s[1..end], ts);
    assert s[1..end] != "";
    var t := Struct(ts[0], ts[1..]);
    assert Show(t) == "(" + ShowAll(ts) + ")";
    assert s == Show(t) + s[end + 1..];
    FirstOfShow(t, s[end + 1..]);
  }

  /** Matching stops on the closing character. */
  lemma {:induction false} ScanLast(s: string, open: char, close: char, depth: nat)
    requires depth >= 1 && open != close && Scan(s, open, close, depth).Some?
    ensures s[Scan(s, open, close, depth).value - 1] == close
    decreases |s|
  {
    if Depth(s[0], open, close, depth) > 0 {
      ScanLast(s[1..], open, close, Depth(s[0], open, close, depth));
    }
  }

  lemma {:induction false} EntryBoundary(s: string)
    requires Entry(s).Some?
    ensures var (k, v, n) := Entry(s).value;
      && s[..n] == ShowEntry(k, v) && |ShowEntry(k, v)| == n && s == ShowEntry(k, v) + s[n..]
      && Scan(s[1..], '{', '}', 1) == Some(n - 1)
  {
    hide Scan, Entry;
    var (k, v, n) := Entry(s).value;
    EntrySound(s);
    assert s == s[..n] + s[n..];
    MatchEntry(k, v, s[n..]);
  }

  /** A cut-out dict entry is valid exactly when an entry starts at the opener. */
  lemma {:induction false} EntryFromContents(s: string, end: nat)
    requires s != "" && Scan(s[1..], '{', '}', 1) == Some(end)
    ensures IsEntry(s[..end + 1]) <==> Entry(s).Some?
    ensures IsEntry(s[..end + 1]) ==> Entry(s) == Entry(s[..end + 1]) && Entry(s).value.2 == end + 1
  {
    hide Scan, Entry;
    var c := s[..end + 1];
    if IsEntry(c) {
      var (k, v, n) := Entry(c).value;
      EntryBoundary(c);
      assert s == ShowEntry(k, v) + s[end + 1..];
      EntryOfShow(k, v, s[end + 1..]);
    }
    if Entry(s).Some? {
      var (k, v, n) := Entry(s).value;
      EntryBoundary(s);
      EntryOfShow(k, v, "");
      assert ShowEntry(k, v) + "" == c;
    }
  }

  /** A cut-out element type is valid exactly when an array type starts at the 'a'. */
  lemma {:induction false} ArrayFromContents(s: string, end: nat)
    requires |s| > 1 && s[0] == 'a' && s[1] != '{' && FindSubtype(s) == Some(end)
    ensures 1 <= end && (Single(s[1..end + 1]).Some? <==> First(s).Some?)
    ensures First(s).Some? ==> First(s) == Some((Array(Single(s[1..end + 1]).value), end + 1))
  {
    var c := s[1..end + 1];
    if Single(c).Some? {
      var e := Single(c).value;
      SingleExact(c, e);
      assert s[1..] == Show(e) + s[end + 1..];
      FirstOfShow(e, s[end + 1..]);
    }
    if First(s).Some? {
      var (e, n) := First(s[1..]).value;
      SplitFirst(s[1..]);
      FindSubtypeOfShow(e, s[1..][n..]);
      assert c == Show(e);
      SingleOfShow(e);
    }
  }
}
