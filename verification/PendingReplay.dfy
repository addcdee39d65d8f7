/** Runs of the protocol replayed on the heap: every step of a run, done by the methods of the heap
    queue, keeps the heap an image of the protocol's state. */
module PendingReplay {
  import opened Options
  import opened PendingLinks
  import opened PendingQueue
  import opened PendingRuns

  ghost function All(nodes: seq<AsyncPending>): set<AsyncPending> {
    set p | p in nodes
  }

  function Ids(n: nat): (ids: set<nat>)
    ensures forall i: nat :: i in ids <==> i < n
  {
    if n == 0 then {} else Ids(n - 1) + {n - 1}
  }

  /** Entry `i` is node `i`, with the same links, kind, channel, owners and fate. */
  ghost predicate SameQueue(conn: Conn, nodes: seq<AsyncPending>, s: State)
    reads conn, nodes
  {
    && |nodes| == |s.entries|
    && conn.Closed(All(nodes))
    && Mirrors(s.links, conn.Snap(All(nodes)), nodes, Ids(|nodes|))
  }

  ghost predicate SameEntries(nodes: seq<AsyncPending>, s: State)
    reads nodes
  {
    && |nodes| == |s.entries|
    && forall i :: 0 <= i < |nodes| ==> SameEntry(nodes[i], i, s.entries[i])
  }

  ghost predicate SameEntry(p: AsyncPending, id: nat, e: Entry)
    reads p
  {
    p.kind == e.kind && p.chan == id && p.held == e.wrapper && p.owned == e.bus && p.freed == Destroyed(e)
  }

  /** The channels heard exactly what the protocol told them. */
  predicate SameNews(given: seq<Give>, told: seq<Told>) {
    && |given| == |told|
    && forall i :: 0 <= i < |given| ==> given[i].chan == told[i].id && given[i].status == told[i].status
  }

  ghost predicate Same(conn: Conn, nodes: seq<AsyncPending>, s: State)
    reads conn, nodes
  {
    && SameQueue(conn, nodes, s) && SameEntries(nodes, s)
    && SameNews(conn.given, s.told)
    && (conn.stream <==> s.open) && (conn.bus <==> s.open)
  }

  /** A node whose unlinking touches no destroyed entry in the protocol can be unlinked on the heap. */
  lemma {:induction false} SameUnlinkable(conn: Conn, nodes: seq<AsyncPending>, s: State, id: nat)
    requires SameQueue(conn, nodes, s) && SameEntries(nodes, s) && id < |nodes| && !Destroyed(s.entries[id])
    requires Touched(s.links, id) !! Gone(s.entries)
    ensures conn.Unlinkable(nodes[id], All(nodes))
  {
    var l, m := s.links, conn.Snap(All(nodes));
    assert id in Ids(|nodes|);
    forall p | p in All(nodes) && p in Touched(m, nodes[id]) ensures !p.freed {
      TouchedImage(l, m, nodes, Ids(|nodes|), id, p);
      var j :| j in Touched(l, id) && j < |nodes| && nodes[j] == p;
      assert SameEntry(nodes[j], j, s.entries[j]) && j !in Gone(s.entries);
    }
    assert SameEntry(nodes[id], id, s.entries[id]);
  }

  lemma {:induction false} TouchedImage<M>(l: Links<nat>, m: Links<M>, at: seq<M>, used: set<nat>, p: nat, n: M)
    requires Mirrors(l, m, at, used) && p in used && n in Touched(m, at[p])
    ensures exists j :: j in Touched(l, p) && j < |at| && at[j] == n
  {
    if Prev(m, at[p]) == Some(n) {
      assert Prev(l, p).value in Touched(l, p);
    } else {
      assert Next(l, p).value in Touched(l, p);
    }
  }

  lemma {:induction false} SameUnlink(l: Links<nat>, m: Links<AsyncPending>, nodes: seq<AsyncPending>, id: nat)
    requires Mirrors(l, m, nodes, Ids(|nodes|)) && id < |nodes|
    ensures Mirrors(Unlink(l, id), Unlink(m, nodes[id]), nodes, Ids(|nodes|))
  {
    hide Unlink;
    assert id in Ids(|nodes|);
    MirrorUnlink(l, m, nodes, Ids(|nodes|), id);
  }

  method ReplayStart(conn: Conn, nodes: seq<AsyncPending>, kind: Kind, ghost s: State) returns (more: seq<AsyncPending>)
    requires Inv(s) && Same(conn, nodes, s) && s.open
    modifies conn`queue, All(nodes)`next, All(nodes)`prev
    ensures nodes <= more && |more| == |nodes| + 1 && fresh(more[|nodes|])
    ensures Same(conn, more, DoStart(s, kind))
  {
    hide Mirrors, Push, Inv;
    ghost var all, m := All(nodes), conn.Snap(All(nodes));
    HeadKept(conn, nodes, s);
    var p := conn.Start(kind, |nodes|, 0, all);
    more := nodes + [p];
    assert All(more) == all + {p};
    SamePush(s.links, m, nodes, p);
  }

  lemma {:induction false} HeadKept(conn: Conn, nodes: seq<AsyncPending>, s: State)
    requires Inv(s) && SameQueue(conn, nodes, s) && SameEntries(nodes, s)
    ensures conn.queue != null ==> !conn.queue.freed
  {
    LiveAllocated(s);
    if s.links.head.Some? {
      assert SameEntry(nodes[s.links.head.value], s.links.head.value, s.entries[s.links.head.value]);
    }
  }

  lemma {:induction false} SamePush(l: Links<nat>, m: Links<AsyncPending>, nodes: seq<AsyncPending>, p: AsyncPending)
    requires Mirrors(l, m, nodes, Ids(|nodes|)) && p !in nodes
    ensures Mirrors(Push(l, |nodes|), Push(m, p), nodes + [p], Ids(|nodes| + 1))
  {
    hide Push;
    MirrorPush(l, m, nodes, Ids(|nodes|), p);
    assert Ids(|nodes| + 1) == Ids(|nodes|) + {|nodes|};
  }

  /** A message for an entry: the handler, and then the bus letting go if it was an answer. */
  method ReplayDeliver(conn: Conn, nodes: seq<AsyncPending>, id: nat, m: MessageType, ghost s: State)
    requires Inv(s) && Same(conn, nodes, s) && Enabled(s, Deliver(id, m))
    modifies conn`queue, conn`given, All(nodes)`next, All(nodes)`prev, All(nodes)`owned, All(nodes)`freed
    ensures Same(conn, nodes, DoDeliver(s, id, m))
  {
    hide Mirrors, Unlink, Inv, Gone, Touched, Conn.Unlinkable, Conn.Snap, Conn.Closed, SameNews;
    ghost var all, links := All(nodes), conn.Snap(All(nodes));
    OwnedWaits(s, id);
    NeighboursAllocated(s, id);
    SameUnlinkable(conn, nodes, s, id);
    assert forall i :: 0 <= i < |nodes| ==> SameEntry(nodes[i], i, s.entries[i]);
    Distinct(s.links, links, nodes);
    UnlinkableKept(conn, nodes[id], all);
    conn.MessageHandler(nodes[id], m, "", all);
    SameUnlink(s.links, links, nodes, id);
    if nodes[id].kind == Call && (m == MethodReturn || m == MethodError) {
      conn.BusLetsGo(nodes[id], all);
    }
    ghost var t := DoDeliver(s, id, m);
    if m != OtherType {
      ghost var status := if m == MethodError then ErrorStatus else OkStatus;
      OneMoreTold(old(conn.given), s.told, id, status);
    }
    forall i | 0 <= i < |nodes| ensures SameEntry(nodes[i], i, t.entries[i]) {
      if i != id { assert nodes[i] != nodes[id]; }
    }
  }

  lemma {:induction false} OneMoreTold(given: seq<Give>, told: seq<Told>, id: nat, status: Status)
    requires SameNews(given, told)
    ensures SameNews(given + [Give(id, status, "")], told + [Told(id, status)])
  {
  }

  lemma UnlinkableKept(conn: Conn, p: AsyncPending, all: set<AsyncPending>)
    requires conn.Unlinkable(p, all)
    ensures !p.freed
  {
  }

  lemma {:induction false} Distinct(l: Links<nat>, m: Links<AsyncPending>, nodes: seq<AsyncPending>)
    requires Mirrors(l, m, nodes, Ids(|nodes|))
    ensures forall i, j :: 0 <= i < |nodes| && 0 <= j < |nodes| && i != j ==> nodes[i] != nodes[j]
  {
    assert forall i :: 0 <= i < |nodes| ==> i in Ids(|nodes|);
  }

  method ReplayCancel(conn: Conn, nodes: seq<AsyncPending>, id: nat, ghost s: State)
    requires Inv(s) && Same(conn, nodes, s) && Enabled(s, Cancel(id)) && Orderly(s, Cancel(id))
    modifies conn`queue, All(nodes)`next, All(nodes)`prev
    modifies All(nodes)`held, All(nodes)`owned, All(nodes)`freed
    ensures Same(conn, nodes, DoCancel(s, id))
  {
    hide Mirrors, Unlink, Inv, Gone, Touched, Conn.Unlinkable, Conn.Snap, Conn.Closed, Orderly;
    ghost var all, links := All(nodes), conn.Snap(All(nodes));
    assert forall i :: 0 <= i < |nodes| ==> SameEntry(nodes[i], i, s.entries[i]);
    if s.entries[id].wrapper {
      TouchesAllocated(s, Cancel(id));
      SameUnlinkable(conn, nodes, s, id);
    }
    Distinct(s.links, links, nodes);
    conn.CancelSlot(nodes[id], all);
    SameUnlink(s.links, links, nodes, id);
    ghost var t := DoCancel(s, id);
    forall i | 0 <= i < |nodes| ensures SameEntry(nodes[i], i, t.entries[i]) {
      if i != id { assert nodes[i] != nodes[id]; }
    }
  }

  method ReplayClose(conn: Conn, nodes: seq<AsyncPending>, ghost s: State)
    requires Inv(s) && Same(conn, nodes, s) && s.open
    modifies conn, All(nodes)`next, All(nodes)`prev
    modifies All(nodes)`held, All(nodes)`owned, All(nodes)`freed
    ensures Same(conn, nodes, DoClose(s))
  {
    hide Mirrors, Inv, Chain, Conn.Snap, Conn.Closed, Follow, Live, Gives, Closes, SameNews;
    ghost var all, links, q := All(nodes), conn.Snap(All(nodes)), Live(s.entries);
    QueuedOwned(nodes, s);
    LiveChain(s);
    assert forall n :: n in q ==> n in Ids(|nodes|);
    MirrorChain(s.links, links, nodes, Ids(|nodes|), q);
    Distinct(s.links, links, nodes);
    ImageMembers(q, nodes);
    assert forall i :: 0 <= i < |nodes| ==> SameEntry(nodes[i], i, s.entries[i]);
    conn.CloseBus(nodes, all, Image(q, nodes));
    WalkIsLive(s);
    HeadGone(s.links, links, nodes);
    GivesClosed(q, nodes);
    ghost var t := DoClose(s);
    forall i | 0 <= i < |nodes| ensures SameEntry(nodes[i], i, t.entries[i]) {
      assert nodes[i] in nodes && t.entries[i] == Closed(s.entries[i], i in q);
    }
    NewsTogether(old(conn.given), Gives(Image(q, nodes), CloseStatus, "D-Bus connection closed"), s.told, Closes(q));
  }

  lemma {:induction false} NewsTogether(given: seq<Give>, more: seq<Give>, told: seq<Told>, also: seq<Told>)
    requires SameNews(given, told) && SameNews(more, also)
    ensures SameNews(given + more, told + also)
  {
  }

  /** The bus owns the nodes of waiting entries, and no node it owns was given back. */
  lemma {:induction false} QueuedOwned(nodes: seq<AsyncPending>, s: State)
    requires Inv(s) && SameEntries(nodes, s)
    ensures forall i :: 0 <= i < |Live(s.entries)| ==>
      Live(s.entries)[i] < |nodes| && nodes[Live(s.entries)[i]].owned
    ensures forall p :: p in nodes ==> p.owned ==> !p.freed
  {
    hide Chain, Heard, Live;
    LiveMembers(s.entries);
    var q := Live(s.entries);
    forall i | 0 <= i < |q| ensures q[i] < |nodes| && nodes[q[i]].owned {
      assert q[i] in q && Owned(s.entries[q[i]]) && SameEntry(nodes[q[i]], q[i], s.entries[q[i]]);
    }
    forall p | p in nodes ensures p.owned ==> !p.freed {
      var i :| 0 <= i < |nodes| && nodes[i] == p;
      assert SameEntry(nodes[i], i, s.entries[i]);
    }
  }

  lemma {:induction false} ImageMembers(q: seq<nat>, nodes: seq<AsyncPending>)
    requires forall i :: 0 <= i < |q| ==> q[i] < |nodes|
    requires forall i, j :: 0 <= i < |nodes| && 0 <= j < |nodes| && i != j ==> nodes[i] != nodes[j]
    ensures forall i :: 0 <= i < |q| ==> Image(q, nodes)[i] in nodes && Image(q, nodes)[i] == nodes[q[i]]
    ensures forall i: nat :: i < |nodes| ==> (nodes[i] in Image(q, nodes) <==> i in q)
  {
    forall i: nat | i < |nodes| ensures nodes[i] in Image(q, nodes) <==> i in q {
      if i in q {
        var k :| 0 <= k < |q| && q[k] == i;
        assert Image(q, nodes)[k] == nodes[i];
      }
    }
  }

  lemma {:induction false} HeadGone(l: Links<nat>, m: Links<AsyncPending>, nodes: seq<AsyncPending>)
    requires Mirrors(l, m, nodes, Ids(|nodes|))
    ensures Mirrors(l.(head := None), m.(head := None), nodes, Ids(|nodes|))
  {
  }

  lemma {:induction false} GivesClosed(q: seq<nat>, nodes: seq<AsyncPending>)
    requires forall i :: 0 <= i < |q| ==> q[i] < |nodes|
    requires forall i :: 0 <= i < |nodes| ==> nodes[i].chan == i
    ensures SameNews(Gives(Image(q, nodes), CloseStatus, "D-Bus connection closed"), Closes(q))
  {
    if q != [] {
      var n := |q| - 1;
      GivesClosed(q[..n], nodes);
      assert Image(q, nodes)[..n] == Image(q[..n], nodes);
      assert Closes(q)[..n] == Closes(q[..n]);
    }
  }

  method ReplayStep(conn: Conn, nodes: seq<AsyncPending>, step: Step, ghost s: State)
    returns (after: seq<AsyncPending>)
    requires Inv(s) && Same(conn, nodes, s) && Enabled(s, step) && Orderly(s, step)
    modifies conn, All(nodes)`next, All(nodes)`prev
    modifies All(nodes)`held, All(nodes)`owned, All(nodes)`freed
    ensures nodes <= after && fresh(All(after) - All(nodes))
    ensures Same(conn, after, Do(s, step))
  {
    hide Inv, SameQueue, SameEntries, Orderly;
    after := nodes;
    match step {
      case Start(kind) =>
        after := ReplayStart(conn, nodes, kind, s);
      case Deliver(id, m) =>
        ReplayDeliver(conn, nodes, id, m, s);
      case Cancel(id) =>
        ReplayCancel(conn, nodes, id, s);
      case Close =>
        ReplayClose(conn, nodes, s);
    }
  }

  lemma {:induction false} Unstarted(conn: Conn)
    requires conn.queue == null && conn.given == [] && conn.stream && conn.bus
    ensures Same(conn, [], INITIAL)
  {
  }

  /** Every front of a run is a run. */
  lemma {:induction false} Fronts(run: seq<Step>, i: nat)
    requires IsRun(run) && i <= |run|
    ensures IsRun(run[..i])
    decreases |run|
  {
    hide Enabled, Orderly, Do;
    if i == |run| {
      assert run[..i] == run;
    } else {
      Fronts(run[..|run| - 1], i);
      assert run[..|run| - 1][..i] == run[..i];
    }
  }

  lemma {:induction false} RunStep(run: seq<Step>, i: nat)
    requires IsRun(run) && i < |run|
    ensures IsRun(run[..i]) && IsRun(run[..i + 1])
    ensures Enabled(After(run[..i]), run[i]) && Orderly(After(run[..i]), run[i])
    ensures After(run[..i + 1]) == Do(After(run[..i]), run[i])
  {
    hide Enabled, Orderly, Do;
    Fronts(run, i);
    Fronts(run, i + 1);
    assert run[..i + 1][..i] == run[..i];
  }

  /** The heap after a run is the image of the protocol's state after that run: the same queue, the
      same owners, the same entries given back, the same news. In particular no step of the run
      reads or writes a node that was given back. */
  method Replay(run: seq<Step>) returns (conn: Conn, nodes: seq<AsyncPending>)
    requires IsRun(run)
    ensures Same(conn, nodes, After(run))
    ensures |nodes| == |After(run).entries|
    ensures Mirrors(After(run).links, conn.Snap(All(nodes)), nodes, Ids(|nodes|))
  {
    hide Inv, Do, Orderly, Enabled;
    conn := new Conn();
    nodes := [];
    Unstarted(conn);
    for i := 0 to |run|
      invariant fresh(conn) && fresh(All(nodes))
      invariant IsRun(run[..i]) && Same(conn, nodes, After(run[..i]))
    {
      RunStep(run, i);
      RunKeeps(run[..i]);
      nodes := ReplayStep(conn, nodes, run[i], After(run[..i]));
    }
    assert run[..|run|] == run;
  }
}
