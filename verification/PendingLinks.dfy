/** The intrusive doubly linked queue of pending calls and matches (src/async.c, queue_pending and
    dequeue_pending), as a head and two link tables over any kind of node. */
module PendingLinks {
  import opened Options

  datatype Links<!N> = Links(head: Option<N>, prev: map<N, Option<N>>, next: map<N, Option<N>>)

  function Prev<N>(l: Links<N>, n: N): Option<N> {
    if n in l.prev then l.prev[n] else None
  }

  function Next<N>(l: Links<N>, n: N): Option<N> {
    if n in l.next then l.next[n] else None
  }

  /** queue_pending. */
  function Push<N>(l: Links<N>, p: N): Links<N> {
    PushFront(PushAhead(l, p), p)
  }

  function PushAhead<N>(l: Links<N>, p: N): Links<N> {
    l.(prev := l.prev[p := None], next := l.next[p := l.head])
  }

  function PushFront<N>(l: Links<N>, p: N): Links<N> {
    (if l.head.Some? then l.(prev := l.prev[l.head.value := Some(p)]) else l).(head := Some(p))
  }

  /** dequeue_pending. It reads the node's own links but leaves them as they are. */
  function Unlink<N>(l: Links<N>, p: N): Links<N> {
    if l.head.None? then l else UnlinkNext(UnlinkPrev(l, p), p)
  }

  function UnlinkPrev<N>(l: Links<N>, p: N): Links<N> {
    if Prev(l, p).Some? then l.(next := l.next[Prev(l, p).value := Next(l, p)]) else l.(head := Next(l, p))
  }

  function UnlinkNext<N>(l: Links<N>, p: N): Links<N> {
    if Next(l, p).Some? then l.(prev := l.prev[Next(l, p).value := Prev(l, p)]) else l
  }

  function At<N>(q: seq<N>, i: int): Option<N> {
    if 0 <= i < |q| then Some(q[i]) else None
  }

  /** The queue is exactly `q`, front first: links are mutually inverse and null-ended, and no
      node is met twice. */
  ghost predicate Chain<N>(l: Links<N>, q: seq<N>) {
    && l.head == At(q, 0)
    && (forall i :: 0 <= i < |q| ==> Prev(l, q[i]) == At(q, i - 1) && Next(l, q[i]) == At(q, i + 1))
    && (forall i, j :: 0 <= i < j < |q| ==> q[i] != q[j])
  }

  /** The links determine the queue. */
  lemma {:induction false} ChainUnique<N>(l: Links<N>, q: seq<N>, r: seq<N>)
    requires Chain(l, q) && Chain(l, r)
    ensures q == r
  {
    hide Chain, Follow;
    var fuel := |q| + |r|;
    FollowChain(l, q, 0, fuel);
    FollowChain(l, r, 0, fuel);
    ChainHead(l, q);
    ChainHead(l, r);
    assert q[0..] == q && r[0..] == r;
  }

  lemma {:induction false} ChainHead<N>(l: Links<N>, q: seq<N>)
    requires Chain(l, q)
    ensures l.head == At(q, 0)
  {
  }

  lemma {:induction false} ChainNext<N>(l: Links<N>, q: seq<N>, i: nat)
    requires Chain(l, q) && i < |q|
    ensures Next(l, q[i]) == At(q, i + 1)
  {
  }

  /** The nodes met by following the links forward, at most `fuel` of them. */
  function Follow<N>(l: Links<N>, from: Option<N>, fuel: nat): seq<N>
    decreases fuel
  {
    if from.None? || fuel == 0 then [] else [from.value] + Follow(l, Next(l, from.value), fuel - 1)
  }

  lemma {:induction false} FollowChain<N>(l: Links<N>, q: seq<N>, i: nat, fuel: nat)
    requires Chain(l, q) && i <= |q| <= i + fuel
    ensures Follow(l, At(q, i), fuel) == q[i..]
    decreases fuel
  {
    hide Chain;
    if i < |q| {
      ChainNext(l, q, i);
      FollowChain(l, q, i + 1, fuel - 1);
    }
  }

  /** Queuing puts the entry in front. */
  lemma {:induction false} PushPrepends<N>(l: Links<N>, q: seq<N>, p: N)
    requires Chain(l, q) && p !in q
    ensures Chain(Push(l, p), [p] + q)
  {
  }

  function Without<N>(q: seq<N>, k: nat): seq<N>
    requires k < |q|
  {
    q[..k] + q[k + 1..]
  }

  /** Unlinking a member joins its two neighbours and touches nothing else of the queue. */
  lemma {:induction false} UnlinkJoins<N>(l: Links<N>, q: seq<N>, k: nat, j: nat)
    requires Chain(l, q) && k < |q| && j < |q| && j != k
    ensures var m := Unlink(l, q[k]);
      && m.head == (if k == 0 then At(q, 1) else At(q, 0))
      && Next(m, q[j]) == (if j == k - 1 then At(q, k + 1) else At(q, j + 1))
      && Prev(m, q[j]) == (if j == k + 1 then At(q, k - 1) else At(q, j - 1))
  {
  }

  lemma {:induction false} AtWithout<N>(q: seq<N>, k: nat, i: int)
    requires k < |q|
    ensures At(Without(q, k), i) == if i < k then At(q, i) else At(q, i + 1)
    ensures |Without(q, k)| == |q| - 1
  {
  }

  lemma {:induction false} UnlinkHead<N>(l: Links<N>, q: seq<N>, k: nat)
    requires Chain(l, q) && k < |q|
    ensures Unlink(l, q[k]).head == At(Without(q, k), 0)
  {
  }

  /** Unlinking a member removes exactly that member. */
  lemma {:induction false} UnlinkRemoves<N>(l: Links<N>, q: seq<N>, k: nat)
    requires Chain(l, q) && k < |q|
    ensures Chain(Unlink(l, q[k]), Without(q, k))
  {
    hide Unlink, Prev, Next, At;
    var m, r := Unlink(l, q[k]), Without(q, k);
    UnlinkHead(l, q, k);
    forall i | 0 <= i < |r|
      ensures Prev(m, r[i]) == At(r, i - 1) && Next(m, r[i]) == At(r, i + 1)
    {
      UnlinkJoins(l, q, k, if i < k then i else i + 1);
      AtWithout(q, k, i - 1);
      AtWithout(q, k, i + 1);
    }
    forall i, j | 0 <= i < j < |r| ensures r[i] != r[j] {
      assert r[i] == q[if i < k then i else i + 1] && r[j] == q[if j < k then j else j + 1];
    }
  }

  /** Unlinking keeps the links of the node itself. */
  lemma {:induction false} UnlinkKeepsOwn<N>(l: Links<N>, p: N)
    requires Prev(l, p) != Some(p) && Next(l, p) != Some(p)
    ensures Prev(Unlink(l, p), p) == Prev(l, p) && Next(Unlink(l, p), p) == Next(l, p)
  {
  }

  // ----- Unlinking a node that is no longer in the queue

  ghost function Members<N>(o: Option<N>): set<N> {
    if o.Some? then {o.value} else {}
  }

  /** The other nodes that unlinking writes to. */
  ghost function Touched<N>(l: Links<N>, p: N): set<N> {
    if l.head.None? then {} else Members(Prev(l, p)) + Members(Next(l, p))
  }

  /** The node's old neighbours that are still queued are still each other's neighbours (the
      queue's head standing in for a missing predecessor). */
  predicate Adjacent<N>(l: Links<N>, q: seq<N>, p: N) {
    && (Prev(l, p).None? ==> l.head == Next(l, p))
    && (Prev(l, p).Some? && Prev(l, p).value in q ==> Next(l, Prev(l, p).value) == Next(l, p))
    && (Next(l, p).Some? && Next(l, p).value in q ==> Prev(l, Next(l, p).value) == Prev(l, p))
  }

  /** The queue is empty; or the old neighbours are still adjacent and neither is gone. */
  predicate Harmless<N>(l: Links<N>, q: seq<N>, p: N, gone: set<N>) {
    l.head.None? ||
    (&& Adjacent(l, q, p)
     && (Prev(l, p).Some? ==> Prev(l, p).value !in gone)
     && (Next(l, p).Some? ==> Next(l, p).value !in gone))
  }

  /** A second unlink leaves the queue as it is and writes to no node that is gone exactly under
      that condition. */
  lemma {:induction false} SecondUnlink<N>(l: Links<N>, q: seq<N>, p: N, gone: set<N>)
    requires Chain(l, q) && p !in q
    ensures Chain(Unlink(l, p), q) && Touched(l, p) !! gone <==> Harmless(l, q, p, gone)
  {
    hide Chain, Unlink;
    KeptIfAdjacent(l, q, p);
  }

  lemma {:induction false} KeptIfAdjacent<N>(l: Links<N>, q: seq<N>, p: N)
    requires Chain(l, q) && p !in q
    ensures Chain(Unlink(l, p), q) <==> l.head.None? || Adjacent(l, q, p)
  {
  }

  /** Straight after the first unlink the second one writes to queued nodes only and is harmless
      as long as no queued node is gone. */
  lemma {:induction false} UnlinkTwice<N>(l: Links<N>, q: seq<N>, k: nat, gone: set<N>)
    requires Chain(l, q) && k < |q| && forall n :: n in q ==> n !in gone
    ensures Harmless(Unlink(l, q[k]), Without(q, k), q[k], gone)
    ensures Chain(Unlink(Unlink(l, q[k]), q[k]), Without(q, k))
  {
    var p, m, r := q[k], Unlink(l, q[k]), Without(q, k);
    UnlinkRemoves(l, q, k);
    assert Prev(l, p) == At(q, k - 1) && Next(l, p) == At(q, k + 1);
    UnlinkKeepsOwn(l, p);
    assert p !in r;
    if k > 0 { assert r[k - 1] == q[k - 1]; }
    if k + 1 < |q| { assert r[k] == q[k + 1]; }
    SecondUnlink(m, r, p, gone);
  }

  /** Unlinking a member writes to members only. */
  lemma {:induction false} UnlinkTouches<N>(l: Links<N>, q: seq<N>, k: nat)
    requires Chain(l, q) && k < |q|
    ensures forall n :: n in Touched(l, q[k]) ==> n in q
  {
    hide Prev, Next;
    assert Prev(l, q[k]) == At(q, k - 1) && Next(l, q[k]) == At(q, k + 1);
  }

  /** An old head that is unlinked again after a newer entry was queued drops the newer entry. */
  lemma {:induction false} LateUnlinkDrops<N>(l: Links<N>, first: N, newer: N)
    requires Chain(l, []) && first != newer
    ensures var answered := Unlink(Push(l, first), first);
      && Chain(Push(answered, newer), [newer])
      && Chain(Unlink(Push(answered, newer), first), [])
  {
  }

  // ----- The same links over other nodes

  /** Where a numbered node is kept. */
  function Place<M>(o: Option<nat>, at: seq<M>): Option<M>
    requires o.Some? ==> o.value < |at|
  {
    if o.Some? then Some(at[o.value]) else None
  }

  ghost predicate Within<M>(o: Option<nat>, at: seq<M>) {
    o.Some? ==> o.value < |at|
  }

  /** `m` holds the links `l` with node `i` kept at `at[i]`, as far as the nodes in use go: those
      have places of their own, and their links lead to the places of what they led to. */
  ghost predicate Mirrors<M>(l: Links<nat>, m: Links<M>, at: seq<M>, used: set<nat>) {
    && (forall i :: i in used ==> i < |at|)
    && (forall i, j :: i in used && j in used && i != j ==> at[i] != at[j])
    && Within(l.head, at) && m.head == Place(l.head, at)
    && (forall i :: i in used ==> Within(Prev(l, i), at) && Prev(m, at[i]) == Place(Prev(l, i), at))
    && (forall i :: i in used ==> Within(Next(l, i), at) && Next(m, at[i]) == Place(Next(l, i), at))
  }

  lemma {:induction false} MirrorFewer<M>(l: Links<nat>, m: Links<M>, at: seq<M>, used: set<nat>, fewer: set<nat>)
    requires Mirrors(l, m, at, used) && fewer <= used
    ensures Mirrors(l, m, at, fewer)
  {
  }

  /** Queuing a new node at a place that no node in use has. */
  lemma {:induction false} MirrorPush<M>(l: Links<nat>, m: Links<M>, at: seq<M>, used: set<nat>, place: M)
    requires Mirrors(l, m, at, used) && |at| !in used && Members(l.head) <= used
    requires forall i :: i in used ==> at[i] != place
    ensures Mirrors(Push(l, |at|), Push(m, place), at + [place], used + {|at|})
  {
    hide Push;
    MirrorAhead(l, m, at, used, place);
    MirrorFront(PushAhead(l, |at|), PushAhead(m, place), at + [place], used + {|at|}, |at|);
    PushInTwo(l, |at|);
    PushInTwo(m, place);
  }

  lemma {:induction false} PushInTwo<N>(l: Links<N>, p: N)
    ensures Push(l, p) == PushFront(PushAhead(l, p), p) && PushAhead(l, p).head == l.head
  {
  }

  lemma {:induction false} MirrorAhead<M>(l: Links<nat>, m: Links<M>, at: seq<M>, used: set<nat>, place: M)
    requires Mirrors(l, m, at, used) && |at| !in used
    requires forall i :: i in used ==> at[i] != place
    ensures Mirrors(PushAhead(l, |at|), PushAhead(m, place), at + [place], used + {|at|})
  {
  }

  lemma {:induction false} MirrorFront<M>(l: Links<nat>, m: Links<M>, at: seq<M>, used: set<nat>, p: nat)
    requires Mirrors(l, m, at, used) && p in used && Members(l.head) <= used
    ensures Mirrors(PushFront(l, p), PushFront(m, at[p]), at, used)
  {
  }

  /** Unlinking a node in use that writes to nodes in use only. */
  lemma {:induction false} MirrorUnlink<M>(l: Links<nat>, m: Links<M>, at: seq<M>, used: set<nat>, p: nat)
    requires Mirrors(l, m, at, used) && p in used && Touched(l, p) <= used
    ensures Mirrors(Unlink(l, p), Unlink(m, at[p]), at, used)
  {
    if l.head.Some? {
      MirrorUnlinkPrev(l, m, at, used, p);
      var l1, m1 := UnlinkPrev(l, p), UnlinkPrev(m, at[p]);
      assert Members(Next(l1, p)) <= used;
      MirrorUnlinkNext(l1, m1, at, used, p);
    }
  }

  lemma {:induction false} MirrorUnlinkPrev<M>(l: Links<nat>, m: Links<M>, at: seq<M>, used: set<nat>, p: nat)
    requires Mirrors(l, m, at, used) && p in used && Members(Prev(l, p)) <= used
    ensures Mirrors(UnlinkPrev(l, p), UnlinkPrev(m, at[p]), at, used)
  {
  }

  lemma {:induction false} MirrorUnlinkNext<M>(l: Links<nat>, m: Links<M>, at: seq<M>, used: set<nat>, p: nat)
    requires Mirrors(l, m, at, used) && p in used && Members(Next(l, p)) <= used
    ensures Mirrors(UnlinkNext(l, p), UnlinkNext(m, at[p]), at, used)
  {
  }

  function Image<M>(q: seq<nat>, at: seq<M>): seq<M>
    requires forall i :: 0 <= i < |q| ==> q[i] < |at|
  {
    seq(|q|, i requires 0 <= i < |q| => at[q[i]])
  }

  /** A queue of nodes in use is the same queue at their places. */
  lemma {:induction false} MirrorChain<M>(l: Links<nat>, m: Links<M>, at: seq<M>, used: set<nat>, q: seq<nat>)
    requires Mirrors(l, m, at, used) && Chain(l, q) && forall n :: n in q ==> n in used
    ensures forall i :: 0 <= i < |q| ==> q[i] < |at|
    ensures Chain(m, Image(q, at))
  {
    hide Prev, Next;
    forall i | 0 <= i < |q|
      ensures q[i] in used
      ensures Prev(m, at[q[i]]) == Place(At(q, i - 1), at) && Next(m, at[q[i]]) == Place(At(q, i + 1), at)
    {
      assert q[i] in q;
    }
  }
}
