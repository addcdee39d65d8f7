/** Whole runs of the pending-call protocol: starting calls and matches, messages from the bus,
    cancellation and close (src/call.c, src/slot.c, src/bus.c), over the link tables that the
    heap queue refines. Entries are numbered in the order they are started. */
module PendingRuns {
  import opened Options
  import opened PendingLinks
  import opened PendingQueue

  datatype Phase = Waiting | Answered | Cancelled | Shut

  /** A floating slot has two owners, the bus and the Janet wrapper. */
  datatype Entry = Entry(kind: Kind, phase: Phase, bus: bool, wrapper: bool)

  datatype Told = Told(id: nat, status: Status)

  datatype State = State(links: Links<nat>, entries: seq<Entry>, told: seq<Told>, open: bool)

  datatype Step = Start(kind: Kind) | Deliver(id: nat, m: MessageType) | Cancel(id: nat) | Close

  const INITIAL := State(Links(None, map[], map[]), [], [], true)

  // ----- Steps

  /** A call hears only of its answer; a match of anything, as long as the bus owns its slot. */
  predicate Enabled(s: State, step: Step) {
    match step
    case Start(_) => s.open
    case Deliver(id, m) =>
      s.open && id < |s.entries| && s.entries[id].bus && (s.entries[id].kind == Call ==> Answers(Call, m))
    case Cancel(id) => id < |s.entries|
    case Close => s.open
  }

  function Do(s: State, step: Step): State
    requires Enabled(s, step)
  {
    match step
    case Start(kind) => DoStart(s, kind)
    case Deliver(id, m) => DoDeliver(s, id, m)
    case Cancel(id) => DoCancel(s, id)
    case Close => DoClose(s)
  }

  function DoStart(s: State, kind: Kind): State {
    s.(links := Push(s.links, |s.entries|), entries := s.entries + [Entry(kind, Waiting, true, true)])
  }

  /** message_handler; sd-bus gives up its reference once a call is answered. */
  function DoDeliver(s: State, id: nat, m: MessageType): State
    requires id < |s.entries|
  {
    var e := s.entries[id];
    var told :=
      match m
      case MethodReturn | MethodCall | Signal => s.told + [Told(id, OkStatus)]
      case MethodError => s.told + [Told(id, ErrorStatus)]
      case OtherType => s.told;
    if Answers(e.kind, m)
    then
      s.(links := Unlink(s.links, id), told := told,
         entries := s.entries[id := e.(phase := Answered, bus := false)])
    else s.(told := told)
  }

  /** cfun_cancel_slot: the slot stops floating and is released, so both owners let go and the
      destroy callback unlinks the entry; on a wrapper that already let go nothing happens. */
  function DoCancel(s: State, id: nat): State
    requires id < |s.entries|
  {
    var e := s.entries[id];
    if !e.wrapper then s
    else
      var phase := if e.phase == Waiting then Cancelled else e.phase;
      s.(links := Unlink(s.links, id),
         entries := s.entries[id := e.(phase := phase, bus := false, wrapper := false)])
  }

  /** cfun_close_bus: closeall_pending walks the queue and empties it; then the bus lets go of
      every slot, whose destroy callbacks meet an empty queue. */
  function DoClose(s: State): State {
    var walked := Follow(s.links, s.links.head, |s.entries|);
    State(s.links.(head := None),
          seq(|s.entries|, i requires 0 <= i < |s.entries| => Closed(s.entries[i], i in walked)),
          s.told + Closes(walked), false)
  }

  function Closed(e: Entry, walked: bool): Entry {
    e.(bus := false, wrapper := e.wrapper && !walked,
       phase := if walked && e.phase == Waiting then Shut else e.phase)
  }

  function Closes(q: seq<nat>): seq<Told> {
    seq(|q|, i requires 0 <= i < |q| => Told(q[i], CloseStatus))
  }

  // ----- What holds in every run

  /** The waiting entries, newest first. */
  function Live(es: seq<Entry>): seq<nat> {
    if es == [] then []
    else if es[|es| - 1].phase == Waiting then [|es| - 1] + Live(es[..|es| - 1])
    else Live(es[..|es| - 1])
  }

  lemma {:induction false} LiveMembers(es: seq<Entry>)
    ensures forall i: nat :: i in Live(es) <==> i < |es| && es[i].phase == Waiting
    ensures |Live(es)| <= |es|
  {
    if es != [] {
      LiveMembers(es[..|es| - 1]);
    }
  }

  function Count(told: seq<Told>, id: nat): nat {
    if told == [] then 0 else Count(told[..|told| - 1], id) + if told[|told| - 1].id == id then 1 else 0
  }

  ghost predicate Owned(e: Entry) {
    match e.phase
    case Waiting => e.bus && e.wrapper
    case Answered => !e.bus && e.kind == Call
    case Cancelled => !e.bus && !e.wrapper
    case Shut => !e.bus && !e.wrapper
  }

  ghost predicate Heard(s: State, id: nat)
    requires id < |s.entries|
  {
    var e := s.entries[id];
    e.kind == Call ==> Count(s.told, id) == if e.phase == Answered || e.phase == Shut then 1 else 0
  }

  ghost predicate Inv(s: State) {
    && Chain(s.links, Live(s.entries))
    && (forall i :: 0 <= i < |s.entries| ==> Owned(s.entries[i]) && Heard(s, i))
    && (forall i :: 0 <= i < |s.told| ==> s.told[i].id < |s.entries|)
    && (!s.open ==> forall i :: 0 <= i < |s.entries| ==> s.entries[i].phase != Waiting)
  }

  /** Cancelling an answered call whose wrapper still holds its reference. */
  predicate LateCancel(s: State, step: Step) {
    step.Cancel? && step.id < |s.entries| && s.entries[step.id].phase == Answered && s.entries[step.id].wrapper
  }

  /** Once both owners have let go, the entry's memory is given back. */
  predicate Destroyed(e: Entry) {
    !e.bus && !e.wrapper
  }

  /** The entries whose memory was given back. */
  function Gone(es: seq<Entry>): set<nat> {
    set i | 0 <= i < |es| && Destroyed(es[i])
  }

  /** A late cancel finds the queue empty, or the old neighbours of the call still together and
      neither of them destroyed. */
  predicate Orderly(s: State, step: Step) {
    LateCancel(s, step) ==> Harmless(s.links, Live(s.entries), step.id, Gone(s.entries))
  }

  lemma {:induction false} LiveSame(es: seq<Entry>, id: nat, e: Entry)
    requires id < |es| && e.phase != Waiting && es[id].phase != Waiting
    ensures Live(es[id := e]) == Live(es)
  {
    var n := |es| - 1;
    if id == n {
      assert es[id := e][..n] == es[..n];
    } else {
      LiveSame(es[..n], id, e);
      assert es[id := e][..n] == es[..n][id := e];
    }
  }

  lemma {:induction false} NobodyLive(es: seq<Entry>)
    requires forall i :: 0 <= i < |es| ==> es[i].phase != Waiting
    ensures Live(es) == []
  {
    if es != [] {
      NobodyLive(es[..|es| - 1]);
    }
  }

  /** An entry that stops waiting is removed from the live ones, at some place `k`. */
  lemma {:induction false} LiveRemove(es: seq<Entry>, id: nat, e: Entry) returns (k: nat)
    requires id < |es| && e.phase != Waiting && es[id].phase == Waiting
    ensures k < |Live(es)| && Live(es)[k] == id && Live(es[id := e]) == Without(Live(es), k)
  {
    var n := |es| - 1;
    if id == n {
      assert es[id := e][..n] == es[..n];
      k := 0;
    } else {
      k := LiveRemove(es[..n], id, e);
      assert es[id := e][..n] == es[..n][id := e];
      if es[n].phase == Waiting {
        k := k + 1;
      }
    }
  }

  lemma {:induction false} CountAppend(told: seq<Told>, t: Told, id: nat)
    ensures Count(told + [t], id) == Count(told, id) + if t.id == id then 1 else 0
  {
  }

  // ----- Every step keeps the invariant

  lemma {:induction false} StartKeeps(s: State, kind: Kind)
    requires Inv(s) && s.open
    ensures Inv(DoStart(s, kind)) && Live(DoStart(s, kind).entries) == [|s.entries|] + Live(s.entries)
  {
    hide Chain, Push;
    var n, t := |s.entries|, DoStart(s, kind);
    assert t.entries[..n] == s.entries;
    LiveMembers(s.entries);
    PushPrepends(s.links, Live(s.entries), n);
    CountUnheard(s.told, n);
    forall i | 0 <= i < |t.entries| ensures Owned(t.entries[i]) && Heard(t, i) {
      if i < n { assert t.entries[i] == s.entries[i] && Heard(s, i); }
    }
  }

  lemma {:induction false} CountUnheard(told: seq<Told>, id: nat)
    requires forall i :: 0 <= i < |told| ==> told[i].id != id
    ensures Count(told, id) == 0
  {
    if told != [] {
      CountUnheard(told[..|told| - 1], id);
    }
  }

  /** Taking a waiting entry off the queue. */
  lemma {:induction false} EndKeepsChain(s: State, id: nat, e: Entry)
    requires Inv(s) && id < |s.entries| && s.entries[id].phase == Waiting && e.phase != Waiting
    ensures Chain(Unlink(s.links, id), Live(s.entries[id := e]))
  {
    hide Chain, Unlink;
    var k := LiveRemove(s.entries, id, e);
    UnlinkRemoves(s.links, Live(s.entries), k);
  }

  lemma {:induction false} DeliverKeeps(s: State, id: nat, m: MessageType)
    requires Inv(s) && Enabled(s, Deliver(id, m))
    ensures Inv(DoDeliver(s, id, m))
  {
    hide Chain, Unlink, Live;
    var e, t := s.entries[id], DoDeliver(s, id, m);
    assert Owned(e) && e.phase == Waiting;
    if Answers(e.kind, m) {
      EndKeepsChain(s, id, e.(phase := Answered, bus := false));
    }
    forall i | 0 <= i < |t.entries| ensures Owned(t.entries[i]) && Heard(t, i) {
      assert Owned(s.entries[i]) && Heard(s, i);
      if t.told != s.told { CountAppend(s.told, t.told[|s.told|], i); }
    }
  }

  lemma {:induction false} CancelKeeps(s: State, id: nat)
    requires Inv(s) && Enabled(s, Cancel(id)) && Orderly(s, Cancel(id))
    ensures Inv(DoCancel(s, id))
  {
    hide Chain, Unlink, Live, Harmless, Gone, Touched;
    var e, t := s.entries[id], DoCancel(s, id);
    assert Owned(e) && Heard(s, id);
    if e.wrapper {
      if e.phase == Waiting {
        EndKeepsChain(s, id, t.entries[id]);
      } else {
        LateCancelExact(s, id);
      }
      forall i | 0 <= i < |t.entries| ensures Owned(t.entries[i]) && Heard(t, i) {
        assert Owned(s.entries[i]) && Heard(s, i);
      }
    }
  }

  /** Cancelling a completed call leaves the queue as it was and writes to no destroyed entry
      exactly when nothing is queued, or the old neighbours of the call that are still queued are
      still adjacent and neither old neighbour is destroyed. */
  lemma {:induction false} LateCancelExact(s: State, id: nat)
    requires Inv(s) && LateCancel(s, Cancel(id))
    ensures Live(DoCancel(s, id).entries) == Live(s.entries)
    ensures Chain(DoCancel(s, id).links, Live(s.entries)) && Touched(s.links, id) !! Gone(s.entries) <==>
            Harmless(s.links, Live(s.entries), id, Gone(s.entries))
  {
    hide Chain, Unlink, Harmless, Touched, Gone;
    var t := DoCancel(s, id);
    LiveSame(s.entries, id, t.entries[id]);
    LiveMembers(s.entries);
    SecondUnlink(s.links, Live(s.entries), id, Gone(s.entries));
  }

  /** The entries a step reads or writes. */
  ghost function Touches(s: State, step: Step): set<nat>
    requires Enabled(s, step)
  {
    match step
    case Start(_) => Members(s.links.head)
    case Deliver(id, m) => {id} + if Answers(s.entries[id].kind, m) then Touched(s.links, id) else {}
    case Cancel(id) => if s.entries[id].wrapper then {id} + Touched(s.links, id) else {}
    case Close =>
      (set i | i in Follow(s.links, s.links.head, |s.entries|)) + (set i | 0 <= i < |s.entries| && s.entries[i].bus)
  }

  lemma {:induction false} LiveAllocated(s: State)
    requires Inv(s)
    ensures forall n :: n in Live(s.entries) ==> n < |s.entries| && n !in Gone(s.entries)
    ensures Members(s.links.head) !! Gone(s.entries)
  {
    LiveMembers(s.entries);
    assert forall n :: n in Live(s.entries) ==> Owned(s.entries[n]);
    assert s.links.head.Some? ==> s.links.head.value in Live(s.entries);
  }

  lemma {:induction false} NeighboursAllocated(s: State, id: nat)
    requires Inv(s) && id < |s.entries| && s.entries[id].phase == Waiting
    ensures forall n :: n in Touched(s.links, id) ==> n < |s.entries|
    ensures Touched(s.links, id) !! Gone(s.entries)
  {
    hide Chain, Touched, Gone;
    LiveMembers(s.entries);
    LiveAllocated(s);
    var k :| 0 <= k < |Live(s.entries)| && Live(s.entries)[k] == id;
    LiveChain(s);
    UnlinkTouches(s.links, Live(s.entries), k);
  }

  /** No step of an orderly run reads or writes an entry whose memory was given back. */
  lemma {:induction false} TouchesAllocated(s: State, step: Step)
    requires Inv(s) && Enabled(s, step) && Orderly(s, step)
    ensures Touches(s, step) !! Gone(s.entries)
  {
    hide Chain, Touched, Follow, Harmless;
    LiveAllocated(s);
    match step
    case Start(_) =>
    case Deliver(id, _) =>
      OwnedWaits(s, id);
      NeighboursAllocated(s, id);
    case Cancel(id) =>
      if s.entries[id].wrapper {
        assert Owned(s.entries[id]);
        if s.entries[id].phase == Waiting { NeighboursAllocated(s, id); } else { LateCancelExact(s, id); }
      }
    case Close =>
      WalkIsLive(s);
  }

  lemma {:induction false} CountAppendAll(told: seq<Told>, more: seq<Told>, id: nat)
    ensures Count(told + more, id) == Count(told, id) + Count(more, id)
  {
    if more == [] {
      assert told + more == told;
    } else {
      var n := |more| - 1;
      assert told + more == (told + more[..n]) + [more[n]] && more == more[..n] + [more[n]];
      CountAppend(told + more[..n], more[n], id);
      CountAppendAll(told, more[..n], id);
    }
  }

  lemma {:induction false} CountCloses(q: seq<nat>, id: nat)
    requires forall i, j :: 0 <= i < j < |q| ==> q[i] != q[j]
    ensures Count(Closes(q), id) == if id in q then 1 else 0
  {
    if q != [] {
      var n := |q| - 1;
      CountCloses(q[..n], id);
      assert Closes(q)[..n] == Closes(q[..n]);
      assert q == q[..n] + [q[n]];
    }
  }

  /** Close tells exactly the waiting entries, each once, newest first. */
  lemma {:induction false} CloseTells(s: State)
    requires Inv(s)
    ensures DoClose(s).told == s.told + Closes(Live(s.entries))
    ensures forall id: nat ::
      Count(Closes(Live(s.entries)), id) == if id < |s.entries| && s.entries[id].phase == Waiting then 1 else 0
  {
    var q := Live(s.entries);
    LiveMembers(s.entries);
    FollowChain(s.links, q, 0, |s.entries|);
    assert q[0..] == q;
    forall id: nat ensures Count(Closes(q), id) == if id in q then 1 else 0 {
      CountCloses(q, id);
    }
  }

  lemma {:induction false} CloseKeeps(s: State)
    requires Inv(s) && s.open
    ensures Inv(DoClose(s))
  {
    hide Count, Follow;
    var t, q := DoClose(s), Live(s.entries);
    CloseTells(s);
    LiveMembers(s.entries);
    WalkIsLive(s);
    forall i | 0 <= i < |t.entries| ensures Owned(t.entries[i]) && Heard(t, i) && t.entries[i].phase != Waiting {
      assert Owned(s.entries[i]) && Heard(s, i);
      assert t.entries[i] == Closed(s.entries[i], i in q);
      CountAppendAll(s.told, Closes(q), i);
    }
    NobodyLive(t.entries);
    forall i | 0 <= i < |t.told| ensures t.told[i].id < |t.entries| {
      if i >= |s.told| { assert t.told[i].id == q[i - |s.told|] && q[i - |s.told|] in q; }
    }
  }

  lemma {:induction false} WalkIsLive(s: State)
    requires Inv(s)
    ensures Follow(s.links, s.links.head, |s.entries|) == Live(s.entries)
  {
    LiveMembers(s.entries);
    FollowChain(s.links, Live(s.entries), 0, |s.entries|);
    assert Live(s.entries)[0..] == Live(s.entries);
  }

  lemma {:induction false} StepKeeps(s: State, step: Step)
    requires Inv(s) && Enabled(s, step) && Orderly(s, step)
    ensures Inv(Do(s, step))
  {
    match step
    case Start(kind) => StartKeeps(s, kind);
    case Deliver(id, m) => DeliverKeeps(s, id, m);
    case Cancel(id) => CancelKeeps(s, id);
    case Close => CloseKeeps(s);
  }

  // ----- Runs

  /** The state after a run from the start, None unless every step is possible when it is taken
      and every late cancel is orderly. */
  function Exec(run: seq<Step>): Option<State> {
    if run == [] then Some(INITIAL)
    else
      match Exec(run[..|run| - 1])
      case None => None
      case Some(s) =>
        var step := run[|run| - 1];
        if Enabled(s, step) && Orderly(s, step) then Some(Do(s, step)) else None
  }

  predicate IsRun(run: seq<Step>) {
    Exec(run).Some?
  }

  function After(run: seq<Step>): State
    requires IsRun(run)
  {
    Exec(run).value
  }

  lemma {:induction false} RunKeeps(run: seq<Step>)
    requires IsRun(run)
    ensures Inv(After(run))
    decreases |run|
  {
    if run != [] {
      RunKeeps(run[..|run| - 1]);
      StepKeeps(After(run[..|run| - 1]), run[|run| - 1]);
    }
  }

  /** A step of the run that ends the wait of an entry of this kind. */
  ghost predicate Ends(step: Step, id: nat, kind: Kind) {
    || step == Close
    || step == Cancel(id)
    || (step.Deliver? && step.id == id && kind == Call && step.m in {MethodReturn, MethodError})
  }

  lemma {:induction false} StepPhase(s: State, step: Step, id: nat)
    requires Inv(s) && Enabled(s, step) && id < |s.entries|
    ensures var t := Do(s, step);
      && id < |t.entries| && t.entries[id].kind == s.entries[id].kind
      && (t.entries[id].phase == Waiting <==> s.entries[id].phase == Waiting && !Ends(step, id, s.entries[id].kind))
  {
    hide Unlink, Push, Chain, Count;
    LiveMembers(s.entries);
    assert Owned(s.entries[id]);
    if step.Close? { WalkIsLive(s); }
  }

  ghost predicate Unended(run: seq<Step>, id: nat, kind: Kind) {
    forall k :: 0 <= k < |run| ==> !Ends(run[k], id, kind)
  }

  lemma {:induction false} UnendedStep(run: seq<Step>, id: nat, kind: Kind)
    requires run != []
    ensures Unended(run, id, kind) <==> Unended(run[..|run| - 1], id, kind) && !Ends(run[|run| - 1], id, kind)
  {
  }

  /** The entry's phase tells its history: it waits exactly as long as nothing has ended it. */
  lemma {:induction false} PhaseIsHistory(run: seq<Step>, id: nat)
    requires IsRun(run) && id < |After(run).entries|
    ensures After(run).entries[id].phase == Waiting <==> Unended(run, id, After(run).entries[id].kind)
    decreases |run|
  {
    hide Do, Enabled, Orderly, Inv, Ends, Unended;
    var n := |run| - 1;
    var s := After(run[..n]);
    RunKeeps(run[..n]);
    if id < |s.entries| {
      PhaseIsHistory(run[..n], id);
      StepPhase(s, run[n], id);
      UnendedStep(run, id, s.entries[id].kind);
    } else {
      StartsFresh(s, run[n], id);
      NotYet(run[..n], id, run[n].kind);
      UnendedStep(run, id, run[n].kind);
    }
  }

  lemma {:induction false} StartsFresh(s: State, step: Step, id: nat)
    requires Enabled(s, step) && |s.entries| <= id < |Do(s, step).entries|
    ensures step.Start? && s.open && Do(s, step).entries[id] == Entry(step.kind, Waiting, true, true)
    ensures forall kind :: !Ends(step, id, kind)
  {
  }

  /** No step refers to an entry before it is started, and nothing is started after a close. */
  lemma {:induction false} NotYet(run: seq<Step>, id: nat, kind: Kind)
    requires IsRun(run) && id >= |After(run).entries| && After(run).open
    ensures Unended(run, id, kind)
    decreases |run|
  {
    hide Orderly, Unended;
    if run == [] {
      UnendedNil(id, kind);
    } else {
      NotYet(run[..|run| - 1], id, kind);
      UnendedStep(run, id, kind);
    }
  }

  lemma {:induction false} UnendedNil(id: nat, kind: Kind)
    ensures Unended([], id, kind)
  {
  }

  // ----- Main results over every run

  /** The queue is a sound doubly linked list holding exactly the entries that no step has ended:
      unanswered, uncancelled calls and live matches. */
  lemma {:induction false} QueueHoldsPending(run: seq<Step>)
    requires IsRun(run)
    ensures var s := After(run);
      && Chain(s.links, Live(s.entries))
      && forall id: nat {:trigger id in Live(s.entries)} :: id in Live(s.entries) <==>
           id < |s.entries| && Unended(run, id, s.entries[id].kind)
  {
    var s := After(run);
    RunKeeps(run);
    LiveMembers(s.entries);
    forall id: nat | id < |s.entries|
      ensures s.entries[id].phase == Waiting <==> Unended(run, id, s.entries[id].kind)
    {
      PhaseIsHistory(run, id);
    }
  }

  /** Some step ended the entry's wait, and it was not a cancellation. */
  ghost predicate EndedWithNews(run: seq<Step>, id: nat, kind: Kind) {
    exists k :: 0 <= k < |run| && Unended(run[..k], id, kind) && Ends(run[k], id, kind) && !run[k].Cancel?
  }

  lemma {:induction false} NewsStep(run: seq<Step>, id: nat, kind: Kind)
    requires run != []
    ensures var front, last := run[..|run| - 1], run[|run| - 1];
      EndedWithNews(run, id, kind) <==>
      EndedWithNews(front, id, kind) || (Unended(front, id, kind) && Ends(last, id, kind) && !last.Cancel?)
  {
    hide Unended, Ends;
    var front, n := run[..|run| - 1], |run| - 1;
    assert forall k :: 0 <= k < n ==> front[k] == run[k] && front[..k] == run[..k];
    if EndedWithNews(run, id, kind) {
      var k :| 0 <= k < |run| && Unended(run[..k], id, kind) && Ends(run[k], id, kind) && !run[k].Cancel?;
      if k < n { assert Unended(front[..k], id, kind) && Ends(front[k], id, kind); }
    }
  }

  lemma {:induction false} StepNews(s: State, step: Step, id: nat)
    requires Inv(s) && Enabled(s, step) && id < |s.entries|
    ensures var t, e := Do(s, step), s.entries[id];
      && id < |t.entries| && t.entries[id].kind == e.kind
      && (t.entries[id].phase in {Answered, Shut} <==>
            e.phase in {Answered, Shut} || (e.phase == Waiting && Ends(step, id, e.kind) && !step.Cancel?))
  {
    hide Unlink, Push, Chain, Count;
    LiveMembers(s.entries);
    assert Owned(s.entries[id]);
    if step.Close? { WalkIsLive(s); }
  }

  lemma {:induction false} NewsIsHistory(run: seq<Step>, id: nat)
    requires IsRun(run) && id < |After(run).entries|
    ensures After(run).entries[id].phase in {Answered, Shut} <==> EndedWithNews(run, id, After(run).entries[id].kind)
    decreases |run|
  {
    hide Do, Enabled, Orderly, Inv, Ends, Unended, EndedWithNews;
    var n := |run| - 1;
    var s := After(run[..n]);
    RunKeeps(run[..n]);
    if id < |s.entries| {
      NewsIsHistory(run[..n], id);
      PhaseIsHistory(run[..n], id);
      StepNews(s, run[n], id);
      NewsStep(run, id, s.entries[id].kind);
    } else {
      StartsFresh(s, run[n], id);
      PhaseIsHistory(run, id);
      NoNews(run, id, run[n].kind);
    }
  }

  lemma {:induction false} NoNews(run: seq<Step>, id: nat, kind: Kind)
    requires Unended(run, id, kind)
    ensures !EndedWithNews(run, id, kind)
  {
  }

  /** A call's channel hears of it at most once in a run: exactly once when its wait was ended by
      an answer, an error or a close, and never while it waits or after it was cancelled. */
  lemma {:induction false} HeardAtMostOnce(run: seq<Step>, id: nat)
    requires IsRun(run) && id < |After(run).entries| && After(run).entries[id].kind == Call
    ensures Count(After(run).told, id) == if EndedWithNews(run, id, Call) then 1 else 0
  {
    hide EndedWithNews, Count;
    RunKeeps(run);
    NewsIsHistory(run, id);
    assert Heard(After(run), id);
  }

  // ----- What a channel hears

  /** The statuses told of an entry, in order. */
  ghost function News(told: seq<Told>, id: nat): seq<Status> {
    if told == [] then []
    else
      var last := told[|told| - 1];
      News(told[..|told| - 1], id) + if last.id == id then [last.status] else []
  }

  /** What a step means for the channel of an entry that is still waiting. */
  ghost function NewsOf(step: Step, id: nat): seq<Status> {
    match step
    case Deliver(i, m) =>
      if i != id || m == OtherType then [] else if m == MethodError then [ErrorStatus] else [OkStatus]
    case Close => [CloseStatus]
    case _ => []
  }

  /** What a run means for the channel of an entry: the news of every step up to the one that ends
      its wait. */
  ghost function Hears(run: seq<Step>, id: nat, kind: Kind): seq<Status> {
    if run == [] then []
    else
      var front := run[..|run| - 1];
      Hears(front, id, kind) + if Unended(front, id, kind) then NewsOf(run[|run| - 1], id) else []
  }

  lemma {:induction false} NewsAppend(told: seq<Told>, t: Told, id: nat)
    ensures News(told + [t], id) == News(told, id) + if t.id == id then [t.status] else []
  {
    assert (told + [t])[..|told|] == told;
  }

  lemma {:induction false} NewsAppendAll(told: seq<Told>, more: seq<Told>, id: nat)
    ensures News(told + more, id) == News(told, id) + News(more, id)
  {
    if more == [] {
      assert told + more == told;
    } else {
      var n := |more| - 1;
      assert told + more == (told + more[..n]) + [more[n]] && more == more[..n] + [more[n]];
      NewsAppend(told + more[..n], more[n], id);
      NewsAppendAll(told, more[..n], id);
    }
  }

  lemma {:induction false} NewsOfCloses(q: seq<nat>, id: nat)
    requires forall i, j :: 0 <= i < j < |q| ==> q[i] != q[j]
    ensures News(Closes(q), id) == if id in q then [CloseStatus] else []
  {
    if q != [] {
      var n := |q| - 1;
      NewsOfCloses(q[..n], id);
      assert Closes(q)[..n] == Closes(q[..n]);
      assert q == q[..n] + [q[n]];
    }
  }

  lemma {:induction false} NoNewsYet(told: seq<Told>, id: nat)
    requires forall i :: 0 <= i < |told| ==> told[i].id != id
    ensures News(told, id) == []
  {
    if told != [] {
      NoNewsYet(told[..|told| - 1], id);
    }
  }

  /** What a step adds to the news of an entry: something only while it waits. */
  lemma {:induction false} StepHeard(s: State, step: Step, id: nat)
    requires Inv(s) && Enabled(s, step) && id < |s.entries|
    ensures News(Do(s, step).told, id) ==
      News(s.told, id) + if s.entries[id].phase == Waiting then NewsOf(step, id) else []
  {
    hide Unlink, Push, Chain, News;
    match step
    case Start(_) =>
    case Cancel(_) =>
    case Deliver(i, m) =>
      OwnedWaits(s, i);
      if m != OtherType {
        NewsAppend(s.told, Told(i, if m == MethodError then ErrorStatus else OkStatus), id);
      }
    case Close =>
      CloseTells(s);
      LiveMembers(s.entries);
      LiveDistinct(s);
      NewsAppendAll(s.told, Closes(Live(s.entries)), id);
      NewsOfCloses(Live(s.entries), id);
  }

  lemma {:induction false} LiveDistinct(s: State)
    requires Inv(s)
    ensures var q := Live(s.entries); forall i, j :: 0 <= i < j < |q| ==> q[i] != q[j]
  {
  }

  lemma {:induction false} HearsNothingYet(run: seq<Step>, id: nat, kind: Kind)
    requires IsRun(run) && id >= |After(run).entries| && After(run).open
    ensures Hears(run, id, kind) == []
    decreases |run|
  {
    hide Orderly, Unended;
    if run != [] {
      HearsNothingYet(run[..|run| - 1], id, kind);
    }
  }

  /** In every run, what an entry's channel has heard is what the run means for it: one tuple for
      every message delivered while it waits, with the status :error for errors and :ok for any
      other, and one with :close if it still waits at the close. */
  lemma {:induction false} HeardIsHistory(run: seq<Step>, id: nat)
    requires IsRun(run) && id < |After(run).entries|
    ensures News(After(run).told, id) == Hears(run, id, After(run).entries[id].kind)
    decreases |run|
  {
    hide Do, Enabled, Orderly, Inv, Ends, Unended, News, NewsOf;
    var n := |run| - 1;
    var s := After(run[..n]);
    RunKeeps(run[..n]);
    if id < |s.entries| {
      HeardIsHistory(run[..n], id);
      StepPhase(s, run[n], id);
      StepHeard(s, run[n], id);
      PhaseIsHistory(run[..n], id);
    } else {
      StartsFresh(s, run[n], id);
      HearsNothingYet(run[..n], id, run[n].kind);
      FreshUnheard(s, run[n], id);
    }
  }

  lemma {:induction false} FreshUnheard(s: State, step: Step, id: nat)
    requires Inv(s) && Enabled(s, step) && step.Start? && id >= |s.entries|
    ensures News(Do(s, step).told, id) == [] && NewsOf(step, id) == []
  {
    NoNewsYet(s.told, id);
  }

  /** A call hears nothing while it waits, and once something has ended its wait it has heard
      exactly this: :ok for a return, :error for an error, :close for a close, and nothing for a
      cancellation. */
  lemma {:induction false} CallHears(run: seq<Step>, id: nat)
    requires IsRun(run) && id < |After(run).entries| && After(run).entries[id].kind == Call
    ensures Unended(run, id, Call) ==> News(After(run).told, id) == []
    ensures forall k :: 0 <= k < |run| && Unended(run[..k], id, Call) && Ends(run[k], id, Call) ==>
      News(After(run).told, id) ==
        match run[k]
        case Deliver(_, m) => [if m == MethodReturn then OkStatus else ErrorStatus]
        case Close => [CloseStatus]
        case _ => []
  {
    hide Ends, Unended, News, NewsOf, Hears, Exec;
    HeardIsHistory(run, id);
    HearsOnce(run, id);
    forall k | 0 <= k < |run| && Unended(run[..k], id, Call) && Ends(run[k], id, Call)
      ensures NewsOf(run[k], id) ==
        match run[k]
        case Deliver(_, m) => [if m == MethodReturn then OkStatus else ErrorStatus]
        case Close => [CloseStatus]
        case _ => []
    {
      EndNews(run[k], id);
    }
  }

  lemma {:induction false} EndNews(step: Step, id: nat)
    requires Ends(step, id, Call)
    ensures NewsOf(step, id) ==
      match step
      case Deliver(_, m) => [if m == MethodReturn then OkStatus else ErrorStatus]
      case Close => [CloseStatus]
      case _ => []
  {
  }

  lemma {:induction false} HearsOnce(run: seq<Step>, id: nat)
    requires IsRun(run) && id < |After(run).entries| && After(run).entries[id].kind == Call
    ensures Unended(run, id, Call) ==> Hears(run, id, Call) == []
    ensures forall k :: 0 <= k < |run| && Unended(run[..k], id, Call) && Ends(run[k], id, Call) ==>
      Hears(run, id, Call) == NewsOf(run[k], id)
    decreases |run|
  {
    hide Do, Enabled, Orderly, Inv, Ends, Unended, NewsOf;
    var n := |run| - 1;
    var front := run[..n];
    var s := After(front);
    RunKeeps(front);
    UnendedStep(run, id, Call);
    if id < |s.entries| {
      StepPhase(s, run[n], id);
      HearsOnce(front, id);
      CallNews(s, run[n], id);
    } else {
      StartsFresh(s, run[n], id);
      NotYet(front, id, Call);
      HearsNothingYet(front, id, Call);
      FreshUnheard(s, run[n], id);
      assert forall kind :: !Ends(run[n], id, kind);
    }
    forall k | 0 <= k < |run| && Unended(run[..k], id, Call) && Ends(run[k], id, Call)
      ensures Hears(run, id, Call) == NewsOf(run[k], id)
    {
      if k < n {
        assert front[..k] == run[..k] && front[k] == run[k];
        EndedStays(front, k, id);
      }
    }
  }

  lemma {:induction false} EndedStays(run: seq<Step>, k: nat, id: nat)
    requires k < |run| && Ends(run[k], id, Call)
    ensures !Unended(run, id, Call)
  {
  }

  /** A step that does not end a call's wait tells it nothing. */
  lemma {:induction false} CallNews(s: State, step: Step, id: nat)
    requires Inv(s) && Enabled(s, step) && id < |s.entries| && s.entries[id].kind == Call
    ensures !Ends(step, id, Call) ==> NewsOf(step, id) == []
  {
  }

  /** Closing tells every queued entry once, in queue order, and nobody else. */
  lemma {:induction false} CloseIsExact(run: seq<Step>)
    requires IsRun(run) && After(run).open
    ensures IsRun(run + [Close])
    ensures var s, t := After(run), After(run + [Close]);
      && t.told == s.told + Closes(Live(s.entries))
      && (forall id: nat :: id < |s.entries| ==>
            Count(t.told, id) == Count(s.told, id) + if s.entries[id].phase == Waiting then 1 else 0)
  {
    hide Count;
    assert (run + [Close])[..|run|] == run;
    RunKeeps(run);
    var s := After(run);
    CloseTells(s);
    forall id: nat | id < |s.entries|
      ensures Count(s.told + Closes(Live(s.entries)), id) ==
              Count(s.told, id) + if s.entries[id].phase == Waiting then 1 else 0
    {
      CountAppendAll(s.told, Closes(Live(s.entries)), id);
    }
  }

  /** Cancelling a call straight after its answer is always harmless. */
  lemma {:induction false} AnswerThenCancel(run: seq<Step>, id: nat, m: MessageType)
    requires IsRun(run) && Enabled(After(run), Deliver(id, m)) && Answers(After(run).entries[id].kind, m)
    ensures IsRun(run + [Deliver(id, m)])
    ensures var s := After(run + [Deliver(id, m)]);
      LateCancel(s, Cancel(id)) && Orderly(s, Cancel(id)) && Chain(Do(s, Cancel(id)).links, Live(s.entries))
  {
    hide Chain, Unlink, Harmless, Inv;
    assert (run + [Deliver(id, m)])[..|run|] == run;
    RunKeeps(run);
    var s := After(run);
    OwnedWaits(s, id);
    var e := s.entries[id].(phase := Answered, bus := false);
    var k := LiveRemove(s.entries, id, e);
    LiveChain(s);
    LiveAllocated(s);
    UnlinkTwice(s.links, Live(s.entries), k, Gone(s.entries));
    var t := After(run + [Deliver(id, m)]);
    assert t == DoDeliver(s, id, m);
    assert Gone(t.entries) == Gone(s.entries);
  }

  lemma {:induction false} OwnedWaits(s: State, id: nat)
    requires Inv(s) && id < |s.entries| && s.entries[id].bus
    ensures s.entries[id].phase == Waiting && s.entries[id].wrapper
  {
  }

  lemma {:induction false} LiveChain(s: State)
    requires Inv(s)
    ensures Chain(s.links, Live(s.entries))
  {
  }

  // ----- Late cancels that are not harmless

  /** A call is answered, another one is started, and then the first is cancelled: the second is
      still waiting but no longer queued, so closing the bus never tells its channel. */
  lemma {:induction false} LateCancelLosesCall()
    ensures var run := [Start(Call), Deliver(0, MethodReturn), Start(Call)];
      && IsRun(run) && Enabled(After(run), Cancel(0)) && !Orderly(After(run), Cancel(0))
      && var s := Do(After(run), Cancel(0));
         && s.entries[1].phase == Waiting
         && Chain(s.links, [])
         && Count(Do(s, Close).told, 1) == 0
  {
    hide Exec;
    ThreeSteps();
    var s3 := SECOND_WAITING;
    LiveMembers(s3.entries);
    assert 1 in Live(s3.entries) && s3.links.head == Some(1) && Prev(s3.links, 0) == Next(s3.links, 0) == None;
    var s := DoCancel(s3, 0);
    assert s.links.head == None && s.told == [Told(0, OkStatus)];
    var t := DoClose(s);
    assert t.told == s.told + [] == s.told;
    CountUnheard(t.told, 1);
  }

  const WAITING := Entry(Call, Waiting, true, true)
  const ANSWERED := Entry(Call, Answered, false, true)
  const CANCELLED := Entry(Call, Cancelled, false, false)

  const FIRST_WAITING := State(Links(Some(0), map[0 := None], map[0 := None]), [WAITING], [], true)

  const FIRST_ANSWERED := State(Links(None, map[0 := None], map[0 := None]), [ANSWERED], [Told(0, OkStatus)], true)

  const SECOND_WAITING := State(Links(Some(1), map[0 := None, 1 := None], map[0 := None, 1 := None]),
                                [ANSWERED, WAITING], [Told(0, OkStatus)], true)

  /** One more step of a run. */
  lemma {:induction false} ExecStep(run: seq<Step>, s: State, step: Step)
    requires Exec(run) == Some(s) && Enabled(s, step) && Orderly(s, step)
    ensures Exec(run + [step]) == Some(Do(s, step))
  {
    assert (run + [step])[..|run|] == run;
  }

  lemma {:induction false} ThreeSteps()
    ensures Exec([Start(Call), Deliver(0, MethodReturn), Start(Call)]) == Some(SECOND_WAITING)
  {
    hide Exec;
    StartsEmpty();
    ExecStep([], INITIAL, Start(Call));
    assert [] + [Start(Call)] == [Start(Call)];
    assert Do(INITIAL, Start(Call)) == FIRST_WAITING;
    ExecStep([Start(Call)], FIRST_WAITING, Deliver(0, MethodReturn));
    assert [Start(Call)] + [Deliver(0, MethodReturn)] == [Start(Call), Deliver(0, MethodReturn)];
    assert Do(FIRST_WAITING, Deliver(0, MethodReturn)) == FIRST_ANSWERED;
    var two := [Start(Call), Deliver(0, MethodReturn)];
    ExecStep(two, FIRST_ANSWERED, Start(Call));
    assert two + [Start(Call)] == [Start(Call), Deliver(0, MethodReturn), Start(Call)];
    assert Do(FIRST_ANSWERED, Start(Call)) == SECOND_WAITING;
  }

  lemma {:induction false} StartsEmpty()
    ensures Exec([]) == Some(INITIAL)
  {
  }
}
