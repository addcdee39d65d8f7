/** The pending-call protocol over memory blocks that are given back and handed out again
    (janet_smalloc and janet_free in src/call.c). The allocator is arbitrary: a new entry may get
    any block that no entry still holds. */
module PendingBlocks {
  import opened Options
  import opened PendingLinks
  import opened PendingQueue
  import opened PendingRuns

  /** A step and, for a start, the block that the allocator hands out. */
  datatype Placed = Placed(step: Step, block: nat)

  /** The protocol's state, the links found in memory, and the block that each entry was given. */
  datatype Memory = Memory(s: State, links: Links<nat>, at: seq<nat>)

  const EMPTY := Memory(INITIAL, INITIAL.links, [])

  function Held(es: seq<Entry>): set<nat> {
    set i | 0 <= i < |es| && !Destroyed(es[i])
  }

  /** No entry that is not destroyed holds the block. */
  predicate Free(w: Memory, block: nat) {
    |w.at| == |w.s.entries| && forall i :: 0 <= i < |w.at| && !Destroyed(w.s.entries[i]) ==> w.at[i] != block
  }

  predicate Possible(w: Memory, p: Placed) {
    Enabled(w.s, p.step) && |w.at| == |w.s.entries| && (p.step.Start? ==> Free(w, p.block))
  }

  /** The same code, run on the links in memory. */
  function Act(w: Memory, p: Placed): Memory
    requires Possible(w, p)
  {
    var s := w.s;
    Memory(Do(s, p.step), ActLinks(w, p), if p.step.Start? then w.at + [p.block] else w.at)
  }

  function ActLinks(w: Memory, p: Placed): Links<nat>
    requires Possible(w, p)
  {
    match p.step
    case Start(_) => Push(w.links, p.block)
    case Deliver(id, m) => if Answers(w.s.entries[id].kind, m) then Unlink(w.links, w.at[id]) else w.links
    case Cancel(id) => if w.s.entries[id].wrapper then Unlink(w.links, w.at[id]) else w.links
    case Close => w.links.(head := None)
  }

  /** The memory after a run, None unless every step is possible and orderly when it is taken. */
  function ExecIn(run: seq<Placed>): Option<Memory> {
    if run == [] then Some(EMPTY)
    else
      match ExecIn(run[..|run| - 1])
      case None => None
      case Some(w) =>
        var p := run[|run| - 1];
        if Possible(w, p) && Orderly(w.s, p.step) then Some(Act(w, p)) else None
  }

  function Steps(run: seq<Placed>): seq<Step> {
    seq(|run|, i requires 0 <= i < |run| => run[i].step)
  }

  /** Memory holds the links of the protocol as far as entries that are not destroyed go. */
  ghost predicate Sound(w: Memory) {
    && |w.at| == |w.s.entries|
    && Mirrors(w.s.links, w.links, w.at, Held(w.s.entries))
  }

  lemma {:induction false} HeldOrGone(s: State, id: nat)
    requires id < |s.entries|
    ensures id in Held(s.entries) <==> id !in Gone(s.entries)
    ensures s.entries[id].wrapper || s.entries[id].bus ==> id in Held(s.entries)
  {
  }

  lemma {:induction false} StartSound(w: Memory, p: Placed)
    requires Inv(w.s) && Sound(w) && Possible(w, p) && p.step.Start?
    ensures Sound(Act(w, p))
  {
    hide Mirrors, Push, Inv, Orderly;
    var s, t := w.s, Do(w.s, p.step);
    LiveAllocated(s);
    HeadHeld(w);
    MirrorPush(s.links, w.links, w.at, Held(s.entries), p.block);
    assert Held(t.entries) == Held(s.entries) + {|s.entries|};
  }

  lemma {:induction false} HeadHeld(w: Memory)
    requires Inv(w.s) && Sound(w)
    ensures Members(w.s.links.head) <= Held(w.s.entries)
  {
    LiveAllocated(w.s);
    if w.s.links.head.Some? { HeldOrGone(w.s, w.s.links.head.value); }
  }

  /** Unlinking an entry that is not destroyed and whose neighbours are not destroyed. */
  lemma {:induction false} UnlinkSound(w: Memory, id: nat)
    requires Sound(w) && id < |w.s.entries| && (w.s.entries[id].wrapper || w.s.entries[id].bus)
    requires Touched(w.s.links, id) !! Gone(w.s.entries)
    ensures Mirrors(Unlink(w.s.links, id), Unlink(w.links, w.at[id]), w.at, Held(w.s.entries))
  {
    hide Unlink, Gone, Held, Mirrors;
    HeldOrGone(w.s, id);
    TouchedWithin(w.s.links, w.links, w.at, Held(w.s.entries), id);
    forall n | n in Touched(w.s.links, id) ensures n in Held(w.s.entries) {
      HeldOrGone(w.s, n);
    }
    MirrorUnlink(w.s.links, w.links, w.at, Held(w.s.entries), id);
  }

  lemma {:induction false} TouchedWithin<M>(l: Links<nat>, m: Links<M>, at: seq<M>, used: set<nat>, p: nat)
    requires Mirrors(l, m, at, used) && p in used
    ensures forall n :: n in Touched(l, p) ==> n < |at|
  {
  }

  lemma {:induction false} DeliverSound(w: Memory, p: Placed)
    requires Inv(w.s) && Sound(w) && Possible(w, p) && p.step.Deliver?
    ensures Sound(Act(w, p))
  {
    hide Mirrors, Unlink, Inv, Touched, Gone;
    var id := p.step.id;
    OwnedWaits(w.s, id);
    NeighboursAllocated(w.s, id);
    UnlinkSound(w, id);
    assert Held(Do(w.s, p.step).entries) == Held(w.s.entries);
  }

  lemma {:induction false} CancelSound(w: Memory, p: Placed)
    requires Inv(w.s) && Sound(w) && Possible(w, p) && p.step.Cancel? && Orderly(w.s, p.step)
    ensures Sound(Act(w, p))
  {
    hide Mirrors, Unlink, Inv, Touched, Gone, Orderly;
    var id := p.step.id;
    if w.s.entries[id].wrapper {
      TouchesAllocated(w.s, p.step);
      UnlinkSound(w, id);
      var t := Do(w.s, p.step);
      MirrorFewer(t.links, Unlink(w.links, w.at[id]), w.at, Held(w.s.entries), Held(t.entries));
    }
  }

  lemma {:induction false} CloseSound(w: Memory, p: Placed)
    requires Sound(w) && Possible(w, p) && p.step.Close?
    ensures Sound(Act(w, p))
  {
    hide Follow;
    var t := Do(w.s, p.step);
    assert Held(t.entries) <= Held(w.s.entries);
    NoHead(w.s.links, w.links, w.at, Held(w.s.entries));
    MirrorFewer(t.links, w.links.(head := None), w.at, Held(w.s.entries), Held(t.entries));
  }

  lemma {:induction false} NoHead<M>(l: Links<nat>, m: Links<M>, at: seq<M>, used: set<nat>)
    requires Mirrors(l, m, at, used)
    ensures Mirrors(l.(head := None), m.(head := None), at, used)
  {
  }

  lemma {:induction false} ActSound(w: Memory, p: Placed)
    requires Inv(w.s) && Sound(w) && Possible(w, p) && Orderly(w.s, p.step)
    ensures Sound(Act(w, p))
  {
    match p.step
    case Start(_) => StartSound(w, p);
    case Deliver(_, _) => DeliverSound(w, p);
    case Cancel(_) => CancelSound(w, p);
    case Close => CloseSound(w, p);
  }

  lemma {:induction false} RunSound(run: seq<Placed>)
    requires ExecIn(run).Some?
    ensures Exec(Steps(run)) == Some(ExecIn(run).value.s)
    ensures Sound(ExecIn(run).value)
    decreases |run|
  {
    hide Sound, Inv, Orderly, Enabled, Do, ActLinks;
    if run == [] {
      assert Steps(run) == [];
      NothingPlaced();
    } else {
      var n := |run| - 1;
      RunSound(run[..n]);
      var w := ExecIn(run[..n]).value;
      assert Steps(run) == Steps(run[..n]) + [run[n].step];
      RunKeeps(Steps(run[..n]));
      ActSound(w, run[n]);
      ExecStep(Steps(run[..n]), w.s, run[n].step);
    }
  }

  lemma {:induction false} NothingPlaced()
    ensures Sound(EMPTY)
  {
  }

  /** Whatever blocks the allocator hands out, the list found in memory is sound and holds exactly
      the blocks of the entries that no step has ended, newest first; so the walk of a close meets
      these blocks in this order. */
  lemma {:induction false} MemoryHoldsPending(run: seq<Placed>)
    requires ExecIn(run).Some?
    ensures var w := ExecIn(run).value;
      && Exec(Steps(run)) == Some(w.s)
      && (forall i :: 0 <= i < |Live(w.s.entries)| ==> Live(w.s.entries)[i] < |w.at|)
      && Chain(w.links, Image(Live(w.s.entries), w.at))
      && Follow(w.links, w.links.head, |w.at|) == Image(Live(w.s.entries), w.at)
  {
    hide Chain, Mirrors, Gone, Held, Follow, ExecIn, Exec;
    var w := ExecIn(run).value;
    var q := Live(w.s.entries);
    RunSound(run);
    RunKeeps(Steps(run));
    LiveMembers(w.s.entries);
    LiveAllocated(w.s);
    forall n | n in q ensures n in Held(w.s.entries) {
      HeldOrGone(w.s, n);
    }
    LiveChain(w.s);
    MirrorChain(w.s.links, w.links, w.at, Held(w.s.entries), q);
    FollowChain(w.links, Image(q, w.at), 0, |w.at|);
    ChainHead(w.links, Image(q, w.at));
    assert Image(q, w.at)[0..] == Image(q, w.at);
  }

  /** A run goes through in memory exactly when it is a run of the protocol and the allocator hands
      out free blocks only: memory never makes a step impossible. */
  lemma {:induction false} MemoryAllows(run: seq<Placed>, p: Placed)
    requires ExecIn(run).Some?
    ensures ExecIn(run + [p]).Some? <==>
            IsRun(Steps(run + [p])) && (p.step.Start? ==> Free(ExecIn(run).value, p.block))
  {
    hide Sound, Inv, Orderly, Enabled, Do, Free, ActLinks;
    RunSound(run);
    AtLength(run);
    assert (run + [p])[..|run|] == run;
    assert Steps(run + [p]) == Steps(run) + [p.step];
    assert Steps(run + [p])[..|run|] == Steps(run);
  }

  lemma {:induction false} AtLength(run: seq<Placed>)
    requires ExecIn(run).Some?
    ensures var w := ExecIn(run).value; |w.at| == |w.s.entries|
  {
    RunSound(run);
  }

  // ----- A late cancel whose old neighbour was destroyed

  /** Three calls are started; the oldest is answered, the middle one cancelled and destroyed, and
      a fourth one gets its block. Cancelling the oldest then finds its old neighbours as adjacent
      as ever, but writes through the reused block: the third call is still waiting and no longer
      in the list. */
  lemma {:induction false} LateCancelWritesReused()
    ensures ExecIn(SIX_STEPS) == Some(SIXTH)
    ensures var s, cancel := SIXTH.s, Cancel(0);
      && LateCancel(s, cancel) && Adjacent(s.links, Live(s.entries), 0) && !Orderly(s, cancel)
      && Chain(SIXTH.links, [1, 2]) && SIXTH.at[3] == 1 && SIXTH.at[2] == 2
      && Do(s, cancel).entries[2].phase == Waiting
      && Chain(ActLinks(SIXTH, Placed(cancel, 0)), [1])
  {
    hide ExecIn, ActLinks, Live, Exec;
    SixSteps();
    LiveMembers(SIXTH.s.entries);
    SixthCancelled();
  }

  lemma {:induction false} SixthCancelled()
    ensures Chain(ActLinks(SIXTH, Placed(Cancel(0), 0)), [1]) && Chain(SIXTH.links, [1, 2])
  {
  }

  const TWO_STARTS := [Placed(Start(Call), 0), Placed(Start(Call), 1)]

  const THREE_STEPS := TWO_STARTS + [Placed(Start(Call), 2)]

  const FIVE_STEPS := THREE_STEPS + [Placed(Deliver(0, MethodReturn), 0), Placed(Cancel(1), 0)]

  const SIX_STEPS := FIVE_STEPS + [Placed(Start(Call), 1)]

  const SECOND_LINKS := Links(Some(1), map[0 := Some(1), 1 := None], map[0 := None, 1 := Some(0)])

  const SECOND := Memory(State(SECOND_LINKS, [WAITING, WAITING], [], true), SECOND_LINKS, [0, 1])

  const THIRD_LINKS :=
    Links(Some(2), map[0 := Some(1), 1 := Some(2), 2 := None], map[0 := None, 1 := Some(0), 2 := Some(1)])

  const THIRD := Memory(State(THIRD_LINKS, [WAITING, WAITING, WAITING], [], true), THIRD_LINKS, [0, 1, 2])

  const FIFTH_LINKS := Links(Some(2), map[0 := Some(1), 1 := Some(2), 2 := None], map[0 := None, 1 := None, 2 := None])

  const FIFTH :=
    Memory(State(FIFTH_LINKS, [ANSWERED, CANCELLED, WAITING], [Told(0, OkStatus)], true), FIFTH_LINKS, [0, 1, 2])

  /** The protocol's links with four entries, and the links in memory with three blocks. */
  const SIXTH :=
    Memory(State(Links(Some(3), map[0 := Some(1), 1 := Some(2), 2 := Some(3), 3 := None],
                       map[0 := None, 1 := None, 2 := None, 3 := Some(2)]),
                 [ANSWERED, CANCELLED, WAITING, WAITING], [Told(0, OkStatus)], true),
           Links(Some(1), map[0 := Some(1), 1 := None, 2 := Some(1)], map[0 := None, 1 := Some(2), 2 := None]),
           [0, 1, 2, 1])

  lemma {:induction false} ActStep(run: seq<Placed>, w: Memory, p: Placed)
    requires ExecIn(run) == Some(w) && Possible(w, p) && Orderly(w.s, p.step)
    ensures ExecIn(run + [p]) == Some(Act(w, p))
  {
    assert (run + [p])[..|run|] == run;
  }

  lemma {:induction false} TwoStarts()
    ensures ExecIn(TWO_STARTS) == Some(SECOND)
  {
    hide ExecIn, Orderly;
    StartsUnplaced();
    StartsOrderly();
    var first, second := Placed(Start(Call), 0), Placed(Start(Call), 1);
    ActStep([], EMPTY, first);
    assert [] + [first] == [first];
    ActStep([first], Act(EMPTY, first), second);
    assert [first] + [second] == TWO_STARTS;
    assert Act(Act(EMPTY, first), second) == SECOND;
  }

  lemma {:induction false} ThreeStarts()
    ensures ExecIn(THREE_STEPS) == Some(THIRD)
  {
    hide ExecIn, Orderly;
    TwoStarts();
    StartsOrderly();
    ActStep(TWO_STARTS, SECOND, Placed(Start(Call), 2));
    assert Act(SECOND, Placed(Start(Call), 2)) == THIRD;
  }

  lemma {:induction false} StartsOrderly()
    ensures forall s, kind :: Orderly(s, Start(kind))
  {
  }

  lemma {:induction false} StartsUnplaced()
    ensures ExecIn([]) == Some(EMPTY)
  {
  }

  const ANSWER := Placed(Deliver(0, MethodReturn), 0)

  const FOURTH_LINKS := THIRD_LINKS.(next := map[0 := None, 1 := None, 2 := Some(1)])

  const FOURTH :=
    Memory(State(FOURTH_LINKS, [ANSWERED, WAITING, WAITING], [Told(0, OkStatus)], true), FOURTH_LINKS, [0, 1, 2])

  lemma {:induction false} FourSteps()
    ensures ExecIn(THREE_STEPS + [ANSWER]) == Some(FOURTH)
  {
    hide ExecIn, Harmless;
    ThreeStarts();
    ActStep(THREE_STEPS, THIRD, ANSWER);
    assert Act(THIRD, ANSWER) == FOURTH;
  }

  lemma {:induction false} FiveSteps()
    ensures ExecIn(FIVE_STEPS) == Some(FIFTH)
  {
    hide ExecIn, Harmless;
    FourSteps();
    var cancel := Placed(Cancel(1), 0);
    ActStep(THREE_STEPS + [ANSWER], FOURTH, cancel);
    assert THREE_STEPS + [ANSWER] + [cancel] == FIVE_STEPS;
    assert Act(FOURTH, cancel) == FIFTH;
  }

  lemma {:induction false} SixSteps()
    ensures ExecIn(SIX_STEPS) == Some(SIXTH)
  {
    hide ExecIn, Orderly, ActLinks, Do, Possible;
    FiveSteps();
    StartsOrderly();
    FourthStart();
    FourthState();
    ActStep(FIVE_STEPS, FIFTH, Placed(Start(Call), 1));
  }

  /** The cancelled call's block is free. */
  lemma {:induction false} FourthStart()
    ensures Possible(FIFTH, Placed(Start(Call), 1))
    ensures ActLinks(FIFTH, Placed(Start(Call), 1)) == SIXTH.links && FIFTH.at + [1] == SIXTH.at
  {
  }

  lemma {:induction false} FourthState()
    ensures Enabled(FIFTH.s, Start(Call)) && Do(FIFTH.s, Start(Call)) == SIXTH.s
  {
  }
}
