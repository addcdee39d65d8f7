/** Driving sd-bus from the event loop (src/async.c: process_bus, setevents, settimeout). What
    sd-bus and the kernel answer is a script, consumed call by call; a script that runs out is
    a call that has not returned. */
module EventLoop {
  import opened Options

  const UINT64_MAX := 0xffff_ffff_ffff_ffff
  const POLLIN: nat := 1
  const POLLOUT: nat := 4

  datatype Flag = ReadableFlag | WritableFlag | OtherFlag(n: nat)

  datatype Outcome = Returned | Panicked | Stalled

  datatype Reply = Reply(rc: int, usec: nat)

  /** An absolute timer; all zero disarms it. */
  datatype Timer = Timer(sec: nat, nsec: nat)

  /** The answers of sd_bus_process, sd_bus_get_events, sd_bus_get_timeout and timerfd_settime. */
  datatype Script = Script(processed: seq<int>, events: seq<int>, timeouts: seq<Reply>, settimes: seq<int>)

  predicate HasBit(mask: nat, bit: nat)
    requires bit > 0
  {
    mask / bit % 2 == 1
  }

  /** The timer stands for exactly this many microseconds, and is disarmed for "no timeout". */
  ghost predicate Stands(t: Timer, usec: nat) {
    && t.nsec < 1_000_000_000
    && (t == Timer(0, 0) <==> usec == 0xffff_ffff_ffff_ffff)
    && (t != Timer(0, 0) ==> t.sec * 1_000_000_000 + t.nsec == usec * 1000)
  }

  /** The two poll flags are the lowest and the third bit of the mask. */
  ghost predicate Polls(flags: set<Flag>, mask: int) {
    && mask >= 0
    && (ReadableFlag in flags <==> mask % 2 == 1)
    && (WritableFlag in flags <==> mask / 4 % 2 == 1)
  }

  /** Flags other than the two poll flags agree. */
  ghost predicate Others(a: set<Flag>, b: set<Flag>) {
    forall n :: OtherFlag(n) in a <==> OtherFlag(n) in b
  }

  // ----- What a script leads to

  /** The answers left after `n` rounds in which sd-bus processed until it was quiet. */
  ghost function AfterQuiet(p: seq<int>, n: nat): Option<seq<int>>
    decreases |p|
  {
    if n == 0 then Some(p)
    else if p == [] || p[0] < 0 then None
    else AfterQuiet(p[1..], if p[0] == 0 then n - 1 else n)
  }

  /** Processing fails before sd-bus is quiet. */
  ghost predicate ProcessFails(p: seq<int>) {
    exists i :: 0 <= i < |p| && p[i] < 0 && forall j :: 0 <= j < i ==> p[j] > 0
  }

  /** The first `n` rounds went through, and in each of them sd-bus asked to be called at once. */
  ghost predicate Rounds(sc: Script, n: nat) {
    && AfterQuiet(sc.processed, n).Some? && n <= |sc.events| && n <= |sc.timeouts|
    && forall i :: 0 <= i < n ==> sc.events[i] >= 0 && sc.timeouts[i].rc >= 0 && sc.timeouts[i].usec == 0
  }

  /** After `n` such rounds, one more goes through, does not ask to be called at once, and the timer
      can be set. */
  ghost predicate Finishes(sc: Script, n: nat) {
    && Rounds(sc, n) && AfterQuiet(sc.processed, n + 1).Some?
    && n < |sc.events| && sc.events[n] >= 0
    && n < |sc.timeouts| && sc.timeouts[n].rc >= 0 && sc.timeouts[n].usec != 0
    && sc.settimes != [] && sc.settimes[0] != -1
  }

  /** After `n` such rounds, the first answer of the next round that matters is an error. */
  ghost predicate Fails(sc: Script, n: nat) {
    && Rounds(sc, n)
    && (|| ProcessFails(AfterQuiet(sc.processed, n).value)
        || (&& AfterQuiet(sc.processed, n + 1).Some? && n < |sc.events|
            && (|| sc.events[n] < 0
                || (&& n < |sc.timeouts|
                    && (|| sc.timeouts[n].rc < 0
                        || (sc.timeouts[n].usec != 0 && sc.settimes != [] && sc.settimes[0] == -1))))))
  }

  // ----- The same, round by round

  datatype End = Done(mask: int, usec: nat, left: Script) | Failure | Waiting

  /** The first answer that is not positive, and what is left after it. */
  ghost function Drain(p: seq<int>): Option<(int, seq<int>)> {
    if p == [] then None else if p[0] <= 0 then Some((p[0], p[1..])) else Drain(p[1..])
  }

  ghost function Run(sc: Script): End
    decreases |sc.timeouts|, 1
  {
    match Drain(sc.processed)
    case None => Waiting
    case Some((rc, rest)) =>
      if rc < 0 then Failure
      else if sc.events == [] then Waiting
      else if sc.events[0] < 0 then Failure
      else RunTimeout(sc.(processed := rest, events := sc.events[1..]), sc.events[0])
  }

  ghost function RunTimeout(sc: Script, mask: int): End
    decreases |sc.timeouts|, 0
  {
    if sc.timeouts == [] then Waiting
    else if sc.timeouts[0].rc < 0 then Failure
    else if sc.timeouts[0].usec == 0 then Run(sc.(timeouts := sc.timeouts[1..]))
    else if sc.settimes == [] then Waiting
    else if sc.settimes[0] == -1 then Failure
    else Done(mask, sc.timeouts[0].usec, sc.(timeouts := sc.timeouts[1..], settimes := sc.settimes[1..]))
  }

  /** The end of a script carries the mask and the time asked for in round `n`. */
  ghost predicate Reports(end: End, sc: Script, n: nat) {
    end.Done? && n < |sc.events| && n < |sc.timeouts| && end.mask == sc.events[n] && end.usec == sc.timeouts[n].usec
  }

  lemma {:induction false} DrainQuiet(p: seq<int>, n: nat)
    ensures match Drain(p)
      case None => AfterQuiet(p, n + 1).None?
      case Some((rc, rest)) => AfterQuiet(p, n + 1) == if rc < 0 then None else AfterQuiet(rest, n)
  {
    if p != [] && p[0] > 0 {
      DrainQuiet(p[1..], n);
    }
  }

  lemma {:induction false} DrainFails(p: seq<int>)
    ensures ProcessFails(p) <==> Drain(p).Some? && Drain(p).value.0 < 0
  {
    if p != [] && p[0] > 0 {
      DrainFails(p[1..]);
      if i :| 0 <= i < |p| && p[i] < 0 && forall j :: 0 <= j < i ==> p[j] > 0 {
        assert p[1..][i - 1] == p[i];
        assert forall j :: 0 <= j < i - 1 ==> p[1..][j] == p[j + 1];
      }
      if i :| 0 <= i < |p| - 1 && p[1..][i] < 0 && forall j :: 0 <= j < i ==> p[1..][j] > 0 {
        assert p[i + 1] < 0;
        assert forall j :: 0 < j < i + 1 ==> p[j] == p[1..][j - 1];
      }
    } else if p != [] && p[0] < 0 {
      assert ProcessFails(p);
    }
  }

  /** The first round goes through and sd-bus asks to be called at once. */
  ghost predicate GoesOn(sc: Script) {
    && Drain(sc.processed).Some? && Drain(sc.processed).value.0 == 0
    && sc.events != [] && sc.events[0] >= 0
    && sc.timeouts != [] && sc.timeouts[0].rc >= 0 && sc.timeouts[0].usec == 0
  }

  ghost function Onward(sc: Script): Script
    requires GoesOn(sc)
  {
    Script(Drain(sc.processed).value.1, sc.events[1..], sc.timeouts[1..], sc.settimes)
  }

  lemma {:induction false} RoundsOnward(sc: Script, n: nat)
    ensures Rounds(sc, n + 1) <==> GoesOn(sc) && Rounds(Onward(sc), n)
  {
    DrainQuiet(sc.processed, n);
    DrainSign(sc.processed);
    if Rounds(sc, n + 1) {
      assert sc.events[0] >= 0;
      assert forall i :: 0 <= i < n ==>
        sc.events[1..][i] == sc.events[i + 1] && sc.timeouts[1..][i] == sc.timeouts[i + 1];
    }
    if GoesOn(sc) && Rounds(Onward(sc), n) {
      forall i | 0 <= i < n + 1
        ensures sc.events[i] >= 0 && sc.timeouts[i].rc >= 0 && sc.timeouts[i].usec == 0
      {
        if i > 0 { assert sc.events[1..][i - 1] == sc.events[i] && sc.timeouts[1..][i - 1] == sc.timeouts[i]; }
      }
    }
  }

  lemma {:induction false} DrainSign(p: seq<int>)
    ensures Drain(p).Some? ==> Drain(p).value.0 <= 0
  {
    if p != [] && p[0] > 0 {
      DrainSign(p[1..]);
    }
  }

  lemma {:induction false} NextOnward(sc: Script, n: nat)
    requires GoesOn(sc)
    ensures Finishes(sc, n + 1) <==> Finishes(Onward(sc), n)
    ensures Fails(sc, n + 1) <==> Fails(Onward(sc), n)
    ensures Run(sc) == Run(Onward(sc))
  {
    hide Rounds, AfterQuiet, Drain, ProcessFails;
    RoundsOnward(sc, n);
    RoundsOnward(sc, n + 1);
    QuietOnward(sc, n);
    QuietOnward(sc, n + 1);
  }

  lemma {:induction false} QuietOnward(sc: Script, n: nat)
    requires GoesOn(sc)
    ensures AfterQuiet(sc.processed, n + 1) == AfterQuiet(Onward(sc).processed, n)
  {
    DrainQuiet(sc.processed, n);
  }

  /** Without a further round, the first one decides. */
  lemma {:induction false} FirstRound(sc: Script)
    requires !GoesOn(sc)
    ensures Run(sc).Done? <==> Finishes(sc, 0)
    ensures Run(sc).Failure? <==> Fails(sc, 0)
    ensures Finishes(sc, 0) ==> Reports(Run(sc), sc, 0)
    ensures forall n: nat :: n > 0 ==> !Finishes(sc, n) && !Fails(sc, n)
  {
    hide ProcessFails;
    DrainQuiet(sc.processed, 0);
    DrainFails(sc.processed);
    DrainSign(sc.processed);
    forall n: nat | n > 0 ensures !Rounds(sc, n) {
      RoundsOnward(sc, n - 1);
    }
  }

  /** Going round by round is what the script as a whole says. */
  lemma {:induction false} RunExact(sc: Script)
    ensures Run(sc).Done? <==> exists n: nat :: Finishes(sc, n)
    ensures Run(sc).Failure? <==> exists n: nat :: Fails(sc, n)
    ensures forall n: nat :: Finishes(sc, n) ==> Reports(Run(sc), sc, n)
    decreases |sc.timeouts|
  {
    hide Finishes, Fails, Run;
    if GoesOn(sc) {
      var on := Onward(sc);
      RunExact(on);
      FirstGoesOn(sc);
      forall n: nat
        ensures Finishes(sc, n + 1) <==> Finishes(on, n)
        ensures Fails(sc, n + 1) <==> Fails(on, n)
        ensures Run(sc) == Run(on)
      {
        NextOnward(sc, n);
      }
      assert Run(sc) == Run(on) by { NextOnward(sc, 0); }
      forall n: nat | Finishes(on, n) ensures Finishes(sc, n + 1) { NextOnward(sc, n); }
      forall n: nat | Fails(on, n) ensures Fails(sc, n + 1) { NextOnward(sc, n); }
      forall n: nat | Finishes(sc, n)
        ensures n > 0 && Finishes(on, n - 1)
        ensures Reports(Run(sc), sc, n)
      {
        NextOnward(sc, n - 1);
        assert Reports(Run(on), on, n - 1);
        assert sc.events[1..][n - 1] == sc.events[n] && sc.timeouts[1..][n - 1] == sc.timeouts[n];
      }
      forall n: nat | Fails(sc, n) ensures n > 0 && Fails(on, n - 1) { NextOnward(sc, n - 1); }
    } else {
      FirstRound(sc);
    }
  }

  lemma {:induction false} FirstGoesOn(sc: Script)
    requires GoesOn(sc)
    ensures !Finishes(sc, 0) && !Fails(sc, 0)
  {
    DrainFails(sc.processed);
  }

  // ----- The code

  class Conn {
    var processed: seq<int>
    var timeouts: seq<Reply>
    var events: seq<int>
    var settimes: seq<int>

    var flags: set<Flag>
    var timer: Timer

    constructor (processed: seq<int>, timeouts: seq<Reply>, events: seq<int>, settimes: seq<int>, flags: set<Flag>)
      ensures this.processed == processed && this.timeouts == timeouts
      ensures this.events == events && this.settimes == settimes
      ensures this.flags == flags && timer == Timer(0, 0)
    {
      this.processed, this.timeouts, this.events := processed, timeouts, events;
      this.settimes, this.flags, timer := settimes, flags, Timer(0, 0);
    }

    ghost function Answers(): Script
      reads this
    {
      Script(processed, events, timeouts, settimes)
    }

    /** What the outcome, the timer and the poll flags have to do with the end of a script. */
    ghost predicate Follows(o: Outcome, end: End)
      reads this
    {
      match end
      case Done(mask, usec, left) =>
        o == Returned && Answers() == left && Stands(timer, usec) && Polls(flags, mask)
      case Failure => o == Panicked
      case Waiting => o == Stalled
    }

    /** It returns exactly when sd-bus, after any number of rounds in which it asked to be called at
        once, is quiet and asks for a later time; then the timer stands for the time asked for in
        that last round and the poll flags are those asked for in it. It panics exactly when an
        answer on the way is an error. */
    method ProcessBus() returns (o: Outcome)
      modifies this
      ensures Follows(o, Run(old(Answers())))
      ensures o == Returned <==> exists n: nat :: Finishes(old(Answers()), n)
      ensures o == Panicked <==> exists n: nat :: Fails(old(Answers()), n)
      ensures forall n: nat :: Finishes(old(Answers()), n) ==>
        Stands(timer, old(timeouts)[n].usec) && Polls(flags, old(events)[n])
      ensures Others(flags, old(flags))
      decreases |timeouts|, 1
    {
      hide Finishes, Fails, RunTimeout, Stands, Polls;
      RunExact(Answers());
      var rv := 0;
      while true
        invariant timeouts == old(timeouts) && events == old(events) && settimes == old(settimes)
        invariant flags == old(flags)
        invariant Drain(processed) == Drain(old(processed))
        decreases |processed|
      {
        if processed == [] {
          return Stalled;
        }
        rv, processed := processed[0], processed[1..];
        if rv <= 0 {
          break;
        }
      }
      if rv < 0 {
        return Panicked;
      }
      o := SetEvents();
      if o != Returned {
        return;
      }
      o := SetTimeout(old(events)[0]);
    }

    /** The two poll flags follow the mask that sd-bus answers, the others stay. */
    method SetEvents() returns (o: Outcome)
      modifies this`events, this`flags
      ensures old(events) == [] ==> o == Stalled
      ensures old(events) != [] ==> events == old(events)[1..]
      ensures old(events) != [] && old(events)[0] < 0 ==> o == Panicked
      ensures old(events) != [] && old(events)[0] >= 0 ==> o == Returned && Polls(flags, old(events)[0])
      ensures Others(flags, old(flags))
    {
      if events == [] {
        return Stalled;
      }
      var mask := events[0];
      events := events[1..];
      if mask < 0 {
        return Panicked;
      }
      var wanted: set<Flag> := {};
      if HasBit(mask, POLLIN) {
        wanted := wanted + {ReadableFlag};
      }
      if HasBit(mask, POLLOUT) {
        wanted := wanted + {WritableFlag};
      }
      flags := (flags - {ReadableFlag, WritableFlag}) + wanted;
      return Returned;
    }

    /** A zero timeout means sd-bus wants to be called again at once; any other sets the timer. */
    method SetTimeout(ghost mask: int) returns (o: Outcome)
      requires Polls(flags, mask)
      modifies this
      ensures Follows(o, RunTimeout(old(Answers()), mask))
      ensures o == Returned && old(timeouts)[0].usec != 0 ==> Stands(timer, old(timeouts)[0].usec)
      ensures Others(flags, old(flags))
      decreases |timeouts|, 0
    {
      hide Run;
      if timeouts == [] {
        return Stalled;
      }
      var reply := timeouts[0];
      timeouts := timeouts[1..];
      if reply.rc < 0 {
        return Panicked;
      }
      if reply.usec == 0 {
        o := ProcessBus();
        return;
      }
      var value := Timer(0, 0);
      if reply.usec != UINT64_MAX {
        value := Timer(reply.usec / 1_000_000, reply.usec % 1_000_000 * 1000);
      }
      if settimes == [] {
        return Stalled;
      }
      var rc := settimes[0];
      settimes := settimes[1..];
      if rc == -1 {
        return Panicked;
      }
      timer := value;
      return Returned;
    }
  }
}
