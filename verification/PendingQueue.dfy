/** The queue of pending calls and matches on the heap (src/async.c). */
module PendingQueue {
  import opened Options
  import opened PendingLinks

  datatype Kind = Call | Match

  datatype Status = OkStatus | ErrorStatus | CloseStatus

  datatype MessageType = MethodCall | MethodReturn | MethodError | Signal | OtherType

  /** Messages that complete a pending call. */
  predicate Answers(kind: Kind, m: MessageType) {
    kind == Call && (m == MethodReturn || m == MethodError)
  }

  /** What a channel receives. */
  datatype Give = Give(chan: nat, status: Status, msg: string)

  class AsyncPending {
    const chan: nat
    const kind: Kind
    var next: AsyncPending?
    var prev: AsyncPending?
    /** Whether the slot wrapper and the bus still hold their references to the slot. */
    var held: bool
    var owned: bool
    /** Whether the entry's memory was given back. */
    var freed: bool

    constructor (kind: Kind, chan: nat)
      ensures this.kind == kind && this.chan == chan && held && owned && !freed && next == null && prev == null
    {
      this.kind, this.chan := kind, chan;
      next, prev, held, owned, freed := null, null, true, true, false;
    }
  }

  function Opt(p: AsyncPending?): Option<AsyncPending> {
    if p == null then None else Some(p)
  }

  class Conn {
    var queue: AsyncPending?
    var given: seq<Give>
    /** Whether the bus stream, the timer and the bus itself are still there. */
    var stream: bool
    var timer: bool
    var bus: bool

    constructor ()
      ensures queue == null && given == [] && stream && timer && bus
    {
      queue, given, stream, timer, bus := null, [], true, true, true;
    }

    /** Links from nodes of `all` lead to nodes of `all`. */
    ghost predicate Closed(all: set<AsyncPending>)
      reads this`queue, all`next, all`prev
    {
      && (queue != null ==> queue in all)
      && forall p :: p in all ==> (p.next != null ==> p.next in all) && (p.prev != null ==> p.prev in all)
    }

    /** The heap's links, as tables over the nodes of `all`. */
    ghost function Snap(all: set<AsyncPending>): Links<AsyncPending>
      reads this`queue, all`next, all`prev
    {
      Links(Opt(queue), map p | p in all :: Opt(p.prev), map p | p in all :: Opt(p.next))
    }

    /** Neither the entry nor what unlinking it writes to was given back. */
    ghost predicate Unlinkable(pending: AsyncPending, all: set<AsyncPending>)
      reads this`queue, all`next, all`prev, pending`freed, all`freed
    {
      !pending.freed && forall p :: p in all && p in Touched(Snap(all), pending) ==> !p.freed
    }

    method QueuePending(pending: AsyncPending, ghost all: set<AsyncPending>)
      requires pending in all && Closed(all) && !pending.freed && (queue != null ==> !queue.freed)
      modifies this`queue, all`next, all`prev
      ensures Closed(all) && Snap(all) == Push(old(Snap(all)), pending)
    {
      hide Snap, PushAhead, PushFront, Closed;
      PointAhead(pending, all);
      TakeFront(pending, all);
    }

    /** First half of queue_pending: the new entry leads to the old front. */
    method PointAhead(pending: AsyncPending, ghost all: set<AsyncPending>)
      requires pending in all && Closed(all) && !pending.freed
      modifies pending`next, pending`prev
      ensures Closed(all) && Snap(all) == PushAhead(old(Snap(all)), pending)
    {
      pending.prev := null;
      pending.next := queue;
    }

    /** Second half: the old front leads back to the new entry, which becomes the front. */
    method TakeFront(pending: AsyncPending, ghost all: set<AsyncPending>)
      requires pending in all && Closed(all) && (queue != null ==> !queue.freed)
      modifies this`queue, all`prev
      ensures Closed(all) && Snap(all) == PushFront(old(Snap(all)), pending)
    {
      if queue != null {
        LeadBack(pending, all);
      }
      queue := pending;
    }

    method LeadBack(pending: AsyncPending, ghost all: set<AsyncPending>)
      requires pending in all && Closed(all) && queue != null && !queue.freed
      modifies all`prev
      ensures Closed(all)
      ensures Snap(all) == old(Snap(all)).(prev := old(Snap(all)).prev[queue := Some(pending)])
    {
      queue.prev := pending;
    }

    /** cfun_call_async and cfun_match_async: a request that sd-bus refuses leaves no trace; any
        other is queued in front, its slot owned by both bus and wrapper. */
    method Start(kind: Kind, chan: nat, rv: int, ghost all: set<AsyncPending>) returns (p: AsyncPending?)
      requires Closed(all) && (queue != null ==> !queue.freed)
      modifies this`queue, all`next, all`prev
      ensures p == null <==> rv < 0
      ensures rv < 0 ==> Snap(all) == old(Snap(all))
      ensures p != null ==> fresh(p) && p.kind == kind && p.chan == chan && p.held && p.owned && !p.freed
      ensures p != null ==> Closed(all + {p}) && Snap(all + {p}) == Push(old(Snap(all)), p)
    {
      var state := new AsyncPending(kind, chan);
      if rv < 0 {
        return null;
      }
      WiderSnap(all, state);
      QueuePending(state, all + {state});
      PushFresh(old(Snap(all)), state);
      return state;
    }

    /** A node with empty links that nothing leads to. */
    lemma {:induction false} WiderSnap(all: set<AsyncPending>, p: AsyncPending)
      requires Closed(all) && p.next == null && p.prev == null
      ensures Closed(all + {p})
      ensures Snap(all + {p}) == Snap(all).(prev := Snap(all).prev[p := None], next := Snap(all).next[p := None])
    {
    }

    method DequeuePending(pending: AsyncPending, ghost all: set<AsyncPending>)
      requires pending in all && Closed(all) && Unlinkable(pending, all)
      modifies this`queue, all`next, all`prev
      ensures Closed(all) && Snap(all) == Unlink(old(Snap(all)), pending)
    {
      hide Snap, UnlinkPrev, UnlinkNext, Closed, Unlinkable;
      SnapHead(all);
      if queue == null {
        return;
      }
      NeighboursThere(pending, all);
      BypassPrev(pending, all);
      BypassNext(pending, all);
    }

    lemma SnapHead(all: set<AsyncPending>)
      ensures Snap(all).head == Opt(queue)
    {
    }

    /** destroy_call_callback, which sd-bus runs when the last owner has let go of the slot. */
    method Destroy(pending: AsyncPending, ghost all: set<AsyncPending>)
      requires pending in all && Closed(all) && Unlinkable(pending, all)
      modifies this`queue, all`next, all`prev, pending`freed
      ensures Closed(all) && Snap(all) == Unlink(old(Snap(all)), pending) && pending.freed
    {
      hide Snap, Unlink, Closed, Unlinkable;
      DequeuePending(pending, all);
      pending.freed := true;
    }

    /** The wrapper lets go of the slot, if it still holds it. */
    method Release(pending: AsyncPending, ghost all: set<AsyncPending>)
      requires pending in all && Closed(all) && (pending.held && !pending.owned ==> Unlinkable(pending, all))
      modifies this`queue, all`next, all`prev, pending`held, pending`freed
      ensures Closed(all) && !pending.held
      ensures Snap(all) ==
              if old(pending.held) && !pending.owned then Unlink(old(Snap(all)), pending) else old(Snap(all))
      ensures pending.freed == (old(pending.freed) || (old(pending.held) && !pending.owned))
    {
      hide Snap, Unlink, Closed;
      if !pending.held {
        return;
      }
      pending.held := false;
      if !pending.owned {
        Destroy(pending, all);
      }
    }

    /** The bus lets go of the slot, if it still owns it. */
    method BusLetsGo(pending: AsyncPending, ghost all: set<AsyncPending>)
      requires pending in all && Closed(all) && (pending.owned && !pending.held ==> Unlinkable(pending, all))
      modifies this`queue, all`next, all`prev, pending`owned, pending`freed
      ensures Closed(all) && !pending.owned
      ensures Snap(all) ==
              if old(pending.owned) && !pending.held then Unlink(old(Snap(all)), pending) else old(Snap(all))
      ensures pending.freed == (old(pending.freed) || (old(pending.owned) && !pending.held))
    {
      hide Snap, Unlink, Closed;
      if !pending.owned {
        return;
      }
      pending.owned := false;
      if !pending.held {
        Destroy(pending, all);
      }
    }

    /** cfun_cancel_slot on the wrapper of an entry: the slot stops floating, so the bus lets go,
        and the wrapper lets go; once the wrapper has let go, nothing happens. */
    method CancelSlot(pending: AsyncPending, ghost all: set<AsyncPending>)
      requires pending in all && Closed(all) && (pending.held ==> Unlinkable(pending, all))
      modifies this`queue, all`next, all`prev, pending`held, pending`owned, pending`freed
      ensures Closed(all) && !pending.held
      ensures Snap(all) == if old(pending.held) then Unlink(old(Snap(all)), pending) else old(Snap(all))
      ensures pending.owned == (old(pending.owned) && !old(pending.held))
      ensures pending.freed == (old(pending.freed) || old(pending.held))
    {
      hide Snap, Unlink, Closed;
      if !pending.held {
        return;
      }
      BusLetsGo(pending, all);
      Release(pending, all);
    }

    lemma {:induction false} NeighboursThere(pending: AsyncPending, all: set<AsyncPending>)
      requires pending in all && Closed(all) && Unlinkable(pending, all) && queue != null
      ensures !pending.freed && (pending.prev != null ==> !pending.prev.freed)
      ensures pending.next != null ==> !pending.next.freed
    {
      assert Prev(Snap(all), pending) == Opt(pending.prev) && Next(Snap(all), pending) == Opt(pending.next);
    }

    /** First half of dequeue_pending: what leads to the entry now leads past it. */
    method BypassPrev(pending: AsyncPending, ghost all: set<AsyncPending>)
      requires pending in all && Closed(all) && !pending.freed && (pending.prev != null ==> !pending.prev.freed)
      modifies this`queue, all`next
      ensures Closed(all) && Snap(all) == UnlinkPrev(old(Snap(all)), pending) && pending.next == old(pending.next)
    {
      if pending.prev != null {
        pending.prev.next := pending.next;
      } else {
        queue := pending.next;
      }
    }

    /** Second half: what the entry leads to now leads back past it. */
    method BypassNext(pending: AsyncPending, ghost all: set<AsyncPending>)
      requires pending in all && Closed(all) && !pending.freed && (pending.next != null ==> !pending.next.freed)
      modifies all`prev
      ensures Closed(all) && Snap(all) == UnlinkNext(old(Snap(all)), pending)
    {
      if pending.next != null {
        pending.next.prev := pending.prev;
      }
    }

    lemma {:induction false} ChainOnHeap(all: set<AsyncPending>, q: seq<AsyncPending>, i: nat)
      requires Chain(Snap(all), q) && i < |q| && q[i] in all
      ensures Opt(q[i].next) == At(q, i + 1)
    {
      hide Closed;
      assert Next(Snap(all), q[i]) == Opt(q[i].next);
    }

    lemma {:induction false} HeadOnHeap(all: set<AsyncPending>, q: seq<AsyncPending>)
      requires Chain(Snap(all), q)
      ensures Opt(queue) == At(q, 0)
    {
    }

    /** message_handler: an answer takes a call off the queue before its channel hears of it. */
    method MessageHandler(pending: AsyncPending, kind: MessageType, text: string, ghost all: set<AsyncPending>)
      requires pending in all && Closed(all) && !pending.freed
      requires Answers(pending.kind, kind) ==> Unlinkable(pending, all)
      modifies this`queue, this`given, all`next, all`prev
      ensures Closed(all)
      ensures pending.kind == Call && kind in {MethodReturn, MethodError} ==>
        Snap(all) == Unlink(old(Snap(all)), pending)
      ensures pending.kind == Match || kind in {MethodCall, Signal, OtherType} ==> Snap(all) == old(Snap(all))
      ensures kind in {MethodReturn, MethodCall, Signal} ==>
        given == old(given) + [Give(pending.chan, OkStatus, text)]
      ensures kind == MethodError ==> given == old(given) + [Give(pending.chan, ErrorStatus, text)]
      ensures kind == OtherType ==> given == old(given)
    {
      hide Snap, Unlink, Closed, Unlinkable;
      match kind {
        case MethodReturn =>
          if pending.kind == Call {
            DequeuePending(pending, all);
          }
          given := given + [Give(pending.chan, OkStatus, text)];
        case MethodCall =>
          given := given + [Give(pending.chan, OkStatus, text)];
        case Signal =>
          given := given + [Give(pending.chan, OkStatus, text)];
        case MethodError =>
          if pending.kind == Call {
            DequeuePending(pending, all);
          }
          given := given + [Give(pending.chan, ErrorStatus, text)];
        case OtherType =>
      }
    }

    /** closeall_pending: every queued entry's channel gets the same tuple once, front to back, and
        its wrapper lets go of the slot. The walk is safe because the bus still owns every queued
        slot, so that no entry is unlinked or given back while the list is being followed. */
    method CloseAll(status: Status, msg: string, ghost all: set<AsyncPending>, ghost q: seq<AsyncPending>)
      requires Closed(all) && Chain(Snap(all), q)
      requires forall i :: 0 <= i < |q| ==> q[i] in all && q[i].owned && !q[i].freed
      modifies this`queue, this`given, all`next, all`prev, q`held, q`freed
      ensures Closed(all) && Snap(all) == old(Snap(all)).(head := None)
      ensures given == old(given) + Gives(q, status, msg)
      ensures forall i :: 0 <= i < |q| ==> !q[i].held && !q[i].freed
    {
      hide Snap, Chain, Closed;
      HeadOnHeap(all, q);
      if queue == null {
        SnapHead(all);
        return;
      }
      var p := queue;
      ghost var i := 0;
      while p != null
        invariant 0 <= i <= |q| && Opt(p) == At(q, i)
        invariant given == old(given) + Gives(q[..i], status, msg)
        invariant forall j :: 0 <= j < i ==> !q[j].held
        invariant forall j :: 0 <= j < |q| ==> !q[j].freed
        invariant Closed(all) && Snap(all) == old(Snap(all))
        decreases |q| - i
      {
        ChainOnHeap(all, q, i);
        var next := p.next;
        given := given + [Give(p.chan, status, msg)];
        Release(p, all);
        p := next;
        assert q[..i + 1][..i] == q[..i];
        i := i + 1;
      }
      assert q[..i] == q;
      EmptyQueue(all);
    }

    method EmptyQueue(ghost all: set<AsyncPending>)
      requires Closed(all)
      modifies this`queue
      ensures Closed(all) && Snap(all) == old(Snap(all)).(head := None)
    {
      queue := null;
    }

    /** sd_bus_flush_close_unref: the bus lets go of every slot it still owns; entries that no
        wrapper holds are destroyed, which an empty queue makes safe. */
    method CloseSlots(slots: seq<AsyncPending>, ghost all: set<AsyncPending>)
      requires Closed(all) && Snap(all).head == None
      requires forall p :: p in slots ==> p in all && (p.owned ==> !p.freed)
      modifies this`queue, all`next, all`prev, slots`owned, slots`freed
      ensures Closed(all) && Snap(all) == old(Snap(all))
      ensures forall p :: p in slots ==> !p.owned && p.freed == (old(p.freed) || (old(p.owned) && !p.held))
    {
      hide Snap, Closed;
      for i := 0 to |slots|
        invariant Closed(all) && Snap(all) == old(Snap(all))
        invariant forall p :: p in slots ==> p.owned == (p !in slots[..i] && old(p.owned))
        invariant forall p :: p in slots ==>
          p.freed == (old(p.freed) || (p in slots[..i] && old(p.owned) && !p.held))
      {
        assert slots[..i + 1] == slots[..i] + [slots[i]];
        BusLetsGo(slots[i], all);
      }
      assert slots[..|slots|] == slots;
    }

    /** cfun_close_bus: closing the stream runs closeall_pending with :close, and then the bus lets
        go of its slots; a second close finds neither stream nor bus and tells nobody. */
    method CloseBus(slots: seq<AsyncPending>, ghost all: set<AsyncPending>, ghost q: seq<AsyncPending>)
      requires Closed(all) && Chain(Snap(all), q) && (bus ==> stream)
      requires forall p :: p in slots ==> p in all && (p.owned ==> !p.freed)
      requires forall i :: 0 <= i < |q| ==> q[i] in slots && q[i].owned
      modifies this, all`next, all`prev, slots`owned, slots`held, slots`freed
      ensures !stream && !timer && !bus && Closed(all)
      ensures old(stream) ==> given == old(given) + Gives(q, CloseStatus, "D-Bus connection closed")
      ensures old(stream) ==> Snap(all) == old(Snap(all)).(head := None)
      ensures forall p :: p in slots ==> p.held == (old(p.held) && !(old(stream) && p in q))
      ensures old(bus) ==>
        forall p :: p in slots ==> !p.owned && p.freed == (old(p.freed) || (old(p.owned) && !p.held))
      ensures !old(stream) ==> Snap(all) == old(Snap(all)) && given == old(given)
      ensures !old(bus) ==> forall p :: p in slots ==> p.owned == old(p.owned) && p.freed == old(p.freed)
    {
      hide Snap, Chain, Closed, Gives;
      if stream {
        CloseAll(CloseStatus, "D-Bus connection closed", all, q);
        stream := false;
      }
      if timer {
        timer := false;
      }
      if bus {
        CloseSlots(slots, all);
        bus := false;
      }
    }
  }

  /** Queuing a node whose links were empty, or were not there yet, is the same. */
  lemma {:induction false} PushFresh<N>(l: Links<N>, p: N)
    requires l.head != Some(p)
    ensures Push(l.(prev := l.prev[p := None], next := l.next[p := None]), p) == Push(l, p)
  {
  }

  /** The same tuple for every entry, in order. */
  ghost function Gives(q: seq<AsyncPending>, status: Status, msg: string): seq<Give> {
    if q == [] then [] else Gives(q[..|q| - 1], status, msg) + [Give(q[|q| - 1].chan, status, msg)]
  }
}
