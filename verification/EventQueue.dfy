/** The queue of debug events (idadbg.cpp, ev_queue_t). */
module EventQueue {
  import opened GraphTypes

  datatype Kind =
    | Breakpoint | SingleStep | Exception | ThreadStart | ThreadExit | ProcessStart | ProcessAttach
    | ProcessExit | ProcessSuspend | LibraryLoad | LibraryUnload | TraceFull

  datatype Event = Event(kind: Kind, ea: int, tid: int)

  /** What has been pushed, in this order, and what has been popped, in this order. */
  datatype History = History(pushed: seq<Event>, popped: seq<Event>)

  /** ev_queue_t. Its lock makes each method one step. */
  class EvQueue {
    var queue: seq<Event>
    var lastRetrieved: Option<Event>   // None stands for NO_EVENT
    ghost var history: History

    constructor ()
      ensures queue == [] && lastRetrieved == None && history == History([], [])
    {
      queue, lastRetrieved, history := [], None, History([], []);
    }

    method AddEv(ev: Event, front: bool)
      modifies this
      ensures queue == (if front then [ev] + old(queue) else old(queue) + [ev]) && lastRetrieved == old(lastRetrieved)
      ensures history == old(history).(pushed := old(history.pushed) + [ev])
    {
      if front { queue := [ev] + queue; } else { queue := queue + [ev]; }
      history := history.(pushed := history.pushed + [ev]);
    }

    method PushBack(ev: Event)
      modifies this
      ensures queue == old(queue) + [ev] && lastRetrieved == old(lastRetrieved)
      ensures history == old(history).(pushed := old(history.pushed) + [ev])
    {
      AddEv(ev, false);
    }

    method PushFront(ev: Event)
      modifies this
      ensures queue == [ev] + old(queue) && lastRetrieved == old(lastRetrieved)
      ensures history == old(history).(pushed := old(history.pushed) + [ev])
    {
      AddEv(ev, true);
    }

    method PopFront() returns (ev: Option<Event>)
      modifies this
      ensures old(queue) == [] ==> ev == None && queue == [] && lastRetrieved == old(lastRetrieved)
                                   && history == old(history)
      ensures old(queue) != [] ==> ev == Some(old(queue)[0]) == lastRetrieved && queue == old(queue)[1..]
                                   && history == old(history).(popped := old(history.popped) + [old(queue)[0]])
    {
      if queue == [] { return None; }
      ev := Some(queue[0]);
      lastRetrieved := ev;
      history := history.(popped := history.popped + [queue[0]]);
      queue := queue[1..];
    }

    method Back() returns (ev: Option<Event>)
      ensures ev == if queue == [] then None else Some(queue[|queue| - 1])
    {
      if queue == [] { return None; }
      ev := Some(queue[|queue| - 1]);
    }

    method IsEmpty() returns (r: bool)
      ensures r <==> queue == []
    {
      r := |queue| == 0;
    }
  }

  /** es without the TRACE_FULL events. */
  ghost function Proper(es: seq<Event>): seq<Event>
  {
    if es == [] then []
    else (if es[0].kind == TraceFull then [] else [es[0]]) + Proper(es[1..])
  }

  lemma {:induction false} ProperJoined(es: seq<Event>, fs: seq<Event>)
    ensures Proper(es + fs) == Proper(es) + Proper(fs)
  {
    if es == [] {
      assert es + fs == fs;
    } else {
      assert (es + fs)[1..] == es[1..] + fs;
      ProperJoined(es[1..], fs);
    }
  }

  /** Nothing is lost or doubled. */
  ghost predicate Complete(pushed: seq<Event>, popped: seq<Event>, queue: seq<Event>)
  {
    multiset(pushed) == multiset(popped) + multiset(queue)
  }

  /** The events that are no TRACE_FULL come out in the order in which they went in. */
  ghost predicate InOrder(pushed: seq<Event>, popped: seq<Event>, queue: seq<Event>)
  {
    Proper(pushed) == Proper(popped) + Proper(queue)
  }

  /** A TRACE_FULL can only be at the head of the queue. */
  ghost predicate FullFirst(queue: seq<Event>)
  {
    forall i :: 0 < i < |queue| ==> queue[i].kind != TraceFull
  }

  ghost predicate QueueOk(h: History, queue: seq<Event>)
  {
    Complete(h.pushed, h.popped, queue) && InOrder(h.pushed, h.popped, queue) && FullFirst(queue)
  }

  lemma CompletePush(pushed: seq<Event>, popped: seq<Event>, queue: seq<Event>, ev: Event)
    requires Complete(pushed, popped, queue)
    ensures Complete(pushed + [ev], popped, queue + [ev]) && Complete(pushed + [ev], popped, [ev] + queue)
  {
    var a, b, c := multiset(pushed), multiset(popped), multiset(queue);
    assert multiset(pushed + [ev]) == a + multiset{ev};
    assert multiset(queue + [ev]) == c + multiset{ev} && multiset([ev] + queue) == c + multiset{ev};
  }

  lemma CompletePop(pushed: seq<Event>, popped: seq<Event>, queue: seq<Event>)
    requires Complete(pushed, popped, queue) && queue != []
    ensures Complete(pushed, popped + [queue[0]], queue[1..])
  {
    var b, c := multiset(popped), multiset(queue[1..]);
    assert queue == [queue[0]] + queue[1..];
    assert multiset(queue) == multiset{queue[0]} + c;
    assert multiset(popped + [queue[0]]) == b + multiset{queue[0]};
  }

  lemma PushBackOk(h: History, queue: seq<Event>, ev: Event)
    requires QueueOk(h, queue) && ev.kind != TraceFull
    ensures QueueOk(h.(pushed := h.pushed + [ev]), queue + [ev])
  {
    hide Complete, Proper;
    CompletePush(h.pushed, h.popped, queue, ev);
    ProperJoined(h.pushed, [ev]);
    ProperJoined(queue, [ev]);
    var p, q, e := Proper(h.popped), Proper(queue), Proper([ev]);
    assert p + (q + e) == (p + q) + e;
  }

  lemma ProperFull(ev: Event)
    requires ev.kind == TraceFull
    ensures Proper([ev]) == []
  {
    assert [ev][1..] == [];
  }

  lemma PushFrontOk(h: History, queue: seq<Event>, ev: Event)
    requires QueueOk(h, queue) && ev.kind == TraceFull
    requires forall e :: e in queue ==> e.kind != TraceFull
    ensures QueueOk(h.(pushed := h.pushed + [ev]), [ev] + queue)
  {
    hide Complete, Proper;
    CompletePush(h.pushed, h.popped, queue, ev);
    ProperJoined(h.pushed, [ev]);
    ProperJoined([ev], queue);
    ProperFull(ev);
    assert Proper(h.pushed + [ev]) == Proper(h.pushed) && Proper([ev] + queue) == Proper(queue);
    var q := [ev] + queue;
    assert forall i :: 0 < i < |q| ==> q[i] == queue[i - 1];
  }

  lemma PopOk(h: History, queue: seq<Event>)
    requires QueueOk(h, queue) && queue != []
    ensures QueueOk(h.(popped := h.popped + [queue[0]]), queue[1..])
  {
    hide Complete, Proper;
    CompletePop(h.pushed, h.popped, queue);
    ProperJoined(h.popped, [queue[0]]);
    ProperJoined([queue[0]], queue[1..]);
    assert [queue[0]] + queue[1..] == queue;
    var p, e, r := Proper(h.popped), Proper([queue[0]]), Proper(queue[1..]);
    assert p + (e + r) == (p + e) + r;
  }
}
