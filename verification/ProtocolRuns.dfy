/** What every interleaving of the locked sections of the debugger stub keeps. */
module ProtocolRuns {
  import opened GraphTypes
  import opened EventQueue
  import opened Breakpoints
  import opened Protocol

  /** The stub; `exitHeld` records that a resume of PROCESS_EXIT has found events in the queue. */
  datatype Sys = Sys(t: Tool, exitHeld: bool)

  datatype Section =
    | AppStarts(ea: int, tid: int)
    | Callback(ev: Event)                        // suspend_at_event: threads and exceptions
    | Notice(ev: Event)                          // enqueue_event: images and the end of the process
    | CallbackEnds                               // wait_after_callback
    | CtrlEmits(decided: EvId, addr: int, tid: int)
    | BptEmits(addr: int, tid: int)
    | PausesQueued(ea: int, tid: int)            // with the place of the event that was seen last
    | PausesLocked(susp: bool)
    | Pops
    | Resumes(eid: Kind, susp: bool)
    | ResumesTrace
    | RequestsFlush
    | Exits
    | Detaches
    | GivesUp(trace: bool)                       // wait_app_resume when serve_sync refuses
    | Manages(b: Bpt)                            // add, delete, step, instrument
    | Instruments(instr: InstrState)

  /** The events that report a stop: the thread that has queued one goes to run_app_sem. */
  predicate Stopping(k: Kind)
  {
    k != ProcessExit && k != ProcessSuspend && k != LibraryLoad && k != LibraryUnload && k != TraceFull
  }

  /** The sections of the application threads; the others are those of the listener and of the
      reinstrumenter. */
  predicate InApplication(st: Section)
  {
    st.AppStarts? || st.Callback? || st.Notice? || st.CallbackEnds? || st.CtrlEmits? || st.BptEmits?
    || st.RequestsFlush? || st.GivesUp?
  }

  /** The sections that only assign to a field. */
  predicate Assigns(st: Section)
  {
    st.ResumesTrace? || st.Manages? || st.Instruments?
  }

  /** A network failure is not among the reasons for serve_sync to refuse. */
  ghost predicate Possible(s: Sys, st: Section)
  {
    match st
    case AppStarts(_, _) => !s.t.Gone()
    case Callback(ev) => ev.kind == ThreadStart || ev.kind == ThreadExit || ev.kind == Exception
    case Notice(ev) => ev.kind == LibraryLoad || ev.kind == LibraryUnload || ev.kind == ProcessExit
    case CtrlEmits(eid, _, _) => eid != EvPaused
    case Pops => s.t.queue != []
    case GivesUp(_) => s.t.Gone()
    case _ => true
  }

  ghost function ToolAfter(t: Tool, st: Section): Tool
  {
    match st
    case AppStarts(ea, tid) => SuspendedAt(t.(app := Running), Event(ProcessStart, ea, tid))
    case Callback(ev) => SuspendedAt(t, ev)
    case Notice(ev) => Enqueued(t, ev)
    case CallbackEnds => if t.Gone() then t else t.(b := t.b.(control := true))
    case CtrlEmits(eid, addr, tid) => CtrlEmitted(t, eid, addr, tid)
    case BptEmits(addr, tid) => BptEmitted(t, addr, tid)
    case PausesQueued(ea, tid) => PauseQueued(t, ea, tid)
    case PausesLocked(susp) => PauseLocked(t, susp)
    case Pops => Popped(t)
    case Resumes(eid, susp) => ResumeAnswered(t, eid, susp)
    case ResumesTrace => t.(traceSem := true)
    case RequestsFlush => FlushRequested(t)
    case Exits => t.(app := Exiting, runSem := true)
    case Detaches => t.(app := Detached, runSem := true)
    case GivesUp(trace) => if trace then t.(traceSem := true) else t.(runSem := true)
    case Manages(b) => t.(b := b)
    case Instruments(instr) => t.(instr := instr)
  }

  ghost function After(s: Sys, st: Section): Sys
    requires Possible(s, st)
  {
    Sys(ToolAfter(s.t, st), s.exitHeld || (st.Resumes? && st.eid == ProcessExit && s.t.queue != []))
  }

  /** A queued event that reports a stop is not yet overtaken by a resume. */
  ghost predicate StoppedFor(t: Tool)
  {
    forall e :: e in t.queue && (Stopping(e.kind) || e.kind == TraceFull) ==> t.Held() || t.Gone()
  }

  /** A thread that goes to run_app_sem, after it has reported something, waits there. */
  ghost predicate Waits(t: Tool)
  {
    !t.runSem
  }

  /** A thread that stores a trace entry waits at tracebuf_sem. */
  ghost predicate TracingWaits(t: Tool)
  {
    !t.traceSem
  }

  ghost predicate SemaphoreOk(s: Sys)
  {
    && (s.t.app == Suspended ==> !s.t.runSem)
    && (!s.t.runSem ==> s.t.app == Suspended || (s.t.app == Exiting && s.exitHeld))
  }

  ghost predicate ProtocolOk(s: Sys)
  {
    StoppedFor(s.t) && SemaphoreOk(s) && QueueOk(s.t.h, s.t.queue)
  }

  ghost function Beginning(): Sys
  {
    Sys(Tool(NotStarted, true, true, [], None, History([], []), Bpt({}, {}, None, false, false), InstrInitial, false),
        false)
  }

  /** How a step changes the queue. */
  datatype QueueChange = Kept | Taken | AddedBack(ev: Event) | AddedFront

  ghost predicate QueueChanges(t: Tool, t': Tool, c: QueueChange)
  {
    match c
    case Kept => t'.queue == t.queue && t'.h == t.h
    case Taken =>
      && t.queue != [] && t'.queue == t.queue[1..]
      && t'.h == t.h.(popped := t.h.popped + [t.queue[0]])
    case AddedBack(ev) =>
      && ev.kind != TraceFull && t'.queue == t.queue + [ev]
      && t'.h == t.h.(pushed := t.h.pushed + [ev])
    case AddedFront =>
      && t.app == Running && t'.app == WaitFlush && t'.queue == [Event(TraceFull, 0, 0)] + t.queue
      && t'.h == t.h.(pushed := t.h.pushed + [Event(TraceFull, 0, 0)])
  }

  /** The event that a step queues behind the others, if it does so. */
  ghost function QueuedBy(t: Tool, st: Section): Option<Event>
  {
    match st
    case AppStarts(ea, tid) => Some(Event(ProcessStart, ea, tid))
    case Callback(ev) => if t.Gone() then None else Some(ev)
    case Notice(ev) => Some(ev)
    case CtrlEmits(decided, addr, tid) =>
      var eid := if decided == EvNoEvent && t.app == PauseRequested then EvPaused else decided;
      if eid == EvNoEvent || t.Gone() then None else Some(Event(KindOf(eid), addr, tid))
    case BptEmits(addr, tid) =>
      if addr !in t.b.bpts || t.Gone() then None else Some(Event(Kind.Breakpoint, addr, tid))
    case PausesQueued(ea, tid) => Some(Event(ProcessSuspend, ea, tid))
    case PausesLocked(susp) =>
      if t.app == Running && susp then Some(Event(ProcessSuspend, BADADDR, NO_THREAD)) else None
    case _ => None
  }

  ghost function ChangeBy(t: Tool, st: Section): QueueChange
  {
    var ev := QueuedBy(t, st);
    if ev.Some? then AddedBack(ev.value) else if st == Pops then Taken
    else if st == RequestsFlush && t.app == Running then AddedFront else Kept
  }

  lemma EmittingIsQueueStep(t: Tool, eid: EvId, addr: int, tid: int)
    requires eid != EvNoEvent && !t.Gone()
    ensures QueueChanges(t, Emitted(t, eid, addr, tid), AddedBack(Event(KindOf(eid), addr, tid)))
  {
  }

  lemma QueuingIsQueueStep(s: Sys, st: Section)
    requires Possible(s, st) && QueuedBy(s.t, st).Some?
    ensures QueueChanges(s.t, ToolAfter(s.t, st), AddedBack(QueuedBy(s.t, st).value))
  {
    if st.CtrlEmits? || st.BptEmits? {
      hide Emitted, QueueChanges;
      var eid := if st.BptEmits? then EvBpt else if st.decided == EvNoEvent then EvPaused else st.decided;
      EmittingIsQueueStep(s.t, eid, st.addr, st.tid);
    }
  }

  /** Every section pushes at most one event, pops one, or leaves the queue alone. */
  lemma EverySectionIsQueueStep(s: Sys, st: Section)
    requires Possible(s, st)
    ensures QueueChanges(s.t, ToolAfter(s.t, st), ChangeBy(s.t, st))
  {
    if QueuedBy(s.t, st).Some? {
      hide ToolAfter, QueueChanges, QueuedBy;
      QueuingIsQueueStep(s, st);
    }
  }

  lemma QueueStaysOk(t: Tool, t': Tool, c: QueueChange)
    requires QueueChanges(t, t', c) && QueueOk(t.h, t.queue) && StoppedFor(t)
    ensures QueueOk(t'.h, t'.queue)
  {
    hide QueueOk;
    match c
    case Kept =>
    case Taken => PopOk(t.h, t.queue);
    case AddedBack(ev) => PushBackOk(t.h, t.queue, ev);
    case AddedFront => PushFrontOk(t.h, t.queue, Event(TraceFull, 0, 0));
  }

  lemma SemaphoreStaysOk(s: Sys, st: Section)
    requires SemaphoreOk(s) && Possible(s, st)
    ensures SemaphoreOk(After(s, st))
  {
    hide *;
    if InApplication(st) { ApplicationKeepsSemaphore(s, st); } else { ListenerKeepsSemaphore(s, st); }
  }

  lemma ApplicationKeepsSemaphore(s: Sys, st: Section)
    requires SemaphoreOk(s) && Possible(s, st) && InApplication(st)
    ensures SemaphoreOk(After(s, st))
  {
    hide KindOf;
  }

  lemma ListenerKeepsSemaphore(s: Sys, st: Section)
    requires SemaphoreOk(s) && Possible(s, st) && !InApplication(st)
    ensures SemaphoreOk(After(s, st))
  {
    hide Resumed, Reinitialized;
  }

  /** A held process leaves its state only by a resume with an empty queue or by its end, and a
      section that queues a report of a stop leaves the process held. */
  lemma HeldUntilDrained(s: Sys, st: Section)
    requires Possible(s, st)
    ensures s.t.Held() || s.t.Gone() ==>
              ToolAfter(s.t, st).Held() || ToolAfter(s.t, st).Gone() || (s.t.queue == [] && st.Resumes?)
    ensures Reports(s.t, st) || (st.RequestsFlush? && s.t.app == Running) ==> ToolAfter(s.t, st).Held()
  {
    hide KindOf, Resumed, Reinitialized;
  }

  /** The section queues an event that reports a stop. */
  ghost predicate Reports(t: Tool, st: Section)
  {
    !t.Gone() && QueuedBy(t, st).Some? && Stopping(QueuedBy(t, st).value.kind)
  }

  lemma StaysStopped(s: Sys, st: Section)
    requires StoppedFor(s.t) && Possible(s, st)
    ensures StoppedFor(After(s, st).t)
  {
    EverySectionIsQueueStep(s, st);
    HeldUntilDrained(s, st);
    hide ToolAfter, QueuedBy;
  }

  lemma SectionKeepsProtocol(s: Sys, st: Section)
    requires ProtocolOk(s) && Possible(s, st)
    ensures ProtocolOk(After(s, st))
  {
    hide ToolAfter;
    EverySectionIsQueueStep(s, st);
    QueueStaysOk(s.t, ToolAfter(s.t, st), ChangeBy(s.t, st));
    SemaphoreStaysOk(s, st);
    StaysStopped(s, st);
  }

  // ---------- where the threads wait ----------

  /** While the process is not gone, threads wait at run_app_sem exactly in the state SUSPENDED. */
  lemma WaitsIffSuspended(s: Sys)
    requires SemaphoreOk(s) && !s.t.Gone()
    ensures Waits(s.t) <==> s.t.app == Suspended
  {
  }

  /** A section that queues a report of a stop makes the threads wait, exactly unless the
      process is in the state WAIT_FLUSH: then do_suspend_nolock does nothing, run_app_sem is
      still set, and the thread that has reported the stop runs on. */
  lemma WaitsAfterReport(s: Sys, st: Section)
    requires SemaphoreOk(s) && Possible(s, st) && Reports(s.t, st)
    ensures Waits(After(s, st).t) <==> s.t.app != WaitFlush || st.AppStarts?
  {
    hide KindOf;
  }

  /** Waiting threads come free only by a resume with an empty queue or when the process ends. */
  lemma FreedOnlyWhenDrained(s: Sys, st: Section)
    requires SemaphoreOk(s) && Possible(s, st) && Waits(s.t) && !Waits(After(s, st).t)
    ensures After(s, st).t.Gone() || (st.Resumes? && s.t.queue == [])
  {
    hide Resumed, Reinitialized, KindOf;
  }

  // ---------- runs ----------

  ghost predicate PossibleRun(s: Sys, run: seq<Section>)
    decreases |run|
  {
    run == [] || (Possible(s, run[0]) && PossibleRun(After(s, run[0]), run[1..]))
  }

  ghost function AfterRun(s: Sys, run: seq<Section>): Sys
    requires PossibleRun(s, run)
    decreases |run|
  {
    if run == [] then s else AfterRun(After(s, run[0]), run[1..])
  }

  /** In every state the stub can get into: SUSPENDED means that run_app_sem is clear; the
      semaphore is clear only if SUSPENDED, or EXITING after a resume of PROCESS_EXIT that
      found events queued; with a stopping event queued the state is not RUNNING or PAUSE;
      no event is lost, doubled or overtaken; a TRACE_FULL is at the head and alone. */
  lemma {:induction false} RunKeepsProtocol(s: Sys, run: seq<Section>)
    requires ProtocolOk(s) && PossibleRun(s, run)
    ensures ProtocolOk(AfterRun(s, run))
    decreases |run|
  {
    if run != [] {
      SectionKeepsProtocol(s, run[0]);
      RunKeepsProtocol(After(s, run[0]), run[1..]);
    }
  }

  lemma EveryRunIsSafe(run: seq<Section>)
    requires PossibleRun(Beginning(), run)
    ensures ProtocolOk(AfterRun(Beginning(), run))
  {
    RunKeepsProtocol(Beginning(), run);
  }

  /** EXITING and DETACHED are never left. */
  lemma {:induction false} GoneForever(s: Sys, run: seq<Section>)
    requires s.t.Gone() && PossibleRun(s, run)
    ensures AfterRun(s, run).t.Gone()
    decreases |run|
  {
    if run != [] {
      GoneForever(After(s, run[0]), run[1..]);
    }
  }

  /** A process that is held starts to run again only by a resume with an empty queue. */
  lemma OnlyDrainedResumes(s: Sys, st: Section)
    requires s.t.Held() && Possible(s, st)
    ensures !After(s, st).t.Held() && !After(s, st).t.Gone() ==> st.Resumes? && s.t.queue == []
  {
  }

  /** PROCESS_EXIT is among the first k events. */
  ghost predicate ExitWithin(es: seq<Event>, k: nat)
    decreases k
  {
    k > 0 && es != [] && (es[0].kind == ProcessExit || ExitWithin(es[1..], k - 1))
  }

  /** The client reads and answers k events. */
  ghost function Answered(s: Sys, k: nat, susp: bool): Sys
    requires k <= |s.t.queue|
    decreases k
  {
    if k == 0 then s
    else
      var e := s.t.queue[0];
      Answered(After(After(s, Pops), Resumes(e.kind, susp)), k - 1, susp)
  }

  /** The tool t' after k answers to a held process t. */
  ghost predicate Outcome(t: Tool, k: nat, t': Tool)
    requires k <= |t.queue|
  {
    && t'.queue == t.queue[k..]
    && if ExitWithin(t.queue, k) then t'.app == Exiting
       else if k == |t.queue| then t'.app == Running && t'.runSem
       else t'.app == t.app && t'.runSem == t.runSem
  }

  /** When a held process has queued events and nothing new is pushed, the process runs after
      exactly as many answers as there were events, or is exiting if PROCESS_EXIT was answered. */
  lemma {:induction false} ResumesWhenDrained(s: Sys, k: nat, susp: bool)
    requires SemaphoreOk(s) && s.t.Held() && s.t.queue != [] && k <= |s.t.queue|
    ensures Outcome(s.t, k, Answered(s, k, susp).t)
    decreases k
  {
    if k > 0 {
      OneAnswer(s, susp);
      var e := s.t.queue[0];
      var s1 := After(After(s, Pops), Resumes(e.kind, susp));
      hide ToolAfter, After, SemaphoreOk, Outcome;
      if e.kind == ProcessExit {
        ExitingStays(s1, k - 1, susp);
        OutcomeOfExit(s.t, k, Answered(s, k, susp).t);
      } else if k == 1 {
        OutcomeOfOne(s.t, s1.t);
      } else {
        ResumesWhenDrained(s1, k - 1, susp);
        OutcomeOfMore(s.t, s1.t, k, Answered(s, k, susp).t);
      }
    }
  }

  lemma OutcomeOfExit(t: Tool, k: nat, t': Tool)
    requires 0 < k <= |t.queue| && t.queue[0].kind == ProcessExit && t'.app == Exiting
        && t'.queue == t.queue[1..][k - 1..]
    ensures Outcome(t, k, t')
  {
  }

  lemma OutcomeOfOne(t: Tool, t': Tool)
    requires t.queue != [] && t.queue[0].kind != ProcessExit && t'.queue == t.queue[1..]
    requires if |t.queue| == 1 then t'.app == Running && t'.runSem else t'.app == t.app && t'.runSem == t.runSem
    ensures Outcome(t, 1, t')
  {
  }

  lemma OutcomeOfMore(t: Tool, t1: Tool, k: nat, t': Tool)
    requires 1 < k <= |t.queue| && t.queue[0].kind != ProcessExit && t1.queue == t.queue[1..]
    requires t1.app == t.app && t1.runSem == t.runSem && Outcome(t1, k - 1, t')
    ensures Outcome(t, k, t')
  {
  }

  lemma OneAnswer(s: Sys, susp: bool)
    requires SemaphoreOk(s) && s.t.Held() && s.t.queue != []
    ensures var e := s.t.queue[0];
      var s1 := After(After(s, Pops), Resumes(e.kind, susp));
      && s1.t.queue == s.t.queue[1..] && SemaphoreOk(s1)
      && if e.kind == ProcessExit then s1.t.app == Exiting
         else if |s.t.queue| == 1 then s1.t.app == Running && s1.t.runSem
         else s1.t.app == s.t.app && s1.t.runSem == s.t.runSem
  {
  }

  lemma ExitingAnswered(s: Sys, susp: bool)
    requires s.t.app == Exiting && s.t.queue != []
    ensures var s1 := After(After(s, Pops), Resumes(s.t.queue[0].kind, susp));
      s1.t.app == Exiting && s1.t.queue == s.t.queue[1..]
  {
    hide Resumed, Reinitialized;
  }

  lemma {:induction false} ExitingStays(s: Sys, k: nat, susp: bool)
    requires s.t.app == Exiting && k <= |s.t.queue|
    ensures Answered(s, k, susp).t.app == Exiting && Answered(s, k, susp).t.queue == s.t.queue[k..]
    decreases k
  {
    if k > 0 {
      ExitingAnswered(s, susp);
      hide ToolAfter, After;
      ExitingStays(After(After(s, Pops), Resumes(s.t.queue[0].kind, susp)), k - 1, susp);
    }
  }

  /** The section lets a held process go on, or ends it. */
  ghost predicate LetsGo(t: Tool, st: Section)
  {
    st.Exits? || st.Detaches? || (st.Resumes? && (t.queue == [] || st.eid == ProcessExit))
  }

  /** No section of the run lets the process go on. */
  ghost predicate Holding(s: Sys, run: seq<Section>)
    requires PossibleRun(s, run)
    decreases |run|
  {
    run == [] || (!LetsGo(s.t, run[0]) && Holding(After(s, run[0]), run[1..]))
  }

  predicate Starts(run: seq<Section>)
  {
    exists i :: 0 <= i < |run| && run[i].AppStarts?
  }

  lemma StartsFirst(run: seq<Section>)
    requires run != []
    ensures Starts(run) <==> run[0].AppStarts? || Starts(run[1..])
    ensures ResumesTrace in run <==> run[0] == ResumesTrace || ResumesTrace in run[1..]
  {
    assert run == [run[0]] + run[1..];
    if i :| 0 <= i < |run| && run[i].AppStarts? && i > 0 { assert run[1..][i - 1].AppStarts?; }
    if i :| 0 <= i < |run[1..]| && run[1..][i].AppStarts? { assert run[i + 1].AppStarts?; }
  }

  lemma HoldingStep(s: Sys, st: Section)
    requires SemaphoreOk(s) && s.t.Held() && Possible(s, st) && !LetsGo(s.t, st)
    ensures var t' := After(s, st).t;
      && t'.app == (if st.AppStarts? then Suspended else s.t.app)
      && (t'.traceSem <==> s.t.traceSem || st == ResumesTrace)
  {
    hide KindOf, Resumed, Reinitialized;
  }

  /** A held process in a run that does not let it go on: it stays SUSPENDED or WAIT_FLUSH, and
      the threads wait at run_app_sem throughout in the one state, and not at all in the other.
      At tracebuf_sem they wait until the first answer. */
  lemma {:induction false} HeldRun(s: Sys, run: seq<Section>)
    requires SemaphoreOk(s) && s.t.Held() && PossibleRun(s, run) && Holding(s, run)
    ensures var t' := AfterRun(s, run).t;
      && t'.app == (if Starts(run) then Suspended else s.t.app)
      && (Waits(t') <==> s.t.app == Suspended || Starts(run))
      && (TracingWaits(t') <==> TracingWaits(s.t) && ResumesTrace !in run)
    decreases |run|
  {
    if run != [] {
      hide ToolAfter, Possible;
      SemaphoreStaysOk(s, run[0]);
      HoldingStep(s, run[0]);
      HeldRun(After(s, run[0]), run[1..]);
      StartsFirst(run);
    }
  }

  /** After a section that queues a report of a stop, as long as nothing lets the process go on,
      the threads wait exactly unless it was queued in the state WAIT_FLUSH, and the start of the
      application has not been reported since. */
  lemma ReportersWaitIff(s: Sys, st: Section, run: seq<Section>)
    requires SemaphoreOk(s) && Possible(s, st) && Reports(s.t, st)
    requires PossibleRun(After(s, st), run) && Holding(After(s, st), run)
    ensures Waits(AfterRun(After(s, st), run).t) <==> s.t.app != WaitFlush || Starts([st] + run)
  {
    WaitsAfterReport(s, st);
    SemaphoreStaysOk(s, st);
    HeldUntilDrained(s, st);
    hide ToolAfter, Reports;
    WaitsIffSuspended(After(s, st));
    HeldRun(After(s, st), run);
    StartsFirst([st] + run);
    assert ([st] + run)[1..] == run;
  }

  /** The event has been queued, and the threads wait unless the state is WAIT_FLUSH: if the process
      was running, the control flag makes them come to do_ctrl. No step is left to do, and no stop
      at the next instruction. */
  ghost predicate QueuesEvent(t: Tool, t': Tool, ev: Event)
  {
    && t'.Held() && t'.queue == t.queue + [ev] && t'.b.stepping == None && !t'.breakNext
    && (t.Held() || t'.b.control)
    && (Waits(t') <==> t.app != WaitFlush)
  }

  ghost predicate QueuesBreakpoint(t: Tool, t': Tool, a: Addr, tid: ThreadId)
  {
    QueuesEvent(t, t', Event(Kind.Breakpoint, a, tid))
  }

  /** do_ctrl reports a breakpoint unless the process is exiting or detached. */
  lemma CtrlReportsBreakpoint(s: Sys, a: Addr, tid: ThreadId)
    requires SemaphoreOk(s) && !s.t.Gone()
    ensures QueuesBreakpoint(s.t, After(s, CtrlEmits(EvBpt, a, tid)).t, a, tid)
  {
  }

  /** A step is reported as STEP and the initial stop as PROCESS_ATTACH; if there is nothing to
      report, a pause that has been requested is, as PROCESS_SUSPEND. */
  lemma CtrlReports(s: Sys, a: Addr, tid: ThreadId)
    requires SemaphoreOk(s) && !s.t.Gone()
    ensures QueuesEvent(s.t, After(s, CtrlEmits(EvSingleStep, a, tid)).t, Event(SingleStep, a, tid))
    ensures QueuesEvent(s.t, After(s, CtrlEmits(EvInitialStop, a, tid)).t, Event(ProcessAttach, a, tid))
    ensures s.t.app == PauseRequested ==>
              QueuesEvent(s.t, After(s, CtrlEmits(EvNoEvent, a, tid)).t, Event(ProcessSuspend, a, tid))
    ensures s.t.app != PauseRequested ==> After(s, CtrlEmits(EvNoEvent, a, tid)).t == s.t
  {
  }

  /** So does do_bpt if the breakpoint is installed; otherwise it does nothing. */
  lemma BptReportsBreakpoint(s: Sys, a: Addr, tid: ThreadId)
    requires SemaphoreOk(s) && !s.t.Gone()
    ensures var t' := After(s, BptEmits(a, tid)).t;
      if a in s.t.b.bpts then QueuesBreakpoint(s.t, t', a, tid) else t' == s.t
  {
  }

  /** The two ways to pause a running process: the next thread that comes to do_ctrl reports it,
      or, if a thread is suspended already, it is reported at once. */
  lemma PauseIsReported(s: Sys, a: Addr, tid: ThreadId)
    requires SemaphoreOk(s) && s.t.app == Running
    ensures var s1 := After(s, PausesLocked(false));
      s1.t.b.control && s1.t.queue == s.t.queue
          && QueuesEvent(s1.t, After(s1, CtrlEmits(EvNoEvent, a, tid)).t, Event(ProcessSuspend, a, tid))
    ensures var t' := After(s, PausesLocked(true)).t;
      && t'.queue == s.t.queue + [Event(ProcessSuspend, BADADDR, NO_THREAD)]
      && t'.app == Suspended && t'.b.control && Waits(t')
  {
  }

  /** What a drained resume does with the breakpoints and the instrumentation is what the steps
      PrepareResume and Reinit do. */
  lemma ResumeIsSteps(s: Sys, eid: Kind, susp: bool, sys: System)
    requires s.t.Held() && s.t.queue == [] && sys.b == s.t.b && sys.instr == s.t.instr
    ensures var t', s1 := After(s, Resumes(eid, susp)).t, Next(sys, PrepareResume(s.t.breakNext, susp));
      var s2 := if s1.resuming then Next(s1, Reinit) else s1;
      t'.b == s2.b && t'.instr == s2.instr
  {
  }

  /** What the report of a stop does with them is what the steps StepDone and PrepareSuspend do. */
  lemma ReportIsSteps(s: Sys, eid: EvId, a: Addr, tid: ThreadId, sys: System)
    requires !s.t.Gone() && eid != EvNoEvent && eid != EvPaused && sys.b == s.t.b
    ensures var s1 := Next(sys, StepDone);
      After(s, CtrlEmits(eid, a, tid)).t.b == if s.t.Held() then s1.b else Next(s1, PrepareSuspend).b
  {
    hide KindOf;
  }

  /** wait_after_callback sets the flag, unless the process is gone. */
  lemma CallbackEndIsStep(s: Sys, sys: System)
    requires sys.b == s.t.b
    ensures After(s, CallbackEnds).t.b == if s.t.Gone() then sys.b else Next(sys, PrepareSuspend).b
  {
  }

  /** A full trace buffer makes the threads that store entries wait at tracebuf_sem, and, as long as
      nothing lets the process go on, exactly until the first answer. At run_app_sem nobody waits. */
  lemma TracersWaitIff(s: Sys, run: seq<Section>)
    requires SemaphoreOk(s) && s.t.app == Running && PossibleRun(After(s, RequestsFlush), run)
    requires Holding(After(s, RequestsFlush), run)
    ensures var t' := AfterRun(After(s, RequestsFlush), run).t;
      && (TracingWaits(t') <==> ResumesTrace !in run) && (Waits(t') <==> Starts(run))
  {
    SemaphoreStaysOk(s, RequestsFlush);
    HeldRun(After(s, RequestsFlush), run);
  }

  /** When the process is gone, a thread that gives up waiting sets the semaphore for all. */
  lemma GivingUpFrees(s: Sys, trace: bool)
    requires s.t.Gone()
    ensures var t' := After(s, GivesUp(trace)).t;
      if trace then !TracingWaits(t') && (Waits(t') <==> Waits(s.t))
      else !Waits(t') && (TracingWaits(t') <==> TracingWaits(s.t))
  {
  }

  /** No step is missed, down to the event: `t` is the stub when do_ctrl decides, and the process
      is not gone then. */
  lemma StepIsQueued(steps: seq<Step>, rest: seq<Step>, mid: seq<Step>, a: Addr, tid: ThreadId, t: Sys)
    requires EnabledRun(Initially(), steps) && Enabled(Run(Initially(), steps), SetStep(tid))
    requires var s0 := Next(Run(Initially(), steps), SetStep(tid));
      && EnabledRun(s0, rest) && EnabledRun(Run(s0, rest), mid) && a !in Run(Run(s0, rest), mid).client
      && t.t.b == Run(Run(s0, rest), mid).b
    requires HasResume(rest) && Undisturbed(rest) && Undisturbed(mid)
    requires SemaphoreOk(t) && !t.t.Gone()
    ensures Run(Next(Run(Initially(), steps), SetStep(tid)), rest).b.control
    ensures QueuesEvent(t.t, After(t, CtrlEmits(CtrlEvent(t.t.b, a, tid, t.t.breakNext), a, tid)).t,
                        Event(SingleStep, a, tid))
  {
    hide *;
    NoStepMissed(steps, rest, mid, a, tid, t.t.breakNext);
    CtrlReports(t, a, tid);
  }

  /** Likewise for the stop at the next instruction. */
  lemma InitialStopIsQueued(steps: seq<Step>, rest: seq<Step>, mid: seq<Step>, a: Addr, tid: ThreadId, t: Sys)
    requires EnabledRun(Initially(), steps)
    requires var s0 := Run(Initially(), steps); EnabledRun(s0, rest) && EnabledRun(Run(s0, rest), mid)
    requires HasResume(rest) && KeepsBreaking(rest)
    requires var s1 := Run(Run(Run(Initially(), steps), rest), mid);
      a !in s1.client && s1.b.stepping != Some(tid) && t.t.b == s1.b
    requires SemaphoreOk(t) && !t.t.Gone() && t.t.breakNext
    ensures Run(Run(Initially(), steps), rest).b.control
    ensures QueuesEvent(t.t, After(t, CtrlEmits(CtrlEvent(t.t.b, a, tid, t.t.breakNext), a, tid)).t,
                        Event(ProcessAttach, a, tid))
  {
    hide *;
    NoInitialStopMissed(steps, rest, mid, a, tid);
    CtrlReports(t, a, tid);
  }

  /** No breakpoint is missed, down to the event: after an orderly run of the breakpoint
      manager, the execution of a breakpoint queues BREAKPOINT, and the thread waits unless the
      state is WAIT_FLUSH. `t` is the stub when do_ctrl decides, `t1` when do_bpt looks for the
      breakpoint; the process is not gone then. */
  lemma BreakpointIsQueued(steps: seq<Step>, mid: seq<Step>, more: seq<Step>, a: Addr, tid: ThreadId, t: Sys, t1: Sys)
    requires OrderlyRun(Initially(), steps) && OrderlyRun(Run(Initially(), steps), mid)
    requires var s := Run(Initially(), steps); a in s.client && a !in s.recent && a in s.cache
    requires Flush !in mid && Del(a) !in mid && Del(a) !in more
    requires SemaphoreOk(t) && !t.t.Gone() && t.t.b == Run(Run(Initially(), steps), mid).b
    requires SemaphoreOk(t1) && !t1.t.Gone() && t1.t.b == Run(Run(Run(Initially(), steps), mid), more).b
    ensures var s := Run(Initially(), steps);
      || (s.b.control && QueuesBreakpoint(t.t, After(t, CtrlEmits(CtrlEvent(t.t.b, a, tid, t.t.breakNext), a, tid)).t,
          a, tid))
      || (s.cache[a] && QueuesBreakpoint(t1.t, After(t1, BptEmits(a, tid)).t, a, tid))
  {
    hide Run, OrderlyRun, Initially;
    NoBreakpointMissed(steps, mid, more, a, tid, t.t.breakNext);
    CtrlReportsBreakpoint(t, a, tid);
    BptReportsBreakpoint(t1, a, tid);
    hide After, QueuesBreakpoint;
  }

  /** In this run a breakpoint is reported in the state WAIT_FLUSH. Then the client answers
      TRACE_FULL, and with BREAKPOINT still queued no thread waits at either semaphore. */
  const PASSING_RUN := [AppStarts(0, 0), Pops, Resumes(ProcessStart, false), RequestsFlush,
                        CtrlEmits(EvBpt, 1, 0), Pops, Resumes(TraceFull, false), ResumesTrace]

  lemma RunContinues(s: Sys, st: Section, run: seq<Section>)
    requires Possible(s, st)
    ensures PossibleRun(s, [st] + run) <==> PossibleRun(After(s, st), run)
    ensures PossibleRun(s, [st] + run) ==> AfterRun(s, [st] + run) == AfterRun(After(s, st), run)
  {
    assert ([st] + run)[1..] == run;
  }

  /** The trace buffer has become full while the process ran. */
  ghost predicate Flushing(s: Sys)
  {
    s.t.app == WaitFlush && s.t.queue == [Event(TraceFull, 0, 0)] && s.t.runSem
  }

  /** The run is made of four sections; these are the states between them. */
  ghost predicate FourSteps(s: Sys, a: Section, b: Section, c: Section, d: Section, s': Sys)
  {
    && Possible(s, a) && Possible(After(s, a), b) && Possible(After(After(s, a), b), c)
    && Possible(After(After(After(s, a), b), c), d) && s' == After(After(After(After(s, a), b), c), d)
  }

  lemma FourStepsRun(s: Sys, a: Section, b: Section, c: Section, d: Section, s': Sys, run: seq<Section>)
    requires FourSteps(s, a, b, c, d, s')
    ensures PossibleRun(s, [a, b, c, d] + run) <==> PossibleRun(s', run)
    ensures PossibleRun(s', run) ==> AfterRun(s, [a, b, c, d] + run) == AfterRun(s', run)
  {
    hide Possible, After, PossibleRun, AfterRun;
    RunContinues(After(After(After(s, a), b), c), d, run);
    RunContinues(After(After(s, a), b), c, [d] + run);
    RunContinues(After(s, a), b, [c] + ([d] + run));
    RunContinues(s, a, [b] + ([c] + ([d] + run)));
    assert [a, b, c, d] + run == [a] + ([b] + ([c] + ([d] + run)));
  }

  lemma StartIsReported()
    ensures var s := After(Beginning(), AppStarts(0, 0));
      s.t.app == Suspended && s.t.queue == [Event(ProcessStart, 0, 0)]
  {
  }

  lemma StartIsAnswered(s: Sys)
    requires s.t.app == Suspended && s.t.queue == [Event(ProcessStart, 0, 0)]
    ensures var s' := After(After(s, Pops), Resumes(ProcessStart, false));
      s'.t.app == Running && s'.t.queue == [] && s'.t.runSem
  {
    hide Resumed, Reinitialized;
  }

  lemma BufferIsFull(s: Sys)
    requires s.t.app == Running && s.t.queue == [] && s.t.runSem
    ensures Flushing(After(s, RequestsFlush))
  {
  }

  lemma FlushBegins() returns (s: Sys)
    ensures Flushing(s)
    ensures FourSteps(Beginning(), PASSING_RUN[0], PASSING_RUN[1], PASSING_RUN[2], PASSING_RUN[3], s)
  {
    hide ToolAfter, After, Flushing;
    var s1 := After(Beginning(), PASSING_RUN[0]);
    StartIsReported();
    StartIsAnswered(s1);
    var s3 := After(After(s1, Pops), PASSING_RUN[2]);
    BufferIsFull(s3);
    s := After(s3, RequestsFlush);
  }

  /** BREAKPOINT is queued and no thread waits. */
  ghost predicate Passed(t: Tool)
  {
    t.app == WaitFlush && t.queue == [Event(Kind.Breakpoint, 1, 0)] && !Waits(t) && !TracingWaits(t)
  }

  lemma ReportedInFlush(s: Sys)
    requires Flushing(s)
    ensures var s' := After(s, CtrlEmits(EvBpt, 1, 0));
      && s'.t.app == WaitFlush && s'.t.runSem
      && s'.t.queue == [Event(TraceFull, 0, 0), Event(Kind.Breakpoint, 1, 0)]
  {
  }

  lemma FlushIsAnswered(s: Sys)
    requires s.t.app == WaitFlush && s.t.runSem
    requires s.t.queue == [Event(TraceFull, 0, 0), Event(Kind.Breakpoint, 1, 0)]
    ensures Passed(After(After(After(s, Pops), Resumes(TraceFull, false)), ResumesTrace).t)
  {
    hide Resumed, Reinitialized;
  }

  lemma ReportPasses(s: Sys) returns (s': Sys)
    requires Flushing(s)
    ensures Passed(s'.t)
    ensures FourSteps(s, PASSING_RUN[4], PASSING_RUN[5], PASSING_RUN[6], PASSING_RUN[7], s')
  {
    hide ToolAfter, After, Flushing, Passed;
    ReportedInFlush(s);
    var s5 := After(s, PASSING_RUN[4]);
    FlushIsAnswered(s5);
    s' := After(After(After(s5, Pops), PASSING_RUN[6]), ResumesTrace);
  }

  lemma NothingRuns(s: Sys)
    ensures PossibleRun(s, []) && AfterRun(s, []) == s
  {
  }

  lemma PassesReportedBreakpoint()
    ensures PossibleRun(Beginning(), PASSING_RUN) && Passed(AfterRun(Beginning(), PASSING_RUN).t)
  {
    hide PossibleRun, AfterRun, Beginning, FourSteps, Passed, Flushing;
    var r := PASSING_RUN;
    var s := FlushBegins();
    var s' := ReportPasses(s);
    NothingRuns(s');
    FourStepsRun(s, r[4], r[5], r[6], r[7], s', []);
    FourStepsRun(Beginning(), r[0], r[1], r[2], r[3], s, [r[4], r[5], r[6], r[7]] + []);
    assert r == [r[0], r[1], r[2], r[3]] + ([r[4], r[5], r[6], r[7]] + []);
  }

  // ---------- the methods perform the sections ----------

  /** The sections of the application threads. */
  method PerformInApplication(tool: PinTool, st: Section, ghost t: Tool)
    requires t == tool.View() && Possible(Sys(t, false), st)
    requires InApplication(st)
    modifies tool, tool.events, tool.breakpoints
    ensures tool.View() == ToolAfter(t, st)
  {
    hide SuspendedAt, CtrlEmitted, BptEmitted, FlushRequested, Enqueued, PinTool.View;
    match st {
      case AppStarts(ea, tid) => tool.AppStart(Event(ProcessStart, ea, tid));
      case Callback(ev) => tool.SuspendAtEvent(ev);
      case Notice(ev) => tool.EnqueueEvent(ev);
      case CallbackEnds => tool.PrepareSuspend();
      case CtrlEmits(decided, addr, tid) => tool.EmitCtrl(decided, addr, tid);
      case BptEmits(addr, tid) => tool.EmitBpt(addr, tid);
      case RequestsFlush => tool.RequestFlush();
      case GivesUp(trace) => tool.GiveUp(trace);
    }
  }

  /** The sections of the listener and the reinstrumenter. */
  method PerformInListener(tool: PinTool, st: Section, ghost t: Tool)
    requires t == tool.View()
    requires !InApplication(st) && !Assigns(st)
    modifies tool, tool.events, tool.breakpoints
    ensures tool.View() == ToolAfter(t, st)
  {
    hide PauseLocked, ResumeAnswered, Popped, Enqueued, PinTool.View;
    match st {
      case PausesQueued(ea, tid) => tool.EnqueueEvent(Event(ProcessSuspend, ea, tid));
      case PausesLocked(susp) => tool.PauseSection(susp);
      case Pops => var ev := tool.PopDebugEvent();
      case Resumes(eid, susp) => tool.ResumeSection(eid, susp);
      case Exits => tool.ExitProcess();
      case Detaches => tool.DetachProcess();
    }
  }

  method PerformAssignment(tool: PinTool, st: Section, ghost t: Tool)
    requires t == tool.View() && Assigns(st)
    modifies tool`tracebufSem, tool`instrState, tool.breakpoints
    ensures tool.View() == ToolAfter(t, st)
  {
    match st {
      case ResumesTrace => tool.tracebufSem := true;
      case Manages(b) => tool.breakpoints.Assign(b);
      case Instruments(instr) => tool.instrState := instr;
    }
  }

  /** Every section is what a method of the stub does: the methods refine the steps. */
  method Perform(tool: PinTool, st: Section)
    requires Possible(Sys(tool.View(), false), st)
    modifies tool, tool.events, tool.breakpoints
    ensures tool.View() == ToolAfter(old(tool.View()), st)
  {
    hide ToolAfter, PinTool.View, Possible;
    ghost var t := tool.View();
    if InApplication(st) {
      PerformInApplication(tool, st, t);
    } else if Assigns(st) {
      PerformAssignment(tool, st, t);
    } else {
      PerformInListener(tool, st, t);
    }
  }
}
