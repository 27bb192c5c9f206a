/** How the debugger stub suspends and resumes the process (idadbg.cpp): the sections that the
    threads execute under process_state_lock, as methods and as functions on the state. */
module Protocol {
  import opened GraphTypes
  import opened EventQueue
  import opened Breakpoints

  const BADADDR := -1
  const NO_THREAD := -1
  const INVALID_THREAD := -1

  /** process_state_t. */
  datatype AppState = NotStarted | Running | PauseRequested | Suspended | WaitFlush | Exiting | Detached

  /** The global state of the stub. The semaphores are true when they are set. */
  datatype Tool = Tool(app: AppState, runSem: bool, traceSem: bool, queue: seq<Event>, last: Option<Event>,
                       h: History, b: Bpt, instr: InstrState, breakNext: bool)
  {
    /** process_suspended. */
    predicate Held() {
      app == Suspended || app == WaitFlush
    }

    predicate Gone() {
      app == Exiting || app == Detached
    }
  }

  function KindOf(eid: EvId): Kind
    requires eid != EvNoEvent
  {
    match eid
    case EvPaused => ProcessSuspend
    case EvSingleStep => SingleStep
    case EvBpt => Kind.Breakpoint
    case EvInitialStop => ProcessAttach
  }

  // ---------- what the sections do ----------

  ghost function Enqueued(t: Tool, ev: Event): Tool {
    t.(queue := t.queue + [ev], h := t.h.(pushed := t.h.pushed + [ev]))
  }

  /** do_suspend_nolock, for a state other than WAIT_FLUSH. */
  ghost function StoppedAs(t: Tool, app: AppState): Tool {
    if t.Held() then t
    else if app == Exiting || app == Detached then t.(app := app, runSem := false)
    else t.(app := app, runSem := false, b := t.b.(control := true))
  }

  ghost function Stopped(t: Tool): Tool {
    StoppedAs(t, Suspended)
  }

  ghost function SuspendedAt(t: Tool, ev: Event): Tool {
    if t.Gone() then t else Stopped(Enqueued(t, ev))
  }

  ghost function Emitted(t: Tool, eid: EvId, addr: Addr, tid: ThreadId): Tool {
    if eid == EvNoEvent || t.Gone() then t
    else Enqueued(Stopped(t.(breakNext := false, b := t.b.(stepping := None))), Event(KindOf(eid), addr, tid))
  }

  ghost function CtrlEmitted(t: Tool, eid: EvId, addr: Addr, tid: ThreadId): Tool {
    Emitted(t, if eid == EvNoEvent && t.app == PauseRequested then EvPaused else eid, addr, tid)
  }

  ghost function BptEmitted(t: Tool, addr: Addr, tid: ThreadId): Tool {
    if addr in t.b.bpts then Emitted(t, EvBpt, addr, tid) else t
  }

  ghost function PauseQueued(t: Tool, ea: int, tid: int): Tool {
    Enqueued(t, Event(ProcessSuspend, ea, tid))
  }

  ghost function PauseLocked(t: Tool, susp: bool): Tool {
    if t.app != Running then t
    else if susp then Stopped(Enqueued(t, Event(ProcessSuspend, BADADDR, NO_THREAD)))
    else t.(app := PauseRequested, b := t.b.(control := true))
  }

  ghost function Reinitialized(instr: InstrState): InstrState {
    if instr == InstrInitial then InstrOk else InstrNeedReinit
  }

  ghost function ReallyResumed(t: Tool, susp: bool): Tool {
    t.(app := Running, runSem := t.runSem || t.app != WaitFlush, b := Resumed(t.b, t.breakNext, susp),
       instr := if t.b.needReinst then Reinitialized(t.instr) else t.instr)
  }

  /** The section of do_resume after `events.empty()` has answered `empty`. */
  ghost function ResumeDecided(t: Tool, empty: bool, eid: Kind, susp: bool): Tool {
    var t1 := if empty && t.Held() then ReallyResumed(t, susp) else t;
    if eid == ProcessExit then t1.(app := Exiting) else t1
  }

  ghost function ResumeAnswered(t: Tool, eid: Kind, susp: bool): Tool {
    ResumeDecided(t, t.queue == [], eid, susp)
  }

  ghost function FlushRequested(t: Tool): Tool {
    if t.app != Running then t
    else t.(queue := [Event(TraceFull, 0, 0)] + t.queue, h := t.h.(pushed := t.h.pushed + [Event(TraceFull, 0, 0)]),
            app := WaitFlush, traceSem := false)
  }

  ghost function Popped(t: Tool): Tool {
    if t.queue == [] then t
    else t.(last := Some(t.queue[0]), queue := t.queue[1..], h := t.h.(popped := t.h.popped + [t.queue[0]]))
  }

  ghost function EnqueuedAll(t: Tool, notices: seq<Event>): Tool
    decreases |notices|
  {
    if notices == [] then t else EnqueuedAll(Enqueued(t, notices[0]), notices[1..])
  }

  lemma NoticeWithinResume(t: Tool, ev: Event, empty: bool, eid: Kind, susp: bool)
    ensures ResumeDecided(Enqueued(t, ev), empty, eid, susp) == Enqueued(ResumeDecided(t, empty, eid, susp), ev)
  {
    hide Resumed, Reinitialized;
    assert ReallyResumed(Enqueued(t, ev), susp) == Enqueued(ReallyResumed(t, susp), ev);
  }

  /** Events that are queued without process_state_lock while do_resume is between its look
      at the queue and its end make no difference: the section is one step before them. */
  lemma {:induction false} NoticesWithinResume(t: Tool, notices: seq<Event>, empty: bool, eid: Kind, susp: bool)
    ensures ResumeDecided(EnqueuedAll(t, notices), empty, eid, susp)
        == EnqueuedAll(ResumeDecided(t, empty, eid, susp), notices)
    decreases |notices|
  {
    hide ResumeDecided, Enqueued;
    if notices != [] {
      NoticesWithinResume(Enqueued(t, notices[0]), notices[1..], empty, eid, susp);
      NoticeWithinResume(t, notices[0], empty, eid, susp);
    }
  }

  /** Likewise when the listener takes an event in the middle of suspend_at_event. */
  lemma PopWithinSuspend(t: Tool, ev: Event)
    ensures Stopped(Popped(Enqueued(t, ev))) == Popped(Stopped(Enqueued(t, ev)))
  {
  }

  /** One record for each thread (thread_data_t): whether its exception has been handled. The
      other map takes the thread numbers of the system to those of PIN. */
  class ThreadTable {
    var localTids: map<int, int>
    var excpHandled: map<int, bool>

    constructor ()
      ensures localTids == map[] && excpHandled == map[]
    {
      localTids, excpHandled := map[], map[];
    }

    function LocalThreadId(ext: int): int
      reads this
    {
      if ext in localTids then localTids[ext] else INVALID_THREAD
    }

    /** set_excp_handled of get_thread_data, which makes a record if there is none. */
    method SetExcpHandled(tid: int, handled: bool)
      modifies this`excpHandled
      ensures excpHandled == old(excpHandled)[tid := handled]
    {
      excpHandled := excpHandled[tid := handled];
    }

    /** release_thread_data. */
    method ReleaseThreadData(tid: int) returns (found: bool)
      modifies this`excpHandled
      ensures found == (tid in old(excpHandled)) && excpHandled == old(excpHandled) - {tid}
    {
      found := tid in excpHandled;
      excpHandled := excpHandled - {tid};
    }
  }

  /** What an answer does to the records of the threads. */
  function ThreadsAnswered(handled: map<int, bool>, tid: int, eid: Kind, pass: bool): (r: map<int, bool>)
  {
    if eid == Exception then handled[tid := pass] else if eid == ThreadExit then handled - {tid} else handled
  }

  /** The thread of an exception remembers whether the application is to handle it, an ended
      thread is forgotten, and the other threads are left alone. */
  lemma ThreadsAfterAnswer(handled: map<int, bool>, tid: int, eid: Kind, pass: bool)
    ensures var r := ThreadsAnswered(handled, tid, eid, pass);
      && (forall x :: x != tid ==> (x in r <==> x in handled) && (x in r ==> r[x] == handled[x]))
      && (tid in r <==> eid == Exception || (tid in handled && eid != ThreadExit))
      && (tid in r ==> r[tid] == if eid == Exception then pass else handled[tid])
  {
  }

  // ---------- the methods ----------

  /** The global variables of idadbg.cpp and the functions that work on them. Each method but
      DoResume and PreparePause is one section under a lock. */
  class PinTool {
    var processState: AppState
    var runAppSem: bool
    var tracebufSem: bool
    var breakAtNextInst: bool
    var instrState: InstrState
    const events: EvQueue
    const breakpoints: BptMgr
    const threads: ThreadTable

    ghost function View(): Tool
      reads this, events, breakpoints
    {
      Tool(processState, runAppSem, tracebufSem, events.queue, events.lastRetrieved, events.history,
           breakpoints.View(), instrState, breakAtNextInst)
    }

    constructor ()
      ensures View() == Tool(NotStarted, true, true, [], None, History([], []), Bpt({}, {}, None, false, false),
          InstrInitial, false)
      ensures fresh(events) && fresh(breakpoints) && fresh(threads)
    {
      processState, runAppSem, tracebufSem, breakAtNextInst, instrState := NotStarted, true, true, false, InstrInitial;
      events := new EvQueue();
      breakpoints := new BptMgr();
      threads := new ThreadTable();
    }

    method ProcessSuspended() returns (r: bool)
      ensures r == View().Held()
    {
      r := processState == Suspended || processState == WaitFlush;
    }

    method ProcessGone() returns (r: bool)
      ensures r == View().Gone()
    {
      r := processState == Exiting || processState == Detached;
    }

    /** do_suspend_nolock; `fails` stands for the call of exit. */
    method DoSuspendNolock(newState: AppState) returns (fails: bool)
      modifies this, events, breakpoints
      ensures fails == (!old(View()).Held() && newState == WaitFlush)
      ensures View() == if fails then old(View()) else StoppedAs(old(View()), newState)
    {
      fails := false;
      var held := ProcessSuspended();
      if !held {
        if newState == WaitFlush { return true; }
        runAppSem := false;
        processState := newState;
        PrepareSuspend();
      }
    }

    /** do_suspend_nolock(APP_STATE_SUSPENDED), as all callers have it. */
    method Suspend()
      modifies this, events, breakpoints
      ensures View() == Stopped(old(View()))
    {
      var fails := DoSuspendNolock(Suspended);
      assert !fails;
    }

    /** prepare_suspend, as wait_after_callback calls it. */
    method PrepareSuspend()
      modifies breakpoints
      ensures View() == if old(View()).Gone() then old(View()) else old(View()).(b := old(View()).b.(control := true))
    {
      var gone := ProcessGone();
      breakpoints.PrepareSuspend(gone);
    }

    method EnqueueEvent(ev: Event)
      modifies events
      ensures View() == Enqueued(old(View()), ev)
    {
      events.PushBack(ev);
    }

    method SuspendAtEvent(ev: Event)
      modifies this, events, breakpoints
      ensures View() == SuspendedAt(old(View()), ev)
    {
      var gone := ProcessGone();
      if !gone {
        EnqueueEvent(ev);
        Suspend();
      }
    }

    /** app_start_cb, up to the handling of the initial requests. */
    method AppStart(ev: Event)
      modifies this, events, breakpoints
      ensures View() == SuspendedAt(old(View()).(app := Running), ev)
    {
      processState := Running;
      SuspendAtEvent(ev);
    }

    /** bpt_mgr_t::emit_event. */
    method EmitEvent(eid: EvId, addr: Addr, tid: ThreadId)
      modifies this, events, breakpoints
      ensures View() == Emitted(old(View()), eid, addr, tid)
    {
      var gone := ProcessGone();
      if eid != EvNoEvent && !gone {
        breakAtNextInst := false;
        breakpoints.steppingThread := None;
        Suspend();
        events.PushBack(Event(KindOf(eid), addr, tid));
      }
    }

    /** The section of do_ctrl under process_state_lock. */
    method EmitCtrl(eid0: EvId, addr: Addr, tid: ThreadId)
      modifies this, events, breakpoints
      ensures View() == CtrlEmitted(old(View()), eid0, addr, tid)
    {
      var eid := eid0;
      if eid == EvNoEvent && processState == PauseRequested { eid := EvPaused; }
      EmitEvent(eid, addr, tid);
    }

    /** The section of do_bpt under process_state_lock. */
    method EmitBpt(addr: Addr, tid: ThreadId)
      modifies this, events, breakpoints
      ensures View() == BptEmitted(old(View()), addr, tid)
    {
      if addr in breakpoints.bpts { EmitEvent(EvBpt, addr, tid); }
    }

    /** The section of prepare_pause under process_state_lock; `susp` stands for
        have_suspended_threads. */
    method PauseSection(susp: bool)
      modifies this, events, breakpoints
      ensures View() == PauseLocked(old(View()), susp)
    {
      if processState == Running {
        if susp {
          events.PushBack(Event(ProcessSuspend, BADADDR, NO_THREAD));
          Suspend();
        } else {
          PrepareSuspend();
          processState := PauseRequested;
        }
      }
    }

    /** prepare_pause. */
    method PreparePause(susp: bool)
      modifies this, events, breakpoints
      ensures View() == if old(events.queue) == [] then PauseLocked(old(View()), susp)
        else PauseQueued(old(View()), old(events.queue)[|old(events.queue)| - 1].ea,
            old(events.queue)[|old(events.queue)| - 1].tid)
    {
      var lastev := events.Back();
      if lastev.Some? {
        events.PushBack(Event(ProcessSuspend, lastev.value.ea, lastev.value.tid));
      } else {
        PauseSection(susp);
      }
    }

    method ReinitInstrumentations()
      modifies this`instrState
      ensures instrState == Reinitialized(old(instrState))
    {
      if instrState != InstrInitial { instrState := InstrNeedReinit; } else { instrState := InstrOk; }
    }

    /** The real resume of a held process. */
    method ResumeHeld(susp: bool)
      modifies this`processState, this`runAppSem, this`instrState, breakpoints
      ensures View() == ReallyResumed(old(View()), susp)
    {
      var oldState := processState;
      processState := Running;
      var reinst := breakpoints.PrepareResume(breakAtNextInst, susp);
      if reinst { ReinitInstrumentations(); }
      if oldState != WaitFlush { runAppSem := true; }
    }

    /** The section of do_resume under process_state_lock, but for the release of the thread. */
    method ResumeSection(eid: Kind, susp: bool)
      modifies this`processState, this`runAppSem, this`instrState, breakpoints
      ensures View() == ResumeAnswered(old(View()), eid, susp)
    {
      hide ReallyResumed;
      var empty := events.IsEmpty();
      if empty {
        var held := ProcessSuspended();
        if held { ResumeHeld(susp); }
      }
      if eid == ProcessExit { processState := Exiting; }
    }

    /** The two places of do_resume that work on the record of a thread. They do not touch what
        ResumeSection, which runs between them, works on. */
    method AnswerThreads(eid: Kind, pass: bool)
      modifies threads`excpHandled
      ensures threads.excpHandled == ThreadsAnswered(old(threads.excpHandled), AnsweredThread(), eid, pass)
    {
      var tid := AnsweredThread();
      if eid == Exception { threads.SetExcpHandled(tid, pass); }
      if eid == ThreadExit { var found := threads.ReleaseThreadData(tid); }
    }

    /** do_resume; false is the answer PTT_ERROR. `pass` is the size field of the request. */
    method DoResume(eid: Kind, pass: bool, allSuspended: bool, susp: bool) returns (ack: bool)
      modifies this`processState, this`runAppSem, this`instrState, this`tracebufSem, breakpoints, threads`excpHandled
      ensures ack == !allSuspended
      ensures View() == if ack then ResumeAnswered(old(View()), eid, susp).(traceSem := true) else old(View())
      ensures threads.excpHandled == if ack then ThreadsAnswered(old(threads.excpHandled), AnsweredThread(), eid, pass)
                                     else old(threads.excpHandled)
    {
      if allSuspended { return false; }
      hide ResumeAnswered, ThreadsAnswered, PinTool.AnsweredThread;
      AnswerThreads(eid, pass);
      ResumeSection(eid, susp);
      tracebufSem := true;
      ack := true;
    }

    /** The thread of the event that was retrieved last. */
    function AnsweredThread(): int
      reads this, events, threads
    {
      threads.LocalThreadId(if events.lastRetrieved.Some? then events.lastRetrieved.value.tid else NO_THREAD)
    }

    /** The section of prepare_and_wait_trace_flush. */
    method RequestFlush()
      modifies this, events
      ensures View() == FlushRequested(old(View()))
    {
      if processState == Running {
        events.PushFront(Event(TraceFull, 0, 0));
        processState := WaitFlush;
        tracebufSem := false;
      }
    }

    method PopDebugEvent() returns (ev: Option<Event>)
      modifies events
      ensures View() == Popped(old(View()))
      ensures ev == if old(events.queue) == [] then None else Some(old(events.queue)[0])
    {
      ev := events.PopFront();
    }

    /** wait_app_resume, when serve_sync has refused. */
    method GiveUp(trace: bool)
      modifies this`runAppSem, this`tracebufSem
      ensures View() == if trace then old(View()).(traceSem := true) else old(View()).(runSem := true)
    {
      if trace { tracebufSem := true; } else { runAppSem := true; }
    }

    method ExitProcess()
      modifies this
      ensures View() == old(View()).(app := Exiting, runSem := true)
    {
      processState := Exiting;
      runAppSem := true;
    }

    method DetachProcess()
      modifies this
      ensures View() == old(View()).(app := Detached, runSem := true)
    {
      processState := Detached;
      runAppSem := true;
    }
  }
}
