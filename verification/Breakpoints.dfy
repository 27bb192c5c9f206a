/** The breakpoint manager of the PIN debugger stub (idadbg.cpp, bpt_mgr_t): breakpoints that
    the client adds wait in a pending set until the code has been instrumented again. */
module Breakpoints {
  import opened GraphTypes

  type Addr = int
  type ThreadId = int

  /** The fields of bpt_mgr_t. */
  datatype Bpt = Bpt(bpts: set<Addr>, pending: set<Addr>, stepping: Option<ThreadId>, needReinst: bool, control: bool)
  {
    ghost predicate Has(a: Addr) {
      a in bpts || a in pending
    }
  }

  /** ev_id_t. */
  datatype EvId = EvPaused | EvSingleStep | EvBpt | EvInitialStop | EvNoEvent

  /** instr_state_t. */
  datatype InstrState = InstrInitial | InstrNeedReinit | InstrReinitStarted | InstrOk

  // ---------- what the methods do ----------

  ghost function Added(b: Bpt, a: Addr): Bpt {
    if b.Has(a) then b else b.(pending := b.pending + {a}, needReinst := true)
  }

  ghost function Deleted(b: Bpt, a: Addr): Bpt {
    if b.Has(a) then
      b.(bpts := b.bpts - {a}, pending := if a in b.bpts then b.pending else b.pending - {a}, needReinst := true)
    else b
  }

  /** need_control_cb; `susp` stands for have_suspended_threads. */
  ghost predicate NeedControl(b: Bpt, breakNext: bool, susp: bool) {
    b.stepping.Some? || breakNext || susp || b.pending != {}
  }

  ghost function Resumed(b: Bpt, breakNext: bool, susp: bool): Bpt {
    b.(control := NeedControl(b, breakNext, susp), needReinst := false)
  }

  /** add_rtns works on the compiled address only, or on all pending addresses. */
  ghost predicate OnlyThis(b: Bpt, susp: bool, instr: InstrState) {
    b.stepping.Some? || susp || instr != InstrOk
  }

  ghost function Compiled(b: Bpt, a: Addr, breakNext: bool, susp: bool, instr: InstrState): Bpt
  {
    var moved := if OnlyThis(b, susp, instr) then b.pending * {a} else b.pending;
    var b1 := b.(bpts := b.bpts + moved, pending := b.pending - moved);
    if moved == {} then b else b1.(control := NeedControl(b1, breakNext, susp))
  }

  /** The event do_ctrl decides on, before it looks at the process state. */
  ghost function CtrlEvent(b: Bpt, a: Addr, tid: ThreadId, breakNext: bool): EvId {
    if a in b.pending then EvBpt
    else if a in b.bpts then EvNoEvent
    else if b.stepping == Some(tid) then EvSingleStep
    else if breakNext then EvInitialStop
    else EvNoEvent
  }

  lemma SomeElement(s: set<Addr>)
    ensures s == {} || exists x :: x in s
  {
    if forall x :: x !in s { assert s == {}; }
  }

  /** bpt_mgr_t. The lock makes each method one step. */
  class BptMgr {
    var bpts: set<Addr>
    var pendingBpts: set<Addr>
    var steppingThread: Option<ThreadId>
    var needReinst: bool
    var controlEnabled: bool

    ghost function View(): Bpt
      reads this
    {
      Bpt(bpts, pendingBpts, steppingThread, needReinst, controlEnabled)
    }

    constructor ()
      ensures View() == Bpt({}, {}, None, false, false)
    {
      bpts, pendingBpts, steppingThread, needReinst, controlEnabled := {}, {}, None, false, false;
    }

    /** A change by one of the methods below, or several of them, as its result. */
    method Assign(b: Bpt)
      modifies this
      ensures View() == b
    {
      bpts, pendingBpts, steppingThread := b.bpts, b.pending, b.stepping;
      needReinst, controlEnabled := b.needReinst, b.control;
    }

    method AddSoftBpt(at: Addr)
      modifies this
      ensures View() == Added(old(View()), at)
    {
      if at in bpts { return; }
      if at !in pendingBpts {
        pendingBpts := pendingBpts + {at};
        needReinst := true;
      }
    }

    method DelSoftBpt(at: Addr)
      modifies this
      ensures View() == Deleted(old(View()), at)
    {
      if at in bpts {
        bpts := bpts - {at};
        needReinst := true;
        return;
      }
      if at in pendingBpts {
        pendingBpts := pendingBpts - {at};
        needReinst := true;
      }
      assert bpts - {at} == bpts;
    }

    method SetStep(tid: ThreadId)
      modifies this
      ensures View() == old(View()).(stepping := Some(tid))
    {
      steppingThread := Some(tid);
    }

    method NeedControlCb(breakNext: bool, susp: bool) returns (r: bool)
      ensures r == NeedControl(View(), breakNext, susp)
    {
      r := steppingThread.Some? || breakNext || susp || pendingBpts != {};
    }

    method UpdateCtrlFlag(breakNext: bool, susp: bool)
      modifies this`controlEnabled
      ensures controlEnabled == NeedControl(old(View()), breakNext, susp)
    {
      controlEnabled := NeedControlCb(breakNext, susp);
    }

    method PrepareResume(breakNext: bool, susp: bool) returns (ret: bool)
      modifies this
      ensures View() == Resumed(old(View()), breakNext, susp) && ret == old(needReinst)
      ensures controlEnabled <==> steppingThread != None || breakNext || susp || exists a :: a in pendingBpts
    {
      SomeElement(pendingBpts);
      UpdateCtrlFlag(breakNext, susp);
      ret := needReinst;
      needReinst := false;
    }

    /** `gone`: the process is detached or exiting. */
    method PrepareSuspend(gone: bool)
      modifies this`controlEnabled
      ensures View() == if gone then old(View()) else old(View()).(control := true)
    {
      if !gone { controlEnabled := true; }
    }

    /** The loop of add_rtns over the pending breakpoints. */
    method InstallAll()
      modifies this
      ensures View() == old(View()).(bpts := old(bpts) + old(pendingBpts), pending := {})
    {
      var rest := pendingBpts;
      ghost var moved: set<Addr> := {};
      while rest != {}
        invariant View() == old(View()).(bpts := old(bpts) + moved) && moved + rest == pendingBpts
        decreases |rest|
      {
        SomeElement(rest);
        var p :| p in rest;
        bpts := bpts + {p};
        rest := rest - {p};
        moved := moved + {p};
      }
      pendingBpts := {};
    }

    /** add_rtns; the result tells whether the code of the instruction calls bpt_rtn. */
    method AddRtns(insAddr: Addr, breakNext: bool, susp: bool, instr: InstrState) returns (haveBpt: bool)
      modifies this
      ensures View() == Compiled(old(View()), insAddr, breakNext, susp, instr) && haveBpt == (insAddr in bpts)
    {
      if steppingThread.Some? || susp || instr != InstrOk {
        if insAddr in pendingBpts {
          pendingBpts := pendingBpts - {insAddr};
          bpts := bpts + {insAddr};
          haveBpt := true;
          UpdateCtrlFlag(breakNext, susp);
          assert old(pendingBpts) * {insAddr} == {insAddr};
        } else {
          haveBpt := insAddr in bpts;
          assert old(pendingBpts) * {insAddr} == {};
        }
      } else {
        if pendingBpts != {} {
          InstallAll();
          UpdateCtrlFlag(breakNext, susp);
        }
        haveBpt := insAddr in bpts;
      }
    }

    /** The section of do_ctrl under bpt_lock. */
    method DecideCtrl(addr: Addr, tid: ThreadId, breakNext: bool) returns (eid: EvId)
      ensures eid == CtrlEvent(View(), addr, tid, breakNext)
    {
      eid := EvNoEvent;
      if addr in pendingBpts {
        eid := EvBpt;
      } else if steppingThread == Some(tid) {
        if addr !in bpts { eid := EvSingleStep; }
      } else if breakNext {
        if addr !in bpts { eid := EvInitialStop; }
      }
    }
  }

  // ---------- breakpoints, instrumentation and the code cache ----------

  /** Where the reinstrumenter is; from its start to its end it holds the VM lock. */
  datatype Phase = Idle | Started | Flushed

  /** The debugger together with PIN's code cache: `cache` says for the address of each
      compiled instruction whether its code calls bpt_rtn. `client` are the breakpoints the
      client has added and not deleted, `recent` those of them added since the last completed
      resume, and `resuming` says that do_resume is between prepare_resume, which returned
      true, and reinit_instrumentations. */
  datatype System = System(b: Bpt, instr: InstrState, phase: Phase, resuming: bool,
                           cache: map<Addr, bool>, client: set<Addr>, recent: set<Addr>)

  datatype Step =
    | Add(a: Addr)
    | Del(a: Addr)
    | SetStep(tid: ThreadId)
    | StepDone
    | PrepareSuspend
    | StartProcess(breakNext: bool, susp: bool)
    | PrepareResume(breakNext: bool, susp: bool)
    | Reinit
    | StartFlush
    | Flush
    | EndFlush
    | Compile(a: Addr, breakNext: bool, susp: bool)

  /** When a step can happen. The client is served by one thread, which is busy while it
      resumes; nothing is compiled while the reinstrumenter holds the VM lock; an instruction
      is compiled when no code for it is cached. The first reinitialisation and the start of
      the process find the cache empty. */
  ghost predicate Enabled(s: System, st: Step)
  {
    match st
    case Add(_) => !s.resuming
    case Del(_) => !s.resuming
    case SetStep(_) => !s.resuming
    case StepDone => true
    case PrepareSuspend => true
    case StartProcess(_, _) => !s.resuming && s.cache == map[]
    case PrepareResume(_, _) => !s.resuming
    case Reinit => s.instr == InstrInitial ==> s.cache == map[]
    case StartFlush => s.phase == Idle
    case Flush => s.phase == Started
    case EndFlush => s.phase == Flushed
    case Compile(a, _, _) => s.phase == Idle && a !in s.cache
  }

  ghost function Next(s: System, st: Step): System
  {
    match st
    case Add(a) =>
      s.(b := Added(s.b, a), client := s.client + {a}, recent := if s.b.Has(a) then s.recent else s.recent + {a})
    case Del(a) => s.(b := Deleted(s.b, a), client := s.client - {a}, recent := s.recent - {a})
    case SetStep(tid) => s.(b := s.b.(stepping := Some(tid)))
    case StepDone => s.(b := s.b.(stepping := None))
    case PrepareSuspend => s.(b := s.b.(control := true))
    case StartProcess(breakNext, susp) => s.(b := Resumed(s.b, breakNext, susp), recent := {})
    case PrepareResume(breakNext, susp) => s.(b := Resumed(s.b, breakNext, susp), resuming := s.b.needReinst)
    case Reinit => s.(instr := if s.instr == InstrInitial then InstrOk else InstrNeedReinit,
                      resuming := false, recent := if s.resuming then {} else s.recent)
    case StartFlush => s.(instr := InstrReinitStarted, phase := Started)
    case Flush => s.(cache := map[], phase := Flushed)
    case EndFlush => s.(instr := InstrOk, phase := Idle)
    case Compile(a, breakNext, susp) =>
      var b := Compiled(s.b, a, breakNext, susp, s.instr);
      s.(b := b, cache := s.cache[a := a in b.bpts], recent := s.recent * b.pending)
  }

  /** The client's breakpoints are the installed and the pending ones. */
  ghost predicate Partition(s: System)
  {
    s.b.bpts !! s.b.pending && s.b.bpts + s.b.pending == s.client
  }

  /** Cached code of an installed breakpoint calls bpt_rtn. */
  ghost predicate Installed(s: System)
  {
    forall a :: a in s.b.bpts && a in s.cache ==> s.cache[a]
  }

  /** All cached code of pending breakpoints calls bpt_rtn. */
  ghost predicate Clean(b: Bpt, cache: map<Addr, bool>, except: set<Addr>)
  {
    forall a :: a in b.pending && a in cache && a !in except ==> cache[a]
  }

  ghost predicate Inv(s: System)
  {
    && Partition(s) && Installed(s)
    && (s.instr == InstrOk ==> Clean(s.b, s.cache, s.recent))
    && (s.b.pending <= s.recent || s.b.control)
    && s.recent <= s.b.pending && (s.recent != {} ==> s.b.needReinst || s.resuming)
    && (s.phase == Flushed ==> s.cache == map[])
    && (s.resuming ==> s.b.pending == {} || s.b.control)
  }

  ghost function Initially(): System
  {
    System(Bpt({}, {}, None, false, false), InstrInitial, Idle, false, map[], {}, {})
  }

  /** Compilation keeps the code of installed breakpoints right exactly if it moves just the
      compiled address, or no pending breakpoint has cached code without a call of bpt_rtn. */
  lemma CompileExact(s: System, a: Addr, breakNext: bool, susp: bool)
    requires Partition(s) && Installed(s) && Enabled(s, Compile(a, breakNext, susp))
    ensures Installed(Next(s, Compile(a, breakNext, susp))) <==>
            OnlyThis(s.b, susp, s.instr) || Clean(s.b, s.cache, {})
  {
    var s' := Next(s, Compile(a, breakNext, susp));
    if !OnlyThis(s.b, susp, s.instr) && !Clean(s.b, s.cache, {}) {
      var x :| x in s.b.pending && x in s.cache && !s.cache[x];
      assert x in s'.b.bpts && x in s'.cache && !s'.cache[x];
    }
    assert s.b.bpts <= s'.b.bpts;
  }

  /** The step does not break that, if it compiles. */
  ghost predicate Safe(s: System, st: Step)
  {
    Enabled(s, st) && (st.Compile? ==> OnlyThis(s.b, st.susp, s.instr) || Clean(s.b, s.cache, {}))
  }

  /** In particular if nothing is compiled between the adding of a breakpoint and the end of
      the next resume. */
  ghost predicate Orderly(s: System, st: Step)
  {
    Enabled(s, st) && (st.Compile? ==> s.recent == {})
  }

  lemma OrderlyIsSafe(s: System, st: Step)
    requires Inv(s) && Orderly(s, st)
    ensures Safe(s, st)
  {
  }

  lemma AddKeepsInv(s: System, a: Addr)
    requires Inv(s) && !s.resuming
    ensures Inv(Next(s, Add(a)))
  {
  }

  lemma DelKeepsInv(s: System, a: Addr)
    requires Inv(s) && !s.resuming
    ensures Inv(Next(s, Del(a)))
  {
    var s' := Next(s, Del(a));
    assert s'.b.pending == s.b.pending - {a} && s'.b.bpts == s.b.bpts - {a};
  }

  lemma CompileKeepsInv(s: System, st: Step)
    requires Inv(s) && Safe(s, st) && st.Compile?
    ensures Inv(Next(s, st))
  {
    CompileExact(s, st.a, st.breakNext, st.susp);
    hide Installed;
    var s' := Next(s, st);
    assert s'.b.pending <= s.b.pending && s'.b.bpts + s'.b.pending == s.b.bpts + s.b.pending;
    assert s'.recent == s.recent * s'.b.pending;
  }

  lemma ClientKeepsInv(s: System, st: Step)
    requires Inv(s) && Enabled(s, st)
    requires st.SetStep? || st.StepDone? || st.PrepareSuspend? || st.StartProcess? || st.PrepareResume? || st.Reinit?
    ensures Inv(Next(s, st))
  {
  }

  lemma FlushKeepsInv(s: System, st: Step)
    requires Inv(s) && Enabled(s, st) && (st.StartFlush? || st.Flush? || st.EndFlush?)
    ensures Inv(Next(s, st))
  {
  }

  lemma StepKeepsInv(s: System, st: Step)
    requires Inv(s) && Safe(s, st)
    ensures Inv(Next(s, st))
  {
    hide Inv, Next;
    match st
    case Add(a) => AddKeepsInv(s, a);
    case Del(a) => DelKeepsInv(s, a);
    case Compile(_, _, _) => CompileKeepsInv(s, st);
    case StartFlush => FlushKeepsInv(s, st);
    case Flush => FlushKeepsInv(s, st);
    case EndFlush => FlushKeepsInv(s, st);
    case _ => ClientKeepsInv(s, st);
  }

  // ---------- runs ----------

  ghost function Run(s: System, steps: seq<Step>): System
    decreases |steps|
  {
    if steps == [] then s else Run(Next(s, steps[0]), steps[1..])
  }

  ghost predicate EnabledRun(s: System, steps: seq<Step>)
    decreases |steps|
  {
    steps == [] || (Enabled(s, steps[0]) && EnabledRun(Next(s, steps[0]), steps[1..]))
  }

  ghost predicate SafeRun(s: System, steps: seq<Step>)
    decreases |steps|
  {
    steps == [] || (Safe(s, steps[0]) && SafeRun(Next(s, steps[0]), steps[1..]))
  }

  ghost predicate OrderlyRun(s: System, steps: seq<Step>)
    decreases |steps|
  {
    steps == [] || (Orderly(s, steps[0]) && OrderlyRun(Next(s, steps[0]), steps[1..]))
  }

  lemma {:induction false} OrderlyRunIsSafe(s: System, steps: seq<Step>)
    requires Inv(s) && OrderlyRun(s, steps)
    ensures SafeRun(s, steps)
    decreases |steps|
  {
    hide Inv, Next, Orderly, Safe;
    if steps != [] {
      OrderlyIsSafe(s, steps[0]);
      StepKeepsInv(s, steps[0]);
      OrderlyRunIsSafe(Next(s, steps[0]), steps[1..]);
    }
  }

  lemma {:induction false} RunKeepsInv(s: System, steps: seq<Step>)
    requires Inv(s) && SafeRun(s, steps)
    ensures Inv(Run(s, steps))
    decreases |steps|
  {
    hide Inv, Next, Safe;
    if steps != [] {
      StepKeepsInv(s, steps[0]);
      RunKeepsInv(Next(s, steps[0]), steps[1..]);
    }
  }

  lemma StepKeepsPartition(s: System, st: Step)
    requires Partition(s)
    ensures Partition(Next(s, st))
  {
  }

  /** Whatever is compiled when: bpts and pending are a partition of the client's set. */
  lemma {:induction false} RunKeepsPartition(s: System, steps: seq<Step>)
    requires Partition(s) && EnabledRun(s, steps)
    ensures Partition(Run(s, steps))
    decreases |steps|
  {
    if steps != [] {
      StepKeepsPartition(s, steps[0]);
      hide Partition, Next, Enabled;
      RunKeepsPartition(Next(s, steps[0]), steps[1..]);
    }
  }

  /** Only deleting uninstalls a breakpoint. */
  lemma {:induction false} StaysInstalled(s: System, steps: seq<Step>, a: Addr)
    requires a in s.b.bpts && Del(a) !in steps
    ensures a in Run(s, steps).b.bpts
    decreases |steps|
  {
    if steps != [] {
      StaysInstalled(Next(s, steps[0]), steps[1..], a);
    }
  }

  /** The breakpoint a waits to be installed, or is installed and its cached code calls bpt_rtn. */
  ghost predicate Armed(s: System, a: Addr)
  {
    a in s.cache && (a in s.b.pending || (a in s.b.bpts && s.cache[a]))
  }

  lemma StepKeepsArmed(s: System, st: Step, a: Addr)
    requires Armed(s, a) && Safe(s, st) && st != Del(a) && st != Flush
    ensures Armed(Next(s, st), a) && Next(s, st).cache[a] == s.cache[a]
  {
  }

  /** A pending breakpoint stays armed, unless it is deleted or the code cache is flushed. */
  lemma {:induction false} StaysArmed(s: System, steps: seq<Step>, a: Addr)
    requires Armed(s, a) && SafeRun(s, steps) && Del(a) !in steps && Flush !in steps
    ensures Armed(Run(s, steps), a) && Run(s, steps).cache[a] == s.cache[a]
    decreases |steps|
  {
    hide Armed, Next, Safe;
    if steps != [] {
      StepKeepsArmed(s, steps[0], a);
      StaysArmed(Next(s, steps[0]), steps[1..], a);
    }
  }

  /** An instruction is executed: in the state s its code looks at the control flag; if that
      is set, do_ctrl decides after the steps `mid` of other threads; and after the steps
      `more` the code calls do_bpt, if it contains the call of bpt_rtn. The breakpoint is
      reported by do_ctrl or by do_bpt. */
  ghost predicate Reported(s: System, mid: seq<Step>, more: seq<Step>, a: Addr, tid: ThreadId, breakNext: bool)
    requires a in s.cache
  {
    || (s.b.control && CtrlEvent(Run(s, mid).b, a, tid, breakNext) == EvBpt)
    || (s.cache[a] && a in Run(Run(s, mid), more).b.bpts)
  }

  lemma ArmedIsReported(s: System, mid: seq<Step>, more: seq<Step>, a: Addr, tid: ThreadId, breakNext: bool)
    requires Inv(s) && a in s.client && a !in s.recent && a in s.cache
    requires SafeRun(s, mid) && Flush !in mid && Del(a) !in mid && Del(a) !in more
    ensures Reported(s, mid, more, a, tid, breakNext)
  {
    assert Armed(s, a) && (a in s.b.pending ==> s.b.control);
    hide Inv;
    StaysArmed(s, mid, a);
    if a in s.b.bpts { StaysInstalled(s, mid, a); }
    if a in Run(s, mid).b.bpts { StaysInstalled(Run(s, mid), more, a); }
  }

  /** No breakpoint is missed: if nothing is compiled between the adding of a breakpoint and
      the end of the next resume, executing the code of a breakpoint that a resume has
      followed reports it, unless it is deleted or the cache is flushed in the meantime. */
  lemma NoBreakpointMissed(steps: seq<Step>, mid: seq<Step>, more: seq<Step>, a: Addr, tid: ThreadId, breakNext: bool)
    requires OrderlyRun(Initially(), steps) && OrderlyRun(Run(Initially(), steps), mid)
    requires var s := Run(Initially(), steps); a in s.client && a !in s.recent && a in s.cache
    requires Flush !in mid && Del(a) !in mid && Del(a) !in more
    ensures Reported(Run(Initially(), steps), mid, more, a, tid, breakNext)
  {
    OrderlyRunIsSafe(Initially(), steps);
    RunKeepsInv(Initially(), steps);
    var s := Run(Initially(), steps);
    hide Inv, Initially, Run;
    OrderlyRunIsSafe(s, mid);
    ArmedIsReported(s, mid, more, a, tid, breakNext);
  }

  /** No spurious breakpoint: do_ctrl decides for, and do_bpt finds, only breakpoints that
      the client has added and not deleted. */
  lemma NoBreakpointInvented(steps: seq<Step>, a: Addr, tid: ThreadId, breakNext: bool)
    requires EnabledRun(Initially(), steps)
    ensures var s := Run(Initially(), steps);
      CtrlEvent(s.b, a, tid, breakNext) == EvBpt || a in s.b.bpts ==> a in s.client
  {
    RunKeepsPartition(Initially(), steps);
  }

  // ---------- steps, the stop at the next instruction, and suspended threads ----------

  /** The step sets the control flag anew. */
  predicate AtResume(st: Step)
  {
    st.StartProcess? || st.PrepareResume?
  }

  /** After a resume the code calls do_ctrl exactly if there is a reason for it. */
  lemma ResumeSetsFlag(s: System, st: Step)
    requires AtResume(st)
    ensures Next(s, st).b.control <==>
            s.b.stepping != None || st.breakNext || st.susp || exists a :: a in s.b.pending
  {
    SomeElement(s.b.pending);
  }

  /** So does a compilation that installs something; another one leaves the flag alone. */
  lemma CompilationSetsFlag(s: System, st: Step)
    requires st.Compile?
    ensures var b := Next(s, st).b;
      b.control <==> if b.pending == s.b.pending then s.b.control
        else s.b.stepping != None || st.breakNext || st.susp || exists a :: a in b.pending
  {
    var b := Next(s, st).b;
    SomeElement(b.pending);
    var moved := if OnlyThis(s.b, st.susp, s.instr) then s.b.pending * {st.a} else s.b.pending;
    SomeElement(moved);
    if x :| x in moved { assert x !in b.pending && x in s.b.pending; }
  }

  /** A compilation installs the pending breakpoint of its instruction, and the other ones
      only when no thread steps or is suspended and the instrumentation is in order. */
  lemma CompilationInstalls(s: System, st: Step, x: Addr)
    requires st.Compile? && Partition(s) && x in s.b.pending
    ensures x in Next(s, st).b.bpts <==> x == st.a || (s.b.stepping == None && !st.susp && s.instr == InstrOk)
    ensures x in Next(s, st).b.bpts <==> x !in Next(s, st).b.pending
  {
  }

  /** The next resume has the code instrumented again exactly if the client has added or deleted
      a breakpoint since the last one. */
  lemma ChangesReinstrument(s: System, st: Step)
    requires Partition(s) && Enabled(s, st)
    ensures Next(s, st).b.needReinst <==> !AtResume(st) && (s.b.needReinst || Next(s, st).client != s.client)
    ensures st.PrepareResume? ==> Next(s, st).resuming == s.b.needReinst
  {
    if st.Add? {
      assert st.a in s.client || st.a in Next(s, st).client;
      assert st.a in s.client ==> s.client + {st.a} == s.client;
    }
    if st.Del? { assert st.a in s.client ==> st.a !in Next(s, st).client; }
  }

  /** When the flag is set anew, a thread is stepping, the process is to stop at the next
      instruction, or a thread is suspended. */
  ghost predicate Wanted(s: System, st: Step)
  {
    AtResume(st) || st.Compile? ==> s.b.stepping != None || st.breakNext || st.susp
  }

  ghost predicate WantedRun(s: System, steps: seq<Step>)
    decreases |steps|
  {
    steps == [] || (Wanted(s, steps[0]) && WantedRun(Next(s, steps[0]), steps[1..]))
  }

  ghost predicate HasResume(steps: seq<Step>)
  {
    exists i :: 0 <= i < |steps| && AtResume(steps[i])
  }

  lemma ResumeFirst(steps: seq<Step>)
    requires steps != []
    ensures HasResume(steps) <==> AtResume(steps[0]) || HasResume(steps[1..])
  {
    if i :| 0 <= i < |steps| && AtResume(steps[i]) && i > 0 { assert AtResume(steps[1..][i - 1]); }
    if i :| 0 <= i < |steps[1..]| && AtResume(steps[1..][i]) { assert AtResume(steps[i + 1]); }
  }

  lemma StepKeepsFlag(s: System, st: Step)
    requires Wanted(s, st) && (s.b.control || AtResume(st))
    ensures Next(s, st).b.control
  {
  }

  /** Once a resume has set the flag it stays set as long as there is one of these reasons. */
  lemma {:induction false} FlagStays(s: System, steps: seq<Step>)
    requires WantedRun(s, steps) && (s.b.control || HasResume(steps))
    ensures Run(s, steps).b.control
    decreases |steps|
  {
    if steps != [] {
      ResumeFirst(steps);
      hide Next, HasResume;
      if s.b.control || AtResume(steps[0]) { StepKeepsFlag(s, steps[0]); }
      hide Wanted;
      FlagStays(Next(s, steps[0]), steps[1..]);
    }
  }

  /** No event has been emitted, and no other thread is to be stepped. */
  predicate Undisturbed(steps: seq<Step>)
  {
    forall st :: st in steps ==> !st.StepDone? && !st.SetStep?
  }

  lemma {:induction false} StepStaysSet(s: System, steps: seq<Step>)
    requires s.b.stepping != None && Undisturbed(steps)
    ensures Run(s, steps).b.stepping == s.b.stepping && WantedRun(s, steps)
    decreases |steps|
  {
    if steps != [] {
      assert steps[0] in steps && forall st :: st in steps[1..] ==> st in steps;
      StepStaysSet(Next(s, steps[0]), steps[1..]);
    }
  }

  /** Whenever the steps set the flag anew, break_at_next_inst is set (threads are suspended). */
  predicate KeepsBreaking(steps: seq<Step>)
  {
    forall st :: st in steps && (AtResume(st) || st.Compile?) ==> st.breakNext
  }

  predicate KeepsSuspended(steps: seq<Step>)
  {
    forall st :: st in steps && (AtResume(st) || st.Compile?) ==> st.susp
  }

  lemma {:induction false} WantedBy(s: System, steps: seq<Step>)
    requires KeepsBreaking(steps) || KeepsSuspended(steps)
    ensures WantedRun(s, steps)
    decreases |steps|
  {
    if steps != [] {
      hide Next;
      assert steps[0] in steps && forall st :: st in steps[1..] ==> st in steps;
      WantedBy(Next(s, steps[0]), steps[1..]);
    }
  }

  /** What do_ctrl decides where the client has no breakpoint: the event of a step for the
      thread that is to be stepped, and that of the initial stop for the others. */
  lemma DecidedApart(s: System, a: Addr, tid: ThreadId, breakNext: bool)
    requires Partition(s) && a !in s.client
    ensures CtrlEvent(s.b, a, tid, breakNext) == EvSingleStep <==> s.b.stepping == Some(tid)
    ensures CtrlEvent(s.b, a, tid, breakNext) == EvInitialStop <==> s.b.stepping != Some(tid) && breakNext
    ensures CtrlEvent(s.b, a, tid, breakNext) != EvBpt
  {
    assert a !in s.b.bpts + s.b.pending;
  }

  /** No step is missed: the client has set the thread tid to step and resumed. Whatever else
      happens, until an event is emitted or the next step is set, the code of an instruction
      without breakpoint that the thread executes calls do_ctrl, and this decides for the step. */
  lemma NoStepMissed(steps: seq<Step>, rest: seq<Step>, mid: seq<Step>, a: Addr, tid: ThreadId, breakNext: bool)
    requires EnabledRun(Initially(), steps) && Enabled(Run(Initially(), steps), SetStep(tid))
    requires var s0 := Next(Run(Initially(), steps), SetStep(tid));
      EnabledRun(s0, rest) && EnabledRun(Run(s0, rest), mid) && a !in Run(Run(s0, rest), mid).client
    requires HasResume(rest) && Undisturbed(rest) && Undisturbed(mid)
    ensures var s := Run(Next(Run(Initially(), steps), SetStep(tid)), rest);
      s.b.control && CtrlEvent(Run(s, mid).b, a, tid, breakNext) == EvSingleStep
  {
    var s0 := Next(Run(Initially(), steps), SetStep(tid));
    RunKeepsPartition(Initially(), steps);
    hide Run, EnabledRun, HasResume, Undisturbed, WantedRun, CtrlEvent;
    StepStaysSet(s0, rest);
    FlagStays(s0, rest);
    StepStaysSet(Run(s0, rest), mid);
    RunKeepsPartition(s0, rest);
    RunKeepsPartition(Run(s0, rest), mid);
    DecidedApart(Run(Run(s0, rest), mid), a, tid, breakNext);
  }

  lemma StepIsSet(s: System, st: Step, tid: ThreadId)
    ensures Next(s, st).b.stepping == Some(tid) <==>
            st == SetStep(tid) || (s.b.stepping == Some(tid) && !st.SetStep? && !st.StepDone?)
  {
  }

  /** The client has set a step for tid, and no event has been emitted since, nor another step
      been set. */
  ghost predicate SetSince(steps: seq<Step>, tid: ThreadId)
    decreases |steps|
  {
    steps != [] &&
    (var st := steps[|steps| - 1];
     st == SetStep(tid) || (!st.SetStep? && !st.StepDone? && SetSince(steps[..|steps| - 1], tid)))
  }

  /** No step is invented. */
  lemma {:induction false} NoStepInvented(s: System, steps: seq<Step>, tid: ThreadId)
    requires s.b.stepping == None && Run(s, steps).b.stepping == Some(tid)
    ensures SetSince(steps, tid)
    decreases |steps|
  {
    assert steps != [];
    var st, before := steps[|steps| - 1], steps[..|steps| - 1];
    RunLast(s, steps);
    hide Run, Next;
    StepIsSet(Run(s, before), st, tid);
    if st != SetStep(tid) { NoStepInvented(s, before, tid); }
  }

  lemma {:induction false} RunLast(s: System, steps: seq<Step>)
    ensures steps != [] ==> Run(s, steps) == Next(Run(s, steps[..|steps| - 1]), steps[|steps| - 1])
    decreases |steps|
  {
    if |steps| > 1 {
      hide Next;
      assert steps[1..][..|steps| - 2] == steps[..|steps| - 1][1..];
      RunLast(Next(s, steps[0]), steps[1..]);
    }
  }

  /** The stop at the next instruction is not missed: since a resume with break_at_next_inst, this
      has been set whenever the flag was set anew, and is set when do_ctrl decides. */
  lemma NoInitialStopMissed(steps: seq<Step>, rest: seq<Step>, mid: seq<Step>, a: Addr, tid: ThreadId)
    requires EnabledRun(Initially(), steps)
    requires var s0 := Run(Initially(), steps); EnabledRun(s0, rest) && EnabledRun(Run(s0, rest), mid)
    requires HasResume(rest) && KeepsBreaking(rest)
    requires var s1 := Run(Run(Run(Initially(), steps), rest), mid); a !in s1.client && s1.b.stepping != Some(tid)
    ensures var s := Run(Run(Initially(), steps), rest);
      s.b.control && CtrlEvent(Run(s, mid).b, a, tid, true) == EvInitialStop
  {
    var s0 := Run(Initially(), steps);
    RunKeepsPartition(Initially(), steps);
    hide Run, EnabledRun, HasResume, WantedRun, CtrlEvent;
    WantedBy(s0, rest);
    FlagStays(s0, rest);
    RunKeepsPartition(s0, rest);
    RunKeepsPartition(Run(s0, rest), mid);
    DecidedApart(Run(Run(s0, rest), mid), a, tid, true);
  }

  /** While threads are suspended the code calls do_ctrl, in which they wait. */
  lemma SuspendedThreadsWait(s: System, rest: seq<Step>)
    requires HasResume(rest) && KeepsSuspended(rest)
    ensures Run(s, rest).b.control
  {
    WantedBy(s, rest);
    FlagStays(s, rest);
  }

  // ---------- both conditions are needed ----------

  /** The process has started, and the instruction at 1 has been compiled and then got a
      breakpoint. */
  ghost function Added1(): System
  {
    System(Bpt({}, {1}, None, true, false), InstrOk, Idle, false, map[1 := false], {1}, {1})
  }

  const START_AND_ADD := [StartProcess(false, false), Reinit, Compile(1, false, false), Add(1)]

  lemma RunUnfolds(s: System, st: Step, steps: seq<Step>)
    ensures Run(s, [st] + steps) == Run(Next(s, st), steps)
    ensures OrderlyRun(s, [st] + steps) <==> Orderly(s, st) && OrderlyRun(Next(s, st), steps)
    ensures EnabledRun(s, [st] + steps) <==> Enabled(s, st) && EnabledRun(Next(s, st), steps)
  {
    assert ([st] + steps)[1..] == steps;
  }

  lemma AddedRun(rest: seq<Step>)
    ensures Run(Initially(), START_AND_ADD + rest) == Run(Added1(), rest)
    ensures EnabledRun(Added1(), rest) ==> EnabledRun(Initially(), START_AND_ADD + rest)
    ensures OrderlyRun(Added1(), rest) ==> OrderlyRun(Initially(), START_AND_ADD + rest)
  {
    hide Run, OrderlyRun, EnabledRun;
    var s0 := Initially();
    var s1 := Next(s0, StartProcess(false, false));
    var s2 := Next(s1, Reinit);
    var s3 := Next(s2, Compile(1, false, false));
    assert s1 == s0 && s2 == s0.(instr := InstrOk) && s3 == s2.(cache := map[1 := false]);
    assert Next(s3, Add(1)) == Added1();
    RunUnfolds(s3, Add(1), rest);
    RunUnfolds(s2, Compile(1, false, false), [Add(1)] + rest);
    RunUnfolds(s1, Reinit, [Compile(1, false, false)] + ([Add(1)] + rest));
    RunUnfolds(s0, StartProcess(false, false), [Reinit] + ([Compile(1, false, false)] + ([Add(1)] + rest)));
    assert START_AND_ADD + rest
        == [StartProcess(false, false)] + ([Reinit] + ([Compile(1, false, false)] + ([Add(1)] + rest)));
  }

  /** A breakpoint set on compiled code is missed after the resume, until the cache is
      flushed, when something else is compiled before the resume. */
  lemma MissedWithoutOrder(tid: ThreadId)
    ensures exists steps :: EnabledRun(Initially(), steps) && Misses(Run(Initially(), steps), [], tid)
  {
    var rest := [Compile(2, false, false), PrepareResume(false, false), Reinit];
    var s4 := Added1();
    var s5 := Next(s4, rest[0]);
    assert s5.b == Bpt({1}, {}, None, true, false) && s5.recent == {};
    var s6 := Next(s5, rest[1]);
    var s7 := Next(s6, Reinit);
    hide Run, EnabledRun;
    RunUnfolds(s6, Reinit, []);
    RunUnfolds(s5, rest[1], [Reinit]);
    RunUnfolds(s4, rest[0], [rest[1], Reinit]);
    RunOfNothing(s7);
    assert rest == [rest[0]] + [rest[1], Reinit] && [rest[1], Reinit] == [rest[1]] + [Reinit];
    assert [Reinit] == [Reinit] + [];
    AddedRun(rest);
    assert Misses(s7, [], tid);
  }

  lemma RunOfNothing(s: System)
    ensures Run(s, []) == s && EnabledRun(s, []) && OrderlyRun(s, [])
  {
  }

  /** The breakpoint at 1 is not reported, although a resume has followed it. */
  ghost predicate Misses(s: System, mid: seq<Step>, tid: ThreadId)
  {
    1 in s.client && 1 !in s.recent && 1 in s.cache && !Reported(s, mid, [], 1, tid, false)
  }

  /** The resume has followed, and the control flag is set. */
  ghost function Resumed1(): System
  {
    System(Bpt({}, {1}, None, false, true), InstrNeedReinit, Idle, false, map[1 := false], {1}, {})
  }

  const RESUME := [PrepareResume(false, false), Reinit]

  lemma ResumedRun()
    ensures OrderlyRun(Initially(), START_AND_ADD + RESUME) && Run(Initially(), START_AND_ADD + RESUME) == Resumed1()
  {
    var s5 := Next(Added1(), RESUME[0]);
    assert Next(s5, Reinit) == Resumed1();
    hide Run, OrderlyRun, Next;
    RunOfNothing(Resumed1());
    RunUnfolds(s5, Reinit, []);
    RunUnfolds(Added1(), RESUME[0], [Reinit]);
    assert RESUME == [RESUME[0]] + [Reinit] && [Reinit] == [Reinit] + [];
    AddedRun(RESUME);
  }

  const FLUSH_AND_COMPILE := [StartFlush, Flush, EndFlush, Compile(1, false, false)]

  /** The cache has been flushed. */
  ghost function Flushed1(): System
  {
    Resumed1().(instr := InstrOk, cache := map[])
  }

  lemma FlushedRun(rest: seq<Step>)
    ensures OrderlyRun(Resumed1(), [StartFlush] + ([Flush] + ([EndFlush] + rest))) <==> OrderlyRun(Flushed1(), rest)
    ensures Run(Resumed1(), [StartFlush] + ([Flush] + ([EndFlush] + rest))) == Run(Flushed1(), rest)
  {
    var s := Resumed1();
    var s1 := s.(instr := InstrReinitStarted, phase := Started);
    var s2 := s1.(cache := map[], phase := Flushed);
    assert Next(s, StartFlush) == s1 && Next(s1, Flush) == s2 && Next(s2, EndFlush) == Flushed1();
    hide Run, OrderlyRun, Next;
    RunUnfolds(s2, EndFlush, rest);
    RunUnfolds(s1, Flush, [EndFlush] + rest);
    RunUnfolds(s, StartFlush, [Flush] + ([EndFlush] + rest));
  }

  lemma CompiledAgain()
    ensures OrderlyRun(Resumed1(), FLUSH_AND_COMPILE)
    ensures Run(Resumed1(), FLUSH_AND_COMPILE).b == Bpt({1}, {}, None, false, false)
  {
    var compile := FLUSH_AND_COMPILE[3];
    var s := Next(Flushed1(), compile);
    assert s.b == Bpt({1}, {}, None, false, false) && Orderly(Flushed1(), compile);
    hide Run, OrderlyRun, Next, Orderly, Resumed1, Flushed1;
    RunOfNothing(s);
    RunUnfolds(Flushed1(), compile, []);
    FlushedRun([compile]);
    assert [compile] == [compile] + [];
    assert FLUSH_AND_COMPILE == [StartFlush] + ([Flush] + ([EndFlush] + [compile]));
  }

  /** When the cache is flushed and the instruction compiled again while an old copy of it is
      on its way from the control flag to do_ctrl, this copy misses the breakpoint. */
  lemma MissedAcrossFlush(tid: ThreadId)
    ensures exists steps, mid ::
      OrderlyRun(Initially(), steps) && OrderlyRun(Run(Initially(), steps), mid)
          && Misses(Run(Initially(), steps), mid, tid)
  {
    ResumedRun();
    CompiledAgain();
    hide Run, OrderlyRun, Initially;
    RunOfNothing(Run(Resumed1(), FLUSH_AND_COMPILE));
    assert Misses(Resumed1(), FLUSH_AND_COMPILE, tid);
  }
}
