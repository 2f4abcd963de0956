/** What an execution has done, read off the steps taken: which awaits settled, and how,
    decides how far it got. */
module ExecutorHistory {
  import opened Basics
  import opened CrawlExecutor

  /** Steps of one execution. */
  predicate IsOf(s: Step, e: nat) {
    !s.Dispatch? && !s.Cancel? && s.e == e
  }

  /** The steps taken while their execution was not aborted, by the log. */
  function ClearSteps(p: Process, steps: seq<Step>): set<Step>
    requires Run(p, steps).Some?
    decreases |steps|
  {
    if steps == [] then {}
    else ClearNow(p, steps[0]) + ClearSteps(Next(p, steps[0]), steps[1..])
  }

  function ClearNow(p: Process, s: Step): set<Step> {
    if !s.Dispatch? && !s.Cancel? && Aborted(s.e) !in p.log then {s} else {}
  }

  predicate Either(past: set<Step>, yes: Step, no: Step) {
    yes in past || no in past
  }

  // ------------------------------------------------- one execution and its past

  predicate BeforeGuard(pc: Pc) {
    pc == Preflight || pc == Creating || pc == Guarding
  }

  predicate InSetup(pc: Pc) {
    BeforeGuard(pc) || pc == Paging
  }

  /** Each await settles once, in order. */
  predicate InSequence(x: Exec, e: nat, past: set<Step>) {
    && (Either(past, PreflightDone(e, true), PreflightDone(e, false)) ==> x.pc != Preflight)
    && (Either(past, ContextReady(e, true), ContextReady(e, false)) ==> !BeforeContext(x.pc))
    && (Either(past, GuardDone(e, true), GuardDone(e, false)) ==> !BeforeGuard(x.pc))
    && (Either(past, PageReady(e, true), PageReady(e, false)) ==> !InSetup(x.pc))
    && (Either(past, AgentDone(e), WatchdogResolves(e)) ==> !InSetup(x.pc) && x.pc != Running)
    && (Either(past, FenceDone(e, true), FenceDone(e, false)) ==> x.pc == Completing || x.pc.Ended?)
    && (Either(past, CompleteDone(e, true), CompleteDone(e, false)) ==> x.pc.Ended?)
  }

  /** A setup await goes on exactly when the one before succeeded without an abort. */
  predicate SetupTold(x: Exec, e: nat, past: set<Step>, clear: set<Step>) {
    && clear <= past
    && (x.pc == Creating <==> PreflightDone(e, true) in clear && !Either(past, ContextReady(e, true), ContextReady(e, false)))
    && (x.pc == Guarding <==> ContextReady(e, true) in clear && !Either(past, GuardDone(e, true), GuardDone(e, false)))
    && (x.pc == Paging <==> GuardDone(e, true) in clear && !Either(past, PageReady(e, true), PageReady(e, false)))
    && (x.pc == Running <==> PageReady(e, true) in clear && !Either(past, AgentDone(e), WatchdogResolves(e)))
    && (ContextReady(e, true) in past ==> PreflightDone(e, true) in past)
    && (GuardDone(e, true) in past ==> ContextReady(e, true) in past)
    && (PageReady(e, true) in past ==> GuardDone(e, true) in past)
  }

  /** The flags record what settled well. */
  predicate FlagsTold(x: Exec, e: nat, past: set<Step>) {
    && (x.created <==> ContextReady(e, true) in past)
    && (x.page <==> PageReady(e, true) in past)
    && (x.closed <==> CloseSettles(e, true) in past)
    && (x.watchdogFired <==> WatchdogFires(e) in past)
    && (x.fencePassed <==> FenceDone(e, true) in past)
    && (x.fencePassed ==> x.completeCalled)
    && (x.pc == Ended(true) <==> CompleteDone(e, true) in past)
  }

  /** The finally block and what follows it. */
  predicate Leaves(pc: Pc) {
    pc == ClosingPage || pc == Closing || pc == Fencing || pc == Completing
  }

  /** The abort listener lives from the creation of the context to the finally block. */
  predicate Listens(x: Exec) {
    x.listening ==> x.created && !Leaves(x.pc)
  }

  /** A close is under way or done, or has failed before. */
  predicate CloseTried(x: Exec, e: nat, past: set<Step>) {
    x.closing || x.closed || CloseSettles(e, false) in past
  }

  /** Aborting an execution with a browser, or its watchdog firing, closes the browser. */
  predicate ClosesTold(x: Exec, e: nat, past: set<Step>) {
    && ((x.pc == Guarding || x.pc == Paging || x.pc == Running) ==> x.listening)
    && Listens(x)
    && (x.aborted && x.listening ==> CloseTried(x, e, past))
    && (x.watchdogFired ==> CloseTried(x, e, past))
  }

  /** The agent loop is in the log exactly when the page came without an abort. */
  predicate LogTold(x: Exec, e: nat, log: seq<Event>, clear: set<Step>) {
    && (AgentStarted(e) in log <==> PageReady(e, true) in clear)
    && (CompleteCalled(e) in log <==> x.completeCalled)
    && (Aborted(e) in log <==> x.aborted)
  }

  predicate Told(x: Exec, e: nat, log: seq<Event>, past: set<Step>, clear: set<Step>) {
    InSequence(x, e, past) && SetupTold(x, e, past, clear) && FlagsTold(x, e, past)
    && ClosesTold(x, e, past) && LogTold(x, e, log, clear)
  }

  // --------------------------------------------------------------- its own steps

  predicate KeepsFlags(x: Exec, y: Exec) {
    && y.created == x.created && y.page == x.page && y.closed == x.closed && y.fencePassed == x.fencePassed
    && y.watchdogFired == x.watchdogFired && y.aborted == x.aborted
    && (x.closing ==> y.closing) && (x.completeCalled ==> y.completeCalled)
  }

  lemma {:induction false} AfterCloseKeeps(x: Exec)
    ensures KeepsFlags(x, AfterClose(x)) && AfterClose(x).listening == x.listening
    ensures AfterClose(x).pc == Fencing || AfterClose(x).pc == Completing
  {
  }

  lemma {:induction false} StartCloseKeeps(x: Exec, pc: Pc)
    ensures KeepsFlags(x, StartClose(x).(pc := pc)) && StartClose(x).(pc := pc).listening == x.listening
  {
  }

  lemma {:induction false} CloseKeeps(x: Exec)
    ensures KeepsFlags(x, EnterClose(x)) && EnterClose(x).listening == x.listening
    ensures EnterClose(x).pc == Closing || EnterClose(x).pc == Fencing || EnterClose(x).pc == Completing
  {
    if x.closed || !x.created {
      AfterCloseKeeps(x);
    } else {
      StartCloseKeeps(x, Closing);
    }
  }

  /** The finally block leaves the flags of the try block as they are. */
  lemma {:induction false} FinallyKeeps(x: Exec) returns (y: Exec)
    ensures y == EnterFinally(x) && KeepsFlags(x, y) && Leaves(y.pc) && !y.listening
  {
    y := EnterFinally(x);
    CloseKeeps(x.(listening := false));
  }

  function ClearWith(x: Exec, clear: set<Step>, s: Step): set<Step> {
    if x.aborted then clear else clear + {s}
  }

  /** An execution's own step, by what it does to place and flags. */
  predicate Moves(x: Exec, y: Exec, s: Step) {
    && MovesPlace(x, y, s) && MovesFlags(x, y, s) && MovesClose(x, y, s)
  }

  predicate MovesPlace(x: Exec, y: Exec, s: Step) {
    match s
    case PreflightDone(_, ok) => if ok && !x.aborted then y.pc == Creating else Leaves(y.pc)
    case ContextReady(_, ok) =>
      if !ok then Leaves(y.pc) else if x.aborted then y.pc == AbortClosing else y.pc == Guarding
    case GuardDone(_, ok) => if ok && !x.aborted then y.pc == Paging else Leaves(y.pc)
    case PageReady(_, ok) => if ok && !x.aborted then y.pc == Running else Leaves(y.pc)
    case AgentDone(_) => Leaves(y.pc)
    case WatchdogResolves(_) => Leaves(y.pc)
    case PageClosed(_) => y.pc == Closing || y.pc == Fencing || y.pc == Completing
    case FenceDone(_, ok) => y.pc == if ok then Completing else Ended(false)
    case CompleteDone(_, ok) => y.pc == Ended(ok)
    case CloseSettles(_, ok) =>
      if x.pc == AbortClosing then Leaves(y.pc)
      else if x.pc == Closing then (if ok then y.pc == Fencing || y.pc == Completing else y.pc == Ended(false))
      else y.pc == x.pc
    case _ => y.pc == x.pc
  }

  predicate MovesFlags(x: Exec, y: Exec, s: Step) {
    && y.created == (x.created || (s.ContextReady? && s.ok))
    && y.page == (x.page || (s.PageReady? && s.ok))
    && y.closed == (x.closed || (s.CloseSettles? && s.ok))
    && y.watchdogFired == (x.watchdogFired || s.WatchdogFires?)
    && y.fencePassed == (x.fencePassed || (s.FenceDone? && s.ok))
    && y.aborted == (x.aborted || s.ExternalAbort? || s.Cancel?)
    && (x.completeCalled || (s.FenceDone? && s.ok) ==> y.completeCalled)
  }

  predicate MovesClose(x: Exec, y: Exec, s: Step) {
    && (y.closing || y.closed || !(x.closing || x.closed) || (s.CloseSettles? && !s.ok))
    && (y.listening ==> !Leaves(y.pc) && (x.listening || (s.ContextReady? && s.ok)))
    && (s.ContextReady? && s.ok ==> y.listening && (y.aborted ==> y.closing))
    && (x.listening && !Leaves(y.pc) && !PastClose(y.pc) ==> y.listening)
    && (y.listening && y.aborted && !x.aborted ==> y.closing || y.closed)
    && (s.WatchdogFires? ==> y.closing || y.closed)
  }

  /** Going to the finally block from where only page or closed changed. */
  lemma {:induction false} LeavingMoves(x: Exec, x': Exec, y: Exec, s: Step)
    requires KeepsFlags(x', y) && Leaves(y.pc) && !y.listening
    requires MovesFlags(x, x', s) && !s.ContextReady? && !s.WatchdogFires?
    requires x'.closing || x'.closed || !(x.closing || x.closed) || (s.CloseSettles? && !s.ok)
    ensures MovesFlags(x, y, s) && MovesClose(x, y, s)
  {
  }

  lemma {:induction false} PreflightMoves(x: Exec, s: Step)
    requires Sound(x) && s.PreflightDone? && Ready(x, s)
    ensures Moves(x, AfterPreflight(x, s.ok), s)
  {
    if !s.ok || x.aborted {
      var y := FinallyKeeps(x);
      LeavingMoves(x, x, y, s);
    }
  }

  lemma {:induction false} ContextMoves(x: Exec, s: Step)
    requires Sound(x) && s.ContextReady? && Ready(x, s)
    ensures Moves(x, AfterContext(x, s.ok), s)
  {
    if !s.ok {
      var y := FinallyKeeps(x);
      assert KeepsFlags(x, y);
    }
  }

  lemma {:induction false} GuardMoves(x: Exec, s: Step)
    requires Sound(x) && s.GuardDone? && Ready(x, s)
    ensures Moves(x, AfterGuard(x, s.ok), s)
  {
    if !s.ok || x.aborted {
      var y := FinallyKeeps(x);
      LeavingMoves(x, x, y, s);
    }
  }

  lemma {:induction false} PageMoves(x: Exec, s: Step)
    requires Sound(x) && s.PageReady? && Ready(x, s)
    ensures Moves(x, AfterPage(x, s.ok), s)
  {
    if !s.ok {
      var y := FinallyKeeps(x);
      LeavingMoves(x, x, y, s);
    } else if x.aborted {
      var y := FinallyKeeps(x.(page := true));
      LeavingMoves(x, x.(page := true), y, s);
    }
  }

  lemma {:induction false} SetupMoves(x: Exec, s: Step)
    requires Sound(x) && IsSetup(s) && Ready(x, s)
    ensures Moves(x, Local(x, s), s)
  {
    if s.PreflightDone? {
      PreflightMoves(x, s);
    } else if s.ContextReady? {
      ContextMoves(x, s);
    } else if s.GuardDone? {
      GuardMoves(x, s);
    } else {
      PageMoves(x, s);
    }
  }

  lemma {:induction false} TeardownMoves(x: Exec, s: Step)
    requires Sound(x) && Listens(x) && IsTeardown(s) && Ready(x, s)
    ensures Moves(x, Local(x, s), s)
  {
    if s.AgentDone? || s.WatchdogResolves? {
      var y := FinallyKeeps(x);
      LeavingMoves(x, x, y, s);
    } else if s.PageClosed? {
      CloseKeeps(x);
    }
  }

  lemma {:induction false} FlaggedMoves(x: Exec, s: Step)
    requires Sound(x) && s.CloseSettles? && x.closing
    ensures MovesFlags(x, Flagged(x, s.ok), s) && Flagged(x, s.ok).pc == x.pc
    ensures Flagged(x, s.ok).closed || !s.ok
    ensures Flagged(x, s.ok).listening == x.listening
  {
  }

  lemma {:induction false} SettledAbortedMoves(x: Exec, s: Step)
    requires Sound(x) && s.CloseSettles? && x.closing && x.pc == AbortClosing
    ensures Moves(x, EnterFinally(Flagged(x, s.ok)), s)
  {
    FlaggedMoves(x, s);
    var y := FinallyKeeps(Flagged(x, s.ok));
    LeavingMoves(x, Flagged(x, s.ok), y, s);
  }

  lemma {:induction false} SettledAwaitedMoves(x: Exec, s: Step)
    requires Sound(x) && s.CloseSettles? && x.closing && x.pc == Closing && !x.listening
    ensures Moves(x, if s.ok then AfterClose(Flagged(x, s.ok)) else Flagged(x, s.ok).(pc := Ended(false)), s)
  {
    FlaggedMoves(x, s);
    AfterCloseKeeps(Flagged(x, s.ok));
  }

  lemma {:induction false} SettledMoves(x: Exec, s: Step)
    requires Sound(x) && Listens(x) && s.CloseSettles? && Ready(x, s)
    ensures Moves(x, Settled(x, s.ok), s)
  {
    if x.pc == AbortClosing {
      SettledAbortedMoves(x, s);
    } else if x.pc == Closing {
      SettledAwaitedMoves(x, s);
    } else {
      FlaggedMoves(x, s);
    }
  }

  lemma {:induction false} OutsideMoves(x: Exec, s: Step)
    requires Sound(x) && (s.Cancel? || Ready(x, s)) && !IsSetup(s) && !IsTeardown(s) && !s.CloseSettles?
    requires Listens(x)
    ensures Moves(x, Local(x, s), s)
  {
  }

  lemma {:induction false} LocalMoves(x: Exec, s: Step) returns (y: Exec)
    requires Sound(x) && Listens(x) && (s.Cancel? || Ready(x, s))
    ensures y == Local(x, s) && Moves(x, y, s)
  {
    y := Local(x, s);
    if IsSetup(s) {
      SetupMoves(x, s);
    } else if IsTeardown(s) {
      TeardownMoves(x, s);
    } else if s.CloseSettles? {
      SettledMoves(x, s);
    } else {
      OutsideMoves(x, s);
    }
  }

  // ------------------------------------------------------- the past goes along

  lemma {:induction false} SequenceKept(x: Exec, y: Exec, e: nat, s: Step, past: set<Step>)
    requires InSequence(x, e, past) && IsOf(s, e) && Ready(x, s) && MovesPlace(x, y, s)
    ensures InSequence(y, e, past + {s})
  {
  }

  lemma {:induction false} SetupKept(x: Exec, y: Exec, e: nat, s: Step, past: set<Step>, clear: set<Step>)
    requires InSequence(x, e, past) && SetupTold(x, e, past, clear) && FlagsTold(x, e, past)
    requires IsOf(s, e) && Ready(x, s) && MovesPlace(x, y, s)
    ensures SetupTold(y, e, past + {s}, ClearWith(x, clear, s))
  {
    if IsSetup(s) {
      SetupKeptBySetup(x, y, e, s, past, clear);
    }
  }

  lemma {:induction false} SetupKeptBySetup(x: Exec, y: Exec, e: nat, s: Step, past: set<Step>, clear: set<Step>)
    requires InSequence(x, e, past) && SetupTold(x, e, past, clear) && FlagsTold(x, e, past)
    requires IsOf(s, e) && IsSetup(s) && Ready(x, s) && MovesPlace(x, y, s)
    ensures SetupTold(y, e, past + {s}, ClearWith(x, clear, s))
  {
  }

  lemma {:induction false} FlagsKept(x: Exec, y: Exec, e: nat, s: Step, past: set<Step>)
    requires InSequence(x, e, past) && FlagsTold(x, e, past)
    requires IsOf(s, e) && Ready(x, s) && MovesPlace(x, y, s) && MovesFlags(x, y, s)
    ensures FlagsTold(y, e, past + {s})
  {
  }

  lemma {:induction false} ClosesKept(x: Exec, y: Exec, e: nat, s: Step, past: set<Step>)
    requires ClosesTold(x, e, past) && IsOf(s, e) && Ready(x, s) && Moves(x, y, s)
    ensures ClosesTold(y, e, past + {s})
  {
  }

  lemma {:induction false} LogKept(x: Exec, y: Exec, e: nat, s: Step, log: seq<Event>, past: set<Step>, clear: set<Step>)
    requires SetupTold(x, e, past, clear) && InSequence(x, e, past) && LogTold(x, e, log, clear)
    requires IsOf(s, e) && Ready(x, s) && MovesPlace(x, y, s) && MovesFlags(x, y, s)
    ensures LogTold(y, e, log + Happened(x, y, e), ClearWith(x, clear, s))
  {
  }

  /** An execution's own step is added to its past. */
  lemma {:induction false} OwnStepTold(x: Exec, y: Exec, e: nat, s: Step, log: seq<Event>, past: set<Step>, clear: set<Step>)
    requires Told(x, e, log, past, clear) && IsOf(s, e) && Ready(x, s) && Moves(x, y, s)
    ensures Told(y, e, log + Happened(x, y, e), past + {s}, ClearWith(x, clear, s))
  {
    SequenceKept(x, y, e, s, past);
    SetupKept(x, y, e, s, past, clear);
    FlagsKept(x, y, e, s, past);
    ClosesKept(x, y, e, s, past);
    LogKept(x, y, e, s, log, past, clear);
  }

  /** Other executions' steps and events say nothing about this one. */
  lemma {:induction false} OtherStepTold(x: Exec, e: nat, s: Step, log: seq<Event>, added: seq<Event>, past: set<Step>, clear: set<Step>, clear': set<Step>)
    requires Told(x, e, log, past, clear) && !IsOf(s, e) && (clear' == clear || clear' == clear + {s})
    requires forall k :: 0 <= k < |added| ==> added[k].e != e
    ensures Told(x, e, log + added, past + {s}, clear')
  {
  }

  /** A cancellation aborts without being a step of the execution. */
  lemma {:induction false} CancelTold(x: Exec, y: Exec, e: nat, s: Step, log: seq<Event>, past: set<Step>, clear: set<Step>)
    requires Told(x, e, log, past, clear) && s.Cancel? && Moves(x, y, s) && y.completeCalled == x.completeCalled
    ensures Told(y, e, log + Happened(x, y, e), past + {s}, clear)
  {
  }

  /** A new execution has no past. */
  lemma {:induction false} NewTold(session: string, preAborted: bool, hasFence: bool, e: nat, log: seq<Event>, past: set<Step>, clear: set<Step>)
    requires (forall t :: t in past ==> !IsOf(t, e)) && clear <= past && (forall k :: 0 <= k < |log| ==> log[k].e != e)
    ensures var x := Admit(session, preAborted, hasFence);
      Told(x, e, log + (if preAborted then [Aborted(e)] else []) + (if x.completeCalled then [CompleteCalled(e)] else []), past, clear)
  {
  }

  // ------------------------------------------------------------- the process

  /** Steps and events so far are about executions that exist. */
  predicate Bounded(p: Process, past: set<Step>) {
    && (forall t :: t in past && !t.Dispatch? && !t.Cancel? ==> t.e < |p.execs|)
    && (forall k :: 0 <= k < |p.log| ==> p.log[k].e < |p.execs|)
  }

  predicate EachTold(p: Process, past: set<Step>, clear: set<Step>) {
    forall e :: 0 <= e < |p.execs| ==> Told(p.execs[e], e, p.log, past, clear)
  }

  predicate AllTold(p: Process, past: set<Step>, clear: set<Step>) {
    Bounded(p, past) && clear <= past && EachTold(p, past, clear)
  }

  lemma {:induction false} UpdateTold(p: Process, e: nat, x: Exec, s: Step, past: set<Step>, clear: set<Step>, clear': set<Step>)
    requires AllTold(p, past, clear) && e < |p.execs| && Follows(p.execs[e], x)
    requires s.Cancel? || IsOf(s, e)
    requires clear' == clear || clear' == clear + {s}
    requires Told(x, e, p.log + Happened(p.execs[e], x, e), past + {s}, clear')
    ensures AllTold(Update(p, e, x), past + {s}, clear')
  {
    var q, added := Update(p, e, x), Happened(p.execs[e], x, e);
    HappenedFacts(p.execs[e], x, e);
    forall i | 0 <= i < |q.execs| ensures Told(q.execs[i], i, q.log, past + {s}, clear') {
      if i != e {
        OtherStepTold(p.execs[i], i, s, p.log, added, past, clear, clear');
      }
    }
  }

  lemma {:induction false} UnchangedTold(p: Process, q: Process, s: Step, past: set<Step>, clear: set<Step>)
    requires AllTold(p, past, clear) && (s.Dispatch? || s.Cancel?) && q.execs == p.execs && q.log == p.log
    ensures AllTold(q, past + {s}, clear)
  {
    forall i | 0 <= i < |q.execs| ensures Told(q.execs[i], i, q.log, past + {s}, clear) {
      OtherStepTold(p.execs[i], i, s, p.log, [], past, clear, clear);
      assert p.log + [] == p.log;
    }
  }

  lemma {:induction false} AppendTold(p: Process, q: Process, x: Exec, s: Step, added: seq<Event>, past: set<Step>, clear: set<Step>)
    requires AllTold(p, past, clear) && s.Dispatch? && q.execs == p.execs + [x] && q.log == p.log + added
    requires forall k :: 0 <= k < |added| ==> added[k].e == |p.execs|
    requires Told(x, |p.execs|, q.log, past + {s}, clear)
    ensures AllTold(q, past + {s}, clear)
  {
    forall i | 0 <= i < |q.execs| ensures Told(q.execs[i], i, q.log, past + {s}, clear) {
      if i < |p.execs| {
        OtherStepTold(p.execs[i], i, s, p.log, added, past, clear, clear);
      }
    }
  }

  lemma {:induction false} DispatchTold(p: Process, s: Step, past: set<Step>, clear: set<Step>)
    requires AllTold(p, past, clear) && s.Dispatch? && Admissible(p, s.session)
    ensures AllTold(Dispatched(p, s.session, s.preAborted, s.hasFence), past + {s}, clear)
  {
    var q := Dispatched(p, s.session, s.preAborted, s.hasFence);
    var e, x := |p.execs|, Admit(s.session, s.preAborted, s.hasFence);
    var added := (if s.preAborted then [Aborted(e)] else []) + (if x.completeCalled then [CompleteCalled(e)] else []);
    assert q.log == p.log + added;
    NewTold(s.session, s.preAborted, s.hasFence, e, p.log, past + {s}, clear);
    AppendTold(p, q, x, s, added, past, clear);
  }

  lemma {:induction false} CancelledTold(p: Process, s: Step, past: set<Step>, clear: set<Step>)
    requires Safe(p) && AllTold(p, past, clear) && s.Cancel?
    ensures AllTold(Cancelled(p, s.session, s.reason), past + {s}, clear)
  {
    var fenced := p.(fenced := p.fenced[s.session := s.reason]);
    if s.session !in p.activeExecutions {
      UnchangedTold(p, fenced, s, past, clear);
    } else {
      var e := p.activeExecutions[s.session];
      var x := p.execs[e];
      AbortSound(x);
      var y := LocalMoves(x, s);
      CancelTold(x, y, e, s, p.log, past, clear);
      UpdateTold(fenced, e, y, s, past, clear, clear);
    }
  }

  lemma {:induction false} ContinuationOf(p: Process, s: Step) returns (y: Exec)
    requires Safe(p) && Enabled(p, s) && IsContinuation(s)
    requires Listens(p.execs[s.e])
    ensures IsOf(s, s.e) && Ready(p.execs[s.e], s)
    ensures Follows(p.execs[s.e], y) && Moves(p.execs[s.e], y, s) && Next(p, s) == Update(p, s.e, y)
  {
    LocalSound(p.execs[s.e], s);
    y := LocalMoves(p.execs[s.e], s);
  }

  lemma {:induction false} ContinuedTold(p: Process, s: Step, past: set<Step>, clear: set<Step>)
    requires Safe(p) && AllTold(p, past, clear) && Enabled(p, s) && IsContinuation(s)
    ensures AllTold(Next(p, s), past + {s}, clear + ClearNow(p, s))
  {
    assert Told(p.execs[s.e], s.e, p.log, past, clear);
    var y := ContinuationOf(p, s);
    MovedTold(p, s, y, past, clear);
  }

  lemma {:induction false} MovedTold(p: Process, s: Step, y: Exec, past: set<Step>, clear: set<Step>)
    requires AllTold(p, past, clear) && IsContinuation(s) && s.e < |p.execs|
    requires Ready(p.execs[s.e], s) && Follows(p.execs[s.e], y) && Moves(p.execs[s.e], y, s)
    ensures AllTold(Update(p, s.e, y), past + {s}, clear + ClearNow(p, s))
  {
    assert Told(p.execs[s.e], s.e, p.log, past, clear);
    OwnTold(p.execs[s.e], y, s, p.log, past, clear, clear + ClearNow(p, s));
    UpdateTold(p, s.e, y, s, past, clear, clear + ClearNow(p, s));
  }

  lemma {:induction false} OwnTold(x: Exec, y: Exec, s: Step, log: seq<Event>, past: set<Step>, clear: set<Step>, clear': set<Step>)
    requires IsContinuation(s) && Told(x, s.e, log, past, clear) && Ready(x, s) && Moves(x, y, s)
    requires clear' == clear + if Aborted(s.e) !in log then {s} else {}
    ensures Told(y, s.e, log + Happened(x, y, s.e), past + {s}, clear')
  {
    assert clear' == ClearWith(x, clear, s);
    OwnStepTold(x, y, s.e, s, log, past, clear);
  }

  lemma {:induction false} DropTold(x: Exec, e: nat, s: Step, log: seq<Event>, past: set<Step>, clear: set<Step>)
    requires Told(x, e, log, past, clear) && s == DropHandle(e) && Ready(x, s)
    ensures Told(x, e, log, past + {s}, ClearWith(x, clear, s))
  {
    OwnStepTold(x, x, e, s, log, past, clear);
    assert log + Happened(x, x, e) == log;
  }

  lemma {:induction false} DroppedTold(p: Process, s: Step, past: set<Step>, clear: set<Step>)
    requires AllTold(p, past, clear) && s.DropHandle? && s.e < |p.execs| && Ready(p.execs[s.e], s)
    ensures AllTold(p, past + {s}, clear + ClearNow(p, s))
  {
    forall i | 0 <= i < |p.execs| ensures Told(p.execs[i], i, p.log, past + {s}, clear + ClearNow(p, s)) {
      if i == s.e {
        DropTold(p.execs[i], i, s, p.log, past, clear);
        assert clear + ClearNow(p, s) == ClearWith(p.execs[i], clear, s);
      } else {
        OtherStepTold(p.execs[i], i, s, p.log, [], past, clear, clear + ClearNow(p, s));
        assert p.log + [] == p.log;
      }
    }
  }

  lemma {:induction false} SameRunsTold(p: Process, q: Process, past: set<Step>, clear: set<Step>)
    requires AllTold(p, past, clear) && q.execs == p.execs && q.log == p.log
    ensures AllTold(q, past, clear)
  {
  }

  lemma {:induction false} StepTold(p: Process, s: Step, past: set<Step>, clear: set<Step>)
    requires Safe(p) && AllTold(p, past, clear) && Enabled(p, s)
    ensures AllTold(Next(p, s), past + {s}, clear + ClearNow(p, s))
  {
    if IsContinuation(s) {
      ContinuedTold(p, s, past, clear);
    } else if s.DropHandle? {
      DroppedTold(p, s, past, clear);
      SameRunsTold(p, Next(p, s), past + {s}, clear + ClearNow(p, s));
    } else {
      assert clear + ClearNow(p, s) == clear;
      if s.Cancel? {
        CancelledTold(p, s, past, clear);
      } else if Admissible(p, s.session) {
        DispatchTold(p, s, past, clear);
      } else {
        UnchangedTold(p, p, s, past, clear);
      }
    }
  }

  function StepSet(steps: seq<Step>): set<Step> {
    set k | 0 <= k < |steps| :: steps[k]
  }

  lemma {:induction false} RunTold(p: Process, steps: seq<Step>, past: set<Step>, clear: set<Step>)
    requires Safe(p) && AllTold(p, past, clear) && Run(p, steps).Some?
    ensures AllTold(Run(p, steps).value, past + StepSet(steps), clear + ClearSteps(p, steps))
    decreases |steps|
  {
    if steps == [] {
      assert past + StepSet([]) == past && clear + {} == clear;
    } else {
      var s, rest := steps[0], steps[1..];
      StepSafe(p, s);
      StepTold(p, s, past, clear);
      RunTold(Next(p, s), rest, past + {s}, clear + ClearNow(p, s));
      StepSetCons(steps, past);
      Unions(clear, ClearNow(p, s), ClearSteps(Next(p, s), rest));
    }
  }

  lemma {:induction false} Unions<T>(a: set<T>, b: set<T>, c: set<T>)
    ensures a + b + c == a + (b + c)
  {
  }

  lemma {:induction false} StepSetCons(steps: seq<Step>, past: set<Step>)
    requires steps != []
    ensures past + {steps[0]} + StepSet(steps[1..]) == past + StepSet(steps)
  {
    assert forall k :: 0 < k < |steps| ==> steps[k] == steps[1..][k - 1];
    assert StepSet(steps) == {steps[0]} + StepSet(steps[1..]);
  }

  // -------------------------------------------------------------- the theorems

  lemma {:induction false} IdleRunTold(steps: seq<Step>)
    requires Run(IDLE, steps).Some?
    ensures AllTold(Run(IDLE, steps).value, StepSet(steps), ClearSteps(IDLE, steps))
  {
    RunTold(IDLE, steps, {}, {});
    assert {} + StepSet(steps) == StepSet(steps) && {} + ClearSteps(IDLE, steps) == ClearSteps(IDLE, steps);
  }

  /** The agent loop of an execution starts if and only if its preflight, context, egress
      guard and page all succeeded, with no abort logged before the page came. */
  lemma {:induction false} AgentStartsExactly(steps: seq<Step>, e: nat)
    requires Run(IDLE, steps).Some?
    ensures AgentStarted(e) in Run(IDLE, steps).value.log <==>
      && PreflightDone(e, true) in steps && ContextReady(e, true) in steps && GuardDone(e, true) in steps
      && PageReady(e, true) in ClearSteps(IDLE, steps)
  {
    IdleRunTold(steps);
    var p, past := Run(IDLE, steps).value, StepSet(steps);
    assert forall t :: t in past <==> t in steps;
    if e < |p.execs| {
      assert Told(p.execs[e], e, p.log, past, ClearSteps(IDLE, steps));
    } else {
      assert AgentStarted(e) !in p.log && PageReady(e, true) !in past;
    }
  }

  lemma {:induction false} EnabledByPlace(p: Process, e: nat, ok: bool)
    requires e < |p.execs|
    ensures Enabled(p, ContextReady(e, ok)) <==> p.execs[e].pc == Creating
    ensures Enabled(p, GuardDone(e, ok)) <==> p.execs[e].pc == Guarding
    ensures Enabled(p, PageReady(e, ok)) <==> p.execs[e].pc == Paging
    ensures Enabled(p, AgentDone(e)) <==> p.execs[e].pc == Running
  {
  }

  /** Which setup await comes next, on every run: each is reached exactly when the one
      before it succeeded without an abort, and settles once. */
  lemma {:induction false} SetupGoesOnExactly(steps: seq<Step>, e: nat, ok: bool)
    requires Run(IDLE, steps).Some? && e < |Run(IDLE, steps).value.execs|
    ensures var p, clear := Run(IDLE, steps).value, ClearSteps(IDLE, steps);
      && (Enabled(p, ContextReady(e, ok)) <==>
            PreflightDone(e, true) in clear && ContextReady(e, true) !in steps && ContextReady(e, false) !in steps)
      && (Enabled(p, GuardDone(e, ok)) <==>
            ContextReady(e, true) in clear && GuardDone(e, true) !in steps && GuardDone(e, false) !in steps)
      && (Enabled(p, PageReady(e, ok)) <==>
            GuardDone(e, true) in clear && PageReady(e, true) !in steps && PageReady(e, false) !in steps)
      && (Enabled(p, AgentDone(e)) <==>
            PageReady(e, true) in clear && AgentDone(e) !in steps && WatchdogResolves(e) !in steps)
  {
    IdleRunTold(steps);
    var p, past := Run(IDLE, steps).value, StepSet(steps);
    assert forall t :: t in past <==> t in steps;
    assert SetupTold(p.execs[e], e, past, ClearSteps(IDLE, steps)) by {
      assert Told(p.execs[e], e, p.log, past, ClearSteps(IDLE, steps));
    }
    EnabledByPlace(p, e, ok);
  }

  /** How an execution ends, on every run: a browser exists, is closed, the extra fence
      passed and the outcome persisted exactly when that await settled well; completeSession
      follows a passed fence, and an abort or the watchdog always has the browser closed. */
  lemma {:induction false} TeardownExactly(steps: seq<Step>, e: nat)
    requires Run(IDLE, steps).Some? && e < |Run(IDLE, steps).value.execs|
    ensures var p := Run(IDLE, steps).value; var x := p.execs[e];
      && (x.created <==> ContextReady(e, true) in steps)
      && (x.closed <==> CloseSettles(e, true) in steps)
      && (x.pc == Ended(true) <==> CompleteDone(e, true) in steps)
      && (FenceDone(e, true) in steps ==> CompleteCalled(e) in p.log)
      && (CompleteCalled(e) in p.log && x.hasFence ==> FenceDone(e, true) in steps)
      && (CompleteCalled(e) in p.log && ContextReady(e, true) in steps ==> CloseSettles(e, true) in steps)
      && (WatchdogFires(e) in steps ==> x.closing || CloseSettles(e, true) in steps || CloseSettles(e, false) in steps)
      && (Aborted(e) in p.log && (x.pc == Guarding || x.pc == Paging || x.pc == Running) ==>
            x.closing || CloseSettles(e, true) in steps || CloseSettles(e, false) in steps)
  {
    IdleRunTold(steps);
    RunSafe(IDLE, steps);
    var p, past := Run(IDLE, steps).value, StepSet(steps);
    assert forall t :: t in past <==> t in steps;
    assert Told(p.execs[e], e, p.log, past, ClearSteps(IDLE, steps)) && Sound(p.execs[e]);
  }

  // ---------------------------------------------------------- context handles

  /** Past its positive close. */
  predicate ClosedWell(pc: Pc) {
    pc == Fencing || pc == Completing || pc == Ended(true)
  }

  predicate Needed(p: Process, session: string) {
    session in p.activeSessions ==>
      var e := p.activeSessions[session];
      e < |p.execs| && p.execs[e].session == session && !ClosedWell(p.execs[e].pc)
  }

  /** Every registered handle belongs to an execution that has not closed its browser. */
  ghost predicate HandlesNeeded(p: Process) {
    forall session :: Needed(p, session)
  }

  lemma {:induction false} UpdateHandles(p: Process, e: nat, x: Exec)
    requires HandlesNeeded(p) && e < |p.execs| && x.session == p.execs[e].session
    requires x.created && !p.execs[e].created ==> !ClosedWell(x.pc)
    requires p.execs[e].pc.Ended? ==> x.pc == p.execs[e].pc
    ensures HandlesNeeded(Update(p, e, x))
  {
    forall session ensures Needed(Update(p, e, x), session) {
      assert Needed(p, session);
    }
  }

  lemma {:induction false} StepHandles(p: Process, s: Step)
    requires Safe(p) && HandlesNeeded(p) && Enabled(p, s)
    requires IsContinuation(s) ==> Listens(p.execs[s.e])
    ensures HandlesNeeded(Next(p, s))
  {
    if IsContinuation(s) {
      var y := ContinuationOf(p, s);
      UpdateHandles(p, s.e, y);
    } else if s.Cancel? && s.session in p.activeExecutions {
      var e, x := CancelAborts(p, s.session, s.reason);
      AbortPlace(p, s.session, e);
      HandlesAfterCancel(p, s.session, s.reason);
    } else {
      forall session ensures Needed(Next(p, s), session) {
        assert Needed(p, session);
      }
    }
  }

  lemma {:induction false} AbortPlace(p: Process, session: string, e: nat)
    requires e < |p.execs|
    ensures Abort(p.execs[e]).pc == p.execs[e].pc && Abort(p.execs[e]).created == p.execs[e].created
    ensures Abort(p.execs[e]).session == p.execs[e].session
  {
  }

  lemma {:induction false} HandlesAfterCancel(p: Process, session: string, reason: string)
    requires Owned(p) && HandlesNeeded(p) && session in p.activeExecutions
    ensures HandlesNeeded(Cancelled(p, session, reason))
  {
    var e, q := p.activeExecutions[session], p.(fenced := p.fenced[session := reason]);
    AbortPlace(p, session, e);
    forall other ensures Needed(q, other) {
      assert Needed(p, other);
    }
    UpdateHandles(q, e, Abort(p.execs[e]));
  }

  lemma {:induction false} RunHandles(p: Process, steps: seq<Step>, past: set<Step>, clear: set<Step>)
    requires Safe(p) && AllTold(p, past, clear) && HandlesNeeded(p) && Run(p, steps).Some?
    ensures HandlesNeeded(Run(p, steps).value)
    decreases |steps|
  {
    if steps != [] {
      var s := steps[0];
      assert IsContinuation(s) ==> Told(p.execs[s.e], s.e, p.log, past, clear);
      StepHandles(p, s);
      StepSafe(p, s);
      StepTold(p, s, past, clear);
      RunHandles(Next(p, s), steps[1..], past + {s}, clear + ClearNow(p, s));
    }
  }

  /** On every run a context stays registered under its session only until its close
      positively succeeded, and while it is open. */
  lemma {:induction false} HandleUntilClosed(steps: seq<Step>, e: nat)
    requires Run(IDLE, steps).Some? && e < |Run(IDLE, steps).value.execs|
    ensures var p := Run(IDLE, steps).value; var x := p.execs[e];
      && (x.open ==> Maps(p.activeSessions, x.session, e))
      && (Maps(p.activeSessions, x.session, e) ==> x.pc != Fencing && x.pc != Completing && x.pc != Ended(true))
      && (!x.pc.Ended? <==> Maps(p.activeExecutions, x.session, e))
  {
    RunSafe(IDLE, steps);
    RunHandles(IDLE, steps, {}, {});
    var p := Run(IDLE, steps).value;
    assert Needed(p, p.execs[e].session);
    assert p.execs[e].open ==> Maps(p.activeSessions, p.execs[e].session, e);
    assert !p.execs[e].pc.Ended? ==> Maps(p.activeExecutions, p.execs[e].session, e);
  }
}
