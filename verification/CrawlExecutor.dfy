/** One engine process executing crawls: browser contexts, cancellation
    tombstones, and terminal persistence behind positive fences. */
module CrawlExecutor {
  import opened Basics

  /** Where an execution awaits. */
  datatype Pc =
    | Preflight        // assertSessionActive
    | Creating         // createContext
    | AbortClosing     // closeContextOnce right after an aborted creation
    | Guarding         // installEgressGuard
    | Paging           // createPage
    | Running          // agent loop raced against the watchdog
    | ClosingPage      // page.close in the finally block
    | Closing          // closeContextOnce in the finally block
    | Fencing          // beforeSessionCompletion
    | Completing       // completeSession
    | Ended(ok: bool)

  /** One execution. `created`, `closed` and `closing` are context, contextClosed and
      contextClosePromise; `open` is the truth about the browser context. */
  datatype Exec = Exec(
    session: string,
    hasFence: bool,
    aborted: bool,
    listening: bool,
    created: bool,
    page: bool,
    closing: bool,
    closed: bool,
    open: bool,
    watchdogFired: bool,
    fencePassed: bool,
    completeCalled: bool,
    pc: Pc)

  datatype Event =
    | Aborted(e: nat)
    | AgentStarted(e: nat)
    | CompleteCalled(e: nat)

  /** Module state: executions are numbered in the order they were admitted. */
  datatype Process = Process(
    execs: seq<Exec>,
    activeExecutions: map<string, nat>,
    activeSessions: map<string, nat>,
    fenced: map<string, string>,
    log: seq<Event>)

  datatype Step =
    | Dispatch(session: string, preAborted: bool, hasFence: bool)
    | Cancel(session: string, reason: string)
    | ExternalAbort(e: nat)
    | PreflightDone(e: nat, ok: bool)
    | ContextReady(e: nat, ok: bool)
    | GuardDone(e: nat, ok: bool)
    | PageReady(e: nat, ok: bool)
    | AgentDone(e: nat)
    | WatchdogFires(e: nat)
    | WatchdogResolves(e: nat)
    | CloseSettles(e: nat, ok: bool)
    | PageClosed(e: nat)
    | FenceDone(e: nat, ok: bool)
    | CompleteDone(e: nat, ok: bool)
    | ExternalClose(e: nat, ok: bool)
    | DropHandle(e: nat)

  // -------------------------------------------------- one execution's own moves

  /** The synchronous part of closeContextOnce. */
  function StartClose(x: Exec): Exec {
    if x.closed || !x.created then x else x.(closing := true)
  }

  function Abort(x: Exec): Exec {
    if x.aborted then x
    else if x.listening then StartClose(x.(aborted := true))
    else x.(aborted := true)
  }

  /** After a positive close: the extra fence, or terminal persistence. */
  function AfterClose(x: Exec): Exec {
    x.(pc := if x.hasFence then Fencing else Completing, completeCalled := x.completeCalled || !x.hasFence)
  }

  function EnterClose(x: Exec): Exec {
    if x.closed || !x.created then AfterClose(x) else StartClose(x).(pc := Closing)
  }

  function LeaveTry(x: Exec): Exec {
    if x.page && !x.closed then x.(pc := ClosingPage) else EnterClose(x)
  }

  function EnterFinally(x: Exec): Exec {
    LeaveTry(x.(listening := false))
  }

  function Admit(session: string, preAborted: bool, hasFence: bool): Exec {
    var x := Exec(session, hasFence, preAborted, false, false, false, false, false, false, false, false, false, Preflight);
    if preAborted then EnterFinally(x) else x
  }

  /** contextClosePromise settles; an await on it resumes at once. */
  function Settled(x: Exec, ok: bool): Exec {
    var y := Flagged(x, ok);
    match x.pc
    case AbortClosing => EnterFinally(y)
    case Closing => if ok then AfterClose(y) else y.(pc := Ended(false))
    case _ => y
  }

  function AfterPreflight(x: Exec, ok: bool): Exec {
    if !ok || x.aborted then EnterFinally(x) else x.(pc := Creating)
  }

  function AfterContext(x: Exec, ok: bool): Exec {
    if !ok then EnterFinally(x)
    else
      var y := x.(created := true, open := true, listening := true);
      if y.aborted then StartClose(y).(pc := AbortClosing) else y.(pc := Guarding)
  }

  function AfterGuard(x: Exec, ok: bool): Exec {
    if !ok || x.aborted then EnterFinally(x) else x.(pc := Paging)
  }

  function AfterPage(x: Exec, ok: bool): Exec {
    if !ok then EnterFinally(x)
    else if x.aborted then EnterFinally(x.(page := true))
    else x.(page := true, pc := Running)
  }

  function AfterFence(x: Exec, ok: bool): Exec {
    if ok then x.(fencePassed := true, pc := Completing, completeCalled := true) else x.(pc := Ended(false))
  }

  /** One run-to-await of an execution. */
  function Local(x: Exec, s: Step): Exec {
    match s
    case ExternalAbort(_) => Abort(x)
    case Cancel(_, _) => Abort(x)
    case PreflightDone(_, ok) => AfterPreflight(x, ok)
    case ContextReady(_, ok) => AfterContext(x, ok)
    case GuardDone(_, ok) => AfterGuard(x, ok)
    case PageReady(_, ok) => AfterPage(x, ok)
    case AgentDone(_) => EnterFinally(x)
    case WatchdogFires(_) => StartClose(x).(watchdogFired := true)
    case WatchdogResolves(_) => EnterFinally(x)
    case CloseSettles(_, ok) => Settled(x, ok)
    case PageClosed(_) => EnterClose(x)
    case FenceDone(_, ok) => AfterFence(x, ok)
    case CompleteDone(_, ok) => x.(pc := Ended(ok))
    case ExternalClose(_, ok) => if ok then x.(open := false) else x
    case DropHandle(_) => x
    case Dispatch(_, _, _) => x
  }

  /** When a continuation of this execution can run. */
  predicate Ready(x: Exec, s: Step) {
    match s
    case PreflightDone(_, _) => x.pc == Preflight
    case ContextReady(_, _) => x.pc == Creating
    case GuardDone(_, _) => x.pc == Guarding
    case PageReady(_, _) => x.pc == Paging
    case AgentDone(_) => x.pc == Running
    case WatchdogFires(_) => x.pc == Running && !x.watchdogFired
    case WatchdogResolves(_) => x.pc == Running && x.watchdogFired && !x.closing
    case CloseSettles(_, _) => x.closing
    case PageClosed(_) => x.pc == ClosingPage
    case FenceDone(_, _) => x.pc == Fencing
    case CompleteDone(_, _) => x.pc == Completing
    case ExternalAbort(_) => !x.pc.Ended?
    case ExternalClose(_, _) => x.created
    case DropHandle(_) => x.pc.Ended? && !x.open
    case _ => false
  }

  // ------------------------------------------------------------- the process

  function Happened(before: Exec, after: Exec, e: nat): seq<Event> {
    (if after.aborted && !before.aborted then [Aborted(e)] else [])
    + (if after.pc == Running && before.pc != Running then [AgentStarted(e)] else [])
    + (if after.completeCalled && !before.completeCalled then [CompleteCalled(e)] else [])
  }

  /** An ended execution gives up its own registration. */
  function ExecutionsAfter(active: map<string, nat>, x: Exec, e: nat): map<string, nat> {
    if x.pc.Ended? && Maps(active, x.session, e) then active - {x.session} else active
  }

  /** The context handle: registered when made, dropped after a positive close. */
  function SessionsAfter(active: map<string, nat>, before: Exec, x: Exec, e: nat): map<string, nat> {
    if x.created && !before.created then active[x.session := e]
    else if LeftClosing(before, x) then active - {x.session}
    else active
  }

  /** Store an execution's new state; the registrations follow it. */
  function Update(p: Process, e: nat, x: Exec): Process
    requires e < |p.execs|
  {
    Process(p.execs[e := x], ExecutionsAfter(p.activeExecutions, x, e),
            SessionsAfter(p.activeSessions, p.execs[e], x, e), p.fenced, p.log + Happened(p.execs[e], x, e))
  }

  predicate Maps(m: map<string, nat>, k: string, v: nat) {
    k in m && m[k] == v
  }

  /** The finally block passed its positive close. */
  predicate LeftClosing(before: Exec, after: Exec) {
    !PastClose(before.pc) && PastClose(after.pc) && after.pc != Ended(false)
  }

  predicate PastClose(pc: Pc) {
    pc == Fencing || pc == Completing || pc.Ended?
  }

  predicate HasReason(m: map<string, string>, k: string) {
    k in m && m[k] != ""
  }

  /** executeCrawl lets the dispatch through. */
  predicate Admissible(p: Process, session: string) {
    !HasReason(p.fenced, session) && session !in p.activeExecutions && session !in p.activeSessions
  }

  predicate Enabled(p: Process, s: Step) {
    match s
    case Dispatch(_, _, _) => true
    case Cancel(_, _) => true
    case DropHandle(e) => e < |p.execs| && Ready(p.execs[e], s) && Maps(p.activeSessions, p.execs[e].session, e)
    case _ => s.e < |p.execs| && Ready(p.execs[s.e], s)
  }

  /** executeCrawl up to its first await. */
  function Dispatched(p: Process, session: string, preAborted: bool, hasFence: bool): Process {
    if !Admissible(p, session) then p
    else
      var e, x := |p.execs|, Admit(session, preAborted, hasFence);
      p.(execs := p.execs + [x],
         activeExecutions := p.activeExecutions[session := e],
         log := p.log + (if preAborted then [Aborted(e)] else []) + (if x.completeCalled then [CompleteCalled(e)] else []))
  }

  /** cancelExecution up to its await: the fence first, then the abort. */
  function Cancelled(p: Process, session: string, reason: string): Process {
    var q := p.(fenced := p.fenced[session := reason]);
    if session !in p.activeExecutions || p.activeExecutions[session] >= |p.execs| then q
    else Update(q, p.activeExecutions[session], Abort(p.execs[p.activeExecutions[session]]))
  }

  function Next(p: Process, s: Step): Process
    requires Enabled(p, s)
  {
    match s
    case Dispatch(session, preAborted, hasFence) => Dispatched(p, session, preAborted, hasFence)
    case Cancel(session, reason) => Cancelled(p, session, reason)
    case DropHandle(e) => p.(activeSessions := p.activeSessions - {p.execs[e].session})
    case _ => Update(p, s.e, Local(p.execs[s.e], s))
  }

  predicate IsContinuation(s: Step) {
    !s.Dispatch? && !s.Cancel? && !s.DropHandle?
  }

  lemma {:induction false} ContinuationShape(p: Process, s: Step)
    requires IsContinuation(s) && Enabled(p, s)
    ensures s.e < |p.execs| && Next(p, s) == Update(p, s.e, Local(p.execs[s.e], s))
  {
  }

  function Run(p: Process, steps: seq<Step>): Option<Process>
    decreases |steps|
  {
    if steps == [] then Some(p)
    else if !Enabled(p, steps[0]) then None
    else Run(Next(p, steps[0]), steps[1..])
  }

  const IDLE := Process([], map[], map[], map[], [])

  // ----------------------------------------------- what one execution keeps

  /** The flags agree with the browser: a recorded close really happened, and a close
      in flight has something to close. */
  predicate Flags(x: Exec) {
    && (x.closed ==> x.created && !x.open)
    && (x.open ==> x.created)
    && (x.closing ==> x.created && !x.closed)
    && (x.page ==> x.created)
  }

  predicate BeforeContext(pc: Pc) {
    pc == Preflight || pc == Creating
  }

  predicate WithContext(pc: Pc) {
    pc == AbortClosing || pc == Guarding || pc == Paging || pc == Running || pc == ClosingPage || pc == Closing
  }

  /** No context was created, or its close positively succeeded. */
  predicate Closed(x: Exec) {
    !x.created || x.closed
  }

  /** The place in the code and the flags agree. */
  predicate Placed(x: Exec) {
    && (BeforeContext(x.pc) ==> !x.created)
    && (WithContext(x.pc) ==> x.created)
    && (x.pc == AbortClosing || x.pc == Closing ==> x.closing)
    && (x.pc == Fencing ==> x.hasFence && Closed(x))
  }

  /** Terminal persistence was reached only through the fences. */
  predicate Persisted(x: Exec) {
    && (x.completeCalled ==> (x.pc == Completing || x.pc.Ended?) && Closed(x) && (x.hasFence ==> x.fencePassed))
    && (x.pc == Completing || x.pc == Ended(true) ==> x.completeCalled)
  }

  /** Facts about one execution at every await. */
  predicate Sound(x: Exec) {
    Flags(x) && Placed(x) && Persisted(x)
  }

  /** What every move keeps: nothing below is ever undone, a browser opens only by
      leaving createContext, and an agent loop starts only unaborted. */
  predicate Follows(x: Exec, y: Exec) {
    && y.session == x.session && y.hasFence == x.hasFence
    && (x.aborted ==> y.aborted) && (x.completeCalled ==> y.completeCalled) && (x.created ==> y.created)
    && (x.pc.Ended? ==> y.pc == x.pc)
    && (y.open ==> x.open || !x.created)
    && (y.created && !x.created ==> x.pc == Creating)
    && (y.pc == Running && x.pc != Running ==> !y.aborted && x.pc == Paging)
    && (y.pc == Creating && x.pc != Creating ==> !y.aborted)
    && (LeftClosing(x, y) ==> !y.open)
  }

  lemma {:induction false} EnterCloseSound(x: Exec)
    requires Flags(x) && !x.completeCalled && !PastClose(x.pc)
    ensures Sound(EnterClose(x)) && Follows(x, EnterClose(x)) && EnterClose(x).pc != Running
    ensures EnterClose(x).created == x.created && EnterClose(x).aborted == x.aborted && EnterClose(x).open == x.open
  {
  }

  lemma {:induction false} EnterFinallySound(x: Exec)
    requires Flags(x) && !x.completeCalled && !PastClose(x.pc)
    ensures Sound(EnterFinally(x)) && Follows(x, EnterFinally(x)) && EnterFinally(x).pc != Running
    ensures EnterFinally(x).created == x.created && EnterFinally(x).aborted == x.aborted && EnterFinally(x).open == x.open
  {
  }

  /** contextClosePromise settled, before any await on it resumes. */
  function Flagged(x: Exec, ok: bool): Exec {
    if ok then x.(closing := false, closed := true, open := false) else x.(closing := false)
  }

  lemma {:induction false} SettledElsewhere(x: Exec, ok: bool)
    requires Sound(x) && x.closing && x.pc != AbortClosing && x.pc != Closing
    ensures Sound(Flagged(x, ok)) && Follows(x, Flagged(x, ok))
  {
  }

  lemma {:induction false} SettledAwaited(x: Exec, ok: bool)
    requires Sound(x) && x.closing && x.pc == Closing
    ensures Sound(Settled(x, ok)) && Follows(x, Settled(x, ok))
  {
  }

  lemma {:induction false} SettledAborted(x: Exec, ok: bool)
    requires Sound(x) && x.closing && x.pc == AbortClosing
    ensures Sound(EnterFinally(Flagged(x, ok))) && Follows(x, EnterFinally(Flagged(x, ok)))
  {
    EnterFinallySound(Flagged(x, ok));
  }

  lemma {:induction false} SettledSound(x: Exec, ok: bool)
    requires Sound(x) && x.closing
    ensures Sound(Settled(x, ok)) && Follows(x, Settled(x, ok))
  {
    if x.pc == AbortClosing {
      SettledAborted(x, ok);
    } else if x.pc == Closing {
      SettledAwaited(x, ok);
    } else {
      SettledElsewhere(x, ok);
    }
  }

  lemma {:induction false} AbortSound(x: Exec)
    requires Sound(x)
    ensures Sound(Abort(x)) && Follows(x, Abort(x)) && Abort(x).pc == x.pc
  {
  }

  lemma {:induction false} PreflightSound(x: Exec, ok: bool)
    requires Sound(x) && x.pc == Preflight
    ensures Sound(AfterPreflight(x, ok)) && Follows(x, AfterPreflight(x, ok))
  {
    if !ok || x.aborted {
      EnterFinallySound(x);
    }
  }

  lemma {:induction false} ContextSound(x: Exec, ok: bool)
    requires Sound(x) && x.pc == Creating
    ensures Sound(AfterContext(x, ok)) && Follows(x, AfterContext(x, ok))
  {
    if !ok {
      EnterFinallySound(x);
    }
  }

  lemma {:induction false} GuardSound(x: Exec, ok: bool)
    requires Sound(x) && x.pc == Guarding
    ensures Sound(AfterGuard(x, ok)) && Follows(x, AfterGuard(x, ok))
  {
    if !ok || x.aborted {
      EnterFinallySound(x);
    }
  }

  lemma {:induction false} PageSound(x: Exec, ok: bool)
    requires Sound(x) && x.pc == Paging
    ensures Sound(AfterPage(x, ok)) && Follows(x, AfterPage(x, ok))
  {
    if !ok {
      EnterFinallySound(x);
    } else if x.aborted {
      EnterFinallySound(x.(page := true));
    }
  }

  lemma {:induction false} WatchdogSound(x: Exec)
    requires Sound(x) && x.pc == Running
    ensures var y := StartClose(x).(watchdogFired := true); Sound(y) && Follows(x, y)
  {
  }

  lemma {:induction false} FenceSound(x: Exec, ok: bool)
    requires Sound(x) && x.pc == Fencing
    ensures Sound(AfterFence(x, ok)) && Follows(x, AfterFence(x, ok))
  {
  }

  lemma {:induction false} CompletionSound(x: Exec, ok: bool)
    requires Sound(x) && x.pc == Completing
    ensures Sound(x.(pc := Ended(ok))) && Follows(x, x.(pc := Ended(ok)))
  {
  }

  lemma {:induction false} OutsideSound(x: Exec, ok: bool)
    requires Sound(x) && x.created
    ensures var y := if ok then x.(open := false) else x; Sound(y) && Follows(x, y)
  {
  }

  /** The awaits of the try block. */
  predicate IsSetup(s: Step) {
    s.PreflightDone? || s.ContextReady? || s.GuardDone? || s.PageReady?
  }

  lemma {:induction false} SetupSound(x: Exec, s: Step)
    requires Sound(x) && IsSetup(s) && Ready(x, s)
    ensures Sound(Local(x, s)) && Follows(x, Local(x, s))
  {
    if s.PreflightDone? {
      PreflightSound(x, s.ok);
    } else if s.ContextReady? {
      ContextSound(x, s.ok);
    } else if s.GuardDone? {
      GuardSound(x, s.ok);
    } else {
      PageSound(x, s.ok);
    }
  }

  /** The agent loop's end and the awaits after it. */
  predicate IsTeardown(s: Step) {
    s.AgentDone? || s.WatchdogResolves? || s.PageClosed? || s.FenceDone? || s.CompleteDone?
  }

  lemma {:induction false} TeardownSound(x: Exec, s: Step)
    requires Sound(x) && IsTeardown(s) && Ready(x, s)
    ensures Sound(Local(x, s)) && Follows(x, Local(x, s))
  {
    if s.PageClosed? {
      EnterCloseSound(x);
    } else if s.FenceDone? {
      FenceSound(x, s.ok);
    } else if s.CompleteDone? {
      CompletionSound(x, s.ok);
    } else {
      EnterFinallySound(x);
    }
  }

  /** Every move of an execution keeps it sound and undoes nothing. */
  lemma {:induction false} LocalSound(x: Exec, s: Step)
    requires Sound(x) && (Ready(x, s) || s.Cancel?)
    ensures Sound(Local(x, s)) && Follows(x, Local(x, s))
  {
    if IsSetup(s) {
      SetupSound(x, s);
    } else if IsTeardown(s) {
      TeardownSound(x, s);
    } else if s.CloseSettles? {
      SettledSound(x, s.ok);
    } else if s.WatchdogFires? {
      WatchdogSound(x);
    } else if s.ExternalClose? {
      OutsideSound(x, s.ok);
    } else {
      AbortSound(x);
    }
  }

  // --------------------------------------------------- what the process keeps

  predicate RunsSound(p: Process) {
    forall e :: 0 <= e < |p.execs| ==> Sound(p.execs[e])
  }

  /** Every live execution is the registered one of its session. */
  predicate LiveRegistered(p: Process) {
    forall e :: 0 <= e < |p.execs| && !p.execs[e].pc.Ended? ==> Maps(p.activeExecutions, p.execs[e].session, e)
  }

  /** Every open browser is reachable through its session. */
  predicate OpenRegistered(p: Process) {
    forall e :: 0 <= e < |p.execs| && p.execs[e].open ==> Maps(p.activeSessions, p.execs[e].session, e)
  }

  /** A registered execution is live, and a session has one owner of both kinds. */
  predicate Owned(p: Process) {
    && (forall s :: s in p.activeExecutions ==>
          p.activeExecutions[s] < |p.execs| && p.execs[p.activeExecutions[s]].session == s
          && !p.execs[p.activeExecutions[s]].pc.Ended?)
    && (forall s :: s in p.activeExecutions && s in p.activeSessions ==> p.activeSessions[s] == p.activeExecutions[s])
  }

  predicate Registered(p: Process) {
    RunsSound(p) && LiveRegistered(p) && OpenRegistered(p) && Owned(p)
  }

  lemma {:induction false} UpdateOwners(p: Process, e: nat, x: Exec)
    requires Registered(p) && e < |p.execs| && Sound(x) && Follows(p.execs[e], x)
    ensures LiveRegistered(Update(p, e, x)) && Owned(Update(p, e, x))
  {
    var q := Update(p, e, x);
    forall i | 0 <= i < |q.execs| && !q.execs[i].pc.Ended? ensures Maps(q.activeExecutions, q.execs[i].session, i) {
      assert Maps(p.activeExecutions, p.execs[i].session, i);
    }
  }

  lemma {:induction false} UpdateBrowsers(p: Process, e: nat, x: Exec)
    requires Registered(p) && e < |p.execs| && Sound(x) && Follows(p.execs[e], x)
    ensures OpenRegistered(Update(p, e, x))
  {
  }

  lemma {:induction false} UpdateRegistered(p: Process, e: nat, x: Exec)
    requires Registered(p) && e < |p.execs| && Sound(x) && Follows(p.execs[e], x)
    ensures Registered(Update(p, e, x))
  {
    UpdateOwners(p, e, x);
    UpdateBrowsers(p, e, x);
  }

  lemma {:induction false} DispatchRegistered(p: Process, session: string, preAborted: bool, hasFence: bool)
    requires Registered(p) && Admissible(p, session)
    ensures Registered(Dispatched(p, session, preAborted, hasFence))
  {
    var x := Admit(session, preAborted, hasFence);
    assert Sound(x) && x.session == session && !x.open && !x.pc.Ended?;
    AppendRegistered(p, x, Dispatched(p, session, preAborted, hasFence));
  }

  lemma {:induction false} AppendRegistered(p: Process, x: Exec, q: Process)
    requires Registered(p) && Sound(x) && !x.open && !x.pc.Ended?
    requires x.session !in p.activeExecutions && x.session !in p.activeSessions
    requires q.execs == p.execs + [x] && q.activeExecutions == p.activeExecutions[x.session := |p.execs|]
    requires q.activeSessions == p.activeSessions
    ensures Registered(q)
  {
    forall i | 0 <= i < |q.execs| && !q.execs[i].pc.Ended? ensures Maps(q.activeExecutions, q.execs[i].session, i) {
      if i < |p.execs| {
        assert Maps(p.activeExecutions, p.execs[i].session, i);
      }
    }
    forall i | 0 <= i < |q.execs| && q.execs[i].open ensures Maps(q.activeSessions, q.execs[i].session, i) {
      assert Maps(p.activeSessions, p.execs[i].session, i);
    }
  }

  lemma {:induction false} DropRegistered(p: Process, e: nat)
    requires Registered(p) && Enabled(p, DropHandle(e))
    ensures Registered(p.(activeSessions := p.activeSessions - {p.execs[e].session}))
  {
    var q := p.(activeSessions := p.activeSessions - {p.execs[e].session});
    forall i | 0 <= i < |q.execs| && q.execs[i].open ensures Maps(q.activeSessions, q.execs[i].session, i) {
      assert Maps(p.activeSessions, p.execs[i].session, i);
    }
  }

  // ------------------------------------------------------------- whole runs

  /** Nothing is dispatched into, or left unaborted under, a standing fence. */
  predicate FencedAborted(p: Process) {
    FencedRuns(p.execs, p.fenced)
  }

  predicate FencedRuns(execs: seq<Exec>, fenced: map<string, string>) {
    forall e :: 0 <= e < |execs| && !execs[e].pc.Ended? && HasReason(fenced, execs[e].session) ==> execs[e].aborted
  }

  predicate AbortsHold(p: Process) {
    forall k :: 0 <= k < |p.log| && p.log[k].Aborted? ==> p.log[k].e < |p.execs| && p.execs[p.log[k].e].aborted
  }

  predicate CompletesHold(p: Process) {
    forall k :: 0 <= k < |p.log| && p.log[k].CompleteCalled? ==> p.log[k].e < |p.execs| && p.execs[p.log[k].e].completeCalled
  }

  /** No agent loop starts after its execution was aborted. */
  predicate NoStartAfterAbort(log: seq<Event>) {
    forall i, j :: 0 <= i < j < |log| && log[i].Aborted? && log[j].AgentStarted? ==> log[i].e != log[j].e
  }

  predicate CompletesOnce(log: seq<Event>) {
    forall i, j :: 0 <= i < j < |log| && log[i].CompleteCalled? && log[j].CompleteCalled? ==> log[i].e != log[j].e
  }

  predicate Orderly(p: Process) {
    AbortsHold(p) && CompletesHold(p) && NoStartAfterAbort(p.log) && CompletesOnce(p.log)
  }

  predicate Safe(p: Process) {
    Registered(p) && Orderly(p) && FencedAborted(p)
  }

  lemma {:induction false} HappenedFacts(x: Exec, y: Exec, e: nat)
    requires Follows(x, y)
    ensures forall k :: 0 <= k < |Happened(x, y, e)| ==> Happened(x, y, e)[k].e == e
    ensures Aborted(e) in Happened(x, y, e) ==> y.aborted
    ensures AgentStarted(e) in Happened(x, y, e) ==> Aborted(e) !in Happened(x, y, e) && !x.aborted
    ensures CompleteCalled(e) in Happened(x, y, e) ==> !x.completeCalled && y.completeCalled
    ensures CompletesOnce(Happened(x, y, e))
  {
  }

  lemma {:induction false} AppendNoStart(log: seq<Event>, added: seq<Event>, e: nat)
    requires NoStartAfterAbort(log) && (forall k :: 0 <= k < |added| ==> added[k].e == e)
    requires AgentStarted(e) in added ==> Aborted(e) !in added && Aborted(e) !in log
    ensures NoStartAfterAbort(log + added)
  {
  }

  lemma {:induction false} AppendOnce(log: seq<Event>, added: seq<Event>, e: nat)
    requires CompletesOnce(log) && CompletesOnce(added) && (forall k :: 0 <= k < |added| ==> added[k].e == e)
    requires CompleteCalled(e) in added ==> CompleteCalled(e) !in log
    ensures CompletesOnce(log + added)
  {
  }

  lemma {:induction false} UpdateOrderly(p: Process, e: nat, x: Exec)
    requires Orderly(p) && e < |p.execs| && Follows(p.execs[e], x)
    ensures Orderly(Update(p, e, x))
  {
    var q, added := Update(p, e, x), Happened(p.execs[e], x, e);
    HappenedFacts(p.execs[e], x, e);
    AppendNoStart(p.log, added, e);
    AppendOnce(p.log, added, e);
    UpdateHolds(p, e, x);
  }

  lemma {:induction false} UpdateHolds(p: Process, e: nat, x: Exec)
    requires AbortsHold(p) && CompletesHold(p) && e < |p.execs| && Follows(p.execs[e], x)
    ensures AbortsHold(Update(p, e, x)) && CompletesHold(Update(p, e, x))
  {
    var q, added := Update(p, e, x), Happened(p.execs[e], x, e);
    HappenedFacts(p.execs[e], x, e);
    forall k | |p.log| <= k < |q.log| ensures q.log[k] == added[k - |p.log|] && q.log[k] in added {
    }
  }

  lemma {:induction false} UpdateFenced(p: Process, e: nat, x: Exec)
    requires FencedAborted(p) && e < |p.execs| && Follows(p.execs[e], x)
    ensures FencedAborted(Update(p, e, x))
  {
  }

  lemma {:induction false} UpdateSafe(p: Process, e: nat, x: Exec)
    requires Safe(p) && e < |p.execs| && Sound(x) && Follows(p.execs[e], x)
    ensures Safe(Update(p, e, x))
  {
    UpdateRegistered(p, e, x);
    UpdateOrderly(p, e, x);
    UpdateFenced(p, e, x);
  }

  lemma {:induction false} DispatchOrderly(p: Process, session: string, preAborted: bool, hasFence: bool)
    requires Safe(p) && Admissible(p, session)
    ensures var q := Dispatched(p, session, preAborted, hasFence); Orderly(q) && FencedAborted(q)
  {
  }

  predicate AllAborted(execs: seq<Exec>, session: string) {
    forall e :: 0 <= e < |execs| && execs[e].session == session && !execs[e].pc.Ended? ==> execs[e].aborted
  }

  /** A live execution is the registered one, so aborting that one aborts all. */
  lemma {:induction false} AbortReachesAll(p: Process, session: string, e: nat, x: Exec)
    requires LiveRegistered(p) && Maps(p.activeExecutions, session, e) && e < |p.execs| && x.aborted
    ensures AllAborted(p.execs[e := x], session)
  {
  }

  lemma {:induction false} NothingToAbort(p: Process, session: string)
    requires LiveRegistered(p) && session !in p.activeExecutions
    ensures AllAborted(p.execs, session)
  {
  }

  /** Fencing a session whose live executions are all aborted. */
  lemma {:induction false} FenceSafe(p: Process, session: string, reason: string)
    requires Safe(p) && AllAborted(p.execs, session)
    ensures Safe(p.(fenced := p.fenced[session := reason]))
  {
  }

  /** Cancelling a registered session stores its aborted execution and the reason. */
  lemma {:induction false} CancelAborts(p: Process, session: string, reason: string) returns (e: nat, x: Exec)
    requires RunsSound(p) && Owned(p) && session in p.activeExecutions
    ensures Maps(p.activeExecutions, session, e) && e < |p.execs|
    ensures Sound(x) && Follows(p.execs[e], x) && x.aborted
    ensures Cancelled(p, session, reason) == Update(p, e, x).(fenced := p.fenced[session := reason])
  {
    e := p.activeExecutions[session];
    x := Abort(p.execs[e]);
    AbortSound(p.execs[e]);
  }

  lemma {:induction false} AbortSafe(p: Process, session: string, reason: string, e: nat, x: Exec)
    requires Safe(p) && Maps(p.activeExecutions, session, e) && e < |p.execs|
    requires Sound(x) && Follows(p.execs[e], x) && x.aborted
    ensures Safe(Update(p, e, x).(fenced := p.fenced[session := reason]))
  {
    UpdateSafe(p, e, x);
    AbortReachesAll(p, session, e, x);
    FenceSafe(Update(p, e, x), session, reason);
  }

  lemma {:induction false} CancelSafe(p: Process, session: string, reason: string)
    requires Safe(p)
    ensures Safe(Cancelled(p, session, reason))
  {
    if session !in p.activeExecutions {
      NothingToAbort(p, session);
      FenceSafe(p, session, reason);
    } else {
      var e, x := CancelAborts(p, session, reason);
      AbortSafe(p, session, reason, e, x);
    }
  }

  lemma {:induction false} DispatchSafe(p: Process, session: string, preAborted: bool, hasFence: bool)
    requires Safe(p)
    ensures Safe(Dispatched(p, session, preAborted, hasFence))
  {
    if Admissible(p, session) {
      DispatchRegistered(p, session, preAborted, hasFence);
      DispatchOrderly(p, session, preAborted, hasFence);
    }
  }

  /** A continuation stores one execution that moved soundly. */
  lemma {:induction false} ContinuationMoves(p: Process, s: Step) returns (x: Exec)
    requires RunsSound(p) && IsContinuation(s) && Enabled(p, s)
    ensures s.e < |p.execs| && Sound(x) && Follows(p.execs[s.e], x) && Next(p, s) == Update(p, s.e, x)
  {
    x := Local(p.execs[s.e], s);
    LocalSound(p.execs[s.e], s);
  }

  /** Every step keeps the whole invariant. */
  lemma {:induction false} StepSafe(p: Process, s: Step)
    requires Safe(p) && Enabled(p, s)
    ensures Safe(Next(p, s))
  {
    if IsContinuation(s) {
      var x := ContinuationMoves(p, s);
      UpdateSafe(p, s.e, x);
    } else if s.Dispatch? {
      DispatchSafe(p, s.session, s.preAborted, s.hasFence);
    } else if s.Cancel? {
      CancelSafe(p, s.session, s.reason);
    } else {
      DropRegistered(p, s.e);
    }
  }

  lemma {:induction false} RunSafe(p: Process, steps: seq<Step>)
    requires Safe(p)
    ensures Run(p, steps).Some? ==> Safe(Run(p, steps).value)
    decreases |steps|
  {
    if steps != [] && Enabled(p, steps[0]) {
      StepSafe(p, steps[0]);
      RunSafe(Next(p, steps[0]), steps[1..]);
    }
  }

  /** Close before complete, on every run: whoever has called completeSession has no
      context or one whose close positively succeeded, passed the extra fence, and
      while the call is under way no execution of that session holds a browser. */
  lemma {:induction false} CompleteOnlyBehindFences(steps: seq<Step>, e: nat)
    requires Run(IDLE, steps).Some? && e < |Run(IDLE, steps).value.execs|
    ensures var p := Run(IDLE, steps).value; var x := p.execs[e];
      && (x.completeCalled ==> !x.open && (x.created ==> x.closed) && (x.hasFence ==> x.fencePassed))
      && (x.pc == Ended(true) ==> x.completeCalled)
      && (x.pc == Completing ==>
            forall i :: 0 <= i < |p.execs| && p.execs[i].session == x.session ==> !p.execs[i].open)
  {
    RunSafe(IDLE, steps);
    var p := Run(IDLE, steps).value;
    assert Sound(p.execs[e]);
    if p.execs[e].pc == Completing {
      assert Maps(p.activeExecutions, p.execs[e].session, e);
      forall i | 0 <= i < |p.execs| && p.execs[i].session == p.execs[e].session ensures !p.execs[i].open {
        assert p.execs[i].open ==> Maps(p.activeSessions, p.execs[i].session, i);
      }
    }
  }

  /** On every run: no agent loop starts after its abort, and each execution calls
      completeSession at most once. */
  lemma {:induction false} NoWorkAfterAbort(steps: seq<Step>)
    requires Run(IDLE, steps).Some?
    ensures NoStartAfterAbort(Run(IDLE, steps).value.log) && CompletesOnce(Run(IDLE, steps).value.log)
  {
    RunSafe(IDLE, steps);
  }

  /** On every run: one live execution, and one open browser, per session. */
  lemma {:induction false} OneExecutionPerSession(steps: seq<Step>, i: nat, j: nat)
    requires Run(IDLE, steps).Some?
    requires var p := Run(IDLE, steps).value;
      i < |p.execs| && j < |p.execs| && p.execs[i].session == p.execs[j].session
    ensures var p := Run(IDLE, steps).value;
      && (!p.execs[i].pc.Ended? && !p.execs[j].pc.Ended? ==> i == j)
      && (p.execs[i].open && p.execs[j].open ==> i == j)
  {
    RunSafe(IDLE, steps);
    var p := Run(IDLE, steps).value;
    if !p.execs[i].pc.Ended? && !p.execs[j].pc.Ended? {
      assert Maps(p.activeExecutions, p.execs[i].session, i) && Maps(p.activeExecutions, p.execs[j].session, j);
    }
    if p.execs[i].open && p.execs[j].open {
      assert Maps(p.activeSessions, p.execs[i].session, i) && Maps(p.activeSessions, p.execs[j].session, j);
    }
  }

  // ------------------------------------------------------ cancellation fences

  function Standing(m: map<string, string>, session: string): Option<string> {
    if session in m then Some(m[session]) else None
  }

  /** The reason of the last cancellation of a session among the steps. */
  function LastReason(before: Option<string>, steps: seq<Step>, session: string): Option<string>
    decreases |steps|
  {
    if steps == [] then before
    else LastReason(if steps[0].Cancel? && steps[0].session == session then Some(steps[0].reason) else before,
                    steps[1..], session)
  }

  lemma {:induction false} FenceIsLastReason(p: Process, steps: seq<Step>, session: string)
    requires Run(p, steps).Some?
    ensures Standing(Run(p, steps).value.fenced, session) == LastReason(Standing(p.fenced, session), steps, session)
    decreases |steps|
  {
    if steps != [] {
      FenceIsLastReason(Next(p, steps[0]), steps[1..], session);
    }
  }

  /** After any run, a dispatch starts an execution exactly when the session's last
      cancellation (if any) carried no reason and nothing of it is registered. */
  lemma {:induction false} AdmittedExactly(steps: seq<Step>, session: string, preAborted: bool, hasFence: bool)
    requires Run(IDLE, steps).Some?
    ensures var p := Run(IDLE, steps).value; var q := Next(p, Dispatch(session, preAborted, hasFence));
      |q.execs| == |p.execs| + 1 <==>
        && LastReason(None, steps, session) in {None, Some("")}
        && session !in p.activeExecutions && session !in p.activeSessions
    ensures var p := Run(IDLE, steps).value; var q := Next(p, Dispatch(session, preAborted, hasFence));
      |q.execs| == |p.execs| + 1 ==>
        var x := q.execs[|p.execs|];
        && x.session == session && x.hasFence == hasFence && !x.created && x.aborted == preAborted
        && (x.pc == Preflight <==> !preAborted)
  {
    FenceIsLastReason(IDLE, steps, session);
  }

  /** An execution that has a context or may still be given one. */
  predicate MayHaveContext(x: Exec) {
    x.created || x.pc == Creating
  }

  ghost predicate NeverUnfenced(steps: seq<Step>, session: string) {
    Cancel(session, "") !in steps
  }

  /** What a standing fence on `session` lets happen between two states. */
  predicate OnlyOldContexts(p: Process, q: Process, session: string) {
    && HasReason(q.fenced, session) && |p.execs| <= |q.execs|
    && (forall e :: 0 <= e < |p.execs| ==> q.execs[e].session == p.execs[e].session)
    && (forall e :: |p.execs| <= e < |q.execs| ==> q.execs[e].session != session)
    && (forall e :: 0 <= e < |p.execs| && p.execs[e].session == session && MayHaveContext(q.execs[e]) ==>
          MayHaveContext(p.execs[e]))
  }

  lemma {:induction false} FencedUpdate(p: Process, e: nat, x: Exec, session: string)
    requires FencedAborted(p) && HasReason(p.fenced, session) && e < |p.execs| && Follows(p.execs[e], x)
    ensures OnlyOldContexts(p, Update(p, e, x), session)
  {
  }

  lemma {:induction false} FencedCancel(p: Process, other: string, reason: string, session: string)
    requires Safe(p) && HasReason(p.fenced, session) && (other != session || reason != "")
    ensures OnlyOldContexts(p, Cancelled(p, other, reason), session)
  {
  }

  lemma {:induction false} FencedStep(p: Process, s: Step, session: string)
    requires Safe(p) && Enabled(p, s) && HasReason(p.fenced, session) && s != Cancel(session, "")
    ensures OnlyOldContexts(p, Next(p, s), session)
  {
    if IsContinuation(s) {
      var x := ContinuationMoves(p, s);
      FencedUpdate(p, s.e, x, session);
    } else if s.Cancel? {
      FencedCancel(p, s.session, s.reason, session);
    }
  }

  /** Once a session is cancelled with a reason, and until it is cancelled again
      without one, no execution of it is admitted, and the only one that can still
      gain a context is one that was already inside createContext. */
  lemma {:induction false} FencedSession(p: Process, steps: seq<Step>, session: string)
    requires Safe(p) && HasReason(p.fenced, session)
    requires Run(p, steps).Some? && NeverUnfenced(steps, session)
    ensures OnlyOldContexts(p, Run(p, steps).value, session)
    decreases |steps|
  {
    if steps != [] {
      var next := Next(p, steps[0]);
      FencedStep(p, steps[0], session);
      StepSafe(p, steps[0]);
      assert steps[0] in steps;
      assert NeverUnfenced(steps[1..], session);
      FencedSession(next, steps[1..], session);
    }
  }

  // ------------------------------------------------ a positive cancellation

  /** Ended, and without a browser. */
  predicate Over(x: Exec) {
    x.pc.Ended? && !x.open
  }

  /** Before a session is dispatched again, all its earlier executions are over. */
  predicate OlderOver(execs: seq<Exec>) {
    forall i, j :: 0 <= i < j < |execs| && execs[i].session == execs[j].session ==> Over(execs[i])
  }

  lemma {:induction false} OverStays(x: Exec, y: Exec)
    requires Over(x) && Sound(y) && Follows(x, y)
    ensures Over(y)
  {
  }

  lemma {:induction false} OlderOverUpdate(execs: seq<Exec>, e: nat, x: Exec)
    requires OlderOver(execs) && e < |execs| && x.session == execs[e].session && (Over(execs[e]) ==> Over(x))
    ensures OlderOver(execs[e := x])
  {
  }

  lemma {:induction false} OlderOverAppend(execs: seq<Exec>, x: Exec)
    requires OlderOver(execs) && forall i :: 0 <= i < |execs| && execs[i].session == x.session ==> Over(execs[i])
    ensures OlderOver(execs + [x])
  {
  }

  /** A session with nothing registered has only executions that are over. */
  lemma {:induction false} UnregisteredOver(p: Process, i: nat)
    requires Registered(p) && i < |p.execs|
    requires p.execs[i].session !in p.activeExecutions && p.execs[i].session !in p.activeSessions
    ensures Over(p.execs[i])
  {
    assert !p.execs[i].pc.Ended? ==> Maps(p.activeExecutions, p.execs[i].session, i);
    assert p.execs[i].open ==> Maps(p.activeSessions, p.execs[i].session, i);
  }

  /** What a step does to the executions: one of them moves, or one is appended. */
  lemma {:induction false} ExecsMove(p: Process, s: Step) returns (e: nat, x: Exec)
    requires Safe(p) && Enabled(p, s) && Next(p, s).execs != p.execs && !s.Dispatch?
    ensures e < |p.execs| && Sound(x) && Follows(p.execs[e], x) && Next(p, s).execs == p.execs[e := x]
  {
    if IsContinuation(s) {
      e := s.e;
      x := ContinuationMoves(p, s);
    } else {
      e, x := CancelAborts(p, s.session, s.reason);
    }
  }

  lemma {:induction false} StepOlderOver(p: Process, s: Step)
    requires Safe(p) && OlderOver(p.execs) && Enabled(p, s)
    ensures OlderOver(Next(p, s).execs)
  {
    if s.Dispatch? {
      if Admissible(p, s.session) {
        forall i | 0 <= i < |p.execs| && p.execs[i].session == s.session ensures Over(p.execs[i]) {
          UnregisteredOver(p, i);
        }
        var x := Admit(s.session, s.preAborted, s.hasFence);
        assert x.session == s.session;
        OlderOverAppend(p.execs, x);
      }
    } else if Next(p, s).execs != p.execs {
      var e, x := ExecsMove(p, s);
      if Over(p.execs[e]) {
        OverStays(p.execs[e], x);
      }
      OlderOverUpdate(p.execs, e, x);
    }
  }

  lemma {:induction false} StepKeepsOver(p: Process, s: Step, e: nat)
    requires Safe(p) && Enabled(p, s) && e < |p.execs| && Over(p.execs[e])
    ensures e < |Next(p, s).execs| && Over(Next(p, s).execs[e]) && Next(p, s).execs[e].session == p.execs[e].session
    ensures p.execs[e].completeCalled ==> Next(p, s).execs[e].completeCalled
  {
    if !s.Dispatch? && Next(p, s).execs != p.execs {
      var i, x := ExecsMove(p, s);
      if i == e {
        OverStays(p.execs[e], x);
      }
    }
  }

  lemma {:induction false} RunOlderOver(p: Process, steps: seq<Step>)
    requires Safe(p) && OlderOver(p.execs) && Run(p, steps).Some?
    ensures Safe(Run(p, steps).value) && OlderOver(Run(p, steps).value.execs)
    decreases |steps|
  {
    if steps != [] {
      StepSafe(p, steps[0]);
      StepOlderOver(p, steps[0]);
      RunOlderOver(Next(p, steps[0]), steps[1..]);
    }
  }

  lemma {:induction false} RunKeepsOver(p: Process, steps: seq<Step>, e: nat)
    requires Safe(p) && Run(p, steps).Some? && e < |p.execs| && Over(p.execs[e])
    ensures var q := Run(p, steps).value;
      && e < |q.execs| && Over(q.execs[e]) && q.execs[e].session == p.execs[e].session
      && (p.execs[e].completeCalled ==> q.execs[e].completeCalled)
    decreases |steps|
  {
    if steps != [] {
      StepSafe(p, steps[0]);
      StepKeepsOver(p, steps[0], e);
      RunKeepsOver(Next(p, steps[0]), steps[1..], e);
    }
  }

  /** The registered execution is the session's last one. */
  lemma {:induction false} ActiveIsLast(p: Process, session: string, i: nat)
    requires Owned(p) && OlderOver(p.execs) && session in p.activeExecutions
    requires i < |p.execs| && p.execs[i].session == session
    ensures i <= p.activeExecutions[session]
  {
  }

  /** An execution that ended well has persisted its outcome and closed its browser. */
  lemma {:induction false} EndedWell(x: Exec)
    requires Sound(x) && x.pc == Ended(true)
    ensures Over(x) && x.completeCalled
  {
  }

  lemma {:induction false} CancelKeepsCount(p: Process, session: string, reason: string)
    requires Owned(p)
    ensures var q := Next(p, Cancel(session, reason));
      && |q.execs| == |p.execs| && q.fenced == p.fenced[session := reason]
      && forall i :: 0 <= i < |p.execs| ==> q.execs[i].session == p.execs[i].session
  {
  }

  /** A positive result of cancelExecution is a safe fence: the session is cancelled with a
      reason while execution e is registered, and e ends well. From then on, as long as the
      session is not cancelled without a reason, every execution of it is over, on every
      continuation, and e has persisted its outcome. */
  lemma {:induction false} PositiveCancelIsFence(before: seq<Step>, session: string, reason: string,
                                                 during: seq<Step>, after: seq<Step>, e: nat)
    requires reason != "" && NeverUnfenced(during, session) && NeverUnfenced(after, session)
    requires Run(IDLE, before).Some? && Maps(Run(IDLE, before).value.activeExecutions, session, e)
    requires Run(Next(Run(IDLE, before).value, Cancel(session, reason)), during).Some?
    requires var q := Run(Next(Run(IDLE, before).value, Cancel(session, reason)), during).value;
      e < |q.execs| && q.execs[e].pc == Ended(true) && Run(q, after).Some?
    ensures var r := Run(Run(Next(Run(IDLE, before).value, Cancel(session, reason)), during).value, after).value;
      && (forall i :: 0 <= i < |r.execs| && r.execs[i].session == session ==> Over(r.execs[i]))
      && e < |r.execs| && r.execs[e].session == session && r.execs[e].completeCalled
  {
    RunOlderOver(IDLE, before);
    var p := Run(IDLE, before).value;
    StepSafe(p, Cancel(session, reason));
    StepOlderOver(p, Cancel(session, reason));
    CancelKeepsCount(p, session, reason);
    FencedAfterwards(p, Next(p, Cancel(session, reason)), session, during, after, e);
  }

  lemma {:induction false} FencedAfterwards(p: Process, fenced: Process, session: string, during: seq<Step>, after: seq<Step>, e: nat)
    requires Safe(p) && OlderOver(p.execs) && Maps(p.activeExecutions, session, e)
    requires Safe(fenced) && OlderOver(fenced.execs) && HasReason(fenced.fenced, session) && |fenced.execs| == |p.execs|
    requires forall i :: 0 <= i < |p.execs| ==> fenced.execs[i].session == p.execs[i].session
    requires NeverUnfenced(during, session) && NeverUnfenced(after, session) && Run(fenced, during).Some?
    requires var q := Run(fenced, during).value;
      e < |q.execs| && q.execs[e].pc == Ended(true) && Run(q, after).Some?
    ensures var r := Run(Run(fenced, during).value, after).value;
      && (forall i :: 0 <= i < |r.execs| && r.execs[i].session == session ==> Over(r.execs[i]))
      && e < |r.execs| && r.execs[e].session == session && r.execs[e].completeCalled
  {
    var q := Run(fenced, during).value;
    RunOlderOver(fenced, during);
    FencedSession(fenced, during, session);
    EndedWell(q.execs[e]);
    forall i | 0 <= i < |q.execs| && q.execs[i].session == session ensures i <= e {
      IsOld(p.execs, fenced, q, session, i);
      ActiveIsLast(p, session, i);
    }
    StaysFenced(q, session, after, e);
  }

  /** Under a standing reason an execution of the session is one it had before. */
  lemma {:induction false} IsOld(execs: seq<Exec>, fenced: Process, q: Process, session: string, i: nat)
    requires |fenced.execs| == |execs| && OnlyOldContexts(fenced, q, session)
    requires forall k :: 0 <= k < |execs| ==> fenced.execs[k].session == execs[k].session
    requires i < |q.execs| && q.execs[i].session == session
    ensures i < |execs| && execs[i].session == session
  {
  }

  lemma {:induction false} StaysFenced(q: Process, session: string, after: seq<Step>, e: nat)
    requires Safe(q) && OlderOver(q.execs) && HasReason(q.fenced, session) && NeverUnfenced(after, session)
    requires e < |q.execs| && q.execs[e].session == session && Over(q.execs[e]) && q.execs[e].completeCalled
    requires forall i :: 0 <= i < |q.execs| && q.execs[i].session == session ==> i <= e
    requires Run(q, after).Some?
    ensures var r := Run(q, after).value;
      && (forall i :: 0 <= i < |r.execs| && r.execs[i].session == session ==> Over(r.execs[i]))
      && e < |r.execs| && r.execs[e].session == session && r.execs[e].completeCalled
  {
    var r := Run(q, after).value;
    RunOlderOver(q, after);
    FencedSession(q, after, session);
    RunKeepsOver(q, after, e);
    forall i | 0 <= i < |r.execs| && r.execs[i].session == session ensures i <= e {
      IsOld(q.execs, q, r, session, i);
    }
    LastOver(r.execs, session, e);
  }

  lemma {:induction false} LastOver(execs: seq<Exec>, session: string, e: nat)
    requires OlderOver(execs) && e < |execs| && execs[e].session == session && Over(execs[e])
    requires forall i :: 0 <= i < |execs| && execs[i].session == session ==> i <= e
    ensures forall i :: 0 <= i < |execs| && execs[i].session == session ==> Over(execs[i])
  {
  }

  /** The guard tests the reason, not its presence: a second cancellation with an empty
      reason lifts the fence of the first. */
  lemma {:induction false} EmptyReasonLiftsFence()
    ensures var steps := [Cancel("s", "stop"), Cancel("s", "")];
      && Run(IDLE, steps).Some?
      && |Next(Run(IDLE, steps).value, Dispatch("s", false, false)).execs| == 1
    ensures Next(Run(IDLE, [Cancel("s", "stop")]).value, Dispatch("s", false, false)).execs == []
  {
  }
}
