/** The executor's state updated in place: one object per execution holding the
    closure variables of executeCrawlImpl, and the process-wide Maps. Every method is
    one run-to-await and is proved to be the corresponding step of CrawlExecutor. */
module CrawlProcess {
  import opened Basics
  import opened CrawlExecutor

  class Execution {
    const session: string
    const hasFence: bool
    var aborted: bool
    var listening: bool
    var context: bool
    var page: bool
    var contextClosing: bool
    var contextClosed: bool
    var watchdogFired: bool
    var fencePassed: bool
    var completeCalled: bool
    var pc: Pc
    ghost var open: bool

    ghost function View(): Exec
      reads this
    {
      Exec(session, hasFence, aborted, listening, context, page, contextClosing, contextClosed, open,
           watchdogFired, fencePassed, completeCalled, pc)
    }

    constructor (session: string, preAborted: bool, hasFence: bool)
      ensures View() == Admit(session, preAborted, hasFence)
    {
      this.session, this.hasFence, aborted := session, hasFence, preAborted;
      listening, context, page, contextClosing, contextClosed := false, false, false, false, false;
      watchdogFired, fencePassed, completeCalled, open := false, false, false, false;
      pc := Preflight;
      new;
      if preAborted {
        Finally();
      }
    }

    method CloseContextOnce()
      modifies this
      ensures View() == StartClose(old(View()))
    {
      if contextClosed || !context {
        return;
      }
      if !contextClosing {
        contextClosing := true;
      }
    }

    method OnAbort()
      modifies this
      ensures View() == Abort(old(View()))
    {
      if !aborted {
        aborted := true;
        if listening {
          CloseContextOnce();
        }
      }
    }

    method PassedClose()
      modifies this
      ensures View() == AfterClose(old(View()))
    {
      if !hasFence {
        completeCalled := true;
      }
      pc := if hasFence then Fencing else Completing;
    }

    method FinalClose()
      modifies this
      ensures View() == EnterClose(old(View()))
    {
      CloseContextOnce();
      if contextClosed || !context {
        PassedClose();
      } else {
        pc := Closing;
      }
    }

    method StopListening()
      modifies this`listening
      ensures View() == old(View()).(listening := false)
    {
      listening := false;
    }

    method ClosePageFirst()
      modifies this
      ensures View() == LeaveTry(old(View()))
    {
      if page && !contextClosed {
        pc := ClosingPage;
      } else {
        FinalClose();
      }
    }

    method Finally()
      modifies this
      ensures View() == EnterFinally(old(View()))
    {
      StopListening();
      ClosePageFirst();
    }

    method RecordClose(ok: bool)
      modifies this
      ensures View() == Flagged(old(View()), ok)
    {
      contextClosing := false;
      if ok {
        contextClosed, open := true, false;
      }
    }

    method CloseSettled(ok: bool)
      modifies this
      ensures View() == Settled(old(View()), ok)
    {
      RecordClose(ok);
      if pc == AbortClosing {
        Finally();
      } else if pc == Closing {
        if ok {
          PassedClose();
        } else {
          pc := Ended(false);
        }
      }
    }

    method PreflightSettled(ok: bool)
      modifies this
      ensures View() == AfterPreflight(old(View()), ok)
    {
      if !ok || aborted {
        Finally();
      } else {
        pc := Creating;
      }
    }

    method ContextSettled(ok: bool)
      modifies this
      ensures View() == AfterContext(old(View()), ok)
    {
      if !ok {
        Finally();
        return;
      }
      context, open, listening := true, true, true;
      if aborted {
        CloseContextOnce();
        pc := AbortClosing;
      } else {
        pc := Guarding;
      }
    }

    method GuardSettled(ok: bool)
      modifies this
      ensures View() == AfterGuard(old(View()), ok)
    {
      if !ok || aborted {
        Finally();
      } else {
        pc := Paging;
      }
    }

    method PageSettled(ok: bool)
      modifies this
      ensures View() == AfterPage(old(View()), ok)
    {
      if !ok {
        Finally();
        return;
      }
      page := true;
      if aborted {
        Finally();
      } else {
        pc := Running;
      }
    }

    method FenceSettled(ok: bool)
      modifies this
      ensures View() == AfterFence(old(View()), ok)
    {
      if ok {
        fencePassed, completeCalled := true, true;
        pc := Completing;
      } else {
        pc := Ended(false);
      }
    }

    /** Setup awaits of the try block. */
    method ResumeSetup(s: Step)
      requires IsSetup(s)
      modifies this
      ensures View() == Local(old(View()), s)
    {
      match s {
        case PreflightDone(_, ok) => PreflightSettled(ok);
        case ContextReady(_, ok) => ContextSettled(ok);
        case GuardDone(_, ok) => GuardSettled(ok);
        case PageReady(_, ok) => PageSettled(ok);
      }
    }

    /** The agent loop ends, and the awaits of the finally block and after it. */
    method ResumeTeardown(s: Step)
      requires IsTeardown(s)
      modifies this
      ensures View() == Local(old(View()), s)
    {
      if s.PageClosed? {
        FinalClose();
      } else if s.FenceDone? {
        FenceSettled(s.ok);
      } else if s.CompleteDone? {
        pc := Ended(s.ok);
      } else {
        Finally();
      }
    }

    /** Timers, outside events and the end. */
    method ResumeOutside(s: Step)
      requires !IsSetup(s) && !IsTeardown(s) && !s.CloseSettles?
      modifies this
      ensures View() == Local(old(View()), s)
    {
      if s.WatchdogFires? {
        CloseContextOnce();
        watchdogFired := true;
      } else if s.ExternalClose? {
        if s.ok {
          open := false;
        }
      } else if s.ExternalAbort? || s.Cancel? {
        OnAbort();
      }
    }

    /** The code between one await and the next. */
    method Resume(s: Step)
      modifies this
      ensures View() == Local(old(View()), s)
    {
      if IsSetup(s) {
        ResumeSetup(s);
      } else if IsTeardown(s) {
        ResumeTeardown(s);
      } else if s.CloseSettles? {
        CloseSettled(s.ok);
      } else {
        ResumeOutside(s);
      }
    }
  }

  ghost function ViewsOf(runs: seq<Execution>): seq<Exec>
    reads runs
  {
    seq(|runs|, i requires 0 <= i < |runs| reads runs => runs[i].View())
  }

  class Engine {
    var runs: seq<Execution>
    var activeExecutions: map<string, nat>
    var activeSessions: map<string, nat>
    var fencedExecutions: map<string, string>
    ghost var log: seq<Event>

    ghost predicate Valid()
      reads this
    {
      forall i, j :: 0 <= i < j < |runs| ==> runs[i] != runs[j]
    }

    ghost function Views(): seq<Exec>
      reads this`runs, runs
    {
      ViewsOf(runs)
    }

    ghost function State(): Process
      reads this, runs
    {
      Process(Views(), activeExecutions, activeSessions, fencedExecutions, log)
    }

    constructor ()
      ensures Valid() && State() == IDLE
    {
      runs, activeExecutions, activeSessions, fencedExecutions, log := [], map[], map[], map[], [];
    }

    /** executeCrawl up to its first await: refused behind a reason, an error when the
        session is already executing, otherwise a new registered execution. */
    method ExecuteCrawl(session: string, preAborted: bool, hasFence: bool) returns (admitted: bool)
      requires Valid()
      modifies this
      ensures Valid() && admitted == Admissible(old(State()), session)
      ensures State() == Next(old(State()), Dispatch(session, preAborted, hasFence))
    {
      if session in fencedExecutions && fencedExecutions[session] != "" {
        return false;
      }
      if session in activeExecutions || session in activeSessions {
        return false;
      }
      admitted := true;
      Start(session, preAborted, hasFence);
    }

    /** A new execution, registered before its first await. */
    method Start(session: string, preAborted: bool, hasFence: bool)
      requires Valid()
      modifies this
      ensures Valid() && fencedExecutions == old(fencedExecutions) && activeSessions == old(activeSessions)
      ensures Views() == old(Views()) + [Admit(session, preAborted, hasFence)]
      ensures activeExecutions == old(activeExecutions)[session := |old(runs)|]
      ensures log == old(log) + (if preAborted then [Aborted(|old(runs)|)] else [])
                     + (if Admit(session, preAborted, hasFence).completeCalled then [CompleteCalled(|old(runs)|)] else [])
    {
      var run := new Execution(session, preAborted, hasFence);
      activeExecutions := activeExecutions[session := |runs|];
      log := log + (if preAborted then [Aborted(|runs|)] else []) + (if run.completeCalled then [CompleteCalled(|runs|)] else []);
      runs := runs + [run];
      assert Views() == old(Views()) + [run.View()];
    }

    /** cancelExecution up to its await: the fence is recorded before current work is
        inspected; `waits` says there is an execution whose end it awaits. */
    method CancelExecution(session: string, reason: string) returns (waits: bool)
      requires Valid() && Owned(State())
      modifies this, runs
      ensures Valid() && waits == (session in old(activeExecutions))
      ensures State() == Next(old(State()), Cancel(session, reason))
    {
      ghost var before := State();
      fencedExecutions := fencedExecutions[session := reason];
      if session !in activeExecutions {
        return false;
      }
      var e := activeExecutions[session];
      ghost var x := AbortStays(before, session, reason, e);
      AbortRun(e, x);
      waits := true;
    }

    /** One execution is aborted; the others, being other objects, are not. */
    method AbortRun(e: nat, ghost x: Exec)
      requires Valid() && e < |runs| && x == Abort(Views()[e])
      modifies this`log, runs[e]
      ensures Views() == old(Views())[e := x] && log == old(log) + Happened(old(Views())[e], x, e)
    {
      ghost var before := Views();
      runs[e].OnAbort();
      OneMoved(before, Views(), e, runs[e].View());
      log := log + Happened(before[e], x, e);
    }

    /** The context handle is registered when made and dropped after a positive close. */
    method TrackContext(run: Execution, e: nat, ghost x: Exec, hadContext: bool, hadPassed: bool)
      requires run.session == x.session && hadContext == x.created && hadPassed == PastClose(x.pc)
      modifies this`activeSessions
      ensures activeSessions == SessionsAfter(old(activeSessions), x, run.View(), e)
    {
      if run.context && !hadContext {
        activeSessions := activeSessions[run.session := e];
      } else if !hadPassed && PastClose(run.pc) && run.pc != Ended(false) {
        activeSessions := activeSessions - {run.session};
      }
    }

    /** The outer finally block gives up the run's own registration. */
    method Deregister(run: Execution, e: nat)
      modifies this`activeExecutions
      ensures activeExecutions == ExecutionsAfter(old(activeExecutions), run.View(), e)
    {
      if run.pc.Ended? && run.session in activeExecutions && activeExecutions[run.session] == e {
        activeExecutions := activeExecutions - {run.session};
      }
    }

    /** One execution moves; the others, being other objects, do not. */
    method Move(e: nat, s: Step)
      requires Valid() && e < |runs|
      modifies runs[e]
      ensures runs[e].View() == Local(old(runs[e].View()), s)
      ensures Views() == old(Views())[e := runs[e].View()]
    {
      ghost var before := Views();
      runs[e].Resume(s);
      OneMoved(before, Views(), e, runs[e].View());
    }

    /** The registrations follow an execution that moved since state `p`. */
    method Register(e: nat, ghost p: Process, hadContext: bool, hadPassed: bool)
      requires Valid() && e < |runs| == |p.execs| && runs[e].session == p.execs[e].session
      requires State() == p.(execs := p.execs[e := runs[e].View()])
      requires hadContext == p.execs[e].created && hadPassed == PastClose(p.execs[e].pc)
      modifies this
      ensures Valid() && runs == old(runs) && State() == Update(p, e, old(runs[e].View()))
    {
      TrackContext(runs[e], e, p.execs[e], hadContext, hadPassed);
      Deregister(runs[e], e);
      log := log + Happened(p.execs[e], runs[e].View(), e);
      assert Views() == old(Views());
    }

    /** One execution moves and its registrations follow. */
    method Advance(e: nat, s: Step)
      requires Valid() && e < |runs|
      modifies this, runs
      ensures Valid() && State() == Update(old(State()), e, Local(old(Views())[e], s))
    {
      ghost var before := State();
      var run := runs[e];
      var hadContext, hadPassed := run.context, PastClose(run.pc);
      Move(e, s);
      Register(e, before, hadContext, hadPassed);
    }

    /** A continuation of execution s.e runs to its next await; the finally blocks
        deregister it. */
    method Continue(s: Step)
      requires Valid() && IsContinuation(s) && Enabled(State(), s)
      modifies this, runs
      ensures Valid() && State() == Next(old(State()), s)
    {
      ContinuationShape(State(), s);
      Advance(s.e, s);
    }
  }

  lemma {:induction false} OneMoved(before: seq<Exec>, after: seq<Exec>, e: nat, x: Exec)
    requires e < |before| == |after| && after[e] == x
    requires forall i :: 0 <= i < |before| && i != e ==> after[i] == before[i]
    ensures after == before[e := x]
  {
  }

  /** An execution that stays where it was keeps its registrations. */
  lemma {:induction false} StaysRegistered(p: Process, e: nat, x: Exec)
    requires e < |p.execs| && !x.pc.Ended? && x.pc == p.execs[e].pc && x.created == p.execs[e].created
    ensures Update(p, e, x)
            == Process(p.execs[e := x], p.activeExecutions, p.activeSessions, p.fenced, p.log + Happened(p.execs[e], x, e))
  {
  }

  lemma {:induction false} AbortStays(p: Process, session: string, reason: string, e: nat) returns (x: Exec)
    requires Owned(p) && Maps(p.activeExecutions, session, e)
    ensures e < |p.execs| && x == Abort(p.execs[e])
    ensures Cancelled(p, session, reason)
            == Process(p.execs[e := x], p.activeExecutions, p.activeSessions, p.fenced[session := reason],
                       p.log + Happened(p.execs[e], x, e))
  {
    x := Abort(p.execs[e]);
    StaysRegistered(p.(fenced := p.fenced[session := reason]), e, x);
  }
}
