/** The worker's local mirror of its database lease, and the work it guards. */
module OwnershipMonitor {
  import opened Basics

  // ------------------------------------------------- the monitor as a value

  /** Closure state of startOwnershipMonitor. `deadline` is the due time of the
      armed lease timer, `attempt` the start of the poll in flight. */
  datatype Monitor = Monitor(
    lease: int,
    grace: int,
    stopped: bool,
    attempt: Option<int>,
    deadline: Option<int>,
    interval: bool,
    fences: nat)

  datatype Answer = Running | OtherStatus | Failed

  /** Math.max(0, Math.min(grace, lease)). */
  function ClampGrace(grace: int, lease: int): int {
    var least := if grace < lease then grace else lease;
    if least < 0 then 0 else least
  }

  function Triggered(m: Monitor): Monitor {
    if m.stopped then m
    else m.(stopped := true, deadline := None, interval := false, fences := m.fences + 1)
  }

  function LeaseArmed(m: Monitor, confirmedAt: int, now: int): Monitor {
    if m.stopped then m
    else if confirmedAt + m.lease - m.grace <= now then Triggered(m.(deadline := None))
    else m.(deadline := Some(confirmedAt + m.lease - m.grace))
  }

  /** The interval is armed last, even if arming the lease already fenced. */
  function Started(lease: int, grace: int, confirmedAt: int, now: int): Monitor {
    LeaseArmed(Monitor(lease, ClampGrace(grace, lease), false, None, None, false, 0), confirmedAt, now).(interval := true)
  }

  function Polled(m: Monitor, now: int): Monitor {
    if m.stopped || m.attempt.Some? then m else m.(attempt := Some(now))
  }

  function Answered(m: Monitor, answer: Answer, now: int): Monitor
    requires m.attempt.Some?
  {
    var idle := m.(attempt := None);
    if m.stopped then idle
    else match answer
      case Failed => idle
      case OtherStatus => Triggered(idle)
      case Running => LeaseArmed(idle, m.attempt.value, now)
  }

  function Stopped(m: Monitor): Monitor {
    if m.stopped then m else m.(stopped := true, deadline := None, interval := false)
  }

  // ------------------------------------------------- the monitor in place

  class LeaseMonitor {
    const lease: int
    const grace: int
    var stopped: bool
    var attempt: Option<int>
    var leaseTimer: Option<int>
    var heartbeatTimer: bool
    var fences: nat

    ghost function View(): Monitor
      reads this
    {
      Monitor(lease, grace, stopped, attempt, leaseTimer, heartbeatTimer, fences)
    }

    constructor (lease: int, grace: int, confirmedAt: int, now: int)
      ensures View() == Started(lease, grace, confirmedAt, now)
    {
      this.lease := lease;
      this.grace := if grace < lease then (if grace < 0 then 0 else grace) else if lease < 0 then 0 else lease;
      stopped, attempt, leaseTimer, heartbeatTimer, fences := false, None, None, false, 0;
      new;
      ArmLease(confirmedAt, now);
      heartbeatTimer := true;
    }

    method ClearTimers()
      modifies this`leaseTimer, this`heartbeatTimer
      ensures leaseTimer == None && !heartbeatTimer
    {
      leaseTimer, heartbeatTimer := None, false;
    }

    method Trigger()
      modifies this
      ensures View() == Triggered(old(View()))
    {
      if stopped {
        return;
      }
      stopped := true;
      ClearTimers();
      fences := fences + 1;
    }

    method ArmLease(confirmedAt: int, now: int)
      modifies this
      ensures View() == LeaseArmed(old(View()), confirmedAt, now)
    {
      if stopped {
        return;
      }
      leaseTimer := None;
      var left := confirmedAt + lease - grace - now;
      var remaining := if left < 0 then 0 else left;
      if remaining == 0 {
        Trigger();
        return;
      }
      leaseTimer := Some(now + remaining);
    }

    method Poll(now: int)
      modifies this
      ensures View() == Polled(old(View()), now)
    {
      if stopped || attempt.Some? {
        return;
      }
      attempt := Some(now);
    }

    method Answer(answer: Answer, now: int)
      requires attempt.Some?
      modifies this
      ensures View() == Answered(old(View()), answer, now)
    {
      var startedAt := attempt.value;
      attempt := None;
      if !stopped && answer != Failed {
        if answer != Running {
          Trigger();
        } else {
          ArmLease(startedAt, now);
        }
      }
    }

    method Stop()
      modifies this
      ensures View() == Stopped(old(View()))
    {
      if stopped {
        return;
      }
      stopped := true;
      ClearTimers();
    }
  }

  // ------------------------------------- the worker, its clock and the database

  datatype Phase = Binding | Executing | Parked | Refused

  datatype Event = Fenced(at: int, expiry: int) | Invoked(at: int) | StopCalled(at: int)

  /** One claimed job. `confirmed` is the start of the database attempt that last
      confirmed ownership, `expiry` the time the database lease runs out, and
      `renewed` tells whether the poll in flight has reached the database. */
  datatype Worker = Worker(
    now: int,
    monitor: Monitor,
    confirmed: int,
    expiry: int,
    renewed: bool,
    aborted: bool,
    phase: Phase,
    log: seq<Event>)

  datatype Step =
    | Advance(to: int)
    | LeaseTimer
    | Tick
    | Renew
    | Return(answer: Answer)
    | Bound
    | Signal
    | Stop

  /** Take over a new monitor state; a trigger runs the fence, which aborts the work. */
  function Settle(w: Worker, m: Monitor): Worker {
    if m.fences > w.monitor.fences
    then w.(monitor := m, aborted := true, log := w.log + [Fenced(w.now, w.expiry)])
    else w.(monitor := m)
  }

  /** Claim, start the monitor and begin the work, in one synchronous stretch. */
  function Launch(lease: int, grace: int, confirmedAt: int, now: int, expiry: int, deviceProxy: bool): Worker {
    var m := Started(lease, grace, confirmedAt, now);
    var fenced := m.fences > 0;
    Worker(now, m, confirmedAt, expiry, false, fenced,
           if fenced then Refused else if deviceProxy then Binding else Executing,
           if fenced then [Fenced(now, expiry)] else if deviceProxy then [] else [Invoked(now)])
  }

  /** Timers fire when due: the clock cannot pass an armed deadline. */
  predicate Enabled(w: Worker, s: Step) {
    match s
    case Advance(to) => w.now <= to && (w.monitor.deadline.Some? ==> to <= w.monitor.deadline.value)
    case LeaseTimer => w.monitor.deadline == Some(w.now)
    case Tick => w.monitor.interval
    case Renew => w.monitor.attempt.Some?
    case Return(answer) => w.monitor.attempt.Some? && (answer == Running ==> w.renewed)
    case Bound => w.phase == Binding
    case Signal => true
    case Stop => true
  }

  function Next(w: Worker, s: Step): Worker
    requires Enabled(w, s)
  {
    match s
    case Advance(to) => w.(now := to)
    case LeaseTimer => Settle(w, Triggered(w.monitor))
    case Tick =>
      var m := Polled(w.monitor, w.now);
      w.(monitor := m, renewed := if m == w.monitor then w.renewed else false)
    case Renew =>
      w.(renewed := true, expiry := if w.now + w.monitor.lease > w.expiry then w.now + w.monitor.lease else w.expiry)
    case Return(answer) =>
      var startedAt := w.monitor.attempt.value;
      var w' := Settle(w, Answered(w.monitor, answer, w.now));
      if answer == Running && !w.monitor.stopped then w'.(confirmed := startedAt) else w'
    case Bound =>
      if w.aborted then w.(phase := Refused) else w.(phase := Parked, log := w.log + [Invoked(w.now)])
    case Signal => w.(aborted := true)
    case Stop => w.(monitor := Stopped(w.monitor), log := w.log + [StopCalled(w.now)])
  }

  function Run(w: Worker, steps: seq<Step>): Option<Worker>
    decreases |steps|
  {
    if steps == [] then Some(w)
    else if !Enabled(w, steps[0]) then None
    else Run(Next(w, steps[0]), steps[1..])
  }

  // ------------------------------------------------------------- invariants

  /** At most one fence, none after stop, and no work invoked after it. */
  ghost predicate LogOk(log: seq<Event>) {
    && (forall i, j :: 0 <= i < j < |log| && log[i].Fenced? ==> !log[j].Fenced? && !log[j].Invoked?)
    && (forall i, j :: 0 <= i < j < |log| && log[i].StopCalled? ==> !log[j].Fenced?)
  }

  /** Every fence left the grace period before the database lease could expire. */
  ghost predicate FencedInTime(log: seq<Event>, grace: int) {
    forall i :: 0 <= i < |log| && log[i].Fenced? ==> log[i].at + grace <= log[i].expiry
  }

  ghost predicate Safe(w: Worker) {
    && LogOk(w.log)
    && (w.monitor.fences > 0 <==> exists i :: 0 <= i < |w.log| && w.log[i].Fenced?)
    && (w.monitor.fences > 0 ==> w.monitor.stopped && w.aborted)
    && ((exists i :: 0 <= i < |w.log| && w.log[i].StopCalled?) ==> w.monitor.stopped)
    && (w.monitor.stopped ==> w.monitor.deadline.None?)
  }

  /** While the worker may act, the clock is within its deadline, and the deadline
      stays the grace period inside the database lease. */
  ghost predicate Mirrors(w: Worker) {
    var m := w.monitor;
    && 0 <= m.grace
    && w.confirmed + m.lease <= w.expiry
    && (!m.stopped ==> m.deadline == Some(w.confirmed + m.lease - m.grace) && w.now <= w.confirmed + m.lease - m.grace)
    && (m.attempt.Some? ==> w.confirmed <= m.attempt.value <= w.now)
    && (m.attempt.Some? && w.renewed ==> m.attempt.value + m.lease <= w.expiry)
    && w.confirmed <= w.now
  }

  lemma {:induction false} AppendEvent(log: seq<Event>, e: Event)
    requires LogOk(log)
    requires e.Fenced? ==> forall i :: 0 <= i < |log| ==> !log[i].Fenced? && !log[i].StopCalled?
    requires e.Invoked? ==> forall i :: 0 <= i < |log| ==> !log[i].Fenced?
    ensures LogOk(log + [e])
  {
  }

  lemma {:induction false} LaunchSafe(lease: int, grace: int, confirmedAt: int, now: int, expiry: int, deviceProxy: bool)
    ensures Safe(Launch(lease, grace, confirmedAt, now, expiry, deviceProxy))
  {
    var w := Launch(lease, grace, confirmedAt, now, expiry, deviceProxy);
    assert w.monitor.fences > 0 ==> w.log[0].Fenced?;
  }

  lemma {:induction false} SettleSafe(w: Worker, m: Monitor)
    requires Safe(w)
    requires m == w.monitor || (!w.monitor.stopped && m.fences == w.monitor.fences + 1 && m.stopped && m.deadline.None?)
    ensures Safe(Settle(w, m))
  {
    if m.fences > w.monitor.fences {
      assert w.monitor.fences == 0;
      AppendEvent(w.log, Fenced(w.now, w.expiry));
      assert Settle(w, m).log[|w.log|].Fenced?;
    }
  }

  lemma {:induction false} SameLogSafe(w: Worker, w': Worker)
    requires Safe(w) && w'.log == w.log && w'.monitor.fences == w.monitor.fences
    requires w'.monitor.stopped == w.monitor.stopped && (w.aborted ==> w'.aborted)
    requires w'.monitor.stopped ==> w'.monitor.deadline.None?
    ensures Safe(w')
  {
  }

  lemma {:induction false} StepSafe(w: Worker, s: Step)
    requires Safe(w) && Enabled(w, s)
    ensures Safe(Next(w, s))
  {
    match s {
      case Advance(_) =>
        SameLogSafe(w, Next(w, s));
      case LeaseTimer =>
        SettleSafe(w, Triggered(w.monitor));
      case Tick =>
        SameLogSafe(w, Next(w, s));
      case Renew =>
        SameLogSafe(w, Next(w, s));
      case Return(answer) =>
        var m := Answered(w.monitor, answer, w.now);
        if m.fences > w.monitor.fences {
          SettleSafe(w, m);
          SameLogSafe(Settle(w, m), Next(w, s));
        } else {
          SameLogSafe(w, Next(w, s));
        }
      case Bound =>
        if w.aborted {
          SameLogSafe(w, Next(w, s));
        } else {
          InvokeSafe(w);
        }
      case Signal =>
        SameLogSafe(w, Next(w, s));
      case Stop =>
        StopSafe(w);
    }
  }

  lemma {:induction false} InvokeSafe(w: Worker)
    requires Safe(w) && !w.aborted
    ensures Safe(w.(phase := Parked, log := w.log + [Invoked(w.now)]))
  {
  }

  lemma {:induction false} StopSafe(w: Worker)
    requires Safe(w)
    ensures Safe(w.(monitor := Stopped(w.monitor), log := w.log + [StopCalled(w.now)]))
  {
    AppendEvent(w.log, StopCalled(w.now));
    var log := w.log + [StopCalled(w.now)];
    assert forall i :: 0 <= i < |w.log| ==> log[i] == w.log[i];
  }

  lemma {:induction false} StepMirrors(w: Worker, s: Step)
    requires Mirrors(w) && Enabled(w, s)
    ensures Mirrors(Next(w, s))
    ensures Next(w, s).monitor.grace == w.monitor.grace && Next(w, s).monitor.lease == w.monitor.lease
    ensures w.expiry <= Next(w, s).expiry
  {
  }

  lemma {:induction false} StepFencesInTime(w: Worker, s: Step)
    requires Mirrors(w) && Enabled(w, s) && FencedInTime(w.log, w.monitor.grace)
    ensures FencedInTime(Next(w, s).log, w.monitor.grace)
  {
  }

  /** The local deadline never moves backwards. */
  lemma {:induction false} DeadlineOnlyMovesForward(w: Worker, s: Step)
    requires Mirrors(w) && Enabled(w, s)
    requires w.monitor.deadline.Some? && Next(w, s).monitor.deadline.Some?
    ensures w.monitor.stopped || w.monitor.deadline.value <= Next(w, s).monitor.deadline.value
  {
  }

  // ------------------------------------------------------- theorems on runs

  /** On every run: the fence fires at most once and never after stop, and execute
      or park is never invoked after it. */
  lemma {:induction false} FenceSafety(w: Worker, steps: seq<Step>)
    requires Safe(w) && Run(w, steps).Some?
    ensures Safe(Run(w, steps).value)
    decreases |steps|
  {
    if steps != [] {
      StepSafe(w, steps[0]);
      FenceSafety(Next(w, steps[0]), steps[1..]);
    }
  }

  /** The same from the launch of any job, in time or not. */
  lemma {:induction false} FenceOnceFromLaunch(lease: int, grace: int, confirmedAt: int, now: int, expiry: int,
                                               deviceProxy: bool, steps: seq<Step>)
    requires Run(Launch(lease, grace, confirmedAt, now, expiry, deviceProxy), steps).Some?
    ensures LogOk(Run(Launch(lease, grace, confirmedAt, now, expiry, deviceProxy), steps).value.log)
  {
    LaunchSafe(lease, grace, confirmedAt, now, expiry, deviceProxy);
    FenceSafety(Launch(lease, grace, confirmedAt, now, expiry, deviceProxy), steps);
  }

  /** Over whole runs: a deadline still armed is no earlier than any armed before it. */
  lemma {:induction false} DeadlineNeverMovesBack(w: Worker, steps: seq<Step>)
    requires Mirrors(w) && Safe(w) && Run(w, steps).Some?
    requires w.monitor.deadline.Some? && Run(w, steps).value.monitor.deadline.Some?
    ensures w.monitor.deadline.value <= Run(w, steps).value.monitor.deadline.value
    decreases |steps|
  {
    if steps != [] {
      var mid := Next(w, steps[0]);
      StepSafe(w, steps[0]);
      StepMirrors(w, steps[0]);
      if mid.monitor.stopped {
        StoppedStays(mid, steps[1..]);
      } else {
        DeadlineOnlyMovesForward(w, steps[0]);
        DeadlineNeverMovesBack(mid, steps[1..]);
      }
    }
  }

  lemma {:induction false} StoppedStays(w: Worker, steps: seq<Step>)
    requires Safe(w) && w.monitor.stopped && Run(w, steps).Some?
    ensures Run(w, steps).value.monitor.deadline.None?
    decreases |steps|
  {
    if steps != [] {
      StepSafe(w, steps[0]);
      StoppedStays(Next(w, steps[0]), steps[1..]);
    }
  }

  lemma {:induction false} MirrorsOnRuns(w: Worker, steps: seq<Step>)
    requires Mirrors(w) && FencedInTime(w.log, w.monitor.grace) && Run(w, steps).Some?
    ensures var end := Run(w, steps).value;
      Mirrors(end) && FencedInTime(end.log, end.monitor.grace) && end.monitor.grace == w.monitor.grace
    decreases |steps|
  {
    if steps != [] {
      StepMirrors(w, steps[0]);
      StepFencesInTime(w, steps[0]);
      MirrorsOnRuns(Next(w, steps[0]), steps[1..]);
    }
  }

  /** The monitor was started before its first deadline. */
  predicate StartedInTime(lease: int, grace: int, confirmedAt: int, now: int) {
    now <= confirmedAt + lease - ClampGrace(grace, lease)
  }

  /** Starting in time, on every run of delayed, failing or lost heartbeats: the
      fence is triggered at least the grace period before the database lease can
      expire, and until then the lease has at least the grace period left. */
  lemma {:induction false} FenceBeforeExpiry(lease: int, grace: int, confirmedAt: int, now: int, expiry: int,
                                             deviceProxy: bool, steps: seq<Step>)
    requires confirmedAt <= now && confirmedAt + lease <= expiry && StartedInTime(lease, grace, confirmedAt, now)
    requires Run(Launch(lease, grace, confirmedAt, now, expiry, deviceProxy), steps).Some?
    ensures var w := Run(Launch(lease, grace, confirmedAt, now, expiry, deviceProxy), steps).value;
      && FencedInTime(w.log, ClampGrace(grace, lease))
      && (!w.monitor.stopped ==> w.now + ClampGrace(grace, lease) <= w.expiry)
  {
    var w := Launch(lease, grace, confirmedAt, now, expiry, deviceProxy);
    assert FencedInTime(w.log, w.monitor.grace);
    MirrorsOnRuns(w, steps);
  }

  /** Exactly when the launch itself fences, and exactly when that is in time: a late
      launch fences at once, possibly after the lease expired, but starts no work. */
  lemma {:induction false} LateLaunch(lease: int, grace: int, confirmedAt: int, now: int, deviceProxy: bool)
    ensures var w := Launch(lease, grace, confirmedAt, now, confirmedAt + lease, deviceProxy);
      && (w.monitor.fences == 1 <==> confirmedAt + lease - ClampGrace(grace, lease) <= now)
      && (w.monitor.fences == 1 ==> w.phase == Refused && w.log == [Fenced(now, confirmedAt + lease)])
      && (w.monitor.fences != 1 ==> w.phase == (if deviceProxy then Binding else Executing)
                                    && w.log == (if deviceProxy then [] else [Invoked(now)]))
      && (FencedInTime(w.log, ClampGrace(grace, lease)) <==> StartedInTime(lease, grace, confirmedAt, now))
  {
    var w := Launch(lease, grace, confirmedAt, now, confirmedAt + lease, deviceProxy);
    if w.monitor.fences == 1 {
      assert w.log[0] == Fenced(now, confirmedAt + lease);
    }
  }

  /** After a late launch the heartbeat interval stays armed although the monitor is
      stopped, and stop() does not clear it; every later poll does nothing. */
  lemma {:induction false} LateLaunchKeepsInterval(lease: int, grace: int, confirmedAt: int, now: int, later: int)
    requires confirmedAt + lease - ClampGrace(grace, lease) <= now
    ensures var m := Started(lease, grace, confirmedAt, now);
      m.stopped && m.interval && Stopped(m) == m && Polled(m, later) == m
  {
  }

  // ------------------------------------------------- what each step must do

  /** The worker must fence now: its lease timer fires, the database answers anything but
      `running`, or it confirms an attempt whose lease is by now within the grace. */
  predicate MustFence(w: Worker, s: Step) {
    && !w.monitor.stopped
    && (|| (s == LeaseTimer && w.monitor.deadline == Some(w.now))
        || s == Return(OtherStatus)
        || (s == Return(Running) && w.monitor.attempt.Some?
            && w.monitor.attempt.value + w.monitor.lease - w.monitor.grace <= w.now))
  }

  /** The events a step adds are exactly these: a fence when it must fence, an invocation
      when the socket is bound and nothing was aborted, and the call of stop. */
  lemma {:induction false} StepEventsExactly(w: Worker, s: Step)
    requires Enabled(w, s)
    ensures Next(w, s).log == w.log
              + (if MustFence(w, s) then [Fenced(w.now, w.expiry)] else [])
              + (if s == Bound && !w.aborted then [Invoked(w.now)] else [])
              + (if s == Stop then [StopCalled(w.now)] else [])
    ensures MustFence(w, s) ==> Next(w, s).aborted && Next(w, s).monitor.stopped && !Next(w, s).monitor.interval
  {
    assert w.log + [] == w.log;
  }

  /** When polls start and end, and where the deadline goes. */
  lemma {:induction false} StepTimersExactly(w: Worker, s: Step)
    requires Enabled(w, s)
    ensures var m, n := w.monitor, Next(w, s).monitor;
      && n.attempt == (if s.Return? then None
                       else if s == Tick && !m.stopped && m.attempt.None? then Some(w.now) else m.attempt)
      && (!n.stopped ==> n.deadline == if s == Return(Running) then Some(m.attempt.value + m.lease - m.grace) else m.deadline)
      && (n.stopped <==> m.stopped || MustFence(w, s) || s == Stop)
  {
  }

  lemma {:induction false} LogGrows(w: Worker, steps: seq<Step>)
    requires Run(w, steps).Some?
    ensures w.log <= Run(w, steps).value.log
    decreases |steps|
  {
    if steps != [] {
      StepEventsExactly(w, steps[0]);
      LogGrows(Next(w, steps[0]), steps[1..]);
    }
  }

  /** Whenever a worker must fence, it does, and from then on no work is invoked and no
      second fence fires, whatever follows. */
  lemma {:induction false} FenceEndsWork(w: Worker, s: Step, steps: seq<Step>)
    requires Safe(w) && Enabled(w, s) && MustFence(w, s) && Run(Next(w, s), steps).Some?
    ensures var log := Run(Next(w, s), steps).value.log;
      && w.log + [Fenced(w.now, w.expiry)] <= log
      && forall j :: |w.log| < j < |log| ==> !log[j].Invoked? && !log[j].Fenced?
  {
    StepEventsExactly(w, s);
    StepSafe(w, s);
    var next := Next(w, s);
    assert next.log == w.log + [Fenced(w.now, w.expiry)];
    LogGrows(next, steps);
    FenceSafety(next, steps);
    var log := Run(next, steps).value.log;
    assert log[|w.log|] == next.log[|w.log|];
  }

  /** An answer other than `running` fences at once. */
  lemma {:induction false} RevokedAnswerFences(w: Worker, steps: seq<Step>)
    requires Safe(w) && !w.monitor.stopped && w.monitor.attempt.Some?
    requires Run(w, [Return(OtherStatus)] + steps).Some?
    ensures var log := Run(w, [Return(OtherStatus)] + steps).value.log;
      w.log + [Fenced(w.now, w.expiry)] <= log && forall j :: |w.log| < j < |log| ==> !log[j].Invoked?
  {
    assert ([Return(OtherStatus)] + steps)[1..] == steps;
    FenceEndsWork(w, Return(OtherStatus), steps);
  }
}
