/** Scheduled occurrences: where the next one falls, and how a due one is handed over
    so that it authorises at most one crawl. Times are epoch milliseconds. */
module ScheduleHandover {
  import opened Basics

  const DAY_MS := 24 * 60 * 60 * 1000
  const WEEK_MS := 7 * DAY_MS
  const MAX_CONSECUTIVE_CRAWL_FAILURES := 5

  /** nextRunFromCron: schedule, timezone and instant to the next run. */
  type Cron = (string, string, int) -> int

  /** A cron expression's next run lies strictly after the instant asked about. */
  ghost predicate StrictlyLater(cron: Cron) {
    forall schedule, timezone, from :: cron(schedule, timezone, from) > from
  }

  datatype Facts = Facts(
    status: string,
    consecutiveFailures: int,
    lastFailureReason: Option<string>,
    schedule: string,
    timezone: string)

  datatype Occurrence = Occurrence(at: int, shouldDispatch: bool)

  predicate Recoverable(status: string) {
    status in {"connected", "connecting", "error", "syncing"}
  }

  predicate AuthFailure(reason: Option<string>) {
    reason == Some("bank_login_failed")
  }

  function PlanNextOccurrence(c: Facts, now: int, cron: Cron): Occurrence {
    if !Recoverable(c.status) then Occurrence(now + DAY_MS, false)
    else if c.consecutiveFailures > MAX_CONSECUTIVE_CRAWL_FAILURES then
      Occurrence(now + (if AuthFailure(c.lastFailureReason) then DAY_MS else WEEK_MS), false)
    else Occurrence(cron(c.schedule, c.timezone, now), true)
  }

  /** Whatever the cron function: a connection that cannot be crawled is looked at again in a
      day, one past five failures in a day after a rejected login and in a week otherwise,
      and any other runs when the cron function, asked about its own schedule in its own
      timezone, says so. A cron function that knows only that question is enough. */
  lemma {:induction false} PlansExactly(c: Facts, now: int, run: int, other: Cron)
    ensures var cron: Cron := (schedule, timezone, from) =>
        if schedule == c.schedule && timezone == c.timezone && from == now then run else other(schedule, timezone, from);
      var plan := PlanNextOccurrence(c, now, cron);
      if c.status !in {"connected", "connecting", "error", "syncing"} then plan == Occurrence(now + 86_400_000, false)
      else if c.consecutiveFailures <= 5 then plan == Occurrence(run, true)
      else if c.lastFailureReason == Some("bank_login_failed") then plan == Occurrence(now + 86_400_000, false)
      else plan == Occurrence(now + 604_800_000, false)
  {
  }

  /** The due record; absent fields are None. */
  datatype Due = Due(
    revision: int,
    next: Option<int>,
    armed: Option<bool>,
    pending: Option<int>,
    pendingDispatch: Option<bool>)

  datatype Schedule = Schedule(deleted: bool, enabled: bool, revision: int)

  /** A wake-up for one occurrence of one schedule revision. */
  datatype Task = Task(revision: int, at: int)

  datatype Advance = Stale | Pending | Finished(shouldDispatch: bool) | Advanced(next: Occurrence)
  datatype Consumption = Dispatch | AdvancedWithoutDispatch | StaleClaim

  /** The claim is about the schedule as it stands. */
  predicate Current(connection: Option<Schedule>, due: Option<Due>, revision: int) {
    && connection.Some? && due.Some?
    && !connection.value.deleted && connection.value.enabled
    && connection.value.revision == revision && due.value.revision == revision
  }

  function DecideScheduleAdvance(task: Task, connection: Option<Schedule>, due: Option<Due>, plan: Occurrence): Advance {
    if !Current(connection, due, task.revision) then Stale
    else if due.value.pending == Some(task.at) then
      if due.value.armed != Some(true) then Pending
      else Finished(due.value.pendingDispatch == Some(true))
    else if due.value.pending.Some? || due.value.armed == Some(false) || due.value.next != Some(task.at) then Stale
    else Advanced(plan)
  }

  function DecideScheduleConsume(task: Task, connection: Option<Schedule>, due: Option<Due>): Consumption {
    if !Current(connection, due, task.revision) || due.value.armed != Some(true) || due.value.pending != Some(task.at)
    then StaleClaim
    else if due.value.pendingDispatch == Some(true) then Dispatch
    else AdvancedWithoutDispatch
  }

  /** The two verdicts agree: a wake-up is told that its schedule was already advanced
      exactly when consuming its marker would succeed, with the same dispatch flag. */
  lemma {:induction false} FinishedIsConsumable(task: Task, connection: Option<Schedule>, due: Option<Due>, plan: Occurrence)
    ensures DecideScheduleAdvance(task, connection, due, plan).Finished? <==> !DecideScheduleConsume(task, connection, due).StaleClaim?
    ensures DecideScheduleAdvance(task, connection, due, plan) == Finished(true) <==> DecideScheduleConsume(task, connection, due).Dispatch?
  {
  }

  /** Exactly which answer a wake-up gets: on a schedule as it stands, it waits for a
      successor committed for it but not armed, is told to consume once that is armed, and
      advances the record that names it when no hand-over is under way; otherwise stale. */
  lemma {:induction false} AnswersExactly(task: Task, connection: Option<Schedule>, due: Option<Due>, plan: Occurrence)
    ensures var answer := DecideScheduleAdvance(task, connection, due, plan);
      var current := connection.Some? && due.Some? && !connection.value.deleted && connection.value.enabled
                     && connection.value.revision == task.revision == due.value.revision;
      && (answer.Pending? <==> current && due.value.pending == Some(task.at) && due.value.armed != Some(true))
      && (answer.Finished? <==> current && due.value.pending == Some(task.at) && due.value.armed == Some(true))
      && (answer.Finished? ==> (answer.shouldDispatch <==> due.value.pendingDispatch == Some(true)))
      && (answer.Advanced? <==>
            current && due.value.pending.None? && due.value.armed != Some(false) && due.value.next == Some(task.at))
      && (answer.Advanced? ==> answer.next == plan)
  {
  }

  /** How long past `now` a plan certainly reaches. */
  function Reach(c: Facts): int {
    if !Recoverable(c.status) then DAY_MS
    else if c.consecutiveFailures > MAX_CONSECUTIVE_CRAWL_FAILURES then
      if AuthFailure(c.lastFailureReason) then DAY_MS else WEEK_MS
    else 1
  }

  /** When the successor falls strictly after the claimed occurrence whatever the
      (strictly later) cron says: exactly when the wake-up is early by less than the
      backoff, and for an occurrence that dispatches, when it is not early at all. */
  lemma {:induction false} SuccessorIsLaterExactly(c: Facts, now: int, claimed: int)
    ensures (forall cron: Cron :: StrictlyLater(cron) ==> PlanNextOccurrence(c, now, cron).at > claimed)
            <==> claimed < now + Reach(c)
    ensures Reach(c) > 0
  {
    var soonest: Cron := (schedule, timezone, from) => from + 1;
    assert StrictlyLater(soonest);
    assert PlanNextOccurrence(c, now, soonest).at == now + Reach(c);
    forall cron: Cron | StrictlyLater(cron) ensures PlanNextOccurrence(c, now, cron).at >= now + Reach(c) {
      assert cron(c.schedule, c.timezone, now) > now;
    }
  }

  // ------------------------------------------------------------- the protocol

  /** A crawl was authorised for one occurrence, with this successor on record. */
  datatype Authorisation = Authorisation(task: Task, successor: Option<int>)

  /** One connection's schedule: its rows, the wake-ups put on the queue so far, and the
      crawls authorised so far. */
  datatype World = World(
    connection: Option<Schedule>,
    due: Option<Due>,
    queued: set<Task>,
    authorised: seq<Authorisation>)

  /** Wake-ups are delivered any number of times in any order, so a step may claim any
      task. Advancing commits the successor unarmed with the pending marker; arming puts
      it on the queue and then records it; consuming clears the marker. */
  datatype Step =
    | Wake(task: Task, now: int, facts: Facts)
    | Enqueue
    | MarkArmed
    | Consume(task: Task)
    | Edit(enable: bool, first: int)
    | Delete

  function Next(w: World, s: Step, cron: Cron): World {
    match s
    case Wake(task, now, facts) =>
      var verdict := DecideScheduleAdvance(task, w.connection, w.due, PlanNextOccurrence(facts, now, cron));
      if verdict.Advanced? then w.(due := Some(Handed(w.due.value, task, verdict.next))) else w
    case Enqueue =>
      if w.due.Some? && w.due.value.next.Some?
      then w.(queued := w.queued + {Task(w.due.value.revision, w.due.value.next.value)}) else w
    case MarkArmed =>
      if w.due.Some? && w.due.value.next.Some? && Task(w.due.value.revision, w.due.value.next.value) in w.queued
      then w.(due := Some(w.due.value.(armed := Some(true)))) else w
    case Consume(task) =>
      var verdict := DecideScheduleConsume(task, w.connection, w.due);
      if verdict.StaleClaim? then w
      else
        var cleared := w.(due := Some(w.due.value.(pending := None, pendingDispatch := None)));
        if verdict.Dispatch?
        then cleared.(authorised := w.authorised + [Authorisation(task, w.due.value.next)]) else cleared
    case Edit(enable, first) =>
      if w.connection.None? then w
      else
        var revision := w.connection.value.revision + 1;
        w.(connection := Some(w.connection.value.(enabled := enable, revision := revision)),
           due := if enable then Some(Due(revision, Some(first), Some(false), None, None)) else None)
    case Delete =>
      if w.connection.None? then w else w.(connection := Some(w.connection.value.(deleted := true)))
  }

  /** The successor committed, unarmed, with the predecessor as the pending marker. */
  function Handed(due: Due, task: Task, next: Occurrence): Due {
    due.(next := Some(next.at), armed := Some(false), pending := Some(task.at), pendingDispatch := Some(next.shouldDispatch))
  }

  function Run(w: World, steps: seq<Step>, cron: Cron): World
    decreases |steps|
  {
    if steps == [] then w else Run(Next(w, steps[0], cron), steps[1..], cron)
  }

  /** A schedule before its first hand-over; the record may predate the arming flag. */
  predicate Start(w: World) {
    && w.authorised == []
    && (w.due.Some? ==>
          && w.due.value.pending.None? && w.due.value.armed != Some(true)
          && w.connection.Some? && w.due.value.revision <= w.connection.value.revision)
  }

  /** The plan dispatches this occurrence instead of backing off. */
  predicate Dispatches(c: Facts) {
    Recoverable(c.status) && c.consecutiveFailures <= MAX_CONSECUTIVE_CRAWL_FAILURES
  }

  /** A wake-up that dispatches is not early, and one that backs off is early by at most
      its backoff. */
  predicate SafeWake(s: Step) {
    s.Wake? ==> s.task.at <= s.now + if Dispatches(s.facts) then 0 else Reach(s.facts)
  }

  // -------------------------------------------------------- arm before dispatch

  predicate ArmedQueued(w: World) {
    w.due.Some? && w.due.value.armed == Some(true) ==>
      w.due.value.next.Some? && Task(w.due.value.revision, w.due.value.next.value) in w.queued
  }

  predicate Backed(w: World, a: Authorisation) {
    a.successor.Some? && Task(a.task.revision, a.successor.value) in w.queued
  }

  predicate AllBacked(w: World) {
    ArmedQueued(w) && forall k :: 0 <= k < |w.authorised| ==> Backed(w, w.authorised[k])
  }

  lemma {:induction false} StepBacked(w: World, s: Step, cron: Cron)
    requires AllBacked(w)
    ensures AllBacked(Next(w, s, cron))
  {
  }

  lemma {:induction false} RunBacked(w: World, steps: seq<Step>, cron: Cron)
    requires AllBacked(w)
    ensures AllBacked(Run(w, steps, cron))
    decreases |steps|
  {
    if steps != [] {
      StepBacked(w, steps[0], cron);
      RunBacked(Next(w, steps[0], cron), steps[1..], cron);
    }
  }

  // ------------------------------------------------------------- at most once

  /** Everything authorised in the record's revision lies before its marker and its next
      occurrence. */
  predicate DueAfter(due: Due, a: Authorisation) {
    a.task.revision == due.revision ==>
      due.next.Some? && a.task.at < due.next.value && (due.pending.Some? ==> a.task.at < due.pending.value)
  }

  /** The marker is not after the next occurrence, and before it if it will dispatch. */
  predicate MarkerBeforeNext(due: Due) {
    due.pending.Some? ==>
      && due.next.Some? && due.pending.value <= due.next.value
      && (due.pendingDispatch == Some(true) ==> due.pending.value < due.next.value)
  }

  predicate Superseded(w: World, a: Authorisation) {
    && w.connection.Some? && a.task.revision <= w.connection.value.revision
    && (w.due.Some? ==> DueAfter(w.due.value, a))
    && a.successor.Some? && a.task.at < a.successor.value
  }

  predicate OnceEach(authorised: seq<Authorisation>) {
    forall i, j :: 0 <= i < j < |authorised| ==> authorised[i].task != authorised[j].task
  }

  predicate Ordered(w: World) {
    && (w.due.Some? ==>
          w.connection.Some? && w.due.value.revision <= w.connection.value.revision && MarkerBeforeNext(w.due.value))
    && (forall k :: 0 <= k < |w.authorised| ==> Superseded(w, w.authorised[k]))
    && OnceEach(w.authorised)
  }

  lemma {:induction false} StepOrdered(w: World, s: Step, cron: Cron)
    requires Ordered(w) && SafeWake(s) && StrictlyLater(cron)
    ensures Ordered(Next(w, s, cron))
  {
  }

  lemma {:induction false} RunOrdered(w: World, steps: seq<Step>, cron: Cron)
    requires Ordered(w) && StrictlyLater(cron) && (forall k :: 0 <= k < |steps| ==> SafeWake(steps[k]))
    ensures Ordered(Run(w, steps, cron))
    decreases |steps|
  {
    if steps != [] {
      assert SafeWake(steps[0]);
      StepOrdered(w, steps[0], cron);
      RunOrdered(Next(w, steps[0], cron), steps[1..], cron);
    }
  }

  /** Hand-over safety: with wake-ups duplicated and reordered, each occurrence of each
      revision authorises at most one crawl, and only when a strictly later successor is
      committed and on the queue. */
  lemma {:induction false} HandOverSafety(w: World, steps: seq<Step>, cron: Cron)
    requires Start(w) && StrictlyLater(cron) && (forall k :: 0 <= k < |steps| ==> SafeWake(steps[k]))
    ensures OnceEach(Run(w, steps, cron).authorised)
    ensures forall k :: 0 <= k < |Run(w, steps, cron).authorised| ==>
              var a := Run(w, steps, cron).authorised[k];
              Backed(Run(w, steps, cron), a) && a.task.at < a.successor.value
  {
    RunBacked(w, steps, cron);
    RunOrdered(w, steps, cron);
    var q := Run(w, steps, cron);
    forall k | 0 <= k < |q.authorised| ensures Backed(q, q.authorised[k]) && q.authorised[k].task.at < q.authorised[k].successor.value {
      assert Superseded(q, q.authorised[k]);
    }
  }

  /** Arming before dispatch needs no assumption about clocks or cron at all. */
  lemma {:induction false} ArmedBeforeDispatch(w: World, steps: seq<Step>, cron: Cron)
    requires Start(w)
    ensures forall k :: 0 <= k < |Run(w, steps, cron).authorised| ==> Backed(Run(w, steps, cron), Run(w, steps, cron).authorised[k])
  {
    RunBacked(w, steps, cron);
  }

  // ------------------------------------------------------------ stopped schedules

  /** Exactly which step authorises a crawl: consuming the marker of an armed hand-over that
      dispatches, on a schedule that is enabled, not deleted and still of that revision. */
  lemma {:induction false} AuthorisesExactly(w: World, s: Step, cron: Cron)
    ensures Next(w, s, cron).authorised == w.authorised ||
            (s.Consume? && Next(w, s, cron).authorised == w.authorised + [Authorisation(s.task, w.due.value.next)])
    ensures Next(w, s, cron).authorised != w.authorised <==>
      && s.Consume? && w.connection.Some? && w.due.Some?
      && !w.connection.value.deleted && w.connection.value.enabled
      && w.connection.value.revision == s.task.revision && w.due.value.revision == s.task.revision
      && w.due.value.armed == Some(true) && w.due.value.pending == Some(s.task.at) && w.due.value.pendingDispatch == Some(true)
  {
  }

  /** The schedule is deleted, or switched off with nothing switching it on again. */
  predicate Off(w: World, steps: seq<Step>) {
    w.connection.Some? &&
    (w.connection.value.deleted || (!w.connection.value.enabled && forall k :: 0 <= k < |steps| && steps[k].Edit? ==> !steps[k].enable))
  }

  /** A deleted or switched-off schedule authorises nothing more. */
  lemma {:induction false} OffAuthorisesNothing(w: World, steps: seq<Step>, cron: Cron)
    requires Off(w, steps)
    ensures Run(w, steps, cron).authorised == w.authorised
    decreases |steps|
  {
    if steps != [] {
      AuthorisesExactly(w, steps[0], cron);
      OffAuthorisesNothing(Next(w, steps[0], cron), steps[1..], cron);
    }
  }

  /** After an edit nothing of an earlier revision is authorised. */
  lemma {:induction false} OldRevisionsAuthoriseNothing(w: World, steps: seq<Step>, cron: Cron, k: nat)
    requires w.connection.Some? && |w.authorised| <= k < |Run(w, steps, cron).authorised|
    ensures Run(w, steps, cron).authorised[k].task.revision >= w.connection.value.revision
    decreases |steps|
  {
    if steps != [] {
      var next := Next(w, steps[0], cron);
      AuthorisesExactly(w, steps[0], cron);
      RevisionsRise(w, steps[0], cron);
      if k < |next.authorised| {
        AuthorisedStays(next, steps[1..], cron, k);
      } else {
        OldRevisionsAuthoriseNothing(next, steps[1..], cron, k);
      }
    }
  }

  lemma {:induction false} RevisionsRise(w: World, s: Step, cron: Cron)
    requires w.connection.Some?
    ensures Next(w, s, cron).connection.Some? && Next(w, s, cron).connection.value.revision >= w.connection.value.revision
  {
  }

  lemma {:induction false} AuthorisedStays(w: World, steps: seq<Step>, cron: Cron, k: nat)
    requires k < |w.authorised|
    ensures k < |Run(w, steps, cron).authorised| && Run(w, steps, cron).authorised[k] == w.authorised[k]
    decreases |steps|
  {
    if steps != [] {
      AuthorisesExactly(w, steps[0], cron);
      AuthorisedStays(Next(w, steps[0], cron), steps[1..], cron, k);
    }
  }

  // ---------------------------------------------------------- unsafe wake-ups

  /** One full hand-over: wake, arm, consume. */
  function Round(task: Task, now: int, facts: Facts): seq<Step> {
    [Wake(task, now, facts), Enqueue, MarkArmed, Consume(task)]
  }

  /** The schedule is enabled and its record is ready to hand this occurrence over. */
  predicate Awaits(w: World, task: Task) {
    && w.connection == Some(Schedule(false, true, task.revision))
    && w.due.Some? && w.due.value.revision == task.revision && w.due.value.next == Some(task.at)
    && w.due.value.pending.None? && w.due.value.armed != Some(false)
  }

  function Awaiting(task: Task): World {
    World(Some(Schedule(false, true, task.revision)), Some(Due(task.revision, Some(task.at), None, None, None)), {}, [])
  }

  lemma {:induction false} RunFour(w: World, a: Step, b: Step, c: Step, d: Step, cron: Cron)
    ensures Run(w, [a, b, c, d], cron) == Next(Next(Next(Next(w, a, cron), b, cron), c, cron), d, cron)
  {
    var w1 := Next(w, a, cron);
    var w2 := Next(w1, b, cron);
    var w3 := Next(w2, c, cron);
    assert [a, b, c, d][1..] == [b, c, d] && [b, c, d][1..] == [c, d] && [c, d][1..] == [d] && [d][1..] == [];
    assert Run(w3, [d], cron) == Next(w3, d, cron);
    assert Run(w2, [c, d], cron) == Run(w3, [d], cron);
    assert Run(w1, [b, c, d], cron) == Run(w2, [c, d], cron);
  }

  /** A round hands over to the planned successor and authorises what the plan dispatches. */
  lemma {:induction false} RoundHandsOver(w: World, task: Task, now: int, facts: Facts, cron: Cron)
    requires Awaits(w, task)
    ensures var plan, q := PlanNextOccurrence(facts, now, cron), Run(w, Round(task, now, facts), cron);
      && Awaits(q, Task(task.revision, plan.at))
      && q.authorised == w.authorised + if plan.shouldDispatch then [Authorisation(task, Some(plan.at))] else []
  {
    RunFour(w, Wake(task, now, facts), Enqueue, MarkArmed, Consume(task), cron);
    var plan := PlanNextOccurrence(facts, now, cron);
    var w1 := Next(w, Wake(task, now, facts), cron);
    assert w1.due == Some(Handed(w.due.value, task, plan));
  }

  lemma {:induction false} RunAppend(w: World, first: seq<Step>, second: seq<Step>, cron: Cron)
    ensures Run(w, first + second, cron) == Run(Run(w, first, cron), second, cron)
    decreases |first|
  {
    if first == [] {
      assert first + second == second;
    } else {
      assert (first + second)[1..] == first[1..] + second;
      RunAppend(Next(w, first[0], cron), first[1..], second, cron);
    }
  }

  /** Next runs at `at`, then at every instant. */
  function NotBefore(at: int): (cron: Cron)
    ensures StrictlyLater(cron)
    ensures forall schedule, timezone, from :: cron(schedule, timezone, from) == if from < at then at else from + 1
  {
    (schedule, timezone, from) => if from < at then at else from + 1
  }

  /** The same occurrence authorised by two rounds is authorised twice. */
  lemma {:induction false} AuthorisedTwice(authorised: seq<Authorisation>, a: Authorisation, b: Authorisation)
    requires authorised == [a, b] && a.task == b.task
    ensures !OnceEach(authorised)
  {
    assert authorised[0].task == authorised[1].task;
  }

  /** A dispatching wake-up before its time plans its own occurrence again. */
  lemma {:induction false} EarlyDispatchRepeats(s: Step)
    requires s.Wake? && Dispatches(s.facts) && !SafeWake(s)
    ensures var round := Round(s.task, s.now, s.facts);
      !OnceEach(Run(Awaiting(s.task), round + round, NotBefore(s.task.at)).authorised)
  {
    var w, cron, round := Awaiting(s.task), NotBefore(s.task.at), Round(s.task, s.now, s.facts);
    assert PlanNextOccurrence(s.facts, s.now, cron) == Occurrence(s.task.at, true);
    var w1 := Run(w, round, cron);
    RoundHandsOver(w, s.task, s.now, s.facts, cron);
    RoundHandsOver(w1, s.task, s.now, s.facts, cron);
    RunAppend(w, round, round, cron);
    var a := Authorisation(s.task, Some(s.task.at));
    AuthorisedTwice(Run(w1, round, cron).authorised, a, a);
  }

  const DAILY := Facts("connected", 0, None, "0 6 * * *", "UTC")

  /** The occurrence a backing-off wake-up falls back to, handed over on time before and
      after that wake-up. */
  function FallBackRun(s: Step): seq<Step>
    requires s.Wake?
  {
    var back := Task(s.task.revision, s.now + Reach(s.facts));
    Round(back, back.at, DAILY) + (Round(s.task, s.now, s.facts) + Round(back, back.at, DAILY))
  }

  /** A backing-off wake-up earlier than its backoff puts the schedule back to an
      occurrence that has been dispatched. */
  lemma {:induction false} EarlyBackoffRepeats(s: Step)
    requires s.Wake? && !Dispatches(s.facts) && !SafeWake(s)
    ensures var back := Task(s.task.revision, s.now + Reach(s.facts));
      !OnceEach(Run(Awaiting(back), FallBackRun(s), NotBefore(s.task.at)).authorised)
  {
    var back, cron := Task(s.task.revision, s.now + Reach(s.facts)), NotBefore(s.task.at);
    var w, again, round := Awaiting(back), Round(back, back.at, DAILY), Round(s.task, s.now, s.facts);
    assert PlanNextOccurrence(DAILY, back.at, cron) == Occurrence(s.task.at, true);
    assert PlanNextOccurrence(s.facts, s.now, cron) == Occurrence(back.at, false);
    RoundHandsOver(w, back, back.at, DAILY, cron);
    var w1 := Run(w, again, cron);
    RoundHandsOver(w1, s.task, s.now, s.facts, cron);
    var w2 := Run(w1, round, cron);
    RoundHandsOver(w2, back, back.at, DAILY, cron);
    RunAppend(w, again, round + again, cron);
    RunAppend(w1, round, again, cron);
    var a := Authorisation(back, Some(s.task.at));
    AuthorisedTwice(Run(w2, again, cron).authorised, a, a);
  }

  /** Every wake-up of the run is safe, except where it is `s` itself. */
  predicate OthersSafe(steps: seq<Step>, s: Step) {
    forall k :: 0 <= k < |steps| ==> steps[k] == s || SafeWake(steps[k])
  }

  ghost predicate AuthorisesOnce(w: World, steps: seq<Step>, cron: Cron) {
    OnceEach(Run(w, steps, cron).authorised)
  }

  /** Delivering this wake-up, however often and amid whatever safe wake-ups, edits and
      deletions, never lets an occurrence authorise two crawls. */
  ghost predicate Harmless(s: Step) {
    forall w, steps, cron: Cron ::
      Start(w) && StrictlyLater(cron) && OthersSafe(steps, s) ==> AuthorisesOnce(w, steps, cron)
  }

  lemma {:induction false} UnsafeBreaks(s: Step) returns (w: World, steps: seq<Step>, cron: Cron)
    requires !SafeWake(s)
    ensures Start(w) && StrictlyLater(cron) && OthersSafe(steps, s) && !AuthorisesOnce(w, steps, cron)
  {
    cron := NotBefore(s.task.at);
    var round := Round(s.task, s.now, s.facts);
    if Dispatches(s.facts) {
      w, steps := Awaiting(s.task), round + round;
      EarlyDispatchRepeats(s);
    } else {
      w, steps := Awaiting(Task(s.task.revision, s.now + Reach(s.facts))), FallBackRun(s);
      EarlyBackoffRepeats(s);
    }
  }

  /** At most one crawl per occurrence, exactly: a wake-up is harmless if and only if it is
      not early when it dispatches, and early by at most its backoff when it does not. */
  lemma {:induction false} HarmlessExactly(s: Step)
    ensures Harmless(s) <==> SafeWake(s)
  {
    if SafeWake(s) {
      forall w, steps, cron: Cron | Start(w) && StrictlyLater(cron) && OthersSafe(steps, s)
        ensures AuthorisesOnce(w, steps, cron)
      {
        HandOverSafety(w, steps, cron);
      }
    } else {
      var w, steps, cron := UnsafeBreaks(s);
    }
  }

  /** For instance, the occurrence at 50 woken at 10, twice. */
  lemma {:induction false} EarlyWakeDispatchesTwice()
    ensures var round := Round(Task(1, 50), 10, DAILY);
      !OnceEach(Run(Awaiting(Task(1, 50)), round + round, NotBefore(50)).authorised)
  {
    EarlyDispatchRepeats(Wake(Task(1, 50), 10, DAILY));
  }
}
