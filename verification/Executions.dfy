// One execution record and everything that may happen to it.
//
// A record is the JSON document of one run.  Every writer in the server is one
// of six events; each has a guard (the checks the code makes on the record it
// has read) and an effect (the fields it rewrites).  Both the imperative
// server and the interleaving protocol are built from these events.
module Executions {
  import opened Options

  type Id = string
  type WorkerId = string
  type Time = real

  // The rows that count against a worker's capacity.
  function RowsOf(rows: map<Id, WorkerId>, w: WorkerId): set<Id> {
    set id | id in rows && rows[id] == w
  }

  datatype Status = Queued | Running | Canceling | Canceled | Success | Failed

  predicate IsFinal(s: Status) {
    s == Canceled || s == Success || s == Failed
  }

  // The transition table of the store; staying put is always allowed.
  predicate MayMove(from: Status, to: Status) {
    || from == to
    || (from == Queued && to in {Running, Canceled})
    || (from == Running && to in {Success, Failed, Canceling})
    || (from == Canceling && to in {Canceled, Failed})
  }

  function Rank(s: Status): nat {
    match s
    case Queued => 3
    case Running => 2
    case Canceling => 1
    case _ => 0
  }

  datatype CancelReason = ByUser | ByTimeout

  // Which writer last explained a failure: the sweep, the row pruner, or a worker's own report.
  datatype FailureCause = TimedOut | Orphaned | Reported

  datatype Requirements = Requirements(pinnedTo: Option<WorkerId>, tags: set<string>, capabilities: map<string, string>)

  datatype Worker = Worker(id: WorkerId, name: string, registeredTags: set<string>,
                           tags: set<string>, capabilities: map<string, string>)

  datatype Record = Record(
    status: Status,
    named: bool,                      // the document carries an "id" field
    project: string,
    createdAt: Time,
    queuedAt: Option<Time>,
    requirements: Requirements,
    workerId: Option<WorkerId>,
    workerName: Option<string>,
    workerTags: set<string>,
    startedAt: Option<Time>,
    cancelRequestedAt: Option<Time>,
    canceledAt: Option<Time>,
    cancelReason: Option<CancelReason>,
    finishedAt: Option<Time>,
    duration: Option<int>,
    failure: Option<FailureCause>,
    reported: bool,                   // a worker's finish report has been merged in
    statusUpdatedAt: Time)

  // FIFO key of a queued run.
  function QueuedAt(r: Record): Time {
    if r.queuedAt.Some? then r.queuedAt.value else r.createdAt
  }

  predicate Satisfies(w: Worker, q: Requirements) {
    && (q.pinnedTo.Some? && q.pinnedTo.value != "" && w.id != "" ==> q.pinnedTo.value == w.id)
    && q.tags <= w.tags
    && forall c :: c in q.capabilities ==> c in w.capabilities && w.capabilities[c] == q.capabilities[c]
  }

  // Who may run it, requirement by requirement. Pinning binds only if both sides have a name.
  lemma {:induction false} SatisfiesEach(w: Worker, q: Requirements)
    ensures Satisfies(w, q) <==>
              && (q.pinnedTo == None || q.pinnedTo == Some("") || w.id == "" || q.pinnedTo == Some(w.id))
              && (forall tag :: tag in q.tags ==> tag in w.tags)
              && (forall name :: name in q.capabilities ==> name in w.capabilities && w.capabilities[name] == q.capabilities[name])
  {
  }

  // Python's int() truncates towards zero.
  function Truncate(x: real): int {
    if x >= 0.0 then x.Floor else -((-x).Floor)
  }

  const MAX_AGE_MINUTES: real := 30.0
  const MAX_CANCEL_MINUTES: real := 5.0

  // A JSON number is false when absent or zero.
  predicate Truthy(t: Option<Time>) {
    t.Some? && t.value != 0.0
  }

  datatype Event =
    | Claim(worker: Worker, at: Time)
    | Cancel(at: Time)
    | Stop(at: Time)
    | Sweep(now: Time)
    | Orphan(owner: WorkerId, now: Time)
    | Finish(owner: WorkerId, outcome: Status, finished: Time, given: Option<int>, error: bool, at: Time)

  predicate TimedOutAt(r: Record, now: Time) {
    r.status == Running && Truthy(r.startedAt) && (now - r.startedAt.value) / 60.0 > MAX_AGE_MINUTES
  }

  predicate CancelExpiredAt(r: Record, now: Time) {
    r.status == Canceling && Truthy(r.cancelRequestedAt)
    && (now - r.cancelRequestedAt.value) / 60.0 > MAX_CANCEL_MINUTES
  }

  // The checks a writer makes on the record it has read.
  predicate Fires(e: Event, r: Record) {
    match e
    case Claim(_, _) => r.status == Queued
    case Cancel(_) => r.status == Queued
    case Stop(_) => r.status == Running
    case Sweep(now) => TimedOutAt(r, now) || CancelExpiredAt(r, now)
    case Orphan(owner, _) => r.status == Running && (r.workerId == None || r.workerId == Some("") || r.workerId == Some(owner))
    case Finish(owner, outcome, _, _, _, _) =>
      && IsFinal(outcome) && MayMove(r.status, outcome)
      && (r.workerId == None || r.workerId == Some("") || r.workerId == Some(owner))
  }

  function ElapsedSince(start: Option<Time>, now: Time): Option<int> {
    if Truthy(start) then Some(Truncate(now - start.value)) else None
  }

  // The document a writer leaves behind.
  function Fire(e: Event, r: Record): Record
    requires Fires(e, r)
  {
    match e
    case Claim(w, at) =>
      r.(status := Running, startedAt := Some(at), statusUpdatedAt := at,
         workerId := Some(w.id), workerName := Some(w.name), workerTags := w.registeredTags)
    case Cancel(at) =>
      r.(status := Canceled, canceledAt := Some(at), cancelReason := Some(ByUser), statusUpdatedAt := at)
    case Stop(at) =>
      r.(status := Canceling, cancelRequestedAt := Some(at), statusUpdatedAt := at)
    case Sweep(now) =>
      if r.status == Running then
        r.(status := Failed, finishedAt := Some(now), duration := ElapsedSince(r.startedAt, now),
           failure := Some(TimedOut), statusUpdatedAt := now)
      else
        var c := r.(status := Canceled, canceledAt := Some(now), cancelReason := Some(ByTimeout), statusUpdatedAt := now);
        if Truthy(r.startedAt) then
          c.(duration := ElapsedSince(r.startedAt, now), finishedAt := Some(now))
        else c
    case Orphan(_, now) =>
      var start := if Truthy(r.startedAt) then r.startedAt.value else now;
      var elapsed := Truncate(now - start);
      r.(status := Failed, finishedAt := Some(now), statusUpdatedAt := now,
         duration := Some(if elapsed < 0 then 0 else elapsed),
         failure := if r.failure.Some? then r.failure else Some(Orphaned))
    case Finish(_, outcome, finished, given, error, at) =>
      var start := if Truthy(r.startedAt) then r.startedAt else Some(r.createdAt);
      var elapsed := if given.Some? then given
                     else if Truthy(start) && finished != 0.0 then ElapsedSince(start, finished)
                     else r.duration;
      var merged := r.(finishedAt := Some(finished), duration := elapsed, reported := true,
                       failure := if error then Some(Reported) else r.failure);
      if outcome == r.status then merged
      else if outcome == Canceled then
        merged.(status := Canceled, statusUpdatedAt := at, canceledAt := Some(at), cancelReason := Some(ByUser))
      else
        merged.(status := outcome, statusUpdatedAt := at)
  }

  // ----- what one event does -----

  // The table is what the code consults; every event obeys it.
  lemma {:induction false} EventsFollowTransitionTable(e: Event, r: Record)
    requires Fires(e, r)
    ensures MayMove(r.status, Fire(e, r).status)
    ensures Fire(e, r).status == r.status ==> e.Finish? && IsFinal(r.status)
    ensures Fire(e, r).status != r.status ==> Rank(Fire(e, r).status) < Rank(r.status)
  {
  }

  // Everything a claim stamps on the record.
  predicate SameClaim(a: Record, b: Record) {
    a.startedAt == b.startedAt && a.workerId == b.workerId && a.workerName == b.workerName && a.workerTags == b.workerTags
  }

  // Claims and cancels replace a waiting document, which nobody writes without its lock. All others may find, when
  // they write, that the document they read has been replaced.
  predicate MayOverwrite(e: Event) {
    !e.Claim? && !e.Cancel?
  }

  // The final status a write leaves, if it is not a stop.
  function Outcome(e: Event, base: Record): Status
    requires !e.Stop? && !e.Claim?
  {
    match e
    case Cancel(_) => Canceled
    case Sweep(_) => if base.status == Running then Failed else Canceled
    case Orphan(_, _) => Failed
    case Finish(_, outcome, _, _, _, _) => outcome
  }

  // Where a write leaves the status, next to the status cur of the document it replaces.
  lemma {:induction false} StatusAfterWrite(e: Event, base: Record, cur: Status)
    requires Fires(e, base) && (!MayOverwrite(e) ==> base.status == cur)
    requires base.status == Queued <==> cur == Queued
    requires e.Finish? ==> base.status != Queued
    ensures IsFinal(cur) ==>
              && (IsFinal(Fire(e, base).status) <==> !e.Stop?)
              && (Fire(e, base).status != cur <==> e.Stop? || Outcome(e, base) != cur)
    ensures !IsFinal(cur) && Fire(e, base).status != cur ==> Rank(Fire(e, base).status) < Rank(cur)
    ensures Fire(e, base).status == if e.Claim? then Running else if e.Stop? then Canceling else Outcome(e, base)
  {
  }

  // The status time a write leaves: its stamp, or what it read when it repeats the status.
  function TimeLeft(e: Event, base: Record): Time {
    if e.Finish? && e.outcome == base.status then base.statusUpdatedAt else Stamp(e)
  }

  lemma {:induction false} TimeAfterWrite(e: Event, base: Record)
    requires Fires(e, base)
    ensures Fire(e, base).statusUpdatedAt == TimeLeft(e, base)
  {
  }

  // A writer that reads the clock after it has read the document, as a stop and a report do.
  function Stamped(e: Event, at: Time): Event {
    match e
    case Stop(_) => Stop(at)
    case Finish(owner, outcome, finished, given, error, _) => Finish(owner, outcome, finished, given, error, at)
    case _ => e
  }

  function StatusWritten(e: Event, base: Record): Status
    requires !e.Claim?
  {
    if e.Stop? then Canceling else Outcome(e, base)
  }

  lemma {:induction false} StampedWrite(e: Event, at: Time, base: Record)
    requires Fires(e, base) && !e.Claim?
    ensures Fires(Stamped(e, at), base) && Fire(Stamped(e, at), base).status == StatusWritten(e, base)
    ensures IsFinal(StatusWritten(e, base)) <==> !e.Stop?
  {
  }

  // ----- what the events mean for the fields of a record -----

  // d is x in whole seconds, rounded towards zero.
  predicate WholeSeconds(x: real, d: int) {
    if x >= 0.0 then d as real <= x < d as real + 1.0 else d as real - 1.0 < x <= d as real
  }

  // No event touches what a run is, where it waits and what it needs.
  lemma {:induction false} EventsKeepIdentity(e: Event, r: Record)
    requires Fires(e, r)
    ensures var r' := Fire(e, r);
            && r'.named == r.named && r'.project == r.project && r'.requirements == r.requirements
            && r'.createdAt == r.createdAt && r'.queuedAt == r.queuedAt
  {
  }

  // A claim leaves the run RUNNING with the worker it was handed to, started at that moment.
  lemma {:induction false} ClaimOutcome(r: Record, w: Worker, at: Time)
    requires Fires(Claim(w, at), r)
    ensures var r' := Fire(Claim(w, at), r);
            && r.status == Queued && r'.status == Running && r'.startedAt == Some(at) && r'.statusUpdatedAt == at
            && r'.workerId == Some(w.id) && r'.workerName == Some(w.name) && r'.workerTags == w.registeredTags
  {
  }

  // A user cancels a run that waits and asks one that runs to stop, now.
  lemma {:induction false} UserOutcome(r: Record, at: Time)
    ensures Fires(Cancel(at), r) <==> r.status == Queued
    ensures Fires(Stop(at), r) <==> r.status == Running
    ensures Fires(Cancel(at), r) ==>
              var r' := Fire(Cancel(at), r);
              r'.status == Canceled && r'.canceledAt == Some(at) && r'.cancelReason == Some(ByUser) && r'.startedAt == r.startedAt
    ensures Fires(Stop(at), r) ==>
              var r' := Fire(Stop(at), r);
              r'.status == Canceling && r'.cancelRequestedAt == Some(at) && r'.startedAt == r.startedAt && r'.duration == r.duration
  {
  }

  // Both outcomes of a sweep end the run now and measure its duration from its start, not from the stop request.
  lemma {:induction false} SweepOutcome(r: Record, now: Time)
    requires Fires(Sweep(now), r)
    ensures var r' := Fire(Sweep(now), r);
            && r'.status == (if r.status == Running then Failed else Canceled)
            && r'.startedAt == r.startedAt && r'.cancelRequestedAt == r.cancelRequestedAt
            && (r.startedAt.Some? && r.startedAt.value != 0.0 ==>
                  && r'.finishedAt == Some(now) && r'.duration.Some?
                  && WholeSeconds(now - r.startedAt.value, r'.duration.value))
            && (r.status == Running ==> r'.failure == Some(TimedOut))
            && (r.status == Canceling ==> r'.canceledAt == Some(now) && r'.cancelReason == Some(ByTimeout) && r'.failure == r.failure)
  {
  }

  // An orphan ends now, after the time since its start, but never less than nothing.
  lemma {:induction false} OrphanOutcome(r: Record, w: WorkerId, now: Time)
    requires Fires(Orphan(w, now), r) && r.startedAt.Some? && r.startedAt.value != 0.0
    ensures var r' := Fire(Orphan(w, now), r);
            && r'.status == Failed && r'.finishedAt == Some(now) && r'.failure.Some? && r'.duration.Some?
            && (if r.startedAt.value <= now then WholeSeconds(now - r.startedAt.value, r'.duration.value) else r'.duration.value == 0)
  {
  }

  // Which reports are accepted: of the worker the run belongs to, for a status that the run may take next or has.
  lemma {:induction false} ReportAccepted(e: Event, r: Record)
    requires e.Finish?
    ensures Fires(e, r) <==>
              && (r.workerId == None || r.workerId == Some("") || r.workerId == Some(e.owner))
              && (|| (r.status == Running && e.outcome in {Success, Failed})
                  || (r.status == Canceling && e.outcome in {Canceled, Failed})
                  || (r.status == Queued && e.outcome == Canceled)
                  || (r.status in {Success, Failed, Canceled} && e.outcome == r.status))
  {
  }

  // What a report leaves: its outcome and its end, and the duration it gives or that follows from that end.
  lemma {:induction false} ReportOutcome(e: Event, r: Record)
    requires Fires(e, r) && e.Finish?
    ensures var r' := Fire(e, r);
            && r'.status == e.outcome && r'.finishedAt == Some(e.finished)
            && (e.given.Some? ==> r'.duration == e.given)
            && (e.given == None && e.finished != 0.0 && r.startedAt.Some? && r.startedAt.value != 0.0 ==>
                  r'.duration.Some? && WholeSeconds(e.finished - r.startedAt.value, r'.duration.value))
            && (e.given == None && e.finished != 0.0 && r.startedAt == None && r.createdAt != 0.0 ==>
                  r'.duration.Some? && WholeSeconds(e.finished - r.createdAt, r'.duration.value))
            && (e.outcome == Canceled && r.status != Canceled ==> r'.canceledAt == Some(e.at) && r'.cancelReason == Some(ByUser))
            && r'.failure == (if e.error then Some(Reported) else r.failure)
  {
  }

  // ----- what a report can do to a record that is being stopped or is final -----

  // A run that was started and bears a cancel in the user's name.
  predicate UserCanceled(r: Record) {
    r.status == Canceled && r.cancelReason == Some(ByUser) && r.startedAt.Some?
  }

  // A worker confirms the stop of a run.
  predicate Confirms(e: Event, r: Record) {
    e.Finish? && e.outcome == Canceled && r.status == Canceling
  }

  lemma {:induction false} UserCancelIsConfirmed(e: Event, r: Record, clock: Time)
    requires Fires(e, r) && TimesAgree(r, clock) && !UserCanceled(r)
    ensures UserCanceled(Fire(e, r)) <==> Confirms(e, r)
  {
  }

  predicate LastsAtLeast(r: Record, seconds: int) {
    r.duration.Some? && r.duration.value >= seconds
  }

  // The duration a report gives, or that follows from the end it gives, is below the bound.
  predicate ReportsLess(e: Event, r: Record, seconds: int)
    requires e.Finish?
  {
    if e.given.Some? then e.given.value < seconds
    else e.finished != 0.0 && r.startedAt.Some? && Truncate(e.finished - r.startedAt.value) < seconds
  }

  predicate ShortTimeout(r: Record) {
    r.status == Failed && r.failure == Some(TimedOut) && !LastsAtLeast(r, 1800)
  }

  predicate ShortForcedCancel(r: Record) {
    r.status == Canceled && r.cancelReason == Some(ByTimeout) && !LastsAtLeast(r, 300)
  }

  // A timeout ends up below thirty minutes exactly by a late report without an error that says so.
  lemma {:induction false} TimeoutShortened(e: Event, r: Record, clock: Time)
    requires Fires(e, r) && TimesAgree(r, clock) && !ShortTimeout(r)
    requires e.Finish? ==> r.status != Queued
    ensures ShortTimeout(Fire(e, r)) <==> e.Finish? && r.failure == Some(TimedOut) && !e.error && ReportsLess(e, r, 1800)
  {
  }

  // A forced cancel ends up below five minutes exactly by a late report that says so.
  lemma {:induction false} ForcedCancelShortened(e: Event, r: Record, clock: Time)
    requires Fires(e, r) && TimesAgree(r, clock) && !ShortForcedCancel(r)
    requires e.Finish? ==> r.status != Queued
    ensures ShortForcedCancel(Fire(e, r)) <==> e.Finish? && r.cancelReason == Some(ByTimeout) && ReportsLess(e, r, 300)
  {
  }

  lemma {:induction false} OnlyStopLingers(e: Event, r: Record)
    requires Fires(e, r) && Fire(e, r).status == Canceling
    ensures e.Stop?
  {
  }

  lemma {:induction false} OnlyClaimRuns(e: Event, r: Record)
    requires Fires(e, r) && Fire(e, r).status == Running
    ensures e.Claim?
  {
  }

  lemma {:induction false} OnlyClaimStamps(e: Event, r: Record)
    requires Fires(e, r) && !e.Claim?
    ensures SameClaim(r, Fire(e, r))
    ensures r.status != Queued ==> Fire(e, r).status != Queued
  {
  }

  // What the times on a record say about its past, at a moment when the clock shows `clock`.
  ghost predicate TimesAgree(r: Record, clock: Time) {
    && r.statusUpdatedAt <= clock
    && (r.status == Queued ==>
          r.startedAt == None && r.cancelRequestedAt == None && r.cancelReason == None && r.failure == None && !r.reported)
    && (r.status in {Running, Canceling} ==> r.cancelReason == None && r.failure == None && !r.reported)
    && (r.status == Running ==> r.cancelRequestedAt == None && r.startedAt == Some(r.statusUpdatedAt))
    && (r.status == Canceling ==> r.startedAt.Some? && r.cancelRequestedAt == Some(r.statusUpdatedAt))
    && (r.startedAt.Some? ==> 0.0 < r.startedAt.value <= clock)
    && (r.startedAt.Some? && r.failure != Some(Orphaned) && !r.reported ==> r.startedAt.value <= r.statusUpdatedAt)
    && (r.cancelRequestedAt.Some? ==> r.startedAt.Some? && r.startedAt.value <= r.cancelRequestedAt.value)
    // A forced cancel: started, asked to stop, and left alone for more than five minutes.
    && (r.cancelReason == Some(ByTimeout) ==>
          && r.status == Canceled
          && r.startedAt.Some? && r.cancelRequestedAt.Some? && r.canceledAt.Some?
          && r.canceledAt.value - r.cancelRequestedAt.value > 300.0
          && (!r.reported ==> r.duration.Some? && r.duration.value >= 300 && r.finishedAt == r.canceledAt))
    // A cancel in the user's name: either the run never started, or a worker confirmed a stop.
    && (r.cancelReason == Some(ByUser) ==>
          && r.status == Canceled && r.canceledAt.Some?
          && (r.startedAt == None <==> r.cancelRequestedAt == None)
          && (r.startedAt.Some? ==> r.reported))
    && (r.status == Canceled ==> r.cancelReason.Some?)
    // A timeout: more than thirty minutes of running, unless a late report rewrote the figures.
    && (r.failure == Some(TimedOut) ==>
          && r.status == Failed && r.startedAt.Some?
          && (!r.reported ==> r.duration.Some? && r.duration.value >= 1800
                              && r.finishedAt.Some? && r.finishedAt.value - r.startedAt.value > 1800.0))
  }

  // The moment an event stamps on the record.
  function Stamp(e: Event): Time {
    match e
    case Claim(_, at) => at
    case Cancel(at) => at
    case Stop(at) => at
    case Sweep(now) => now
    case Orphan(_, now) => now
    case Finish(_, _, _, _, _, at) => at
  }

  // Sweeps and the row pruner read the clock once, before they visit any record; all others between reading the
  // document, at `since`, and writing it.
  ghost predicate StampedAt(e: Event, since: Time, clock: Time) {
    if e.Sweep? || e.Orphan? then Stamp(e) <= clock else since <= Stamp(e) <= clock
  }

  lemma {:induction false} EventsKeepTimes(e: Event, r: Record, since: Time, clock: Time)
    requires Fires(e, r) && TimesAgree(r, since) && since <= clock
    requires 0.0 < since && StampedAt(e, since, clock)
    requires e.Finish? ==> r.status != Queued
    ensures TimesAgree(Fire(e, r), clock)
  {
  }

  // The sweep may stamp an old reading of the clock, yet only the row pruner can stamp a time before that of the
  // document it read, and it does exactly when its reading is older.
  lemma {:induction false} OnlyLateOrphanGoesBack(e: Event, r: Record, since: Time, clock: Time)
    requires Fires(e, r) && TimesAgree(r, since) && StampedAt(e, since, clock)
    requires e.Finish? ==> r.status != Queued
    ensures Fire(e, r).statusUpdatedAt < r.statusUpdatedAt <==> e.Orphan? && e.now < r.statusUpdatedAt
  {
  }
}
