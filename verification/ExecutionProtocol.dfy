// Claims, cancels, stops, sweeps and finish reports, interleaved step by step.
//
// Whoever rewrites a document reads it in one step and writes it in a later one.  Claims,
// stops and sweeps hold the file's lock in between; the row pruner and the finish report
// take no lock, so their writes may come between the read and the write of anybody else,
// and everybody writes back what it read, whatever the file holds by then.  Only a cancel
// is one step: it finds a waiting run, which nobody writes without its lock.
module ExecutionProtocol {
  import opened Options
  import opened Executions

  datatype Phase =
    | Counting
    | Pruning(since: Time)                       // at capacity on arrival
    | Scanning
    | Holding(id: Id)                            // locked and re-read as QUEUED
    | HoldingPruning(id: Id, since: Time)        // at capacity under the lock
    | Cleared(id: Id)                            // capacity granted, nothing written yet
    | Written(id: Id)                            // RUNNING on disk, index row not marked yet
    | Returned(handout: Option<Id>)

  datatype Snapshot = Snapshot(id: Id, base: Record)

  datatype Call = Call(
    worker: Worker,
    limit: int,
    phase: Phase,
    found: set<Id>,             // seen QUEUED at some past moment
    stale: set<Id>,             // index rows about to be removed
    orphan: Option<Snapshot>)   // record read by the pruner, not yet overwritten

  // A stop, a sweep's visit or a finish report that has read a document at `since` and is about to rewrite it.
  datatype Edit = Edit(snapshot: Snapshot, event: Event, since: Time)

  datatype Handout = Handout(id: Id, worker: WorkerId, at: Time)

  datatype State = State(
    clock: Time,
    files: map<Id, Record>,
    queuedRows: set<Id>,
    runningRows: map<Id, WorkerId>,
    calls: map<nat, Call>,
    sweeps: map<nat, Time>,
    edits: map<nat, Edit>,
    finished: set<Id>,          // reported final, rows still to be removed
    unindexed: set<Id>,         // created, index row still to be added
    seen: set<Id>,              // identifiers ever used; new ones are fresh UUIDs
    handed: seq<Handout>)

  datatype Step =
    | Tick(to: Time)
    | CreateFile(id: Id, record: Record)
    | CreateRow(id: Id, ok: bool)
    | LoseRow(id: Id)
    | Arrive(c: nat, worker: Worker, limit: int)
    | Count(c: nat)
    | Recount(c: nat)
    | PruneLook(c: nat, id: Id)
    | PruneWrite(c: nat)
    | PruneDrop(c: nat, id: Id)
    | SeeRow(c: nat, id: Id)
    | DropRow(c: nat, id: Id)
    | SeeFile(c: nat, id: Id, ok: bool)
    | Reread(c: nat, id: Id)
    | GiveUp(c: nat)
    | Recheck(c: nat)
    | RecheckAgain(c: nat)
    | Commit(c: nat)
    | Mark(c: nat, ok: bool)
    | CancelFile(id: Id)
    | StopRead(p: nat, id: Id)
    | SweepStart(k: nat)
    | SweepRead(k: nat, p: nat, id: Id)
    | ReportRead(p: nat, id: Id, event: Event)
    | WriteBack(p: nat, at: Time)
    | DropFinished(id: Id, ok: bool)

  predicate Holds(p: Phase, id: Id) {
    p in {Holding(id), Cleared(id), Written(id)} || (p.HoldingPruning? && p.id == id)
  }

  // Everybody but the finish report writes under the file's lock.
  predicate Locks(e: Edit, id: Id) {
    !e.event.Finish? && e.snapshot.id == id
  }

  ghost predicate Locked(s: State, id: Id) {
    || (exists c :: c in s.calls && Holds(s.calls[c].phase, id))
    || (exists p :: p in s.edits && Locks(s.edits[p], id))
  }

  predicate Live(call: Call) {
    !call.phase.Returned?
  }

  predicate HasRoom(s: State, call: Call) {
    |RowsOf(s.runningRows, call.worker.id)| < call.limit
  }

  // A record as the server creates it.
  predicate FreshlyQueued(r: Record, clock: Time) {
    && r.status == Queued && r.createdAt == clock && r.queuedAt == Some(clock) && r.statusUpdatedAt == clock
    && r.startedAt == None && r.cancelRequestedAt == None && r.canceledAt == None && r.cancelReason == None
    && r.finishedAt == None && r.duration == None && r.failure == None && !r.reported
  }

  predicate InPrune(p: Phase) {
    p.Pruning? || p.HoldingPruning?
  }

  ghost predicate Enabled(s: State, step: Step) {
    match step
    case Tick(to) => s.clock <= to
    case CreateFile(id, r) => id !in s.seen && FreshlyQueued(r, s.clock)
    case CreateRow(id, _) => id in s.unindexed
    case LoseRow(id) => id in s.queuedRows
    case Arrive(c, w, _) => c !in s.calls && w.id != ""
    case Count(c) => c in s.calls && s.calls[c].phase.Counting?
    case Recount(c) => c in s.calls && s.calls[c].phase.Pruning?
    case PruneLook(c, id) =>
      && c in s.calls && InPrune(s.calls[c].phase)
      && id in RowsOf(s.runningRows, s.calls[c].worker.id) && id in s.files
      && Fires(Orphan(s.calls[c].worker.id, s.calls[c].phase.since), s.files[id])
    case PruneWrite(c) =>
      && c in s.calls && InPrune(s.calls[c].phase) && s.calls[c].orphan.Some?
      && Fires(Orphan(s.calls[c].worker.id, s.calls[c].phase.since), s.calls[c].orphan.value.base)
    case PruneDrop(c, id) =>
      && c in s.calls && InPrune(s.calls[c].phase)
      && id in RowsOf(s.runningRows, s.calls[c].worker.id)
      && (id in s.files ==> !Fires(Orphan(s.calls[c].worker.id, s.calls[c].phase.since), s.files[id]))
    case SeeRow(c, id) => c in s.calls && s.calls[c].phase.Scanning? && id in s.seen && !Locked(s, id)
    case DropRow(c, id) => c in s.calls && Live(s.calls[c]) && id in s.calls[c].stale
    case SeeFile(c, id, _) =>
      && c in s.calls && s.calls[c].phase.Scanning? && !Locked(s, id)
      && id in s.files && s.files[id].status == Queued
    case Reread(c, id) => c in s.calls && s.calls[c].phase.Scanning? && id in s.calls[c].found && !Locked(s, id)
    case GiveUp(c) => c in s.calls && s.calls[c].phase.Scanning?
    case Recheck(c) => c in s.calls && s.calls[c].phase.Holding?
    case RecheckAgain(c) => c in s.calls && s.calls[c].phase.HoldingPruning?
    case Commit(c) => c in s.calls && s.calls[c].phase.Cleared? && s.calls[c].phase.id in s.files
                      && s.files[s.calls[c].phase.id].status == Queued
    case Mark(c, _) => c in s.calls && s.calls[c].phase.Written?
    case CancelFile(id) => id in s.files && !Locked(s, id) && Fires(Cancel(s.clock), s.files[id])
    case StopRead(p, id) => p !in s.edits && id in s.files && !Locked(s, id) && Fires(Stop(s.clock), s.files[id])
    case SweepStart(k) => k !in s.sweeps
    case SweepRead(k, p, id) => k in s.sweeps && p !in s.edits && id in s.files && !Locked(s, id)
    case ReportRead(p, id, e) =>
      && p !in s.edits && id in s.files && s.files[id].status != Queued
      && e.Finish? && Fires(e, s.files[id])
    case WriteBack(p, at) => p in s.edits && s.edits[p].since <= at <= s.clock
    case DropFinished(id, _) => id in s.finished
  }

  // The one document a step rewrites: which file, by which event, from which reading of it, taken when.
  datatype Write = Write(id: Id, event: Event, base: Record, since: Time)

  function WriteOf(s: State, step: Step): (w: Option<Write>) {
    match step
    case PruneWrite(c) =>
      if c in s.calls && InPrune(s.calls[c].phase) && s.calls[c].orphan.Some?
         && Fires(Orphan(s.calls[c].worker.id, s.calls[c].phase.since), s.calls[c].orphan.value.base) then
        var o := s.calls[c].orphan.value;
        Some(Write(o.id, Orphan(s.calls[c].worker.id, s.calls[c].phase.since), o.base, s.clock))
      else None
    case Commit(c) =>
      if c in s.calls && s.calls[c].phase.Cleared? && s.calls[c].phase.id in s.files then
        Some(Write(s.calls[c].phase.id, Claim(s.calls[c].worker, s.clock), s.files[s.calls[c].phase.id], s.clock))
      else None
    case CancelFile(id) => if id in s.files then Some(Write(id, Cancel(s.clock), s.files[id], s.clock)) else None
    case WriteBack(p, at) =>
      if p in s.edits then
        Some(Write(s.edits[p].snapshot.id, Stamped(s.edits[p].event, at), s.edits[p].snapshot.base, s.edits[p].since))
      else None
    case _ => None
  }

  function FilesAfter(s: State, step: Step): map<Id, Record> {
    if step.CreateFile? then s.files[step.id := step.record]
    else
      var w := WriteOf(s, step);
      if w.Some? && Fires(w.value.event, w.value.base) then
        s.files[w.value.id := Fire(w.value.event, w.value.base)]
      else s.files
  }

  function AfterReread(s: State, call: Call, id: Id): Call {
    if id in s.files && s.files[id].named && s.files[id].status == Queued then
      call.(phase := Holding(id), found := call.found - {id})
    else call.(found := call.found - {id})
  }

  function AfterSeeRow(s: State, call: Call, id: Id): Call {
    if id !in s.files || s.files[id].status != Queued then call.(stale := call.stale + {id})
    else if Satisfies(call.worker, s.files[id].requirements) then call.(found := call.found + {id})
    else call
  }

  // What becomes of the call that takes the step.
  function CallAfter(s: State, call: Call, step: Step): Call {
    match step
    case Count(_) => call.(phase := if HasRoom(s, call) then Scanning else Pruning(s.clock))
    case Recount(_) => call.(phase := if HasRoom(s, call) then Scanning else Returned(None), orphan := None)
    case PruneLook(_, id) => if id in s.files then call.(orphan := Some(Snapshot(id, s.files[id]))) else call
    case PruneWrite(_) => call.(orphan := None)
    case SeeRow(_, id) => AfterSeeRow(s, call, id)
    case DropRow(_, id) => call.(stale := call.stale - {id})
    case SeeFile(_, id, _) =>
      if id in s.files && Satisfies(call.worker, s.files[id].requirements) then call.(found := call.found + {id}) else call
    case Reread(_, id) => AfterReread(s, call, id)
    case GiveUp(_) => call.(phase := Returned(None))
    case Recheck(_) =>
      if !call.phase.Holding? then call
      else call.(phase := if HasRoom(s, call) then Cleared(call.phase.id) else HoldingPruning(call.phase.id, s.clock))
    case RecheckAgain(_) =>
      if !call.phase.HoldingPruning? then call
      else call.(phase := if HasRoom(s, call) then Cleared(call.phase.id) else Scanning, orphan := None)
    case Commit(_) => if call.phase.Cleared? then call.(phase := Written(call.phase.id)) else call
    case Mark(_, _) => if call.phase.Written? then call.(phase := Returned(Some(call.phase.id))) else call
    case _ => call
  }

  function CallOf(step: Step): Option<nat> {
    match step
    case Count(c) => Some(c)
    case Recount(c) => Some(c)
    case PruneLook(c, _) => Some(c)
    case PruneWrite(c) => Some(c)
    case PruneDrop(c, _) => Some(c)
    case SeeRow(c, _) => Some(c)
    case DropRow(c, _) => Some(c)
    case SeeFile(c, _, _) => Some(c)
    case Reread(c, _) => Some(c)
    case GiveUp(c) => Some(c)
    case Recheck(c) => Some(c)
    case RecheckAgain(c) => Some(c)
    case Commit(c) => Some(c)
    case Mark(c, _) => Some(c)
    case _ => None
  }

  function CallsAfter(s: State, step: Step): map<nat, Call> {
    if step.Arrive? then
      s.calls[step.c := Call(step.worker, step.limit, Counting, {}, {}, None)]
    else
      var c := CallOf(step);
      if c.Some? && c.value in s.calls then s.calls[c.value := CallAfter(s, s.calls[c.value], step)] else s.calls
  }

  function QueuedRowsAfter(s: State, step: Step): set<Id> {
    match step
    case CreateRow(id, ok) => if ok then s.queuedRows + {id} else s.queuedRows
    case LoseRow(id) => s.queuedRows - {id}
    case DropRow(_, id) => s.queuedRows - {id}
    case SeeFile(_, id, ok) => if ok then s.queuedRows + {id} else s.queuedRows
    case Mark(c, ok) =>
      if ok && c in s.calls && s.calls[c].phase.Written? then s.queuedRows - {s.calls[c].phase.id} else s.queuedRows
    case DropFinished(id, ok) => if ok then s.queuedRows - {id} else s.queuedRows
    case _ => s.queuedRows
  }

  function RunningRowsAfter(s: State, step: Step): map<Id, WorkerId> {
    match step
    case PruneDrop(_, id) => s.runningRows - {id}
    case Mark(c, ok) =>
      if ok && c in s.calls && s.calls[c].phase.Written? then s.runningRows[s.calls[c].phase.id := s.calls[c].worker.id]
      else s.runningRows
    case DropFinished(id, ok) => if ok then s.runningRows - {id} else s.runningRows
    case _ => s.runningRows
  }

  function HandedAfter(s: State, step: Step): seq<Handout> {
    if step.Commit? && step.c in s.calls && s.calls[step.c].phase.Cleared? then
      s.handed + [Handout(s.calls[step.c].phase.id, s.calls[step.c].worker.id, s.clock)]
    else s.handed
  }

  function SeenAfter(s: State, step: Step): set<Id> {
    if step.CreateFile? then s.seen + {step.id} else s.seen
  }

  function UnindexedAfter(s: State, step: Step): set<Id> {
    match step
    case CreateFile(id, _) => s.unindexed + {id}
    case CreateRow(id, _) => s.unindexed - {id}
    case _ => s.unindexed
  }

  function EditsAfter(s: State, step: Step): map<nat, Edit> {
    match step
    case StopRead(p, id) =>
      if id in s.files then s.edits[p := Edit(Snapshot(id, s.files[id]), Stop(s.clock), s.clock)] else s.edits
    case SweepRead(k, p, id) =>
      if k in s.sweeps && id in s.files && Fires(Sweep(s.sweeps[k]), s.files[id]) then
        s.edits[p := Edit(Snapshot(id, s.files[id]), Sweep(s.sweeps[k]), s.clock)]
      else s.edits
    case ReportRead(p, id, e) => if id in s.files then s.edits[p := Edit(Snapshot(id, s.files[id]), e, s.clock)] else s.edits
    case WriteBack(p, _) => s.edits - {p}
    case _ => s.edits
  }

  function FinishedAfter(s: State, step: Step): set<Id> {
    match step
    case WriteBack(p, _) => if p in s.edits && s.edits[p].event.Finish? then s.finished + {s.edits[p].snapshot.id} else s.finished
    case DropFinished(id, _) => s.finished - {id}
    case _ => s.finished
  }

  function Apply(s: State, step: Step): State {
    State(
      if step.Tick? then step.to else s.clock,
      FilesAfter(s, step),
      QueuedRowsAfter(s, step),
      RunningRowsAfter(s, step),
      CallsAfter(s, step),
      if step.SweepStart? then s.sweeps[step.k := s.clock] else s.sweeps,
      EditsAfter(s, step),
      FinishedAfter(s, step),
      UnindexedAfter(s, step),
      SeenAfter(s, step),
      HandedAfter(s, step))
  }

  // Nothing created yet, nobody polling; the index may hold rows of long gone runs.
  ghost predicate Initial(s: State) {
    && 0.0 < s.clock && s.files == map[] && s.calls == map[] && s.sweeps == map[] && s.edits == map[] && s.finished == {}
    && s.unindexed == {} && s.handed == [] && s.queuedRows <= s.seen && s.runningRows.Keys <= s.seen
  }

  datatype Run = Run(states: seq<State>, steps: seq<Step>)

  ghost predicate ValidRun(r: Run) {
    && |r.states| == |r.steps| + 1
    && Initial(r.states[0])
    && forall i :: 0 <= i < |r.steps| ==> StepAt(r, i)
  }

  ghost predicate StepAt(r: Run, i: nat)
    requires i < |r.steps| && |r.states| == |r.steps| + 1
  {
    Enabled(r.states[i], r.steps[i]) && r.states[i + 1] == Apply(r.states[i], r.steps[i])
  }

  // ----- invariants -----

  ghost predicate SnapshotOk(p: Snapshot, files: map<Id, Record>, clock: Time) {
    && p.id in files && p.base.status != Queued && files[p.id].status != Queued
    && SameClaim(p.base, files[p.id]) && p.base.requirements == files[p.id].requirements && TimesAgree(p.base, clock)
  }

  // What is about to be written back was read, and could be written, at `since`.
  ghost predicate EditOk(e: Edit, files: map<Id, Record>, clock: Time) {
    && SnapshotOk(e.snapshot, files, e.since) && 0.0 < e.since <= clock && Fires(e.event, e.snapshot.base)
    && (e.event.Stop? || e.event.Finish? || (e.event.Sweep? && e.event.now <= e.since))
  }

  ghost predicate CallTimesOk(call: Call, files: map<Id, Record>, clock: Time) {
    && (InPrune(call.phase) ==> call.phase.since <= clock)
    && (call.orphan.Some? ==> SnapshotOk(call.orphan.value, files, clock))
  }

  // Records, and every reading of a record that may still be written back, are consistent.
  ghost predicate RecordsOk(s: State) {
    && 0.0 < s.clock
    && (forall id :: id in s.files ==> TimesAgree(s.files[id], s.clock))
    && (forall k :: k in s.sweeps ==> s.sweeps[k] <= s.clock)
    && (forall c :: c in s.calls ==> CallTimesOk(s.calls[c], s.files, s.clock))
    && (forall p :: p in s.edits ==> EditOk(s.edits[p], s.files, s.clock))
  }

  // Identifiers in use are known.
  ghost predicate IdsOk(s: State) {
    s.files.Keys <= s.seen && s.queuedRows <= s.seen && s.runningRows.Keys <= s.seen && s.unindexed <= s.seen
  }

  ghost predicate MayRun(w: Worker, files: map<Id, Record>, id: Id) {
    id in files && Satisfies(w, files[id].requirements)
  }

  // Up to its write a claim's locked record is still QUEUED, and rows marked for removal belong to no QUEUED run.
  // Whatever it found, and what it holds, it may run.
  ghost predicate CallFilesOk(call: Call, files: map<Id, Record>, seen: set<Id>) {
    && (forall id :: id in call.found || Holds(call.phase, id) ==> MayRun(call.worker, files, id))
    && (forall id :: Holds(call.phase, id) ==> id in files && (files[id].status == Queued <==> !call.phase.Written?))
    && (forall id :: id in call.stale ==> id in seen && !(id in files && files[id].status == Queued))
  }

  ghost predicate OneHolder(calls: map<nat, Call>) {
    forall c, d, id :: c in calls && d in calls && Holds(calls[c].phase, id) && Holds(calls[d].phase, id) ==> c == d
  }

  ghost predicate CallsOk(s: State) {
    && (forall c :: c in s.calls ==> CallFilesOk(s.calls[c], s.files, s.seen))
    && OneHolder(s.calls)
  }

  // Nobody else holds the lock of an edit that locks.
  ghost predicate EditsAlone(calls: map<nat, Call>, edits: map<nat, Edit>) {
    && (forall p, q, id :: p in edits && q in edits && Locks(edits[p], id) && Locks(edits[q], id) ==> p == q)
    && (forall c, p, id :: c in calls && p in edits && Holds(calls[c].phase, id) ==> !Locks(edits[p], id))
  }

  // While a stop is about to be written nobody else has asked for one, and finished runs never run again.
  ghost predicate EditsOk(s: State) {
    && EditsAlone(s.calls, s.edits)
    && (forall p :: p in s.edits && s.edits[p].event.Stop? ==> s.edits[p].snapshot.id in s.files && s.files[s.edits[p].snapshot.id].status != Canceling)
    && (forall id :: id in s.finished ==> id in s.files && s.files[id].status != Queued && s.files[id].status != Running)
  }

  // Every handout matches the record it started, and no run is handed out twice.
  ghost predicate HandoutsOk(handed: seq<Handout>, files: map<Id, Record>) {
    && (forall i :: 0 <= i < |handed| ==>
          && handed[i].id in files && files[handed[i].id].status != Queued
          && files[handed[i].id].startedAt == Some(handed[i].at) && files[handed[i].id].workerId == Some(handed[i].worker))
    && (forall i, j :: 0 <= i < j < |handed| ==> handed[i].id != handed[j].id)
  }

  ghost predicate Inv(s: State) {
    RecordsOk(s) && IdsOk(s) && CallsOk(s) && EditsOk(s) && HandoutsOk(s.handed, s.files)
  }

  // Files and requirements stay, a run that left the queue never returns to it, and its claim stamps stay.
  ghost predicate Evolves(f: map<Id, Record>, f': map<Id, Record>) {
    forall id :: id in f ==>
      && id in f' && f'[id].requirements == f[id].requirements
      && (f[id].status != Queued ==> f'[id].status != Queued && SameClaim(f[id], f'[id]))
  }

  lemma {:induction false} WriteIsSound(s: State, step: Step, w: Write)
    requires RecordsOk(s) && Enabled(s, step) && WriteOf(s, step) == Some(w)
    ensures Fires(w.event, w.base) && w.id in s.files
    ensures TimesAgree(w.base, w.since) && 0.0 < w.since <= s.clock && StampedAt(w.event, w.since, s.clock)
    ensures w.event.Finish? ==> w.base.status != Queued
    ensures w.event.Claim? <==> step.Commit?
    ensures w.base == s.files[w.id] || (w.base.status != Queued && s.files[w.id].status != Queued && SameClaim(w.base, s.files[w.id]))
    ensures w.base.requirements == s.files[w.id].requirements
    ensures !MayOverwrite(w.event) ==> w.base == s.files[w.id]
  {
  }

  lemma {:induction false} StepEvolves(s: State, step: Step)
    requires RecordsOk(s) && IdsOk(s) && Enabled(s, step)
    ensures Evolves(s.files, FilesAfter(s, step))
    ensures forall id :: id in FilesAfter(s, step) ==> TimesAgree(FilesAfter(s, step)[id], s.clock)
  {
    if step.CreateFile? {
      Replaced(s.files, step.id, step.record, FilesAfter(s, step), s.clock);
    } else if WriteOf(s, step).Some? {
      var w := WriteOf(s, step).value;
      WriteEvolves(s, step, w);
      Replaced(s.files, w.id, Fire(w.event, w.base), FilesAfter(s, step), s.clock);
    }
  }

  lemma {:induction false} Replaced(f: map<Id, Record>, id: Id, r: Record, f': map<Id, Record>, clock: Time)
    requires f' == f[id := r]
    requires forall other :: other in f ==> TimesAgree(f[other], clock)
    requires TimesAgree(r, clock)
    requires id in f ==> r.requirements == f[id].requirements
    requires id in f && f[id].status != Queued ==> r.status != Queued && SameClaim(f[id], r)
    ensures Evolves(f, f') && forall other :: other in f' ==> TimesAgree(f'[other], clock)
  {
  }

  lemma {:induction false} WriteEvolves(s: State, step: Step, w: Write)
    requires RecordsOk(s) && Enabled(s, step) && WriteOf(s, step) == Some(w)
    ensures Fires(w.event, w.base) && w.id in s.files && TimesAgree(Fire(w.event, w.base), s.clock)
    ensures Fire(w.event, w.base).requirements == s.files[w.id].requirements
    ensures s.files[w.id].status != Queued ==>
              Fire(w.event, w.base).status != Queued && SameClaim(s.files[w.id], Fire(w.event, w.base))
  {
    WriteIsSound(s, step, w);
    EventsKeepTimes(w.event, w.base, w.since, s.clock);
    if !w.event.Claim? { OnlyClaimStamps(w.event, w.base); }
  }

  // Only a cancel or a claim takes a run out of the queue, and only one that is not locked by another call.
  lemma {:induction false} LeavingTheQueue(s: State, step: Step, id: Id)
    requires RecordsOk(s) && IdsOk(s) && CallsOk(s) && Enabled(s, step)
    requires id in s.files && id in FilesAfter(s, step) && s.files[id].status == Queued && FilesAfter(s, step)[id].status != Queued
    ensures (step == CancelFile(id) && !Locked(s, id)) || (step.Commit? && s.calls[step.c].phase == Cleared(id))
  {
    WriteIsSound(s, step, WriteOf(s, step).value);
  }

  lemma {:induction false} CallsFrame(s: State, step: Step, c: nat)
    requires Enabled(s, step) && c in CallsAfter(s, step)
    ensures CallOf(step) == Some(c) ==> c in s.calls && CallsAfter(s, step)[c] == CallAfter(s, s.calls[c], step)
    ensures CallOf(step) != Some(c) ==>
              || (c in s.calls && CallsAfter(s, step)[c] == s.calls[c])
              || (step.Arrive? && CallsAfter(s, step)[c] == Call(step.worker, step.limit, Counting, {}, {}, None))
  {
  }

  lemma {:induction false} SnapshotKept(p: Snapshot, f: map<Id, Record>, f': map<Id, Record>, clock: Time, clock': Time)
    requires SnapshotOk(p, f, clock) && Evolves(f, f') && clock <= clock'
    ensures SnapshotOk(p, f', clock')
  {
  }

  lemma {:induction false} CallTimesKept(s: State, step: Step, call: Call)
    requires RecordsOk(s) && Enabled(s, step) && CallTimesOk(call, s.files, s.clock)
    requires CallOf(step).Some? && CallOf(step).value in s.calls && s.calls[CallOf(step).value] == call
    ensures CallTimesOk(CallAfter(s, call, step), s.files, s.clock)
  {
    PruneTimesKept(s, step, call);
    OrphanRead(s, step, call);
  }

  lemma {:induction false} PruneTimesKept(s: State, step: Step, call: Call)
    requires InPrune(call.phase) ==> call.phase.since <= s.clock
    ensures InPrune(CallAfter(s, call, step).phase) ==> CallAfter(s, call, step).phase.since <= s.clock
  {
  }

  // A pruner keeps what it has read, drops it, or has just read a record it may fail.
  lemma {:induction false} OrphanRead(s: State, step: Step, call: Call)
    requires Enabled(s, step) && CallOf(step).Some? && CallOf(step).value in s.calls && s.calls[CallOf(step).value] == call
    ensures var orphan := CallAfter(s, call, step).orphan;
            || orphan == call.orphan || orphan == None
            || (step.PruneLook? && step.id in s.files && orphan == Some(Snapshot(step.id, s.files[step.id]))
                && s.files[step.id].status == Running)
  {
  }

  lemma {:induction false} EditStays(s: State, step: Step, p: nat)
    requires Enabled(s, step) && p in s.edits && p in EditsAfter(s, step)
    ensures EditsAfter(s, step)[p] == s.edits[p] && (step.WriteBack? ==> step.p != p)
  {
  }

  // A new edit has just read its file, which this step does not write.
  lemma {:induction false} EditJustRead(s: State, step: Step, p: nat)
    requires Enabled(s, step) && p !in s.edits && p in EditsAfter(s, step)
    ensures var e := EditsAfter(s, step)[p];
            && e.snapshot.id in s.files && e.snapshot.base == s.files[e.snapshot.id] && e.since == s.clock
            && Fires(e.event, e.snapshot.base) && FilesAfter(s, step) == s.files && CallsAfter(s, step) == s.calls && !step.Tick?
            && (Locks(e, e.snapshot.id) ==> !Locked(s, e.snapshot.id))
            && (e.event.Stop? || (e.event.Finish? && e.snapshot.base.status != Queued) || (e.event.Sweep? && e.event.now in s.sweeps.Values))
  {
  }

  lemma {:induction false} EditKept(s: State, step: Step, p: nat)
    requires RecordsOk(s) && Enabled(s, step) && p in EditsAfter(s, step) && Evolves(s.files, FilesAfter(s, step))
    ensures EditOk(EditsAfter(s, step)[p], FilesAfter(s, step), if step.Tick? then step.to else s.clock)
  {
    if p in s.edits {
      EditStays(s, step, p);
      EditFrame(s.edits[p], s.files, FilesAfter(s, step), s.clock, if step.Tick? then step.to else s.clock);
    } else {
      EditJustRead(s, step, p);
    }
  }

  lemma {:induction false} EditFrame(e: Edit, f: map<Id, Record>, f': map<Id, Record>, clock: Time, clock': Time)
    requires EditOk(e, f, clock) && Evolves(f, f') && clock <= clock'
    ensures EditOk(e, f', clock')
  {
  }

  lemma {:induction false} CallTimesStep(s: State, step: Step, c: nat)
    requires RecordsOk(s) && Enabled(s, step) && c in CallsAfter(s, step) && Evolves(s.files, FilesAfter(s, step))
    ensures CallTimesOk(CallsAfter(s, step)[c], FilesAfter(s, step), if step.Tick? then step.to else s.clock)
  {
    CallsFrame(s, step, c);
    if CallOf(step) == Some(c) { CallTimesKept(s, step, s.calls[c]); }
    var call' := CallsAfter(s, step)[c];
    if call'.orphan.Some? {
      SnapshotKept(call'.orphan.value, s.files, FilesAfter(s, step), s.clock, if step.Tick? then step.to else s.clock);
    }
  }

  lemma {:induction false} RecordsKept(s: State, step: Step)
    requires RecordsOk(s) && IdsOk(s) && Enabled(s, step)
    ensures RecordsOk(Apply(s, step))
  {
    StepEvolves(s, step);
    var f', calls', s' := FilesAfter(s, step), CallsAfter(s, step), Apply(s, step);
    forall c | c in calls' ensures CallTimesOk(calls'[c], f', s'.clock) {
      CallTimesStep(s, step, c);
    }
    forall p | p in s'.edits ensures EditOk(s'.edits[p], f', s'.clock) {
      EditKept(s, step, p);
    }
  }

  lemma {:induction false} HandoutsKept(s: State, step: Step)
    requires RecordsOk(s) && IdsOk(s) && HandoutsOk(s.handed, s.files) && Enabled(s, step)
    ensures HandoutsOk(HandedAfter(s, step), FilesAfter(s, step))
  {
    StepEvolves(s, step);
    HandoutsFrame(s.handed, s.files, FilesAfter(s, step));
    if step.Commit? { HandoutAdded(s, step); }
  }

  lemma {:induction false} HandoutsFrame(handed: seq<Handout>, f: map<Id, Record>, f': map<Id, Record>)
    requires HandoutsOk(handed, f) && Evolves(f, f')
    ensures HandoutsOk(handed, f')
  {
  }

  // A commit hands out a run that was waiting, so none of those handed out before.
  lemma {:induction false} HandoutAdded(s: State, step: Step)
    requires HandoutsOk(s.handed, s.files) && HandoutsOk(s.handed, FilesAfter(s, step))
    requires Enabled(s, step) && step.Commit?
    ensures HandoutsOk(HandedAfter(s, step), FilesAfter(s, step))
  {
    var id := s.calls[step.c].phase.id;
    assert FilesAfter(s, step)[id] == Fire(Claim(s.calls[step.c].worker, s.clock), s.files[id]);
  }

  // A step that leaves the held record in the queue leaves the call's view of the files intact.
  lemma {:induction false} CallFilesStable(call: Call, f: map<Id, Record>, f': map<Id, Record>, seen: set<Id>,
                                           seen': set<Id>)
    requires CallFilesOk(call, f, seen) && Evolves(f, f') && seen <= seen'
    requires forall id :: id in f' && id !in f ==> id !in seen
    requires forall id :: Holds(call.phase, id) && f[id].status == Queued ==> f'[id].status == Queued
    ensures CallFilesOk(call, f', seen')
  {
  }

  lemma {:induction false} OwnMoveKept(s: State, step: Step, call: Call)
    requires CallFilesOk(call, s.files, s.seen) && Enabled(s, step) && !step.Commit?
    requires CallOf(step).Some? && CallOf(step).value in s.calls && s.calls[CallOf(step).value] == call
    ensures CallFilesOk(CallAfter(s, call, step), s.files, s.seen)
  {
    FoundAfter(s, step, call);
    HeldAfter(s, step, call);
    StaleAfter(s, step, call);
  }

  // What a call finds it has just seen, or had found before.
  lemma {:induction false} FoundAfter(s: State, step: Step, call: Call)
    requires Enabled(s, step) && CallOf(step).Some? && CallOf(step).value in s.calls && s.calls[CallOf(step).value] == call
    ensures forall id :: id in CallAfter(s, call, step).found ==> id in call.found || MayRun(call.worker, s.files, id)
    ensures CallAfter(s, call, step).worker == call.worker
  {
  }

  lemma {:induction false} HeldAfter(s: State, step: Step, call: Call)
    requires Enabled(s, step) && CallOf(step).Some? && CallOf(step).value in s.calls && s.calls[CallOf(step).value] == call
    requires !step.Commit?
    ensures var phase := CallAfter(s, call, step).phase;
            forall id :: Holds(phase, id) ==>
              || (Holds(call.phase, id) && (phase.Written? <==> call.phase.Written?))
              || (id in call.found && id in s.files && s.files[id].status == Queued && !phase.Written?)
  {
  }

  lemma {:induction false} StaleAfter(s: State, step: Step, call: Call)
    requires Enabled(s, step) && CallOf(step).Some? && CallOf(step).value in s.calls && s.calls[CallOf(step).value] == call
    ensures forall id :: id in CallAfter(s, call, step).stale ==>
              id in call.stale || (id in s.seen && !(id in s.files && s.files[id].status == Queued))
  {
  }

  lemma {:induction false} OthersQueuedStay(s: State, step: Step, c: nat)
    requires RecordsOk(s) && IdsOk(s) && CallsOk(s) && Enabled(s, step) && c in s.calls
    requires step.Commit? ==> step.c != c
    ensures forall id :: Holds(s.calls[c].phase, id) && id in s.files && s.files[id].status == Queued ==>
              id in FilesAfter(s, step) && FilesAfter(s, step)[id].status == Queued
  {
    StepEvolves(s, step);
    forall id | Holds(s.calls[c].phase, id) && id in s.files && s.files[id].status == Queued
      ensures FilesAfter(s, step)[id].status == Queued
    {
      if FilesAfter(s, step)[id].status != Queued { LeavingTheQueue(s, step, id); }
    }
  }

  lemma {:induction false} QueueKept(s: State, step: Step)
    requires RecordsOk(s) && IdsOk(s) && CallsOk(s) && Enabled(s, step) && !step.Commit? && !step.CancelFile?
    ensures forall id :: id in s.files && s.files[id].status == Queued ==>
              id in FilesAfter(s, step) && FilesAfter(s, step)[id].status == Queued
  {
    StepEvolves(s, step);
    forall id | id in s.files && s.files[id].status == Queued ensures FilesAfter(s, step)[id].status == Queued {
      if FilesAfter(s, step)[id].status != Queued { LeavingTheQueue(s, step, id); }
    }
  }

  lemma {:induction false} NewFilesAreFresh(s: State, step: Step)
    requires RecordsOk(s) && IdsOk(s) && Enabled(s, step)
    ensures forall id :: id in FilesAfter(s, step) && id !in s.files ==> id !in s.seen && step.CreateFile? && step.id == id
  {
    if WriteOf(s, step).Some? { WriteIsSound(s, step, WriteOf(s, step).value); }
  }

  lemma {:induction false} CommitMove(s: State, step: Step, call: Call)
    requires Enabled(s, step) && step.Commit? && s.calls[step.c] == call && Evolves(s.files, FilesAfter(s, step))
    requires CallFilesOk(call, s.files, s.seen)
    ensures CallFilesOk(CallAfter(s, call, step), FilesAfter(s, step), s.seen)
  {
    var id, f' := call.phase.id, FilesAfter(s, step);
    assert f' == s.files[id := Fire(Claim(call.worker, s.clock), s.files[id])];
    forall other | other in call.found || other == id ensures MayRun(call.worker, f', other) {
      assert MayRun(call.worker, s.files, other);
    }
    assert CallAfter(s, call, step) == call.(phase := Written(id));
  }

  lemma {:induction false} CallFilesKept(s: State, step: Step, c: nat)
    requires RecordsOk(s) && IdsOk(s) && CallsOk(s) && Enabled(s, step) && c in CallsAfter(s, step)
    ensures CallFilesOk(CallsAfter(s, step)[c], FilesAfter(s, step), SeenAfter(s, step))
  {
    CallsFrame(s, step, c);
    if CallOf(step) == Some(c) {
      MoverKept(s, step, c);
    } else if c in s.calls {
      BystanderKept(s, step, c);
    }
  }

  lemma {:induction false} MoverKept(s: State, step: Step, c: nat)
    requires RecordsOk(s) && IdsOk(s) && CallsOk(s) && Enabled(s, step) && c in s.calls && CallOf(step) == Some(c)
    ensures CallFilesOk(CallAfter(s, s.calls[c], step), FilesAfter(s, step), SeenAfter(s, step))
  {
    StepEvolves(s, step);
    if step.Commit? {
      CommitMove(s, step, s.calls[c]);
    } else {
      OwnMoveKept(s, step, s.calls[c]);
      QueueKept(s, step);
      NewFilesAreFresh(s, step);
      CallFilesStable(CallAfter(s, s.calls[c], step), s.files, FilesAfter(s, step), s.seen, SeenAfter(s, step));
    }
  }

  lemma {:induction false} BystanderKept(s: State, step: Step, c: nat)
    requires RecordsOk(s) && IdsOk(s) && CallsOk(s) && Enabled(s, step) && c in s.calls && CallOf(step) != Some(c)
    ensures CallFilesOk(s.calls[c], FilesAfter(s, step), SeenAfter(s, step))
  {
    StepEvolves(s, step);
    OthersQueuedStay(s, step, c);
    NewFilesAreFresh(s, step);
    CallFilesStable(s.calls[c], s.files, FilesAfter(s, step), s.seen, SeenAfter(s, step));
  }

  lemma {:induction false} CallsKept(s: State, step: Step)
    requires RecordsOk(s) && IdsOk(s) && CallsOk(s) && Enabled(s, step)
    ensures CallsOk(Apply(s, step))
  {
    var calls' := CallsAfter(s, step);
    forall c | c in calls' ensures CallFilesOk(calls'[c], FilesAfter(s, step), SeenAfter(s, step)) {
      CallFilesKept(s, step, c);
    }
    OneHolderKept(s, step);
  }

  lemma {:induction false} OneHolderKept(s: State, step: Step)
    requires OneHolder(s.calls) && Enabled(s, step)
    ensures OneHolder(CallsAfter(s, step))
  {
    var calls' := CallsAfter(s, step);
    forall c, d, id | c in calls' && d in calls' && Holds(calls'[c].phase, id) && Holds(calls'[d].phase, id) ensures c == d {
      HolderKept(s, step, c, id);
      HolderKept(s, step, d, id);
    }
  }

  lemma {:induction false} HolderKept(s: State, step: Step, c: nat, id: Id)
    requires Enabled(s, step) && c in CallsAfter(s, step) && Holds(CallsAfter(s, step)[c].phase, id)
    ensures c in s.calls && (Holds(s.calls[c].phase, id) || (step == Reread(c, id) && !Locked(s, id)))
  {
    CallsFrame(s, step, c);
  }

  lemma {:induction false} RowsKnown(s: State, step: Step)
    requires IdsOk(s) && Enabled(s, step)
    ensures QueuedRowsAfter(s, step) <= s.seen && UnindexedAfter(s, step) <= SeenAfter(s, step)
  {
  }

  lemma {:induction false} RunningRowsKnown(s: State, step: Step)
    requires IdsOk(s) && CallsOk(s) && Enabled(s, step)
    ensures RunningRowsAfter(s, step).Keys <= s.seen
  {
    if step.Mark? { assert Holds(s.calls[step.c].phase, s.calls[step.c].phase.id); }
  }

  lemma {:induction false} IdsKept(s: State, step: Step)
    requires RecordsOk(s) && IdsOk(s) && CallsOk(s) && Enabled(s, step)
    ensures IdsOk(Apply(s, step))
  {
    NewFilesAreFresh(s, step);
    RowsKnown(s, step);
    RunningRowsKnown(s, step);
  }

  lemma {:induction false} EditsStayAlone(s: State, step: Step)
    requires EditsAlone(s.calls, s.edits) && Enabled(s, step)
    ensures EditsAlone(CallsAfter(s, step), EditsAfter(s, step))
  {
    var calls', edits' := CallsAfter(s, step), EditsAfter(s, step);
    forall p, q, id | p in edits' && q in edits' && Locks(edits'[p], id) && Locks(edits'[q], id) ensures p == q {
      if p != q { LockersDiffer(s, step, p, q, id); }
    }
    forall c, p, id | c in calls' && p in edits' && Holds(calls'[c].phase, id) ensures !Locks(edits'[p], id) {
      HolderKept(s, step, c, id);
      if p in s.edits { EditStays(s, step, p); } else { EditJustRead(s, step, p); }
    }
  }

  lemma {:induction false} LockersDiffer(s: State, step: Step, p: nat, q: nat, id: Id)
    requires EditsAlone(s.calls, s.edits) && Enabled(s, step) && p in EditsAfter(s, step) && q in EditsAfter(s, step) && p != q
    ensures !(Locks(EditsAfter(s, step)[p], id) && Locks(EditsAfter(s, step)[q], id))
  {
    if p in s.edits && q in s.edits {
      EditStays(s, step, p);
      EditStays(s, step, q);
    } else if p in s.edits {
      EditStays(s, step, p);
      EditJustRead(s, step, q);
    } else {
      EditJustRead(s, step, p);
      if q in s.edits { EditStays(s, step, q); } else { OneNewEdit(s, step, p, q); }
    }
  }

  lemma {:induction false} OneNewEdit(s: State, step: Step, p: nat, q: nat)
    requires p in EditsAfter(s, step) && q in EditsAfter(s, step) && p !in s.edits && q !in s.edits
    ensures p == q
  {
  }

  // Who makes a run RUNNING or CANCELING.
  lemma {:induction false} LiveWrites(s: State, step: Step, id: Id)
    requires RecordsOk(s) && IdsOk(s) && Enabled(s, step) && id in s.files && FilesAfter(s, step)[id] != s.files[id]
    ensures id in FilesAfter(s, step)
    ensures FilesAfter(s, step)[id].status == Running ==> s.files[id].status == Queued
    ensures FilesAfter(s, step)[id].status == Canceling ==>
              step.WriteBack? && step.p in s.edits && s.edits[step.p].event.Stop? && s.edits[step.p].snapshot.id == id
  {
    var w := WriteOf(s, step).value;
    WriteIsSound(s, step, w);
    if FilesAfter(s, step)[id].status == Running { OnlyClaimRuns(w.event, w.base); }
    if FilesAfter(s, step)[id].status == Canceling { OnlyStopLingers(w.event, w.base); }
  }

  lemma {:induction false} EditsStayOk(s: State, step: Step)
    requires RecordsOk(s) && IdsOk(s) && EditsOk(s) && Enabled(s, step)
    ensures EditsOk(Apply(s, step))
  {
    EditsStayAlone(s, step);
    forall p | p in EditsAfter(s, step) && EditsAfter(s, step)[p].event.Stop?
      ensures var id := EditsAfter(s, step)[p].snapshot.id; id in FilesAfter(s, step) && FilesAfter(s, step)[id].status != Canceling
    {
      StopStaysAlone(s, step, p);
    }
    forall id | id in FinishedAfter(s, step)
      ensures id in FilesAfter(s, step) && FilesAfter(s, step)[id].status != Queued && FilesAfter(s, step)[id].status != Running
    {
      FinishedStays(s, step, id);
    }
  }

  lemma {:induction false} StopStaysAlone(s: State, step: Step, p: nat)
    requires RecordsOk(s) && IdsOk(s) && EditsOk(s) && Enabled(s, step)
    requires p in EditsAfter(s, step) && EditsAfter(s, step)[p].event.Stop?
    ensures var id := EditsAfter(s, step)[p].snapshot.id;
            id in FilesAfter(s, step) && FilesAfter(s, step)[id].status != Canceling
  {
    if p in s.edits {
      EditStays(s, step, p);
      var id := s.edits[p].snapshot.id;
      assert Locks(s.edits[p], id);
      StepEvolves(s, step);
      if FilesAfter(s, step)[id].status == Canceling {
        LiveWrites(s, step, id);
        assert Locks(s.edits[step.p], id);
      }
    } else {
      EditJustRead(s, step, p);
    }
  }

  lemma {:induction false} FinishedStays(s: State, step: Step, id: Id)
    requires RecordsOk(s) && IdsOk(s) && EditsOk(s) && Enabled(s, step) && id in FinishedAfter(s, step)
    ensures id in FilesAfter(s, step) && FilesAfter(s, step)[id].status != Queued && FilesAfter(s, step)[id].status != Running
  {
    StepEvolves(s, step);
    if id in s.finished {
      if FilesAfter(s, step)[id] != s.files[id] { LiveWrites(s, step, id); }
    } else {
      var w := WriteOf(s, step).value;
      WriteIsSound(s, step, w);
      StatusAfterWrite(w.event, w.base, s.files[id].status);
    }
  }

  lemma {:induction false} StepKeepsInv(s: State, step: Step)
    requires Inv(s) && Enabled(s, step)
    ensures Inv(Apply(s, step))
  {
    RecordsKept(s, step);
    IdsKept(s, step);
    CallsKept(s, step);
    EditsStayOk(s, step);
    HandoutsKept(s, step);
  }

  lemma {:induction false} InvThroughout(r: Run, i: nat)
    requires ValidRun(r) && i < |r.states|
    ensures Inv(r.states[i])
  {
    if i > 0 {
      InvThroughout(r, i - 1);
      assert StepAt(r, i - 1);
      StepKeepsInv(r.states[i - 1], r.steps[i - 1]);
    }
  }

  lemma {:induction false} StepTaken(r: Run, i: nat)
    requires ValidRun(r) && i < |r.steps|
    ensures var s, step, s' := r.states[i], r.steps[i], r.states[i + 1];
            && Enabled(s, step) && s'.clock == (if step.Tick? then step.to else s.clock) && s.clock <= s'.clock
            && s'.files == FilesAfter(s, step) && s'.calls == CallsAfter(s, step)
            && s'.queuedRows == QueuedRowsAfter(s, step) && s'.runningRows == RunningRowsAfter(s, step)
            && s'.seen == SeenAfter(s, step) && s'.handed == HandedAfter(s, step) && s'.edits == EditsAfter(s, step)
  {
    assert StepAt(r, i);
  }

  // One step of a run, by its parts.
  lemma {:induction false} StepParts(r: Run, i: nat)
    requires ValidRun(r) && i < |r.steps|
    ensures Inv(r.states[i]) && Inv(r.states[i + 1])
    ensures var s, step, s' := r.states[i], r.steps[i], r.states[i + 1];
            && Enabled(s, step) && s'.clock == (if step.Tick? then step.to else s.clock) && s.clock <= s'.clock
            && s'.files == FilesAfter(s, step) && s'.calls == CallsAfter(s, step)
            && s'.queuedRows == QueuedRowsAfter(s, step) && s'.runningRows == RunningRowsAfter(s, step)
            && s'.seen == SeenAfter(s, step) && s'.handed == HandedAfter(s, step) && s'.edits == EditsAfter(s, step)
  {
    StepTaken(r, i);
    InvThroughout(r, i);
    InvThroughout(r, i + 1);
  }
}
