// What holds over whole runs of the execution protocol.
module ExecutionHistory {
  import opened Options
  import opened Executions
  import opened ExecutionProtocol

  // ----- at most one handout -----

  lemma {:induction false} HandoutsGrow(r: Run, i: nat, j: nat)
    requires ValidRun(r) && i <= j < |r.states|
    ensures r.states[i].handed <= r.states[j].handed
  {
    if i < j {
      HandoutsGrow(r, i, j - 1);
      StepTaken(r, j - 1);
    }
  }

  ghost predicate StartsRun(s: State, step: Step, id: Id) {
    step.Commit? && step.c in s.calls && s.calls[step.c].phase == Cleared(id)
  }

  // Whatever the claims saw when they scanned, no two of them start the same execution.
  lemma {:induction false} HandedOutOnce(r: Run, i: nat, j: nat, id: Id)
    requires ValidRun(r) && i < |r.steps| && j < |r.steps|
    requires StartsRun(r.states[i], r.steps[i], id) && StartsRun(r.states[j], r.steps[j], id)
    ensures i == j
  {
    if i < j {
      StartedBefore(r, i, j, id);
    } else if j < i {
      StartedBefore(r, j, i, id);
    }
  }

  // Requirements are checked when a run is found, at any time before, and still hold when it is handed out and after.
  lemma {:induction false} HandoutSatisfies(r: Run, i: nat, j: nat, id: Id)
    requires ValidRun(r) && i < |r.steps| && i <= j < |r.states| && StartsRun(r.states[i], r.steps[i], id)
    ensures id in r.states[j].files && Satisfies(r.states[i].calls[r.steps[i].c].worker, r.states[j].files[id].requirements)
    ensures var w, q := r.states[i].calls[r.steps[i].c].worker, r.states[j].files[id].requirements;
            && (q.pinnedTo == None || q.pinnedTo == Some("") || q.pinnedTo == Some(w.id) || w.id == "")
            && (forall tag :: tag in q.tags ==> tag in w.tags)
            && (forall name :: name in q.capabilities ==> name in w.capabilities && w.capabilities[name] == q.capabilities[name])
  {
    var call := r.states[i].calls[r.steps[i].c];
    InvThroughout(r, i);
    assert CallFilesOk(call, r.states[i].files, r.states[i].seen) && Holds(call.phase, id);
    FilesEvolve(r, i, j);
    SatisfiesEach(call.worker, r.states[j].files[id].requirements);
  }

  lemma {:induction false} HandoutLogged(r: Run, i: nat, id: Id)
    requires ValidRun(r) && i < |r.steps| && StartsRun(r.states[i], r.steps[i], id)
    ensures var before, after := r.states[i].handed, r.states[i + 1].handed;
            |after| == |before| + 1 && before <= after && after[|before|].id == id
  {
    StepParts(r, i);
  }

  lemma {:induction false} StartedBefore(r: Run, i: nat, j: nat, id: Id)
    requires ValidRun(r) && i < j < |r.steps| && StartsRun(r.states[i], r.steps[i], id)
    ensures !StartsRun(r.states[j], r.steps[j], id)
  {
    if StartsRun(r.states[j], r.steps[j], id) {
      HandoutLogged(r, i, id);
      HandoutsGrow(r, i + 1, j);
      HandoutLogged(r, j, id);
      DistinctHandouts(r, j + 1, |r.states[i].handed|, |r.states[j].handed|);
    }
  }

  lemma {:induction false} DistinctHandouts(r: Run, j: nat, a: nat, b: nat)
    requires ValidRun(r) && j < |r.states| && a < b < |r.states[j].handed|
    ensures r.states[j].handed[a].id != r.states[j].handed[b].id
  {
    InvThroughout(r, j);
  }

  lemma {:induction false} StepEffect(r: Run, i: nat)
    requires ValidRun(r) && i < |r.steps|
    ensures var s, s' := r.states[i], r.states[i + 1];
            && Evolves(s.files, s'.files) && s.clock <= s'.clock && s.seen <= s'.seen && s.files.Keys <= s.seen
            && (forall id :: id in s'.files && id !in s.files ==> id !in s.seen)
  {
    StepParts(r, i);
    StepEvolves(r.states[i], r.steps[i]);
    NewFilesAreFresh(r.states[i], r.steps[i]);
  }

  lemma {:induction false} FilesEvolve(r: Run, i: nat, j: nat)
    requires ValidRun(r) && i <= j < |r.states|
    ensures Evolves(r.states[i].files, r.states[j].files)
    ensures r.states[i].clock <= r.states[j].clock
  {
    if i < j {
      FilesEvolve(r, i, j - 1);
      StepEffect(r, j - 1);
    }
  }

  // Once a run has left the queue, the worker and the moment it started at never change again.
  lemma {:induction false} ClaimStampsFrozen(r: Run, i: nat, j: nat, id: Id)
    requires ValidRun(r) && i <= j < |r.states|
    requires id in r.states[i].files && r.states[i].files[id].status != Queued
    ensures id in r.states[j].files && r.states[j].files[id].status != Queued
    ensures r.states[j].files[id].startedAt == r.states[i].files[id].startedAt
    ensures r.states[j].files[id].workerId == r.states[i].files[id].workerId
  {
    FilesEvolve(r, i, j);
  }

  // ----- timestamps -----

  lemma {:induction false} TimestampsThroughout(r: Run, i: nat, id: Id)
    requires ValidRun(r) && i < |r.states| && id in r.states[i].files
    ensures TimesAgree(r.states[i].files[id], r.states[i].clock)
  {
    InvThroughout(r, i);
  }

  // ----- writes over a document that may have changed -----

  // The row pruner writes this file.
  predicate PrunesFile(s: State, step: Step, id: Id) {
    step.PruneWrite? && step.c in s.calls && InPrune(s.calls[step.c].phase)
    && s.calls[step.c].orphan.Some? && s.calls[step.c].orphan.value.id == id
  }

  predicate WritesBack(s: State, step: Step, id: Id) {
    step.WriteBack? && step.p in s.edits && s.edits[step.p].snapshot.id == id
  }

  // A stop request, a sweep or a finish report writes this file.
  predicate StopsFile(s: State, step: Step, id: Id) {
    WritesBack(s, step, id) && s.edits[step.p].event.Stop?
  }

  predicate SweepsFile(s: State, step: Step, id: Id) {
    WritesBack(s, step, id) && s.edits[step.p].event.Sweep?
  }

  predicate ReportsFile(s: State, step: Step, id: Id) {
    WritesBack(s, step, id) && s.edits[step.p].event.Finish?
  }

  lemma {:induction false} WriteLands(s: State, step: Step, id: Id)
    requires IdsOk(s) && Enabled(s, step) && id in s.files
    ensures id in FilesAfter(s, step)
    ensures var w := WriteOf(s, step);
            if w.Some? && w.value.id == id && Fires(w.value.event, w.value.base) then
              FilesAfter(s, step)[id] == Fire(w.value.event, w.value.base)
            else FilesAfter(s, step)[id] == s.files[id]
  {
  }

  // Who writes, and from which reading.
  lemma {:induction false} WriteSource(s: State, step: Step, id: Id)
    requires RecordsOk(s) && Enabled(s, step)
    ensures var w := WriteOf(s, step);
            if w.Some? && w.value.id == id then
              && (PrunesFile(s, step, id) <==> w.value.event.Orphan?)
              && (w.value.event.Orphan? ==> w.value.event.now == s.calls[step.c].phase.since)
              && (WritesBack(s, step, id) <==> w.value.event.Stop? || w.value.event.Sweep? || w.value.event.Finish?)
              && (WritesBack(s, step, id) ==>
                    w.value.event == Stamped(s.edits[step.p].event, step.at) && w.value.base == s.edits[step.p].snapshot.base)
            else !PrunesFile(s, step, id) && !WritesBack(s, step, id)
  {
  }

  // ----- when a status time goes back -----

  // The status time that a stop, sweep or report writes: the reading of the clock it stamps, or what it had read when
  // it repeats the status.
  function TimeWritten(e: Edit, at: Time): Time {
    TimeLeft(Stamped(e.event, at), e.snapshot.base)
  }

  // The pruner's reading of the clock, or the time of whoever writes back, is older than what the file holds.
  predicate TurnsBack(s: State, step: Step, id: Id)
    requires id in s.files
  {
    || (PrunesFile(s, step, id) && s.calls[step.c].phase.since < s.files[id].statusUpdatedAt)
    || (WritesBack(s, step, id) && TimeWritten(s.edits[step.p], step.at) < s.files[id].statusUpdatedAt)
  }

  lemma {:induction false} StatusTimeGoesBack(s: State, step: Step, id: Id)
    requires RecordsOk(s) && IdsOk(s) && Enabled(s, step) && id in s.files
    ensures id in FilesAfter(s, step)
    ensures FilesAfter(s, step)[id].statusUpdatedAt < s.files[id].statusUpdatedAt <==> TurnsBack(s, step, id)
  {
    WriteLands(s, step, id);
    WriteSource(s, step, id);
    var w := WriteOf(s, step);
    if w.Some? && w.value.id == id {
      WriteIsSound(s, step, w.value);
      TimeAfterWrite(w.value.event, w.value.base);
    }
  }

  // From a document that is still current only the pruner turns the time back: a sweep's old reading is minutes past
  // the status it ends, and a stop or report reads the clock after the document.
  lemma {:induction false} OnlyOverwritesTurnBack(s: State, step: Step, id: Id)
    requires RecordsOk(s) && Enabled(s, step) && id in s.files && WritesBack(s, step, id) && TurnsBack(s, step, id)
    ensures s.edits[step.p].snapshot.base != s.files[id]
  {
    var e := s.edits[step.p];
    WriteSource(s, step, id);
    WriteIsSound(s, step, WriteOf(s, step).value);
    TimeAfterWrite(Stamped(e.event, step.at), e.snapshot.base);
    OnlyLateOrphanGoesBack(Stamped(e.event, step.at), e.snapshot.base, e.since, s.clock);
  }

  ghost predicate TimeFalls(r: Run, k: nat, id: Id)
    requires k + 1 < |r.states|
  {
    id in r.states[k].files && id in r.states[k + 1].files
    && r.states[k + 1].files[id].statusUpdatedAt < r.states[k].files[id].statusUpdatedAt
  }

  // In any run, a status time falls at exactly the steps that turn it back.
  lemma {:induction false} StatusTimeFalls(r: Run, k: nat, id: Id)
    requires ValidRun(r) && k < |r.steps| && id in r.states[k].files
    ensures TimeFalls(r, k, id) <==> TurnsBack(r.states[k], r.steps[k], id)
  {
    StepTaken(r, k);
    InvThroughout(r, k);
    StatusTimeGoesBack(r.states[k], r.steps[k], id);
  }

  // Between such steps it never decreases, although sweeps stamp readings of the clock that may be arbitrarily old.
  lemma {:induction false} StatusTimeNeverFalls(r: Run, i: nat, j: nat, id: Id)
    requires ValidRun(r) && i <= j < |r.states| && id in r.states[i].files
    requires forall k :: i <= k < j && id in r.states[k].files ==> !TurnsBack(r.states[k], r.steps[k], id)
    ensures id in r.states[j].files
    ensures r.states[i].files[id].statusUpdatedAt <= r.states[j].files[id].statusUpdatedAt
  {
    if i < j {
      StatusTimeNeverFalls(r, i, j - 1, id);
      FilesEvolve(r, j - 1, j);
      StatusTimeFalls(r, j - 1, id);
    }
  }

  predicate LiveFor(call: Call, w: WorkerId) {
    Live(call) && call.worker.id == w
  }

  // Each worker has at most one call under way.
  ghost predicate OneCallPerWorker(s: State) {
    forall c, d :: c in s.calls && d in s.calls && LiveFor(s.calls[c], s.calls[d].worker.id) && Live(s.calls[d]) ==> c == d
  }

  // A pruning call has read the clock after every run its worker still has RUNNING was started.
  ghost predicate PrunerIsLate(call: Call, files: map<Id, Record>) {
    InPrune(call.phase) ==>
      forall id :: id in files && files[id].status == Running && files[id].workerId == Some(call.worker.id) ==>
        files[id].statusUpdatedAt <= call.phase.since
  }

  ghost predicate OwnedRuns(files: map<Id, Record>) {
    forall id :: id in files && files[id].status == Running ==> files[id].workerId.Some? && files[id].workerId.value != ""
  }

  ghost predicate PrunersLate(s: State) {
    && OwnedRuns(s.files)
    && (forall c :: c in s.calls ==> s.calls[c].worker.id != "" && PrunerIsLate(s.calls[c], s.files))
  }

  // The only way a record becomes RUNNING is a commit.
  lemma {:induction false} BecomesRunning(s: State, step: Step, id: Id)
    requires Inv(s) && Enabled(s, step)
    requires id in FilesAfter(s, step) && FilesAfter(s, step)[id].status == Running
    ensures id in s.files
    ensures s.files[id] == FilesAfter(s, step)[id]
            || (step.Commit? && s.calls[step.c].phase == Cleared(id)
                && FilesAfter(s, step)[id] == Fire(Claim(s.calls[step.c].worker, s.clock), s.files[id]))
  {
    NewFilesAreFresh(s, step);
    var w := WriteOf(s, step);
    if w.Some? && w.value.id == id {
      WriteIsSound(s, step, w.value);
      OnlyClaimRuns(w.value.event, w.value.base);
    }
  }

  // A call that prunes after a step was pruning before with the same reading, or has just read the clock.
  lemma {:induction false} EntersPruneNow(s: State, step: Step, c: nat)
    requires Enabled(s, step) && c in CallsAfter(s, step) && InPrune(CallsAfter(s, step)[c].phase)
    ensures c in s.calls && CallsAfter(s, step)[c].worker == s.calls[c].worker && Live(s.calls[c])
    ensures step.Commit? ==> step.c != c
    ensures CallsAfter(s, step)[c].phase.since == s.clock
            || (InPrune(s.calls[c].phase) && CallsAfter(s, step)[c].phase.since == s.calls[c].phase.since)
  {
    CallsFrame(s, step, c);
  }

  lemma {:induction false} PrunerStaysLate(s: State, step: Step, c: nat, id: Id)
    requires Inv(s) && PrunersLate(s) && OneCallPerWorker(s) && Enabled(s, step)
    requires c in CallsAfter(s, step) && InPrune(CallsAfter(s, step)[c].phase)
    requires id in FilesAfter(s, step) && FilesAfter(s, step)[id].status == Running
    requires FilesAfter(s, step)[id].workerId == Some(CallsAfter(s, step)[c].worker.id)
    ensures FilesAfter(s, step)[id].statusUpdatedAt <= CallsAfter(s, step)[c].phase.since
  {
    EntersPruneNow(s, step, c);
    BecomesRunning(s, step, id);
    if s.files[id] != FilesAfter(s, step)[id] {
      assert LiveFor(s.calls[step.c], s.calls[c].worker.id);
      assert false;
    }
  }

  lemma {:induction false} OwnersStay(s: State, step: Step)
    requires Inv(s) && PrunersLate(s) && Enabled(s, step)
    ensures OwnedRuns(FilesAfter(s, step))
  {
    var f' := FilesAfter(s, step);
    forall id | id in f' && f'[id].status == Running ensures f'[id].workerId.Some? && f'[id].workerId.value != "" {
      BecomesRunning(s, step, id);
    }
  }

  lemma {:induction false} PrunersStayLate(s: State, step: Step)
    requires Inv(s) && PrunersLate(s) && OneCallPerWorker(s) && Enabled(s, step)
    ensures PrunersLate(Apply(s, step))
  {
    OwnersStay(s, step);
    forall c | c in CallsAfter(s, step)
      ensures CallsAfter(s, step)[c].worker.id != "" && PrunerIsLate(CallsAfter(s, step)[c], FilesAfter(s, step))
    {
      CallStaysLate(s, step, c);
    }
  }

  lemma {:induction false} CallerIsNamed(s: State, step: Step, c: nat)
    requires PrunersLate(s) && Enabled(s, step) && c in CallsAfter(s, step)
    ensures CallsAfter(s, step)[c].worker.id != ""
  {
    CallsFrame(s, step, c);
  }

  lemma {:induction false} CallStaysLate(s: State, step: Step, c: nat)
    requires Inv(s) && PrunersLate(s) && OneCallPerWorker(s) && Enabled(s, step) && c in CallsAfter(s, step)
    ensures CallsAfter(s, step)[c].worker.id != "" && PrunerIsLate(CallsAfter(s, step)[c], FilesAfter(s, step))
  {
    CallerIsNamed(s, step, c);
    var call', f' := CallsAfter(s, step)[c], FilesAfter(s, step);
    forall id | InPrune(call'.phase) && id in f' && f'[id].status == Running && f'[id].workerId == Some(call'.worker.id)
      ensures f'[id].statusUpdatedAt <= call'.phase.since
    {
      PrunerStaysLate(s, step, c, id);
    }
  }

  lemma {:induction false} PrunersLateThroughout(r: Run, i: nat)
    requires ValidRun(r) && i < |r.states|
    requires forall k :: 0 <= k < |r.states| ==> OneCallPerWorker(r.states[k])
    ensures PrunersLate(r.states[i])
  {
    if i > 0 {
      PrunersLateThroughout(r, i - 1);
      PrunersLateAfter(r, i - 1);
    }
  }

  lemma {:induction false} PrunersLateAfter(r: Run, i: nat)
    requires ValidRun(r) && i < |r.steps| && PrunersLate(r.states[i]) && OneCallPerWorker(r.states[i])
    ensures PrunersLate(r.states[i + 1])
  {
    InvThroughout(r, i);
    assert StepAt(r, i);
    PrunersStayLate(r.states[i], r.steps[i]);
  }

  lemma {:induction false} OnlyRunningIsPruned(s: State, step: Step, id: Id)
    requires Inv(s) && Enabled(s, step) && PrunesFile(s, step, id)
    ensures id in s.files && SameClaim(s.calls[step.c].orphan.value.base, s.files[id])
    ensures var owner := s.files[id].workerId; owner == None || owner == Some("") || owner == Some(s.calls[step.c].worker.id)
  {
  }

  // A worker that polls from one loop can meet the pruner's old reading on no run that is still RUNNING:
  // a status time then falls exactly when another write came between a read and its write.
  lemma {:induction false} SerialPolling(r: Run, k: nat, id: Id)
    requires ValidRun(r) && k < |r.steps| && id in r.states[k].files
    requires forall i :: 0 <= i < |r.states| ==> OneCallPerWorker(r.states[i])
    ensures var s, step := r.states[k], r.steps[k];
            TimeFalls(r, k, id) <==> TurnsBack(s, step, id) && (PrunesFile(s, step, id) ==> s.files[id].status != Running)
  {
    var s, step := r.states[k], r.steps[k];
    StatusTimeFalls(r, k, id);
    if PrunesFile(s, step, id) {
      StepTaken(r, k);
      InvThroughout(r, k);
      OnlyRunningIsPruned(s, step, id);
      PrunersLateThroughout(r, k);
    }
  }

  // ----- how often a status changes -----

  // A write that replaces a final status by another final one.
  predicate ReplacesFinal(s: State, step: Step, id: Id) {
    id in s.files && IsFinal(s.files[id].status)
    && (|| (PrunesFile(s, step, id) && s.files[id].status != Failed)
        || ((SweepsFile(s, step, id) || ReportsFile(s, step, id))
            && Outcome(s.edits[step.p].event, s.edits[step.p].snapshot.base) != s.files[id].status))
  }

  // A stop that had read the run RUNNING writes over a final status.
  predicate Reopens(s: State, step: Step, id: Id) {
    id in s.files && IsFinal(s.files[id].status) && StopsFile(s, step, id)
  }

  lemma {:induction false} BackWritten(s: State, p: nat, at: Time)
    requires RecordsOk(s) && Enabled(s, WriteBack(p, at))
    ensures var e := s.edits[p];
            && Fires(Stamped(e.event, at), e.snapshot.base)
            && FilesAfter(s, WriteBack(p, at)) == s.files[e.snapshot.id := Fire(Stamped(e.event, at), e.snapshot.base)]
  {
    assert EditOk(s.edits[p], s.files, s.clock);
    StampedWrite(s.edits[p].event, at, s.edits[p].snapshot.base);
  }

  lemma {:induction false} PruneWritten(s: State, c: nat)
    requires RecordsOk(s) && Enabled(s, PruneWrite(c))
    ensures var o, e := s.calls[c].orphan.value, Orphan(s.calls[c].worker.id, s.calls[c].phase.since);
            Fires(e, o.base) && FilesAfter(s, PruneWrite(c)) == s.files[o.id := Fire(e, o.base)]
  {
  }

  // Nobody else writes over a run that has left the queue.
  lemma {:induction false} OthersLeaveIt(s: State, step: Step, id: Id)
    requires IdsOk(s) && Enabled(s, step) && id in s.files && s.files[id].status != Queued
    requires !PrunesFile(s, step, id) && !WritesBack(s, step, id)
    ensures id in FilesAfter(s, step) && FilesAfter(s, step)[id] == s.files[id]
  {
  }

  // What a step leaves of a final status.
  ghost predicate FinalAfter(s: State, step: Step, id: Id)
    requires id in s.files
  {
    && id in FilesAfter(s, step)
    && (FilesAfter(s, step)[id].status != s.files[id].status <==> ReplacesFinal(s, step, id) || Reopens(s, step, id))
    && (IsFinal(FilesAfter(s, step)[id].status) <==> !Reopens(s, step, id))
  }

  lemma {:induction false} BackOverFinal(s: State, p: nat, at: Time, id: Id)
    requires RecordsOk(s) && Enabled(s, WriteBack(p, at)) && s.edits[p].snapshot.id == id
    requires id in s.files && IsFinal(s.files[id].status)
    ensures FinalAfter(s, WriteBack(p, at), id)
  {
    BackWritten(s, p, at);
    assert EditOk(s.edits[p], s.files, s.clock);
    StampedWrite(s.edits[p].event, at, s.edits[p].snapshot.base);
  }

  lemma {:induction false} PruneOverFinal(s: State, c: nat, id: Id)
    requires RecordsOk(s) && Enabled(s, PruneWrite(c)) && s.calls[c].orphan.value.id == id
    requires id in s.files && IsFinal(s.files[id].status)
    ensures FinalAfter(s, PruneWrite(c), id)
  {
    PruneWritten(s, c);
  }

  lemma {:induction false} OthersLeaveFinal(s: State, step: Step, id: Id)
    requires IdsOk(s) && Enabled(s, step) && id in s.files && IsFinal(s.files[id].status)
    requires !PrunesFile(s, step, id) && !WritesBack(s, step, id)
    ensures FinalAfter(s, step, id)
  {
    OthersLeaveIt(s, step, id);
  }

  lemma {:induction false} FinalAfterStep(s: State, step: Step, id: Id)
    requires RecordsOk(s) && IdsOk(s) && Enabled(s, step) && id in s.files && IsFinal(s.files[id].status)
    ensures FinalAfter(s, step, id)
  {
    if WritesBack(s, step, id) {
      assert step == WriteBack(step.p, step.at);
      BackOverFinal(s, step.p, step.at, id);
    } else if PrunesFile(s, step, id) {
      assert step == PruneWrite(step.c);
      PruneOverFinal(s, step.c, id);
    } else {
      OthersLeaveFinal(s, step, id);
    }
  }

  lemma {:induction false} LiveAfterStep(s: State, step: Step, id: Id)
    requires RecordsOk(s) && IdsOk(s) && Enabled(s, step) && id in s.files
    ensures id in FilesAfter(s, step)
    ensures var old', new' := s.files[id].status, FilesAfter(s, step)[id].status;
            new' != old' && !IsFinal(old') ==> Rank(new') < Rank(old')
  {
    WriteLands(s, step, id);
    var w := WriteOf(s, step);
    if w.Some? && w.value.id == id {
      WriteIsSound(s, step, w.value);
      StatusAfterWrite(w.value.event, w.value.base, s.files[id].status);
    }
  }

  lemma {:induction false} StopLeavesCanceling(s: State, step: Step, id: Id)
    requires RecordsOk(s) && Enabled(s, step) && id in s.files && StopsFile(s, step, id)
    ensures id in FilesAfter(s, step) && FilesAfter(s, step)[id].status == Canceling
  {
    BackWritten(s, step.p, step.at);
  }

  lemma {:induction false} RankStep(s: State, step: Step, id: Id)
    requires RecordsOk(s) && IdsOk(s) && Enabled(s, step) && id in s.files
    ensures id in FilesAfter(s, step)
    ensures var old', new' := s.files[id].status, FilesAfter(s, step)[id].status;
            && (IsFinal(old') ==> (new' != old' <==> ReplacesFinal(s, step, id) || Reopens(s, step, id)))
            && (IsFinal(old') ==> (IsFinal(new') <==> !Reopens(s, step, id)))
            && (StopsFile(s, step, id) ==> new' == Canceling)
            && (new' != old' && !IsFinal(old') ==> Rank(new') < Rank(old'))
  {
    LiveAfterStep(s, step, id);
    if StopsFile(s, step, id) { StopLeavesCanceling(s, step, id); }
    if IsFinal(s.files[id].status) { FinalAfterStep(s, step, id); }
  }

  lemma {:induction false} StepRank(r: Run, i: nat, id: Id)
    requires ValidRun(r) && i < |r.steps| && id in r.states[i].files
    ensures id in r.states[i + 1].files
    ensures var s, step := r.states[i], r.steps[i];
            var old', new' := s.files[id].status, r.states[i + 1].files[id].status;
            && (IsFinal(old') ==> (new' != old' <==> ReplacesFinal(s, step, id) || Reopens(s, step, id)))
            && (IsFinal(old') ==> (IsFinal(new') <==> !Reopens(s, step, id)))
            && (StopsFile(s, step, id) ==> new' == Canceling)
            && (new' != old' && !IsFinal(old') ==> Rank(new') < Rank(old'))
  {
    StepTaken(r, i);
    InvThroughout(r, i);
    RankStep(r.states[i], r.steps[i], id);
  }

  // A final status is left for a live one exactly when a stop writes over it, and it stays what it is until somebody
  // who read the run earlier writes another status over it.
  lemma {:induction false} FinalStaysFinal(r: Run, i: nat, j: nat, id: Id)
    requires ValidRun(r) && i <= j < |r.states| && id in r.states[i].files && IsFinal(r.states[i].files[id].status)
    ensures id in r.states[j].files
    ensures (forall k :: i <= k < j ==> !Reopens(r.states[k], r.steps[k], id)) ==> IsFinal(r.states[j].files[id].status)
    ensures (forall k :: i <= k < j ==> !Reopens(r.states[k], r.steps[k], id) && !ReplacesFinal(r.states[k], r.steps[k], id)) ==>
              r.states[j].files[id].status == r.states[i].files[id].status
  {
    if i < j {
      FinalStaysFinal(r, i, j - 1, id);
      StepRank(r, j - 1, id);
    }
  }

  predicate Changed(f: map<Id, Record>, f': map<Id, Record>, id: Id) {
    id in f && id in f' && f[id].status != f'[id].status
  }

  // Number of the first n steps that change the status of `id`.
  ghost function Changes(r: Run, id: Id, n: nat): nat
    requires n < |r.states|
  {
    if n == 0 then 0
    else Changes(r, id, n - 1) + if Changed(r.states[n - 1].files, r.states[n].files, id) then 1 else 0
  }

  // ----- one stop request at most -----

  // A run that is past RUNNING, with no stop on its way.
  ghost predicate Settled(s: State, id: Id) {
    && id in s.files && s.files[id].status != Queued && s.files[id].status != Running
    && forall p :: p in s.edits && s.edits[p].snapshot.id == id ==> !s.edits[p].event.Stop?
  }

  lemma {:induction false} SettledStays(s: State, step: Step, id: Id)
    requires RecordsOk(s) && IdsOk(s) && Enabled(s, step) && Settled(s, id)
    ensures id in FilesAfter(s, step) && FilesAfter(s, step)[id].status != Queued && FilesAfter(s, step)[id].status != Running
    ensures forall p :: p in EditsAfter(s, step) && EditsAfter(s, step)[p].snapshot.id == id ==> !EditsAfter(s, step)[p].event.Stop?
    ensures !StopsFile(s, step, id)
  {
    StaysPastRunning(s, step, id);
    forall p | p in EditsAfter(s, step) && EditsAfter(s, step)[p].snapshot.id == id ensures !EditsAfter(s, step)[p].event.Stop? {
      if p in s.edits { EditStays(s, step, p); } else { EditJustRead(s, step, p); }
    }
  }

  lemma {:induction false} StaysPastRunning(s: State, step: Step, id: Id)
    requires RecordsOk(s) && IdsOk(s) && Enabled(s, step)
    requires id in s.files && s.files[id].status != Queued && s.files[id].status != Running
    ensures id in FilesAfter(s, step) && FilesAfter(s, step)[id].status != Queued && FilesAfter(s, step)[id].status != Running
  {
    StepEvolves(s, step);
    if FilesAfter(s, step)[id] != s.files[id] { LiveWrites(s, step, id); }
  }

  // A stop that has been written was the only one on its way, and leaves a run that no other can find RUNNING.
  lemma {:induction false} StopSettles(s: State, step: Step, id: Id)
    requires RecordsOk(s) && IdsOk(s) && EditsOk(s) && Enabled(s, step) && id in s.files && StopsFile(s, step, id)
    ensures id in FilesAfter(s, step) && FilesAfter(s, step)[id].status == Canceling
    ensures forall p :: p in EditsAfter(s, step) && EditsAfter(s, step)[p].snapshot.id == id ==> !EditsAfter(s, step)[p].event.Stop?
  {
    RankStep(s, step, id);
    forall p | p in EditsAfter(s, step) && EditsAfter(s, step)[p].snapshot.id == id ensures !EditsAfter(s, step)[p].event.Stop? {
      if EditsAfter(s, step)[p].event.Stop? { assert Locks(s.edits[p], id) && Locks(s.edits[step.p], id); }
    }
  }

  lemma {:induction false} SettledThroughout(r: Run, i: nat, j: nat, id: Id)
    requires ValidRun(r) && i <= j < |r.states| && Settled(r.states[i], id)
    ensures Settled(r.states[j], id)
    ensures forall k :: i <= k < j ==> !StopsFile(r.states[k], r.steps[k], id)
  {
    if i < j {
      SettledThroughout(r, i, j - 1, id);
      StepTaken(r, j - 1);
      InvThroughout(r, j - 1);
      SettledStays(r.states[j - 1], r.steps[j - 1], id);
    }
  }

  lemma {:induction false} SettledByStop(r: Run, k: nat, id: Id)
    requires ValidRun(r) && k < |r.steps| && StopsFile(r.states[k], r.steps[k], id)
    ensures id in r.states[k].files && Settled(r.states[k + 1], id) && r.states[k + 1].files[id].status == Canceling
  {
    StepTaken(r, k);
    InvThroughout(r, k);
    StopSettles(r.states[k], r.steps[k], id);
  }

  // However many stop requests there are, at most one of them is ever written to a run.
  lemma {:induction false} OneStopIsWritten(r: Run, i: nat, j: nat, id: Id)
    requires ValidRun(r) && i < |r.steps| && j < |r.steps|
    requires StopsFile(r.states[i], r.steps[i], id) && StopsFile(r.states[j], r.steps[j], id)
    ensures i == j
  {
    if i < j {
      SettledByStop(r, i, id);
      SettledThroughout(r, i + 1, j + 1, id);
    } else if j < i {
      SettledByStop(r, j, id);
      SettledThroughout(r, j + 1, i + 1, id);
    }
  }

  // ----- the number of changes -----

  // How many of the first n steps replace a final status of `id` by another, reopen it, or write a stop to it.
  ghost function Replacements(r: Run, id: Id, n: nat): nat
    requires n < |r.states| && |r.states| == |r.steps| + 1
  {
    if n == 0 then 0
    else Replacements(r, id, n - 1) + if ReplacesFinal(r.states[n - 1], r.steps[n - 1], id) then 1 else 0
  }

  ghost function Reopenings(r: Run, id: Id, n: nat): nat
    requires n < |r.states| && |r.states| == |r.steps| + 1
  {
    if n == 0 then 0
    else Reopenings(r, id, n - 1) + if Reopens(r.states[n - 1], r.steps[n - 1], id) then 1 else 0
  }

  ghost function Stopped(r: Run, id: Id, n: nat): nat
    requires n < |r.states| && |r.states| == |r.steps| + 1
  {
    if n == 0 then 0
    else Stopped(r, id, n - 1) + if StopsFile(r.states[n - 1], r.steps[n - 1], id) then 1 else 0
  }

  // How far a status is along its way, before and after a stop has been written.
  function Progress(s: Status, stopped: nat): nat {
    match s
    case Queued => 0
    case Running => 1
    case Canceling => 2
    case _ => 2 + stopped
  }

  // The stop is written once, after which the run is settled; before it nothing is CANCELING.
  ghost predicate StopOk(r: Run, id: Id, n: nat)
    requires n < |r.states| && |r.states| == |r.steps| + 1
  {
    && Stopped(r, id, n) <= 1
    && (Stopped(r, id, n) == 1 ==> Settled(r.states[n], id))
    && (id in r.states[n].files && r.states[n].files[id].status == Canceling ==> Stopped(r, id, n) == 1)
  }

  lemma {:induction false} StopThroughout(r: Run, id: Id, n: nat)
    requires ValidRun(r) && n < |r.states|
    ensures StopOk(r, id, n)
  {
    if n > 0 {
      StopThroughout(r, id, n - 1);
      StopAfterStep(r, id, n - 1);
    }
  }

  lemma {:induction false} StopAfterStep(r: Run, id: Id, n: nat)
    requires ValidRun(r) && n < |r.steps| && StopOk(r, id, n)
    ensures StopOk(r, id, n + 1)
  {
    var s, step := r.states[n], r.steps[n];
    StepTaken(r, n);
    InvThroughout(r, n);
    if Stopped(r, id, n) == 1 {
      SettledStays(s, step, id);
    } else if StopsFile(s, step, id) {
      SettledByStop(r, n, id);
    } else {
      CancelingOnlyByStop(s, step, id);
    }
  }

  lemma {:induction false} CancelingOnlyByStop(s: State, step: Step, id: Id)
    requires RecordsOk(s) && IdsOk(s) && Enabled(s, step) && !StopsFile(s, step, id)
    ensures id in FilesAfter(s, step) && FilesAfter(s, step)[id].status == Canceling ==> id in s.files && s.files[id].status == Canceling
  {
    NewFilesAreFresh(s, step);
    if id in s.files {
      WriteLands(s, step, id);
      if FilesAfter(s, step)[id] != s.files[id] { LiveWrites(s, step, id); }
    }
  }

  // Every change takes the run a step along its way, replaces a final status by another, or reopens a final one.
  lemma {:induction false} ProgressStep(r: Run, id: Id, n: nat)
    requires ValidRun(r) && n < |r.steps| && id in r.states[n].files && Changed(r.states[n].files, r.states[n + 1].files, id)
    ensures var before, after := r.states[n].files[id].status, r.states[n + 1].files[id].status;
            || ReplacesFinal(r.states[n], r.steps[n], id) || Reopens(r.states[n], r.steps[n], id)
            || Progress(after, Stopped(r, id, n + 1)) > Progress(before, Stopped(r, id, n))
  {
    StepRank(r, n, id);
    StopThroughout(r, id, n);
    StopThroughout(r, id, n + 1);
  }

  // An execution changes its status at most three times, and once more for each final status replaced or reopened;
  // a final status is reopened at most once.
  lemma {:induction false} ChangesBound(r: Run, id: Id, n: nat)
    requires ValidRun(r) && n < |r.states|
    ensures Changes(r, id, n) <= 3 + Replacements(r, id, n) + Reopenings(r, id, n)
    ensures Reopenings(r, id, n) <= Stopped(r, id, n) <= 1
    ensures id in r.states[n].files ==>
              Changes(r, id, n) <= Progress(r.states[n].files[id].status, Stopped(r, id, n)) + Replacements(r, id, n) + Reopenings(r, id, n)
    ensures id !in r.states[n].files ==> Changes(r, id, n) == 0
  {
    StopThroughout(r, id, n);
    if n > 0 {
      ChangesBound(r, id, n - 1);
      StepEffect(r, n - 1);
      if id in r.states[n - 1].files { ProgressKept(r, id, n - 1); }
    }
  }

  // A step that changes nothing takes nothing back either.
  lemma {:induction false} ProgressKept(r: Run, id: Id, n: nat)
    requires ValidRun(r) && n < |r.steps| && id in r.states[n].files
    ensures id in r.states[n + 1].files
    ensures var before, after := Progress(r.states[n].files[id].status, Stopped(r, id, n)), Progress(r.states[n + 1].files[id].status, Stopped(r, id, n + 1));
            before + (if Changed(r.states[n].files, r.states[n + 1].files, id) then 1 else 0)
            <= after + (if ReplacesFinal(r.states[n], r.steps[n], id) then 1 else 0) + (if Reopens(r.states[n], r.steps[n], id) then 1 else 0)
  {
    StepRank(r, n, id);
    StopThroughout(r, id, n);
    StopThroughout(r, id, n + 1);
    if Changed(r.states[n].files, r.states[n + 1].files, id) { ProgressStep(r, id, n); }
  }

  // So at most three in all, unless somebody writes over a final status from an earlier reading.
  lemma {:induction false} AtMostThreeChanges(r: Run, id: Id, n: nat)
    requires ValidRun(r) && n < |r.states|
    requires forall k :: 0 <= k < n ==> !ReplacesFinal(r.states[k], r.steps[k], id) && !Reopens(r.states[k], r.steps[k], id)
    ensures Changes(r, id, n) <= 3
  {
    ChangesBound(r, id, n);
    NoneOver(r, id, n);
  }

  lemma {:induction false} NoneOver(r: Run, id: Id, n: nat)
    requires n < |r.states| && |r.states| == |r.steps| + 1
    requires forall k :: 0 <= k < n ==> !ReplacesFinal(r.states[k], r.steps[k], id) && !Reopens(r.states[k], r.steps[k], id)
    ensures Replacements(r, id, n) == 0 && Reopenings(r, id, n) == 0
  {
    if n > 0 { NoneOver(r, id, n - 1); }
  }

  // ----- index removals -----

  // The row a step of the claim path takes out of the queue index.
  function RemovedRow(s: State, step: Step): Option<Id> {
    match step
    case DropRow(_, id) => Some(id)
    case Mark(c, _) => if c in s.calls && s.calls[c].phase.Written? then Some(s.calls[c].phase.id) else None
    case _ => None
  }

  // Self-healing never takes away the row of a run that is still waiting, now or later.
  lemma {:induction false} RemovalsAreSafe(r: Run, i: nat, j: nat, id: Id)
    requires ValidRun(r) && i < |r.steps| && i <= j < |r.states|
    requires RemovedRow(r.states[i], r.steps[i]) == Some(id)
    ensures id in r.states[j].files ==> r.states[j].files[id].status != Queued
  {
    StepParts(r, i);
    assert id in r.states[i].seen && !(id in r.states[i].files && r.states[i].files[id].status == Queued);
    NotQueuedStays(r, i, j, id);
  }

  lemma {:induction false} NotQueuedStays(r: Run, i: nat, j: nat, id: Id)
    requires ValidRun(r) && i <= j < |r.states|
    requires id in r.states[i].seen && !(id in r.states[i].files && r.states[i].files[id].status == Queued)
    ensures id in r.states[j].seen && !(id in r.states[j].files && r.states[j].files[id].status == Queued)
  {
    if i < j {
      NotQueuedStays(r, i, j - 1, id);
      StepEffect(r, j - 1);
    }
  }

  // ----- the index covers the queue -----

  // No index write fails and no row is lost.
  predicate IndexHealthy(step: Step) {
    match step
    case CreateRow(_, ok) => ok
    case LoseRow(_) => false
    case SeeFile(_, _, ok) => ok
    case Mark(_, ok) => ok
    case DropFinished(_, ok) => ok
    case _ => true
  }

  // With a healthy index a waiting run has a row from the moment its creator adds it until it leaves the queue.
  ghost predicate Covered(s: State) {
    forall id :: id in s.files && s.files[id].status == Queued ==> id in s.queuedRows || id in s.unindexed
  }

  lemma {:induction false} QueuedRowStays(s: State, step: Step, id: Id)
    requires RecordsOk(s) && CallsOk(s) && EditsOk(s) && Enabled(s, step) && IndexHealthy(step)
    requires id in s.files && s.files[id].status == Queued && id in s.queuedRows
    ensures id in QueuedRowsAfter(s, step)
  {
  }

  lemma {:induction false} QueuedStaysCovered(s: State, step: Step, id: Id)
    requires Inv(s) && Covered(s) && Enabled(s, step) && IndexHealthy(step)
    requires id in FilesAfter(s, step) && FilesAfter(s, step)[id].status == Queued
    ensures id in QueuedRowsAfter(s, step) || id in UnindexedAfter(s, step)
  {
    NewFilesAreFresh(s, step);
    if id in s.files {
      assert s.files[id].status == Queued by { StepEvolves(s, step); }
      if id in s.queuedRows { QueuedRowStays(s, step, id); }
    }
  }

  lemma {:induction false} CoverageKept(s: State, step: Step)
    requires Inv(s) && Covered(s) && Enabled(s, step) && IndexHealthy(step)
    ensures Covered(Apply(s, step))
  {
    var s' := Apply(s, step);
    forall id | id in s'.files && s'.files[id].status == Queued ensures id in s'.queuedRows || id in s'.unindexed {
      QueuedStaysCovered(s, step, id);
    }
  }

  lemma {:induction false} IndexCoversQueue(r: Run, i: nat)
    requires ValidRun(r) && i < |r.states|
    requires forall k :: 0 <= k < |r.steps| ==> IndexHealthy(r.steps[k])
    ensures Covered(r.states[i])
  {
    if i > 0 {
      IndexCoversQueue(r, i - 1);
      CoverageAfter(r, i - 1);
    }
  }

  lemma {:induction false} CoverageAfter(r: Run, i: nat)
    requires ValidRun(r) && i < |r.steps| && Covered(r.states[i]) && IndexHealthy(r.steps[i])
    ensures Covered(r.states[i + 1])
  {
    InvThroughout(r, i);
    assert StepAt(r, i);
    CoverageKept(r.states[i], r.steps[i]);
  }
}
