// No started run outlives its deadline, however often users ask it to stop.
module ExecutionDeadline {
  import opened Options
  import opened Executions
  import opened ExecutionProtocol
  import opened ExecutionHistory

  // A live status is reached in one way only: RUNNING by a commit, CANCELING by a stop that had read the run RUNNING.
  lemma {:induction false} BecomesLive(s: State, step: Step, id: Id)
    requires Inv(s) && Enabled(s, step) && id in s.files
    ensures id in FilesAfter(s, step)
    ensures FilesAfter(s, step)[id].status == Running ==>
              FilesAfter(s, step)[id] == s.files[id] || (step.Commit? && s.files[id].status == Queued)
    ensures FilesAfter(s, step)[id].status == Canceling ==>
              || FilesAfter(s, step)[id] == s.files[id]
              || (StopsFile(s, step, id) && s.edits[step.p].snapshot.base.status == Running
                  && FilesAfter(s, step)[id] == Fire(Stop(step.at), s.edits[step.p].snapshot.base))
  {
    StepEvolves(s, step);
    if FilesAfter(s, step)[id] != s.files[id] {
      LiveWrites(s, step, id);
      if FilesAfter(s, step)[id].status == Running { BecomesRunning(s, step, id); }
      if FilesAfter(s, step)[id].status == Canceling {
        assert EditOk(s.edits[step.p], s.files, s.clock);
        BackWritten(s, step.p, step.at);
      }
    }
  }

  // A second stop request does not touch the record: the moment of the first stays on it while the run is being stopped.
  lemma {:induction false} StopRequestKept(r: Run, i: nat, j: nat, id: Id)
    requires ValidRun(r) && i <= j < |r.states| && id in r.states[i].files && r.states[i].files[id].status == Canceling
    ensures id in r.states[j].files
    ensures IsFinal(r.states[j].files[id].status) || r.states[j].files[id] == r.states[i].files[id]
  {
    StopThroughout(r, id, i);
    if i < j {
      StopRequestKept(r, i, j - 1, id);
      SettledThroughout(r, i, j, id);
      StepTaken(r, j - 1);
      InvThroughout(r, j - 1);
      BecomesLive(r.states[j - 1], r.steps[j - 1], id);
      RankStep(r.states[j - 1], r.steps[j - 1], id);
    }
  }

  // A stop request that is written after moment i, and was not under way by then, bears a later time.
  ghost predicate StopsSince(s: State, id: Id, t: Time) {
    && (forall p :: p in s.edits && s.edits[p].snapshot.id == id && s.edits[p].event.Stop? ==> t <= s.edits[p].since)
    && (id in s.files && s.files[id].status == Canceling ==>
          s.files[id].cancelRequestedAt.Some? && t <= s.files[id].cancelRequestedAt.value)
  }

  lemma {:induction false} StopsSinceStep(s: State, step: Step, id: Id, t: Time)
    requires Inv(s) && Enabled(s, step) && id in s.files && StopsSince(s, id, t) && t <= s.clock
    ensures forall p :: p in EditsAfter(s, step) && EditsAfter(s, step)[p].snapshot.id == id && EditsAfter(s, step)[p].event.Stop?
              ==> t <= EditsAfter(s, step)[p].since
    ensures id in FilesAfter(s, step)
    ensures FilesAfter(s, step)[id].status == Canceling ==>
              FilesAfter(s, step)[id].cancelRequestedAt.Some? && t <= FilesAfter(s, step)[id].cancelRequestedAt.value
  {
    BecomesLive(s, step, id);
    forall p | p in EditsAfter(s, step) && EditsAfter(s, step)[p].snapshot.id == id && EditsAfter(s, step)[p].event.Stop?
      ensures t <= EditsAfter(s, step)[p].since
    {
      if p in s.edits { EditStays(s, step, p); } else { EditJustRead(s, step, p); }
    }
  }

  // A run that nobody was stopping at i is later CANCELING only with a request made since.
  lemma {:induction false} LaterStopIsDatedLater(r: Run, i: nat, j: nat, id: Id)
    requires ValidRun(r) && i <= j < |r.states| && id in r.states[i].files && StopsSince(r.states[i], id, r.states[i].clock)
    ensures id in r.states[j].files && StopsSince(r.states[j], id, r.states[i].clock)
  {
    if i < j {
      LaterStopIsDatedLater(r, i, j - 1, id);
      FilesEvolve(r, i, j - 1);
      StepTaken(r, j - 1);
      InvThroughout(r, j - 1);
      StopsSinceStep(r.states[j - 1], r.steps[j - 1], id, r.states[i].clock);
    }
  }

  // What a settled run has reached it keeps: a final status, or being stopped until it is final.
  lemma {:induction false} SettledKeeps(r: Run, i: nat, j: nat, id: Id)
    requires ValidRun(r) && i <= j < |r.states| && Settled(r.states[i], id)
    ensures Settled(r.states[j], id)
    ensures IsFinal(r.states[i].files[id].status) ==> IsFinal(r.states[j].files[id].status)
    ensures !IsFinal(r.states[i].files[id].status) ==>
              IsFinal(r.states[j].files[id].status) || r.states[j].files[id] == r.states[i].files[id]
  {
    SettledThroughout(r, i, j, id);
    if IsFinal(r.states[i].files[id].status) {
      FinalStaysFinal(r, i, j, id);
    } else {
      StopRequestKept(r, i, j, id);
    }
  }

  // ----- visits -----

  // Step j is the visit of `id`, found unlocked, by a sweep that started after t; if there is anything to end, step b
  // writes it back; both come no later than t + window.
  ghost predicate VisitAt(r: Run, j: nat, b: nat, id: Id, t: Time, window: Time) {
    && j <= b < |r.steps| < |r.states| && r.steps[j].SweepRead? && r.steps[j].id == id
    && r.steps[j].k in r.states[j].sweeps && r.states[j].sweeps[r.steps[j].k] > t
    && r.states[b].clock <= t + window
    && (id in r.states[j].files && Fires(Sweep(r.states[j].sweeps[r.steps[j].k]), r.states[j].files[id]) ==>
          && j < b && r.steps[b].WriteBack? && r.steps[b].p == r.steps[j].p
          && forall m :: j < m < b && r.steps[m].WriteBack? ==> r.steps[m].p != r.steps[j].p)
  }

  ghost predicate Visited(r: Run, id: Id, t: Time, window: Time) {
    exists j: nat, b: nat :: VisitAt(r, j, b, id, t, window)
  }

  // From `since` on, every stretch of length `window` that lies inside the run contains
  // the start of a sweep and its visit to the file, found unlocked.
  ghost predicate SweptRegularly(r: Run, id: Id, since: Time, window: Time) {
    |r.states| > 0
    && forall t: Time :: since <= t && t + window < r.states[|r.states| - 1].clock ==> Visited(r, id, t, window)
  }

  // The sweep holds the lock and what it has read until it writes.
  lemma {:induction false} SweepHolds(r: Run, j: nat, m: nat, id: Id)
    requires ValidRun(r) && j < m < |r.states| && r.steps[j].SweepRead? && r.steps[j].id == id
    requires r.steps[j].k in r.states[j].sweeps && id in r.states[j].files
    requires Fires(Sweep(r.states[j].sweeps[r.steps[j].k]), r.states[j].files[id])
    requires forall q :: j < q < m && r.steps[q].WriteBack? ==> r.steps[q].p != r.steps[j].p
    ensures var p := r.steps[j].p;
            && p in r.states[m].edits && r.states[m].edits[p].snapshot == Snapshot(id, r.states[j].files[id])
            && r.states[m].edits[p].event == Sweep(r.states[j].sweeps[r.steps[j].k])
  {
    StepTaken(r, m - 1);
    if j < m - 1 {
      SweepHolds(r, j, m - 1, id);
      EditStays(r.states[m - 1], r.steps[m - 1], r.steps[j].p);
    }
  }

  // What a visit leaves: an over-age run is final and settled, any other settled as the visit found it.
  lemma {:induction false} VisitSettles(r: Run, j: nat, b: nat, id: Id, t: Time, window: Time)
    requires ValidRun(r) && VisitAt(r, j, b, id, t, window) && id in r.states[j].files && r.states[j].files[id].status != Queued
    requires r.states[j].files[id].status == Running ==>
               r.states[j].files[id].startedAt.Some? && r.states[j].files[id].startedAt.value + 1800.0 <= t
    ensures t < r.states[j].clock <= r.states[b].clock
    ensures if r.states[j].files[id].status == Running then r.steps[b].WriteBack? else Settled(r.states[j], id)
    ensures r.states[j].files[id].status == Running
            || (r.states[j].files[id].status == Canceling && r.states[j].files[id].cancelRequestedAt.Some?
                && r.states[j].files[id].cancelRequestedAt.value + 300.0 <= t)
            ==> Settled(r.states[b + 1], id) && IsFinal(r.states[b + 1].files[id].status)
  {
    InvThroughout(r, j);
    StepTaken(r, j);
    FilesEvolve(r, j, b);
    var s := r.states[j];
    if Fires(Sweep(s.sweeps[r.steps[j].k]), s.files[id]) {
      SweepHolds(r, j, b, id);
      SweepEnds(r, b, id);
    }
    forall p | p in s.edits && s.edits[p].snapshot.id == id ensures !s.edits[p].event.Stop? {
      if s.edits[p].event.Stop? { assert Locks(s.edits[p], id); }
    }
  }

  // While one edit of the file holds its lock, no stop does.
  lemma {:induction false} NoOtherStop(s: State, p: nat, id: Id)
    requires EditsOk(s) && p in s.edits && Locks(s.edits[p], id)
    ensures forall q :: q in s.edits && q != p && s.edits[q].snapshot.id == id ==> !s.edits[q].event.Stop?
  {
    forall q | q in s.edits && q != p && s.edits[q].snapshot.id == id ensures !s.edits[q].event.Stop? {
      assert Locks(s.edits[q], id) ==> q == p;
    }
  }

  lemma {:induction false} SweepEnds(r: Run, b: nat, id: Id)
    requires ValidRun(r) && b < |r.steps| && SweepsFile(r.states[b], r.steps[b], id)
    ensures Settled(r.states[b + 1], id) && IsFinal(r.states[b + 1].files[id].status)
  {
    var s, step := r.states[b], r.steps[b];
    InvThroughout(r, b);
    StepTaken(r, b);
    assert EditOk(s.edits[step.p], s.files, s.clock);
    BackWritten(s, step.p, step.at);
    StampedWrite(s.edits[step.p].event, step.at, s.edits[step.p].snapshot.base);
    NoOtherStop(s, step.p, id);
  }

  lemma {:induction false} EarlierInTime(r: Run, i: nat, j: nat)
    requires ValidRun(r) && i < |r.states| && j < |r.states| && r.states[i].clock < r.states[j].clock
    ensures i < j
  {
    if j <= i { FilesEvolve(r, j, i); }
  }

  lemma {:induction false} StartEffect(r: Run, i: nat, id: Id)
    requires ValidRun(r) && i < |r.steps| && StartsRun(r.states[i], r.steps[i], id)
    ensures id in r.states[i + 1].files && r.states[i + 1].files[id].status == Running
    ensures r.states[i + 1].files[id].startedAt == Some(r.states[i].clock)
    ensures r.states[i + 1].clock == r.states[i].clock
  {
    StepTaken(r, i);
    InvThroughout(r, i);
  }

  lemma {:induction false} FoundLater(r: Run, i: nat, j: nat, id: Id)
    requires ValidRun(r) && i < |r.steps| && StartsRun(r.states[i], r.steps[i], id)
    requires j < |r.states| && r.states[i].clock < r.states[j].clock
    ensures i < j && id in r.states[j].files && r.states[j].files[id].status != Queued
    ensures r.states[j].files[id].startedAt == Some(r.states[i].clock)
  {
    EarlierInTime(r, i, j);
    StartEffect(r, i, id);
    ClaimStampsFrozen(r, i + 1, j, id);
  }

  lemma {:induction false} VisitTime(r: Run, j: nat, b: nat, id: Id, t: Time, window: Time)
    requires ValidRun(r) && VisitAt(r, j, b, id, t, window)
    ensures t < r.states[j].clock <= r.states[b].clock <= t + window
    ensures r.steps[b].WriteBack? ==> r.states[b + 1].clock == r.states[b].clock
  {
    InvThroughout(r, j);
    FilesEvolve(r, j, b);
    StepTaken(r, b);
  }

  // After a visit thirty minutes past its start a run is settled: it has been ended, or is at most being stopped.
  lemma {:induction false} VisitAfterMaxAge(r: Run, i: nat, id: Id, window: Time) returns (a: nat)
    requires ValidRun(r) && i < |r.steps| && StartsRun(r.states[i], r.steps[i], id) && 0.0 <= window
    requires Visited(r, id, r.states[i].clock + 1800.0, window)
    ensures i < a < |r.states| && r.states[a].clock <= r.states[i].clock + 1800.0 + window
    ensures Settled(r.states[a], id) && (IsFinal(r.states[a].files[id].status) || r.states[a].files[id].status == Canceling)
  {
    var t := r.states[i].clock + 1800.0;
    var j: nat, b: nat :| VisitAt(r, j, b, id, t, window);
    VisitTime(r, j, b, id, t, window);
    FoundLater(r, i, j, id);
    VisitSettles(r, j, b, id, t, window);
    a := if r.states[j].files[id].status == Running then b + 1 else j;
  }

  // If sweeps come at least once per window, a started run is final 35 minutes and two windows after its start.
  lemma {:induction false} Deadline(r: Run, i: nat, j: nat, id: Id, window: Time)
    requires ValidRun(r) && i < |r.steps| && StartsRun(r.states[i], r.steps[i], id)
    requires 0.0 <= window && SweptRegularly(r, id, r.states[i].clock, window)
    requires j < |r.states| && r.states[i].clock + 2100.0 + 2.0 * window < r.states[j].clock
    ensures id in r.states[j].files && IsFinal(r.states[j].files[id].status)
  {
    var start, last := r.states[i].clock, |r.states| - 1;
    FilesEvolve(r, j, last);
    assert Visited(r, id, start + 1800.0, window);
    var a := VisitAfterMaxAge(r, i, id, window);
    EarlierInTime(r, a, j);
    if IsFinal(r.states[a].files[id].status) {
      SettledKeeps(r, a, j, id);
    } else {
      VisitAfterCancel(r, a, j, id, start + 1800.0 + window, window);
    }
  }

  // A run that is being stopped at a is final after a visit five minutes later.
  lemma {:induction false} VisitAfterCancel(r: Run, a: nat, j: nat, id: Id, t: Time, window: Time)
    requires ValidRun(r) && a < |r.states| && j < |r.states| && 0.0 <= window
    requires Settled(r.states[a], id) && r.states[a].files[id].status == Canceling && r.states[a].clock <= t
    requires Visited(r, id, t + 300.0, window) && t + 300.0 + window < r.states[j].clock
    ensures id in r.states[j].files && IsFinal(r.states[j].files[id].status)
  {
    TimestampsThroughout(r, a, id);
    var v: nat, b: nat :| VisitAt(r, v, b, id, t + 300.0, window);
    VisitTime(r, v, b, id, t + 300.0, window);
    EarlierInTime(r, a, v);
    EarlierInTime(r, b, j);
    SettledKeeps(r, a, v, id);
    VisitSettles(r, v, b, id, t + 300.0, window);
    if IsFinal(r.states[v].files[id].status) {
      FilesEvolve(r, v, b);
      SettledKeeps(r, v, j, id);
    } else {
      SettledKeeps(r, b + 1, j, id);
    }
  }
}
