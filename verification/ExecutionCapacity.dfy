// How many runs one worker can have at once.
module ExecutionCapacity {
  import opened Options
  import opened Executions
  import opened ExecutionProtocol
  import opened ExecutionHistory
  import opened SetSizes

  predicate PastCheck(call: Call, w: WorkerId) {
    call.worker.id == w && (call.phase.Cleared? || call.phase.Written?)
  }

  // Calls of a worker that have been granted room but are not in the index yet.
  function Granted(calls: map<nat, Call>, w: WorkerId): set<nat> {
    set c | c in calls && PastCheck(calls[c], w)
  }

  function LiveCalls(calls: map<nat, Call>, w: WorkerId): set<nat> {
    set c | c in calls && LiveFor(calls[c], w)
  }

  predicate IsActive(r: Record, w: WorkerId) {
    r.status == Running && r.workerId == Some(w)
  }

  function ActiveRuns(files: map<Id, Record>, w: WorkerId): set<Id> {
    set id | id in files && IsActive(files[id], w)
  }

  ghost predicate AllLimited(calls: map<nat, Call>, w: WorkerId, limit: int) {
    forall c :: c in calls && calls[c].worker.id == w ==> calls[c].limit <= limit
  }

  // Rows and grants together stay below the limit plus the other calls under way.
  ghost predicate RoomOk(s: State, w: WorkerId, limit: int, k: nat) {
    |RowsOf(s.runningRows, w)| + |Granted(s.calls, w)| <= limit + k - 1
  }

  ghost predicate Accounted(c: nat, calls: map<nat, Call>, w: WorkerId, id: Id) {
    c in calls && calls[c].worker.id == w && calls[c].phase == Written(id)
  }

  // Every active run is in the index or was written by a call that is about to put it there.
  ghost predicate AllAccounted(files: map<Id, Record>, rows: map<Id, WorkerId>, calls: map<nat, Call>, w: WorkerId) {
    forall id :: id in files && IsActive(files[id], w) ==>
      id in RowsOf(rows, w) || exists c :: Accounted(c, calls, w, id)
  }

  ghost predicate WritersOwn(files: map<Id, Record>, calls: map<nat, Call>) {
    forall c :: c in calls && calls[c].phase.Written? ==>
      calls[c].phase.id in files && files[calls[c].phase.id].workerId == Some(calls[c].worker.id)
  }

  // Only a capacity check that finds room grants anything, and only to its own call.
  lemma {:induction false} NewlyGranted(s: State, step: Step, w: WorkerId, c: nat)
    requires Enabled(s, step) && c in Granted(CallsAfter(s, step), w) && c !in Granted(s.calls, w)
    ensures CallOf(step) == Some(c) && (step.Recheck? || step.RecheckAgain?)
    ensures c in s.calls && LiveFor(s.calls[c], w) && HasRoom(s, s.calls[c])
  {
    CallsFrame(s, step, c);
  }

  lemma {:induction false} GrantedAfter(s: State, step: Step, w: WorkerId)
    requires Enabled(s, step)
    ensures var before, after := Granted(s.calls, w), Granted(CallsAfter(s, step), w);
            && |after| <= |before| + (if after <= before then 0 else 1)
            && (!(after <= before) ==>
                  && (step.Recheck? || step.RecheckAgain?) && step.c in s.calls && step.c !in before
                  && LiveFor(s.calls[step.c], w) && HasRoom(s, s.calls[step.c]) && after <= before + {step.c})
            && (step.Mark? && s.calls[step.c].worker.id == w ==> |after| < |before|)
  {
    var before, after := Granted(s.calls, w), Granted(CallsAfter(s, step), w);
    forall c | c in after && c !in before
      ensures CallOf(step) == Some(c) && (step.Recheck? || step.RecheckAgain?) && c in s.calls && LiveFor(s.calls[c], w) && HasRoom(s, s.calls[c])
    {
      NewlyGranted(s, step, w, c);
    }
    if after <= before {
      SubsetSize(after, before);
      if step.Mark? && s.calls[step.c].worker.id == w {
        CallsFrame(s, step, step.c);
        SubsetSize(after, before - {step.c});
      }
    } else {
      SubsetSize(after, before + {step.c});
    }
  }

  lemma {:induction false} RowsAfter(s: State, step: Step, w: WorkerId)
    requires Enabled(s, step)
    ensures var before, after := RowsOf(s.runningRows, w), RowsOf(RunningRowsAfter(s, step), w);
            |after| <= |before| + (if step.Mark? && s.calls[step.c].worker.id == w then 1 else 0)
  {
    var before, after := RowsOf(s.runningRows, w), RowsOf(RunningRowsAfter(s, step), w);
    if step.Mark? && s.calls[step.c].worker.id == w {
      SubsetSize(after, before + {s.calls[step.c].phase.id});
    } else {
      SubsetSize(after, before);
    }
  }

  lemma {:induction false} RoomKept(s: State, step: Step, w: WorkerId, limit: int, k: nat)
    requires Enabled(s, step) && RoomOk(s, w, limit, k)
    requires AllLimited(s.calls, w, limit) && |LiveCalls(s.calls, w)| <= k
    ensures |RowsOf(RunningRowsAfter(s, step), w)| + |Granted(CallsAfter(s, step), w)| <= limit + k - 1
  {
    GrantedAfter(s, step, w);
    RowsAfter(s, step, w);
    var before := Granted(s.calls, w);
    if !(Granted(CallsAfter(s, step), w) <= before) {
      assert before + {step.c} <= LiveCalls(s.calls, w);
      SubsetSize(before + {step.c}, LiveCalls(s.calls, w));
    }
  }

  predicate MarksSucceed(step: Step) {
    step.Mark? ==> step.ok
  }

  lemma {:induction false} WritersStayOwners(s: State, step: Step)
    requires Inv(s) && WritersOwn(s.files, s.calls) && Enabled(s, step)
    ensures WritersOwn(FilesAfter(s, step), CallsAfter(s, step))
  {
    forall c | c in CallsAfter(s, step) && CallsAfter(s, step)[c].phase.Written?
      ensures var id := CallsAfter(s, step)[c].phase.id;
              id in FilesAfter(s, step) && FilesAfter(s, step)[id].workerId == Some(CallsAfter(s, step)[c].worker.id)
    {
      WriterStaysOwner(s, step, c);
    }
  }

  lemma {:induction false} WriterStaysOwner(s: State, step: Step, c: nat)
    requires Inv(s) && WritersOwn(s.files, s.calls) && Enabled(s, step)
    requires c in CallsAfter(s, step) && CallsAfter(s, step)[c].phase.Written?
    ensures var id := CallsAfter(s, step)[c].phase.id;
            id in FilesAfter(s, step) && FilesAfter(s, step)[id].workerId == Some(CallsAfter(s, step)[c].worker.id)
  {
    WasWriting(s, step, c);
    if s.calls[c].phase.Written? {
      StepEvolves(s, step);
    } else {
      CommitterOwns(s, c);
    }
  }

  lemma {:induction false} CommitterOwns(s: State, c: nat)
    requires Enabled(s, Commit(c))
    ensures var id, f' := s.calls[c].phase.id, FilesAfter(s, Commit(c));
            id in f' && f'[id].workerId == Some(s.calls[c].worker.id)
  {
  }

  lemma {:induction false} WasWriting(s: State, step: Step, c: nat)
    requires Enabled(s, step) && c in CallsAfter(s, step) && CallsAfter(s, step)[c].phase.Written?
    ensures c in s.calls && CallsAfter(s, step)[c].worker == s.calls[c].worker
    ensures s.calls[c].phase == CallsAfter(s, step)[c].phase
            || (step == Commit(c) && s.calls[c].phase == Cleared(CallsAfter(s, step)[c].phase.id))
  {
    CallsFrame(s, step, c);
  }

  lemma {:induction false} RowLeavesByPrune(s: State, step: Step, w: WorkerId, id: Id)
    requires Enabled(s, step) && step.PruneDrop?
    requires id in RowsOf(s.runningRows, w) && id !in RowsOf(s.runningRows - {step.id}, w)
    ensures id in s.files ==> !IsActive(s.files[id], w)
  {
  }

  // Which rows a step can take away.
  lemma {:induction false} RowLeaves(s: State, step: Step, w: WorkerId, id: Id)
    requires Enabled(s, step)
    requires id in RowsOf(s.runningRows, w) && id !in RowsOf(RunningRowsAfter(s, step), w)
    ensures || (step.PruneDrop? && step.id == id)
            || (step.DropFinished? && step.id == id)
            || (step.Mark? && s.calls[step.c].phase == Written(id) && s.calls[step.c].worker.id != w)
  {
  }

  // When a row leaves the index its run is not active for that worker.
  lemma {:induction false} LeavingRowIsInactive(s: State, step: Step, w: WorkerId, id: Id)
    requires Inv(s) && WritersOwn(s.files, s.calls) && Enabled(s, step)
    requires id in RowsOf(s.runningRows, w) && id !in RowsOf(RunningRowsAfter(s, step), w)
    ensures id in FilesAfter(s, step) ==> !IsActive(FilesAfter(s, step)[id], w)
  {
    RowLeaves(s, step, w, id);
    if step.PruneDrop? { RowLeavesByPrune(s, step, w, id); }
  }

  // A run that is on its way into the index gets there.
  lemma {:induction false} PendingAdvances(s: State, step: Step, c: nat, w: WorkerId, id: Id)
    requires Enabled(s, step) && MarksSucceed(step) && Accounted(c, s.calls, w, id)
    ensures id in RowsOf(RunningRowsAfter(s, step), w) || Accounted(c, CallsAfter(s, step), w, id)
  {
    if step == Mark(c, true) {
      assert RunningRowsAfter(s, step) == s.runningRows[id := w];
    } else {
      WaitsForMark(s, step, c);
    }
  }

  lemma {:induction false} WaitsForMark(s: State, step: Step, c: nat)
    requires Enabled(s, step) && c in s.calls && s.calls[c].phase.Written? && !(step.Mark? && step.c == c)
    ensures c in CallsAfter(s, step) && CallsAfter(s, step)[c].worker == s.calls[c].worker
            && CallsAfter(s, step)[c].phase == s.calls[c].phase
  {
  }

  lemma {:induction false} CommitIsAccounted(s: State, step: Step, w: WorkerId, id: Id)
    requires Enabled(s, step) && step.Commit? && s.calls[step.c].phase == Cleared(id) && s.calls[step.c].worker.id == w
    ensures Accounted(step.c, CallsAfter(s, step), w, id)
  {
  }

  lemma {:induction false} AccountedKept(s: State, step: Step, w: WorkerId, id: Id)
    requires Inv(s) && WritersOwn(s.files, s.calls) && Enabled(s, step) && MarksSucceed(step)
    requires AllAccounted(s.files, s.runningRows, s.calls, w)
    requires id in FilesAfter(s, step) && IsActive(FilesAfter(s, step)[id], w)
    ensures id in RowsOf(RunningRowsAfter(s, step), w) || exists c :: Accounted(c, CallsAfter(s, step), w, id)
  {
    BecomesRunning(s, step, id);
    if s.files[id] != FilesAfter(s, step)[id] {
      CommitIsAccounted(s, step, w, id);
    } else if id !in RowsOf(s.runningRows, w) {
      var c :| Accounted(c, s.calls, w, id);
      PendingAdvances(s, step, c, w, id);
    } else if id !in RowsOf(RunningRowsAfter(s, step), w) {
      LeavingRowIsInactive(s, step, w, id);
    }
  }

  ghost predicate CapacityInv(s: State, w: WorkerId, limit: int, k: nat) {
    && RoomOk(s, w, limit, k) && WritersOwn(s.files, s.calls)
    && AllAccounted(s.files, s.runningRows, s.calls, w)
  }

  lemma {:induction false} CapacityStep(s: State, step: Step, s': State, w: WorkerId, limit: int, k: nat)
    requires Inv(s) && Enabled(s, step) && MarksSucceed(step) && CapacityInv(s, w, limit, k)
    requires AllLimited(s.calls, w, limit) && |LiveCalls(s.calls, w)| <= k
    requires s'.files == FilesAfter(s, step) && s'.calls == CallsAfter(s, step) && s'.runningRows == RunningRowsAfter(s, step)
    ensures CapacityInv(s', w, limit, k)
  {
    RoomKept(s, step, w, limit, k);
    WritersStayOwners(s, step);
    forall id | id in s'.files && IsActive(s'.files[id], w)
      ensures id in RowsOf(s'.runningRows, w) || exists c :: Accounted(c, s'.calls, w, id)
    {
      AccountedKept(s, step, w, id);
    }
  }

  // The setting: at most k calls of the worker under way, none with a larger limit, and index writes succeed.
  ghost predicate Bounded(r: Run, w: WorkerId, limit: int, k: nat) {
    && (forall i :: 0 <= i < |r.states| ==> AllLimited(r.states[i].calls, w, limit) && |LiveCalls(r.states[i].calls, w)| <= k)
    && (forall i :: 0 <= i < |r.steps| ==> MarksSucceed(r.steps[i]))
  }

  lemma {:induction false} CapacityAtStart(r: Run, w: WorkerId, limit: int, k: nat)
    requires ValidRun(r) && 1 <= k && |RowsOf(r.states[0].runningRows, w)| <= limit
    ensures CapacityInv(r.states[0], w, limit, k)
  {
    assert Granted(r.states[0].calls, w) == {};
  }

  lemma {:induction false} CapacityAfter(r: Run, i: nat, w: WorkerId, limit: int, k: nat)
    requires ValidRun(r) && i < |r.steps| && Bounded(r, w, limit, k) && CapacityInv(r.states[i], w, limit, k)
    ensures CapacityInv(r.states[i + 1], w, limit, k)
  {
    StepParts(r, i);
    CapacityStep(r.states[i], r.steps[i], r.states[i + 1], w, limit, k);
  }

  lemma {:induction false} CapacityThroughout(r: Run, i: nat, w: WorkerId, limit: int, k: nat)
    requires ValidRun(r) && i < |r.states| && Bounded(r, w, limit, k) && 1 <= k
    requires |RowsOf(r.states[0].runningRows, w)| <= limit
    ensures CapacityInv(r.states[i], w, limit, k)
  {
    if i == 0 {
      CapacityAtStart(r, w, limit, k);
    } else {
      CapacityThroughout(r, i - 1, w, limit, k);
      CapacityAfter(r, i - 1, w, limit, k);
    }
  }

  // Distinct pending runs belong to distinct calls.
  lemma {:induction false} PendingFewerThanCalls(calls: map<nat, Call>, w: WorkerId, ids: set<Id>, cs: set<nat>)
    requires forall id :: id in ids ==> exists c :: c in cs && Accounted(c, calls, w, id)
    ensures |ids| <= |cs|
  {
    if ids != {} {
      var id :| id in ids;
      var c :| c in cs && Accounted(c, calls, w, id);
      forall other | other in ids - {id} ensures exists d :: d in cs - {c} && Accounted(d, calls, w, other) {
        var d :| d in cs && Accounted(d, calls, w, other);
        assert d != c;
      }
      PendingFewerThanCalls(calls, w, ids - {id}, cs - {c});
    }
  }

  // With at most k claim calls of a worker under way it never has more than limit + k - 1 active runs.
  lemma {:induction false} CapacityBound(r: Run, i: nat, w: WorkerId, limit: int, k: nat)
    requires ValidRun(r) && i < |r.states| && Bounded(r, w, limit, k) && 1 <= k
    requires |RowsOf(r.states[0].runningRows, w)| <= limit
    ensures |ActiveRuns(r.states[i].files, w)| <= limit + k - 1
  {
    CapacityThroughout(r, i, w, limit, k);
    var s := r.states[i];
    var rows, active := RowsOf(s.runningRows, w), ActiveRuns(s.files, w);
    var pending := active - rows;
    forall id | id in pending ensures exists c :: c in Granted(s.calls, w) && Accounted(c, s.calls, w, id) {
      var c :| Accounted(c, s.calls, w, id);
      assert c in Granted(s.calls, w);
    }
    PendingFewerThanCalls(s.calls, w, pending, Granted(s.calls, w));
    SubsetSize(active, rows + pending);
  }

  // A worker that polls from one loop stays within its limit.
  lemma {:induction false} SerialCapacity(r: Run, i: nat, w: WorkerId, limit: int)
    requires ValidRun(r) && i < |r.states| && Bounded(r, w, limit, 1)
    requires |RowsOf(r.states[0].runningRows, w)| <= limit
    ensures |ActiveRuns(r.states[i].files, w)| <= limit
  {
    CapacityBound(r, i, w, limit, 1);
  }
}
