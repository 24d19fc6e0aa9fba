// A poll that nothing comes in between is a sequence of protocol steps.
module ExecutionRefinement {
  import opened Options
  import opened Executions
  import opened ExecutionProtocol
  import opened ClaimOrder
  import opened ExecutionServer

  // Enabled steps that lead from s to t.
  ghost predicate Leads(s: State, steps: seq<Step>, t: State)
    decreases steps
  {
    if steps == [] then s == t
    else Enabled(s, steps[0]) && Leads(Apply(s, steps[0]), steps[1..], t)
  }

  lemma {:induction false} LeadsOn(s: State, first: seq<Step>, t: State, second: seq<Step>, u: State)
    requires Leads(s, first, t) && Leads(t, second, u)
    ensures Leads(s, first + second, u)
    decreases first
  {
    if first == [] {
      assert first + second == second;
    } else {
      assert (first + second)[1..] == first[1..] + second;
      LeadsOn(Apply(s, first[0]), first[1..], t, second, u);
    }
  }

  lemma {:induction false} OneStep(s: State, step: Step)
    requires Enabled(s, step)
    ensures Leads(s, [step], Apply(s, step))
  {
    assert [step][1..] == [];
    assert Leads(Apply(s, step), [], Apply(s, step));
  }

  function InPhase(w: Worker, limit: int, phase: Phase): Call {
    Call(w, limit, phase, {}, {}, None)
  }

  function WithCall(s: State, c: nat, call: Call): State {
    s.(calls := s.calls[c := call])
  }

  // ----- the row pruner -----

  // What pruning one row leaves of the files and rows.
  function RowPruned(s: State, w: WorkerId, id: Id): State {
    s.(files := if id in s.files then s.files[id := OrphanedRecord(s.files[id], w, s.clock)] else s.files,
       runningRows := s.runningRows - {id})
  }

  lemma {:induction false} LookAndWrite(s: State, c: nat, w: Worker, limit: int, id: Id)
    requires c in s.calls && s.calls[c] == InPhase(w, limit, Pruning(s.clock))
    requires id in RowsOf(s.runningRows, w.id) && id in s.files && Fires(Orphan(w.id, s.clock), s.files[id])
    ensures Leads(s, [PruneLook(c, id), PruneWrite(c)], s.(files := s.files[id := OrphanedRecord(s.files[id], w.id, s.clock)]))
  {
    var read := WithCall(s, c, s.calls[c].(orphan := Some(Snapshot(id, s.files[id]))));
    assert read == Apply(s, PruneLook(c, id));
    OneStep(s, PruneLook(c, id));
    var written := s.(files := s.files[id := OrphanedRecord(s.files[id], w.id, s.clock)]);
    assert written.calls == read.calls[c := s.calls[c]];
    assert written == Apply(read, PruneWrite(c));
    OneStep(read, PruneWrite(c));
    LeadsOn(s, [PruneLook(c, id)], read, [PruneWrite(c)], written);
    assert [PruneLook(c, id)] + [PruneWrite(c)] == [PruneLook(c, id), PruneWrite(c)];
  }

  lemma {:induction false} Drop(s: State, c: nat, w: Worker, limit: int, id: Id)
    requires c in s.calls && s.calls[c] == InPhase(w, limit, Pruning(s.clock))
    requires id in RowsOf(s.runningRows, w.id) && (id in s.files ==> !Fires(Orphan(w.id, s.clock), s.files[id]))
    ensures Leads(s, [PruneDrop(c, id)], s.(runningRows := s.runningRows - {id}))
  {
    assert s.calls[c := s.calls[c]] == s.calls;
    assert s.(runningRows := s.runningRows - {id}) == Apply(s, PruneDrop(c, id));
    OneStep(s, PruneDrop(c, id));
  }

  lemma {:induction false} PruneOne(s: State, c: nat, w: Worker, limit: int, id: Id) returns (steps: seq<Step>)
    requires c in s.calls && s.calls[c] == InPhase(w, limit, Pruning(s.clock)) && id in RowsOf(s.runningRows, w.id)
    ensures Leads(s, steps, RowPruned(s, w.id, id))
  {
    if id in s.files && Fires(Orphan(w.id, s.clock), s.files[id]) {
      var written := s.(files := s.files[id := OrphanedRecord(s.files[id], w.id, s.clock)]);
      LookAndWrite(s, c, w, limit, id);
      Drop(written, c, w, limit, id);
      steps := [PruneLook(c, id), PruneWrite(c)] + [PruneDrop(c, id)];
      LeadsOn(s, [PruneLook(c, id), PruneWrite(c)], written, [PruneDrop(c, id)], RowPruned(s, w.id, id));
    } else {
      Drop(s, c, w, limit, id);
      steps := [PruneDrop(c, id)];
      assert id in s.files ==> s.files[id := s.files[id]] == s.files;
    }
  }

  // Pruning the rows one after the other.
  lemma {:induction false} PruneAll(s: State, c: nat, w: Worker, limit: int) returns (steps: seq<Step>)
    requires c in s.calls && s.calls[c] == InPhase(w, limit, Pruning(s.clock))
    ensures var rows := RowsOf(s.runningRows, w.id);
            Leads(s, steps, s.(files := Pruned(s.files, s.runningRows, w.id, s.clock), runningRows := s.runningRows - rows))
    decreases |RowsOf(s.runningRows, w.id)|
  {
    var rows := RowsOf(s.runningRows, w.id);
    if rows == {} {
      steps := [];
      assert s.runningRows - rows == s.runningRows;
      assert Pruned(s.files, s.runningRows, w.id, s.clock) == s.files;
    } else {
      var id :| id in rows;
      var first := PruneOne(s, c, w, limit, id);
      var s' := RowPruned(s, w.id, id);
      assert RowsOf(s'.runningRows, w.id) == rows - {id};
      var rest := PruneAll(s', c, w, limit);
      PrunedInTwo(s.files, s.runningRows, w.id, s.clock, id);
      assert s'.runningRows - RowsOf(s'.runningRows, w.id) == s.runningRows - rows;
      steps := first + rest;
      LeadsOn(s, first, s', rest, s.(files := Pruned(s.files, s.runningRows, w.id, s.clock), runningRows := s.runningRows - rows));
    }
  }

  lemma {:induction false} PrunedInTwo(f: map<Id, Record>, rows: map<Id, WorkerId>, w: WorkerId, now: Time, id: Id)
    requires id in RowsOf(rows, w)
    ensures Pruned(if id in f then f[id := OrphanedRecord(f[id], w, now)] else f, rows - {id}, w, now) == Pruned(f, rows, w, now)
  {
  }

  // ----- one poll -----

  lemma {:induction false} Arriving(s: State, c: nat, w: Worker, limit: int)
    requires c !in s.calls && w.id != ""
    ensures Leads(s, [Arrive(c, w, limit), Count(c)],
                  WithCall(s, c, InPhase(w, limit, if |RowsOf(s.runningRows, w.id)| < limit then Scanning else Pruning(s.clock))))
  {
    var arrived := WithCall(s, c, InPhase(w, limit, Counting));
    var counted := WithCall(s, c, InPhase(w, limit, if |RowsOf(s.runningRows, w.id)| < limit then Scanning else Pruning(s.clock)));
    assert arrived == Apply(s, Arrive(c, w, limit));
    OneStep(s, Arrive(c, w, limit));
    assert counted == Apply(arrived, Count(c));
    OneStep(arrived, Count(c));
    LeadsOn(s, [Arrive(c, w, limit)], arrived, [Count(c)], counted);
    assert [Arrive(c, w, limit)] + [Count(c)] == [Arrive(c, w, limit), Count(c)];
  }

  lemma {:induction false} Recounting(s: State, c: nat, w: Worker, limit: int)
    requires 0 < limit && RowsOf(s.runningRows, w.id) == {}
    ensures Leads(WithCall(s, c, InPhase(w, limit, Pruning(s.clock))), [Recount(c)], WithCall(s, c, InPhase(w, limit, Scanning)))
  {
    var before, after := WithCall(s, c, InPhase(w, limit, Pruning(s.clock))), WithCall(s, c, InPhase(w, limit, Scanning));
    assert after == Apply(before, Recount(c));
    OneStep(before, Recount(c));
  }

  // The state in which the call starts to scan, after the capacity check.
  function Admission(s: State, w: Worker, limit: int): State {
    s.(files := Admitted(s.files, s.runningRows, w, limit, s.clock), runningRows := AdmittedRows(s.runningRows, w, limit))
  }

  lemma {:induction false} ReachesScan(s: State, c: nat, w: Worker, limit: int) returns (steps: seq<Step>)
    requires c !in s.calls && w.id != "" && 0 < limit
    ensures Leads(s, steps, WithCall(Admission(s, w, limit), c, InPhase(w, limit, Scanning)))
  {
    Arriving(s, c, w, limit);
    steps := [Arrive(c, w, limit), Count(c)];
    if |RowsOf(s.runningRows, w.id)| >= limit {
      var pruning := WithCall(s, c, InPhase(w, limit, Pruning(s.clock)));
      var prune := PruneAll(pruning, c, w, limit);
      var done := WithCall(Admission(s, w, limit), c, InPhase(w, limit, Pruning(s.clock)));
      LeadsOn(s, steps, pruning, prune, done);
      assert RowsOf(AdmittedRows(s.runningRows, w, limit), w.id) == {};
      Recounting(Admission(s, w, limit), c, w, limit);
      LeadsOn(s, steps + prune, done, [Recount(c)], WithCall(Admission(s, w, limit), c, InPhase(w, limit, Scanning)));
      steps := steps + prune + [Recount(c)];
    }
  }

  // No file is locked.
  predicate NothingHeld(s: State) {
    && (forall d :: d in s.calls ==> s.calls[d].phase.Counting? || s.calls[d].phase.Pruning? || s.calls[d].phase.Scanning? || s.calls[d].phase.Returned?)
    && (forall p :: p in s.edits ==> s.edits[p].event.Finish?)
  }

  predicate Pickable(s: State, w: Worker, id: Id) {
    id in s.files && s.files[id].status == Queued && s.files[id].named && Satisfies(w, s.files[id].requirements)
  }

  lemma {:induction false} Seeing(s: State, c: nat, w: Worker, limit: int, id: Id)
    requires NothingHeld(s) && Pickable(s, w, id)
    ensures Leads(WithCall(s, c, InPhase(w, limit, Scanning)), [SeeFile(c, id, false)],
                  WithCall(s, c, InPhase(w, limit, Scanning).(found := {id})))
  {
    var scanning, seen := WithCall(s, c, InPhase(w, limit, Scanning)), WithCall(s, c, InPhase(w, limit, Scanning).(found := {id}));
    assert {} + {id} == {id} && seen.calls == CallsAfter(scanning, SeeFile(c, id, false));
    assert seen == Apply(scanning, SeeFile(c, id, false));
    OneStep(scanning, SeeFile(c, id, false));
  }

  lemma {:induction false} Rereading(s: State, c: nat, w: Worker, limit: int, id: Id)
    requires NothingHeld(s) && Pickable(s, w, id)
    ensures Leads(WithCall(s, c, InPhase(w, limit, Scanning).(found := {id})), [Reread(c, id)],
                  WithCall(s, c, InPhase(w, limit, Holding(id))))
  {
    var seen, held := WithCall(s, c, InPhase(w, limit, Scanning).(found := {id})), WithCall(s, c, InPhase(w, limit, Holding(id)));
    assert {id} - {id} == {} && held.calls == CallsAfter(seen, Reread(c, id));
    assert held == Apply(seen, Reread(c, id));
    OneStep(seen, Reread(c, id));
  }

  lemma {:induction false} Locking(s: State, c: nat, w: Worker, limit: int, id: Id)
    requires NothingHeld(s) && Pickable(s, w, id)
    ensures Leads(WithCall(s, c, InPhase(w, limit, Scanning)), [SeeFile(c, id, false), Reread(c, id)],
                  WithCall(s, c, InPhase(w, limit, Holding(id))))
  {
    Seeing(s, c, w, limit, id);
    Rereading(s, c, w, limit, id);
    LeadsOn(WithCall(s, c, InPhase(w, limit, Scanning)), [SeeFile(c, id, false)],
            WithCall(s, c, InPhase(w, limit, Scanning).(found := {id})), [Reread(c, id)],
            WithCall(s, c, InPhase(w, limit, Holding(id))));
    assert [SeeFile(c, id, false)] + [Reread(c, id)] == [SeeFile(c, id, false), Reread(c, id)];
  }

  // What starting the run leaves, apart from the call.
  function StartedRun(s: State, w: Worker, id: Id): State
    requires id in s.files && s.files[id].status == Queued
  {
    s.(files := s.files[id := Fire(Claim(w, s.clock), s.files[id])], queuedRows := s.queuedRows - {id},
       runningRows := s.runningRows[id := w.id], handed := s.handed + [Handout(id, w.id, s.clock)])
  }

  // The record is written, the index not yet.
  function RecordWritten(s: State, w: Worker, id: Id): State
    requires id in s.files && s.files[id].status == Queued
  {
    s.(files := s.files[id := Fire(Claim(w, s.clock), s.files[id])], handed := s.handed + [Handout(id, w.id, s.clock)])
  }

  lemma {:induction false} Clearing(s: State, c: nat, w: Worker, limit: int, id: Id)
    requires |RowsOf(s.runningRows, w.id)| < limit
    ensures Leads(WithCall(s, c, InPhase(w, limit, Holding(id))), [Recheck(c)], WithCall(s, c, InPhase(w, limit, Cleared(id))))
  {
    var held, cleared := WithCall(s, c, InPhase(w, limit, Holding(id))), WithCall(s, c, InPhase(w, limit, Cleared(id)));
    assert cleared == Apply(held, Recheck(c));
    OneStep(held, Recheck(c));
  }

  lemma {:induction false} Committing(s: State, c: nat, w: Worker, limit: int, id: Id)
    requires Pickable(s, w, id)
    ensures Leads(WithCall(s, c, InPhase(w, limit, Cleared(id))), [Commit(c)],
                  WithCall(RecordWritten(s, w, id), c, InPhase(w, limit, Written(id))))
  {
    var cleared, written := WithCall(s, c, InPhase(w, limit, Cleared(id))), WithCall(RecordWritten(s, w, id), c, InPhase(w, limit, Written(id)));
    assert written == Apply(cleared, Commit(c));
    OneStep(cleared, Commit(c));
  }

  lemma {:induction false} Marking(s: State, c: nat, w: Worker, limit: int, id: Id)
    requires Pickable(s, w, id)
    ensures Leads(WithCall(RecordWritten(s, w, id), c, InPhase(w, limit, Written(id))),
                  [Mark(c, true)], WithCall(StartedRun(s, w, id), c, InPhase(w, limit, Returned(Some(id)))))
  {
    var written := WithCall(RecordWritten(s, w, id), c, InPhase(w, limit, Written(id)));
    assert WithCall(StartedRun(s, w, id), c, InPhase(w, limit, Returned(Some(id)))) == Apply(written, Mark(c, true));
    OneStep(written, Mark(c, true));
  }

  lemma {:induction false} Starting(s: State, c: nat, w: Worker, limit: int, id: Id) returns (steps: seq<Step>)
    requires NothingHeld(s) && Pickable(s, w, id) && |RowsOf(s.runningRows, w.id)| < limit
    ensures Leads(WithCall(s, c, InPhase(w, limit, Scanning)), steps,
                  WithCall(StartedRun(s, w, id), c, InPhase(w, limit, Returned(Some(id)))))
  {
    var scanning, held := WithCall(s, c, InPhase(w, limit, Scanning)), WithCall(s, c, InPhase(w, limit, Holding(id)));
    var cleared, written := WithCall(s, c, InPhase(w, limit, Cleared(id))), WithCall(RecordWritten(s, w, id), c, InPhase(w, limit, Written(id)));
    steps := [SeeFile(c, id, false), Reread(c, id)];
    Locking(s, c, w, limit, id);
    Clearing(s, c, w, limit, id);
    LeadsOn(scanning, steps, held, [Recheck(c)], cleared);
    steps := steps + [Recheck(c)];
    Committing(s, c, w, limit, id);
    LeadsOn(scanning, steps, cleared, [Commit(c)], written);
    steps := steps + [Commit(c)];
    Marking(s, c, w, limit, id);
    LeadsOn(scanning, steps, written, [Mark(c, true)], WithCall(StartedRun(s, w, id), c, InPhase(w, limit, Returned(Some(id)))));
    steps := steps + [Mark(c, true)];
  }

  lemma {:induction false} GivingUp(s: State, c: nat, w: Worker, limit: int)
    ensures Leads(WithCall(s, c, InPhase(w, limit, Scanning)), [GiveUp(c)], WithCall(s, c, InPhase(w, limit, Returned(None))))
  {
    var scanning, gone := WithCall(s, c, InPhase(w, limit, Scanning)), WithCall(s, c, InPhase(w, limit, Returned(None)));
    assert gone == Apply(scanning, GiveUp(c));
    OneStep(scanning, GiveUp(c));
  }

  // The records and running rows that Server.ClaimNextExecution leaves, and the run it returns, are those that a
  // sequence of protocol steps of a new call leaves and returns, when no other party holds a file meanwhile.
  lemma {:induction false} PollIsARun(s: State, c: nat, w: Worker, limit: int,
                                      handout: Option<Id>) returns (steps: seq<Step>, t: State)
    requires NothingHeld(s) && c !in s.calls && w.id != "" && 0 < limit
    requires handout.Some? ==> Pickable(s, w, handout.value)
    ensures Leads(s, steps, t) && t.clock == s.clock && c in t.calls && t.calls[c].phase == Returned(handout)
    ensures var files, rows := Admitted(s.files, s.runningRows, w, limit, s.clock), AdmittedRows(s.runningRows, w, limit);
            && t.files == (if handout == None then files else files[handout.value := Fire(Claim(w, s.clock), s.files[handout.value])])
            && t.runningRows == (if handout == None then rows else rows[handout.value := w.id])
  {
    var admitted := Admission(s, w, limit);
    steps := ReachesScan(s, c, w, limit);
    var scanning := WithCall(admitted, c, InPhase(w, limit, Scanning));
    if handout == None {
      GivingUp(admitted, c, w, limit);
      t := WithCall(admitted, c, InPhase(w, limit, Returned(None)));
      LeadsOn(s, steps, scanning, [GiveUp(c)], t);
      steps := steps + [GiveUp(c)];
    } else {
      var id := handout.value;
      AdmittedKeepsQueue(s.files, s.runningRows, w, limit, s.clock);
      RoomAfterAdmit(s.runningRows, w, limit);
      var start := Starting(admitted, c, w, limit, id);
      t := WithCall(StartedRun(admitted, w, id), c, InPhase(w, limit, Returned(Some(id))));
      LeadsOn(s, steps, scanning, start, t);
      steps := steps + start;
    }
  }
}
