// Concrete runs in which status times go back, final statuses are replaced or left, and reports rewrite history.
module ExecutionScenario {
  import opened Options
  import opened Executions
  import opened ExecutionProtocol
  import opened ExecutionHistory
  import opened ExecutionReports

  // ----- building a run step by step -----

  function Last(r: Run): State
    requires r.states != []
  {
    r.states[|r.states| - 1]
  }

  function Then(r: Run, step: Step, s': State): Run {
    Run(r.states + [s'], r.steps + [step])
  }

  // No two calls of one worker are ever under way together.
  ghost predicate Serial(r: Run) {
    forall i :: 0 <= i < |r.states| ==> OneCallPerWorker(r.states[i])
  }

  // No step has replaced a final status of "x" by another.
  ghost predicate Unreplaced(r: Run) {
    |r.steps| < |r.states| && forall k :: 0 <= k < |r.steps| ==> !ReplacesFinal(r.states[k], r.steps[k], "x")
  }

  // A valid run that ends in s, so far with n changes of the status of "x".
  ghost predicate Reaches(r: Run, s: State, n: nat) {
    ValidRun(r) && Last(r) == s && Changes(r, "x", |r.steps|) == n
  }

  lemma {:induction false} ChangesOfPrefix(r: Run, t: Run, n: nat)
    requires n < |r.states| <= |t.states| && t.states[..|r.states|] == r.states
    ensures Changes(t, "x", n) == Changes(r, "x", n)
  {
    if n > 0 {
      ChangesOfPrefix(r, t, n - 1);
      assert t.states[n] == t.states[..|r.states|][n] && t.states[n - 1] == t.states[..|r.states|][n - 1];
    }
  }

  lemma {:induction false} Extend(r: Run, s: State, n: nat, step: Step, s': State)
    requires Reaches(r, s, n) && Enabled(s, step) && s' == Apply(s, step)
    ensures Reaches(Then(r, step, s'), s', n + if Changed(s.files, s'.files, "x") then 1 else 0)
    ensures Serial(r) && OneCallPerWorker(s') ==> Serial(Then(r, step, s'))
  {
    var t := Then(r, step, s');
    forall i: nat | i < |t.steps| ensures StepAt(t, i) {
      if i < |r.steps| {
        assert StepAt(r, i) && t.states[i] == r.states[i] && t.states[i + 1] == r.states[i + 1] && t.steps[i] == r.steps[i];
      }
    }
    ChangesOfPrefix(r, t, |r.steps|);
  }

  // ----- the run "x" and its worker "w" -----

  const POLLER := Worker("w", "runner", {}, {}, map[])

  const WAITING := Record(Queued, true, "p", 1.0, Some(1.0), Requirements(None, {}, map[]), None, None, {},
                          None, None, None, None, None, None, None, false, 1.0)

  function Started(at: Time): Record {
    Fire(Claim(POLLER, at), WAITING)
  }

  function Poll(phase: Phase, found: set<Id>): Call {
    Call(POLLER, 1, phase, found, {}, None)
  }

  // "x" has been created; "y" is an execution of the past.
  function At(clock: Time, record: Record, rows: set<Id>, running: map<Id, WorkerId>, calls: map<nat, Call>, handed: seq<Handout>): State {
    State(clock, map["x" := record], rows, running, calls, map[], map[], {}, {"x"}, {"x", "y"}, handed)
  }

  lemma {:induction false} ReachCreated(running: map<Id, WorkerId>) returns (r: Run)
    requires running.Keys <= {"y"}
    ensures Reaches(r, At(1.0, WAITING, {}, running, map[], []), 0) && Serial(r)
  {
    var s := State(1.0, map[], {}, running, map[], map[], map[], {}, {}, {"y"}, []);
    r := Run([s], []);
    var s' := At(1.0, WAITING, {}, running, map[], []);
    assert s' == Apply(s, CreateFile("x", WAITING));
    Extend(r, s, 0, CreateFile("x", WAITING), s');
    r := Then(r, CreateFile("x", WAITING), s');
  }

  // Every call but c has returned.
  ghost predicate OnlyLive(s: State, c: nat) {
    forall d :: d in s.calls && d != c ==> !Live(s.calls[d])
  }

  // A step of call c, or of no call.
  lemma {:induction false} Move(r: Run, s: State, n: nat, step: Step, s': State, c: nat) returns (t: Run)
    requires Reaches(r, s, n) && Enabled(s, step) && s' == Apply(s, step)
    ensures Reaches(t, s', n + if Changed(s.files, s'.files, "x") then 1 else 0)
    ensures Serial(r) && OnlyLive(s', c) ==> Serial(t)
    ensures Unreplaced(r) && !ReplacesFinal(s, step, "x") ==> Unreplaced(t)
    ensures |t.steps| == |r.steps| + 1 && t.steps[|r.steps|] == step && t.states[|r.steps|] == s && t.states[|r.steps| + 1] == s'
  {
    Extend(r, s, n, step, s');
    t := Then(r, step, s');
  }

  // Call c on its way, next to calls that hold nothing.
  ghost predicate HoldNothing(others: map<nat, Call>) {
    forall d :: d in others ==> others[d].phase.Pruning? || others[d].phase.Returned?
  }

  ghost predicate NoneLive(others: map<nat, Call>) {
    forall d :: d in others ==> !Live(others[d])
  }

  function Claiming(clock: Time, rows: set<Id>, others: map<nat, Call>, c: nat, call: Call): State {
    At(clock, WAITING, rows, map[], others[c := call], [])
  }

  lemma {:induction false} Sees(r: Run, others: map<nat, Call>, clock: Time, c: nat) returns (t: Run)
    requires c !in others && HoldNothing(others)
    requires Reaches(r, Claiming(clock, {}, others, c, Poll(Scanning, {})), 0)
    ensures Reaches(t, Claiming(clock, {"x"}, others, c, Poll(Scanning, {"x"})), 0)
    ensures Serial(r) && NoneLive(others) ==> Serial(t)
  {
    var s, s' := Claiming(clock, {}, others, c, Poll(Scanning, {})), Claiming(clock, {"x"}, others, c, Poll(Scanning, {"x"}));
    assert {} + {"x"} == {"x"} && s'.calls == CallsAfter(s, SeeFile(c, "x", true));
    assert s' == Apply(s, SeeFile(c, "x", true));
    t := Move(r, s, 0, SeeFile(c, "x", true), s', c);
  }

  lemma {:induction false} TakesLock(r: Run, others: map<nat, Call>, clock: Time, c: nat) returns (t: Run)
    requires c !in others && HoldNothing(others)
    requires Reaches(r, Claiming(clock, {"x"}, others, c, Poll(Scanning, {"x"})), 0)
    ensures Reaches(t, Claiming(clock, {"x"}, others, c, Poll(Holding("x"), {})), 0)
    ensures Serial(r) && NoneLive(others) ==> Serial(t)
  {
    var s, s' := Claiming(clock, {"x"}, others, c, Poll(Scanning, {"x"})), Claiming(clock, {"x"}, others, c, Poll(Holding("x"), {}));
    assert {"x"} - {"x"} == {} && s' == Apply(s, Reread(c, "x"));
    t := Move(r, s, 0, Reread(c, "x"), s', c);
  }

  lemma {:induction false} Clears(r: Run, others: map<nat, Call>, clock: Time, c: nat) returns (t: Run)
    requires c !in others
    requires Reaches(r, Claiming(clock, {"x"}, others, c, Poll(Holding("x"), {})), 0)
    ensures Reaches(t, Claiming(clock, {"x"}, others, c, Poll(Cleared("x"), {})), 0)
    ensures Serial(r) && NoneLive(others) ==> Serial(t)
  {
    var s, s' := Claiming(clock, {"x"}, others, c, Poll(Holding("x"), {})), Claiming(clock, {"x"}, others, c, Poll(Cleared("x"), {}));
    assert RowsOf(map[], "w") == {};
    assert s' == Apply(s, Recheck(c));
    t := Move(r, s, 0, Recheck(c), s', c);
  }

  function Claimed(clock: Time, rows: set<Id>, running: map<Id, WorkerId>, others: map<nat, Call>, c: nat, phase: Phase): State {
    At(clock, Started(clock), rows, running, others[c := Poll(phase, {})], [Handout("x", "w", clock)])
  }

  lemma {:induction false} Commits(r: Run, others: map<nat, Call>, clock: Time, c: nat) returns (t: Run)
    requires c !in others
    requires Reaches(r, Claiming(clock, {"x"}, others, c, Poll(Cleared("x"), {})), 0)
    ensures Reaches(t, Claimed(clock, {"x"}, map[], others, c, Written("x")), 1)
    ensures Serial(r) && NoneLive(others) ==> Serial(t)
  {
    var s, s' := Claiming(clock, {"x"}, others, c, Poll(Cleared("x"), {})), Claimed(clock, {"x"}, map[], others, c, Written("x"));
    assert s'.files == FilesAfter(s, Commit(c)) && s'.calls == CallsAfter(s, Commit(c));
    assert s' == Apply(s, Commit(c));
    t := Move(r, s, 0, Commit(c), s', c);
  }

  lemma {:induction false} Marks(r: Run, others: map<nat, Call>, clock: Time, c: nat) returns (t: Run)
    requires c !in others
    requires Reaches(r, Claimed(clock, {"x"}, map[], others, c, Written("x")), 1)
    ensures Reaches(t, Claimed(clock, {}, map["x" := "w"], others, c, Returned(Some("x"))), 1)
    ensures Serial(r) && NoneLive(others) ==> Serial(t)
  {
    var s := Claimed(clock, {"x"}, map[], others, c, Written("x"));
    var s' := Claimed(clock, {}, map["x" := "w"], others, c, Returned(Some("x")));
    assert {"x"} - {"x"} == {} && s' == Apply(s, Mark(c, true));
    t := Move(r, s, 1, Mark(c, true), s', c);
  }

  // A call that finds room sees the waiting run, locks it, starts it and returns.
  lemma {:induction false} Starts(r: Run, others: map<nat, Call>, clock: Time, c: nat) returns (t: Run)
    requires c !in others && HoldNothing(others)
    requires Reaches(r, Claiming(clock, {}, others, c, Poll(Scanning, {})), 0)
    ensures Reaches(t, Claimed(clock, {}, map["x" := "w"], others, c, Returned(Some("x"))), 1)
    ensures Serial(r) && NoneLive(others) ==> Serial(t)
  {
    t := Sees(r, others, clock, c);
    t := TakesLock(t, others, clock, c);
    t := Clears(t, others, clock, c);
    t := Commits(t, others, clock, c);
    t := Marks(t, others, clock, c);
  }

  function Joined(s: State, c: nat, phase: Phase): State {
    s.(calls := s.calls[c := Poll(phase, {})])
  }

  lemma {:induction false} Arrives(r: Run, s: State, n: nat, c: nat) returns (t: Run)
    requires Reaches(r, s, n) && c !in s.calls
    ensures Reaches(t, Joined(s, c, Counting), n)
    ensures Serial(r) && OnlyLive(s, c) ==> Serial(t)
  {
    assert Joined(s, c, Counting) == Apply(s, Arrive(c, POLLER, 1));
    t := Move(r, s, n, Arrive(c, POLLER, 1), Joined(s, c, Counting), c);
  }

  function Counted(s: State): Phase {
    if |RowsOf(s.runningRows, "w")| < 1 then Scanning else Pruning(s.clock)
  }

  lemma {:induction false} Counts(r: Run, s: State, n: nat, c: nat) returns (t: Run)
    requires Reaches(r, Joined(s, c, Counting), n) && c !in s.calls
    ensures Reaches(t, Joined(s, c, Counted(s)), n)
    ensures Serial(r) && OnlyLive(s, c) ==> Serial(t)
  {
    assert Joined(s, c, Counted(s)) == Apply(Joined(s, c, Counting), Count(c));
    t := Move(r, Joined(s, c, Counting), n, Count(c), Joined(s, c, Counted(s)), c);
  }

  lemma {:induction false} Ticks(r: Run, s: State, n: nat, to: Time, c: nat) returns (t: Run)
    requires Reaches(r, s, n) && s.clock <= to
    ensures Reaches(t, s.(clock := to), n)
    ensures (Serial(r) && OnlyLive(s, c) ==> Serial(t)) && (Unreplaced(r) ==> Unreplaced(t))
  {
    assert s.(clock := to) == Apply(s, Tick(to));
    t := Move(r, s, n, Tick(to), s.(clock := to), c);
  }

  // One poll of an idle worker starts "x" at time 1.
  const IDLE := map[0 := Poll(Returned(Some("x")), {})]

  function Begun(clock: Time, record: Record): State {
    At(clock, record, {}, map["x" := "w"], IDLE, [Handout("x", "w", 1.0)])
  }

  lemma {:induction false} ReachStarted() returns (r: Run)
    ensures Reaches(r, Begun(1.0, Started(1.0)), 1) && Serial(r)
  {
    r := ReachCreated(map[]);
    assert RowsOf(map[], "w") == {};
    r := Arrives(r, At(1.0, WAITING, {}, map[], map[], []), 0, 0);
    r := Counts(r, At(1.0, WAITING, {}, map[], map[], []), 0, 0);
    r := Starts(r, map[], 1.0, 0);
  }

  // ----- other writers -----

  function WithRecord(s: State, record: Record): State {
    s.(files := s.files["x" := record])
  }

  // How a step that writes `record` counts.
  function Weight(s: State, record: Record): nat {
    if "x" in s.files && s.files["x"].status != record.status then 1 else 0
  }

  ghost predicate Unheld(s: State) {
    HoldNothing(s.calls) && forall p :: p in s.edits ==> s.edits[p].event.Finish?
  }

  function WithEdit(s: State, p: nat, e: Event): State
    requires "x" in s.files
  {
    s.(edits := s.edits[p := Edit(Snapshot("x", s.files["x"]), e, s.clock)])
  }

  lemma {:induction false} ReadsForStop(r: Run, s: State, n: nat, p: nat, c: nat) returns (t: Run)
    requires Reaches(r, s, n) && p !in s.edits && Unheld(s) && "x" in s.files && s.files["x"].status == Running
    ensures Reaches(t, WithEdit(s, p, Stop(s.clock)), n)
    ensures (Serial(r) && OnlyLive(s, c) ==> Serial(t)) && (Unreplaced(r) ==> Unreplaced(t))
  {
    assert WithEdit(s, p, Stop(s.clock)) == Apply(s, StopRead(p, "x"));
    t := Move(r, s, n, StopRead(p, "x"), WithEdit(s, p, Stop(s.clock)), c);
  }

  lemma {:induction false} StartsSweep(r: Run, s: State, n: nat, k: nat) returns (t: Run)
    requires Reaches(r, s, n) && k !in s.sweeps
    ensures Reaches(t, s.(sweeps := s.sweeps[k := s.clock]), n)
    ensures (Serial(r) && NoneLive(s.calls) ==> Serial(t)) && (Unreplaced(r) ==> Unreplaced(t))
  {
    var s' := s.(sweeps := s.sweeps[k := s.clock]);
    assert s' == Apply(s, SweepStart(k));
    t := Move(r, s, n, SweepStart(k), s', 0);
  }

  lemma {:induction false} ReadsForSweep(r: Run, s: State, n: nat, k: nat, p: nat) returns (t: Run)
    requires Reaches(r, s, n) && k in s.sweeps && p !in s.edits && Unheld(s) && "x" in s.files && Fires(Sweep(s.sweeps[k]), s.files["x"])
    ensures Reaches(t, WithEdit(s, p, Sweep(s.sweeps[k])), n)
    ensures (Serial(r) && NoneLive(s.calls) ==> Serial(t)) && (Unreplaced(r) ==> Unreplaced(t))
  {
    assert WithEdit(s, p, Sweep(s.sweeps[k])) == Apply(s, SweepRead(k, p, "x"));
    t := Move(r, s, n, SweepRead(k, p, "x"), WithEdit(s, p, Sweep(s.sweeps[k])), 0);
  }

  lemma {:induction false} ReadsForReport(r: Run, s: State, n: nat, p: nat, e: Event) returns (t: Run)
    requires Reaches(r, s, n) && p !in s.edits && "x" in s.files && s.files["x"].status != Queued
    requires e.Finish? && Fires(e, s.files["x"])
    ensures Reaches(t, WithEdit(s, p, e), n)
    ensures (Serial(r) && NoneLive(s.calls) ==> Serial(t)) && (Unreplaced(r) ==> Unreplaced(t))
  {
    assert WithEdit(s, p, e) == Apply(s, ReportRead(p, "x", e));
    t := Move(r, s, n, ReportRead(p, "x", e), WithEdit(s, p, e), 0);
  }

  function WrittenBack(s: State, p: nat, record: Record): State
    requires p in s.edits
  {
    WithRecord(s, record).(edits := s.edits - {p}, finished := if s.edits[p].event.Finish? then s.finished + {"x"} else s.finished)
  }

  // An event that was read as it is going to be written, now.
  lemma {:induction false} Writes(r: Run, s: State, n: nat, p: nat, base: Record, e: Event, c: nat) returns (t: Run)
    requires Reaches(r, s, n) && p in s.edits && s.edits[p].snapshot == Snapshot("x", base) && s.edits[p].since <= s.clock
    requires Stamped(s.edits[p].event, s.clock) == e && Fires(e, base)
    ensures Reaches(t, WrittenBack(s, p, Fire(e, base)), n + Weight(s, Fire(e, base)))
    ensures Serial(r) && OnlyLive(s, c) ==> Serial(t)
    ensures Unreplaced(r) && !ReplacesFinal(s, WriteBack(p, s.clock), "x") ==> Unreplaced(t)
    ensures |t.steps| == |r.steps| + 1 && t.steps[|r.steps|] == WriteBack(p, s.clock) && t.states[|r.steps|] == s
  {
    var s', step := WrittenBack(s, p, Fire(e, base)), WriteBack(p, s.clock);
    assert s'.files == FilesAfter(s, step);
    assert s' == Apply(s, step);
    t := Move(r, s, n, step, s', c);
  }

  // A stop or sweep that reads and writes at once.
  lemma {:induction false} AtOnce(s: State, p: nat, e: Event, record: Record)
    requires "x" in s.files && p !in s.edits && !e.Finish?
    ensures p in WithEdit(s, p, e).edits && WithEdit(s, p, e).edits[p] == Edit(Snapshot("x", s.files["x"]), e, s.clock)
    ensures WrittenBack(WithEdit(s, p, e), p, record) == WithRecord(s, record)
    ensures Weight(WithEdit(s, p, e), record) == Weight(s, record)
  {
    assert WithEdit(s, p, e).edits - {p} == s.edits;
  }

  lemma {:induction false} SweepEndsIt(r: Record, now: Time)
    requires Fires(Sweep(now), r)
    ensures !IsFinal(r.status) && Fire(Sweep(now), r).status != r.status
  {
  }

  lemma {:induction false} Stops(r: Run, s: State, n: nat, p: nat, c: nat) returns (t: Run)
    requires Reaches(r, s, n) && p !in s.edits && Unheld(s) && "x" in s.files && s.files["x"].status == Running
    ensures Reaches(t, WithRecord(s, Fire(Stop(s.clock), s.files["x"])), n + 1)
    ensures Serial(r) && OnlyLive(s, c) ==> Serial(t)
  {
    t := ReadsForStop(r, s, n, p, c);
    AtOnce(s, p, Stop(s.clock), Fire(Stop(s.clock), s.files["x"]));
    t := Writes(t, WithEdit(s, p, Stop(s.clock)), n, p, s.files["x"], Stop(s.clock), c);
  }

  lemma {:induction false} Sweeps(r: Run, s: State, n: nat, k: nat, p: nat) returns (t: Run)
    requires Reaches(r, s, n) && k in s.sweeps && p !in s.edits && Unheld(s) && "x" in s.files && Fires(Sweep(s.sweeps[k]), s.files["x"])
    ensures Reaches(t, WithRecord(s, Fire(Sweep(s.sweeps[k]), s.files["x"])), n + 1)
    ensures (Serial(r) && NoneLive(s.calls) ==> Serial(t)) && (Unreplaced(r) ==> Unreplaced(t))
  {
    var e := Sweep(s.sweeps[k]);
    t := ReadsForSweep(r, s, n, k, p);
    AtOnce(s, p, e, Fire(e, s.files["x"]));
    SweepEndsIt(s.files["x"], s.sweeps[k]);
    t := Writes(t, WithEdit(s, p, e), n, p, s.files["x"], e, 0);
  }

  lemma {:induction false} ReportShows(bad: Record -> bool, r: Run, s: State, n: nat, p: nat, base: Record,
                                       e: Event) returns (t: Run)
    requires Reaches(r, s, n) && p in s.edits && s.edits[p].snapshot == Snapshot("x", base) && s.edits[p].since <= s.clock
    requires s.edits[p].event == e && e.Finish? && e.at == s.clock && Fires(e, base) && bad(Fire(e, base))
    ensures ValidRun(t) && (Serial(r) && NoneLive(s.calls) ==> Serial(t)) && Shows(bad, t, |t.steps|, "x")
  {
    t := Writes(r, s, n, p, base, e, 0);
    assert Last(t) == t.states[|t.steps|];
  }

  lemma {:induction false} Looks(r: Run, s: State, n: nat, c: nat) returns (t: Run)
    requires Reaches(r, s, n) && c in s.calls && s.calls[c].phase.Pruning? && s.calls[c].worker.id == "w"
    requires "x" in s.files && "x" in RowsOf(s.runningRows, "w") && s.files["x"].status == Running && s.files["x"].workerId == Some("w")
    ensures Reaches(t, Looked(s, c), n)
    ensures Serial(r) && OnlyLive(s, c) ==> Serial(t)
  {
    assert Looked(s, c) == Apply(s, PruneLook(c, "x"));
    t := Move(r, s, n, PruneLook(c, "x"), Looked(s, c), c);
  }

  function Looked(s: State, c: nat): State
    requires c in s.calls && "x" in s.files
  {
    s.(calls := s.calls[c := s.calls[c].(orphan := Some(Snapshot("x", s.files["x"])))])
  }

  // The document the pruner leaves.
  function Orphaned(s: State, c: nat): Record
    requires c in s.calls && s.calls[c].phase.Pruning? && s.calls[c].worker.id == "w" && s.calls[c].orphan.Some?
    requires Fires(Orphan("w", s.calls[c].phase.since), s.calls[c].orphan.value.base)
  {
    Fire(Orphan("w", s.calls[c].phase.since), s.calls[c].orphan.value.base)
  }

  lemma {:induction false} Prunes(r: Run, s: State, n: nat, c: nat) returns (t: Run)
    requires Reaches(r, s, n) && c in s.calls && s.calls[c].phase.Pruning? && s.calls[c].worker.id == "w"
    requires s.calls[c].orphan.Some? && s.calls[c].orphan.value.id == "x"
    requires Fires(Orphan("w", s.calls[c].phase.since), s.calls[c].orphan.value.base)
    ensures Reaches(t, WithRecord(s, Orphaned(s, c)).(calls := s.calls[c := s.calls[c].(orphan := None)]), n + Weight(s, Orphaned(s, c)))
    ensures Serial(r) && OnlyLive(s, c) ==> Serial(t)
    ensures |t.steps| == |r.steps| + 1 && t.steps[|r.steps|] == PruneWrite(c) && t.states[|r.steps|] == s
  {
    var s' := WithRecord(s, Orphaned(s, c)).(calls := s.calls[c := s.calls[c].(orphan := None)]);
    assert s' == Apply(s, PruneWrite(c));
    t := Move(r, s, n, PruneWrite(c), s', c);
  }

  // ----- two polls of one worker, a second apart -----

  // The first poll met a stale row and is still pruning with the clock reading 1 when the second starts the run at 2.
  const SLOW := map[0 := Poll(Pruning(1.0), {})]

  lemma {:induction false} ReachSecondPoll() returns (r: Run)
    ensures Reaches(r, Joined(At(2.0, WAITING, {}, map["y" := "w"], SLOW, []), 1, Pruning(2.0)), 0)
  {
    var rows := map["y" := "w"];
    r := ReachCreated(rows);
    assert RowsOf(rows, "w") == {"y"};
    r := Arrives(r, At(1.0, WAITING, {}, rows, map[], []), 0, 0);
    r := Counts(r, At(1.0, WAITING, {}, rows, map[], []), 0, 0);
    r := Ticks(r, At(1.0, WAITING, {}, rows, SLOW, []), 0, 2.0, 0);
    r := Arrives(r, At(2.0, WAITING, {}, rows, SLOW, []), 0, 1);
    r := Counts(r, At(2.0, WAITING, {}, rows, SLOW, []), 0, 1);
  }

  lemma {:induction false} DropsStaleRow(r: Run) returns (t: Run)
    requires Reaches(r, Joined(At(2.0, WAITING, {}, map["y" := "w"], SLOW, []), 1, Pruning(2.0)), 0)
    ensures Reaches(t, Joined(At(2.0, WAITING, {}, map[], SLOW, []), 1, Pruning(2.0)), 0)
  {
    var s := Joined(At(2.0, WAITING, {}, map["y" := "w"], SLOW, []), 1, Pruning(2.0));
    var s' := Joined(At(2.0, WAITING, {}, map[], SLOW, []), 1, Pruning(2.0));
    assert "y" in RowsOf(s.runningRows, "w");
    assert s' == Apply(s, PruneDrop(1, "y"));
    t := Move(r, s, 0, PruneDrop(1, "y"), s', 1);
  }

  lemma {:induction false} Recounts(r: Run) returns (t: Run)
    requires Reaches(r, Joined(At(2.0, WAITING, {}, map[], SLOW, []), 1, Pruning(2.0)), 0)
    ensures Reaches(t, Claiming(2.0, {}, SLOW, 1, Poll(Scanning, {})), 0)
  {
    var s, s' := Joined(At(2.0, WAITING, {}, map[], SLOW, []), 1, Pruning(2.0)), Claiming(2.0, {}, SLOW, 1, Poll(Scanning, {}));
    assert RowsOf(map[], "w") == {};
    assert s' == Apply(s, Recount(1));
    t := Move(r, s, 0, Recount(1), s', 1);
  }

  function Overlap(): State {
    Claimed(2.0, {}, map["x" := "w"], SLOW, 1, Returned(Some("x")))
  }

  lemma {:induction false} ReachOverlap() returns (r: Run)
    ensures Reaches(r, Overlap(), 1)
  {
    r := ReachSecondPoll();
    r := DropsStaleRow(r);
    r := Recounts(r);
    r := Starts(r, SLOW, 2.0, 1);
  }

  // The run was started at time 2 and is then failed, from a current reading, with the time 1 read before.
  lemma {:induction false} StatusTimeCanGoBack() returns (r: Run, i: nat)
    ensures ValidRun(r) && i < |r.steps| && TimeFalls(r, i, "x") && PrunesFile(r.states[i], r.steps[i], "x")
    ensures r.states[i].calls[r.steps[i].c].orphan.value.base == r.states[i].files["x"]
    ensures r.states[i + 1].files["x"].finishedAt == Some(1.0) && r.states[i + 1].files["x"].startedAt == Some(2.0)
  {
    r := ReachOverlap();
    assert "x" in RowsOf(map["x" := "w"], "w");
    r := Looks(r, Overlap(), 1, 0);
    i := |r.steps|;
    r := Prunes(r, Looked(Overlap(), 0), 1, 0);
  }

  // ----- a worker that polls from one loop -----

  lemma {:induction false} ReachPruner() returns (r: Run)
    ensures Reaches(r, Joined(Begun(2.0, Started(1.0)), 1, Pruning(2.0)), 1) && Serial(r)
  {
    r := ReachStarted();
    r := Ticks(r, Begun(1.0, Started(1.0)), 1, 2.0, 0);
    assert RowsOf(map["x" := "w"], "w") == {"x"};
    r := Arrives(r, Begun(2.0, Started(1.0)), 1, 1);
    r := Counts(r, Begun(2.0, Started(1.0)), 1, 1);
  }

  // The pruner has read the run; then it is asked to stop.
  function StoppedMeanwhile(): State {
    WithRecord(ReadByPruner(3.0), Fire(Stop(3.0), Started(1.0)))
  }

  function ReadByPruner(clock: Time): State {
    Looked(Joined(Begun(2.0, Started(1.0)), 1, Pruning(2.0)), 1).(clock := clock)
  }

  lemma {:induction false} ReachReadByPruner() returns (r: Run)
    ensures Reaches(r, ReadByPruner(3.0), 1) && Serial(r)
  {
    r := ReachPruner();
    assert "x" in RowsOf(map["x" := "w"], "w");
    r := Looks(r, Joined(Begun(2.0, Started(1.0)), 1, Pruning(2.0)), 1, 1);
    r := Ticks(r, ReadByPruner(2.0), 1, 3.0, 1);
  }

  lemma {:induction false} ReachStoppedMeanwhile() returns (r: Run)
    ensures Reaches(r, StoppedMeanwhile(), 2) && Serial(r)
  {
    r := ReachReadByPruner();
    r := Stops(r, ReadByPruner(3.0), 1, 0, 1);
  }

  // A stop request at time 3 comes between the pruner's read and its write, which stamps the time 2.
  lemma {:induction false} StopDuringPrune() returns (r: Run, i: nat)
    ensures ValidRun(r) && Serial(r) && i < |r.steps| && TimeFalls(r, i, "x") && PrunesFile(r.states[i], r.steps[i], "x")
    ensures r.states[i].files["x"].status == Canceling
  {
    r := ReachStoppedMeanwhile();
    i := |r.steps|;
    r := Prunes(r, StoppedMeanwhile(), 2, 1);
  }

  // ----- a sweep while nothing else happens -----

  function Sweeping(clock: Time, record: Record): State {
    Begun(clock, record).(sweeps := map[0 := clock])
  }

  lemma {:induction false} SweepingFacts(clock: Time, record: Record, after: Record)
    ensures NoneLive(Sweeping(clock, record).calls) && Unheld(Sweeping(clock, record))
    ensures WithRecord(Sweeping(clock, record), after) == Sweeping(clock, after)
  {
  }

  lemma {:induction false} ReachSweeping(r: Run, from: Time, clock: Time, record: Record, n: nat) returns (t: Run)
    requires Reaches(r, Begun(from, record), n) && Serial(r) && from <= clock
    ensures Reaches(t, Sweeping(clock, record), n) && Serial(t)
  {
    t := Ticks(r, Begun(from, record), n, clock, 0);
    t := StartsSweep(t, Begun(clock, record), n, 0);
  }

  lemma {:induction false} ReachSwept(r: Run, clock: Time, record: Record, n: nat) returns (t: Run)
    requires Reaches(r, Sweeping(clock, record), n) && Serial(r) && Fires(Sweep(clock), record)
    ensures Reaches(t, Sweeping(clock, Fire(Sweep(clock), record)), n + 1) && Serial(t)
  {
    SweepingFacts(clock, record, Fire(Sweep(clock), record));
    t := Sweeps(r, Sweeping(clock, record), n, 0, 0);
  }

  // ----- reports -----

  function Finishes(outcome: Status, given: Option<int>, at: Time): Event {
    Finish("w", outcome, at, given, false, at)
  }

  // A report read the run RUNNING at time 1 and is still on its way.
  function Reporting(clock: Time, record: Record, sweeps: map<nat, Time>, e: Event): State {
    Begun(clock, record).(sweeps := sweeps, edits := map[0 := Edit(Snapshot("x", Started(1.0)), e, 1.0)])
  }

  lemma {:induction false} ReportingFacts(clock: Time, record: Record, sweeps: map<nat, Time>, e: Event, after: Record)
    ensures var s := Reporting(clock, record, sweeps, e);
            NoneLive(s.calls) && (e.Finish? ==> Unheld(s)) && WithRecord(s, after) == Reporting(clock, after, sweeps, e)
  {
  }

  lemma {:induction false} ReachReporting(e: Event) returns (r: Run)
    requires e.Finish? && e.owner == "w" && e.outcome == Success
    ensures Reaches(r, Reporting(1.0, Started(1.0), map[], e), 1) && Serial(r)
  {
    r := ReachStarted();
    r := ReadsForReport(r, Begun(1.0, Started(1.0)), 1, 0, e);
    assert WithEdit(Begun(1.0, Started(1.0)), 0, e) == Reporting(1.0, Started(1.0), map[], e);
  }

  lemma {:induction false} ReachSweepReporting(e: Event) returns (r: Run)
    requires e.Finish? && e.owner == "w" && e.outcome == Success
    ensures Reaches(r, Reporting(2000.0, Started(1.0), map[0 := 2000.0], e), 1) && Serial(r)
  {
    r := ReachReporting(e);
    r := Ticks(r, Reporting(1.0, Started(1.0), map[], e), 1, 2000.0, 0);
    r := StartsSweep(r, Reporting(2000.0, Started(1.0), map[], e), 1, 0);
  }

  // The run is failed for its age after a report has read it as RUNNING.
  lemma {:induction false} ReachFailed(e: Event) returns (r: Run)
    requires e.Finish? && e.owner == "w" && e.outcome == Success
    ensures Reaches(r, TimedOutRun(e), 2) && Serial(r)
  {
    r := ReachSweepReporting(e);
    TimedOutFacts();
    ReportingFacts(2000.0, Started(1.0), map[0 := 2000.0], e, TIMED_OUT);
    r := Sweeps(r, Reporting(2000.0, Started(1.0), map[0 := 2000.0], e), 1, 0, 1);
  }

  function TimedOutRun(e: Event): State {
    Reporting(2000.0, TIMED_OUT, map[0 := 2000.0], e)
  }

  const SUCCEEDS := Finishes(Success, None, 2001.0)
  const FAILS := Finishes(Failed, None, 2001.0)
  const TIMED_OUT := Fire(Sweep(2000.0), Started(1.0))

  lemma {:induction false} TimedOutFacts()
    ensures Fires(Sweep(2000.0), Started(1.0)) && TIMED_OUT.status == Failed && TIMED_OUT.statusUpdatedAt == 2000.0
    ensures Fires(SUCCEEDS, Started(1.0)) && Fires(FAILS, TIMED_OUT)
    ensures Fire(SUCCEEDS, Started(1.0)).status == Success && Fire(SUCCEEDS, Started(1.0)).statusUpdatedAt == 2001.0
    ensures Fire(FAILS, TIMED_OUT).status == Failed && Fire(FAILS, TIMED_OUT).statusUpdatedAt == 2000.0
  {
  }

  // Two reports are on their way: one that saw the run RUNNING, and one that saw it FAILED.
  function TwoReports(): State {
    WithEdit(Reporting(2001.0, TIMED_OUT, map[0 := 2000.0], SUCCEEDS), 1, FAILS)
  }

  lemma {:induction false} ReachLater() returns (r: Run)
    ensures Reaches(r, Reporting(2001.0, TIMED_OUT, map[0 := 2000.0], SUCCEEDS), 2) && Serial(r)
  {
    r := ReachFailed(SUCCEEDS);
    r := Ticks(r, TimedOutRun(SUCCEEDS), 2, 2001.0, 0);
  }

  lemma {:induction false} ReachTwoReports() returns (r: Run)
    ensures Reaches(r, TwoReports(), 2) && Serial(r)
  {
    r := ReachLater();
    TimedOutFacts();
    r := ReadsForReport(r, Reporting(2001.0, TIMED_OUT, map[0 := 2000.0], SUCCEEDS), 2, 1, FAILS);
  }

  function Succeeded(): State {
    WrittenBack(TwoReports(), 0, Fire(SUCCEEDS, Started(1.0)))
  }

  lemma {:induction false} TwoReportsFacts()
    ensures var s := TwoReports();
            && 0 in s.edits && s.edits[0] == Edit(Snapshot("x", Started(1.0)), SUCCEEDS, 1.0)
            && 1 in s.edits && s.edits[1] == Edit(Snapshot("x", TIMED_OUT), FAILS, 2001.0)
            && s.clock == 2001.0 && NoneLive(s.calls) && s.files["x"] == TIMED_OUT
  {
  }

  lemma {:induction false} ReachReplaced() returns (r: Run)
    ensures Reaches(r, Succeeded(), 3) && Serial(r)
  {
    r := ReachTwoReports();
    TimedOutFacts();
    TwoReportsFacts();
    r := Writes(r, TwoReports(), 2, 0, Started(1.0), SUCCEEDS, 0);
  }

  lemma {:induction false} SucceededFacts()
    ensures var s, step := Succeeded(), WriteBack(1, 2001.0);
            && 1 in s.edits && s.edits[1] == Edit(Snapshot("x", TIMED_OUT), FAILS, 2001.0)
            && s.clock == 2001.0 && NoneLive(s.calls) && s.files["x"] == Fire(SUCCEEDS, Started(1.0))
            && ReplacesFinal(s, step, "x") && ReportsFile(s, step, "x")
  {
    TimedOutFacts();
    TwoReportsFacts();
  }

  // The late report makes the run a success, and the repeated one a failure again: four changes in all, the last of
  // them back to an older status time, although the worker polls from one loop.
  lemma {:induction false} OutdatedReports() returns (r: Run, i: nat)
    ensures ValidRun(r) && Serial(r) && Changes(r, "x", |r.steps|) == 4
    ensures i < |r.steps| && TimeFalls(r, i, "x") && ReplacesFinal(r.states[i], r.steps[i], "x") && ReportsFile(r.states[i], r.steps[i], "x")
  {
    r := ReachReplaced();
    TimedOutFacts();
    SucceededFacts();
    i := |r.steps|;
    r := Writes(r, Succeeded(), 3, 1, TIMED_OUT, FAILS, 0);
  }

  // ----- writes over a final status by a sweep and by a stop -----

  // A report and a sweep that had read the clock at 2000 have both read the run RUNNING, the sweep at 2006.
  function ReportAndSweep(): State {
    WithEdit(Reporting(2006.0, Started(1.0), map[0 := 2000.0], LATE_SUCCESS), 1, Sweep(2000.0))
  }

  const LATE_SUCCESS := Finishes(Success, None, 2006.0)

  lemma {:induction false} ReachReportAndSweep() returns (r: Run)
    ensures Reaches(r, ReportAndSweep(), 1) && Serial(r)
  {
    var waiting := Reporting(2006.0, Started(1.0), map[0 := 2000.0], LATE_SUCCESS);
    r := ReachSweepReporting(LATE_SUCCESS);
    r := Ticks(r, Reporting(2000.0, Started(1.0), map[0 := 2000.0], LATE_SUCCESS), 1, 2006.0, 0);
    TimedOutFacts();
    ReportingFacts(2006.0, Started(1.0), map[0 := 2000.0], LATE_SUCCESS, TIMED_OUT);
    r := ReadsForSweep(r, waiting, 1, 0, 1);
  }

  lemma {:induction false} LateSuccessFacts()
    ensures Fires(LATE_SUCCESS, Started(1.0)) && Fire(LATE_SUCCESS, Started(1.0)).status == Success
    ensures Fire(LATE_SUCCESS, Started(1.0)).statusUpdatedAt == 2006.0
    ensures var s := ReportAndSweep();
            && 0 in s.edits && s.edits[0] == Edit(Snapshot("x", Started(1.0)), LATE_SUCCESS, 1.0)
            && s.clock == 2006.0 && NoneLive(s.calls) && s.files["x"] == Started(1.0)
  {
  }

  function SuccessUnderSweep(): State {
    WrittenBack(ReportAndSweep(), 0, Fire(LATE_SUCCESS, Started(1.0)))
  }

  lemma {:induction false} ReachSuccessUnderSweep() returns (r: Run)
    ensures Reaches(r, SuccessUnderSweep(), 2) && Serial(r)
  {
    r := ReachReportAndSweep();
    LateSuccessFacts();
    r := Writes(r, ReportAndSweep(), 1, 0, Started(1.0), LATE_SUCCESS, 0);
  }

  lemma {:induction false} SuccessUnderSweepFacts()
    ensures var s, step := SuccessUnderSweep(), WriteBack(1, 2006.0);
            && 1 in s.edits && s.edits[1] == Edit(Snapshot("x", Started(1.0)), Sweep(2000.0), 2006.0)
            && s.clock == 2006.0 && NoneLive(s.calls) && s.files["x"] == Fire(LATE_SUCCESS, Started(1.0))
            && ReplacesFinal(s, step, "x") && SweepsFile(s, step, "x")
  {
    LateSuccessFacts();
  }

  // The report lands between the sweep's read and its write: a success becomes a failure, dated before it.
  lemma {:induction false} SweepOverSuccess() returns (r: Run, i: nat)
    ensures ValidRun(r) && Serial(r) && i < |r.steps| && SweepsFile(r.states[i], r.steps[i], "x")
    ensures ReplacesFinal(r.states[i], r.steps[i], "x") && r.states[i].files["x"].status == Success && TimeFalls(r, i, "x")
  {
    r := ReachSuccessUnderSweep();
    LateSuccessFacts();
    SuccessUnderSweepFacts();
    TimedOutFacts();
    i := |r.steps|;
    r := Writes(r, SuccessUnderSweep(), 2, 1, Started(1.0), Sweep(2000.0), 0);
  }

  lemma {:induction false} PastRunningStays(r: Run, i: nat, j: nat)
    requires ValidRun(r) && i <= j < |r.states| && "x" in r.states[i].files && r.states[i].files["x"].status !in {Queued, Running}
    ensures "x" in r.states[j].files && r.states[j].files["x"].status !in {Queued, Running}
  {
    if i < j {
      PastRunningStays(r, i, j - 1);
      StepTaken(r, j - 1);
      InvThroughout(r, j - 1);
      StaysPastRunning(r.states[j - 1], r.steps[j - 1], "x");
    }
  }

  // Until the run is started, and while it runs, nothing can have replaced a final status.
  lemma {:induction false} UnreplacedWhileRunning(r: Run, n: nat)
    requires ValidRun(r) && n < |r.states| && "x" in r.states[n].files && r.states[n].files["x"].status in {Queued, Running}
    ensures forall k :: 0 <= k < n ==> !ReplacesFinal(r.states[k], r.steps[k], "x")
  {
    forall k | 0 <= k < n ensures !ReplacesFinal(r.states[k], r.steps[k], "x") {
      if ReplacesFinal(r.states[k], r.steps[k], "x") { PastRunningStays(r, k, n); }
    }
  }

  lemma {:induction false} UnreplacedCount(r: Run, n: nat)
    requires Unreplaced(r) && n < |r.states| == |r.steps| + 1
    ensures Replacements(r, "x", n) == 0
  {
    if n > 0 { UnreplacedCount(r, n - 1); }
  }

  // A report and a stop have both read the run RUNNING.
  function ReportAndStop(): State {
    WithEdit(Reporting(1.0, Started(1.0), map[], QUICK_SUCCESS), 1, Stop(1.0))
  }

  const QUICK_SUCCESS := Finishes(Success, None, 1.0)

  lemma {:induction false} QuickSuccessFacts()
    ensures Fires(QUICK_SUCCESS, Started(1.0)) && Fire(QUICK_SUCCESS, Started(1.0)).status == Success
    ensures Fires(Stop(1.0), Started(1.0)) && Fire(Stop(1.0), Started(1.0)).status == Canceling
    ensures var s, step := ReportAndStop(), WriteBack(0, 1.0);
            && 0 in s.edits && s.edits[0] == Edit(Snapshot("x", Started(1.0)), QUICK_SUCCESS, 1.0)
            && s.clock == 1.0 && NoneLive(s.calls) && s.files["x"] == Started(1.0) && !ReplacesFinal(s, step, "x")
  {
  }

  lemma {:induction false} ReachReportAndStop() returns (r: Run)
    ensures Reaches(r, ReportAndStop(), 1) && Serial(r) && Unreplaced(r)
  {
    r := ReachReporting(QUICK_SUCCESS);
    UnreplacedWhileRunning(r, |r.steps|);
    ReportingFacts(1.0, Started(1.0), map[], QUICK_SUCCESS, Started(1.0));
    r := ReadsForStop(r, Reporting(1.0, Started(1.0), map[], QUICK_SUCCESS), 1, 1, 0);
  }

  function SuccessUnderStop(): State {
    WrittenBack(ReportAndStop(), 0, Fire(QUICK_SUCCESS, Started(1.0)))
  }

  lemma {:induction false} ReachSuccessUnderStop() returns (r: Run)
    ensures Reaches(r, SuccessUnderStop(), 2) && Serial(r) && Unreplaced(r)
  {
    r := ReachReportAndStop();
    QuickSuccessFacts();
    r := Writes(r, ReportAndStop(), 1, 0, Started(1.0), QUICK_SUCCESS, 0);
  }

  // The run is being stopped although it has succeeded.
  function Reopened(clock: Time, record: Record, sweeps: map<nat, Time>): State {
    Begun(clock, record).(sweeps := sweeps, finished := {"x"})
  }

  lemma {:induction false} SuccessUnderStopFacts()
    ensures var s, step := SuccessUnderStop(), WriteBack(1, 1.0);
            && 1 in s.edits && s.edits[1] == Edit(Snapshot("x", Started(1.0)), Stop(1.0), 1.0)
            && s.clock == 1.0 && NoneLive(s.calls) && s.files["x"] == Fire(QUICK_SUCCESS, Started(1.0))
            && Reopens(s, step, "x") && !ReplacesFinal(s, step, "x")
    ensures WrittenBack(SuccessUnderStop(), 1, Fire(Stop(1.0), Started(1.0))) == Reopened(1.0, Fire(Stop(1.0), Started(1.0)), map[])
  {
    QuickSuccessFacts();
    assert SuccessUnderStop().edits - {1} == map[];
  }

  lemma {:induction false} ReachReopened() returns (r: Run)
    ensures Reaches(r, Reopened(1.0, Fire(Stop(1.0), Started(1.0)), map[]), 3) && Serial(r) && Unreplaced(r)
  {
    r := ReachSuccessUnderStop();
    QuickSuccessFacts();
    SuccessUnderStopFacts();
    r := Writes(r, SuccessUnderStop(), 2, 1, Started(1.0), Stop(1.0), 0);
  }

  lemma {:induction false} ReopenedFacts(clock: Time, record: Record, sweeps: map<nat, Time>)
    ensures NoneLive(Reopened(clock, record, sweeps).calls) && Unheld(Reopened(clock, record, sweeps))
    ensures Fires(Sweep(400.0), Fire(Stop(1.0), Started(1.0)))
  {
  }

  lemma {:induction false} ReachOldStop() returns (r: Run)
    ensures Reaches(r, Reopened(400.0, Fire(Stop(1.0), Started(1.0)), map[0 := 400.0]), 3) && Serial(r) && Unreplaced(r)
  {
    var stopped := Fire(Stop(1.0), Started(1.0));
    r := ReachReopened();
    r := Ticks(r, Reopened(1.0, stopped, map[]), 3, 400.0, 0);
    r := StartsSweep(r, Reopened(400.0, stopped, map[]), 3, 0);
  }

  // The report lands between the stop's read and its write: a success becomes CANCELING, and minutes later a sweep
  // cancels it by force. Four changes, none of which replaces a final status by another; one reopens it.
  lemma {:induction false} StopOverSuccess() returns (r: Run)
    ensures ValidRun(r) && Serial(r) && Unreplaced(r)
    ensures Changes(r, "x", |r.steps|) == 4 && Reopenings(r, "x", |r.steps|) == 1
  {
    var stopped := Fire(Stop(1.0), Started(1.0));
    r := ReachOldStop();
    ReopenedFacts(400.0, stopped, map[0 := 400.0]);
    r := Sweeps(r, Reopened(400.0, stopped, map[0 := 400.0]), 3, 0, 0);
    UnreplacedCount(r, |r.steps|);
    ChangesBound(r, "x", |r.steps|);
  }

  function StoppedRun(clock: Time): State {
    Begun(clock, Fire(Stop(1.0), Started(1.0)))
  }

  lemma {:induction false} ReachStopped() returns (r: Run)
    ensures Reaches(r, StoppedRun(1.0), 2) && Serial(r)
  {
    r := ReachStarted();
    r := Stops(r, Begun(1.0, Started(1.0)), 1, 0, 0);
  }

  const CONFIRMS := Finishes(Canceled, None, 1.0)

  lemma {:induction false} ConfirmationFacts()
    ensures var stopped := Fire(Stop(1.0), Started(1.0));
            stopped.status == Canceling && Fires(CONFIRMS, stopped) && UserCanceled(Fire(CONFIRMS, stopped))
  {
  }

  lemma {:induction false} ReachConfirming() returns (r: Run)
    ensures Reaches(r, WithEdit(StoppedRun(1.0), 0, CONFIRMS), 2) && Serial(r)
  {
    r := ReachStopped();
    ConfirmationFacts();
    r := ReadsForReport(r, StoppedRun(1.0), 2, 0, CONFIRMS);
  }

  // A worker confirms a stop: the run was started, and is canceled in the user's name.
  lemma {:induction false} StartedYetUserCanceled() returns (r: Run)
    ensures ValidRun(r) && Serial(r) && Shows(UserCanceled, r, |r.steps|, "x")
  {
    r := ReachConfirming();
    ConfirmationFacts();
    r := ReportShows(UserCanceled, r, WithEdit(StoppedRun(1.0), 0, CONFIRMS), 2, 0, Fire(Stop(1.0), Started(1.0)), CONFIRMS);
  }

  const FIVE_SECONDS := Finishes(Failed, Some(5), 2000.0)

  lemma {:induction false} FiveSecondsFacts()
    ensures TIMED_OUT.status == Failed && Fires(FIVE_SECONDS, TIMED_OUT) && ShortTimeout(Fire(FIVE_SECONDS, TIMED_OUT))
  {
  }

  function AgedRun(): State {
    Sweeping(2000.0, TIMED_OUT)
  }

  lemma {:induction false} ReachAged() returns (r: Run)
    ensures Reaches(r, WithEdit(AgedRun(), 0, FIVE_SECONDS), 2) && Serial(r)
  {
    r := ReachStarted();
    r := ReachSweeping(r, 1.0, 2000.0, Started(1.0), 1);
    TimedOutFacts();
    r := ReachSwept(r, 2000.0, Started(1.0), 1);
    FiveSecondsFacts();
    SweepingFacts(2000.0, TIMED_OUT, TIMED_OUT);
    r := ReadsForReport(r, AgedRun(), 2, 0, FIVE_SECONDS);
  }

  // A late report of five seconds for a run that had timed out after more than half an hour.
  lemma {:induction false} TimeoutOfFiveSeconds() returns (r: Run)
    ensures ValidRun(r) && Serial(r) && Shows(ShortTimeout, r, |r.steps|, "x")
  {
    r := ReachAged();
    FiveSecondsFacts();
    r := ReportShows(ShortTimeout, r, WithEdit(AgedRun(), 0, FIVE_SECONDS), 2, 0, TIMED_OUT, FIVE_SECONDS);
  }

  const FORCED := Fire(Sweep(400.0), Fire(Stop(1.0), Started(1.0)))
  const STOPPED_EARLY := Finishes(Canceled, Some(5), 400.0)

  lemma {:induction false} ForcedFacts()
    ensures Fires(Sweep(400.0), Fire(Stop(1.0), Started(1.0))) && FORCED.status == Canceled
    ensures Fires(STOPPED_EARLY, FORCED) && ShortForcedCancel(Fire(STOPPED_EARLY, FORCED))
  {
  }

  function ForcedRun(): State {
    Sweeping(400.0, FORCED)
  }

  lemma {:induction false} ReachForced() returns (r: Run)
    ensures Reaches(r, WithEdit(ForcedRun(), 0, STOPPED_EARLY), 3) && Serial(r)
  {
    r := ReachStopped();
    ForcedFacts();
    r := ReachSweeping(r, 1.0, 400.0, Fire(Stop(1.0), Started(1.0)), 2);
    r := ReachSwept(r, 400.0, Fire(Stop(1.0), Started(1.0)), 2);
    SweepingFacts(400.0, FORCED, FORCED);
    r := ReadsForReport(r, ForcedRun(), 3, 0, STOPPED_EARLY);
  }

  // The same for a run that was canceled by force.
  lemma {:induction false} ForcedCancelOfFiveSeconds() returns (r: Run)
    ensures ValidRun(r) && Serial(r) && Shows(ShortForcedCancel, r, |r.steps|, "x")
  {
    r := ReachForced();
    ForcedFacts();
    r := ReportShows(ShortForcedCancel, r, WithEdit(ForcedRun(), 0, STOPPED_EARLY), 3, 0, FORCED, STOPPED_EARLY);
  }
}
