// The sliding-window limit on failed logins.
module LoginLimiter {
  import opened Filters
  import opened SetSizes

  type Time = real

  const WINDOW: Time := 60.0
  const MAX_FAILURES := 5

  function After(times: seq<Time>, cutoff: Time): seq<Time> {
    if times == [] then []
    else if times[0] > cutoff then [times[0]] + After(times[1..], cutoff)
    else After(times[1..], cutoff)
  }

  function LaterThan(cutoff: Time): Time -> bool {
    (t: Time) => t > cutoff
  }

  lemma {:induction false} AfterFilters(times: seq<Time>, cutoff: Time)
    ensures After(times, cutoff) == Filter(LaterThan(cutoff), times)
  {
    if times != [] { AfterFilters(times[1..], cutoff); }
  }

  class Limiter {
    var attempts: map<string, seq<Time>>

    constructor ()
      ensures attempts == map[]
    {
      attempts := map[];
    }

    // `now` was read before the lock was taken.
    method Allow(key: string, now: Time) returns (ok: bool)
      modifies this
      ensures attempts == old(attempts)[key := Pruned(old(attempts), key, now)]
      // It keeps the failures of the last minute and allows fewer than five of them.
      ensures attempts[key] == Filter(LaterThan(now - 60.0), Known(old(attempts), key))
      ensures ok <==> |attempts[key]| < 5
    {
      var cutoff := now - WINDOW;
      var known := if key in attempts then attempts[key] else [];
      var arr: seq<Time> := [];
      for i := 0 to |known|
        invariant arr + After(known[i..], cutoff) == After(known, cutoff)
      {
        assert known[i..][1..] == known[i + 1..];
        ghost var rest := After(known[i + 1..], cutoff);
        assert arr + ([known[i]] + rest) == (arr + [known[i]]) + rest;
        if known[i] > cutoff { arr := arr + [known[i]]; }
      }
      assert known[|known|..] == [] && arr + [] == arr;
      AfterFilters(known, cutoff);
      attempts := attempts[key := arr];
      ok := |arr| < MAX_FAILURES;
    }

    method RecordFailure(key: string, now: Time)
      modifies this
      ensures attempts == old(attempts)[key := Known(old(attempts), key) + [now]]
    {
      if key !in attempts { attempts := attempts[key := []]; }
      attempts := attempts[key := attempts[key] + [now]];
    }

    method Reset(key: string)
      modifies this
      ensures attempts == old(attempts) - {key}
    {
      attempts := attempts - {key};
    }

    // One login that nothing comes in between: checked with the reading `now`, decided at `later`. It leaves what the
    // steps of login c leave that the concurrent runs below are made of, each enabled in its turn, and is turned away
    // exactly when those end it.
    method Login(key: string, now: Time, later: Time, valid: bool, ghost s: State, ghost c: nat) returns (response: Response)
      requires s.attempts == attempts && s.clock == now <= later && c !in s.logins
      modifies this
      ensures StepsEnabled(s, c, key, later, valid)
      ensures attempts == Attempted(s, c, key, later, valid).attempts
      ensures response == TooMany <==> c !in Checked(s, c, key).logins
      ensures response == TooMany <==> |Filter(LaterThan(now - 60.0), Known(old(attempts), key))| >= 5
      ensures response != TooMany ==> response == if valid then LoggedIn else Refused
    {
      AttemptIsARun(s, c, key, later, valid);
      var ok := Allow(key, now);
      if !ok { return TooMany; }
      if !valid {
        RecordFailure(key, later);
        return Refused;
      }
      Reset(key);
      return LoggedIn;
    }
  }

  datatype Response = TooMany | Refused | LoggedIn

  function Known(attempts: map<string, seq<Time>>, key: string): seq<Time> {
    if key in attempts then attempts[key] else []
  }

  function Pruned(attempts: map<string, seq<Time>>, key: string, now: Time): seq<Time> {
    After(Known(attempts, key), now - WINDOW)
  }

  // ----- concurrent login attempts -----

  // A login call has read the clock, then has been let through, and then leaves: with a recorded
  // failure, with a success, or (an error on the way) with neither.
  datatype Login = Waiting(key: string, now: Time) | LetThrough(key: string)

  datatype State = State(
    clock: Time,
    attempts: map<string, seq<Time>>,
    logins: map<nat, Login>,
    failures: map<string, seq<Time>>)      // all failures since the key's last reset, pruned or not

  datatype Step =
    | Tick(to: Time)
    | Begin(c: nat, key: string)
    | Check(c: nat)
    | Fail(c: nat)
    | Succeed(c: nat)
    | Abort(c: nat)

  ghost predicate Enabled(s: State, step: Step) {
    match step
    case Tick(to) => s.clock <= to
    case Begin(c, _) => c !in s.logins
    case Check(c) => c in s.logins && s.logins[c].Waiting?
    case Fail(c) => c in s.logins && s.logins[c].LetThrough?
    case Succeed(c) => c in s.logins && s.logins[c].LetThrough?
    case Abort(c) => c in s.logins
  }

  function Apply(s: State, step: Step): State {
    match step
    case Tick(to) => s.(clock := to)
    case Begin(c, key) => s.(logins := s.logins[c := Waiting(key, s.clock)])
    case Check(c) =>
      if c in s.logins && s.logins[c].Waiting? then
        var (key, now) := (s.logins[c].key, s.logins[c].now);
        var kept := Pruned(s.attempts, key, now);
        s.(attempts := s.attempts[key := kept],
           logins := if |kept| < MAX_FAILURES then s.logins[c := LetThrough(key)] else s.logins - {c})
      else s
    case Fail(c) =>
      if c in s.logins then
        var key := s.logins[c].key;
        s.(attempts := s.attempts[key := Known(s.attempts, key) + [s.clock]],
           failures := s.failures[key := Known(s.failures, key) + [s.clock]],
           logins := s.logins - {c})
      else s
    case Succeed(c) =>
      if c in s.logins then
        var key := s.logins[c].key;
        s.(attempts := s.attempts - {key}, failures := s.failures - {key}, logins := s.logins - {c})
      else s
    case Abort(c) => s.(logins := s.logins - {c})
  }

  function Checked(s: State, c: nat, key: string): State {
    Apply(Apply(s, Begin(c, key)), Check(c))
  }

  // Login c from its clock reading to its outcome.
  function Attempted(s: State, c: nat, key: string, later: Time, valid: bool): State {
    if c !in Checked(s, c, key).logins then Checked(s, c, key)
    else Apply(Apply(Checked(s, c, key), Tick(later)), if valid then Succeed(c) else Fail(c))
  }

  ghost predicate StepsEnabled(s: State, c: nat, key: string, later: Time, valid: bool) {
    && Enabled(s, Begin(c, key)) && Enabled(Apply(s, Begin(c, key)), Check(c))
    && (c in Checked(s, c, key).logins ==>
          && Enabled(Checked(s, c, key), Tick(later))
          && Enabled(Apply(Checked(s, c, key), Tick(later)), if valid then Succeed(c) else Fail(c)))
  }

  // Each of these steps is enabled when its turn comes.
  lemma {:induction false} AttemptIsARun(s: State, c: nat, key: string, later: Time, valid: bool)
    requires c !in s.logins && s.clock <= later
    ensures StepsEnabled(s, c, key, later, valid)
  {
  }

  ghost predicate Initial(s: State) {
    s.attempts == map[] && s.logins == map[] && s.failures == map[]
  }

  datatype Run = Run(states: seq<State>, steps: seq<Step>)

  ghost predicate StepAt(r: Run, i: nat)
    requires i < |r.steps| && |r.states| == |r.steps| + 1
  {
    Enabled(r.states[i], r.steps[i]) && r.states[i + 1] == Apply(r.states[i], r.steps[i])
  }

  ghost predicate ValidRun(r: Run) {
    |r.states| == |r.steps| + 1 && Initial(r.states[0]) && forall i :: 0 <= i < |r.steps| ==> StepAt(r, i)
  }

  function PassedWith(logins: map<nat, Login>, key: string): set<nat> {
    set c | c in logins && logins[c] == LetThrough(key)
  }

  // Number of entries in (from, to].
  function InWindow(times: seq<Time>, from: Time, to: Time): nat {
    if times == [] then 0 else (if from < times[0] <= to then 1 else 0) + InWindow(times[1..], from, to)
  }

  // Entries are in time order, none from the future; pruning has only taken entries that had left the window by now.
  ghost predicate HistoryOk(s: State, key: string) {
    && (forall i :: 0 <= i < |Known(s.failures, key)| ==> Known(s.failures, key)[i] <= s.clock)
    && After(Known(s.attempts, key), s.clock - WINDOW) == After(Known(s.failures, key), s.clock - WINDOW)
    && (forall c :: c in s.logins && s.logins[c].Waiting? ==> s.logins[c].now <= s.clock)
  }

  // Recent failures and attempts still on their way to one, together.
  ghost predicate BudgetOk(s: State, key: string, k: nat) {
    |After(Known(s.failures, key), s.clock - WINDOW)| + |PassedWith(s.logins, key)| <= MAX_FAILURES - 1 + k
  }

  // Failures in the window that ends at `to`.
  function FailuresUpTo(s: State, key: string, to: Time): nat {
    InWindow(Known(s.failures, key), to - WINDOW, to)
  }

  // No window, wherever it lies, holds more.
  ghost predicate WindowsOk(s: State, key: string, k: nat) {
    forall to: Time :: FailuresUpTo(s, key, to) <= MAX_FAILURES - 1 + k
  }

  lemma {:induction false} AfterAfter(times: seq<Time>, a: Time, b: Time)
    requires a <= b
    ensures After(After(times, a), b) == After(times, b)
    ensures |After(times, b)| <= |After(times, a)|
  {
    if times != [] {
      AfterAfter(times[1..], a, b);
      var rest := After(times[1..], a);
      assert ([times[0]] + rest)[1..] == rest;
    }
  }

  lemma {:induction false} AfterConcat(a: seq<Time>, b: seq<Time>, cutoff: Time)
    ensures After(a + b, cutoff) == After(a, cutoff) + After(b, cutoff)
  {
    if a == [] {
      assert a + b == b;
    } else {
      assert (a + b)[1..] == a[1..] + b;
      AfterConcat(a[1..], b, cutoff);
    }
  }

  lemma {:induction false} WindowConcat(a: seq<Time>, b: seq<Time>, from: Time, to: Time)
    ensures InWindow(a + b, from, to) == InWindow(a, from, to) + InWindow(b, from, to)
  {
    if a == [] {
      assert a + b == b;
    } else {
      assert (a + b)[1..] == a[1..] + b;
      WindowConcat(a[1..], b, from, to);
    }
  }

  // A window's entries are among those after its start.
  lemma {:induction false} WindowWithin(times: seq<Time>, from: Time, to: Time)
    ensures InWindow(times, from, to) <= |After(times, from)|
  {
    if times != [] { WindowWithin(times[1..], from, to); }
  }

  // The check reads the list as if it had read the clock at once: what an older reading keeps in
  // addition only makes it stricter.
  lemma {:induction false} CheckCountsEnough(s: State, key: string, now: Time)
    requires HistoryOk(s, key) && now <= s.clock
    ensures After(Pruned(s.attempts, key, now), s.clock - WINDOW) == After(Known(s.failures, key), s.clock - WINDOW)
    ensures |After(Known(s.failures, key), s.clock - WINDOW)| <= |Pruned(s.attempts, key, now)|
  {
    AfterAfter(Known(s.attempts, key), now - WINDOW, s.clock - WINDOW);
  }

  lemma {:induction false} HistoryKept(s: State, step: Step, key: string)
    requires HistoryOk(s, key) && Enabled(s, step)
    ensures HistoryOk(Apply(s, step), key)
  {
    var known, all := Known(s.attempts, key), Known(s.failures, key);
    match step
    case Tick(to) =>
      AfterAfter(known, s.clock - WINDOW, to - WINDOW);
      AfterAfter(all, s.clock - WINDOW, to - WINDOW);
    case Check(c) =>
      if s.logins[c].key == key { CheckCountsEnough(s, key, s.logins[c].now); }
    case Fail(c) =>
      if s.logins[c].key == key {
        AfterConcat(known, [s.clock], s.clock - WINDOW);
        AfterConcat(all, [s.clock], s.clock - WINDOW);
      }
    case _ =>
  }

  lemma {:induction false} CheckKeepsBudget(s: State, c: nat, key: string, k: nat)
    requires HistoryOk(s, key) && BudgetOk(s, key, k) && Enabled(s, Check(c))
    requires |PassedWith(Apply(s, Check(c)).logins, key)| <= k
    ensures BudgetOk(Apply(s, Check(c)), key, k)
  {
    var s' := Apply(s, Check(c));
    var before, after := PassedWith(s.logins, key), PassedWith(s'.logins, key);
    if s.logins[c].key == key {
      CheckCountsEnough(s, key, s.logins[c].now);
      if s'.logins.Keys != s.logins.Keys { assert after == before; }
    } else {
      assert after == before;
    }
  }

  lemma {:induction false} FailKeepsBudget(s: State, c: nat, key: string, k: nat)
    requires BudgetOk(s, key, k) && Enabled(s, Fail(c))
    ensures BudgetOk(Apply(s, Fail(c)), key, k)
  {
    var before, after := PassedWith(s.logins, key), PassedWith(Apply(s, Fail(c)).logins, key);
    if s.logins[c].key == key {
      AfterConcat(Known(s.failures, key), [s.clock], s.clock - WINDOW);
      assert after == before - {c};
    } else {
      assert after == before;
    }
  }

  lemma {:induction false} BudgetKept(s: State, step: Step, key: string, k: nat)
    requires HistoryOk(s, key) && BudgetOk(s, key, k) && Enabled(s, step)
    requires |PassedWith(Apply(s, step).logins, key)| <= k
    ensures BudgetOk(Apply(s, step), key, k)
  {
    var s' := Apply(s, step);
    var before, after := PassedWith(s.logins, key), PassedWith(s'.logins, key);
    match step
    case Tick(to) => AfterAfter(Known(s.failures, key), s.clock - WINDOW, to - WINDOW);
    case Begin(c, _) => assert after == before;
    case Check(c) => CheckKeepsBudget(s, c, key, k);
    case Fail(c) => FailKeepsBudget(s, c, key, k);
    case Succeed(c) => SubsetSize(after, before);
    case Abort(c) => SubsetSize(after, before);
  }

  lemma {:induction false} WindowsKept(s: State, step: Step, key: string, k: nat)
    requires HistoryOk(s, key) && BudgetOk(s, key, k) && WindowsOk(s, key, k) && Enabled(s, step)
    ensures WindowsOk(Apply(s, step), key, k)
  {
    var s', all := Apply(s, step), Known(s.failures, key);
    var mine := step.Fail? && s.logins[step.c].key == key;
    assert mine ==> step.c in PassedWith(s.logins, key);
    assert !mine ==> Known(s'.failures, key) == all || Known(s'.failures, key) == [];
    forall to: Time ensures FailuresUpTo(s', key, to) <= MAX_FAILURES - 1 + k {
      assert FailuresUpTo(s, key, to) <= MAX_FAILURES - 1 + k;
      if mine {
        WindowConcat(all, [s.clock], to - WINDOW, to);
        if to - WINDOW < s.clock <= to {
          WindowWithin(all, to - WINDOW, to);
          AfterAfter(all, s.clock - WINDOW, to - WINDOW);
        }
      }
    }
  }

  lemma {:induction false} LimitThroughout(r: Run, i: nat, key: string, k: nat)
    requires ValidRun(r) && i < |r.states|
    requires forall j :: 0 <= j < |r.states| ==> |PassedWith(r.states[j].logins, key)| <= k
    ensures HistoryOk(r.states[i], key) && BudgetOk(r.states[i], key, k) && WindowsOk(r.states[i], key, k)
  {
    if i == 0 {
      assert PassedWith(map[], key) == {};
    } else {
      LimitThroughout(r, i - 1, key, k);
      assert StepAt(r, i - 1);
      HistoryKept(r.states[i - 1], r.steps[i - 1], key);
      BudgetKept(r.states[i - 1], r.steps[i - 1], key, k);
      WindowsKept(r.states[i - 1], r.steps[i - 1], key, k);
    }
  }

  // With at most k attempts for the key between check and outcome at any time, no 60-second window
  // since the last successful login holds more than 4 + k failures.
  lemma {:induction false} SlidingWindowBound(r: Run, i: nat, key: string, k: nat, to: Time)
    requires ValidRun(r) && i < |r.states|
    requires forall j :: 0 <= j < |r.states| ==> |PassedWith(r.states[j].logins, key)| <= k
    ensures InWindow(Known(r.states[i].failures, key), to - 60.0, to) <= 4 + k
  {
    LimitThroughout(r, i, key, k);
    assert FailuresUpTo(r.states[i], key, to) <= MAX_FAILURES - 1 + k;
  }

  // Attempts that follow one another get exactly the configured limit.
  lemma {:induction false} SerialWindowBound(r: Run, i: nat, key: string, to: Time)
    requires ValidRun(r) && i < |r.states|
    requires forall j :: 0 <= j < |r.states| ==> |PassedWith(r.states[j].logins, key)| <= 1
    ensures InWindow(Known(r.states[i].failures, key), to - 60.0, to) <= 5
  {
    SlidingWindowBound(r, i, key, 1, to);
  }

  // ----- when a check refuses -----

  // The times at which attempts of the key failed since one last succeeded, read off the steps.
  function FailureTimes(r: Run, key: string, n: nat): seq<Time>
    requires n <= |r.steps| <= |r.states|
  {
    if n == 0 then []
    else
      var (s, step) := (r.states[n - 1], r.steps[n - 1]);
      if step.Fail? && step.c in s.logins && s.logins[step.c].key == key then FailureTimes(r, key, n - 1) + [s.clock]
      else if step.Succeed? && step.c in s.logins && s.logins[step.c].key == key then []
      else FailureTimes(r, key, n - 1)
  }

  lemma {:induction false} FailuresAreRecorded(r: Run, key: string, n: nat)
    requires ValidRun(r) && n < |r.states|
    ensures Known(r.states[n].failures, key) == FailureTimes(r, key, n)
  {
    if n > 0 {
      FailuresAreRecorded(r, key, n - 1);
      assert StepAt(r, n - 1);
    }
  }

  // The stored list has no more recent entries than there were failures.
  ghost predicate NoExtraEntries(s: State, key: string) {
    forall cutoff: Time :: |After(Known(s.attempts, key), cutoff)| <= |After(Known(s.failures, key), cutoff)|
  }

  lemma {:induction false} AfterTwice(times: seq<Time>, a: Time, b: Time)
    ensures |After(After(times, a), b)| <= |After(times, b)|
  {
    if times != [] {
      AfterTwice(times[1..], a, b);
      var rest := After(times[1..], a);
      assert ([times[0]] + rest)[1..] == rest;
    }
  }

  lemma {:induction false} ExtraEntriesKept(s: State, step: Step, key: string)
    requires NoExtraEntries(s, key) && Enabled(s, step)
    ensures NoExtraEntries(Apply(s, step), key)
  {
    var s' := Apply(s, step);
    forall cutoff: Time ensures |After(Known(s'.attempts, key), cutoff)| <= |After(Known(s'.failures, key), cutoff)| {
      assert |After(Known(s.attempts, key), cutoff)| <= |After(Known(s.failures, key), cutoff)|;
      if step.Check? && s.logins[step.c].key == key {
        AfterTwice(Known(s.attempts, key), s.logins[step.c].now - WINDOW, cutoff);
      } else if step.Fail? && s.logins[step.c].key == key {
        AfterConcat(Known(s.attempts, key), [s.clock], cutoff);
        AfterConcat(Known(s.failures, key), [s.clock], cutoff);
      }
    }
  }

  lemma {:induction false} HistoryThroughout(r: Run, i: nat, key: string)
    requires ValidRun(r) && i < |r.states|
    ensures HistoryOk(r.states[i], key) && NoExtraEntries(r.states[i], key)
  {
    if i > 0 {
      HistoryThroughout(r, i - 1, key);
      assert StepAt(r, i - 1);
      HistoryKept(r.states[i - 1], r.steps[i - 1], key);
      ExtraEntriesKept(r.states[i - 1], r.steps[i - 1], key);
    }
  }

  lemma {:induction false} CountAfter(times: seq<Time>, from: Time, to: Time)
    requires forall i :: 0 <= i < |times| ==> times[i] <= to
    ensures |After(times, from)| == InWindow(times, from, to)
  {
    if times != [] { CountAfter(times[1..], from, to); }
  }

  // A check refuses if five failures of the key since its last success lie in the last minute, and only if five lie in
  // the minute before its reading of the clock or after it.
  lemma {:induction false} CheckRefuses(r: Run, i: nat, c: nat)
    requires ValidRun(r) && i < |r.steps| && r.steps[i] == Check(c) && c in r.states[i].logins && r.states[i].logins[c].Waiting?
    ensures var (s, key, now) := (r.states[i], r.states[i].logins[c].key, r.states[i].logins[c].now);
            var failures := Known(s.failures, key);
            && (InWindow(failures, s.clock - 60.0, s.clock) >= 5 ==> c !in r.states[i + 1].logins)
            && (c !in r.states[i + 1].logins ==> InWindow(failures, now - 60.0, s.clock) >= 5)
  {
    var (s, key, now) := (r.states[i], r.states[i].logins[c].key, r.states[i].logins[c].now);
    assert StepAt(r, i);
    HistoryThroughout(r, i, key);
    CheckCountsEnough(s, key, now);
    CountAfter(Known(s.failures, key), s.clock - 60.0, s.clock);
    CountAfter(Known(s.failures, key), now - 60.0, s.clock);
  }

  // With a current reading that is exactly when: old failures no longer count.
  lemma {:induction false} CurrentCheckRefuses(r: Run, i: nat, c: nat)
    requires ValidRun(r) && i < |r.steps| && r.steps[i] == Check(c) && c in r.states[i].logins && r.states[i].logins[c].Waiting?
    requires r.states[i].logins[c].now == r.states[i].clock
    ensures c !in r.states[i + 1].logins
            <==> InWindow(FailureTimes(r, r.states[i].logins[c].key, i), r.states[i].clock - 60.0, r.states[i].clock) >= 5
  {
    CheckRefuses(r, i, c);
    FailuresAreRecorded(r, r.states[i].logins[c].key, i);
  }
}
