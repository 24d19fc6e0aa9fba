// Which writes make a record say something that the record alone would not lead one to expect.
module ExecutionReports {
  import opened Options
  import opened Executions
  import opened ExecutionProtocol
  import opened ExecutionHistory

  // Some step writes the file from a reading without the property and leaves it with the property.
  ghost predicate Introduces(bad: Record -> bool, s: State, step: Step, id: Id) {
    var w := WriteOf(s, step);
    w.Some? && w.value.id == id && Fires(w.value.event, w.value.base)
    && !bad(w.value.base) && bad(Fire(w.value.event, w.value.base))
  }

  ghost predicate Introduced(bad: Record -> bool, r: Run, n: nat, id: Id)
    requires n <= |r.steps| < |r.states|
  {
    exists k :: 0 <= k < n && Introduces(bad, r.states[k], r.steps[k], id)
  }

  // A property of records whose run has ended.
  ghost predicate OfFinalRuns(bad: Record -> bool) {
    forall r :: bad(r) ==> IsFinal(r.status)
  }

  // Every record with the property, in a file or about to be written back, has it from a write that introduced it.
  ghost predicate Accounts(bad: Record -> bool, r: Run, n: nat)
    requires n <= |r.steps| < |r.states|
  {
    && (forall id :: id in r.states[n].files && bad(r.states[n].files[id]) ==> Introduced(bad, r, n, id))
    && (forall p :: p in r.states[n].edits && bad(r.states[n].edits[p].snapshot.base) ==>
          Introduced(bad, r, n, r.states[n].edits[p].snapshot.id))
  }

  // A written record has the property from this step, or from the document the step read.
  lemma {:induction false} PropertyOfWrite(bad: Record -> bool, s: State, step: Step, id: Id)
    requires OfFinalRuns(bad) && RecordsOk(s) && IdsOk(s) && Enabled(s, step)
    requires id in FilesAfter(s, step) && bad(FilesAfter(s, step)[id])
    ensures || Introduces(bad, s, step, id)
            || (id in s.files && bad(s.files[id]))
            || (WritesBack(s, step, id) && bad(s.edits[step.p].snapshot.base))
  {
    if id in s.files {
      WriteLands(s, step, id);
      WriteSource(s, step, id);
    } else {
      NewFilesAreFresh(s, step);
    }
  }

  lemma {:induction false} AccountsStep(bad: Record -> bool, r: Run, n: nat)
    requires OfFinalRuns(bad) && ValidRun(r) && n < |r.steps| && Accounts(bad, r, n)
    ensures Accounts(bad, r, n + 1)
  {
    var s, step, s' := r.states[n], r.steps[n], r.states[n + 1];
    StepTaken(r, n);
    InvThroughout(r, n);
    forall id | id in s'.files && bad(s'.files[id]) ensures Introduced(bad, r, n + 1, id) {
      PropertyOfWrite(bad, s, step, id);
      if Introduces(bad, s, step, id) {
        assert Introduces(bad, r.states[n], r.steps[n], id);
      } else {
        StillIntroduced(bad, r, n, id);
      }
    }
    forall p | p in s'.edits && bad(s'.edits[p].snapshot.base)
      ensures Introduced(bad, r, n + 1, s'.edits[p].snapshot.id)
    {
      StillIntroduced(bad, r, n, s'.edits[p].snapshot.id);
    }
  }

  lemma {:induction false} StillIntroduced(bad: Record -> bool, r: Run, n: nat, id: Id)
    requires n < |r.steps| < |r.states| && Introduced(bad, r, n, id)
    ensures Introduced(bad, r, n + 1, id)
  {
  }

  lemma {:induction false} AccountsThroughout(bad: Record -> bool, r: Run, n: nat)
    requires OfFinalRuns(bad) && ValidRun(r) && n < |r.states|
    ensures Accounts(bad, r, n)
  {
    if n > 0 {
      AccountsThroughout(bad, r, n - 1);
      AccountsStep(bad, r, n - 1);
    }
  }

  ghost predicate Shows(bad: Record -> bool, r: Run, i: nat, id: Id)
    requires i < |r.states|
  {
    id in r.states[i].files && bad(r.states[i].files[id])
  }

  // A file shows the property at some time exactly when some write introduced it.
  lemma {:induction false} ShownIffIntroduced(bad: Record -> bool, r: Run, n: nat, id: Id)
    requires OfFinalRuns(bad) && ValidRun(r) && n < |r.states|
    ensures (exists i :: 0 <= i <= n && Shows(bad, r, i, id)) <==> Introduced(bad, r, n, id)
  {
    forall i | 0 <= i <= n && Shows(bad, r, i, id) ensures Introduced(bad, r, n, id) {
      AccountsThroughout(bad, r, i);
    }
    forall k | 0 <= k < n && Introduces(bad, r.states[k], r.steps[k], id) ensures Shows(bad, r, k + 1, id) {
      StepTaken(r, k);
      InvThroughout(r, k);
      WriteIsSound(r.states[k], r.steps[k], WriteOf(r.states[k], r.steps[k]).value);
      WriteLands(r.states[k], r.steps[k], id);
    }
  }

  // ----- cancels in the user's name -----

  ghost predicate ConfirmsStop(s: State, step: Step, id: Id) {
    ReportsFile(s, step, id) && Confirms(s.edits[step.p].event, s.edits[step.p].snapshot.base)
  }

  lemma {:induction false} UserCancelStep(s: State, step: Step, id: Id)
    requires RecordsOk(s) && Enabled(s, step) && id in s.files
    ensures Introduces(UserCanceled, s, step, id) <==> ConfirmsStop(s, step, id)
  {
    WriteSource(s, step, id);
    var w := WriteOf(s, step);
    if w.Some? && w.value.id == id {
      WriteIsSound(s, step, w.value);
      CancelWrite(w.value.event, w.value.base, w.value.since);
    }
  }

  lemma {:induction false} CancelWrite(e: Event, base: Record, clock: Time)
    requires Fires(e, base) && TimesAgree(base, clock)
    ensures !UserCanceled(base) && UserCanceled(Fire(e, base)) <==> Confirms(e, base)
  {
    if !UserCanceled(base) { UserCancelIsConfirmed(e, base, clock); }
  }

  // A started run is ever shown as canceled in the user's name exactly if a worker confirmed that it was stopped.
  lemma {:induction false} UserCancelIffConfirmed(r: Run, n: nat, id: Id)
    requires ValidRun(r) && n < |r.states|
    ensures (exists i :: 0 <= i <= n && Shows(UserCanceled, r, i, id))
            <==> exists k :: 0 <= k < n && ConfirmsStop(r.states[k], r.steps[k], id)
  {
    ShownIffIntroduced(UserCanceled, r, n, id);
    forall k | 0 <= k < n
      ensures Introduces(UserCanceled, r.states[k], r.steps[k], id) <==> ConfirmsStop(r.states[k], r.steps[k], id)
    {
      WrittenFileExists(r, k, id);
      if id in r.states[k].files { UserCancelStep(r.states[k], r.steps[k], id); }
    }
  }

  lemma {:induction false} WrittenFileExists(r: Run, k: nat, id: Id)
    requires ValidRun(r) && k < |r.steps|
    ensures RecordsOk(r.states[k]) && Enabled(r.states[k], r.steps[k])
    ensures WriteOf(r.states[k], r.steps[k]).Some? && WriteOf(r.states[k], r.steps[k]).value.id == id ==> id in r.states[k].files
    ensures ReportsFile(r.states[k], r.steps[k], id) ==> id in r.states[k].files
  {
    InvThroughout(r, k);
    StepTaken(r, k);
    var w := WriteOf(r.states[k], r.steps[k]);
    if w.Some? { WriteIsSound(r.states[k], r.steps[k], w.value); }
  }

  // ----- durations -----

  // A report that lowers the duration of a timed-out run.
  ghost predicate ShortensTimeout(s: State, step: Step, id: Id) {
    ReportsFile(s, step, id)
    && var (e, base) := (s.edits[step.p].event, s.edits[step.p].snapshot.base);
    base.failure == Some(TimedOut) && LastsAtLeast(base, 1800) && !e.error && ReportsLess(e, base, 1800)
  }

  ghost predicate ShortensForcedCancel(s: State, step: Step, id: Id) {
    ReportsFile(s, step, id)
    && var (e, base) := (s.edits[step.p].event, s.edits[step.p].snapshot.base);
    base.cancelReason == Some(ByTimeout) && LastsAtLeast(base, 300) && ReportsLess(e, base, 300)
  }

  lemma {:induction false} TimeoutWrite(e: Event, base: Record, clock: Time)
    requires Fires(e, base) && TimesAgree(base, clock) && (e.Finish? ==> base.status != Queued)
    ensures !ShortTimeout(base) && ShortTimeout(Fire(e, base))
            <==> e.Finish? && base.failure == Some(TimedOut) && LastsAtLeast(base, 1800) && !e.error && ReportsLess(e, base, 1800)
  {
    if !ShortTimeout(base) { TimeoutShortened(e, base, clock); }
  }

  lemma {:induction false} ForcedCancelWrite(e: Event, base: Record, clock: Time)
    requires Fires(e, base) && TimesAgree(base, clock) && (e.Finish? ==> base.status != Queued)
    ensures !ShortForcedCancel(base) && ShortForcedCancel(Fire(e, base))
            <==> e.Finish? && base.cancelReason == Some(ByTimeout) && LastsAtLeast(base, 300) && ReportsLess(e, base, 300)
  {
    if !ShortForcedCancel(base) { ForcedCancelShortened(e, base, clock); }
  }

  lemma {:induction false} ShortTimeoutStep(s: State, step: Step, id: Id)
    requires RecordsOk(s) && Enabled(s, step) && id in s.files
    ensures Introduces(ShortTimeout, s, step, id) <==> ShortensTimeout(s, step, id)
  {
    WriteSource(s, step, id);
    var w := WriteOf(s, step);
    if w.Some? && w.value.id == id {
      WriteIsSound(s, step, w.value);
      TimeoutWrite(w.value.event, w.value.base, w.value.since);
    }
  }

  lemma {:induction false} ShortForcedCancelStep(s: State, step: Step, id: Id)
    requires RecordsOk(s) && Enabled(s, step) && id in s.files
    ensures Introduces(ShortForcedCancel, s, step, id) <==> ShortensForcedCancel(s, step, id)
  {
    WriteSource(s, step, id);
    var w := WriteOf(s, step);
    if w.Some? && w.value.id == id {
      WriteIsSound(s, step, w.value);
      ForcedCancelWrite(w.value.event, w.value.base, w.value.since);
    }
  }

  // A timed-out run is ever shown with less than thirty minutes exactly if a late report without an error said so.
  lemma {:induction false} ShortTimeoutIffReported(r: Run, n: nat, id: Id)
    requires ValidRun(r) && n < |r.states|
    ensures (exists i :: 0 <= i <= n && Shows(ShortTimeout, r, i, id))
            <==> exists k :: 0 <= k < n && ShortensTimeout(r.states[k], r.steps[k], id)
  {
    ShownIffIntroduced(ShortTimeout, r, n, id);
    forall k | 0 <= k < n
      ensures Introduces(ShortTimeout, r.states[k], r.steps[k], id) <==> ShortensTimeout(r.states[k], r.steps[k], id)
    {
      WrittenFileExists(r, k, id);
      if id in r.states[k].files { ShortTimeoutStep(r.states[k], r.steps[k], id); }
    }
  }

  // A run canceled by force is ever shown with less than five minutes exactly if a late report said so.
  lemma {:induction false} ShortForcedCancelIffReported(r: Run, n: nat, id: Id)
    requires ValidRun(r) && n < |r.states|
    ensures (exists i :: 0 <= i <= n && Shows(ShortForcedCancel, r, i, id))
            <==> exists k :: 0 <= k < n && ShortensForcedCancel(r.states[k], r.steps[k], id)
  {
    ShownIffIntroduced(ShortForcedCancel, r, n, id);
    forall k | 0 <= k < n
      ensures Introduces(ShortForcedCancel, r.states[k], r.steps[k], id) <==> ShortensForcedCancel(r.states[k], r.steps[k], id)
    {
      WrittenFileExists(r, k, id);
      if id in r.states[k].files { ShortForcedCancelStep(r.states[k], r.steps[k], id); }
    }
  }
}
