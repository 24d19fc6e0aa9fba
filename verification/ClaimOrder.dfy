// Which queued run a claim may pick: first come, first served.
module ClaimOrder {
  import opened Options
  import opened Executions
  import opened SetSizes

  datatype Row = Row(project: string, queuedAt: Time)

  const LIST_LIMIT := 50

  // A claim looks at one project or at all of them.
  predicate InScope(scope: Option<string>, project: string) {
    scope == None || scope == Some(project)
  }

  // What a scan lets through: waiting, in scope, not locked by anyone, and runnable by this worker.
  predicate IsCandidate(files: map<Id, Record>, id: Id, w: Worker, scope: Option<string>, locked: set<Id>) {
    && id in files && files[id].status == Queued && InScope(scope, files[id].project)
    && id !in locked && Satisfies(w, files[id].requirements)
  }

  function Candidates(files: map<Id, Record>, w: Worker, scope: Option<string>, locked: set<Id>): set<Id> {
    set id | id in files && IsCandidate(files, id, w, scope, locked)
  }

  // Who is looked at: the waiting, unlocked runs of the project asked for whose requirements the worker meets.
  lemma {:induction false} CandidatesAre(files: map<Id, Record>, w: Worker, scope: Option<string>, locked: set<Id>,
                                         id: Id)
    ensures id in Candidates(files, w, scope, locked) <==>
              && id in files && id !in locked && files[id].status == Queued && (scope == None || scope == Some(files[id].project))
              && var q := files[id].requirements;
              && (q.pinnedTo == None || q.pinnedTo == Some("") || w.id == "" || q.pinnedTo == Some(w.id))
              && (forall tag :: tag in q.tags ==> tag in w.tags)
              && (forall name :: name in q.capabilities ==> name in w.capabilities && w.capabilities[name] == q.capabilities[name])
  {
    if id in files { SatisfiesEach(w, files[id].requirements); }
  }

  // `pick` is an oldest named run of `pool`, and nothing is picked only when there is none.
  ghost predicate FifoPick(files: map<Id, Record>, pool: set<Id>, pick: Option<Id>) {
    && (pick == None ==> forall id :: id in pool && id in files ==> !files[id].named)
    && (pick.Some? ==>
          && pick.value in pool && pick.value in files && files[pick.value].named
          && forall id :: id in pool && id in files && files[id].named ==> QueuedAt(files[pick.value]) <= QueuedAt(files[id]))
  }

  // r entered the queue before s: by the time it was queued at or, for want of one, created at.
  predicate EarlierThan(r: Record, s: Record) {
    match (r.queuedAt, s.queuedAt)
    case (Some(a), Some(b)) => a < b
    case (Some(a), None) => a < s.createdAt
    case (None, Some(b)) => r.createdAt < b
    case (None, None) => r.createdAt < s.createdAt
  }

  // Nobody is handed a run while a named run of the pool entered the queue earlier.
  lemma {:induction false} NoOlderRunWaits(files: map<Id, Record>, pool: set<Id>, pick: Option<Id>, other: Id)
    requires FifoPick(files, pool, pick) && other in pool && other in files && files[other].named
    ensures pick.Some? && !EarlierThan(files[other], files[pick.value])
  {
    if pick.Some? { ByAge(files[other], files[pick.value]); }
  }

  lemma {:induction false} ByAge(r: Record, s: Record)
    ensures EarlierThan(r, s) <==> QueuedAt(r) < QueuedAt(s)
  {
  }

  // The rows the index query returns: the oldest rows in scope, at most LIST_LIMIT of them.
  ghost predicate IsListing(rows: map<Id, Row>, scope: Option<string>, listed: seq<Id>) {
    && |listed| <= LIST_LIMIT
    && (forall i :: 0 <= i < |listed| ==> listed[i] in rows && InScope(scope, rows[listed[i]].project))
    && (forall i, j :: 0 <= i < j < |listed| ==> listed[i] != listed[j] && rows[listed[i]].queuedAt <= rows[listed[j]].queuedAt)
    && (forall id :: id in rows && InScope(scope, rows[id].project) && id !in listed ==>
          |listed| == LIST_LIMIT && forall i :: 0 <= i < |listed| ==> rows[listed[i]].queuedAt <= rows[id].queuedAt)
  }

  function ScopedRows(rows: map<Id, Row>, scope: Option<string>): set<Id> {
    set id | id in rows && InScope(scope, rows[id].project)
  }

  // ----- the index path refines the full scan -----

  // The index holds a row, filed under the right project, for every waiting run in scope.
  ghost predicate Covers(rows: map<Id, Row>, files: map<Id, Record>, scope: Option<string>) {
    forall id :: id in files && files[id].status == Queued && InScope(scope, files[id].project) ==>
      id in rows && rows[id].project == files[id].project
  }

  // The candidates among the listed rows; a row filed under the wrong project leads to no file.
  function ListedCandidates(rows: map<Id, Row>, files: map<Id, Record>, listed: seq<Id>,
                            w: Worker, scope: Option<string>, locked: set<Id>): set<Id> {
    set id | id in listed && id in rows && IsCandidate(files, id, w, scope, locked) && files[id].project == rows[id].project
  }

  // What the index path looks at: listed candidates whose row leads to their file.
  lemma {:induction false} ListedCandidatesAre(rows: map<Id, Row>, files: map<Id, Record>, listed: seq<Id>,
                                               w: Worker, scope: Option<string>, locked: set<Id>, id: Id)
    ensures id in ListedCandidates(rows, files, listed, w, scope, locked) <==>
              id in listed && id in rows && id in Candidates(files, w, scope, locked) && rows[id].project == files[id].project
  {
  }

  lemma {:induction false} ShortListingIsComplete(rows: map<Id, Row>, scope: Option<string>, listed: seq<Id>)
    requires IsListing(rows, scope, listed) && |ScopedRows(rows, scope)| <= LIST_LIMIT
    ensures forall id :: id in ScopedRows(rows, scope) ==> id in listed
  {
    var seen := set x | x in listed;
    NoDuplicatesSize(listed, seen);
    forall id | id in ScopedRows(rows, scope) ensures id in listed {
      if id !in listed { SubsetSize(seen + {id}, ScopedRows(rows, scope)); }
    }
  }

  lemma {:induction false} NoDuplicatesSize<T>(xs: seq<T>, elements: set<T>)
    requires forall i, j :: 0 <= i < j < |xs| ==> xs[i] != xs[j]
    requires forall x :: x in elements <==> x in xs
    ensures |elements| == |xs|
  {
    if xs == [] {
      assert elements == {};
    } else {
      var rest := xs[..|xs| - 1];
      assert xs == rest + [xs[|xs| - 1]];
      assert xs[|xs| - 1] !in rest;
      NoDuplicatesSize(rest, elements - {xs[|xs| - 1]});
    }
  }

  // With a covering index of at most fifty rows, the listed candidates are all candidates there are.
  lemma {:induction false} IndexPathSeesAll(rows: map<Id, Row>, files: map<Id, Record>, listed: seq<Id>,
                                            w: Worker, scope: Option<string>, locked: set<Id>)
    requires IsListing(rows, scope, listed) && Covers(rows, files, scope) && |ScopedRows(rows, scope)| <= LIST_LIMIT
    ensures ListedCandidates(rows, files, listed, w, scope, locked) == Candidates(files, w, scope, locked)
  {
    ShortListingIsComplete(rows, scope, listed);
    forall id | id in Candidates(files, w, scope, locked) ensures id in listed {
      assert id in ScopedRows(rows, scope);
    }
  }

  // The query finds all rows in scope when there are at most fifty, and otherwise fifty of which none is younger than
  // a row it leaves out.
  lemma {:induction false} ListingSize(rows: map<Id, Row>, scope: Option<string>, listed: seq<Id>)
    requires IsListing(rows, scope, listed)
    ensures |ScopedRows(rows, scope)| <= 50 ==> forall id :: id in ScopedRows(rows, scope) ==> id in listed
    ensures |ScopedRows(rows, scope)| > 50 ==> |listed| == 50
    ensures forall i, id :: 0 <= i < |listed| && id in ScopedRows(rows, scope) && id !in listed ==> rows[listed[i]].queuedAt <= rows[id].queuedAt
  {
    if |ScopedRows(rows, scope)| <= 50 {
      ShortListingIsComplete(rows, scope, listed);
    } else if forall id :: id in ScopedRows(rows, scope) ==> id in listed {
      var seen := set x | x in listed;
      NoDuplicatesSize(listed, seen);
      SubsetSize(ScopedRows(rows, scope), seen);
    }
  }

  ghost predicate DistinctTimes(files: map<Id, Record>, pool: set<Id>) {
    forall x, y :: x in pool && y in pool && x in files && y in files && x != y ==> QueuedAt(files[x]) != QueuedAt(files[y])
  }

  // Two picks from the same pool are equally old, and the same when no two waiting runs are.
  lemma {:induction false} PicksAgree(files: map<Id, Record>, pool: set<Id>, a: Option<Id>, b: Option<Id>)
    requires FifoPick(files, pool, a) && FifoPick(files, pool, b)
    ensures a == None <==> b == None
    ensures a.Some? ==> QueuedAt(files[a.value]) == QueuedAt(files[b.value])
    ensures DistinctTimes(files, pool) ==> a == b
  {
  }

  // ----- draining a queue -----

  // One claim that scans the whole queue, with no interference: the pick becomes RUNNING; runs that
  // are not waiting may be failed by the row pruner, but no other waiting run changes.
  ghost predicate ClaimStep(f: map<Id, Record>, f': map<Id, Record>, w: Worker, scope: Option<string>, pick: Option<Id>) {
    && FifoPick(f, Candidates(f, w, scope, {}), pick)
    && f'.Keys == f.Keys
    && (forall id :: id in f && f[id].status == Queued && pick != Some(id) ==> f'[id] == f[id])
    && (forall id :: id in f && f[id].status != Queued ==> f'[id].status != Queued)
    && (pick.Some? ==> f'[pick.value].status != Queued)
  }

  function Eligible(f: map<Id, Record>, w: Worker, scope: Option<string>): set<Id> {
    set id | id in Candidates(f, w, scope, {}) && f[id].named
  }

  lemma {:induction false} ClaimStepShrinks(f: map<Id, Record>, f': map<Id, Record>, w: Worker, scope: Option<string>,
                                            pick: Option<Id>)
    requires ClaimStep(f, f', w, scope, pick)
    ensures pick == None <==> Eligible(f, w, scope) == {}
    ensures pick.Some? ==> pick.value in Eligible(f, w, scope) && Eligible(f', w, scope) == Eligible(f, w, scope) - {pick.value}
    ensures pick == None ==> Eligible(f', w, scope) == {}
  {
    var e, e' := Eligible(f, w, scope), Eligible(f', w, scope);
    forall id | id in f && f[id].status == Queued && pick != Some(id) ensures id in e <==> id in e' {
      assert f'[id] == f[id];
    }
    forall id | id in e' ensures id in e && pick != Some(id) {
      assert f'[id].status == Queued;
    }
    if pick.Some? {
      assert e' == e - {pick.value};
    } else {
      assert forall id :: id in Candidates(f, w, scope, {}) ==> !f[id].named;
    }
  }

  // The state before each claim of a series, and what each claim returned.
  ghost predicate ClaimSeries(states: seq<map<Id, Record>>, picks: seq<Option<Id>>, w: Worker, scope: Option<string>) {
    && |states| == |picks| + 1
    && forall i :: 0 <= i < |picks| ==> ClaimStep(states[i], states[i + 1], w, scope, picks[i])
  }

  lemma {:induction false} SeriesExtends(states: seq<map<Id, Record>>, picks: seq<Option<Id>>, w: Worker,
                                         scope: Option<string>,
                                         f: map<Id, Record>, pick: Option<Id>)
    requires ClaimSeries(states, picks, w, scope) && ClaimStep(states[|picks|], f, w, scope, pick)
    ensures ClaimSeries(states + [f], picks + [pick], w, scope)
  {
  }

  function Handed(picks: seq<Option<Id>>): set<Id> {
    set i | 0 <= i < |picks| && picks[i].Some? :: picks[i].value
  }

  lemma {:induction false} HandedExtends(picks: seq<Option<Id>>, last: Option<Id>)
    ensures Handed(picks + [last]) == Handed(picks) + (if last.Some? then {last.value} else {})
  {
    var all := picks + [last];
    forall i | 0 <= i < |picks| ensures all[i] == picks[i] {}
    if last.Some? { assert all[|picks|] == last; }
    forall id | id in Handed(picks) ensures id in Handed(all) {
      var i :| 0 <= i < |picks| && picks[i].Some? && picks[i].value == id;
      assert all[i].value == id;
    }
  }

  // What a series of claims has handed out, together with what is still eligible, is the eligible set it began with;
  // every handout was eligible from the start, and none is repeated.
  lemma {:induction false} SeriesConserves(states: seq<map<Id, Record>>, picks: seq<Option<Id>>, w: Worker,
                                           scope: Option<string>)
    requires ClaimSeries(states, picks, w, scope)
    ensures Eligible(states[0], w, scope) == Handed(picks) + Eligible(states[|picks|], w, scope)
    ensures Handed(picks) !! Eligible(states[|picks|], w, scope)
    ensures forall i, j :: 0 <= i < j < |picks| && picks[i].Some? && picks[j].Some? ==> picks[i].value != picks[j].value
    ensures forall i, j :: 0 <= i < j < |picks| && picks[j].Some? ==> picks[i].Some?
    ensures forall i :: 0 <= i < |picks| && picks[i] == None ==> Eligible(states[|picks|], w, scope) == {}
  {
    var n := |picks|;
    if n == 0 {
      assert Handed(picks) == {};
    } else {
      var before, last := picks[..n - 1], picks[n - 1];
      SeriesConserves(states[..n], before, w, scope);
      ClaimStepShrinks(states[n - 1], states[n], w, scope, last);
      assert picks == before + [last];
      HandedExtends(before, last);
      forall i | 0 <= i < n - 1 && picks[i].Some? && last.Some? ensures picks[i].value != last.value {
        assert before[i].value in Handed(before);
      }
      forall i | 0 <= i < n - 1 && picks[i] == None ensures last == None {
        assert before[i] == None;
      }
    }
  }

  // The record of an eligible run is untouched until it is handed out.
  lemma {:induction false} WaitingUntouched(states: seq<map<Id, Record>>, picks: seq<Option<Id>>, w: Worker,
                                            scope: Option<string>, id: Id, n: nat)
    requires ClaimSeries(states, picks, w, scope) && n <= |picks|
    requires id in Eligible(states[n], w, scope)
    ensures id in states[0] && states[n][id] == states[0][id]
  {
    if n > 0 {
      ClaimStepShrinks(states[n - 1], states[n], w, scope, picks[n - 1]);
      WaitingUntouched(states, picks, w, scope, id, n - 1);
    }
  }

  // Claiming until nothing is left returns every eligible run exactly once, oldest first, and then nothing:
  // the first |eligible| claims succeed and every later one comes back empty.
  lemma {:induction false} DrainIsExact(states: seq<map<Id, Record>>, picks: seq<Option<Id>>, w: Worker,
                                        scope: Option<string>)
    requires ClaimSeries(states, picks, w, scope) && |picks| >= |Eligible(states[0], w, scope)|
    ensures Handed(picks) == Eligible(states[0], w, scope)
    ensures forall i :: 0 <= i < |picks| ==> (picks[i].Some? <==> i < |Eligible(states[0], w, scope)|)
    ensures forall i, j :: 0 <= i < j < |picks| && picks[i].Some? && picks[j].Some? ==> picks[i].value != picks[j].value
    ensures forall i, j :: 0 <= i < j < |picks| && picks[j].Some? ==>
              && picks[i].Some? && picks[i].value in states[0] && picks[j].value in states[0]
              && QueuedAt(states[0][picks[i].value]) <= QueuedAt(states[0][picks[j].value])
  {
    SeriesConserves(states, picks, w, scope);
    SuccessCount(states, picks, w, scope);
    forall i, j | 0 <= i < j < |picks| && picks[j].Some?
      ensures picks[i].Some? && picks[i].value in states[0] && picks[j].value in states[0]
      ensures QueuedAt(states[0][picks[i].value]) <= QueuedAt(states[0][picks[j].value])
    {
      EarlierIsOlder(states, picks, w, scope, i, j);
    }
  }

  // The same in terms of the records: of two runs, the one that entered the queue earlier is handed out earlier.
  lemma {:induction false} DrainInQueueOrder(states: seq<map<Id, Record>>, picks: seq<Option<Id>>, w: Worker,
                                             scope: Option<string>, i: nat, j: nat)
    requires ClaimSeries(states, picks, w, scope) && i < |picks| && j < |picks| && picks[i].Some? && picks[j].Some?
    ensures picks[i].value in states[0] && picks[j].value in states[0]
    ensures EarlierThan(states[0][picks[i].value], states[0][picks[j].value]) ==> i < j
  {
    if i < j {
      EarlierIsOlder(states, picks, w, scope, i, j);
    } else if j < i {
      EarlierIsOlder(states, picks, w, scope, j, i);
      ByAge(states[0][picks[i].value], states[0][picks[j].value]);
    } else {
      ClaimStepShrinks(states[i], states[i + 1], w, scope, picks[i]);
      WaitingUntouched(states, picks, w, scope, picks[i].value, i);
    }
  }

  // Whom a drain serves: the waiting runs with an identifier, of the project asked for, whose requirements the worker meets.
  lemma {:induction false} DrainServes(states: seq<map<Id, Record>>, picks: seq<Option<Id>>, w: Worker,
                                       scope: Option<string>, id: Id)
    requires ClaimSeries(states, picks, w, scope) && |picks| >= |Eligible(states[0], w, scope)| && id in states[0]
    ensures var r := states[0][id];
            (exists i :: 0 <= i < |picks| && picks[i] == Some(id))
            <==> && r.status == Queued && r.named && (scope == None || scope == Some(r.project))
                 && (r.requirements.pinnedTo == None || r.requirements.pinnedTo == Some("") || w.id == "" || r.requirements.pinnedTo == Some(w.id))
                 && (forall tag :: tag in r.requirements.tags ==> tag in w.tags)
                 && (forall name :: name in r.requirements.capabilities ==>
                       name in w.capabilities && w.capabilities[name] == r.requirements.capabilities[name])
  {
    DrainIsExact(states, picks, w, scope);
    CandidatesAre(states[0], w, scope, {}, id);
    assert id in Handed(picks) <==> id in Eligible(states[0], w, scope);
  }

  lemma {:induction false} EarlierIsOlder(states: seq<map<Id, Record>>, picks: seq<Option<Id>>, w: Worker,
                                          scope: Option<string>, i: nat, j: nat)
    requires ClaimSeries(states, picks, w, scope) && i < j < |picks| && picks[i].Some? && picks[j].Some?
    ensures picks[i].value in states[0] && picks[j].value in states[0]
    ensures QueuedAt(states[0][picks[i].value]) <= QueuedAt(states[0][picks[j].value])
  {
    ClaimStepShrinks(states[i], states[i + 1], w, scope, picks[i]);
    ClaimStepShrinks(states[j], states[j + 1], w, scope, picks[j]);
    WaitingUntouched(states, picks, w, scope, picks[i].value, i);
    WaitingUntouched(states, picks, w, scope, picks[j].value, j);
    assert ClaimSeries(states[i..], picks[i..], w, scope);
    SeriesConserves(states[i..j + 1], picks[i..j], w, scope);
    WaitingUntouched(states[i..], picks[i..], w, scope, picks[j].value, j - i);
  }

  // With k successes the eligible set has shrunk by k, so the successes are exactly the first |eligible| claims.
  lemma {:induction false} SuccessCount(states: seq<map<Id, Record>>, picks: seq<Option<Id>>, w: Worker,
                                        scope: Option<string>)
    requires ClaimSeries(states, picks, w, scope)
    ensures var e := |Eligible(states[0], w, scope)|;
            && (forall i :: 0 <= i < |picks| ==> (picks[i].Some? <==> i < e))
            && |Eligible(states[|picks|], w, scope)| == if |picks| <= e then e - |picks| else 0
  {
    var n := |picks|;
    if n > 0 {
      var before := picks[..n - 1];
      SeriesPrefix(states, picks, w, scope);
      SuccessCount(states[..n], before, w, scope);
      ClaimStepShrinks(states[n - 1], states[n], w, scope, picks[n - 1]);
      forall i | 0 <= i < n - 1 ensures picks[i].Some? <==> i < |Eligible(states[0], w, scope)| {
        assert before[i] == picks[i];
      }
    }
  }

  lemma {:induction false} SeriesPrefix(states: seq<map<Id, Record>>, picks: seq<Option<Id>>, w: Worker,
                                        scope: Option<string>)
    requires ClaimSeries(states, picks, w, scope) && picks != []
    ensures var n := |picks|;
            && ClaimSeries(states[..n], picks[..n - 1], w, scope)
            && states[..n][0] == states[0] && states[..n][n - 1] == states[n - 1]
            && ClaimStep(states[n - 1], states[n], w, scope, picks[n - 1])
  {
  }
}
