// The server's side of the queue: claim, cancel, stop and the recovery sweep, as they update
// the execution files, the two index tables and the throttle of the fallback scan.
//
// One call runs here without interference.  `locked` is the set of files some other party
// holds locked at that time: the scans and the sweep pass over them.  Directories are visited
// in an arbitrary order, and a call reads the clock once.
module ExecutionServer {
  import opened Options
  import opened Executions
  import opened ClaimOrder

  datatype Response = Accepted | AlreadyStopping | NotFound | Conflict(current: Status)

  datatype Candidate = Candidate(queuedAt: Time, id: Id)

  // ----- stable sort by queue time -----

  ghost predicate Sorted(cs: seq<Candidate>) {
    forall i, j :: 0 <= i < j < |cs| ==> cs[i].queuedAt <= cs[j].queuedAt
  }

  function Insert(c: Candidate, cs: seq<Candidate>): seq<Candidate> {
    if cs == [] || c.queuedAt < cs[0].queuedAt then [c] + cs else [cs[0]] + Insert(c, cs[1..])
  }

  function SortByTime(cs: seq<Candidate>): seq<Candidate> {
    if cs == [] then [] else Insert(cs[|cs| - 1], SortByTime(cs[..|cs| - 1]))
  }

  lemma {:induction false} InsertElements(c: Candidate, cs: seq<Candidate>)
    ensures multiset(Insert(c, cs)) == multiset(cs) + multiset{c}
  {
    if cs != [] && !(c.queuedAt < cs[0].queuedAt) {
      assert cs == [cs[0]] + cs[1..];
      InsertElements(c, cs[1..]);
    }
  }

  lemma {:induction false} InsertSorted(c: Candidate, cs: seq<Candidate>)
    requires Sorted(cs)
    ensures Sorted(Insert(c, cs))
  {
    if cs != [] && !(c.queuedAt < cs[0].queuedAt) {
      var rest := Insert(c, cs[1..]);
      InsertSorted(c, cs[1..]);
      InsertElements(c, cs[1..]);
      forall i | 0 <= i < |rest| ensures cs[0].queuedAt <= rest[i].queuedAt {
        assert rest[i] in multiset(cs[1..]) + multiset{c};
      }
    }
  }

  lemma {:induction false} SortIsSorted(cs: seq<Candidate>)
    ensures Sorted(SortByTime(cs)) && multiset(SortByTime(cs)) == multiset(cs)
  {
    if cs != [] {
      assert cs == cs[..|cs| - 1] + [cs[|cs| - 1]];
      SortIsSorted(cs[..|cs| - 1]);
      InsertSorted(cs[|cs| - 1], SortByTime(cs[..|cs| - 1]));
      InsertElements(cs[|cs| - 1], SortByTime(cs[..|cs| - 1]));
    }
  }

  function AtTime(cs: seq<Candidate>, t: Time): seq<Candidate> {
    if cs == [] then [] else AtHead(cs[0], t) + AtTime(cs[1..], t)
  }

  function AtHead(c: Candidate, t: Time): seq<Candidate> {
    if c.queuedAt == t then [c] else []
  }

  lemma {:induction false} AtTimeStep(c: Candidate, rest: seq<Candidate>, t: Time)
    ensures AtTime([c] + rest, t) == AtHead(c, t) + AtTime(rest, t)
  {
    assert ([c] + rest)[1..] == rest;
  }

  lemma {:induction false} AtTimeLast(front: seq<Candidate>, last: Candidate, t: Time)
    ensures AtTime(front + [last], t) == AtTime(front, t) + AtHead(last, t)
  {
    if front == [] {
      assert front + [last] == [last] + [];
      AtTimeStep(last, [], t);
    } else {
      var head, rest := front[0], front[1..];
      assert front == [head] + rest && front + [last] == [head] + (rest + [last]);
      AtTimeStep(head, rest + [last], t);
      AtTimeLast(rest, last, t);
      AtTimeStep(head, rest, t);
    }
  }

  lemma {:induction false} NoneAtTime(cs: seq<Candidate>, t: Time)
    requires forall i :: 0 <= i < |cs| ==> t < cs[i].queuedAt
    ensures AtTime(cs, t) == []
  {
    if cs != [] { NoneAtTime(cs[1..], t); }
  }

  lemma {:induction false} InsertIsStable(c: Candidate, cs: seq<Candidate>, t: Time)
    requires Sorted(cs)
    ensures AtTime(Insert(c, cs), t) == AtTime(cs, t) + AtHead(c, t)
  {
    if cs == [] || c.queuedAt < cs[0].queuedAt {
      AtTimeStep(c, cs, t);
      if t == c.queuedAt { NoneAtTime(cs, t); }
    } else {
      InsertIsStable(c, cs[1..], t);
      AtTimeStep(cs[0], Insert(c, cs[1..]), t);
      AtTimeStep(cs[0], cs[1..], t);
      assert cs == [cs[0]] + cs[1..];
    }
  }

  lemma {:induction false} InsertAfterEquals(front: seq<Candidate>, last: Candidate, sorted: seq<Candidate>, t: Time)
    requires Sorted(sorted) && AtTime(sorted, t) == AtTime(front, t)
    ensures AtTime(Insert(last, sorted), t) == AtTime(front + [last], t)
  {
    InsertIsStable(last, sorted, t);
    AtTimeLast(front, last, t);
  }

  // Candidates of equal age keep the order in which they were found.
  lemma {:induction false} SortIsStable(cs: seq<Candidate>, t: Time)
    ensures AtTime(SortByTime(cs), t) == AtTime(cs, t)
  {
    if cs != [] {
      var front, last := cs[..|cs| - 1], cs[|cs| - 1];
      assert cs == front + [last];
      SortIsStable(front, t);
      SortIsSorted(front);
      InsertAfterEquals(front, last, SortByTime(front), t);
    }
  }

  lemma {:induction false} SortKeepsElements(cs: seq<Candidate>)
    ensures forall c :: c in SortByTime(cs) <==> c in cs
  {
    SortIsSorted(cs);
    assert forall c :: c in SortByTime(cs) <==> c in multiset(SortByTime(cs));
  }

  // ----- specification of the row pruner and the sweep -----

  function OrphanedRecord(r: Record, w: WorkerId, now: Time): Record {
    if Fires(Orphan(w, now), r) then Fire(Orphan(w, now), r) else r
  }

  function PrunedRecord(id: Id, r: Record, rows: map<Id, WorkerId>, w: WorkerId, now: Time): Record {
    if id in rows && rows[id] == w then OrphanedRecord(r, w, now) else r
  }

  function Pruned(f: map<Id, Record>, rows: map<Id, WorkerId>, w: WorkerId, now: Time): map<Id, Record> {
    map id | id in f :: PrunedRecord(id, f[id], rows, w, now)
  }

  function SweptRecord(r: Record, now: Time): Record {
    if Fires(Sweep(now), r) then Fire(Sweep(now), r) else r
  }

  function SweptFile(id: Id, r: Record, locked: set<Id>, now: Time): Record {
    if id in locked then r else SweptRecord(r, now)
  }

  function Swept(f: map<Id, Record>, locked: set<Id>, now: Time): map<Id, Record> {
    map id | id in f :: SweptFile(id, f[id], locked, now)
  }

  function DueIn(f: map<Id, Record>, locked: set<Id>, now: Time): set<Id> {
    set id | id in f && id !in locked && Fires(Sweep(now), f[id])
  }

  // A second sweep at the same moment finds nothing to do.
  lemma {:induction false} SweepIsIdempotent(f: map<Id, Record>, locked: set<Id>, now: Time)
    ensures DueIn(Swept(f, locked, now), locked, now) == {}
    ensures Swept(Swept(f, locked, now), locked, now) == Swept(f, locked, now)
  {
  }

  // The sweep ends precisely the over-age runs, each in the way its status calls for, and no others.
  lemma {:induction false} SweepIsExact(f: map<Id, Record>, locked: set<Id>, now: Time, id: Id)
    requires id in f && TimesAgree(f[id], now)
    ensures Swept(f, locked, now)[id] != f[id] <==> id in DueIn(f, locked, now)
    ensures id in DueIn(f, locked, now) <==>
              && id !in locked
              && (|| (f[id].status == Running && now - f[id].startedAt.value > 1800.0)
                  || (f[id].status == Canceling && now - f[id].cancelRequestedAt.value > 300.0))
    ensures id in DueIn(f, locked, now) ==>
              && IsFinal(Swept(f, locked, now)[id].status)
              && (Swept(f, locked, now)[id].status == Failed <==> f[id].status == Running)
              && SameClaim(f[id], Swept(f, locked, now)[id])
  {
  }

  // Pruning never touches a run that is waiting, nor a run of another worker.
  lemma {:induction false} PruneSparesOthers(f: map<Id, Record>, rows: map<Id, WorkerId>, w: WorkerId, now: Time,
                                             id: Id)
    requires id in f
    ensures Pruned(f, rows, w, now)[id].status == Queued <==> f[id].status == Queued
    ensures f[id].status == Queued || (f[id].workerId.Some? && f[id].workerId.value !in {"", w}) ==> Pruned(f, rows, w, now)[id] == f[id]
  {
  }

  // What pruning does to the runs it is about: each still RUNNING under the worker, with a row, fails now.
  lemma {:induction false} PruneFailsOrphans(f: map<Id, Record>, rows: map<Id, WorkerId>, w: WorkerId, now: Time,
                                             id: Id)
    requires id in f && id in rows && rows[id] == w && f[id].status == Running && f[id].workerId == Some(w) && f[id].startedAt.Some?
    ensures var r := Pruned(f, rows, w, now)[id];
            && r.status == Failed && r.finishedAt == Some(now) && r.startedAt == f[id].startedAt && r.duration.Some?
            && (0.0 < f[id].startedAt.value <= now ==> WholeSeconds(now - f[id].startedAt.value, r.duration.value))
  {
    if f[id].startedAt.value != 0.0 { OrphanOutcome(f[id], w, now); }
  }

  // The files as a claim finds them after its first capacity check.
  function Admitted(f: map<Id, Record>, rows: map<Id, WorkerId>, w: Worker, limit: int, now: Time): map<Id, Record> {
    if |RowsOf(rows, w.id)| >= limit then Pruned(f, rows, w.id, now) else f
  }

  function AdmittedRows(rows: map<Id, WorkerId>, w: Worker, limit: int): map<Id, WorkerId> {
    if |RowsOf(rows, w.id)| >= limit then rows - RowsOf(rows, w.id) else rows
  }

  // A candidate list as the scans build it: the right queue times, and nothing but candidates.
  ghost predicate Lists(cs: seq<Candidate>, f: map<Id, Record>, pool: set<Id>) {
    && (forall c :: c in cs ==> c.id in pool && c.id in f && c.queuedAt == QueuedAt(f[c.id]))
    && (forall id :: id in pool ==> exists c :: c in cs && c.id == id)
  }

  ghost predicate StillQueued(f: map<Id, Record>, id: Id) {
    id in f && f[id].named && f[id].status == Queued
  }

  lemma {:induction false} ListsOneMore(cs: seq<Candidate>, f: map<Id, Record>, pool: set<Id>, c: Candidate)
    requires Lists(cs, f, pool) && c.id in f && c.queuedAt == QueuedAt(f[c.id])
    ensures Lists(cs + [c], f, pool + {c.id})
  {
    forall id | id in pool + {c.id} ensures exists d :: d in cs + [c] && d.id == id {
      if id in pool {
        var d :| d in cs && d.id == id;
        assert d in cs + [c];
      } else {
        assert c in cs + [c];
      }
    }
  }

  // ----- polls, seen from outside -----

  // A poll that scans the disk undisturbed is one step of a drain, whatever the worker's limit: the run a full
  // worker still had is failed, never the queue blocked.
  lemma {:induction false} FullScanPollIsStep(f: map<Id, Record>, f': map<Id, Record>, rows: map<Id, WorkerId>,
                                              w: Worker, limit: int,
                                              scope: Option<string>, handout: Option<Id>, now: Time)
    requires 0 < limit && FifoPick(f, Candidates(f, w, scope, {}), handout)
    requires handout == None ==> f' == Admitted(f, rows, w, limit, now)
    requires handout.Some? ==> f' == Admitted(f, rows, w, limit, now)[handout.value := Fire(Claim(w, now), f[handout.value])]
    ensures ClaimStep(f, f', w, scope, handout)
  {
    AdmittedKeepsQueue(f, rows, w, limit, now);
  }

  // With a covering index of at most fifty rows and no locks held, a poll through the index and a poll through the
  // files hand out equally old runs, or both nothing; the same run when queue times are distinct.
  lemma {:induction false} IndexPollRefinesFullScan(rows: map<Id, Row>, f: map<Id, Record>, listed: seq<Id>,
                                                    scanned: bool,
                                                    w: Worker, scope: Option<string>, fast: Option<Id>,
                                                    full: Option<Id>)
    requires IsListing(rows, scope, listed) && Covers(rows, f, scope) && |ScopedRows(rows, scope)| <= LIST_LIMIT
    requires FifoPick(f, PoolOf(rows, f, listed, scanned, true, w, scope, {}), fast)
    requires FifoPick(f, PoolOf(rows, f, [], true, false, w, scope, {}), full)
    ensures fast == None <==> full == None
    ensures fast.Some? ==> QueuedAt(f[fast.value]) == QueuedAt(f[full.value])
    ensures DistinctTimes(f, Candidates(f, w, scope, {})) ==> fast == full
  {
    IndexPathSeesAll(rows, f, listed, w, scope, {});
    PicksAgree(f, Candidates(f, w, scope, {}), fast, full);
  }

  // Every waiting record carries its identifier, as the server writes it; others block a poll that finds their rows.
  predicate QueueNamed(f: map<Id, Record>) {
    forall id :: id in f && f[id].status == Queued ==> f[id].named
  }

  // Once the throttle is open a poll cannot come back empty while a run is eligible, wherever its row has gone:
  // what the index lists is taken, and when that is nothing the disk is searched, oldest first.
  lemma {:induction false} LostRunIsFound(rows: map<Id, Row>, f: map<Id, Record>, listed: seq<Id>, scanned: bool,
                                          w: Worker, scope: Option<string>,
                                          handout: Option<Id>, lost: Id)
    requires lost in Eligible(f, w, scope) && QueueNamed(f)
    requires scanned <==> ListedCandidates(rows, f, listed, w, scope, {}) == {}
    requires FifoPick(f, PoolOf(rows, f, listed, scanned, true, w, scope, {}), handout)
    ensures handout.Some? && handout.value in Eligible(f, w, scope)
    ensures scanned ==> QueuedAt(f[handout.value]) <= QueuedAt(f[lost]) && !EarlierThan(f[lost], f[handout.value])
  {
    if scanned { NoOlderRunWaits(f, Candidates(f, w, scope, {}), handout, lost); }
    var pool := PoolOf(rows, f, listed, scanned, true, w, scope, {});
    if scanned {
      assert lost in pool;
    } else {
      var id :| id in pool;
      assert id in f && f[id].named;
    }
  }

  // The other eligible runs stay eligible.
  lemma {:induction false} PollShrinks(f: map<Id, Record>, f': map<Id, Record>, rows: map<Id, WorkerId>, w: Worker,
                                       limit: int,
                                       scope: Option<string>, pick: Id, now: Time)
    requires QueueNamed(f) && pick in Eligible(f, w, scope)
    requires f' == Admitted(f, rows, w, limit, now)[pick := Fire(Claim(w, now), f[pick])]
    ensures Eligible(f', w, scope) == Eligible(f, w, scope) - {pick} && QueueNamed(f')
    ensures f'[pick].status == Running && f'[pick].workerId == Some(w.id) && f'[pick].startedAt == Some(now)
  {
    AdmittedKeepsQueue(f, rows, w, limit, now);
    forall id ensures id in Eligible(f', w, scope) <==> id in Eligible(f, w, scope) && id != pick {}
  }

  // The capacity check takes no eligible run away.
  lemma {:induction false} AdmissionKeepsEligible(f: map<Id, Record>, rows: map<Id, WorkerId>, w: Worker, limit: int,
                                                  scope: Option<string>, now: Time)
    requires QueueNamed(f)
    ensures Eligible(Admitted(f, rows, w, limit, now), w, scope) == Eligible(f, w, scope)
    ensures QueueNamed(Admitted(f, rows, w, limit, now))
  {
    AdmittedKeepsQueue(f, rows, w, limit, now);
  }

  // ----- index rows -----

  // A row whose file is gone, or whose run was read (so not locked) and is no longer waiting.
  predicate Misleading(rows: map<Id, Row>, f: map<Id, Record>, id: Id, locked: set<Id>) {
    id in rows && (id !in f || f[id].project != rows[id].project || (id !in locked && f[id].status != Queued))
  }

  function MisleadingAmong(rows: map<Id, Row>, f: map<Id, Record>, listed: seq<Id>, locked: set<Id>): set<Id> {
    set id | id in listed && Misleading(rows, f, id, locked)
  }

  // Which listed rows go: those whose file is gone or in another project, and those whose run was read and waits no
  // more. The row of a waiting run of its project never goes.
  lemma {:induction false} HealedRows(rows: map<Id, Row>, f: map<Id, Record>, listed: seq<Id>, locked: set<Id>, id: Id)
    requires id in listed && id in rows
    ensures id !in f || f[id].project != rows[id].project ==> id in MisleadingAmong(rows, f, listed, locked)
    ensures id in f && id !in locked && f[id].status != Queued ==> id in MisleadingAmong(rows, f, listed, locked)
    ensures id in f && f[id].project == rows[id].project && (f[id].status == Queued || id in locked) ==>
              id !in MisleadingAmong(rows, f, listed, locked)
  {
  }

  // What the next listed row adds to the rows to drop and to the candidates.
  lemma {:induction false} NextListed(rows: map<Id, Row>, f: map<Id, Record>, listed: seq<Id>, i: nat, w: Worker,
                                      scope: Option<string>, locked: set<Id>)
    requires IsListing(rows, scope, listed) && i < |listed|
    ensures var id, seen, next := listed[i], listed[..i], listed[..i + 1];
            && id in rows && InScope(scope, rows[id].project) && id !in MisleadingAmong(rows, f, seen, locked)
            && MisleadingAmong(rows, f, next, locked) ==
                 MisleadingAmong(rows, f, seen, locked) + (if Misleading(rows, f, id, locked) then {id} else {})
            && (Misleading(rows - MisleadingAmong(rows, f, seen, locked), f, id, locked) <==> Misleading(rows, f, id, locked))
            && rows - MisleadingAmong(rows, f, next, locked) ==
                 rows - MisleadingAmong(rows, f, seen, locked) - (if Misleading(rows, f, id, locked) then {id} else {})
            && ListedCandidates(rows, f, next, w, scope, locked) ==
                 ListedCandidates(rows, f, seen, w, scope, locked)
                 + (if IsCandidate(f, id, w, scope, locked) && f[id].project == rows[id].project then {id} else {})
  {
    assert listed[..i + 1] == listed[..i] + [listed[i]];
  }

  predicate IsWaiting(f: map<Id, Record>, id: Id, scope: Option<string>, locked: set<Id>) {
    id in f && InScope(scope, f[id].project) && id !in locked && f[id].status == Queued
  }

  function RowFor(r: Record, now: Time): Row {
    Row(r.project, if Truthy(r.queuedAt) then r.queuedAt.value else if r.createdAt != 0.0 then r.createdAt else now)
  }

  function Backfilled(rows: map<Id, Row>, f: map<Id, Record>, scope: Option<string>, locked: set<Id>, now: Time): map<Id, Row> {
    rows + map id | id in f && IsWaiting(f, id, scope, locked) :: RowFor(f[id], now)
  }

  // A backfilled row is filed under the project and the age of its run.
  lemma {:induction false} BackfilledRow(rows: map<Id, Row>, f: map<Id, Record>, scope: Option<string>, now: Time,
                                         id: Id)
    requires id in f && f[id].status == Queued && (scope == None || scope == Some(f[id].project))
    ensures id in Backfilled(rows, f, scope, {}, now) && Backfilled(rows, f, scope, {}, now)[id].project == f[id].project
    ensures var at := Backfilled(rows, f, scope, {}, now)[id].queuedAt;
            && (f[id].queuedAt.Some? && f[id].queuedAt.value != 0.0 ==> at == f[id].queuedAt.value)
            && (f[id].queuedAt in {None, Some(0.0)} && f[id].createdAt != 0.0 ==> at == f[id].createdAt)
            && (f[id].queuedAt in {None, Some(0.0)} && f[id].createdAt == 0.0 ==> at == now)
  {
    assert IsWaiting(f, id, scope, {});
  }

  lemma {:induction false} BackfilledByRow(rows: map<Id, Row>, f: map<Id, Record>, scope: Option<string>,
                                           locked: set<Id>, now: Time, rows': map<Id, Row>)
    requires forall id :: id in rows' <==> id in rows || IsWaiting(f, id, scope, locked)
    requires forall id :: id in rows' ==> rows'[id] == if IsWaiting(f, id, scope, locked) then RowFor(f[id], now) else rows[id]
    ensures rows' == Backfilled(rows, f, scope, locked, now)
  {
  }

  // After a scan that met no locked file the index covers the queue, including runs this worker may not take.
  lemma {:induction false} BackfillCovers(rows: map<Id, Row>, f: map<Id, Record>, scope: Option<string>, now: Time)
    ensures Covers(Backfilled(rows, f, scope, {}, now), f, scope)
  {
    forall id | id in f && f[id].status == Queued && InScope(scope, f[id].project)
      ensures id in Backfilled(rows, f, scope, {}, now)
    {
      assert IsWaiting(f, id, scope, {});
    }
  }

  // ----- the index query -----

  ghost predicate EntriesOf(es: seq<Candidate>, rows: map<Id, Row>, scope: Option<string>, rest: set<Id>) {
    && (forall e :: e in es ==> e.id in rows && InScope(scope, rows[e.id].project) && e.id !in rest && e.queuedAt == rows[e.id].queuedAt)
    && (forall id :: id in ScopedRows(rows, scope) && id !in rest ==> Candidate(rows[id].queuedAt, id) in es)
    && (forall i, j :: 0 <= i < j < |es| ==> es[i] != es[j])
  }

  // Sorting keeps exactly the entries, without repeats.
  lemma {:induction false} SortedEntries(es: seq<Candidate>, rows: map<Id, Row>, scope: Option<string>)
    requires EntriesOf(es, rows, scope, {})
    ensures EntriesOf(SortByTime(es), rows, scope, {}) && Sorted(SortByTime(es))
  {
    SortIsSorted(es);
    SortKeepsElements(es);
    DistinctAsMultiset(es, SortByTime(es));
  }

  function OldestIds(sorted: seq<Candidate>): seq<Id> {
    seq(if |sorted| < LIST_LIMIT then |sorted| else LIST_LIMIT, i requires 0 <= i < |sorted| => sorted[i].id)
  }

  lemma {:induction false} OldestAreListing(sorted: seq<Candidate>, rows: map<Id, Row>, scope: Option<string>)
    requires EntriesOf(sorted, rows, scope, {}) && Sorted(sorted)
    ensures IsListing(rows, scope, OldestIds(sorted))
  {
    var listed := OldestIds(sorted);
    forall i | 0 <= i < |listed| ensures listed[i] == sorted[i].id && sorted[i] in sorted {}
    forall i, j | 0 <= i < j < |listed| ensures listed[i] != listed[j] && rows[listed[i]].queuedAt <= rows[listed[j]].queuedAt {
      assert sorted[i] != sorted[j];
    }
    forall id | id in rows && InScope(scope, rows[id].project) && id !in listed
      ensures |listed| == LIST_LIMIT && forall i :: 0 <= i < |listed| ==> rows[listed[i]].queuedAt <= rows[id].queuedAt
    {
      assert id in ScopedRows(rows, scope);
      var p :| 0 <= p < |sorted| && sorted[p] == Candidate(rows[id].queuedAt, id);
      assert p >= |listed|;
    }
  }

  lemma {:induction false} DistinctAsMultiset(a: seq<Candidate>, b: seq<Candidate>)
    requires multiset(a) == multiset(b)
    requires forall i, j :: 0 <= i < j < |a| ==> a[i] != a[j]
    ensures forall i, j :: 0 <= i < j < |b| ==> b[i] != b[j]
  {
    forall c ensures multiset(a)[c] <= 1 { OccursOnce(a, c); }
    forall i, j | 0 <= i < j < |b| ensures b[i] != b[j] { OnlyOnce(b, i, j); }
  }

  lemma {:induction false} OnlyOnce(b: seq<Candidate>, i: nat, j: nat)
    requires i < j < |b| && multiset(b)[b[i]] <= 1
    ensures b[i] != b[j]
  {
    assert b == b[..i] + [b[i]] + b[i + 1..j] + [b[j]] + b[j + 1..];
    assert multiset(b)[b[i]] >= multiset([b[i]])[b[i]] + multiset([b[j]])[b[i]];
  }

  lemma {:induction false} OccursOnce(a: seq<Candidate>, c: Candidate)
    requires forall i, j :: 0 <= i < j < |a| ==> a[i] != a[j]
    ensures multiset(a)[c] <= 1
  {
    if a != [] {
      var rest := a[..|a| - 1];
      assert a == rest + [a[|a| - 1]];
      OccursOnce(rest, c);
      if c == a[|a| - 1] { assert c !in rest; }
    }
  }

  // One file of the sweep: the record it leaves, and whether it had to change it.
  method RecoverRecord(execution: Record, now: Time) returns (r: Record, changed: bool)
    ensures r == SweptRecord(execution, now) && (changed <==> Fires(Sweep(now), execution))
  {
    r, changed := execution, false;
    if IsFinal(r.status) { return; }
    if r.status == Running {
      if !Truthy(r.startedAt) { return; }
      var ageMinutes := (now - r.startedAt.value) / 60.0;
      if ageMinutes > MAX_AGE_MINUTES {
        r := r.(status := Failed, finishedAt := Some(now), duration := Some(Truncate(now - r.startedAt.value)));
        r := r.(statusUpdatedAt := now, failure := Some(TimedOut));
        changed := true;
      }
    } else if r.status == Canceling {
      if !Truthy(r.cancelRequestedAt) { return; }
      var cancelAge := (now - r.cancelRequestedAt.value) / 60.0;
      if cancelAge > MAX_CANCEL_MINUTES {
        r := r.(status := Canceled, canceledAt := Some(now), cancelReason := Some(ByTimeout), statusUpdatedAt := now);
        if Truthy(r.startedAt) {
          r := r.(duration := Some(Truncate(now - r.startedAt.value)), finishedAt := Some(now));
        }
        changed := true;
      }
    }
  }

  // One row of the pruner: a record still RUNNING under this worker is an orphan and fails.
  method OrphanRecord(data: Record, w: WorkerId, now: Time) returns (r: Record)
    ensures r == OrphanedRecord(data, w, now)
  {
    r := data;
    var foreign := data.workerId.Some? && data.workerId.value != "" && data.workerId.value != w;
    if data.status == Running && !foreign {
      var start := if Truthy(data.startedAt) then data.startedAt.value else now;
      var elapsed := Truncate(now - start);
      r := r.(status := Failed, finishedAt := Some(now), statusUpdatedAt := now);
      r := r.(duration := Some(if elapsed < 0 then 0 else elapsed));
      if r.failure == None { r := r.(failure := Some(Orphaned)); }
    }
  }

  // The first candidate, in list order, that is still waiting.
  ghost predicate IsFirstQueued(f: map<Id, Record>, cs: seq<Candidate>, id: Id) {
    exists k :: 0 <= k < |cs| && cs[k].id == id && StillQueued(f, id) && forall j :: 0 <= j < k ==> !StillQueued(f, cs[j].id)
  }

  function ScanKey(scope: Option<string>): string {
    if scope.Some? then scope.value else "__all__"
  }

  // Each project has a throttle of its own. The polls that look at all projects have one as well, which they share with
  // a project of that odd name.
  lemma {:induction false} ScanKeysDiffer(a: Option<string>, b: Option<string>)
    ensures ScanKey(a) == ScanKey(b) <==> a == b || {a, b} == {None, Some("__all__")}
  {
    if ScanKey(a) == ScanKey(b) && a != b { assert {a, b} == {None, Some("__all__")}; }
  }

  // The runs a poll chooses from.
  function PoolOf(rows: map<Id, Row>, f: map<Id, Record>, listed: seq<Id>, scanned: bool, useIndex: bool,
                  w: Worker, scope: Option<string>, locked: set<Id>): set<Id> {
    if scanned then Candidates(f, w, scope, locked)
    else if useIndex then ListedCandidates(rows, f, listed, w, scope, locked)
    else {}
  }

  // A waiting run whose row leads to its file.
  predicate KeepsRow(rows: map<Id, Row>, f: map<Id, Record>, id: Id) {
    id in rows && id in f && f[id].status == Queued && f[id].project == rows[id].project
  }

  lemma {:induction false} EmptyLists(cs: seq<Candidate>, f: map<Id, Record>, pool: set<Id>)
    requires Lists(cs, f, pool)
    ensures cs == [] <==> pool == {}
  {
    if cs != [] { assert cs[0] in cs; }
  }

  lemma {:induction false} NoneOlder(f: map<Id, Record>, sorted: seq<Candidate>, k: nat, c: Candidate)
    requires Sorted(sorted) && k < |sorted| && c in sorted && StillQueued(f, c.id)
    requires forall j :: 0 <= j < k ==> !StillQueued(f, sorted[j].id)
    ensures sorted[k].queuedAt <= c.queuedAt
  {
    var j :| 0 <= j < |sorted| && sorted[j] == c;
    assert j >= k;
  }

  lemma {:induction false} FirstIsFifo(f: map<Id, Record>, sorted: seq<Candidate>, pool: set<Id>, handout: Option<Id>)
    requires Sorted(sorted) && Lists(sorted, f, pool) && forall id :: id in pool ==> f[id].status == Queued
    requires handout == None ==> forall c :: c in sorted ==> !StillQueued(f, c.id)
    requires handout.Some? ==> IsFirstQueued(f, sorted, handout.value)
    ensures FifoPick(f, pool, handout)
  {
    if handout.Some? {
      var k :| 0 <= k < |sorted| && sorted[k].id == handout.value && StillQueued(f, handout.value)
               && forall j :: 0 <= j < k ==> !StillQueued(f, sorted[j].id);
      assert sorted[k] in sorted;
      forall id | id in pool && f[id].named ensures QueuedAt(f[handout.value]) <= QueuedAt(f[id]) {
        var c :| c in sorted && c.id == id;
        NoneOlder(f, sorted, k, c);
      }
    }
  }

  // Admission changes no waiting run and makes none.
  lemma {:induction false} AdmittedKeepsQueue(f: map<Id, Record>, rows: map<Id, WorkerId>, w: Worker, limit: int,
                                              now: Time)
    ensures var a := Admitted(f, rows, w, limit, now);
            a.Keys == f.Keys && forall id :: id in f && (f[id].status == Queued || a[id].status == Queued) ==> a[id] == f[id]
  {
    forall id | id in f ensures Pruned(f, rows, w.id, now)[id].status == Queued ==> Pruned(f, rows, w.id, now)[id] == f[id] {
      PruneSparesOthers(f, rows, w.id, now, id);
    }
  }

  lemma {:induction false} PoolIsWaiting(rows: map<Id, Row>, f: map<Id, Record>, listed: seq<Id>, scanned: bool,
                                         useIndex: bool,
                                         w: Worker, scope: Option<string>, locked: set<Id>)
    ensures forall id :: id in PoolOf(rows, f, listed, scanned, useIndex, w, scope, locked) ==> id in f && f[id].status == Queued
  {
  }

  lemma {:induction false} SamePick(f: map<Id, Record>, a: map<Id, Record>, pool: set<Id>, handout: Option<Id>)
    requires a.Keys == f.Keys && (forall id :: id in pool ==> id in f && a[id] == f[id]) && FifoPick(a, pool, handout)
    ensures FifoPick(f, pool, handout)
  {
  }

  lemma {:induction false} NobodyOlder(f: map<Id, Record>, pool: set<Id>, handout: Option<Id>)
    requires FifoPick(f, pool, handout)
    ensures handout.Some? ==> forall id :: id in pool && id in f && f[id].named ==>
              handout.value in f && !EarlierThan(f[id], f[handout.value])
  {
    forall id | handout.Some? && id in pool && id in f && f[id].named ensures !EarlierThan(f[id], f[handout.value]) {
      NoOlderRunWaits(f, pool, handout, id);
    }
  }

  lemma {:induction false} SamePool(f: map<Id, Record>, a: map<Id, Record>, rows: map<Id, Row>, listed: seq<Id>,
                                    scanned: bool, useIndex: bool,
                                    w: Worker, scope: Option<string>, locked: set<Id>)
    requires a.Keys == f.Keys && forall id :: id in f && (f[id].status == Queued || a[id].status == Queued) ==> a[id] == f[id]
    ensures PoolOf(rows, a, listed, scanned, useIndex, w, scope, locked) == PoolOf(rows, f, listed, scanned, useIndex, w, scope, locked)
    ensures ListedCandidates(rows, a, listed, w, scope, locked) == ListedCandidates(rows, f, listed, w, scope, locked)
    ensures forall id :: id in PoolOf(rows, f, listed, scanned, useIndex, w, scope, locked) ==> id in f && f[id].status == Queued && a[id] == f[id]
  {
  }

  // Having made room once, a claim finds room again.
  lemma {:induction false} RoomAfterAdmit(rows: map<Id, WorkerId>, w: Worker, limit: int)
    requires 0 < limit
    ensures |RowsOf(AdmittedRows(rows, w, limit), w.id)| < limit
  {
    if |RowsOf(rows, w.id)| >= limit {
      assert RowsOf(rows - RowsOf(rows, w.id), w.id) == {};
    }
  }

  // Only a worker that has no room left has its runs failed; then it has room again.
  lemma {:induction false} AdmissionSparesTheIdle(f: map<Id, Record>, rows: map<Id, WorkerId>, w: Worker, limit: int,
                                                  now: Time, id: Id)
    requires id in f
    ensures |RowsOf(rows, w.id)| < limit ==> Admitted(f, rows, w, limit, now)[id] == f[id] && AdmittedRows(rows, w, limit) == rows
    ensures |RowsOf(rows, w.id)| >= limit && f[id].status == Running && id in rows && rows[id] == w.id && f[id].workerId == Some(w.id) ==>
              Admitted(f, rows, w, limit, now)[id].status == Failed
    ensures (id in rows && rows[id] != w.id) || (id !in rows) ==> Admitted(f, rows, w, limit, now)[id] == f[id]
  {
  }

  // Two fallback scans under one key are at least an interval apart, and `last` remembers the latest one of each key.
  ghost predicate Throttled(interval: Time, last: map<string, Time>, scans: seq<(string, Time)>) {
    && (forall i, j :: 0 <= i < j < |scans| && scans[i].0 == scans[j].0 ==> scans[j].1 - scans[i].1 >= interval)
    && (forall i :: 0 <= i < |scans| ==> scans[i].0 in last && scans[i].1 <= last[scans[i].0])
    && (forall k :: k in last ==> (k, last[k]) in scans)
  }

  lemma {:induction false} ThrottleKept(interval: Time, last: map<string, Time>, scans: seq<(string, Time)>,
                                        key: string, now: Time)
    requires 0.0 < interval && Throttled(interval, last, scans)
    requires now - (if key in last then last[key] else 0.0) >= interval
    ensures Throttled(interval, last[key := now], scans + [(key, now)])
  {
    var last', scans' := last[key := now], scans + [(key, now)];
    forall k | k in last' ensures (k, last'[k]) in scans' {
      if k == key {
        assert scans'[|scans|] == (k, last'[k]);
      } else {
        assert (k, last[k]) in scans;
      }
    }
  }

  // Some of the polls, in order and at least an interval apart.
  ghost predicate SpacedPolls(times: seq<Time>, marks: seq<nat>, interval: Time) {
    && (forall k :: 0 <= k < |marks| ==> marks[k] < |times|)
    && (forall j, k :: 0 <= j < k < |marks| ==> marks[j] < marks[k])
    && (forall k :: 0 < k < |marks| ==> times[marks[k]] - times[marks[k - 1]] >= interval)
  }

  class Server {
    const scanInterval: Time
    var files: map<Id, Record>
    var queuedRows: map<Id, Row>
    var runningRows: map<Id, WorkerId>
    var lastScan: map<string, Time>
    ghost var scans: seq<(string, Time)>     // every fallback scan so far, in order

    ghost predicate Valid()
      reads this`lastScan, this`scans
    {
      0.0 < scanInterval && Throttled(scanInterval, lastScan, scans)
    }

    constructor (interval: Time, stored: map<Id, Record>)
      requires 0.0 < interval
      ensures Valid() && files == stored && queuedRows == map[] && runningRows == map[] && lastScan == map[]
    {
      scanInterval := interval;
      files, queuedRows, runningRows, lastScan, scans := stored, map[], map[], map[], [];
    }

    method CancelExecution(id: Id, now: Time) returns (response: Response)
      modifies this`files
      ensures response == NotFound <==> id !in old(files)
      ensures response == Accepted <==> id in old(files) && Fires(Cancel(now), old(files)[id])
      ensures response.Conflict? ==> response.current == old(files)[id].status
      ensures files == if response == Accepted then old(files)[id := Fire(Cancel(now), old(files)[id])] else old(files)
    {
      if id !in files { return NotFound; }
      var execution := files[id];
      if execution.status != Queued { return Conflict(execution.status); }
      execution := execution.(status := Canceled, canceledAt := Some(now), cancelReason := Some(ByUser));
      execution := execution.(statusUpdatedAt := now);
      files := files[id := execution];
      return Accepted;
    }

    method StopExecution(id: Id, now: Time) returns (response: Response)
      modifies this`files
      ensures response == NotFound <==> id !in old(files)
      ensures response == Accepted <==> id in old(files) && Fires(Stop(now), old(files)[id])
      ensures response == AlreadyStopping <==> id in old(files) && old(files)[id].status == Canceling
      ensures response.Conflict? ==> response.current == old(files)[id].status
      ensures files == if response == Accepted then old(files)[id := Fire(Stop(now), old(files)[id])] else old(files)
    {
      if id !in files { return NotFound; }
      var execution := files[id];
      if execution.status == Canceling { return AlreadyStopping; }
      if execution.status != Running { return Conflict(execution.status); }
      execution := execution.(status := Canceling, cancelRequestedAt := Some(now));
      execution := execution.(statusUpdatedAt := now);
      files := files[id := execution];
      return Accepted;
    }

    method RecoverFile(id: Id, now: Time) returns (changed: bool)
      requires id in files
      modifies this`files
      ensures files == old(files)[id := SweptRecord(old(files)[id], now)]
      ensures changed <==> Fires(Sweep(now), old(files)[id])
    {
      var execution;
      execution, changed := RecoverRecord(files[id], now);
      if changed { files := files[id := execution]; }
    }

    // Visits every file in an arbitrary order; the answer counts the records it changed.
    method RecoverStuckExecutions(now: Time, locked: set<Id>) returns (recovered: nat)
      modifies this`files
      ensures files == Swept(old(files), locked, now)
      ensures recovered == |DueIn(old(files), locked, now)|
    {
      var rest := files.Keys;
      ghost var before, hit: set<Id> := files, {};
      recovered := 0;
      while rest != {}
        invariant forall id :: id in files <==> id in before
        invariant forall id :: id in rest ==> id in before && files[id] == before[id] && id !in hit
        invariant forall id :: id in before && id !in rest ==> files[id] == SweptFile(id, before[id], locked, now)
        invariant forall id :: id in before && id !in rest ==> (id in hit <==> id !in locked && Fires(Sweep(now), before[id]))
        invariant forall id :: id in hit ==> id in before
        invariant recovered == |hit|
        decreases rest
      {
        var id :| id in rest;
        rest := rest - {id};
        if id !in locked {
          var changed := RecoverFile(id, now);
          if changed {
            recovered := recovered + 1;
            hit := hit + {id};
          }
        }
      }
      assert files == Swept(before, locked, now);
      assert hit == DueIn(before, locked, now);
    }

    method PruneRow(id: Id, w: WorkerId, now: Time)
      modifies this`files, this`runningRows
      ensures runningRows == old(runningRows) - {id}
      ensures files == if id in old(files) then old(files)[id := OrphanedRecord(old(files)[id], w, now)] else old(files)
    {
      if id in files {
        var execution := OrphanRecord(files[id], w, now);
        files := files[id := execution];
      }
      runningRows := runningRows - {id};
    }

    // Drops every running row of the worker; a run that was really RUNNING under it is marked FAILED.
    method PruneStaleRunning(w: WorkerId, now: Time) returns (pruned: nat)
      modifies this`files, this`runningRows
      ensures files == Pruned(old(files), old(runningRows), w, now)
      ensures runningRows == old(runningRows) - RowsOf(old(runningRows), w)
      ensures pruned == |RowsOf(old(runningRows), w)|
    {
      var rest := RowsOf(runningRows, w);
      ghost var before, rows, all := files, runningRows, rest;
      pruned := 0;
      while rest != {}
        invariant rest <= all && forall id :: id in files <==> id in before
        invariant forall id :: id in runningRows <==> id in rows && (rows[id] == w ==> id in rest)
        invariant forall id :: id in runningRows ==> runningRows[id] == rows[id]
        invariant forall id :: id in rest && id in before ==> files[id] == before[id]
        invariant forall id :: id in before && id !in rest ==> files[id] == PrunedRecord(id, before[id], rows, w, now)
        invariant pruned + |rest| == |all|
        decreases rest
      {
        var id :| id in rest;
        rest := rest - {id};
        PruneRow(id, w, now);
        pruned := pruned + 1;
      }
      assert files == Pruned(before, rows, w, now);
    }

    // The index query: oldest rows in scope first, at most LIST_LIMIT.
    method ListQueued(scope: Option<string>) returns (listed: seq<Id>)
      ensures IsListing(queuedRows, scope, listed)
    {
      var rest := ScopedRows(queuedRows, scope);
      var entries: seq<Candidate> := [];
      while rest != {}
        invariant rest <= ScopedRows(queuedRows, scope)
        invariant EntriesOf(entries, queuedRows, scope, rest)
        decreases rest
      {
        var id :| id in rest;
        rest := rest - {id};
        entries := entries + [Candidate(queuedRows[id].queuedAt, id)];
      }
      var sorted := SortByTime(entries);
      SortedEntries(entries, queuedRows, scope);
      listed := OldestIds(sorted);
      OldestAreListing(sorted, queuedRows, scope);
    }

    method CheckRow(id: Id, w: Worker, locked: set<Id>) returns (found: bool)
      requires id in queuedRows
      modifies this`queuedRows
      ensures queuedRows == if Misleading(old(queuedRows), files, id, locked) then old(queuedRows) - {id} else old(queuedRows)
      ensures found <==> id in files && files[id].project == old(queuedRows)[id].project && id !in locked
                         && files[id].status == Queued && Satisfies(w, files[id].requirements)
    {
      if id !in files || files[id].project != queuedRows[id].project {
        queuedRows := queuedRows - {id};
        return false;
      }
      if id in locked { return false; }
      if files[id].status != Queued {
        queuedRows := queuedRows - {id};
        return false;
      }
      return Satisfies(w, files[id].requirements);
    }

    // The fast path: open only the files the index lists, and drop rows that lead to no waiting run.
    method CheckListed(listed: seq<Id>, w: Worker, scope: Option<string>, locked: set<Id>) returns (queuedRuns: seq<Candidate>)
      requires IsListing(queuedRows, scope, listed)
      modifies this`queuedRows
      ensures Lists(queuedRuns, files, ListedCandidates(old(queuedRows), files, listed, w, scope, locked))
      ensures queuedRows == old(queuedRows) - MisleadingAmong(old(queuedRows), files, listed, locked)
    {
      queuedRuns := [];
      ghost var rows := queuedRows;
      var i := 0;
      while i < |listed|
        invariant 0 <= i <= |listed|
        invariant queuedRows == rows - MisleadingAmong(rows, files, listed[..i], locked)
        invariant Lists(queuedRuns, files, ListedCandidates(rows, files, listed[..i], w, scope, locked))
      {
        var id := listed[i];
        NextListed(rows, files, listed, i, w, scope, locked);
        var found := CheckRow(id, w, locked);
        if found {
          ListsOneMore(queuedRuns, files, ListedCandidates(rows, files, listed[..i], w, scope, locked), Candidate(QueuedAt(files[id]), id));
          queuedRuns := queuedRuns + [Candidate(QueuedAt(files[id]), id)];
        }
        i := i + 1;
      }
      assert listed[..i] == listed;
    }

    method ScanFile(id: Id, w: Worker, scope: Option<string>, locked: set<Id>, now: Time) returns (found: bool)
      requires id in files
      modifies this`queuedRows
      ensures queuedRows == if IsWaiting(files, id, scope, locked) then old(queuedRows)[id := RowFor(files[id], now)] else old(queuedRows)
      ensures found <==> IsCandidate(files, id, w, scope, locked)
    {
      if !InScope(scope, files[id].project) || id in locked { return false; }
      if files[id].status != Queued { return false; }
      queuedRows := queuedRows[id := RowFor(files[id], now)];
      return Satisfies(w, files[id].requirements);
    }

    // The slow path: every file in scope, giving each waiting run a row on the way, whether or not
    // this worker may run it.
    method ScanQueuedFromDisk(w: Worker, scope: Option<string>, locked: set<Id>, now: Time) returns (scanned: seq<Candidate>)
      modifies this`queuedRows
      ensures Lists(scanned, files, Candidates(files, w, scope, locked))
      ensures queuedRows == Backfilled(old(queuedRows), files, scope, locked, now)
    {
      scanned := [];
      ghost var rows, pool: set<Id> := queuedRows, {};
      var rest := files.Keys;
      while rest != {}
        invariant rest <= files.Keys
        invariant forall id :: id in pool <==> id !in rest && IsCandidate(files, id, w, scope, locked)
        invariant Lists(scanned, files, pool)
        invariant forall id :: id in queuedRows <==> id in rows || (id !in rest && IsWaiting(files, id, scope, locked))
        invariant forall id :: id in queuedRows ==>
          queuedRows[id] == if id !in rest && IsWaiting(files, id, scope, locked) then RowFor(files[id], now) else rows[id]
        decreases rest
      {
        var id :| id in rest;
        rest := rest - {id};
        var found := ScanFile(id, w, scope, locked, now);
        if found {
          ListsOneMore(scanned, files, pool, Candidate(QueuedAt(files[id]), id));
          scanned := scanned + [Candidate(QueuedAt(files[id]), id)];
          pool := pool + {id};
        }
      }
      assert pool == Candidates(files, w, scope, locked);
      BackfilledByRow(rows, files, scope, locked, now, queuedRows);
    }

    // Walks the sorted candidates and starts the first that is still waiting when re-read.  A worker found at
    // capacity has its rows pruned, which fails whatever it still had RUNNING and makes room again.
    method CommitFirst(queuedRuns: seq<Candidate>, w: Worker, limit: int, now: Time) returns (handout: Option<Id>)
      requires 0 < limit
      modifies this`files, this`queuedRows, this`runningRows
      ensures handout == None ==> forall c :: c in queuedRuns ==> !StillQueued(old(files), c.id)
      ensures handout == None ==> files == old(files) && runningRows == old(runningRows) && queuedRows == old(queuedRows)
      ensures handout.Some? ==> IsFirstQueued(old(files), queuedRuns, handout.value)
      ensures handout.Some? ==>
        && files == Admitted(old(files), old(runningRows), w, limit, now)[handout.value := Fire(Claim(w, now), old(files)[handout.value])]
        && runningRows == AdmittedRows(old(runningRows), w, limit)[handout.value := w.id]
        && queuedRows == old(queuedRows) - {handout.value}
    {
      var i := 0;
      while i < |queuedRuns|
        invariant 0 <= i <= |queuedRuns|
        invariant files == old(files) && runningRows == old(runningRows) && queuedRows == old(queuedRows)
        invariant forall j :: 0 <= j < i ==> !StillQueued(files, queuedRuns[j].id)
      {
        var id := queuedRuns[i].id;
        i := i + 1;
        if id !in files || !files[id].named || files[id].status != Queued { continue; }
        if |RowsOf(runningRows, w.id)| >= limit {
          PruneSparesOthers(files, runningRows, w.id, now, id);
          var _ := PruneStaleRunning(w.id, now);
          assert RowsOf(runningRows, w.id) == {};
          if |RowsOf(runningRows, w.id)| >= limit { continue; }
        }
        var execution := files[id].(status := Running, startedAt := Some(now), statusUpdatedAt := now);
        execution := execution.(workerId := Some(w.id), workerName := Some(w.name), workerTags := w.registeredTags);
        files := files[id := execution];
        runningRows := runningRows[id := w.id];
        queuedRows := queuedRows - {id};
        return Some(id);
      }
      return None;
    }

    ghost function LastScan(scope: Option<string>): Time
      reads this`lastScan
    {
      if ScanKey(scope) in lastScan then lastScan[ScanKey(scope)] else 0.0
    }

    ghost predicate ScanDue(scope: Option<string>, now: Time)
      reads this`lastScan
    {
      now - LastScan(scope) >= scanInterval
    }

    // The capacity check on arrival.
    method Admit(w: Worker, limit: int, now: Time) returns (ok: bool)
      modifies this`files, this`runningRows
      ensures ok <==> 0 < limit
      ensures files == Admitted(old(files), old(runningRows), w, limit, now)
      ensures runningRows == AdmittedRows(old(runningRows), w, limit)
    {
      if |RowsOf(runningRows, w.id)| < limit { return true; }
      var _ := PruneStaleRunning(w.id, now);
      assert RowsOf(runningRows, w.id) == {};
      return |RowsOf(runningRows, w.id)| < limit;
    }

    // The search for waiting runs: the index first, the disk when the index is unusable or led nowhere.
    method FindQueued(w: Worker, scope: Option<string>, useIndex: bool, locked: set<Id>, now: Time)
      returns (queuedRuns: seq<Candidate>, ghost listed: seq<Id>, ghost scanned: bool)
      requires Valid()
      modifies this`queuedRows, this`lastScan, this`scans
      ensures Valid()
      ensures useIndex ==> IsListing(old(queuedRows), scope, listed)
      ensures scanned <==> !useIndex || (ListedCandidates(old(queuedRows), files, listed, w, scope, locked) == {} && old(ScanDue(scope, now)))
      ensures Lists(queuedRuns, files, PoolOf(old(queuedRows), files, listed, scanned, useIndex, w, scope, locked))
      ensures forall id :: KeepsRow(old(queuedRows), files, id) ==> id in queuedRows
      ensures scanned ==> forall id :: IsWaiting(files, id, scope, locked) ==> id in queuedRows
      ensures useIndex && scanned ==> lastScan == old(lastScan)[ScanKey(scope) := now] && scans == old(scans) + [(ScanKey(scope), now)]
      ensures !(useIndex && scanned) ==> lastScan == old(lastScan) && scans == old(scans)
    {
      listed, scanned := [], false;
      if !useIndex {
        queuedRuns := ScanQueuedFromDisk(w, scope, locked, now);
        scanned := true;
        return;
      }
      var candidates := ListQueued(scope);
      listed := candidates;
      queuedRuns := CheckListed(candidates, w, scope, locked);
      EmptyLists(queuedRuns, files, ListedCandidates(old(queuedRows), files, listed, w, scope, locked));
      if queuedRuns == [] {
        var last := if ScanKey(scope) in lastScan then lastScan[ScanKey(scope)] else 0.0;
        if now - last >= scanInterval {
          RecordScan(scope, now);
          queuedRuns := ScanQueuedFromDisk(w, scope, locked, now);
          scanned := true;
        }
      }
    }

    method RecordScan(scope: Option<string>, now: Time)
      requires Valid() && ScanDue(scope, now)
      modifies this`lastScan, this`scans
      ensures Valid()
      ensures lastScan == old(lastScan)[ScanKey(scope) := now] && scans == old(scans) + [(ScanKey(scope), now)]
    {
      ThrottleKept(scanInterval, lastScan, scans, ScanKey(scope), now);
      lastScan := lastScan[ScanKey(scope) := now];
      scans := scans + [(ScanKey(scope), now)];
    }

    // Oldest first; returns the run that is now the worker's.
    method StartOldest(queuedRuns: seq<Candidate>, w: Worker, limit: int, now: Time, ghost pool: set<Id>) returns (handout: Option<Id>)
      requires 0 < limit && Lists(queuedRuns, files, pool)
      requires forall id :: id in pool ==> files[id].status == Queued
      modifies this`files, this`queuedRows, this`runningRows
      ensures FifoPick(old(files), pool, handout)
      ensures handout == None ==> files == old(files) && runningRows == old(runningRows) && queuedRows == old(queuedRows)
      ensures handout.Some? ==>
        && files == Admitted(old(files), old(runningRows), w, limit, now)[handout.value := Fire(Claim(w, now), old(files)[handout.value])]
        && runningRows == AdmittedRows(old(runningRows), w, limit)[handout.value := w.id]
        && queuedRows == old(queuedRows) - {handout.value}
    {
      if queuedRuns == [] {
        EmptyLists(queuedRuns, files, pool);
        return None;
      }
      var sorted := SortByTime(queuedRuns);
      SortIsSorted(queuedRuns);
      SortKeepsElements(queuedRuns);
      handout := CommitFirst(sorted, w, limit, now);
      FirstIsFifo(old(files), sorted, pool, handout);
    }

    // The part of a poll behind the capacity check.
    method FindAndStart(w: Worker, limit: int, scope: Option<string>, useIndex: bool, locked: set<Id>, now: Time)
      returns (handout: Option<Id>, ghost listed: seq<Id>, ghost scanned: bool, ghost pool: set<Id>)
      requires Valid() && |RowsOf(runningRows, w.id)| < limit
      modifies this
      ensures Valid()
      ensures useIndex ==> IsListing(old(queuedRows), scope, listed)
      ensures scanned <==> !useIndex || (ListedCandidates(old(queuedRows), old(files), listed, w, scope, locked) == {}
                                         && old(ScanDue(scope, now)))
      ensures pool == PoolOf(old(queuedRows), old(files), listed, scanned, useIndex, w, scope, locked)
      ensures FifoPick(old(files), pool, handout)
      ensures handout == None ==> files == old(files) && runningRows == old(runningRows)
      ensures handout.Some? ==>
        && handout.value in old(files) && old(files)[handout.value].status == Queued
        && files == old(files)[handout.value := Fire(Claim(w, now), old(files)[handout.value])]
        && runningRows == old(runningRows)[handout.value := w.id]
      ensures forall id :: KeepsRow(old(queuedRows), files, id) ==> id in queuedRows
      ensures scanned ==> forall id :: IsWaiting(files, id, scope, locked) ==> id in queuedRows
      ensures useIndex && scanned ==> lastScan == old(lastScan)[ScanKey(scope) := now] && scans == old(scans) + [(ScanKey(scope), now)]
      ensures !(useIndex && scanned) ==> lastScan == old(lastScan) && scans == old(scans)
    {
      var queuedRuns;
      queuedRuns, listed, scanned := FindQueued(w, scope, useIndex, locked, now);
      pool := PoolOf(old(queuedRows), files, listed, scanned, useIndex, w, scope, locked);
      PoolIsWaiting(old(queuedRows), files, listed, scanned, useIndex, w, scope, locked);
      handout := StartOldest(queuedRuns, w, limit, now, pool);
    }

    // One poll of a worker.  `listed` is the index query's answer, `scanned` says whether the poll went
    // through the files on disk, and `pool` holds the runs it chose from.
    method ClaimNextExecution(w: Worker, limit: int, scope: Option<string>, useIndex: bool, locked: set<Id>, now: Time)
      returns (handout: Option<Id>, ghost listed: seq<Id>, ghost scanned: bool, ghost pool: set<Id>)
      requires Valid()
      modifies this
      ensures Valid()
      // A worker is turned away only for a limit that leaves no room at all.
      ensures limit <= 0 ==> handout == None && !scanned
      // Where it looked.
      ensures 0 < limit && useIndex ==> IsListing(old(queuedRows), scope, listed)
      ensures 0 < limit ==> (scanned <==> !useIndex || (ListedCandidates(old(queuedRows), old(files), listed, w, scope, locked) == {}
                                                        && old(ScanDue(scope, now))))
      ensures 0 < limit ==> pool == PoolOf(old(queuedRows), old(files), listed, scanned, useIndex, w, scope, locked)
      // What it took, and what became of the records.
      ensures 0 < limit ==> FifoPick(old(files), pool, handout)
      ensures handout.Some? ==> forall id :: id in pool && id in old(files) && old(files)[id].named ==>
                handout.value in old(files) && !EarlierThan(old(files)[id], old(files)[handout.value])
      ensures handout == None ==> files == Admitted(old(files), old(runningRows), w, limit, now)
      ensures handout.Some? ==>
        && handout.value in old(files) && old(files)[handout.value].status == Queued
        && files == Admitted(old(files), old(runningRows), w, limit, now)[handout.value := Fire(Claim(w, now), old(files)[handout.value])]
      ensures runningRows == if handout == None then AdmittedRows(old(runningRows), w, limit)
                             else AdmittedRows(old(runningRows), w, limit)[handout.value := w.id]
      // The index keeps the row of every waiting run, and gains the missing ones when the disk was scanned.
      ensures forall id :: KeepsRow(old(queuedRows), files, id) ==> id in queuedRows
      ensures scanned ==> forall id :: IsWaiting(files, id, scope, locked) ==> id in queuedRows
      // The throttle.
      ensures useIndex && scanned ==> lastScan == old(lastScan)[ScanKey(scope) := now] && scans == old(scans) + [(ScanKey(scope), now)]
      ensures !(useIndex && scanned) ==> lastScan == old(lastScan) && scans == old(scans)
    {
      handout, listed, scanned, pool := None, [], false, {};
      var ok := Admit(w, limit, now);
      AdmittedKeepsQueue(old(files), old(runningRows), w, limit, now);
      if !ok { return; }
      RoomAfterAdmit(old(runningRows), w, limit);
      ghost var admitted := files;
      handout, listed, scanned, pool := FindAndStart(w, limit, scope, useIndex, locked, now);
      SamePool(old(files), admitted, old(queuedRows), listed, scanned, useIndex, w, scope, locked);
      SamePick(old(files), admitted, pool, handout);
      NobodyOlder(old(files), pool, handout);
    }

    // A worker that polls while the index is unusable drains the queue: its polls are a series of claims.
    method PollWithoutIndex(w: Worker, limit: int, scope: Option<string>, times: seq<Time>)
      returns (picks: seq<Option<Id>>, ghost states: seq<map<Id, Record>>)
      requires Valid() && 0 < limit
      modifies this
      ensures Valid() && |picks| == |times| && ClaimSeries(states, picks, w, scope)
      ensures states[0] == old(files) && states[|picks|] == files
    {
      picks, states := [], [files];
      for i := 0 to |times|
        invariant Valid() && |picks| == i && ClaimSeries(states, picks, w, scope)
        invariant states[0] == old(files) && states[i] == files
      {
        ghost var rows := runningRows;
        var handout, _, _, _ := ClaimNextExecution(w, limit, scope, false, {}, times[i]);
        FullScanPollIsStep(states[i], files, rows, w, limit, scope, handout, times[i]);
        SeriesExtends(states, picks, w, scope, files, handout);
        picks, states := picks + [handout], states + [files];
      }
    }

    // A poll while some run is eligible: it takes an eligible run if a scan is due, and takes one or none if not.
    method PollOnce(w: Worker, limit: int, scope: Option<string>, now: Time, ghost lost: Id) returns (handout: Option<Id>)
      requires Valid() && 0 < limit && LastScan(scope) <= now
      requires lost in Eligible(files, w, scope) && QueueNamed(files)
      modifies this
      ensures Valid() && QueueNamed(files) && old(LastScan(scope)) <= LastScan(scope) <= now
      ensures old(ScanDue(scope, now)) ==> handout.Some?
      ensures handout == None ==> LastScan(scope) == old(LastScan(scope)) && Eligible(files, w, scope) == old(Eligible(files, w, scope))
      ensures handout.Some? ==>
        && handout.value in old(Eligible(files, w, scope))
        && Eligible(files, w, scope) == old(Eligible(files, w, scope)) - {handout.value}
        && handout.value in files && files[handout.value].status == Running && files[handout.value].workerId == Some(w.id)
        && files[handout.value].startedAt == Some(now)
    {
      ghost var before, rows, index := files, runningRows, queuedRows;
      ghost var listed, scanned, pool;
      handout, listed, scanned, pool := ClaimNextExecution(w, limit, scope, true, {}, now);
      if scanned || ListedCandidates(index, before, listed, w, scope, {}) != {} {
        LostRunIsFound(index, before, listed, scanned, w, scope, handout, lost);
        PollShrinks(before, files, rows, w, limit, scope, handout.value, now);
      } else {
        assert pool == {};
        AdmissionKeepsEligible(before, rows, w, limit, scope, now);
      }
    }

    // However often a worker polls, it gets every eligible run, also one the index has lost: there are n eligible runs,
    // and by the last of n polls that are a scan interval apart, whatever polls lie between them, it has been started.
    method PollUntilStarted(w: Worker, limit: int, scope: Option<string>, times: seq<Time>, ghost marks: seq<nat>, lost: Id)
      returns (polls: nat)
      requires Valid() && 0 < limit
      requires lost in Eligible(files, w, scope) && QueueNamed(files)
      requires forall i, j :: 0 <= i <= j < |times| ==> times[i] <= times[j]
      requires times != [] ==> LastScan(scope) <= times[0]
      requires SpacedPolls(times, marks, scanInterval) && |marks| == |Eligible(files, w, scope)|
      requires marks != [] ==> ScanDue(scope, times[marks[0]])
      modifies this
      ensures Valid() && old(|Eligible(files, w, scope)|) == |marks| && 1 <= polls <= marks[|marks| - 1] + 1 <= |times|
      ensures lost in files && files[lost].status == Running && files[lost].workerId == Some(w.id)
      ensures files[lost].startedAt == Some(times[polls - 1])
    {
      polls := 0;
      var handout := None;
      ghost var passed := 0;
      while handout != Some(lost)
        invariant Valid() && QueueNamed(files)
        invariant 0 <= passed <= |marks| && polls <= |times|
        invariant forall k :: 0 <= k < passed ==> marks[k] < polls
        invariant passed < |marks| ==> polls <= marks[passed]
        invariant polls < |times| ==> LastScan(scope) <= times[polls]
        invariant passed + |Eligible(files, w, scope)| <= |marks|
        invariant passed + |Eligible(files, w, scope)| == |marks| && passed < |marks| ==> ScanDue(scope, times[marks[passed]])
        invariant handout != Some(lost) ==> lost in Eligible(files, w, scope)
        invariant handout == Some(lost) ==>
          && 1 <= polls <= marks[|marks| - 1] + 1 && lost in files && files[lost].status == Running
          && files[lost].workerId == Some(w.id) && files[lost].startedAt == Some(times[polls - 1])
        decreases |times| - polls
      {
        assert passed < |marks|;
        ghost var due := marks[passed];
        handout := PollOnce(w, limit, scope, times[polls], lost);
        if polls == due { passed := passed + 1; }
        polls := polls + 1;
      }
    }
  }
}
