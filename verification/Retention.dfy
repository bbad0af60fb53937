/** Cleaning up old backups. */
module Retention {

  datatype JobStatus = Running | Completed | Failed | Deleted

  /** A backup job; its id is its position in the table, its time is in microseconds. */
  datatype Job = Job(createdAt: int, status: JobStatus)

  const DAY := 86_400_000_000

  function AgeDays(now: int, createdAt: int): int {
    (now - createdAt) / DAY
  }

  /** Newest first; of two equally old jobs the one with the higher id comes first. */
  predicate Newer(jobs: seq<Job>, a: nat, b: nat)
    requires a < |jobs| && b < |jobs|
  {
    jobs[a].createdAt > jobs[b].createdAt || (jobs[a].createdAt == jobs[b].createdAt && a > b)
  }

  predicate Ordered(jobs: seq<Job>, ids: seq<nat>) {
    && (forall i :: 0 <= i < |ids| ==> ids[i] < |jobs|)
    && (forall i, j :: 0 <= i < j < |ids| ==> Newer(jobs, ids[i], ids[j]))
  }

  /** The completed jobs, all and only, newest first: what the query returns. */
  ghost predicate NewestCompleted(jobs: seq<Job>, ids: seq<nat>) {
    && Ordered(jobs, ids)
    && (forall id: nat :: id in ids <==> id < |jobs| && jobs[id].status == Completed)
  }

  function AtLeastOne(keepLast: int): nat {
    if keepLast > 1 then keepLast else 1
  }

  predicate OldEnough(job: Job, retentionDays: int, now: int) {
    retentionDays == 0 || AgeDays(now, job.createdAt) >= retentionDays
  }

  /** How many of the newest completed jobs stay. */
  function KeptCount(jobs: seq<Job>, ids: seq<nat>, retentionDays: int, keepLast: int, now: int): (m: nat)
    requires forall i :: 0 <= i < |ids| ==> ids[i] < |jobs|
    ensures m <= |ids|
    ensures m >= AtLeastOne(keepLast) || m == |ids|
  {
    if ids == [] then 0
    else
      var m := KeptCount(jobs, ids[..|ids| - 1], retentionDays, keepLast, now);
      if m < |ids| - 1 then m
      else if |ids| - 1 < AtLeastOne(keepLast) || !OldEnough(jobs[ids[|ids| - 1]], retentionDays, now) then |ids|
      else |ids| - 1
  }

  function MarkDeleted(jobs: seq<Job>, ids: seq<nat>): (r: seq<Job>)
    ensures |r| == |jobs|
    ensures forall id :: 0 <= id < |jobs| ==> r[id] == if id in ids then jobs[id].(status := Deleted) else jobs[id]
  {
    seq(|jobs|, id requires 0 <= id < |jobs| => if id in ids then jobs[id].(status := Deleted) else jobs[id])
  }

  lemma OlderIsOldEnough(jobs: seq<Job>, ids: seq<nat>, i: nat, j: nat, retentionDays: int, now: int)
    requires Ordered(jobs, ids) && i < j < |ids| && OldEnough(jobs[ids[i]], retentionDays, now)
    ensures OldEnough(jobs[ids[j]], retentionDays, now)
  {
    assert Newer(jobs, ids[i], ids[j]);
  }

  /** A job is old enough if retention is off, or it was made that many days ago, to the microsecond. */
  lemma InDays(job: Job, retentionDays: int, now: int)
    ensures OldEnough(job, retentionDays, now) <==>
            retentionDays == 0 || now - job.createdAt >= retentionDays * 24 * 3600 * 1_000_000
  {
  }

  /**
   The kept jobs are a prefix of the newest-first order: a job goes exactly if it is outside
   the last `keepLast` and old enough, and then every older one goes too.
   */
  lemma {:induction false} KeptIsPrefix(
    jobs: seq<Job>, ids: seq<nat>, retentionDays: int, keepLast: int, now: int, k: nat)
    requires Ordered(jobs, ids) && k < |ids|
    ensures k < KeptCount(jobs, ids, retentionDays, keepLast, now) <==>
            || k == 0 || k < keepLast
            || (retentionDays != 0 && now - jobs[ids[k]].createdAt < retentionDays * 24 * 3600 * 1_000_000)
  {
    InDays(jobs[ids[k]], retentionDays, now);
    var n := |ids| - 1;
    var m := KeptCount(jobs, ids[..n], retentionDays, keepLast, now);
    if k == n && m == n {
    } else if k == n {
      KeptIsPrefix(jobs, ids[..n], retentionDays, keepLast, now, m);
      InDays(jobs[ids[m]], retentionDays, now);
      OlderIsOldEnough(jobs, ids, m, n, retentionDays, now);
    } else {
      KeptIsPrefix(jobs, ids[..n], retentionDays, keepLast, now, k);
    }
  }

  class BackupJobs {
    var jobs: seq<Job>

    constructor ()
      ensures jobs == []
    {
      jobs := [];
    }

    method CleanupOldBackups(completed: seq<nat>, retentionDays: int, keepLast: int, now: int)
      returns (removed: seq<nat>, kept: nat)
      requires NewestCompleted(jobs, completed)
      modifies this
      ensures kept == KeptCount(old(jobs), completed, retentionDays, keepLast, now)
      ensures removed == completed[kept..] && jobs == MarkDeleted(old(jobs), removed)
      ensures NewestCompleted(jobs, completed[..kept])
    {
      ghost var before := jobs;
      ghost var cut := KeptCount(before, completed, retentionDays, keepLast, now);
      var keep := if keepLast > 1 then keepLast else 1;
      assert keep == AtLeastOne(keepLast);
      RestIsNewest(before, completed, cut);
      BetweenEnds(completed, cut);
      NothingMarked(before);
      removed := [];
      hide *;
      for i := 0 to |completed|
        invariant removed == Between(completed, cut, i)
        invariant jobs == MarkDeleted(before, removed)
      {
        CleanupStep(before, completed, i, retentionDays, keepLast, now);
        if i < keep {
          continue;
        }
        var job := jobs[completed[i]];
        var age := AgeDays(now, job.createdAt);
        if retentionDays != 0 && age < retentionDays {
          continue;
        }
        OneMoreMarked(before, removed, completed[i]);
        jobs := jobs[completed[i] := job.(status := Deleted)];
        removed := removed + [completed[i]];
      }
      kept := |completed| - |removed|;
    }
  }

  /** What one pass of the loop decides, in the terms of the code and of the specification. */
  lemma CleanupStep(jobs: seq<Job>, ids: seq<nat>, i: nat, retentionDays: int, keepLast: int, now: int)
    requires NewestCompleted(jobs, ids) && i < |ids|
    ensures ids[i] < |jobs|
    ensures var cut := KeptCount(jobs, ids, retentionDays, keepLast, now);
            var gone := Between(ids, cut, i);
            var stays := i < AtLeastOne(keepLast)
                         || (retentionDays != 0 && AgeDays(now, jobs[ids[i]].createdAt) < retentionDays);
            && ids[i] !in gone && MarkDeleted(jobs, gone)[ids[i]] == jobs[ids[i]]
            && Between(ids, cut, i + 1) == if stays then gone else gone + [ids[i]]
  {
    var cut := KeptCount(jobs, ids, retentionDays, keepLast, now);
    InDays(jobs[ids[i]], retentionDays, now);
    hide KeptCount, AgeDays, Newer, Between;
    KeptIsPrefix(jobs, ids, retentionDays, keepLast, now, i);
    NotYetRemoved(jobs, ids, i, cut);
    BetweenGrows(ids, cut, i);
  }

  lemma NothingMarked(jobs: seq<Job>)
    ensures MarkDeleted(jobs, []) == jobs
  {
  }

  lemma OneMoreMarked(jobs: seq<Job>, removed: seq<nat>, id: nat)
    requires id < |jobs| && id !in removed
    ensures MarkDeleted(jobs, removed)[id] == jobs[id]
    ensures MarkDeleted(jobs, removed + [id]) == MarkDeleted(jobs, removed)[id := jobs[id].(status := Deleted)]
  {
  }

  /** The entries from position `a` up to, not including, position `b`. */
  function Between(ids: seq<nat>, a: nat, b: nat): seq<nat>
    requires b <= |ids|
  {
    if a < b then ids[a..b] else []
  }

  lemma BetweenEnds(ids: seq<nat>, a: nat)
    requires a <= |ids|
    ensures Between(ids, a, 0) == [] && Between(ids, a, |ids|) == ids[a..]
  {
  }

  lemma BetweenGrows(ids: seq<nat>, a: nat, b: nat)
    requires b < |ids|
    ensures Between(ids, a, b + 1) == if a <= b then Between(ids, a, b) + [ids[b]] else Between(ids, a, b)
  {
  }

  lemma NotYetRemoved(jobs: seq<Job>, ids: seq<nat>, i: nat, cut: nat)
    requires Ordered(jobs, ids) && i < |ids|
    ensures ids[i] !in Between(ids, cut, i)
  {
    forall k | cut <= k < i
      ensures ids[k] != ids[i]
    {
      assert Newer(jobs, ids[k], ids[i]);
    }
  }

  /** Without the removed jobs, the query would return the kept prefix. */
  lemma RestIsNewest(jobs: seq<Job>, ids: seq<nat>, m: nat)
    requires NewestCompleted(jobs, ids) && m <= |ids|
    ensures NewestCompleted(MarkDeleted(jobs, ids[m..]), ids[..m])
  {
    var after := MarkDeleted(jobs, ids[m..]);
    forall id: nat
      ensures id in ids[..m] <==> id < |after| && after[id].status == Completed
    {
      if id in ids[..m] {
        var i :| 0 <= i < m && ids[..m][i] == id;
        assert ids[i] == id && id in ids;
        forall k | 0 <= k < |ids[m..]|
          ensures ids[m..][k] != id
        {
          assert Newer(jobs, ids[i], ids[m + k]);
        }
      } else if id < |jobs| && jobs[id].status == Completed {
        assert id in ids && ids == ids[..m] + ids[m..];
        assert id in ids[m..];
      }
    }
  }

  /** The newest-first list of the completed jobs is unique. */
  lemma {:induction false} OrderIsUnique(jobs: seq<Job>, a: seq<nat>, b: seq<nat>)
    requires Ordered(jobs, a) && Ordered(jobs, b)
    requires forall id :: id in a <==> id in b
    ensures a == b
  {
    SameElementsSameEmptiness(a, b);
    if a == [] {
    } else {
      assert a[0] in b && b[0] in a;
      var j :| 0 <= j < |b| && b[j] == a[0];
      var i :| 0 <= i < |a| && a[i] == b[0];
      assert i > 0 ==> Newer(jobs, a[0], a[i]);
      assert j > 0 ==> Newer(jobs, b[0], b[j]);
      assert a[0] == b[0];
      forall id
        ensures id in a[1..] <==> id in b[1..]
      {
        InTail(jobs, a, id);
        InTail(jobs, b, id);
      }
      OrderIsUnique(jobs, a[1..], b[1..]);
    }
  }

  lemma SameElementsSameEmptiness(a: seq<nat>, b: seq<nat>)
    requires forall id :: id in a <==> id in b
    ensures a == [] <==> b == []
  {
    if a != [] {
      assert a[0] in b;
    }
    if b != [] {
      assert b[0] in a;
    }
  }

  lemma InTail(jobs: seq<Job>, ids: seq<nat>, id: nat)
    requires Ordered(jobs, ids) && ids != []
    ensures id in ids[1..] <==> id in ids && id != ids[0]
  {
    forall k | 1 <= k < |ids|
      ensures ids[k] != ids[0] && ids[k] in ids[1..]
    {
      assert Newer(jobs, ids[0], ids[k]);
      assert ids[1..][k - 1] == ids[k];
    }
  }

  /** A second cleanup at the same time with the same settings finds nothing to remove. */
  lemma SecondCleanupRemovesNothing(
      jobs: seq<Job>, ids: seq<nat>, again: seq<nat>, retentionDays: int, keepLast: int, now: int)
    requires NewestCompleted(jobs, ids)
    requires var m := KeptCount(jobs, ids, retentionDays, keepLast, now);
             NewestCompleted(MarkDeleted(jobs, ids[m..]), again)
    ensures var m := KeptCount(jobs, ids, retentionDays, keepLast, now);
            && again == ids[..m]
            && KeptCount(MarkDeleted(jobs, ids[m..]), again, retentionDays, keepLast, now) == |again|
  {
    var m := KeptCount(jobs, ids, retentionDays, keepLast, now);
    var after := MarkDeleted(jobs, ids[m..]);
    RestIsNewest(jobs, ids, m);
    OrderIsUnique(after, again, ids[..m]);
    var m' := KeptCount(after, again, retentionDays, keepLast, now);
    if m' < |again| {
      KeptIsPrefix(after, again, retentionDays, keepLast, now, m');
      KeptIsPrefix(jobs, ids, retentionDays, keepLast, now, m');
    }
  }

  /** The newest completed backup is never removed. */
  lemma LatestSurvives(jobs: seq<Job>, ids: seq<nat>, retentionDays: int, keepLast: int, now: int)
    requires NewestCompleted(jobs, ids) && ids != []
    ensures var m := KeptCount(jobs, ids, retentionDays, keepLast, now);
            var after := MarkDeleted(jobs, ids[m..]);
            after[ids[0]].status == Completed
            && forall id: nat :: id < |jobs| && jobs[id].status == Completed ==>
                 jobs[id].createdAt <= jobs[ids[0]].createdAt
  {
    var m := KeptCount(jobs, ids, retentionDays, keepLast, now);
    RestIsNewest(jobs, ids, m);
    assert ids[..m][0] == ids[0];
    forall id: nat | id < |jobs| && jobs[id].status == Completed
      ensures jobs[id].createdAt <= jobs[ids[0]].createdAt
    {
      assert id in ids;
      var i :| 0 <= i < |ids| && ids[i] == id;
      assert i > 0 ==> Newer(jobs, ids[0], ids[i]);
    }
  }

  /** Puts a job where it belongs in a newest-first list. */
  function Inserted(jobs: seq<Job>, ids: seq<nat>, id: nat): seq<nat>
    requires id < |jobs| && forall i :: 0 <= i < |ids| ==> ids[i] < |jobs|
  {
    if ids == [] || Newer(jobs, id, ids[0]) then [id] + ids else [ids[0]] + Inserted(jobs, ids[1..], id)
  }

  lemma {:induction false} InsertedInOrder(jobs: seq<Job>, ids: seq<nat>, id: nat)
    requires Ordered(jobs, ids) && id < |jobs| && id !in ids
    ensures Ordered(jobs, Inserted(jobs, ids, id))
    ensures forall other :: other in Inserted(jobs, ids, id) <==> other in ids || other == id
  {
    if ids == [] {
    } else if Newer(jobs, id, ids[0]) {
      forall j | 0 < j <= |ids|
        ensures Newer(jobs, id, ([id] + ids)[j])
      {
        assert j > 1 ==> Newer(jobs, ids[0], ids[j - 1]);
      }
    } else {
      var rest := Inserted(jobs, ids[1..], id);
      InsertedInOrder(jobs, ids[1..], id);
      forall k | 0 <= k < |rest|
        ensures Newer(jobs, ids[0], rest[k])
      {
        if rest[k] != id {
          assert rest[k] in ids[1..];
          var j :| 0 <= j < |ids[1..]| && ids[1..][j] == rest[k];
          assert Newer(jobs, ids[0], ids[j + 1]);
        }
      }
      assert ids == [ids[0]] + ids[1..];
    }
  }

  /** Whatever jobs there are, the query has an answer: the completed ones can be put newest first. */
  lemma {:induction false} OrderExists(jobs: seq<Job>, n: nat) returns (ids: seq<nat>)
    requires n <= |jobs|
    ensures Ordered(jobs, ids)
    ensures forall id: nat :: id in ids <==> id < n && jobs[id].status == Completed
  {
    if n == 0 {
      ids := [];
    } else {
      ids := OrderExists(jobs, n - 1);
      if jobs[n - 1].status == Completed {
        InsertedInOrder(jobs, ids, n - 1);
        ids := Inserted(jobs, ids, n - 1);
      }
    }
  }
}
