/** What the worker's sweeps and passes do to the rows they find. */
module LifecycleSweeps {
  import opened Common
  import opened Renewal
  import opened ServiceLifecycle
  import opened LifecycleRuns

  /** What a query with a LIMIT may return: matching rows, none twice, all of them if they fit. */
  ghost predicate IsBatch(services: seq<Service>, q: Query, limit: nat, batch: seq<nat>) {
    && |batch| <= limit
    && (forall k :: 0 <= k < |batch| ==> batch[k] < |services| && Matches(services[batch[k]], q))
    && (forall j, k :: 0 <= j < k < |batch| ==> batch[j] != batch[k])
    && (|batch| < limit ==> forall sid :: 0 <= sid < |services| && Matches(services[sid], q) ==> sid in batch)
  }

  /** The steps of a sweep over a batch. */
  function SweepOps(batch: seq<nat>, q: Query, now: int, answers: nat -> PanelAnswer): seq<Op> {
    if batch == [] then []
    else
      var last := batch[|batch| - 1];
      SweepOps(batch[..|batch| - 1], q, now, answers) + [SweepRow(last, q, now, answers(last))]
  }

  lemma RunGrows(w: World, ops: seq<Op>, op: Op)
    requires w.Valid()
    ensures Run(w, ops + [op]) == Step(Run(w, ops), op)
  {
    assert (ops + [op])[..|ops|] == ops;
  }

  lemma {:induction false} RunAppend(w: World, xs: seq<Op>, ys: seq<Op>)
    requires w.Valid()
    ensures Run(w, xs + ys) == Run(Run(w, xs), ys)
    decreases |ys|
  {
    if ys == [] {
      assert xs + ys == xs;
    } else {
      assert (xs + ys)[..|xs + ys| - 1] == xs + ys[..|ys| - 1];
      RunAppend(w, xs, ys[..|ys| - 1]);
    }
  }

  /** Once swept, a row no longer matches - unless the panel refused to disable it. */
  predicate Clears(q: Query, answer: PanelAnswer) {
    q.ToDisable? ==> answer.Done?
  }

  /** The part of a row that decides whether it is over quota. */
  function Usage(s: Service): (ServiceStatus, int, int) {
    (s.status, s.total, s.used)
  }

  /** A sweep that goes through leaves a row it no longer finds, and only a marking changes how it counts. */
  lemma MarkedIsDone(s: Service, q: Query, now: int)
    ensures !Matches(Marked(s, q, now), q)
    ensures !q.PastExpiry? && !q.QuotaReached? ==> Usage(Marked(s, q, now)) == Usage(s)
  {
  }

  lemma SweepOneRow(w: World, sid: nat, q: Query, now: int, answer: PanelAnswer)
    requires w.Valid() && sid < |w.services| && Matches(w.services[sid], q)
    ensures var after := Step(w, SweepRow(sid, q, now, answer));
            var s := w.services[sid];
            && after.services == (if Clears(q, answer) then w.services[sid := Marked(s, q, now)] else w.services)
            && |after.panel| == |w.panel|
            && (forall i :: 0 <= i < |w.panel| && (i != sid || !q.ToDisable?) ==> after.panel[i] == w.panel[i])
            && (q.ToDisable? && answer.Done? ==> after.panel[sid] == ClientFor(s, false))
            && (!q.ToDisable? && !Warns(q) ==> after.log == w.log)
  {
  }

  /** One row after a sweep that reached it or not, with its client. */
  predicate RowSwept(
    s: Service, c: Client, after: Service, client: Client, reached: bool, q: Query, now: int, answer: PanelAnswer)
  {
    && after == (if reached && Clears(q, answer) then Marked(s, q, now) else s)
    && (!reached || !q.ToDisable? ==> client == c)
    && (reached && q.ToDisable? && answer.Done? ==> client == ClientFor(s, false))
  }

  /** The batch's rows are what the sweep makes of them, as far as the panel accepted; no other row is touched. */
  ghost predicate RowsSwept(w: World, after: World, batch: seq<nat>, q: Query, now: int, answers: nat -> PanelAnswer)
    requires w.Valid()
  {
    && after.Valid() && |after.services| == |w.services|
    && (forall i :: 0 <= i < |w.services| ==>
          RowSwept(w.services[i], w.panel[i], after.services[i], after.panel[i], i in batch, q, now, answers(i)))
    && (!q.ToDisable? && !Warns(q) ==> after.log == w.log)
  }

  lemma OneMoreSwept(w: World, mid: World, batch: seq<nat>, q: Query, now: int, answers: nat -> PanelAnswer)
    requires w.Valid() && batch != []
    requires var sid := batch[|batch| - 1];
             sid !in batch[..|batch| - 1] && sid < |w.services| && Matches(w.services[sid], q)
    requires RowsSwept(w, mid, batch[..|batch| - 1], q, now, answers)
    ensures var sid := batch[|batch| - 1];
            RowsSwept(w, Step(mid, SweepRow(sid, q, now, answers(sid))), batch, q, now, answers)
  {
    var sid := batch[|batch| - 1];
    assert RowSwept(w.services[sid], w.panel[sid], mid.services[sid], mid.panel[sid], false, q, now, answers(sid));
    SweepOneRow(mid, sid, q, now, answers(sid));
    StepValid(mid, SweepRow(sid, q, now, answers(sid)));
    hide Step, Matches, Clears, Marked;
    assert forall i :: i in batch <==> i in batch[..|batch| - 1] || i == sid;
  }

  /** What a sweep does to the rows and clients: it handles those of its batch, and touches no other. */
  lemma {:induction false} SweepRunRows(w: World, batch: seq<nat>, q: Query, now: int, answers: nat -> PanelAnswer)
    requires w.Valid()
    requires forall k :: 0 <= k < |batch| ==> batch[k] < |w.services| && Matches(w.services[batch[k]], q)
    requires forall j, k :: 0 <= j < k < |batch| ==> batch[j] != batch[k]
    ensures RowsSwept(w, Run(w, SweepOps(batch, q, now, answers)), batch, q, now, answers)
    decreases |batch|
  {
    hide Run, Step, SweepOps, Matches, RowsSwept;
    if batch == [] {
      NothingSwept(w, q, now, answers);
    } else {
      var n := |batch| - 1;
      SweepRunRows(w, batch[..n], q, now, answers);
      SweepOpsGrow(batch, q, now, answers);
      var mid := Run(w, SweepOps(batch[..n], q, now, answers));
      RunGrows(w, SweepOps(batch[..n], q, now, answers), SweepRow(batch[n], q, now, answers(batch[n])));
      OneMoreSwept(w, mid, batch, q, now, answers);
    }
  }

  lemma NothingSwept(w: World, q: Query, now: int, answers: nat -> PanelAnswer)
    requires w.Valid()
    ensures RowsSwept(w, Run(w, SweepOps([], q, now, answers)), [], q, now, answers)
  {
    hide Step;
  }

  lemma SweepOpsGrow(batch: seq<nat>, q: Query, now: int, answers: nat -> PanelAnswer)
    requires batch != []
    ensures var n := |batch| - 1;
            SweepOps(batch, q, now, answers) ==
            SweepOps(batch[..n], q, now, answers) + [SweepRow(batch[n], q, now, answers(batch[n]))]
  {
  }

  /** A batch that holds every matching row leaves each row as the marking makes it, and none matching. */
  lemma WholeBatchMarks(w: World, batch: seq<nat>, limit: nat, q: Query, now: int, answers: nat -> PanelAnswer)
    requires w.Valid() && (q.PastExpiry? || q.QuotaReached?)
    requires IsBatch(w.services, q, limit, batch) && |w.services| < limit
    ensures var after := Run(w, SweepOps(batch, q, now, answers));
            && after.panel == w.panel && after.log == w.log
            && (forall i :: 0 <= i < |w.services| ==>
                  after.services[i] == Marked(w.services[i], q, now) && !Matches(after.services[i], q))
    ensures |batch| == |Matching(w.services, q)|
  {
    hide Run, SweepOps, Step;
    SweepRunRows(w, batch, q, now, answers);
    DistinctBelow(batch, |w.services|);
    BatchSize(batch, Matching(w.services, q));
    var after := Run(w, SweepOps(batch, q, now, answers));
    forall i | 0 <= i < |w.services|
      ensures after.services[i] == Marked(w.services[i], q, now) && !Matches(after.services[i], q)
      ensures after.panel[i] == w.panel[i]
    {
      assert RowSwept(w.services[i], w.panel[i], after.services[i], after.panel[i], i in batch, q, now, answers(i));
      MarkedIsDone(w.services[i], q, now);
    }
  }

  /** The rows a query is after. */
  function Matching(services: seq<Service>, q: Query): set<nat> {
    set sid | 0 <= sid < |services| && Matches(services[sid], q)
  }

  lemma {:induction false} BatchSize(batch: seq<nat>, ids: set<nat>)
    requires forall j, k :: 0 <= j < k < |batch| ==> batch[j] != batch[k]
    requires forall id :: id in batch <==> id in ids
    ensures |batch| == |ids|
    decreases |batch|
  {
    if batch == [] {
      assert ids == {};
    } else {
      var n := |batch| - 1;
      assert batch[n] in ids && batch[n] !in batch[..n];
      forall id
        ensures id in batch[..n] <==> id in ids - {batch[n]}
      {
        assert id in batch <==> id in batch[..n] || id == batch[n];
      }
      BatchSize(batch[..n], ids - {batch[n]});
    }
  }

  // ---------------------------------------------------------------------------
  // What the expiry marking leaves out
  // ---------------------------------------------------------------------------

  /** A service that has run out but still counts as active or over quota. */
  predicate Overdue(s: Service, now: int) {
    (s.status == Active || s.status == OverQuota) && IsExpired(s.expireAt, now)
  }

  /**
   The marking is described as flipping active and over-quota services past their expiry. It
   leaves nobody overdue if and only if no service that is over quota had expired before.
   */
  lemma ExpiryMarkingCompleteIff(services: seq<Service>, now: int)
    ensures (forall i :: 0 <= i < |services| ==> !Overdue(Marked(services[i], PastExpiry(now), now), now)) <==>
            (forall i :: 0 <= i < |services| ==>
               !(services[i].status == OverQuota && IsExpired(services[i].expireAt, now)))
  {
    forall i | 0 <= i < |services|
      ensures Overdue(Marked(services[i], PastExpiry(now), now), now) <==>
              services[i].status == OverQuota && IsExpired(services[i].expireAt, now)
    {
    }
  }

  /** An expired service that is over quota is passed over, at any later time. */
  lemma ExpiredOverQuotaIsPassedOver(now: int)
    ensures var s := Service(0, OverQuota, Some(now - 1), 1, 1, None, Some(now - 1), None, None, None);
            Overdue(s, now) && Marked(s, PastExpiry(now), now) == s
  {
  }

  /** A service that is taken for running although its time is up. */
  predicate Overrun(s: Service, now: int) {
    s.status == Active && s.expireAt.Some? && s.expireAt.value < now
  }

  lemma SyncKeeps(s: Service, used: int, now: int)
    ensures Synced(s, used, now).used == used
    ensures !Overrun(s, now) ==> !Overrun(Synced(s, used, now), now)
  {
  }

  // ---------------------------------------------------------------------------
  // What workers do
  // ---------------------------------------------------------------------------

  /** The only steps a worker takes by itself. */
  predicate WorkerOp(op: Op) {
    op.SweepRow? || op.CrashWarning? || op.Sync?
  }

  predicate AllWorkerOps(ops: seq<Op>) {
    forall k :: 0 <= k < |ops| ==> WorkerOp(ops[k])
  }

  lemma RunsOn(w: World, xs: seq<Op>, ys: seq<Op>)
    requires w.Valid() && AllWorkerOps(xs) && AllWorkerOps(ys)
    ensures Run(w, xs + ys) == Run(Run(w, xs), ys) && AllWorkerOps(xs + ys)
  {
    hide Run;
    RunAppend(w, xs, ys);
  }

  lemma NoOps(w: World)
    requires w.Valid()
    ensures Run(w, []) == w && AllWorkerOps([])
  {
  }

  lemma {:induction false} SweepOpsAre(batch: seq<nat>, q: Query, now: int, answers: nat -> PanelAnswer)
    ensures var ops := SweepOps(batch, q, now, answers);
            && |ops| == |batch|
            && forall k :: 0 <= k < |ops| ==> ops[k] == SweepRow(batch[k], q, now, answers(batch[k]))
  {
    if batch == [] {
    } else {
      SweepOpsAre(batch[..|batch| - 1], q, now, answers);
    }
  }

  lemma WorkerStepKeepsTerms(w: World, op: Op, sid: nat)
    requires w.Valid() && WorkerOp(op) && sid < |w.services|
    ensures SameTerms(w.services[sid], Step(w, op).services[sid])
  {
  }

  /** Whatever workers do, expiry and quota stay as they were sold. */
  lemma {:induction false} WorkersKeepTerms(w: World, ops: seq<Op>, sid: nat)
    requires w.Valid() && AllWorkerOps(ops) && sid < |w.services|
    ensures SameTerms(w.services[sid], Run(w, ops).services[sid])
    decreases |ops|
  {
    if ops == [] {
    } else {
      WorkersKeepTerms(w, ops[..|ops| - 1], sid);
      WorkerStepKeepsTerms(Run(w, ops[..|ops| - 1]), ops[|ops| - 1], sid);
    }
  }

  lemma SweepRunNext(w: World, batch: seq<nat>, k: nat, q: Query, now: int, answers: nat -> PanelAnswer)
    requires w.Valid() && k < |batch|
    requires forall j :: 0 <= j < |batch| ==> batch[j] < |w.services| && Matches(w.services[batch[j]], q)
    requires forall i, j :: 0 <= i < j < |batch| ==> batch[i] != batch[j]
    ensures Run(w, SweepOps(batch[..k + 1], q, now, answers)) ==
            Sweep(Run(w, SweepOps(batch[..k], q, now, answers)), batch[k], q, now, answers(batch[k]))
  {
    assert batch[..k + 1][..k] == batch[..k];
    UntouchedStillMatches(w, batch, k, q, now, answers);
    var mid := Run(w, SweepOps(batch[..k], q, now, answers));
    RunGrows(w, SweepOps(batch[..k], q, now, answers), SweepRow(batch[k], q, now, answers(batch[k])));
    StepIsSweep(mid, batch[k], q, now, answers(batch[k]));
  }

  lemma UntouchedStillMatches(w: World, batch: seq<nat>, k: nat, q: Query, now: int, answers: nat -> PanelAnswer)
    requires w.Valid() && k < |batch|
    requires forall j :: 0 <= j < |batch| ==> batch[j] < |w.services| && Matches(w.services[batch[j]], q)
    requires forall i, j :: 0 <= i < j < |batch| ==> batch[i] != batch[j]
    ensures Matches(Run(w, SweepOps(batch[..k], q, now, answers)).services[batch[k]], q)
  {
    SweepRunRows(w, batch[..k], q, now, answers);
    assert batch[k] !in batch[..k];
  }

  lemma StepIsSweep(w: World, sid: nat, q: Query, now: int, answer: PanelAnswer)
    requires w.Valid() && sid < |w.services| && Matches(w.services[sid], q)
    ensures Step(w, SweepRow(sid, q, now, answer)) == Sweep(w, sid, q, now, answer)
  {
  }

  datatype TickStep =
    | MarkExpired | MarkQuota | Refresh | MarkQuotaAgain | DisableExpired | DisableQuota | WarnExpiry | WarnTraffic

  /** How many rows a failing step got through; `kept` is whether the stamps of warnings it sent survive. */
  datatype Stop = Stop(rows: nat, kept: bool)

  /** Which steps of a pass fail, and where. */
  type Failures = map<TickStep, Stop>

  function StopOf(fails: Failures, step: TickStep): Option<Stop> {
    if step in fails then Some(fails[step]) else None
  }

  /** How many of `n` rows a step gets through. */
  function Reached(n: nat, stop: Option<Stop>): (k: nat)
    ensures k <= n
  {
    if stop.Some? && stop.value.rows < n then stop.value.rows else n
  }

  datatype Settings = Settings(
    disableExpired: bool, disableOverQuota: bool, warningDays: int, warningPercent: int)

  lemma {:induction false} DistinctBelow(xs: seq<nat>, n: nat)
    requires forall k :: 0 <= k < |xs| ==> xs[k] < n
    requires forall j, k :: 0 <= j < k < |xs| ==> xs[j] != xs[k]
    ensures |xs| <= n
    decreases n
  {
    assert xs != [] ==> xs[0] < n;
    if n == 0 {
    } else {
      if n - 1 in xs {
        var i :| 0 <= i < |xs| && xs[i] == n - 1;
        DistinctBelow(xs[..i] + xs[i + 1..], n - 1);
      } else {
        DistinctBelow(xs, n - 1);
      }
    }
  }

  // ---------------------------------------------------------------------------
  // A whole sweep
  // ---------------------------------------------------------------------------

  /** A sweep that does not fail, over no more rows than its limit, reaches every row it is after. */
  predicate Complete(services: seq<Service>, q: Query, limit: nat, stop: Option<Stop>) {
    stop.None? && |Matching(services, q)| <= limit
  }

  lemma BatchIsComplete(services: seq<Service>, q: Query, limit: nat, batch: seq<nat>)
    requires IsBatch(services, q, limit, batch) && |Matching(services, q)| <= limit
    ensures forall sid :: sid in Matching(services, q) ==> sid in batch
  {
    if |batch| == limit {
      var ids := set id | id in batch;
      hide Matches;
      BatchSize(batch, ids);
      assert ids <= Matching(services, q);
      SameSize(ids, Matching(services, q));
    }
  }

  lemma SameSize(xs: set<nat>, ys: set<nat>)
    requires xs <= ys && |ys| <= |xs|
    ensures xs == ys
  {
    assert |ys - xs| == |ys| - |xs|;
  }

  /** One row and its client after a sweep that was `on` or not, and `complete` or not. */
  predicate HandledRow(
    s: Service, c: Client, after: Service, client: Client,
    q: Query, now: int, on: bool, complete: bool, answer: PanelAnswer)
  {
    && (after == s || (on && after == Marked(s, q, now)))
    && (client == c || (on && q.ToDisable? && Matches(s, q)))
    && (on && complete && Matches(s, q) && Clears(q, answer) ==>
          after == Marked(s, q, now) && (q.ToDisable? ==> client == ClientFor(s, false)))
  }

  /** Rows and clients after a sweep. */
  ghost predicate Handled(
    before: seq<Service>, clients: seq<Client>, after: seq<Service>, clients': seq<Client>,
    q: Query, now: int, on: bool, complete: bool, answers: nat -> PanelAnswer)
  {
    && |before| == |clients| == |after| == |clients'|
    && forall i :: 0 <= i < |before| ==>
         HandledRow(before[i], clients[i], after[i], clients'[i], q, now, on, complete, answers(i))
  }

  lemma SweptIsHandled(
    w: World, after: World, batch: seq<nat>, done: nat, q: Query, limit: nat, now: int,
    answers: nat -> PanelAnswer, stop: Option<Stop>)
    requires w.Valid() && IsBatch(w.services, q, limit, batch) && done == Reached(|batch|, stop)
    requires RowsSwept(w, after, batch[..done], q, now, answers)
    ensures Handled(w.services, w.panel, after.services, after.panel, q, now, true,
                    Complete(w.services, q, limit, stop), answers)
  {
    var complete := Complete(w.services, q, limit, stop);
    if complete {
      BatchIsComplete(w.services, q, limit, batch);
      assert batch[..done] == batch;
    }
    hide Marked, Matches;
    forall i | 0 <= i < |w.services|
      ensures HandledRow(w.services[i], w.panel[i], after.services[i], after.panel[i],
                         q, now, true, complete, answers(i))
    {
      assert RowSwept(w.services[i], w.panel[i], after.services[i], after.panel[i],
                      i in batch[..done], q, now, answers(i));
      assert complete && Matches(w.services[i], q) ==> i in Matching(w.services, q);
    }
  }

  lemma UntouchedIsHandled(
    services: seq<Service>, panel: seq<Client>, q: Query, now: int, on: bool, answers: nat -> PanelAnswer)
    requires |services| == |panel|
    ensures Handled(services, panel, services, panel, q, now, on, false, answers)
  {
  }

  // ---------------------------------------------------------------------------
  // The caring half of a pass: two disabling sweeps, then two warning sweeps
  // ---------------------------------------------------------------------------

  /** A running service within the warning window, its owner not warned yet. */
  predicate RunsOutSoon(s: Service, now: int, days: int) {
    && days > 0 && s.status == Active && s.expiryWarnedAt.None?
    && s.expireAt.Some? && now < s.expireAt.value <= now + days * 24 * 3600 * 1_000_000
  }

  /** A running service that has used the warning share of its quota, its owner not warned yet. */
  predicate RunsFull(s: Service, percent: int) {
    && 0 < percent < 100 && s.status == Active && s.trafficWarnedAt.None?
    && 0 < s.total && s.used < s.total && s.total * percent <= 100 * s.used
  }

  /** A service whose client a pass may switch off: one that has run out, if the settings say so. */
  predicate ToSwitchOff(s: Service, settings: Settings) {
    && s.disabledAt.None?
    && ((s.status == Expired && settings.disableExpired) || (s.status == OverQuota && settings.disableOverQuota))
  }

  /** Which of the four sweeps reached all the rows they are after. */
  datatype Reach = Reach(expired: bool, full: bool, soon: bool, high: bool)

  /** After the disabling sweeps: clients of services that have run out are switched off and stamped, nothing else. */
  predicate SwitchedOff(
    s: Service, c: Client, after: Service, client: Client,
    now: int, settings: Settings, reach: Reach, answer: PanelAnswer)
  {
    && after == s.(disabledAt := after.disabledAt)
    && (after.disabledAt == s.disabledAt || (ToSwitchOff(s, settings) && after.disabledAt == Some(now)))
    && (client == c || ToSwitchOff(s, settings))
    && (ToSwitchOff(s, settings) && (if s.status == Expired then reach.expired else reach.full) && answer.Done? ==>
          after.disabledAt == Some(now) && !client.enabled)
  }

  /** After the warning sweeps: services about to run out are stamped as warned of, nothing else. */
  predicate OwnersWarned(s: Service, after: Service, now: int, settings: Settings, reach: Reach) {
    && after == s.(expiryWarnedAt := after.expiryWarnedAt, trafficWarnedAt := after.trafficWarnedAt)
    && (after.expiryWarnedAt == s.expiryWarnedAt
        || (RunsOutSoon(s, now, settings.warningDays) && after.expiryWarnedAt == Some(now)))
    && (RunsOutSoon(s, now, settings.warningDays) && reach.soon ==> after.expiryWarnedAt == Some(now))
    && (after.trafficWarnedAt == s.trafficWarnedAt
        || (RunsFull(s, settings.warningPercent) && after.trafficWarnedAt == Some(now)))
    && (RunsFull(s, settings.warningPercent) && reach.high ==> after.trafficWarnedAt == Some(now))
  }

  /** What the caring half leaves of a row and its client. */
  predicate CaredFor(
    s: Service, c: Client, after: Service, client: Client,
    now: int, settings: Settings, reach: Reach, answer: PanelAnswer)
  {
    && SwitchedOff(s, c, s.(disabledAt := after.disabledAt), client, now, settings, reach, answer)
    && OwnersWarned(s.(disabledAt := after.disabledAt), after, now, settings, reach)
  }

  function SoonQuery(now: int, settings: Settings): Query {
    ExpiringSoon(now, now + Days(settings.warningDays))
  }

  lemma TwoDisables(
    s: Service, c: Client, mid: Service, client: Client, after: Service, client': Client,
    now: int, settings: Settings, reach: Reach, answer: PanelAnswer)
    requires HandledRow(s, c, mid, client, ToDisable(Expired), now, settings.disableExpired, reach.expired, answer)
    requires HandledRow(mid, client, after, client', ToDisable(OverQuota), now,
                        settings.disableOverQuota, reach.full, answer)
    ensures SwitchedOff(s, c, after, client', now, settings, reach, answer)
  {
  }

  lemma TwoWarnings(
    s: Service, c: Client, mid: Service, client: Client, after: Service, client': Client,
    now: int, settings: Settings, reach: Reach, answer: PanelAnswer)
    requires HandledRow(s, c, mid, client, SoonQuery(now, settings), now, settings.warningDays > 0, reach.soon, answer)
    requires HandledRow(mid, client, after, client', TrafficHigh(settings.warningPercent), now,
                        0 < settings.warningPercent < 100, reach.high, answer)
    ensures OwnersWarned(s, after, now, settings, reach) && client' == c
  {
  }

  lemma BothHalves(
    s: Service, c: Client, mid: Service, after: Service, client: Client,
    now: int, settings: Settings, reach: Reach, answer: PanelAnswer)
    requires SwitchedOff(s, c, mid, client, now, settings, reach, answer)
    requires OwnersWarned(mid, after, now, settings, reach)
    ensures CaredFor(s, c, after, client, now, settings, reach, answer)
  {
    hide ToSwitchOff, RunsOutSoon, RunsFull;
    assert mid == s.(disabledAt := after.disabledAt);
  }

  /** Sweeps of different kinds do not get in each other's way. */
  predicate Apart(q: Query, r: Query) {
    match (q, r)
    case (ToDisable(a), ToDisable(b)) => a != b
    case (ToDisable(_), _) => Warns(r)
    case (ExpiringSoon(_, _), TrafficHigh(_)) => true
    case _ => false
  }

  lemma ApartStays(
    before: seq<Service>, clients: seq<Client>, after: seq<Service>, clients': seq<Client>,
    q: Query, r: Query, now: int, on: bool, complete: bool, answers: nat -> PanelAnswer)
    requires Handled(before, clients, after, clients', q, now, on, complete, answers) && Apart(q, r)
    ensures Matching(after, r) == Matching(before, r)
  {
    forall i | 0 <= i < |before|
      ensures Matches(after[i], r) <==> Matches(before[i], r)
    {
      assert HandledRow(before[i], clients[i], after[i], clients'[i], q, now, on, complete, answers(i));
    }
  }

  /** How far the four sweeps get, by what they find at the start. */
  function ReachOf(services: seq<Service>, now: int, settings: Settings, fails: Failures): Reach {
    Reach(Complete(services, ToDisable(Expired), 50, StopOf(fails, DisableExpired)),
          Complete(services, ToDisable(OverQuota), 50, StopOf(fails, DisableQuota)),
          Complete(services, SoonQuery(now, settings), 100, StopOf(fails, WarnExpiry)),
          Complete(services, TrafficHigh(settings.warningPercent), 100, StopOf(fails, WarnTraffic)))
  }

  ghost predicate AllCaredFor(
    w: World, after: World, now: int, settings: Settings, reach: Reach, answers: nat -> PanelAnswer)
  {
    && |w.services| == |w.panel| == |after.services| == |after.panel|
    && forall i :: 0 <= i < |w.services| ==>
         CaredFor(w.services[i], w.panel[i], after.services[i], after.panel[i], now, settings, reach, answers(i))
  }

  /** A step of the marking half of a pass. */
  predicate MarkStep(op: Op, now: int) {
    match op
    case SweepRow(_, q, at, _) => at == now && (q == PastExpiry(now) || q == QuotaReached)
    case Sync(_, _, at) => at == now
    case _ => false
  }

  /** A step of the caring half: only after services the settings allow it for. */
  predicate CareStep(op: Op, now: int, settings: Settings) {
    match op
    case SweepRow(_, q, at, _) => at == now && CareQuery(q, now, settings)
    case CrashWarning(_, q) => Warns(q) && CareQuery(q, now, settings)
    case _ => false
  }

  predicate CareQuery(q: Query, now: int, settings: Settings) {
    match q
    case ToDisable(status) =>
      (status == Expired && settings.disableExpired) || (status == OverQuota && settings.disableOverQuota)
    case ExpiringSoon(from, horizon) =>
      settings.warningDays > 0 && from == now && horizon == now + settings.warningDays * 24 * 3600 * 1_000_000
    case TrafficHigh(percent) => percent == settings.warningPercent && 0 < percent < 100
    case _ => false
  }

  lemma CareStepsAreWork(ops: seq<Op>, now: int, settings: Settings)
    requires forall k :: 0 <= k < |ops| ==> CareStep(ops[k], now, settings)
    ensures AllWorkerOps(ops)
  {
  }

  lemma FourParts(w: World, a: seq<Op>, b: seq<Op>, c: seq<Op>, d: seq<Op>)
    requires w.Valid()
    ensures Run(w, a + b + c + d) == Run(Run(Run(Run(w, a), b), c), d)
  {
    hide Run;
    RunAppend(w, a + b + c, d);
    RunAppend(w, a + b, c);
    RunAppend(w, a, b);
  }

  /** One sweep of the caring half, with how far it got. */
  ghost predicate Swept(
    w: World, after: World, q: Query, limit: nat, now: int, on: bool, answers: nat -> PanelAnswer, stop: Option<Stop>)
  {
    Handled(w.services, w.panel, after.services, after.panel, q, now, on, Complete(w.services, q, limit, stop), answers)
  }

  lemma SweptRow(
    w: World, after: World, q: Query, limit: nat, now: int, on: bool, answers: nat -> PanelAnswer, stop: Option<Stop>,
    i: nat)
    requires Swept(w, after, q, limit, now, on, answers, stop) && i < |w.services|
    ensures |w.panel| == |after.services| == |after.panel| == |w.services|
    ensures HandledRow(w.services[i], w.panel[i], after.services[i], after.panel[i], q, now, on,
                       Complete(w.services, q, limit, stop), answers(i))
  {
  }

  lemma SweptSize(
    w: World, after: World, q: Query, limit: nat, now: int, on: bool, answers: nat -> PanelAnswer, stop: Option<Stop>)
    requires Swept(w, after, q, limit, now, on, answers, stop)
    ensures |w.services| == |w.panel| == |after.services| == |after.panel|
  {
  }

  /** A sweep leaves what another is after, and so how far that gets. */
  lemma OthersReach(
    w: World, after: World, q: Query, limit: nat, now: int, on: bool, answers: nat -> PanelAnswer, stop: Option<Stop>,
    r: Query, other: nat, halt: Option<Stop>)
    requires Swept(w, after, q, limit, now, on, answers, stop) && Apart(q, r)
    ensures Complete(after.services, r, other, halt) == Complete(w.services, r, other, halt)
  {
    ApartStays(w.services, w.panel, after.services, after.panel, q, r, now, on,
               Complete(w.services, q, limit, stop), answers);
  }

  /** The four sweeps one after the other. */
  lemma FourHandled(
    w0: World, w1: World, w2: World, w3: World, w4: World,
    now: int, settings: Settings, fails: Failures, answers: nat -> PanelAnswer)
    requires Swept(w0, w1, ToDisable(Expired), 50, now, settings.disableExpired, answers, StopOf(fails, DisableExpired))
    requires Swept(w1, w2, ToDisable(OverQuota), 50, now, settings.disableOverQuota, answers,
                   StopOf(fails, DisableQuota))
    requires Swept(w2, w3, SoonQuery(now, settings), 100, now, settings.warningDays > 0, answers,
                   StopOf(fails, WarnExpiry))
    requires Swept(w3, w4, TrafficHigh(settings.warningPercent), 100, now, 0 < settings.warningPercent < 100, answers,
                   StopOf(fails, WarnTraffic))
    ensures AllCaredFor(w0, w4, now, settings, ReachOf(w0.services, now, settings, fails), answers)
  {
    hide Swept, Complete, HandledRow, SwitchedOff, OwnersWarned, CaredFor, StopOf;
    var late, full := ToDisable(Expired), ToDisable(OverQuota);
    var soon, high := SoonQuery(now, settings), TrafficHigh(settings.warningPercent);
    var reach := ReachOf(w0.services, now, settings, fails);
    var a, b := StopOf(fails, DisableExpired), StopOf(fails, DisableQuota);
    var c, d := StopOf(fails, WarnExpiry), StopOf(fails, WarnTraffic);
    var on1, on2, on3 := settings.disableExpired, settings.disableOverQuota, settings.warningDays > 0;
    var on4 := 0 < settings.warningPercent < 100;
    OthersReach(w0, w1, late, 50, now, on1, answers, a, full, 50, b);
    OthersReach(w0, w1, late, 50, now, on1, answers, a, soon, 100, c);
    OthersReach(w0, w1, late, 50, now, on1, answers, a, high, 100, d);
    OthersReach(w1, w2, full, 50, now, on2, answers, b, soon, 100, c);
    OthersReach(w1, w2, full, 50, now, on2, answers, b, high, 100, d);
    OthersReach(w2, w3, soon, 100, now, on3, answers, c, high, 100, d);
    SweptSize(w0, w1, late, 50, now, on1, answers, a);
    SweptSize(w1, w2, full, 50, now, on2, answers, b);
    SweptSize(w2, w3, soon, 100, now, on3, answers, c);
    SweptSize(w3, w4, high, 100, now, on4, answers, d);
    forall i | 0 <= i < |w0.services|
      ensures CaredFor(w0.services[i], w0.panel[i], w4.services[i], w4.panel[i], now, settings, reach, answers(i))
    {
      SweptRow(w0, w1, late, 50, now, on1, answers, a, i);
      SweptRow(w1, w2, full, 50, now, on2, answers, b, i);
      SweptRow(w2, w3, soon, 100, now, on3, answers, c, i);
      SweptRow(w3, w4, high, 100, now, on4, answers, d, i);
      TwoDisables(w0.services[i], w0.panel[i], w1.services[i], w1.panel[i], w2.services[i], w2.panel[i],
                  now, settings, reach, answers(i));
      TwoWarnings(w2.services[i], w2.panel[i], w3.services[i], w3.panel[i], w4.services[i], w4.panel[i],
                  now, settings, reach, answers(i));
      BothHalves(w0.services[i], w0.panel[i], w2.services[i], w4.services[i], w4.panel[i],
                 now, settings, reach, answers(i));
    }
  }
}
