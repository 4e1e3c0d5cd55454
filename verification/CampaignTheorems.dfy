/** Counting, liveness, partition and fencing of a campaign over whole runs. */
module CampaignTheorems {
  import opened Status
  import opened SetSums
  import opened TaskRows
  import opened Aggregation
  import opened Audience
  import opened Protocol
  import opened Invariant
  import opened SplitSteps
  import opened RetryKeepsInvariant
  import opened CallRows
  import opened CampaignRuns
  import opened AnyRun

  // ---- a row is finished at most once between retries ----

  /** A result write that took effect. */
  ghost predicate ReportsRow(cfg: Config, s: Sys, step: Step, id: nat) {
    step.Report? && step.id == id && Next(cfg, s, step) != s
  }

  ghost predicate ReportsAt(cfg: Config, steps: seq<Step>, i: nat, id: nat) {
    i < |steps| && ReportsRow(cfg, After(cfg, Init(), steps[..i]), steps[i], id)
  }

  predicate Settled(s: Sys, id: nat) {
    id in s.Subs() && s.Subs()[id].status.IsTerminal()
  }

  lemma SettledMain(s: Sys, id: nat)
    requires RowsOk(Erased(s).store.db) && PhaseOk(Erased(s)) && Settled(s, id)
    ensures Closed(s, id)
  {
    assert RowOk(Erased(s).Subs()[id], Erased(s).Main());
  }

  /** A row that is final while no split can be under way. */
  predicate Closed(s: Sys, id: nat) {
    && Settled(s, id) && id < s.store.db.nextId
    && s.Main().status != Pending && (s.Main().status == Running ==> s.Main().owner == "")
  }

  predicate SameRow(subs: map<nat, SubTask>, subs': map<nat, SubTask>, id: nat) {
    id in subs && id in subs' && subs'[id] == subs[id]
  }

  lemma PageLeavesRow(cfg: Config, w: SplitWork, owner: string, users: seq<TargetUser>, now: int, id: nat)
    requires id in w.db.subs && id < w.db.nextId
    ensures SameRow(w.db.subs, PageWritten(cfg, w, owner, users, now).db.subs, id)
  {
    assert id !in NewIds(w.db.nextId, 1);
  }

  lemma StartLeavesRow(s: Sys, owner: string, lease: int, now: int, id: nat)
    requires Closed(s, id)
    ensures SplitBegun(s.Work(), s.store.db.MarkRunning(owner, now), owner) == s.Work()
    ensures SplitBegun(s.Work(), s.store.db.ClaimStaleSplit(owner, now, lease), owner) == s.Work()
  {
  }

  lemma ExitLeavesRow(w: SplitWork, owner: string, now: int, id: nat)
    requires id in w.db.subs && w.db.subs[id].status.IsTerminal()
    ensures SameRow(w.db.subs, SplitFinished(w, owner, now).db.subs, id)
    ensures SameRow(w.db.subs, SplitFailed(w, owner, now).db.subs, id)
  {
  }

  lemma SplitLeavesRow(cfg: Config, s: Sys, step: Step, id: nat)
    requires Closed(s, id) && IsSplitStep(step)
    ensures SameRow(s.Subs(), SplitMoves(cfg, s.Work(), step).db.subs, id)
  {
    match step
    case StartSplit(owner, now) => StartLeavesRow(s, owner, 0, now, id);
    case TakeOverSplit(owner, lease, now) => StartLeavesRow(s, owner, lease, now, id);
    case WritePage(owner, users, now) => PageLeavesRow(cfg, s.Work(), owner, users, now, id);
    case FinishSplit(owner, now) => ExitLeavesRow(s.Work(), owner, now, id);
    case FailSplit(owner, now) => ExitLeavesRow(s.Work(), owner, now, id);
    case CrashSplit(owner) =>
  }

  lemma RowsLeaveRow(db: Db, step: Step, id: nat)
    requires IsRowStep(step) && id in db.subs && db.subs[id].status.IsTerminal()
    ensures SameRow(db.subs, RowMoves(db, step).subs, id)
  {
  }

  lemma BeginLeavesRow(s: Sys, step: Step, id: nat)
    requires BeginsCall(step) && Settled(s, id)
    ensures SameRow(s.Subs(), BeginMoves(s, step).Subs(), id)
  {
  }

  lemma CallsLeaveRow(s: Sys, step: Step, id: nat)
    requires IsCallStep(step) && Settled(s, id)
    ensures SameRow(s.Subs(), CallMoves(s, step).Subs(), id)
  {
    match step
    case Aggregate(c, now) => CallsLeaveRows(s, c, now);
    case _ =>
  }

  lemma SettledRowStays(cfg: Config, s: Sys, step: Step, id: nat)
    requires Closed(s, id) && !step.RetryCampaign?
    ensures SameRow(s.Subs(), Next(cfg, s, step).Subs(), id)
  {
    if IsRowStep(step) {
      NextRowsLeave(cfg, s, step, id);
    } else if IsSplitStep(step) {
      NextSplitLeaves(cfg, s, step, id);
    } else if IsCallStep(step) || BeginsCall(step) {
      NextCallLeaves(cfg, s, step, id);
    }
  }

  lemma NextRowsLeave(cfg: Config, s: Sys, step: Step, id: nat)
    requires Settled(s, id) && IsRowStep(step)
    ensures SameRow(s.Subs(), Next(cfg, s, step).Subs(), id)
  {
    RowsLeaveRow(s.store.db, step, id);
  }

  lemma NextSplitLeaves(cfg: Config, s: Sys, step: Step, id: nat)
    requires Closed(s, id) && IsSplitStep(step)
    ensures SameRow(s.Subs(), Next(cfg, s, step).Subs(), id)
  {
    SplitLeavesRow(cfg, s, step, id);
  }

  lemma NextCallLeaves(cfg: Config, s: Sys, step: Step, id: nat)
    requires Settled(s, id) && (IsCallStep(step) || BeginsCall(step))
    ensures SameRow(s.Subs(), Next(cfg, s, step).Subs(), id)
  {
    if IsCallStep(step) { CallsLeaveRow(s, step, id); } else { BeginLeavesRow(s, step, id); }
  }

  lemma CallsLeaveRows(s: Sys, c: nat, now: int)
    ensures AggregateStep(s, c, now).Subs() == s.Subs()
  {
    if c in s.calls {
      CallKeepsRows(s.store, s.calls[c], now);
      CallSettles(s, c, now);
    }
  }

  lemma ReportSettles(cfg: Config, s: Sys, step: Step, id: nat)
    requires ReportsRow(cfg, s, step, id)
    ensures !Settled(s, id) && Settled(Next(cfg, s, step), id)
  {
  }

  lemma ClosedAlways(cfg: Config, steps: seq<Step>, id: nat)
    requires Settled(After(cfg, Init(), steps), id)
    ensures Closed(After(cfg, Init(), steps), id)
  {
    RowsAlways(cfg, steps);
    SettledMain(After(cfg, Init(), steps), id);
  }

  lemma {:induction false} SettledSince(cfg: Config, steps: seq<Step>, i: nat, j: nat, id: nat)
    requires i <= j <= |steps|
    requires forall k :: i <= k < j ==> !steps[k].RetryCampaign?
    requires Settled(After(cfg, Init(), steps[..i]), id)
    ensures Settled(After(cfg, Init(), steps[..j]), id)
  {
    if i < j {
      SettledSince(cfg, steps, i, j - 1, id);
      SettledStep(cfg, steps, j - 1, id);
    }
  }

  lemma SettledStep(cfg: Config, steps: seq<Step>, k: nat, id: nat)
    requires k < |steps| && !steps[k].RetryCampaign? && Settled(After(cfg, Init(), steps[..k]), id)
    ensures Settled(After(cfg, Init(), steps[..k + 1]), id)
  {
    ClosedAlways(cfg, steps[..k], id);
    PrefixStep(cfg, steps, k);
    SettledNext(cfg, After(cfg, Init(), steps[..k]), steps[k], id, After(cfg, Init(), steps[..k + 1]));
  }

  lemma SettledNext(cfg: Config, s: Sys, step: Step, id: nat, s': Sys)
    requires Closed(s, id) && !step.RetryCampaign?
    requires s' == Next(cfg, s, step)
    ensures Settled(s', id)
  {
    SettledRowStays(cfg, s, step, id);
  }

  lemma PrefixStep(cfg: Config, steps: seq<Step>, n: nat)
    requires n < |steps|
    ensures After(cfg, Init(), steps[..n + 1]) == Next(cfg, After(cfg, Init(), steps[..n]), steps[n])
  {
    assert steps[..n + 1][..n] == steps[..n];
  }

  /** Whatever claims, takeovers, renewals, releases, cancellations and Retries happen, two result writes of the same
      row take effect only with a Retry between them. */
  lemma FinishedOncePerRetry(cfg: Config, steps: seq<Step>, i: nat, j: nat, id: nat)
    requires i < j < |steps|
    ensures ReportsAt(cfg, steps, i, id) && ReportsAt(cfg, steps, j, id) ==>
              exists k :: i < k < j && steps[k].RetryCampaign?
  {
    if ReportsAt(cfg, steps, i, id) && ReportsAt(cfg, steps, j, id) && forall k :: i < k < j ==> !steps[k].RetryCampaign? {
      ReportSettles(cfg, After(cfg, Init(), steps[..i]), steps[i], id);
      PrefixStep(cfg, steps, i);
      SettledSince(cfg, steps, i + 1, j, id);
      ReportSettles(cfg, After(cfg, Init(), steps[..j]), steps[j], id);
    }
  }

  // ---- counts never run ahead, and catch up ----

  /** If the last Retry overtook no live call, the database count is never ahead of the finished rows, nor the Redis
      count of the database count unless that Retry overtook a call that was about to count in Redis. */
  lemma CountsNeverAhead(cfg: Config, steps: seq<Step>)
    requires LastQuiet(cfg, steps)
    ensures var s := After(cfg, Init(), steps);
      s.Main().subDone <= |FinishedIds(s.Subs())| && (RedisKept(cfg, steps) ==> s.store.redis.done <= s.Main().subDone)
  {
    RunKeeps(cfg, steps);
    HistoryTells(cfg, steps);
    CountBounds(cfg, Current(After(cfg, Init(), steps)));
  }

  /** In every run, Retries of any kind included, the total of a running campaign without split owner is its number of
      rows, and while somebody owns the split it is zero. */
  lemma TotalIsRowCount(cfg: Config, steps: seq<Step>)
    ensures var s := After(cfg, Init(), steps);
      s.Main().status == Running ==> s.Main().subTotal == (if s.Main().owner == "" then |s.Subs()| else 0)
  {
    RowsAlways(cfg, steps);
  }

  /** With no call under way the database count is the number of finished rows, if no call failed before it counted and
      the last Retry overtook no live one and none that could block a count (`LostCounts.CountsSafeIff`). */
  lemma CountsCatchUp(cfg: Config, steps: seq<Step>)
    requires LastQuiet(cfg, steps) && CountsKept(cfg, steps) && AtRest(After(cfg, Init(), steps))
    ensures var s := After(cfg, Init(), steps); s.Main().subDone == |FinishedIds(s.Subs())|
  {
    RunKeeps(cfg, steps);
    HistoryTells(cfg, steps);
    RestCounts(cfg, Current(After(cfg, Init(), steps)));
  }

  lemma RestFinishable(cfg: Config, s: Sys, staleSec: int, now: int)
    requires Inv(cfg, s) && s.clean && AtRest(s) && AllTerminal(s.Subs())
    requires s.Main().status == Running && s.Main().owner == ""
    requires now - s.Main().updatedAt > (if staleSec <= 0 then DEFAULT_STALE_SEC else staleSec)
    ensures s.store.db.Finishable(now, staleSec)
    ensures FinishedIds(s.Subs()) == s.Subs().Keys
  {
    RestCounts(cfg, s);
    forall id | id in s.Subs() ensures id in FinishedIds(s.Subs()) {
      assert RowOk(s.Subs()[id], s.Main());
    }
    assert FinishedIds(s.Subs()) == s.Subs().Keys;
  }

  /** A running campaign with no call under way whose rows are all terminal is, on the same condition, listed by the
      reaper, and the reaper's call then closes it in three calls of its own. */
  lemma NeverStuck(cfg: Config, steps: seq<Step>, staleSec: int, now: int)
    requires LastQuiet(cfg, steps) && CountsKept(cfg, steps)
    requires var s := After(cfg, Init(), steps);
      && AtRest(s) && AllTerminal(s.Subs()) && s.Main().status == Running && s.Main().owner == ""
      && now - s.Main().updatedAt > (if staleSec <= 0 then DEFAULT_STALE_SEC else staleSec)
    ensures var s := After(cfg, Init(), steps);
      && s.store.db.Finishable(now, staleSec)
      && ReapedMain(cfg, s, staleSec, now).status in {Success, Partial, Failed}
  {
    RunKeeps(cfg, steps);
    HistoryTells(cfg, steps);
    var s := After(cfg, Init(), steps);
    RestFinishable(cfg, Current(s), staleSec, now);
    ReaperCloses(cfg, s, staleSec, now);
  }

  ghost function ReapedMain(cfg: Config, s: Sys, staleSec: int, now: int): MainTask {
    var s1 := Next(cfg, s, Reap(staleSec, now));
    var s2 := Next(cfg, s1, Aggregate(s.nextCall, now));
    var s3 := Next(cfg, s2, Aggregate(s.nextCall, now));
    Next(cfg, s3, Aggregate(s.nextCall, now)).Main()
  }

  lemma ReaperCloses(cfg: Config, s: Sys, staleSec: int, now: int)
    requires s.store.db.Finishable(now, staleSec)
    ensures ReapedMain(cfg, s, staleSec, now).status in {Success, Partial, Failed}
  {
    var c := s.nextCall;
    var s1 := ReapStep(s, staleSec, now);
    var s2 := AggregateStep(s1, c, now);
    var s3 := AggregateStep(s2, c, now);
    ReaperReads(s, staleSec, now);
    ReaperSwaps(s, s2, c, now);
    ReaperWins(s, s3, c, now);
    ReapedIs(cfg, s, staleSec, now);
  }

  lemma ReapedIs(cfg: Config, s: Sys, staleSec: int, now: int)
    ensures ReapedMain(cfg, s, staleSec, now)
         == AggregateStep(AggregateStep(AggregateStep(ReapStep(s, staleSec, now), s.nextCall, now), s.nextCall, now), s.nextCall, now).Main()
  {
    var s1 := ReapStep(s, staleSec, now);
    NextIsAggregate(cfg, s1, s.nextCall, now);
    NextIsAggregate(cfg, AggregateStep(s1, s.nextCall, now), s.nextCall, now);
    NextIsAggregate(cfg, AggregateStep(AggregateStep(s1, s.nextCall, now), s.nextCall, now), s.nextCall, now);
    assert Next(cfg, s, Reap(staleSec, now)) == s1;
  }

  lemma NextIsAggregate(cfg: Config, s: Sys, c: nat, now: int)
    ensures Next(cfg, s, Aggregate(c, now)) == AggregateStep(s, c, now)
  {
  }

  lemma ReaperReads(s: Sys, staleSec: int, now: int)
    requires s.store.db.Finishable(now, staleSec)
    ensures var s2 := AggregateStep(ReapStep(s, staleSec, now), s.nextCall, now);
      s2.store == s.store && s.nextCall in s2.calls && s2.calls[s.nextCall] == Call(None, 0, 0, Deciding(s.Main(), s.Main().subDone))
  {
  }

  lemma ReaperSwaps(s: Sys, s2: Sys, c: nat, now: int)
    requires s.Main().subDone >= s.Main().subTotal > 0 && s2.store == s.store
    requires c in s2.calls && s2.calls[c] == Call(None, 0, 0, Deciding(s.Main(), s.Main().subDone))
    ensures var s3 := AggregateStep(s2, c, now);
      && s3.store == s.store && c in s3.calls && s3.calls[c].pc.Swapping? && s3.calls[c].pc.main == s.Main()
      && s3.calls[c].pc.final in {Success, Partial, Failed}
  {
  }

  lemma ReaperWins(s: Sys, s3: Sys, c: nat, now: int)
    requires s.Main().status == Running && s3.store == s.store
    requires c in s3.calls && s3.calls[c].pc.Swapping? && s3.calls[c].pc.main == s.Main()
    requires s3.calls[c].pc.final in {Success, Partial, Failed}
    ensures AggregateStep(s3, c, now).Main().status in {Success, Partial, Failed}
  {
  }

  // ---- the split is a partition of the filtered audience ----

  ghost function TotalOf(subs: map<nat, SubTask>): map<nat, int> {
    map id | id in subs :: subs[id].total
  }

  /** The split of `owner` may finish: the rows become claimable. */
  predicate MayFinish(s: Sys, owner: string) {
    && owner in s.splits && !s.splits[owner].failing
    && s.Main().owner == owner && |s.splits[owner].shards| > 0 && s.Main().status in {Pending, Running}
  }

  predicate Finishes(s: Sys, step: Step) {
    step.FinishSplit? && MayFinish(s, step.owner)
  }

  /** When a split finishes, whatever takeovers came before, its rows are shards 0..n-1 in the order they
      were written, their users in order are exactly the kept users of the pages this split resolved,
      and both totals say so. */
  lemma SplitPartition(cfg: Config, steps: seq<Step>, step: Step)
    requires Finishes(After(cfg, Init(), steps), step)
    ensures var s := After(cfg, Init(), steps);
      Partitioned(cfg, Next(cfg, s, step), s.splits[step.owner])
  {
    RowsAlways(cfg, steps);
    FinishPartition(cfg, After(cfg, Init(), steps), step);
  }

  lemma FinishPartition(cfg: Config, s: Sys, step: Step)
    requires Inv(cfg, Erased(s)) && Finishes(s, step)
    ensures Partitioned(cfg, Next(cfg, s, step), s.splits[step.owner])
  {
    var s' := FinishSplitStep(s, step.owner, step.now);
    FinishPartitions(cfg, Erased(s), step.owner, step.now);
    FinishErased(s.Work(), step.owner, step.now);
    ErasedSame(s, SplitFinished(s.Work(), step.owner, step.now));
    ErasedPartition(cfg, s', s.splits[step.owner]);
    NextPartition(cfg, s, step, s.splits[step.owner]);
  }

  lemma NextPartition(cfg: Config, s: Sys, step: Step, p: Split)
    requires step.FinishSplit? && Partitioned(cfg, FinishSplitStep(s, step.owner, step.now), p)
    ensures Partitioned(cfg, Next(cfg, s, step), p)
  {
  }

  lemma ErasedPartition(cfg: Config, s: Sys, p: Split)
    requires Partitioned(cfg, Erased(s), p)
    ensures Partitioned(cfg, s, p)
  {
    assert Holds(s.store.db, p);
  }

  ghost predicate Partitioned(cfg: Config, s: Sys, p: Split) {
    && s.Main().status == Running && s.Main().owner == ""
    && Holds(s.store.db, p)
    && |s.Subs()| == |p.shards| == s.Main().subTotal
    && Flatten(p.shards) == KeptIds(cfg.filter, p.raw)
    && s.Main().totalCount == |KeptIds(cfg.filter, p.raw)| == Sum(s.Subs().Keys, TotalOf(s.Subs()))
    && (forall id :: id in s.Subs() ==> s.Subs()[id].status == Pending && |s.Subs()[id].users| > 0)
  }

  lemma FinishPartitions(cfg: Config, s: Sys, owner: string, now: int)
    requires Inv(cfg, s) && MayFinish(s, owner)
    ensures Partitioned(cfg, FinishSplitStep(s, owner, now), s.splits[owner])
  {
    var p := s.splits[owner];
    assert SplitOk(cfg, s.store.db, owner, p);
    PendingRows(s);
    var s' := FinishSplitStep(s, owner, now);
    FinishedMain(s, owner, now);
    HeldRows(s.store.db, p);
    assert Holds(s'.store.db, p);
  }

  lemma FinishedMain(s: Sys, owner: string, now: int)
    requires MayFinish(s, owner)
    ensures var s' := FinishSplitStep(s, owner, now);
      var p := s.splits[owner];
      && s'.Subs() == s.Subs() && s'.Main().status == Running && s'.Main().owner == ""
      && s'.Main().subTotal == |p.shards| && s'.Main().totalCount == Written(p.shards)
  {
    var p := s.splits[owner];
    FinishWrites(s.store.db, p.version, Written(p.shards), |p.shards|, now);
  }

  lemma HeldRows(db: Db, p: Split)
    requires Holds(db, p)
    requires forall id :: id in db.subs ==> db.subs[id].total == |db.subs[id].users|
    requires forall i :: 0 <= i < |p.shards| ==> |p.shards[i]| > 0
    ensures |db.subs| == |p.shards|
    ensures Sum(db.subs.Keys, TotalOf(db.subs)) == |Flatten(p.shards)|
    ensures forall id :: id in db.subs ==> |db.subs[id].users| > 0
  {
    HoldsCount(db, p);
    HoldsTotal(db.subs, p.ids, p.shards);
    assert IdSet(p.ids) == db.subs.Keys;
    forall id | id in db.subs ensures |db.subs[id].users| > 0 {
      var i :| 0 <= i < |p.ids| && p.ids[i] == id;
      assert db.subs[p.ids[i]].users == p.shards[i];
    }
  }

  lemma PendingRows(s: Sys)
    requires RowsOk(s.store.db) && PhaseOk(s) && s.Main().subTotal == 0 && s.Main().status != Cancelled
    ensures forall id :: id in s.Subs() ==> s.Subs()[id].status == Pending
    ensures forall id :: id in s.Subs() ==> s.Subs()[id].total == |s.Subs()[id].users|
  {
    forall id | id in s.Subs() ensures s.Subs()[id].status == Pending && s.Subs()[id].total == |s.Subs()[id].users| {
      assert RowOk(s.Subs()[id], s.Main());
    }
  }

  ghost function IdSet(ids: seq<nat>): set<nat> {
    set id | id in ids
  }

  lemma IdSetLast(ids: seq<nat>)
    requires |ids| > 0 && forall i, j :: 0 <= i < j < |ids| ==> ids[i] < ids[j]
    ensures var n := |ids| - 1;
      IdSet(ids) == IdSet(ids[..n]) + {ids[n]} && ids[n] !in IdSet(ids[..n])
  {
    var n := |ids| - 1;
    assert ids == ids[..n] + [ids[n]];
    forall id ensures id in IdSet(ids) <==> id in IdSet(ids[..n]) + {ids[n]} {
      assert id in ids <==> id in ids[..n] || id == ids[n];
    }
  }

  lemma {:induction false} HoldsTotal(subs: map<nat, SubTask>, ids: seq<nat>, shards: seq<seq<string>>)
    requires |ids| == |shards|
    requires forall i, j :: 0 <= i < j < |ids| ==> ids[i] < ids[j]
    requires forall i :: 0 <= i < |ids| ==> ids[i] in subs && subs[ids[i]].total == |shards[i]|
    ensures IdSet(ids) <= subs.Keys && Sum(IdSet(ids), TotalOf(subs)) == |Flatten(shards)|
  {
    if |ids| == 0 {
      assert IdSet(ids) == {};
    } else {
      var n := |ids| - 1;
      HoldsTotal(subs, ids[..n], shards[..n]);
      IdSetLast(ids);
      SumAdd(IdSet(ids[..n]), TotalOf(subs), ids[n]);
      assert |Flatten(shards)| == |Flatten(shards[..n])| + |shards[n]|;
    }
  }
}
