/** What holds over every run, whatever calls a Retry overtakes: rows, leases, totals and what the calls under way have
    read, all counting left aside. */
module AnyRun {
  import opened Status
  import opened SetSums
  import opened TaskRows
  import opened Aggregation
  import opened Audience
  import opened Retry
  import opened Protocol
  import opened Invariant
  import opened Preservation
  import opened CountingSteps
  import opened RetryKeepsInvariant
  import opened CallRows
  import opened Stragglers

  function ErasedDb(db: Db): Db {
    db.(main := db.main.(subDone := 0))
  }

  /** Nothing counted, nobody counting. */
  function Erased(s: Sys): Sys {
    Sys(Store(ErasedDb(s.store.db), NO_COUNTERS), s.splits, map[], 0, {}, {}, {}, false, false, false)
  }

  /** A call as its own code leaves it, with a snapshot of the campaign after its split; `total` is the total by now. */
  predicate Formed(call: Call, total: int) {
    match call.pc
    case Begin => true
    case Loaded(main) => call.sub.Some? && 0 < main.subTotal <= total
    case Marked(main) => call.sub.Some? && 0 < main.subTotal <= total && !main.status.IsTerminal()
    case Counted(main) => call.sub.Some? && 0 < main.subTotal <= total
    case Deciding(_, _) => true
    case Swapping(_, final, _) => final.IsTerminal()
    case Rereading(final, _) => final.IsTerminal()
    case SwappingAgain(_, final, _) => final.IsTerminal()
  }

  predicate Numbered(s: Sys) {
    forall c :: c in s.calls ==> c < s.nextCall
  }

  predicate CallsFormed(s: Sys) {
    forall c :: c in s.calls ==> Formed(s.calls[c], s.Main().subTotal)
  }

  ghost predicate RowsSound(cfg: Config, s: Sys) {
    Inv(cfg, Erased(s)) && Rooted(s) && SnapsOk(s) && Numbered(s) && CallsFormed(s)
  }

  lemma EraseKeeps(cfg: Config, s: Sys)
    requires Inv(cfg, s)
    ensures Inv(cfg, Erased(s))
  {
    var s' := Erased(s);
    assert s'.Subs() == s.Subs();
    forall w | w in s'.splits ensures SplitOk(cfg, s'.store.db, w, s'.splits[w]) {
      assert SplitOk(cfg, s.store.db, w, s.splits[w]);
    }
    assert RowsOk(s'.store.db) by {
      forall id | id in s'.Subs() ensures id < s'.store.db.nextId && RowOk(s'.Subs()[id], s'.Main()) {
        assert RowOk(s.Subs()[id], s.Main());
      }
    }
  }

  // ---- steps other than calls do the same with the counters erased ----

  lemma CreateErased(db: Db, owner: string, batch: seq<SubTask>, now: int)
    ensures var r := db.CreateSubTasksWithLease(owner, batch, now);
      ErasedDb(db).CreateSubTasksWithLease(owner, batch, now) == Reply(ErasedDb(r.db), r.ok)
  {
  }

  lemma MetaErased(db: Db, total: int, subTotal: int, now: int)
    ensures ErasedDb(db).PatchMainMeta(total, subTotal, now) == ErasedDb(db.PatchMainMeta(total, subTotal, now))
    ensures ErasedDb(db).ClearSplitLease(now) == ErasedDb(db.ClearSplitLease(now))
    ensures ErasedDb(db).CancelUnfinished() == ErasedDb(db.CancelUnfinished())
  {
  }

  lemma StatusErased(db: Db, version: int, status: TaskStatus, now: int)
    ensures ErasedDb(db).UpdateMainStats(version, 0, 0, 0, status, now).db == ErasedDb(db.UpdateMainStats(version, 0, 0, 0, status, now).db)
  {
  }

  function ErasedWork(w: SplitWork): SplitWork {
    SplitWork(ErasedDb(w.db), w.splits)
  }

  lemma ErasedSame(s: Sys, w: SplitWork)
    ensures Erased(s).WithWork(ErasedWork(w)) == Erased(s.WithWork(w)) && Erased(s).Work() == ErasedWork(s.Work())
    ensures Erased(s).WithDb(ErasedDb(w.db)) == Erased(s.WithDb(w.db))
  {
  }

  lemma BegunErased(w: SplitWork, owner: string, lease: int, now: int)
    ensures SplitBegun(ErasedWork(w), ErasedDb(w.db).MarkRunning(owner, now), owner) == ErasedWork(SplitBegun(w, w.db.MarkRunning(owner, now), owner))
    ensures SplitBegun(ErasedWork(w), ErasedDb(w.db).ClaimStaleSplit(owner, now, lease), owner)
         == ErasedWork(SplitBegun(w, w.db.ClaimStaleSplit(owner, now, lease), owner))
  {
  }

  lemma PageErased(cfg: Config, w: SplitWork, owner: string, users: seq<TargetUser>, now: int)
    ensures PageWritten(cfg, ErasedWork(w), owner, users, now) == ErasedWork(PageWritten(cfg, w, owner, users, now))
  {
    if owner in w.splits && !w.splits[owner].failing {
      var p := w.splits[owner];
      var ids := KeptIds(cfg.filter, users);
      var batch := [Shard(|p.shards|, ids)];
      CreateErased(w.db, owner, batch, now);
      MetaErased(w.db.CreateSubTasksWithLease(owner, batch, now).db, Written(p.shards + [ids]), 0, now);
    }
  }

  lemma FinishDbErased(db: Db, version: int, total: int, shards: int, now: int)
    ensures FinishSplitDb(ErasedDb(db), version, total, shards, now) == ErasedDb(FinishSplitDb(db, version, total, shards, now))
  {
    var running := db.UpdateMainStats(version, 0, 0, 0, Running, now).db;
    StatusErased(db, version, Running, now);
    MetaErased(running, total, shards, now);
    MetaErased(running.PatchMainMeta(total, shards, now), 0, 0, now);
  }

  lemma FinishErased(w: SplitWork, owner: string, now: int)
    ensures SplitFinished(ErasedWork(w), owner, now) == ErasedWork(SplitFinished(w, owner, now))
  {
    if owner in w.splits {
      var p := w.splits[owner];
      MetaErased(w.db, 0, 0, now);
      FinishDbErased(w.db, p.version, Written(p.shards), |p.shards|, now);
    }
  }

  lemma FailDbErased(db: Db, version: int, owner: string, now: int)
    ensures FailSplitDb(ErasedDb(db), version, owner, now) == ErasedDb(FailSplitDb(db, version, owner, now))
  {
    MetaErased(db, 0, 0, now);
    MetaErased(db.CancelUnfinished(), 0, 0, now);
    StatusErased(db, version, Failed, now);
    MetaErased(db.UpdateMainStats(version, 0, 0, 0, Failed, now).db, 0, 0, now);
  }

  lemma FailErased(w: SplitWork, owner: string, now: int)
    ensures SplitFailed(ErasedWork(w), owner, now) == ErasedWork(SplitFailed(w, owner, now))
  {
    if owner in w.splits { FailDbErased(w.db, w.splits[owner].version, owner, now); }
  }

  lemma SplitErased(cfg: Config, w: SplitWork, step: Step)
    requires IsSplitStep(step)
    ensures SplitMoves(cfg, ErasedWork(w), step) == ErasedWork(SplitMoves(cfg, w, step))
  {
    match step
    case StartSplit(owner, now) => BegunErased(w, owner, 0, now);
    case TakeOverSplit(owner, lease, now) => BegunErased(w, owner, lease, now);
    case WritePage(owner, users, now) => PageErased(cfg, w, owner, users, now);
    case FinishSplit(owner, now) => FinishErased(w, owner, now);
    case FailSplit(owner, now) => FailErased(w, owner, now);
    case CrashSplit(owner) =>
  }

  lemma RowsErased(db: Db, step: Step)
    requires IsRowStep(step)
    ensures RowMoves(ErasedDb(db), step) == ErasedDb(RowMoves(db, step))
  {
  }

  lemma ReportErased(s: Sys, id: nat, worker: string, success: int, fail: int, status: TaskStatus)
    ensures Erased(ReportStep(Erased(s), id, worker, success, fail, status)) == Erased(ReportStep(s, id, worker, success, fail, status))
  {
  }

  lemma ReapErased(s: Sys, staleSec: int, now: int)
    ensures Erased(ReapStep(Erased(s), staleSec, now)) == Erased(ReapStep(s, staleSec, now))
  {
  }

  lemma BeginErased(s: Sys, step: Step)
    requires BeginsCall(step)
    ensures Erased(BeginMoves(Erased(s), step)) == Erased(BeginMoves(s, step))
  {
    match step
    case Report(id, worker, success, fail, status) => ReportErased(s, id, worker, success, fail, status);
    case Reap(staleSec, now) => ReapErased(s, staleSec, now);
  }

  lemma PlainErased(cfg: Config, s: Sys, step: Step)
    requires !IsCallStep(step) && !step.RetryCampaign?
    ensures Erased(Next(cfg, Erased(s), step)) == Erased(Next(cfg, s, step))
  {
    if IsRowStep(step) {
      RowsErased(s.store.db, step);
    } else if IsSplitStep(step) {
      SplitErased(cfg, s.Work(), step);
      ErasedSame(s, SplitMoves(cfg, s.Work(), step));
    } else if BeginsCall(step) {
      BeginErased(s, step);
    }
  }

  // ---- a Retry overwrites every counter ----

  function ReopenedDb(db: Db, shards: seq<SubTask>, now: int): Db {
    db.ResetFailed().CreateSubTasks(shards).ReopenMain(|shards|, now).db
  }

  lemma ReopenErased(db: Db, shards: seq<SubTask>, now: int)
    ensures ReopenedDb(ErasedDb(db), shards, now) == ErasedDb(ReopenedDb(db, shards, now))
  {
  }

  lemma RealignErased(st: Store, redis: Counters, outcomes: Option<(int, int)>, now: int)
    ensures Realign(Store(ErasedDb(st.db), redis), outcomes, now) == Realign(st, outcomes, now)
  {
  }

  lemma RetryStoreErased(st: Store, pushFailed: seq<string>, batch: nat, outcomes: Option<(int, int)>, now: int)
    requires batch > 0
    ensures RetryMain(Store(ErasedDb(st.db), NO_COUNTERS), pushFailed, batch, outcomes, now) == RetryMain(st, pushFailed, batch, outcomes, now)
  {
    var shards := NewShards(st.db, pushFailed, batch);
    assert ErasedDb(st.db).ResetFailed().subs == st.db.ResetFailed().subs;
    assert NewShards(ErasedDb(st.db), pushFailed, batch) == shards;
    ReopenErased(st.db, shards, now);
    RealignErased(st.(db := ReopenedDb(st.db, shards, now)), NO_COUNTERS, outcomes, now);
  }

  lemma RetryErased(cfg: Config, s: Sys, pushFailed: seq<string>, outcomes: Option<(int, int)>, now: int)
    ensures Erased(RetryStep(cfg, Erased(s), pushFailed, outcomes, now)) == Erased(RetryStep(cfg, s, pushFailed, outcomes, now))
  {
    if cfg.batchSize > 0 { RetryStoreErased(s.store, pushFailed, cfg.batchSize, outcomes, now); }
  }

  // ---- a call touches the main row alone ----

  /** A final status is set once, from one that is not. */
  predicate MainMoves(db: Db, db': Db) {
    && db'.subs == db.subs && db'.nextId == db.nextId
    && db'.main.owner == db.main.owner && db'.main.subTotal == db.main.subTotal
    && (db'.main.status == db.main.status || (!db.main.status.IsTerminal() && db'.main.status.IsTerminal()))
  }

  lemma StatsMove(db: Db, version: int, subDone: int, status: TaskStatus, now: int)
    requires db.main.status !in {Draft, Pending, Retrying}
    ensures MainMoves(db, db.UpdateMainStats(version, 0, 0, subDone, status, now).db)
  {
  }

  lemma CallMovesMain(st: Store, call: Call, now: int)
    requires st.db.main.status !in {Draft, Pending, Retrying}
    ensures MainMoves(st.db, CallStep(st, call, now).store.db)
  {
    match call.pc
    case Marked(main) => StatsMove(st.db, main.version, 1, main.status, now);
    case Swapping(main, final, _) => StatsMove(st.db, main.version, 0, final, now);
    case SwappingAgain(main, final, _) => StatsMove(st.db, main.version, 0, final, now);
    case _ =>
  }

  lemma CallMain(s: Sys, c: nat, now: int)
    requires c in s.calls && s.Main().status !in {Draft, Pending, Retrying}
    ensures var s' := AggregateStep(s, c, now); s'.splits == s.splits && MainMoves(s.store.db, s'.store.db)
  {
    CallMovesMain(s.store, s.calls[c], now);
    CallSettles(s, c, now);
  }

  lemma ErasedPhase(s: Sys, c: nat)
    requires PhaseOk(Erased(s)) && c in s.calls && Rooted(s)
    ensures s.Main().subTotal > 0 && s.Main().owner == "" && s.Main().status !in {Draft, Pending, Retrying}
  {
  }

  lemma AggregateErased(cfg: Config, s: Sys, c: nat, now: int)
    requires RowsSound(cfg, s) && c in s.calls
    ensures Inv(cfg, Erased(AggregateStep(s, c, now)))
  {
    ErasedPhase(s, c);
    CallMain(s, c, now);
    MainWrite(cfg, Erased(s), Erased(AggregateStep(s, c, now)));
  }

  lemma FaultErased(s: Sys, c: nat, unmark: bool)
    ensures Erased(MissRedisStep(s, c)) == Erased(s) && Erased(LoseCallStep(s, c, unmark)) == Erased(s)
  {
  }

  // ---- rows over every step ----

  lemma PlainErasedKeeps(cfg: Config, s: Sys, step: Step)
    requires Inv(cfg, Erased(s)) && !IsCallStep(step) && !step.RetryCampaign?
    ensures Inv(cfg, Erased(Next(cfg, s, step)))
  {
    PlainErased(cfg, s, step);
    PlainKeeps(cfg, Erased(s), step);
    EraseKeeps(cfg, Next(cfg, Erased(s), step));
    SameInv(cfg, Erased(Next(cfg, s, step)), Erased(Next(cfg, Erased(s), step)));
  }

  lemma RetryErasedKeeps(cfg: Config, s: Sys, pushFailed: seq<string>, outcomes: Option<(int, int)>, now: int)
    requires Inv(cfg, Erased(s))
    ensures Inv(cfg, Erased(RetryStep(cfg, s, pushFailed, outcomes, now)))
  {
    RetryErased(cfg, s, pushFailed, outcomes, now);
    ErasedRetryKeeps(cfg, Erased(s), pushFailed, outcomes, now);
    SameInv(cfg, Erased(RetryStep(cfg, s, pushFailed, outcomes, now)), Erased(RetryStep(cfg, Erased(s), pushFailed, outcomes, now)));
  }

  lemma CallErasedKeeps(cfg: Config, s: Sys, step: Step)
    requires RowsSound(cfg, s) && IsCallStep(step)
    ensures Inv(cfg, Erased(CallMoves(s, step)))
  {
    match step
    case Aggregate(c, now) => if c in s.calls { AggregateErased(cfg, s, c, now); }
    case MissRedis(c) => FaultErased(s, c, false);
    case LoseCall(c, unmark) => FaultErased(s, c, unmark);
  }

  lemma ErasedCallNext(cfg: Config, s: Sys, step: Step)
    requires RowsSound(cfg, s) && IsCallStep(step)
    ensures Inv(cfg, Erased(Next(cfg, s, step)))
  {
    CallErasedKeeps(cfg, s, step);
  }

  lemma ErasedRetryNext(cfg: Config, s: Sys, step: Step)
    requires Inv(cfg, Erased(s)) && step.RetryCampaign?
    ensures Inv(cfg, Erased(Next(cfg, s, step)))
  {
    RetryErasedKeeps(cfg, s, step.pushFailed, step.outcomes, step.now);
  }

  lemma ErasedNext(cfg: Config, s: Sys, step: Step)
    requires RowsSound(cfg, s)
    ensures Inv(cfg, Erased(Next(cfg, s, step)))
  {
    if IsCallStep(step) {
      ErasedCallNext(cfg, s, step);
    } else if step.RetryCampaign? {
      ErasedRetryNext(cfg, s, step);
    } else {
      PlainErasedKeeps(cfg, s, step);
    }
  }

  lemma ErasedRetryKeeps(cfg: Config, t: Sys, pushFailed: seq<string>, outcomes: Option<(int, int)>, now: int)
    requires Inv(cfg, t) && t.calls == map[] && t.earlier == {}
    ensures Inv(cfg, Erased(RetryStep(cfg, t, pushFailed, outcomes, now)))
  {
    var t' := RetryStep(cfg, t, pushFailed, outcomes, now);
    assert Current(t) == t;
    if t' == t {
      EraseKeeps(cfg, t);
    } else {
      var store := RetrySound(cfg, t, pushFailed, outcomes, now);
      EraseKeeps(cfg, Current(Restart(t, store)));
      assert Erased(Current(Restart(t, store))) == Erased(t');
    }
  }

  // ---- the calls under way ----

  lemma NumberedCalls(s: Sys, step: Step)
    requires IsCallStep(step) && Numbered(s)
    ensures Numbered(CallMoves(s, step))
  {
    match step
    case Aggregate(c, now) =>
    case MissRedis(c) =>
    case LoseCall(c, unmark) =>
  }

  lemma NumberedBegin(s: Sys, step: Step)
    requires BeginsCall(step) && Numbered(s)
    ensures Numbered(BeginMoves(s, step))
  {
    match step
    case Report(id, worker, success, fail, status) =>
    case Reap(staleSec, now) =>
  }

  lemma NumberedStays(cfg: Config, s: Sys, step: Step)
    requires Numbered(s)
    ensures Numbered(Next(cfg, s, step))
  {
    if IsCallStep(step) {
      NumberedCalls(s, step);
    } else if BeginsCall(step) {
      NumberedBegin(s, step);
    }
  }

  lemma CallForms(st: Store, call: Call, now: int, total: int)
    requires Formed(call, total) && 0 < st.db.main.subTotal <= total
    ensures var a := CallStep(st, call, now); a.call.Some? ==> Formed(a.call.value, total)
  {
  }

  lemma FormedMoves(s: Sys, step: Step)
    requires IsCallStep(step) && CallsFormed(s) && s.Main().subTotal > 0
    ensures forall c :: c in CallMoves(s, step).calls ==> Formed(CallMoves(s, step).calls[c], s.Main().subTotal)
  {
    match step
    case Aggregate(c, now) =>
      if c in s.calls {
        CallForms(s.store, s.calls[c], now, s.Main().subTotal);
        CallSettles(s, c, now);
      }
    case MissRedis(c) =>
    case LoseCall(c, unmark) =>
  }

  /** New calls have read nothing, the others move as their code has it. */
  lemma FormedNext(cfg: Config, s: Sys, step: Step)
    requires CallsFormed(s) && s.Main().subTotal > 0
    ensures forall c :: c in Next(cfg, s, step).calls ==> Formed(Next(cfg, s, step).calls[c], s.Main().subTotal)
  {
    if IsCallStep(step) {
      FormedMoves(s, step);
    } else {
      CallsMoveAlone(cfg, s, step);
    }
  }

  lemma TotalGrows(cfg: Config, s: Sys, step: Step)
    requires Sealing(s) && Sealing(Next(cfg, s, step)) && s.Main().subTotal > 0
    ensures s.Main().subTotal <= Next(cfg, s, step).Main().subTotal
  {
    NextOfDone(cfg, s, step);
    SubsetCard(s.Subs().Keys, Next(cfg, s, step).Subs().Keys);
  }

  lemma FormedGrows(s: Sys, total: int)
    requires (forall c :: c in s.calls ==> Formed(s.calls[c], total)) && total <= s.Main().subTotal
    ensures CallsFormed(s)
  {
  }

  lemma FormedStays(cfg: Config, s: Sys, step: Step)
    requires CallsFormed(s) && Rooted(s) && Sealing(s) && Sealing(Next(cfg, s, step))
    ensures CallsFormed(Next(cfg, s, step))
  {
    if s.Main().subTotal == 0 {
      NoCallsYet(cfg, s, step);
    } else {
      FormedNext(cfg, s, step);
      TotalGrows(cfg, s, step);
      FormedGrows(Next(cfg, s, step), s.Main().subTotal);
    }
  }

  // ---- every step ----

  lemma SealingOf(cfg: Config, s: Sys)
    requires Inv(cfg, Erased(s))
    ensures Sealing(s)
  {
    InvSealing(cfg, Erased(s));
    assert Erased(s).Subs() == s.Subs();
  }

  lemma RowsKeep(cfg: Config, s: Sys, step: Step)
    requires RowsSound(cfg, s)
    ensures RowsSound(cfg, Next(cfg, s, step))
  {
    ErasedNext(cfg, s, step);
    SealingOf(cfg, s);
    SealingOf(cfg, Next(cfg, s, step));
    RootedStays(cfg, s, step);
    SnapsStay(cfg, s, step);
    NumberedStays(cfg, s, step);
    FormedStays(cfg, s, step);
  }

  /** Every run, with any Retry in it. */
  lemma {:induction false} RowsAlways(cfg: Config, steps: seq<Step>)
    ensures RowsSound(cfg, After(cfg, Init(), steps))
  {
    if steps == [] {
      InitInv(cfg);
      EraseKeeps(cfg, Init());
    } else {
      RowsAlways(cfg, steps[..|steps| - 1]);
      RowsKeep(cfg, After(cfg, Init(), steps[..|steps| - 1]), steps[|steps| - 1]);
    }
  }
}
