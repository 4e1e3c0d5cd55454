/** Aggregator calls and the rows they report: no call is under way before the split has finished, and from then on no
    row goes away. */
module CallRows {
  import opened Status
  import opened TaskRows
  import opened Aggregation
  import opened Protocol
  import opened Invariant

  /** Every call belongs to a campaign that is split, and reports a row that is there. */
  predicate Rooted(s: Sys) {
    && (s.calls != map[] ==> s.Main().subTotal > 0)
    && (forall c :: c in s.calls && s.calls[c].sub.Some? ==> s.calls[c].sub.value in s.Subs() && s.calls[c].success >= 0)
  }

  /** What a split that has finished, and one that has not, means for the rows; part of the invariant. */
  predicate Sealing(s: Sys) {
    && s.Main().subTotal >= 0
    && (forall w :: w in s.splits ==> w != "")
    && (s.Main().subTotal == 0 ==> forall id :: id in s.Subs() ==> s.Subs()[id].status in {Pending, Cancelled})
    && (s.Main().subTotal > 0 ==>
          s.Main().subTotal == |s.Subs()| && s.Main().owner == "" && s.Main().status !in {Draft, Pending})
  }

  lemma InvSealing(cfg: Config, s: Sys)
    requires Inv(cfg, s)
    ensures Sealing(s)
  {
    forall w | w in s.splits ensures w != "" {
      assert SplitOk(cfg, s.store.db, w, s.splits[w]);
    }
  }

  /** No row is lost, and the split stays done. */
  predicate RowsGrow(s: Sys, s': Sys) {
    s'.Main().subTotal > 0 && s.Subs().Keys <= s'.Subs().Keys
  }

  /** The calls are those of before, but for ones that ended or moved, and new ones of rows that are there. */
  predicate CallsFollow(s: Sys, s': Sys) {
    forall c :: c in s'.calls ==>
      || (c in s.calls && s'.calls[c].sub == s.calls[c].sub && s'.calls[c].success == s.calls[c].success)
      || s'.calls[c].sub.None?
      || (s'.calls[c].sub.value in s.Subs() && s'.calls[c].success >= 0)
  }

  // ---- once the split is done ----

  lemma DoneSplitMoves(cfg: Config, w: SplitWork, step: Step)
    requires IsSplitStep(step) && "" !in w.splits
    requires w.db.main.subTotal > 0 && w.db.main.owner == "" && w.db.main.status !in {Draft, Pending}
    ensures var w' := SplitMoves(cfg, w, step);
      && w'.db.main.subTotal > 0 && w'.db.subs.Keys == w.db.subs.Keys
      && (forall o :: o in w'.splits ==> o in w.splits && w'.splits[o].version == w.splits[o].version)
  {
  }

  lemma SplitOfDone(cfg: Config, s: Sys, step: Step)
    requires Sealing(s) && s.Main().subTotal > 0 && IsSplitStep(step)
    ensures RowsGrow(s, Next(cfg, s, step)) && CallsFollow(s, Next(cfg, s, step))
  {
    DoneSplitMoves(cfg, s.Work(), step);
  }

  lemma StatsKeepRows(db: Db, version: int, subDone: int, status: TaskStatus, now: int)
    ensures var db' := db.UpdateMainStats(version, 0, 0, subDone, status, now).db;
      db'.subs == db.subs && db'.main.subTotal == db.main.subTotal
  {
  }

  lemma CallKeepsRows(st: Store, call: Call, now: int)
    ensures var a := CallStep(st, call, now);
      && a.store.db.subs == st.db.subs && a.store.db.main.subTotal == st.db.main.subTotal
      && (a.call.Some? ==> a.call.value.sub == call.sub && a.call.value.success == call.success)
  {
    match call.pc
    case Marked(main) => StatsKeepRows(st.db, main.version, 1, main.status, now);
    case Swapping(main, final, _) => StatsKeepRows(st.db, main.version, 0, final, now);
    case SwappingAgain(main, final, _) => StatsKeepRows(st.db, main.version, 0, final, now);
    case _ =>
  }

  lemma CallSettles(s: Sys, c: nat, now: int)
    requires c in s.calls
    ensures var a, s' := CallStep(s.store, s.calls[c], now), AggregateStep(s, c, now);
      s'.store == a.store && s'.calls == Settle(s, c, a).calls
  {
  }

  lemma CallOfDone(s: Sys, c: nat, now: int)
    requires s.Main().subTotal > 0
    ensures RowsGrow(s, AggregateStep(s, c, now)) && CallsFollow(s, AggregateStep(s, c, now))
  {
    if c in s.calls {
      CallKeepsRows(s.store, s.calls[c], now);
      CallSettles(s, c, now);
    }
  }

  lemma FaultOfDone(s: Sys, c: nat, unmark: bool)
    requires s.Main().subTotal > 0
    ensures RowsGrow(s, MissRedisStep(s, c)) && CallsFollow(s, MissRedisStep(s, c))
    ensures RowsGrow(s, LoseCallStep(s, c, unmark)) && CallsFollow(s, LoseCallStep(s, c, unmark))
  {
  }

  lemma RetryOfDone(cfg: Config, s: Sys, pushFailed: seq<string>, outcomes: Option<(int, int)>, now: int)
    requires Sealing(s) && s.Main().subTotal > 0
    ensures RowsGrow(s, RetryStep(cfg, s, pushFailed, outcomes, now))
  {
    var s' := RetryStep(cfg, s, pushFailed, outcomes, now);
    if s' != s {
      assert s.Subs().Keys <= s'.Subs().Keys;
      assert |s'.Subs()| == 0 ==> s'.Subs() == map[] && s.Subs() == map[];
    }
  }

  lemma ReportOfDone(s: Sys, id: nat, worker: string, success: int, fail: int, status: TaskStatus)
    requires s.Main().subTotal > 0
    ensures var s' := ReportStep(s, id, worker, success, fail, status); RowsGrow(s, s') && CallsFollow(s, s')
  {
  }

  lemma OperatorOfDone(cfg: Config, s: Sys, step: Step)
    requires s.Main().subTotal > 0
    requires step.Publish? || step.Pause? || step.Resume? || step.Cancel? || step.RenewSplit? || step.SyncUsers?
    ensures RowsGrow(s, Next(cfg, s, step)) && CallsFollow(s, Next(cfg, s, step))
  {
  }

  lemma OtherOfDone(cfg: Config, s: Sys, step: Step)
    requires s.Main().subTotal > 0
    requires step.Claim? || step.Release? || step.RenewClaim? || step.LoseRedis? || step.Reap?
    ensures RowsGrow(s, Next(cfg, s, step)) && CallsFollow(s, Next(cfg, s, step))
  {
  }

  lemma NextOfDone(cfg: Config, s: Sys, step: Step)
    requires Sealing(s) && s.Main().subTotal > 0
    ensures RowsGrow(s, Next(cfg, s, step)) && CallsFollow(s, Next(cfg, s, step))
  {
    if IsSplitStep(step) {
      SplitOfDone(cfg, s, step);
    } else if step.Claim? || step.Release? || step.RenewClaim? || step.LoseRedis? || step.Reap? {
      OtherOfDone(cfg, s, step);
    } else {
      match step
      case Aggregate(c, now) => CallOfDone(s, c, now);
      case MissRedis(c) => FaultOfDone(s, c, false);
      case LoseCall(c, unmark) => FaultOfDone(s, c, unmark);
      case RetryCampaign(pushFailed, outcomes, now) => RetryOfDone(cfg, s, pushFailed, outcomes, now);
      case Report(id, worker, success, fail, status) => ReportOfDone(s, id, worker, success, fail, status);
      case _ => OperatorOfDone(cfg, s, step);
    }
  }

  // ---- before the split is done ----

  lemma NoCallsYet(cfg: Config, s: Sys, step: Step)
    requires Sealing(s) && s.Main().subTotal == 0 && s.calls == map[]
    ensures Next(cfg, s, step).calls == map[]
  {
  }

  lemma RootedStays(cfg: Config, s: Sys, step: Step)
    requires Sealing(s) && Rooted(s)
    ensures Rooted(Next(cfg, s, step))
  {
    if s.Main().subTotal == 0 {
      NoCallsYet(cfg, s, step);
    } else {
      NextOfDone(cfg, s, step);
    }
  }
}
