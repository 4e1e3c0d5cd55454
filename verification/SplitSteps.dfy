/** The splitting steps keep the invariant. */
module SplitSteps {
  import opened Status
  import opened TaskRows
  import opened Audience
  import opened Protocol
  import opened Invariant
  import opened Preservation

  /** Nothing has been counted in Redis, nor marked if no mark was lost or left over. */
  predicate Uncounted(s: Sys) {
    && s.store.redis.success == s.store.redis.fail == s.store.redis.done == 0
    && (s.clean ==> s.store.redis.finished == {})
    && !s.mixed && !s.spoiled
  }

  /** Before the split has finished nothing is counted, so rows may come and go freely. */
  lemma NothingCounted(s: Sys)
    requires PhaseOk(s) && CountsOk(s) && SumsOk(s) && s.Main().subTotal == 0
    requires MixedOk(s)
    ensures FinishedIds(s.Subs()) == {}
    ensures s.rdCounted == {} && s.Main().subDone == 0 && Uncounted(s)
  {
  }

  lemma UncountedCounting(s: Sys)
    requires PhaseOk(s) && s.Main().subTotal == 0
    requires s.rdCounted == {} && s.Main().subDone == 0 && Uncounted(s)
    ensures CountsOk(s) && SumsOk(s) && CallsOk(s) && Exact(s)
  {
    assert FinishedIds(s.Subs()) == {};
  }

  lemma BeginKeeps(cfg: Config, s: Sys, lease: Reply, owner: string)
    requires Inv(cfg, s)
    requires lease.ok ==>
      && lease.db.main.status == Running && lease.db.main.owner == owner
      && s.Main().subTotal == 0 && lease.db.main.subTotal == 0 && lease.db.main.subDone == s.Main().subDone
    ensures Inv(cfg, BeginSplit(s, lease, owner))
  {
    var s' := BeginSplit(s, lease, owner);
    if owner != "" && owner !in s.splits && lease.ok {
      NothingCounted(s);
      UncountedCounting(s');
      forall w | w in s'.splits ensures SplitOk(cfg, s'.store.db, w, s'.splits[w]) {
        if w in s.splits { assert SplitOk(cfg, s.store.db, w, s.splits[w]); }
      }
    }
  }

  lemma StartKeeps(cfg: Config, s: Sys, owner: string, now: int)
    requires Inv(cfg, s)
    ensures Inv(cfg, BeginSplit(s, s.store.db.MarkRunning(owner, now), owner))
  {
    BeginKeeps(cfg, s, s.store.db.MarkRunning(owner, now), owner);
  }

  lemma TakeOverKeeps(cfg: Config, s: Sys, owner: string, lease: int, now: int)
    requires Inv(cfg, s)
    ensures Inv(cfg, BeginSplit(s, s.store.db.ClaimStaleSplit(owner, now, lease), owner))
  {
    BeginKeeps(cfg, s, s.store.db.ClaimStaleSplit(owner, now, lease), owner);
  }

  /** Only the split of one owner changed, and not its rows or its version. */
  lemma SplitMoved(cfg: Config, s: Sys, owner: string, p: Split)
    requires Inv(cfg, s) && SplitOk(cfg, s.store.db, owner, p)
    ensures Inv(cfg, s.(splits := s.splits[owner := p]))
  {
    var s' := s.(splits := s.splits[owner := p]);
    SameCountingInv(s, s');
  }

  lemma SplitEnded(cfg: Config, s: Sys, owner: string)
    requires Inv(cfg, s)
    ensures Inv(cfg, s.(splits := s.splits - {owner}))
  {
    SameCountingInv(s, s.(splits := s.splits - {owner}));
  }

  lemma SameCountingInv(s: Sys, s': Sys)
    requires s' == s.(splits := s'.splits)
    requires PhaseOk(s) && CountsOk(s) && SumsOk(s) && CallsOk(s) && Exact(s)
    ensures PhaseOk(s') && CountsOk(s') && SumsOk(s') && CallsOk(s') && Exact(s')
  {
    forall c | c in s'.calls ensures PcOk(s', s'.calls[c]) && CallRowOk(s', s'.calls[c]) {
      assert PcOk(s, s.calls[c]) && CallRowOk(s, s.calls[c]);
    }
  }

  // ---- a page ----

  /** The shard a page adds goes behind the shards already there. */
  lemma HoldsAppended(db: Db, p: Split, shard: SubTask, ids: seq<string>, p': Split)
    requires Holds(db, p) && forall id :: id in db.subs ==> id < db.nextId
    requires shard == Shard(|p.shards|, ids)
    requires p'.ids == p.ids + [db.nextId] && p'.shards == p.shards + [ids]
    ensures Holds(Db(db.main, db.subs[db.nextId := shard], db.nextId + 1), p')
  {
    var n := |p.ids|;
    assert forall i :: 0 <= i < n ==> p'.ids[i] == p.ids[i] && p'.shards[i] == p.shards[i];
    assert p'.ids[n] == db.nextId && p'.shards[n] == ids;
    assert forall id :: id in p.ids ==> id in p'.ids;
  }

  lemma RowsAppended(db: Db, shard: SubTask)
    requires RowsOk(db) && RowOk(shard, db.main)
    ensures RowsOk(Db(db.main, db.subs[db.nextId := shard], db.nextId + 1))
  {
  }

  lemma HoldsOneMore(db: Db, p: Split, shard: SubTask, ids: seq<string>, p': Split)
    requires Holds(db, p) && RowsOk(db)
    requires shard == Shard(|p.shards|, ids) && |ids| > 0
    requires p'.ids == p.ids + [db.nextId] && p'.shards == p.shards + [ids]
    ensures Holds(db.CreateSubTasks([shard]), p')
    ensures RowsOk(db.CreateSubTasks([shard]))
  {
    InsertedRow(db, shard);
    HoldsAppended(db, p, shard, ids, p');
    RowsAppended(db, shard);
  }

  function PageAdded(p: Split, users: seq<TargetUser>, id: nat, ids: seq<string>, failing: bool): Split {
    Split(p.version, p.raw + users, p.ids + [id], p.shards + [ids], failing)
  }

  lemma PageKeepsLists(f: Filter, p: Split, users: seq<TargetUser>, id: nat, failing: bool)
    requires Flatten(p.shards) == KeptIds(f, p.raw)
    ensures var p' := PageAdded(p, users, id, KeptIds(f, users), failing);
      Flatten(p'.shards) == KeptIds(f, p'.raw)
  {
    KeptIdsConcat(f, p.raw, users);
    FlattenAppend(p.shards, KeptIds(f, users));
  }

  /** The page's write under the lease, spelled out. */
  function PageDb(db: Db, owner: string, shard: SubTask, now: int): Db {
    db.RenewSplitLease(owner, now).db.CreateSubTasks([shard])
  }

  lemma PageKeepsRows(db: Db, owner: string, p: Split, users: seq<TargetUser>, ids: seq<string>, failing: bool, now: int)
    requires RowsOk(db) && Holds(db, p) && |ids| > 0
    requires db.main.status == Running && db.main.owner == owner
    ensures var db' := PageDb(db, owner, Shard(|p.shards|, ids), now);
      RowsOk(db') && Holds(db', PageAdded(p, users, db.nextId, ids, failing))
  {
    var renewed := db.RenewSplitLease(owner, now).db;
    HoldsOneMore(renewed, p, Shard(|p.shards|, ids), ids, PageAdded(p, users, db.nextId, ids, failing));
  }

  lemma PageKeepsSplit(cfg: Config, db: Db, owner: string, p: Split, users: seq<TargetUser>, failing: bool, now: int)
    requires RowsOk(db) && SplitOk(cfg, db, owner, p)
    requires |KeptIds(cfg.filter, users)| > 0
    requires db.main.status == Running && db.main.owner == owner
    ensures var ids := KeptIds(cfg.filter, users);
      var db' := PageDb(db, owner, Shard(|p.shards|, ids), now);
      RowsOk(db') && SplitOk(cfg, db', owner, PageAdded(p, users, db.nextId, ids, failing))
  {
    PageKeepsRows(db, owner, p, users, KeptIds(cfg.filter, users), failing, now);
    PageKeepsLists(cfg.filter, p, users, db.nextId, failing);
  }

  lemma PageRowsKeep(cfg: Config, s: Sys, s': Sys, owner: string)
    requires Inv(cfg, s) && s.Main().subTotal == 0 && s.Main().status == Running && s.Main().owner == owner && owner != ""
    requires s' == s.WithDb(s'.store.db).(splits := s'.splits)
    requires s'.splits.Keys <= s.splits.Keys + {owner}
    requires forall w :: w in s'.splits && w != owner ==> s'.splits[w] == s.splits[w]
    requires owner in s'.splits ==> SplitOk(cfg, s'.store.db, owner, s'.splits[owner])
    requires RowsOk(s'.store.db)
    requires s'.Main().status == Running && s'.Main().owner == owner
    requires s'.Main().subTotal == 0 && s'.Main().subDone == s.Main().subDone
    requires forall id :: id in s'.Subs() ==> s'.Subs()[id].status == Pending
    ensures Inv(cfg, s')
  {
    NothingCounted(s);
    UncountedCounting(s');
    forall w | w in s'.splits ensures SplitOk(cfg, s'.store.db, w, s'.splits[w]) {
      if w != owner { assert SplitOk(cfg, s.store.db, w, s.splits[w]); }
    }
  }

  lemma PagePending(db: Db, owner: string, shard: SubTask, now: int)
    requires shard.status == Pending
    requires forall id :: id in db.subs ==> db.subs[id].status == Pending
    ensures var db' := PageDb(db, owner, shard, now);
      forall id :: id in db'.subs ==> db'.subs[id].status == Pending
  {
    InsertedRow(db.RenewSplitLease(owner, now).db, shard);
  }

  lemma PageStore(db: Db, owner: string, shard: SubTask, now: int)
    requires db.main.status == Running && db.main.owner == owner
    ensures PageDb(db, owner, shard, now) ==
      Db(db.main.(leaseAt := Some(now), updatedAt := now), db.subs[db.nextId := shard], db.nextId + 1)
  {
    InsertedRow(db.RenewSplitLease(owner, now).db, shard);
  }

  /** A page that passed the lease check, before the running total is patched. */
  lemma PageKeeps(cfg: Config, s: Sys, owner: string, users: seq<TargetUser>, failing: bool, now: int)
    requires Inv(cfg, s) && owner in s.splits
    requires s.Main().status == Running && s.Main().owner == owner
    requires |KeptIds(cfg.filter, users)| > 0
    ensures var p := s.splits[owner];
      var ids := KeptIds(cfg.filter, users);
      var db := PageDb(s.store.db, owner, Shard(|p.shards|, ids), now);
      Inv(cfg, s.WithDb(db).(splits := s.splits[owner := PageAdded(p, users, s.store.db.nextId, ids, failing)]))
  {
    var p := s.splits[owner];
    var ids := KeptIds(cfg.filter, users);
    assert SplitOk(cfg, s.store.db, owner, p);
    PageKeepsSplit(cfg, s.store.db, owner, p, users, failing, now);
    AllPending(s);
    PagePending(s.store.db, owner, Shard(|p.shards|, ids), now);
    PageStore(s.store.db, owner, Shard(|p.shards|, ids), now);
    PageMoves(cfg, s, owner, PageDb(s.store.db, owner, Shard(|p.shards|, ids), now),
              PageAdded(p, users, s.store.db.nextId, ids, failing));
  }

  /** The rows and the split record move on together. */
  lemma PageMoves(cfg: Config, s: Sys, owner: string, db: Db, p: Split)
    requires Inv(cfg, s) && owner in s.splits && owner != ""
    requires s.Main().status == Running && s.Main().owner == owner && s.Main().subTotal == 0
    requires RowsOk(db) && SplitOk(cfg, db, owner, p)
    requires db.main.status == Running && db.main.owner == owner
    requires db.main.subTotal == 0 && db.main.subDone == s.Main().subDone
    requires forall id :: id in db.subs ==> db.subs[id].status == Pending
    ensures Inv(cfg, s.WithDb(db).(splits := s.splits[owner := p]))
  {
    PageRowsKeep(cfg, s, s.WithDb(db).(splits := s.splits[owner := p]), owner);
  }

  lemma AllPending(s: Sys)
    requires RowsOk(s.store.db) && PhaseOk(s) && s.Main().subTotal == 0 && s.Main().status == Running
    ensures forall id :: id in s.Subs() ==> s.Subs()[id].status == Pending
  {
    forall id | id in s.Subs() ensures s.Subs()[id].status == Pending {
      assert RowOk(s.Subs()[id], s.Main());
    }
  }

  /** Patching the running total leaves the sub-task total at zero. */
  lemma PatchKeeps(cfg: Config, s: Sys, owner: string, total: int, now: int)
    requires Inv(cfg, s) && s.Main().status == Running && s.Main().owner == owner && owner in s.splits
    ensures Inv(cfg, s.WithDb(s.store.db.PatchMainMeta(total, 0, now)))
  {
    var s' := s.WithDb(s.store.db.PatchMainMeta(total, 0, now));
    assert SplitOk(cfg, s.store.db, owner, s.splits[owner]);
    MainWrite(cfg, s, s');
  }

  lemma WritePageKeeps(cfg: Config, s: Sys, owner: string, users: seq<TargetUser>, now: int)
    requires Inv(cfg, s)
    ensures Inv(cfg, WritePageStep(cfg, s, owner, users, now))
  {
    if owner in s.splits && !s.splits[owner].failing {
      var p := s.splits[owner];
      var db := s.store.db;
      var ids := KeptIds(cfg.filter, users);
      assert SplitOk(cfg, db, owner, p);
      if |ids| == 0 {
        KeptIdsConcat(cfg.filter, p.raw, users);
        SplitMoved(cfg, s, owner, p.(raw := p.raw + users));
      } else if db.main.status == Running && db.main.owner == owner {
        var tooMany := Written(p.shards + [ids]) > cfg.maxUsers;
        var p' := PageAdded(p, users, db.nextId, ids, tooMany);
        PageKeeps(cfg, s, owner, users, tooMany, now);
        if !tooMany {
          var s1 := s.WithDb(PageDb(db, owner, Shard(|p.shards|, ids), now)).(splits := s.splits[owner := p']);
          PatchKeeps(cfg, s1, owner, Written(p'.shards), now);
        }
      } else {
        SplitMoved(cfg, s, owner, p.(failing := true));
      }
    }
  }

  // ---- ends ----

  lemma FinishWrites(db: Db, version: int, total: int, shards: int, now: int)
    requires db.main.status in {Pending, Running, Paused}
    ensures var db' := db.UpdateMainStats(version, 0, 0, 0, Running, now).db.PatchMainMeta(total, shards, now).ClearSplitLease(now);
      && db'.subs == db.subs && db'.nextId == db.nextId
      && db'.main.owner == "" && db'.main.subDone == db.main.subDone
      && (if db.main.status == Paused
          then db'.main.status == Paused && db'.main.subTotal == db.main.subTotal && db'.main.totalCount == db.main.totalCount
          else db'.main.status == Running && db'.main.subTotal == shards && db'.main.totalCount == total)
  {
  }

  lemma OwnedStatus(cfg: Config, s: Sys, owner: string)
    requires PhaseOk(s) && s.Main().owner == owner && owner != "" && s.Main().status != Cancelled
    ensures s.Main().subTotal == 0 && s.Main().status in {Pending, Running, Paused}
  {
  }

  /** The finish seals the campaign: the total becomes the number of rows. */
  lemma FinishKeeps(cfg: Config, s: Sys, owner: string, now: int)
    requires Inv(cfg, s)
    ensures Inv(cfg, FinishSplitStep(s, owner, now))
  {
    if owner in s.splits && !s.splits[owner].failing && s.Main().owner == owner && |s.splits[owner].shards| > 0 {
      var p := s.splits[owner];
      assert SplitOk(cfg, s.store.db, owner, p);
      if s.Main().status == Cancelled {
        CancelAgain(cfg, s);
        var s1 := s.WithDb(s.store.db.CancelUnfinished());
        assert SplitOk(cfg, s1.store.db, owner, s1.splits[owner]);
        SplitMoved(cfg, s1, owner, p.(failing := true));
      } else {
        OwnedStatus(cfg, s, owner);
        FinishWrites(s.store.db, p.version, Written(p.shards), |p.shards|, now);
        SealKeeps(cfg, s, FinishSplitStep(s, owner, now), owner);
      }
    }
  }

  lemma HoldsCount(db: Db, p: Split)
    requires Holds(db, p)
    ensures |db.subs| == |p.shards|
  {
    SeqKeys(p.ids, db.subs.Keys);
  }

  lemma {:induction false} SeqKeys(ids: seq<nat>, keys: set<nat>)
    requires forall i, j :: 0 <= i < j < |ids| ==> ids[i] < ids[j]
    requires forall id :: id in keys <==> id in ids
    ensures |keys| == |ids|
  {
    if ids == [] {
      assert keys == {};
    } else {
      var n := |ids| - 1;
      assert forall id :: id in ids <==> id in ids[..n] || id == ids[n];
      assert ids[n] !in ids[..n];
      SeqKeys(ids[..n], keys - {ids[n]});
    }
  }

  lemma SealKeeps(cfg: Config, s: Sys, s': Sys, owner: string)
    requires Inv(cfg, s) && owner in s.splits && s.Main().owner == owner && |s.splits[owner].shards| > 0
    requires s' == s.WithDb(s'.store.db).(splits := s.splits - {owner})
    requires s'.Subs() == s.Subs() && s'.store.db.nextId == s.store.db.nextId
    requires s'.Main().owner == "" && s'.Main().subDone == s.Main().subDone
    requires if s.Main().status == Paused
             then s'.Main().status == Paused && s'.Main().subTotal == 0
             else s'.Main().status == Running && s'.Main().subTotal == |s.splits[owner].shards|
    requires s.Main().status in {Pending, Running, Paused}
    ensures Inv(cfg, s')
  {
    assert SplitOk(cfg, s.store.db, owner, s.splits[owner]);
    HoldsCount(s.store.db, s.splits[owner]);
    NothingCounted(s);
    assert FinishedIds(s'.Subs()) == {};
    assert RowsOk(s'.store.db) by {
      forall id | id in s'.Subs() ensures id < s'.store.db.nextId && RowOk(s'.Subs()[id], s'.Main()) {
        assert RowOk(s.Subs()[id], s.Main());
      }
    }
    forall w | w in s'.splits ensures SplitOk(cfg, s'.store.db, w, s'.splits[w]) {
      assert SplitOk(cfg, s.store.db, w, s.splits[w]);
    }
  }

  // ---- the error exit ----

  lemma ClearKeeps(cfg: Config, s: Sys, now: int)
    requires Inv(cfg, s) && (s.Main().status == Running ==> s.Main().owner == "")
    ensures Inv(cfg, s.WithDb(s.store.db.ClearSplitLease(now)))
  {
    var s' := s.WithDb(s.store.db.ClearSplitLease(now));
    forall c | c in s'.calls ensures PcOk(s', s'.calls[c]) && CallRowOk(s', s'.calls[c]) {
      assert PcOk(s, s.calls[c]) && CallRowOk(s, s.calls[c]);
    }
    forall w | w in s'.splits ensures SplitOk(cfg, s'.store.db, w, s'.splits[w]) {
      assert SplitOk(cfg, s.store.db, w, s.splits[w]);
    }
    assert RowsOk(s'.store.db);
  }

  /** Failing the campaign and clearing the lease, as one write. */
  lemma FailAndClearKeeps(cfg: Config, s: Sys, now: int)
    requires Inv(cfg, s) && !s.Main().status.IsTerminal() && s.Main().status != Paused
    ensures var failed := s.store.db.SetStatus(s.Main().version, Failed, now).db.ClearSplitLease(now);
      Inv(cfg, s.WithDb(failed))
  {
    var s' := s.WithDb(s.store.db.SetStatus(s.Main().version, Failed, now).db.ClearSplitLease(now));
    forall c | c in s'.calls ensures PcOk(s', s'.calls[c]) && CallRowOk(s', s'.calls[c]) {
      assert PcOk(s, s.calls[c]) && CallRowOk(s, s.calls[c]);
    }
    forall w | w in s'.splits ensures SplitOk(cfg, s'.store.db, w, s'.splits[w]) {
      assert SplitOk(cfg, s.store.db, w, s.splits[w]);
    }
    assert RowsOk(s'.store.db) by {
      forall id | id in s'.Subs() ensures id < s'.store.db.nextId && RowOk(s'.Subs()[id], s'.Main()) {
        assert RowOk(s.Subs()[id], s.Main());
      }
    }
  }

  lemma FailSplitKeeps(cfg: Config, s: Sys, owner: string, now: int)
    requires Inv(cfg, s)
    ensures Inv(cfg, FailSplitStep(s, owner, now))
  {
    if owner in s.splits {
      FailDbKeeps(cfg, s, owner, now);
      SplitEnded(cfg, s.WithDb(FailSplitDb(s.store.db, s.splits[owner].version, owner, now)), owner);
    }
  }

  lemma FailDbKeeps(cfg: Config, s: Sys, owner: string, now: int)
    requires Inv(cfg, s) && owner in s.splits
    ensures Inv(cfg, s.WithDb(FailSplitDb(s.store.db, s.splits[owner].version, owner, now)))
  {
    var p := s.splits[owner];
    var db := s.store.db;
    assert SplitOk(cfg, db, owner, p);
    if db.main.status == Cancelled {
      CancelAgain(cfg, s);
      ClearKeeps(cfg, s.WithDb(db.CancelUnfinished()), now);
    } else if db.main.owner != "" && db.main.owner != owner {
    } else if db.main.status == Paused || db.main.status.IsTerminal() || db.main.version != p.version {
      ClearKeeps(cfg, s, now);
    } else {
      FailAndClearKeeps(cfg, s, now);
    }
  }
}
