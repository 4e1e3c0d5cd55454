/** Retry starts counting over from the rows. What becomes of the calls under way is the business of Stragglers; here
    the state they are set aside from is shown to be sound. */
module RetryKeepsInvariant {
  import opened Status
  import opened SetSums
  import opened TaskRows
  import opened Aggregation
  import opened Retry
  import opened Protocol
  import opened Invariant
  import opened CountingSteps

  function RetriedRows(db: Db, shards: seq<SubTask>): map<nat, SubTask> {
    db.ResetFailed().CreateSubTasks(shards).subs
  }

  predicate NewRows(shards: seq<SubTask>) {
    forall i :: 0 <= i < |shards| ==> shards[i] == Shard(shards[i].shard, shards[i].users) && |shards[i].users| > 0
  }

  lemma RetriedRowsOk(db: Db, shards: seq<SubTask>, main: MainTask)
    requires RowsOk(db) && db.main.status != Cancelled && NewRows(shards)
    ensures RowsOk(Db(main, RetriedRows(db, shards), db.nextId + |shards|))
    ensures forall id :: id in RetriedRows(db, shards) ==> RetriedRows(db, shards)[id].status in {Pending, Running, Success}
  {
    var subs := RetriedRows(db, shards);
    forall id | id in subs
      ensures id < db.nextId + |shards| && RowOk(subs[id], main) && subs[id].status in {Pending, Running, Success}
    {
      if id in NewIds(db.nextId, |shards|) {
        assert subs[id] == shards[id - db.nextId];
      } else {
        assert subs[id] == db.ResetFailed().subs[id];
        assert RowOk(db.subs[id], db.main);
      }
    }
  }

  lemma RetriedTotals(subs: map<nat, SubTask>, main: MainTask)
    requires forall id :: id in subs ==> RowOk(subs[id], main) && subs[id].status in {Pending, Running, Success}
    ensures DoneIds(subs) == FinishedIds(subs)
    ensures PipelineSuccess(subs) == Sum(DoneIds(subs), SuccessOf(subs))
    ensures PipelineFail(subs) == Sum(DoneIds(subs), FailOf(subs))
  {
    assert IdsIn(subs, {Success, Cancelled, Partial}) == DoneIds(subs);
    assert IdsIn(subs, {Failed, Cancelled, Partial}) == {};
    SumZero(DoneIds(subs), FailOf(subs));
  }

  lemma RetryGrows(db: Db, shards: seq<SubTask>)
    requires IdsIn(db.subs, {Failed}) != {} || |shards| > 0
    ensures |RetriedRows(db, shards)| > 0
  {
    var id: nat;
    if |shards| > 0 {
      id := db.nextId;
      assert id in NewIds(db.nextId, |shards|);
    } else {
      id :| id in IdsIn(db.subs, {Failed});
    }
    assert id in RetriedRows(db, shards);
  }

  /** What Retry leaves in the database, with its rows spelled out. */
  lemma RetriedStore(st: Store, pushFailed: seq<string>, batch: nat, outcomes: Option<(int, int)>, now: int)
    requires batch > 0 && RetryMain(st, pushFailed, batch, outcomes, now).Retried?
    ensures var db := RetryMain(st, pushFailed, batch, outcomes, now).store.db;
      var shards := NewShards(st.db, pushFailed, batch);
      && db == Db(db.main, RetriedRows(st.db, shards), st.db.nextId + |shards|)
      && db.main.owner == st.db.main.owner
      && (IdsIn(st.db.subs, {Failed}) != {} || |shards| > 0)
      && st.db.main.status.IsRetryable()
  {
  }

  lemma NewShardsAreNew(db: Db, pushFailed: seq<string>, batch: nat)
    requires batch > 0
    ensures NewRows(NewShards(db, pushFailed, batch))
  {
    RetryShardsCut(MaxShard(db.ResetFailed().subs) + 1, ExtraUsers(pushFailed, UsersOf(db.subs, IdsIn(db.subs, {Failed}))), batch);
  }

  /** Everything known about the store after Retry. */
  ghost predicate RetriedTo(st: Store, st': Store, shards: seq<SubTask>) {
    && st.db.main.status.IsRetryable()
    && NewRows(shards)
    && st'.db == Db(st'.db.main, RetriedRows(st.db, shards), st.db.nextId + |shards|)
    && (IdsIn(st.db.subs, {Failed}) != {} || |shards| > 0)
    && st'.db.main.owner == st.db.main.owner && st'.db.main.status == Running
    && Aligned(st')
  }

  lemma RetryGoesTo(st: Store, pushFailed: seq<string>, batch: nat, outcomes: Option<(int, int)>, now: int)
    requires batch > 0 && RetryMain(st, pushFailed, batch, outcomes, now).Retried?
    ensures RetriedTo(st, RetryMain(st, pushFailed, batch, outcomes, now).store, NewShards(st.db, pushFailed, batch))
  {
    RetriedStore(st, pushFailed, batch, outcomes, now);
    RetryRestoresCounting(st, pushFailed, batch, outcomes, now);
    NewShardsAreNew(st.db, pushFailed, batch);
  }

  /** The state as the calls begun since the counters were last aligned know it. */
  function Current(s: Sys): Sys {
    s.(calls := s.calls - s.earlier, earlier := {})
  }

  lemma RealignedCounting(s: Sys)
    requires Aligned(s.store) && s.Main().status == Running && s.Main().owner == "" && |s.Subs()| > 0
    requires (forall c :: c in s.calls ==> Unread(s.calls[c]) && c < s.nextCall) && !s.mixed && !s.spoiled
    requires s.dbCounted == DoneIds(s.Subs()) && s.rdCounted == DoneIds(s.Subs())
    requires DoneIds(s.Subs()) == FinishedIds(s.Subs())
    requires PipelineSuccess(s.Subs()) == Sum(DoneIds(s.Subs()), SuccessOf(s.Subs()))
    requires PipelineFail(s.Subs()) == Sum(DoneIds(s.Subs()), FailOf(s.Subs()))
    ensures PhaseOk(s) && CountsOk(s) && SumsOk(s) && CallsOk(s) && Exact(s)
  {
    forall c | c in s.calls ensures PcOk(s, s.calls[c]) && CallRowOk(s, s.calls[c]) && !BeforeRedis(s.calls[c]) {
      assert Unread(s.calls[c]);
    }
  }

  /** What Retry relies on; none of it is about counting. */
  predicate RowsReady(cfg: Config, s: Sys) {
    && RowsOk(s.store.db) && SplitsOk(cfg, s)
    && (s.Main().status.IsRetryable() ==> s.Main().owner == "")
    && (forall c :: c in s.calls ==> c < s.nextCall)
  }

  lemma RealignedKeeps(cfg: Config, s: Sys, store: Store, shards: seq<SubTask>)
    requires RowsReady(cfg, s) && RetriedTo(s.store, store, shards)
    ensures Inv(cfg, Current(Restart(s, store)))
  {
    var s' := Current(Restart(s, store));
    RetriedRowsOk(s.store.db, shards, s'.Main());
    RetryGrows(s.store.db, shards);
    RetriedTotals(s'.Subs(), s'.Main());
    RealignedCounting(s');
    SealedSplits(cfg, s, s');
  }

  /** Rows still to be finished. */
  function OpenRows(subs: map<nat, SubTask>): int {
    |subs| - |FinishedIds(subs)|
  }

  /** After a Retry some row is open again. */
  lemma RetriedRowIsOpen(db: Db, shards: seq<SubTask>)
    requires NewRows(shards) && (IdsIn(db.subs, {Failed}) != {} || |shards| > 0)
    requires forall id :: id in db.subs ==> id < db.nextId
    ensures OpenRows(RetriedRows(db, shards)) >= 1
  {
    var subs := RetriedRows(db, shards);
    var id: nat;
    if |shards| > 0 {
      id := db.nextId;
      assert id in NewIds(db.nextId, |shards|) && subs[id] == shards[0];
    } else {
      id :| id in IdsIn(db.subs, {Failed});
      assert subs[id] == db.ResetFailed().subs[id];
    }
    OpenRow(subs, id);
  }

  lemma OpenRow(subs: map<nat, SubTask>, id: nat)
    requires id in subs && id !in FinishedIds(subs)
    ensures OpenRows(subs) >= 1
  {
    SubsetCard(FinishedIds(subs) + {id}, subs.Keys);
  }

  /** What a Retry that goes through leaves: the current calls' state is sound, the version went up, a row is open. */
  ghost predicate Restarted(cfg: Config, s: Sys, store: Store) {
    && Inv(cfg, Current(Restart(s, store)))
    && store.db.main.version == s.Main().version + 2 && store.db.main.status == Running && store.db.main.owner == ""
    && store.db.main.subTotal > 0 && OpenRows(store.db.subs) >= 1
    && Aligned(store) && IdsIn(store.db.subs, {Failed}) == {}
  }

  lemma RetriedSound(cfg: Config, s: Sys, store: Store, shards: seq<SubTask>)
    requires RowsReady(cfg, s)
    requires RetriedTo(s.store, store, shards) && store.db.main.version == s.Main().version + 2
    requires IdsIn(store.db.subs, {Failed}) == {}
    ensures Restarted(cfg, s, store)
  {
    RealignedKeeps(cfg, s, store, shards);
    RetriedRowIsOpen(s.store.db, shards);
    RetryGrows(s.store.db, shards);
  }

  lemma RetrySound(cfg: Config, s: Sys, pushFailed: seq<string>, outcomes: Option<(int, int)>, now: int) returns (store: Store)
    requires RowsReady(cfg, s) && RetryStep(cfg, s, pushFailed, outcomes, now) != s
    ensures RetryStep(cfg, s, pushFailed, outcomes, now) == Realigned(s, store) && Restarted(cfg, s, store)
  {
    store := RetryMain(s.store, pushFailed, cfg.batchSize, outcomes, now).store;
    RetryGoesTo(s.store, pushFailed, cfg.batchSize, outcomes, now);
    RetryRestoresCounting(s.store, pushFailed, cfg.batchSize, outcomes, now);
    RetriedSound(cfg, s, store, NewShards(s.store.db, pushFailed, cfg.batchSize));
  }
}
