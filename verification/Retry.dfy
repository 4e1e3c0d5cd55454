/** The retry of a failed or partly failed campaign: failed rows are reset, users that failed at the
    provider get new shards, and every counter is recomputed from the rows. */
module Retry {
  import opened Status
  import opened SetSums
  import opened TaskRows
  import opened Aggregation
  import opened Audience

  const COUNTED: set<TaskStatus> := {Success, Failed, Cancelled, Partial}

  ghost function DoneIds(subs: map<nat, SubTask>): set<nat> {
    IdsIn(subs, COUNTED)
  }

  /** Every user of some row in the given set. */
  ghost function UsersOf(subs: map<nat, SubTask>, ids: set<nat>): iset<string> {
    iset id, u | id in ids && id in subs && u in subs[id].users :: u
  }

  /** Users that failed at the provider and are in no failed row, in the order they were listed. */
  ghost function ExtraUsers(pushFailed: seq<string>, inFailedRows: iset<string>): (r: seq<string>)
    ensures forall u :: u in r <==> u in pushFailed && u !in inFailedRows
  {
    if pushFailed == [] then []
    else
      assert pushFailed == [pushFailed[0]] + pushFailed[1..];
      (if pushFailed[0] in inFailedRows then [] else [pushFailed[0]]) + ExtraUsers(pushFailed[1..], inFailedRows)
  }

  predicate IsMaxShard(subs: map<nat, SubTask>, max: int) {
    && (forall id :: id in subs ==> subs[id].shard <= max)
    && (if subs == map[] then max == -1 else exists id :: id in subs && subs[id].shard == max)
  }

  lemma {:induction false} MaxShardExists(subs: map<nat, SubTask>) returns (max: int)
    ensures IsMaxShard(subs, max)
    decreases |subs|
  {
    if subs == map[] { return -1; }
    var x :| x in subs;
    var rest := subs - {x};
    max := MaxShardExists(rest);
    assert forall id :: id in subs ==> id == x || (id in rest && rest[id] == subs[id]);
    if rest == map[] || max < subs[x].shard {
      max := subs[x].shard;
      assert subs[x].shard == max;
    } else {
      var id :| id in rest && rest[id].shard == max;
      assert subs[id].shard == max;
    }
  }

  ghost function MaxShard(subs: map<nat, SubTask>): (max: int)
    ensures IsMaxShard(subs, max)
  {
    assert exists m :: IsMaxShard(subs, m) by { var m := MaxShardExists(subs); }
    var m :| IsMaxShard(subs, m);
    m
  }

  /** Pending shards of at most `batch` users each, numbered from `first`. */
  function RetryShards(first: int, users: seq<string>, batch: nat): (r: seq<SubTask>)
    requires batch > 0
    decreases |users|
  {
    if users == [] then []
    else
      var n := if batch < |users| then batch else |users|;
      [Shard(first, users[..n])] + RetryShards(first + 1, users[n..], batch)
  }

  /** The pipeline totals the rows give: success of rows that may hold some, failures likewise. */
  ghost function PipelineSuccess(subs: map<nat, SubTask>): int {
    Sum(IdsIn(subs, {Success, Cancelled, Partial}), SuccessOf(subs))
  }

  ghost function PipelineFail(subs: map<nat, SubTask>): int {
    Sum(IdsIn(subs, {Failed, Cancelled, Partial}), FailOf(subs))
  }

  /** Database and Redis counters recomputed from the rows; user counts come from the push records when there are any. */
  ghost function Realign(st: Store, outcomes: Option<(int, int)>, now: int): Store {
    var subs := st.db.subs;
    var success, fail := PipelineSuccess(subs), PipelineFail(subs);
    var users := if outcomes.Some? then outcomes.value else (success, fail);
    Store(st.db.SyncMainCounters(users.0, users.1, |DoneIds(subs)|, |subs|, now),
          st.redis.SetSubDone(success, fail, |DoneIds(subs)|))
  }

  datatype Outcome = NotRetryable | NothingToRetry | Retried(store: Store, resetRows: nat, newRows: nat)

  ghost function NewShards(db: Db, pushFailed: seq<string>, batch: nat): seq<SubTask>
    requires batch > 0
  {
    var extra := ExtraUsers(pushFailed, UsersOf(db.subs, IdsIn(db.subs, {Failed})));
    RetryShards(MaxShard(db.ResetFailed().subs) + 1, extra, batch)
  }

  /** Retry as one step, with no failing call. */
  ghost function RetryMain(st: Store, pushFailed: seq<string>, batch: nat, outcomes: Option<(int, int)>, now: int): Outcome
    requires batch > 0
  {
    if !st.db.main.status.IsRetryable() then NotRetryable
    else
      var resetRows := |IdsIn(st.db.subs, {Failed})|;
      var shards := NewShards(st.db, pushFailed, batch);
      if resetRows == 0 && |shards| == 0 then NothingToRetry
      else
        var reopened := st.db.ResetFailed().CreateSubTasks(shards).ReopenMain(|shards|, now);
        Retried(Realign(st.(db := reopened.db), outcomes, now), resetRows, |shards|)
  }

  // ---- what the new shards are ----

  lemma {:induction false} RetryShardsCut(first: int, users: seq<string>, batch: nat)
    requires batch > 0
    ensures var r := RetryShards(first, users, batch);
      && (forall i :: 0 <= i < |r| ==> r[i].shard == first + i && 1 <= |r[i].users| <= batch)
      && (forall i :: 0 <= i < |r| ==> r[i] == Shard(r[i].shard, r[i].users))
      && (forall i :: 0 <= i < |r| - 1 ==> |r[i].users| == batch)
      && (|r| > 0 <==> |users| > 0)
    decreases |users|
  {
    if users != [] {
      var n := if batch < |users| then batch else |users|;
      RetryShardsCut(first + 1, users[n..], batch);
    }
  }

  function UsersOfEach(shards: seq<SubTask>): seq<seq<string>> {
    seq(|shards|, i requires 0 <= i < |shards| => shards[i].users)
  }

  lemma UsersOfEachCons(head: SubTask, rest: seq<SubTask>)
    ensures UsersOfEach([head] + rest) == [head.users] + UsersOfEach(rest)
  {
  }

  lemma {:induction false} RetryShardsConcat(first: int, users: seq<string>, batch: nat)
    requires batch > 0
    ensures var r := RetryShards(first, users, batch);
      Flatten(UsersOfEach(r)) == users
    decreases |users|
  {
    var r := RetryShards(first, users, batch);
    if users != [] {
      var n := if batch < |users| then batch else |users|;
      var rest := RetryShards(first + 1, users[n..], batch);
      RetryShardsConcat(first + 1, users[n..], batch);
      FlattenCons(users[..n], UsersOfEach(rest));
      UsersOfEachCons(Shard(first, users[..n]), rest);
      assert users[..n] + users[n..] == users;
    }
  }

  lemma {:induction false} FlattenCons<T>(head: seq<T>, parts: seq<seq<T>>)
    ensures Flatten([head] + parts) == head + Flatten(parts)
    decreases |parts|
  {
    var all := [head] + parts;
    if parts == [] {
      assert all[..|all| - 1] == [];
    } else {
      FlattenCons(head, parts[..|parts| - 1]);
      assert all[..|all| - 1] == [head] + parts[..|parts| - 1];
    }
  }

  // ---- what retry restores ----

  /** Every counter says what the rows say: the state in which counting may start over. */
  ghost predicate Aligned(st: Store) {
    && st.db.main.subTotal == |st.db.subs|
    && st.db.main.subDone == |DoneIds(st.db.subs)|
    && st.redis.done == |DoneIds(st.db.subs)|
    && st.redis.finished == {}
    && st.redis.success == PipelineSuccess(st.db.subs)
    && st.redis.fail == PipelineFail(st.db.subs)
  }

  lemma ResetLeavesNoFailedRow(db: Db, shards: seq<SubTask>)
    requires forall i :: 0 <= i < |shards| ==> shards[i].status == Pending
    ensures IdsIn(db.ResetFailed().CreateSubTasks(shards).subs, {Failed}) == {}
  {
    var reset := db.ResetFailed();
    var subs := reset.CreateSubTasks(shards).subs;
    forall id | id in subs ensures subs[id].status != Failed {
      if id in NewIds(reset.nextId, |shards|) {
        assert subs[id] == shards[id - reset.nextId];
      } else {
        assert subs[id] == reset.subs[id];
      }
    }
  }

  ghost function SuccessIn(subs: map<nat, SubTask>, statuses: set<TaskStatus>): int {
    Sum(set id | id in subs && subs[id].status in statuses, map id | id in subs :: subs[id].success)
  }

  ghost function FailIn(subs: map<nat, SubTask>, statuses: set<TaskStatus>): int {
    Sum(set id | id in subs && subs[id].status in statuses, map id | id in subs :: subs[id].fail)
  }

  function CountIn(subs: map<nat, SubTask>, statuses: set<TaskStatus>): nat {
    |set id | id in subs && subs[id].status in statuses|
  }

  lemma CountIs(subs: map<nat, SubTask>, statuses: set<TaskStatus>)
    ensures |IdsIn(subs, statuses)| == CountIn(subs, statuses)
  {
    assert IdsIn(subs, statuses) == set id | id in subs && subs[id].status in statuses;
  }

  lemma PipelineIs(subs: map<nat, SubTask>)
    ensures PipelineSuccess(subs) == SuccessIn(subs, {Success, Cancelled, Partial})
    ensures PipelineFail(subs) == FailIn(subs, {Failed, Cancelled, Partial})
    ensures |DoneIds(subs)| == CountIn(subs, {Success, Failed, Cancelled, Partial})
  {
    assert IdsIn(subs, {Success, Cancelled, Partial}) == set id | id in subs && subs[id].status in {Success, Cancelled, Partial};
    assert IdsIn(subs, {Failed, Cancelled, Partial}) == set id | id in subs && subs[id].status in {Failed, Cancelled, Partial};
    CountIs(subs, {Success, Failed, Cancelled, Partial});
    assert SuccessOf(subs) == map id | id in subs :: subs[id].success;
    assert FailOf(subs) == map id | id in subs :: subs[id].fail;
  }

  /** The numbers a Retry leaves, each on its own: the user counts of the campaign are those of the push records when there
      are any, and else, like the sums in Redis, those of the rows. */
  lemma RetryCounts(st: Store, pushFailed: seq<string>, batch: nat, outcomes: Option<(int, int)>, now: int)
    requires batch > 0 && RetryMain(st, pushFailed, batch, outcomes, now).Retried?
    ensures var after := RetryMain(st, pushFailed, batch, outcomes, now).store;
      var main, subs := after.db.main, after.db.subs;
      var success, fail := SuccessIn(subs, {Success, Cancelled, Partial}), FailIn(subs, {Failed, Cancelled, Partial});
      && (outcomes.Some? ==> main.successCount == outcomes.value.0 && main.failCount == outcomes.value.1)
      && (outcomes.None? ==> main.successCount == success && main.failCount == fail)
      && after.redis.success == success && after.redis.fail == fail
      && main.subDone == after.redis.done == CountIn(subs, {Success, Failed, Cancelled, Partial})
      && main.subTotal == |subs| && after.redis.finished == {}
  {
    RetryRestoresCounting(st, pushFailed, batch, outcomes, now);
    PipelineIs(RetryMain(st, pushFailed, batch, outcomes, now).store.db.subs);
  }

  /** A failed row waits to be sent again to the same users, one retry more on its account; every other row is as it was. The
      rows added are behind all others, and wait for the users that failed at the provider only. */
  lemma RetryRows(st: Store, pushFailed: seq<string>, batch: nat, outcomes: Option<(int, int)>, now: int)
    requires batch > 0 && RetryMain(st, pushFailed, batch, outcomes, now).Retried?
    requires forall id :: id in st.db.subs ==> id < st.db.nextId
    ensures var after := RetryMain(st, pushFailed, batch, outcomes, now).store.db;
      && (forall id :: id in st.db.subs ==> id in after.subs && RetriedRow(st.db.subs[id], after.subs[id]))
      && (forall id :: id in after.subs && id !in st.db.subs ==>
            st.db.nextId <= id < after.nextId && NewRow(after.subs[id], pushFailed, batch))
  {
    var shards := NewShards(st.db, pushFailed, batch);
    NewShardsAre(st.db, pushFailed, batch);
    ResetAndAdded(st.db, shards, pushFailed, batch);
    assert RetryMain(st, pushFailed, batch, outcomes, now).store.db.subs == st.db.ResetFailed().CreateSubTasks(shards).subs;
  }

  lemma NewShardsAre(db: Db, pushFailed: seq<string>, batch: nat)
    requires batch > 0
    ensures forall i :: 0 <= i < |NewShards(db, pushFailed, batch)| ==> NewRow(NewShards(db, pushFailed, batch)[i], pushFailed, batch)
  {
    var extra := ExtraUsers(pushFailed, UsersOf(db.subs, IdsIn(db.subs, {Failed})));
    var first := MaxShard(db.ResetFailed().subs) + 1;
    RetryShardsCut(first, extra, batch);
    forall i, u | 0 <= i < |RetryShards(first, extra, batch)| && u in RetryShards(first, extra, batch)[i].users ensures u in pushFailed {
      RetryShardsFrom(first, extra, batch, i, u);
    }
  }

  lemma ResetAndAdded(db: Db, shards: seq<SubTask>, pushFailed: seq<string>, batch: nat)
    requires forall id :: id in db.subs ==> id < db.nextId
    requires forall i :: 0 <= i < |shards| ==> NewRow(shards[i], pushFailed, batch)
    ensures var after := db.ResetFailed().CreateSubTasks(shards);
      && (forall id :: id in db.subs ==> id in after.subs && RetriedRow(db.subs[id], after.subs[id]))
      && (forall id :: id in after.subs && id !in db.subs ==>
            db.nextId <= id < after.nextId && NewRow(after.subs[id], pushFailed, batch))
  {
    var after := db.ResetFailed().CreateSubTasks(shards);
    forall id | id in db.subs ensures id in after.subs && RetriedRow(db.subs[id], after.subs[id]) {
      assert after.subs[id] == db.ResetFailed().subs[id];
    }
    forall id | id in after.subs && id !in db.subs ensures db.nextId <= id < after.nextId && NewRow(after.subs[id], pushFailed, batch) {
      assert after.subs[id] == shards[id - db.nextId];
    }
  }

  predicate RetriedRow(row: SubTask, row': SubTask) {
    if row.status != Failed then row' == row
    else
      && row'.status == Pending && row'.worker == "" && row'.claimedAt == None
      && row'.success == 0 && row'.fail == 0 && row'.retries == row.retries + 1
      && row'.users == row.users && row'.total == row.total && row'.shard == row.shard
  }

  predicate NewRow(row: SubTask, pushFailed: seq<string>, batch: nat) {
    && row.status == Pending && row.worker == "" && row.claimedAt == None && row.retries == 0
    && row.success == 0 && row.fail == 0 && row.total == |row.users|
    && 1 <= |row.users| <= batch && forall u :: u in row.users ==> u in pushFailed
  }

  lemma {:induction false} RetryShardsFrom(first: int, users: seq<string>, batch: nat, i: nat, u: string)
    requires batch > 0 && i < |RetryShards(first, users, batch)| && u in RetryShards(first, users, batch)[i].users
    ensures u in users
    decreases |users|
  {
    var n := if batch < |users| then batch else |users|;
    if i > 0 {
      assert RetryShards(first, users, batch)[i] == RetryShards(first + 1, users[n..], batch)[i - 1];
      RetryShardsFrom(first + 1, users[n..], batch, i - 1, u);
    }
  }

  /** And it goes through exactly when the campaign failed, in whole or in part, and there is a row or a user to retry. */
  lemma RetriedIff(st: Store, pushFailed: seq<string>, batch: nat, outcomes: Option<(int, int)>, now: int)
    requires batch > 0
    ensures RetryMain(st, pushFailed, batch, outcomes, now).Retried? <==>
      && st.db.main.status in {Failed, Partial}
      && ((exists id :: id in st.db.subs && st.db.subs[id].status == Failed)
          || exists u :: u in pushFailed)
  {
    var failed := IdsIn(st.db.subs, {Failed});
    var extra := ExtraUsers(pushFailed, UsersOf(st.db.subs, failed));
    RetryShardsCut(MaxShard(st.db.ResetFailed().subs) + 1, extra, batch);
    FailedRows(st.db.subs);
    if failed == {} {
      assert forall u :: u !in UsersOf(st.db.subs, failed);
      if u :| u in pushFailed { assert u in extra; }
      if extra != [] { assert extra[0] in extra; }
    }
  }

  lemma FailedRows(subs: map<nat, SubTask>)
    ensures |IdsIn(subs, {Failed})| == 0 <==> IdsIn(subs, {Failed}) == {}
    ensures IdsIn(subs, {Failed}) == {} <==> forall id :: id in subs ==> subs[id].status != Failed
  {
    if id :| id in subs && subs[id].status == Failed { assert id in IdsIn(subs, {Failed}); }
  }

  lemma RetryRestoresCounting(st: Store, pushFailed: seq<string>, batch: nat, outcomes: Option<(int, int)>, now: int)
    requires batch > 0
    ensures var r := RetryMain(st, pushFailed, batch, outcomes, now);
      r.Retried? ==>
        && Aligned(r.store)
        && r.store.db.main.status == Running
        && r.store.db.main.version == st.db.main.version + 2
        && IdsIn(r.store.db.subs, {Failed}) == {}
  {
    RetryShardsCut(MaxShard(st.db.ResetFailed().subs) + 1,
                   ExtraUsers(pushFailed, UsersOf(st.db.subs, IdsIn(st.db.subs, {Failed}))), batch);
    ResetLeavesNoFailedRow(st.db, NewShards(st.db, pushFailed, batch));
  }

  predicate Distinct(s: seq<string>) {
    forall i, j :: 0 <= i < j < |s| ==> s[i] != s[j]
  }

  predicate Absent(shards: seq<SubTask>, u: string) {
    forall i :: 0 <= i < |shards| ==> u !in shards[i].users
  }

  /** Shard i holds the user once, and no other shard holds it. */
  ghost predicate PlacedOnce(shards: seq<SubTask>, u: string, i: int) {
    && 0 <= i < |shards|
    && multiset(shards[i].users)[u] == 1
    && (forall j :: 0 <= j < |shards| && j != i ==> u !in shards[j].users)
  }

  /** Each listed failed user is retried in exactly one place: a reset row if it was in a failed one,
      else one new shard; and the new shard numbers go on from the largest. */
  lemma RetryPlacesEveryUser(st: Store, pushFailed: seq<string>, batch: nat, u: string)
    requires batch > 0
    requires u in pushFailed
    requires Distinct(pushFailed)
    ensures var shards := NewShards(st.db, pushFailed, batch);
      var inFailed := u in UsersOf(st.db.subs, IdsIn(st.db.subs, {Failed}));
      && (if inFailed then Absent(shards, u) else exists i :: PlacedOnce(shards, u, i))
      && (forall i :: 0 <= i < |shards| ==> shards[i].shard == MaxShard(st.db.ResetFailed().subs) + 1 + i)
  {
    var failedUsers := UsersOf(st.db.subs, IdsIn(st.db.subs, {Failed}));
    var extra := ExtraUsers(pushFailed, failedUsers);
    var first := MaxShard(st.db.ResetFailed().subs) + 1;
    ExtraUsersDistinct(pushFailed, failedUsers);
    RetryShardsCut(first, extra, batch);
    RetryShardsOnce(first, extra, batch, u);
    assert NewShards(st.db, pushFailed, batch) == RetryShards(first, extra, batch);
    assert u in extra <==> u !in failedUsers;
  }

  lemma {:induction false} ExtraUsersDistinct(pushFailed: seq<string>, inFailedRows: iset<string>)
    requires Distinct(pushFailed)
    ensures Distinct(ExtraUsers(pushFailed, inFailedRows))
  {
    if pushFailed != [] {
      ExtraUsersDistinct(pushFailed[1..], inFailedRows);
      var rest := ExtraUsers(pushFailed[1..], inFailedRows);
      assert pushFailed[0] !in pushFailed[1..];
      assert pushFailed[0] !in rest;
    }
  }

  lemma {:induction false} RetryShardsOnce(first: int, users: seq<string>, batch: nat, u: string)
    requires batch > 0
    requires Distinct(users)
    ensures var r := RetryShards(first, users, batch);
      if u in users then exists i :: PlacedOnce(r, u, i) else Absent(r, u)
    decreases |users|
  {
    if users != [] {
      var n := if batch < |users| then batch else |users|;
      var r := RetryShards(first, users, batch);
      var rest := RetryShards(first + 1, users[n..], batch);
      assert r == [Shard(first, users[..n])] + rest;
      RetryShardsOnce(first + 1, users[n..], batch, u);
      assert users == users[..n] + users[n..];
      if u in users[..n] {
        assert u !in users[n..];
        assert Absent(rest, u);
        DistinctCount(users[..n], u);
        assert PlacedOnce(r, u, 0);
      } else if u in users[n..] {
        var i :| PlacedOnce(rest, u, i);
        assert PlacedOnce(r, u, i + 1);
      }
    }
  }

  lemma {:induction false} DistinctCount(s: seq<string>, u: string)
    requires Distinct(s)
    ensures multiset(s)[u] == if u in s then 1 else 0
  {
    if s != [] {
      DistinctCount(s[1..], u);
      assert s == [s[0]] + s[1..];
      assert s[0] !in s[1..];
    }
  }
}
