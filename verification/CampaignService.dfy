/** The operator actions of the campaign service, over the row repository and the Redis counters. */
module CampaignService {
  import opened Status
  import opened SetSums
  import opened TaskRows
  import opened Aggregation
  import opened Retry
  import opened TaskRepository
  import opened AggregatorService

  datatype Answer = Done(status: TaskStatus) | NotCancelled(status: TaskStatus) | InvalidState
  datatype RetryAnswer = Refused | Nothing | Restarted(resetSubs: nat, newSubs: nat, users: nat)

  lemma MaxShardUnique(subs: map<nat, SubTask>, max: int)
    requires IsMaxShard(subs, max)
    ensures max == MaxShard(subs)
  {
  }

  lemma ResetNothing(db: Db)
    requires IdsIn(db.subs, {Failed}) == {}
    ensures db.ResetFailed() == db
  {
    assert forall id :: id in db.subs ==> id !in IdsIn(db.subs, {Failed});
    assert db.ResetFailed().subs == db.subs;
  }

  lemma ExtraUsersGrow(users: seq<string>, i: nat, failed: iset<string>)
    requires i < |users|
    ensures ExtraUsers(users[..i + 1], failed) == ExtraUsers(users[..i], failed) + (if users[i] in failed then [] else [users[i]])
  {
    assert users[..i + 1] == users[..i] + [users[i]];
    ExtraUsersConcat(users[..i], [users[i]], failed);
    assert ExtraUsers([users[i]], failed) == if users[i] in failed then [] else [users[i]];
  }

  lemma {:induction false} ExtraUsersConcat(a: seq<string>, b: seq<string>, failed: iset<string>)
    ensures ExtraUsers(a + b, failed) == ExtraUsers(a, failed) + ExtraUsers(b, failed)
  {
    if a == [] {
      assert a + b == b;
    } else {
      assert (a + b)[1..] == a[1..] + b;
      ExtraUsersConcat(a[1..], b, failed);
    }
  }

  lemma IdsInGrow(subs: map<nat, SubTask>, seen: set<TaskStatus>, status: TaskStatus)
    requires status !in seen
    ensures var a, b := IdsIn(subs, seen), IdsIn(subs, {status});
      && IdsIn(subs, seen + {status}) == a + b
      && |a + b| == |a| + |b|
      && Sum(a + b, SuccessOf(subs)) == Sum(a, SuccessOf(subs)) + Sum(b, SuccessOf(subs))
      && Sum(a + b, FailOf(subs)) == Sum(a, FailOf(subs)) + Sum(b, FailOf(subs))
  {
    var a, b := IdsIn(subs, seen), IdsIn(subs, {status});
    assert IdsIn(subs, seen + {status}) == a + b;
    assert a !! b;
    SumSplit(a, b, SuccessOf(subs));
    SumSplit(a, b, FailOf(subs));
  }

  ghost function SeenIn(lines: seq<Summary>, counted: set<TaskStatus>): set<TaskStatus> {
    set s | s in counted && HasLine(lines, s)
  }

  lemma SeenGrows(lines: seq<Summary>, k: nat, counted: set<TaskStatus>)
    requires k < |lines| && OneLineEach(lines)
    ensures SeenIn(lines[..k + 1], counted) == SeenIn(lines[..k], counted) + (if lines[k].status in counted then {lines[k].status} else {})
    ensures lines[k].status !in SeenIn(lines[..k], counted)
  {
    forall s ensures HasLine(lines[..k + 1], s) <==> HasLine(lines[..k], s) || s == lines[k].status {
      if HasLine(lines[..k], s) {
        var i :| 0 <= i < k && lines[..k][i].status == s;
        assert lines[..k + 1][i].status == s;
      }
      assert lines[..k + 1][k] == lines[k];
      if HasLine(lines[..k + 1], s) && s != lines[k].status {
        var i :| 0 <= i < k + 1 && lines[..k + 1][i].status == s;
        assert lines[..k][i].status == s;
      }
    }
    assert forall i :: 0 <= i < k ==> lines[..k][i].status != lines[k].status;
  }

  /** Count and user sums of the rows in some statuses. */
  ghost function Tally(subs: map<nat, SubTask>, statuses: set<TaskStatus>): (int, int, int) {
    var ids := IdsIn(subs, statuses);
    (|ids|, Sum(ids, SuccessOf(subs)), Sum(ids, FailOf(subs)))
  }

  lemma TallyGrows(subs: map<nat, SubTask>, seen: set<TaskStatus>, line: Summary)
    requires line.status !in seen && LineOk(line, subs)
    ensures var t, t' := Tally(subs, seen), Tally(subs, seen + {line.status});
      t' == (t.0 + line.subCount, t.1 + line.userSuccess, t.2 + line.userFail)
  {
    IdsInGrow(subs, seen, line.status);
  }

  lemma TallyStep(subs: map<nat, SubTask>, seen: set<TaskStatus>, seen': set<TaskStatus>, line: Summary, here: bool)
    requires line.status !in seen && LineOk(line, subs)
    requires seen' == seen + (if here then {line.status} else {})
    ensures var t, t' := Tally(subs, seen), Tally(subs, seen');
      t' == if here then (t.0 + line.subCount, t.1 + line.userSuccess, t.2 + line.userFail) else t
  {
    if here {
      TallyGrows(subs, seen, line);
    } else {
      assert seen' == seen;
    }
  }

  /** Adding line `k` to a count over the statuses in `counted`. */
  lemma LineCounts(lines: seq<Summary>, subs: map<nat, SubTask>, k: nat, counted: set<TaskStatus>)
    requires k < |lines| && OneLineEach(lines) && LineOk(lines[k], subs)
    ensures var t, t' := Tally(subs, SeenIn(lines[..k], counted)), Tally(subs, SeenIn(lines[..k + 1], counted));
      t' == if lines[k].status in counted
            then (t.0 + lines[k].subCount, t.1 + lines[k].userSuccess, t.2 + lines[k].userFail)
            else t
  {
    SeenGrows(lines, k, counted);
    var seen := SeenIn(lines[..k], counted);
    TallyStep(subs, seen, SeenIn(lines[..k + 1], counted), lines[k], lines[k].status in counted);
  }

  lemma AllSeen(lines: seq<Summary>, subs: map<nat, SubTask>, counted: set<TaskStatus>)
    requires Summarizes(lines, subs)
    ensures Tally(subs, SeenIn(lines[..|lines|], counted)) == Tally(subs, counted)
    ensures Tally(subs, SeenIn(lines[..0], counted)) == (0, 0, 0)
  {
    assert lines[..|lines|] == lines;
    assert IdsIn(subs, SeenIn(lines, counted)) == IdsIn(subs, counted);
    assert IdsIn(subs, SeenIn(lines[..0], counted)) == {};
  }

  const ANY: set<TaskStatus> := {Draft, Pending, Running, Paused, Success, Partial, Failed, Cancelled, Retrying}
  const SUCCEEDED: set<TaskStatus> := {Success, Cancelled, Partial}
  const FAILING: set<TaskStatus> := {Failed, Cancelled, Partial}

  lemma AnyStatus(status: TaskStatus)
    ensures status in ANY
  {
    match status
    case Draft => case Pending => case Running => case Paused => case Success =>
    case Partial => case Failed => case Cancelled => case Retrying =>
  }

  /** What the first `k` summary lines add up to. */
  ghost predicate AddedUp(lines: seq<Summary>, subs: map<nat, SubTask>, k: nat, success: int, fail: int, done: int, total: int)
    requires k <= |lines|
  {
    && success == Tally(subs, SeenIn(lines[..k], SUCCEEDED)).1
    && fail == Tally(subs, SeenIn(lines[..k], FAILING)).2
    && done == Tally(subs, SeenIn(lines[..k], COUNTED)).0
    && total == Tally(subs, SeenIn(lines[..k], ANY)).0
  }

  lemma AddedNone(lines: seq<Summary>, subs: map<nat, SubTask>)
    requires Summarizes(lines, subs)
    ensures AddedUp(lines, subs, 0, 0, 0, 0, 0)
  {
    AllSeen(lines, subs, SUCCEEDED);
    AllSeen(lines, subs, FAILING);
    AllSeen(lines, subs, COUNTED);
    AllSeen(lines, subs, ANY);
  }

  lemma AddedAll(lines: seq<Summary>, subs: map<nat, SubTask>, success: int, fail: int, done: int, total: int)
    requires Summarizes(lines, subs) && AddedUp(lines, subs, |lines|, success, fail, done, total)
    ensures success == PipelineSuccess(subs) && fail == PipelineFail(subs)
    ensures done == |DoneIds(subs)| && total == |subs|
  {
    AllSeen(lines, subs, SUCCEEDED);
    AllSeen(lines, subs, FAILING);
    AllSeen(lines, subs, COUNTED);
    AllSeen(lines, subs, ANY);
    forall id | id in subs ensures subs[id].status in ANY { AnyStatus(subs[id].status); }
    assert IdsIn(subs, ANY) == subs.Keys;
    assert |subs.Keys| == |subs|;
  }

  /** The same for any four sets of statuses. */
  lemma NextTallies(lines: seq<Summary>, subs: map<nat, SubTask>, k: nat, a: set<TaskStatus>, b: set<TaskStatus>,
                    c: set<TaskStatus>, d: set<TaskStatus>)
    requires Summarizes(lines, subs) && k < |lines|
    ensures var s, l := lines[k].status, lines[k];
      var before, after := lines[..k], lines[..k + 1];
      && Tally(subs, SeenIn(after, a)).1 == Tally(subs, SeenIn(before, a)).1 + (if s in a then l.userSuccess else 0)
      && Tally(subs, SeenIn(after, b)).2 == Tally(subs, SeenIn(before, b)).2 + (if s in b then l.userFail else 0)
      && Tally(subs, SeenIn(after, c)).0 == Tally(subs, SeenIn(before, c)).0 + (if s in c then l.subCount else 0)
      && Tally(subs, SeenIn(after, d)).0 == Tally(subs, SeenIn(before, d)).0 + (if s in d then l.subCount else 0)
  {
    LineCounts(lines, subs, k, a);
    LineCounts(lines, subs, k, b);
    LineCounts(lines, subs, k, c);
    LineCounts(lines, subs, k, d);
  }

  lemma AddedNext(lines: seq<Summary>, subs: map<nat, SubTask>, k: nat, success: int, fail: int, done: int, total: int)
    requires Summarizes(lines, subs) && k < |lines| && AddedUp(lines, subs, k, success, fail, done, total)
    ensures var s, l := lines[k].status, lines[k];
      AddedUp(lines, subs, k + 1,
              success + (if s in SUCCEEDED then l.userSuccess else 0),
              fail + (if s in FAILING then l.userFail else 0),
              done + (if s in COUNTED then l.subCount else 0), total + l.subCount)
  {
    NextTallies(lines, subs, k, SUCCEEDED, FAILING, COUNTED, ANY);
    AnyStatus(lines[k].status);
  }

  /** The shards of the users from `i` on. */
  function ShardsFrom(shard: int, users: seq<string>, i: nat, batch: nat): seq<SubTask>
    requires batch > 0
  {
    if i < |users| then RetryShards(shard, users[i..], batch) else []
  }

  /** The shards cut so far and those still to come are all there are. */
  predicate CutSoFar(shards: seq<SubTask>, shard: int, users: seq<string>, i: nat, batch: nat, all: seq<SubTask>)
    requires batch > 0
  {
    shards + ShardsFrom(shard, users, i, batch) == all
  }

  lemma NoneCut(first: int, users: seq<string>, batch: nat)
    requires batch > 0
    ensures CutSoFar([], first, users, 0, batch, RetryShards(first, users, batch))
  {
    assert users[0..] == users;
  }

  lemma AllCut(shards: seq<SubTask>, shard: int, users: seq<string>, i: nat, batch: nat, all: seq<SubTask>)
    requires batch > 0 && i >= |users| && CutSoFar(shards, shard, users, i, batch, all)
    ensures shards == all
  {
  }

  /** One more shard cut off. */
  lemma ShardCut(shards: seq<SubTask>, shard: int, users: seq<string>, i: nat, batch: nat, all: seq<SubTask>)
    requires batch > 0 && i < |users| && CutSoFar(shards, shard, users, i, batch, all)
    ensures var end := if i + batch > |users| then |users| else i + batch;
      CutSoFar(shards + [Shard(shard, users[i..end])], shard + 1, users, i + batch, batch, all)
  {
    var end := if i + batch > |users| then |users| else i + batch;
    var rest := ShardsFrom(shard + 1, users, i + batch, batch);
    assert users[i..][..end - i] == users[i..end] && users[i..][end - i..] == users[end..];
    assert RetryShards(shard, users[i..], batch) == [Shard(shard, users[i..][..end - i])] + RetryShards(shard + 1, users[i..][end - i..], batch);
    assert users[|users|..] == [];
    assert shards + ([Shard(shard, users[i..end])] + rest) == shards + [Shard(shard, users[i..end])] + rest;
  }

  predicate InOneOf(subs: map<nat, SubTask>, ids: seq<nat>, u: string) {
    exists id :: id in ids && id in subs && u in subs[id].users
  }

  ghost predicate Lists(users: set<string>, all: iset<string>) {
    forall u :: u in users <==> u in all
  }

  /** The users retried: those of failed rows, and those failed at the provider only. */
  ghost predicate CountsRetried(db: Db, pushFailed: seq<string>, n: int) {
    var inFailed := UsersOf(db.subs, IdsIn(db.subs, {Failed}));
    exists users: set<string> :: Lists(users, inFailed) && n == |users| + |ExtraUsers(pushFailed, inFailed)|
  }

  class Service {
    const tasks: TaskRepo
    const cache: CounterCache
    const batchSize: nat

    constructor (repo: TaskRepo, counters: CounterCache, batch: nat)
      ensures tasks == repo && cache == counters && batchSize == batch
    {
      tasks, cache, batchSize := repo, counters, batch;
    }

    function State(): Store
      reads tasks, cache
    {
      Store(tasks.State(), cache.State())
    }

    method Cancel(now: int) returns (answer: Answer)
      modifies tasks
      ensures var before := old(State());
        var r := before.db.CancelMain(now);
        && cache.State() == before.redis
        && tasks.State() == (if r.ok then r.db.CancelUnfinished() else before.db)
        && (answer.Done? <==> before.db.main.status.IsCancellable())
        && (answer.NotCancelled? ==> answer.status == before.db.main.status)
        && (tasks.main.status == Cancelled ==> forall id :: id in tasks.subs && r.ok ==> tasks.subs[id].status !in {Pending, Running, Retrying})
    {
      if tasks.main.status.IsTerminal() {
        return NotCancelled(tasks.main.status);
      }
      var ok := tasks.CancelMainTask(now);
      if !ok {
        return NotCancelled(tasks.main.status);
      }
      tasks.CancelUnfinishedSubTasks();
      answer := Done(Cancelled);
    }

    method Pause(now: int) returns (answer: Answer)
      modifies tasks
      ensures tasks.State() == old(tasks.State()).PauseMain(now).db
      ensures answer == if old(tasks.main).status.IsPausable() then Done(Paused) else InvalidState
    {
      if !tasks.main.status.IsPausable() {
        return InvalidState;
      }
      var ok := tasks.PauseMainTask(now);
      answer := if ok then Done(Paused) else InvalidState;
    }

    method Resume(now: int) returns (answer: Answer)
      modifies tasks
      ensures tasks.State() == old(tasks.State()).ResumeMain(old(tasks.main).subTotal > 0, now).db
      ensures answer == if old(tasks.main).status == Paused then Done(tasks.main.status) else InvalidState
    {
      if !tasks.main.status.IsResumable() {
        return InvalidState;
      }
      var hasSubs := tasks.main.subTotal > 0;
      var ok := tasks.ResumeMainTask(hasSubs, now);
      if !ok {
        return InvalidState;
      }
      var status := Pending;
      if hasSubs {
        status := Running;
      }
      answer := Done(status);
    }

    /** Shards of at most `batchSize` users, numbered on from the largest. */
    method BuildRetryShards(users: seq<string>) returns (shards: seq<SubTask>)
      requires batchSize > 0
      ensures shards == RetryShards(MaxShard(tasks.subs) + 1, users, batchSize)
    {
      var maxIdx := tasks.MaxShardIndex();
      MaxShardUnique(tasks.subs, maxIdx);
      var shard := maxIdx + 1;
      shards := [];
      var i := 0;
      NoneCut(shard, users, batchSize);
      while i < |users|
        invariant 0 <= i && CutSoFar(shards, shard, users, i, batchSize, RetryShards(maxIdx + 1, users, batchSize))
      {
        ShardCut(shards, shard, users, i, batchSize, RetryShards(maxIdx + 1, users, batchSize));
        var end := if i + batchSize > |users| then |users| else i + batchSize;
        shards, shard := shards + [Shard(shard, users[i..end])], shard + 1;
        i := i + batchSize;
      }
      AllCut(shards, shard, users, i, batchSize, RetryShards(maxIdx + 1, users, batchSize));
    }

    /** One line of the summary; which totals it counts in depends on its status. */
    static method AddLine(line: Summary, success: int, fail: int, done: int, total: int)
      returns (pipeSucc: int, pipeFail: int, done': int, total': int)
      ensures pipeSucc == success + (if line.status in SUCCEEDED then line.userSuccess else 0)
      ensures pipeFail == fail + (if line.status in FAILING then line.userFail else 0)
      ensures done' == done + (if line.status in COUNTED then line.subCount else 0)
      ensures total' == total + line.subCount
    {
      pipeSucc, pipeFail, done', total' := success, fail, done, total + line.subCount;
      match line.status {
        case Success =>
          done', pipeSucc := done' + line.subCount, pipeSucc + line.userSuccess;
        case Failed =>
          done', pipeFail := done' + line.subCount, pipeFail + line.userFail;
        case Cancelled | Partial =>
          done', pipeSucc, pipeFail := done' + line.subCount, pipeSucc + line.userSuccess, pipeFail + line.userFail;
        case _ =>
      }
    }

    /** The pipeline totals of the rows, from the per-status summary. */
    method SumRows() returns (pipeSucc: int, pipeFail: int, done: int, total: int)
      ensures pipeSucc == PipelineSuccess(tasks.subs) && pipeFail == PipelineFail(tasks.subs)
      ensures done == |DoneIds(tasks.subs)| && total == |tasks.subs|
    {
      var lines := tasks.SummarizeSubTasks();
      pipeSucc, pipeFail, done, total := 0, 0, 0, 0;
      AddedNone(lines, tasks.subs);
      for k := 0 to |lines|
        invariant AddedUp(lines, tasks.subs, k, pipeSucc, pipeFail, done, total)
      {
        AddedNext(lines, tasks.subs, k, pipeSucc, pipeFail, done, total);
        pipeSucc, pipeFail, done, total := AddLine(lines[k], pipeSucc, pipeFail, done, total);
      }
      AddedAll(lines, tasks.subs, pipeSucc, pipeFail, done, total);
    }

    /** Every counter recomputed from the rows. */
    method RealignCounters(outcomes: Option<(int, int)>, now: int)
      modifies tasks, cache
      ensures State() == Realign(old(State()), outcomes, now)
    {
      var pipeSucc, pipeFail, done, total := SumRows();
      var userSucc, userFail := pipeSucc, pipeFail;
      if outcomes.Some? {
        userSucc, userFail := outcomes.value.0, outcomes.value.1;
      }
      tasks.SyncMainCounters(userSucc, userFail, done, total, now);
      cache.SetSubDone(pipeSucc, pipeFail, done);
    }

    /** The users of every failed row. */
    method FailedRowUsers() returns (users: set<string>)
      ensures Lists(users, UsersOf(tasks.subs, IdsIn(tasks.subs, {Failed})))
    {
      var failed := tasks.ListSubTasksByStatus(Failed);
      users := {};
      for i := 0 to |failed|
        invariant forall u :: u in users <==> InOneOf(tasks.subs, failed[..i], u)
      {
        assert failed[i] in failed;
        assert failed[..i + 1] == failed[..i] + [failed[i]];
        var row := tasks.subs[failed[i]];
        users := users + set u | u in row.users;
      }
      assert failed[..|failed|] == failed;
    }

    /** The listed users that are in no failed row, in order. */
    static method UsersOutside(pushFailed: seq<string>, inFailedSubs: set<string>, ghost failedUsers: iset<string>)
      returns (extra: seq<string>)
      requires Lists(inFailedSubs, failedUsers)
      ensures extra == ExtraUsers(pushFailed, failedUsers)
    {
      extra := [];
      for i := 0 to |pushFailed|
        invariant extra == ExtraUsers(pushFailed[..i], failedUsers)
      {
        ExtraUsersGrow(pushFailed, i, failedUsers);
        if pushFailed[i] !in inFailedSubs {
          extra := extra + [pushFailed[i]];
        }
      }
      assert pushFailed[..|pushFailed|] == pushFailed;
    }

    method Retry(pushFailed: seq<string>, outcomes: Option<(int, int)>, now: int) returns (answer: RetryAnswer)
      requires batchSize > 0
      modifies tasks, cache
      ensures match RetryMain(old(State()), pushFailed, batchSize, outcomes, now)
        case NotRetryable => answer == Refused && State() == old(State())
        case NothingToRetry => answer == Nothing && State() == old(State())
        case Retried(store, reset, added) =>
          && answer.Restarted? && answer.resetSubs == reset && answer.newSubs == added && State() == store
          && CountsRetried(old(tasks.State()), pushFailed, answer.users)
    {
      if !tasks.main.status.IsRetryable() {
        return Refused;
      }
      ghost var before := State();
      ghost var failedUsers := UsersOf(tasks.subs, IdsIn(tasks.subs, {Failed}));
      var inFailedSubs := FailedRowUsers();
      var extra := UsersOutside(pushFailed, inFailedSubs, failedUsers);
      var resetN := tasks.ResetFailedSubTasks();
      var shards := [];
      if |extra| > 0 {
        shards := BuildRetryShards(extra);
      }
      assert tasks.State() == before.db.ResetFailed();
      assert shards == NewShards(before.db, pushFailed, batchSize);
      tasks.CreateSubTasks(shards);
      if resetN == 0 && |shards| == 0 {
        ResetNothing(before.db);
        assert tasks.subs == before.db.subs by { NoRows(before.db); }
        return Nothing;
      }
      var reopened := tasks.ReopenMainTask(|shards|, now);
      assert reopened;
      RealignCounters(outcomes, now);
      answer := Restarted(resetN, |shards|, |inFailedSubs| + |extra|);
    }
  }

  lemma NoRows(db: Db)
    ensures db.CreateSubTasks([]) == db
  {
    assert db.CreateSubTasks([]).subs == db.subs;
  }
}
