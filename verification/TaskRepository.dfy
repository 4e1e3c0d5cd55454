/** The repository of one campaign: its rows, changed in place by guarded statements. Every method is
    one statement or one transaction; its contract is the statement of the same name in TaskRows. */
module TaskRepository {
  import opened Status
  import opened SetSums
  import opened TaskRows
  import opened Retry

  /** One line of the per-status summary of the sub-tasks. */
  datatype Summary = Summary(status: TaskStatus, subCount: int, userSuccess: int, userFail: int)

  const STATUSES: seq<TaskStatus> :=
    [Draft, Pending, Running, Paused, Success, Partial, Failed, Cancelled, Retrying]

  /** What the summary says of the rows: one line for each status some row has, with its count and sums. */
  ghost predicate Summarizes(lines: seq<Summary>, subs: map<nat, SubTask>) {
    && OneLineEach(lines)
    && (forall i :: 0 <= i < |lines| ==> LineOk(lines[i], subs))
    && (forall id :: id in subs ==> HasLine(lines, subs[id].status))
  }

  predicate OneLineEach(lines: seq<Summary>) {
    forall i, j :: 0 <= i < j < |lines| ==> lines[i].status != lines[j].status
  }

  ghost predicate LineOk(line: Summary, subs: map<nat, SubTask>) {
    && line.subCount == |IdsIn(subs, {line.status})|
    && line.userSuccess == Sum(IdsIn(subs, {line.status}), SuccessOf(subs))
    && line.userFail == Sum(IdsIn(subs, {line.status}), FailOf(subs))
  }

  /** The rows of `all` but for those left, counted and summed. */
  ghost predicate Summed(subs: map<nat, SubTask>, all: set<nat>, left: set<nat>, count: int, success: int, fail: int) {
    && all <= subs.Keys && left <= all
    && count == |all| - |left|
    && success + Sum(left, SuccessOf(subs)) == Sum(all, SuccessOf(subs))
    && fail + Sum(left, FailOf(subs)) == Sum(all, FailOf(subs))
  }

  lemma SummedOne(subs: map<nat, SubTask>, all: set<nat>, left: set<nat>, count: int, success: int, fail: int, id: nat)
    requires Summed(subs, all, left, count, success, fail) && id in left
    ensures Summed(subs, all, left - {id}, count + 1, success + subs[id].success, fail + subs[id].fail)
  {
    SumTakeOut(left, SuccessOf(subs), id);
    SumTakeOut(left, FailOf(subs), id);
  }

  /** A row of a running campaign nobody is splitting that waits, or that was claimed before the deadline. */
  predicate MayBeClaimed(main: MainTask, row: SubTask, deadline: int) {
    && main.status == Running && main.owner == ""
    && (|| row.status == Pending || row.status == Retrying
        || (row.status == Running && row.claimedAt.Some? && row.claimedAt.value < deadline))
  }

  class TaskRepo {
    var main: MainTask
    var subs: map<nat, SubTask>
    var nextId: nat

    function State(): Db
      reads this
    {
      Db(main, subs, nextId)
    }

    constructor (task: MainTask)
      ensures State() == Db(task, map[], 1)
    {
      main, subs, nextId := task, map[], 1;
    }

    method MarkMainTaskRunning(worker: string, now: int) returns (ok: bool)
      modifies this
      ensures Reply(State(), ok) == old(State()).MarkRunning(worker, now)
    {
      ok := main.status == Pending;
      if ok {
        main := main.(status := Running, owner := worker, leaseAt := Some(now), updatedAt := now);
      }
    }

    method RenewSplitLease(worker: string, now: int) returns (ok: bool)
      modifies this
      ensures Reply(State(), ok) == old(State()).RenewSplitLease(worker, now)
    {
      ok := main.status == Running && main.owner == worker;
      if ok {
        main := main.(leaseAt := Some(now), updatedAt := now);
      }
    }

    method ClearSplitLease(now: int)
      modifies this
      ensures State() == old(State()).ClearSplitLease(now)
    {
      main := main.(owner := "", leaseAt := None, updatedAt := now);
    }

    /** Under the row lock: read, test, then the guarded update. */
    method ClaimStaleSplitMainTask(worker: string, now: int, leaseTimeoutSec: int) returns (claimed: bool)
      modifies this
      ensures Reply(State(), claimed) == old(State()).ClaimStaleSplit(worker, now, leaseTimeoutSec)
    {
      var deadline := now - (if leaseTimeoutSec <= 0 then 90 else leaseTimeoutSec);
      if main.status != Running || main.owner == "" {
        return false;
      }
      if main.leaseAt.Some? && main.leaseAt.value >= deadline {
        return false;
      }
      main := main.(owner := worker, leaseAt := Some(now), subTotal := 0, totalCount := 0, updatedAt := now);
      return true;
    }

    method CancelMainTask(now: int) returns (ok: bool)
      modifies this
      ensures Reply(State(), ok) == old(State()).CancelMain(now)
    {
      ok := main.status in {Pending, Running, Paused, Retrying};
      if ok {
        main := main.(status := Cancelled, version := main.version + 1, updatedAt := now);
      }
    }

    method PauseMainTask(now: int) returns (ok: bool)
      modifies this
      ensures Reply(State(), ok) == old(State()).PauseMain(now)
    {
      ok := main.status in {Pending, Running, Retrying};
      if ok {
        main := main.(status := Paused, version := main.version + 1, updatedAt := now);
      }
    }

    method ResumeMainTask(hasSubTasks: bool, now: int) returns (ok: bool)
      modifies this
      ensures Reply(State(), ok) == old(State()).ResumeMain(hasSubTasks, now)
    {
      var next := Pending;
      if hasSubTasks {
        next := Running;
      }
      ok := main.status == Paused;
      if ok {
        main := main.(status := next, version := main.version + 1, updatedAt := now);
      }
    }

    method ReopenMainTask(addSubTasks: int, now: int) returns (ok: bool)
      modifies this
      ensures Reply(State(), ok) == old(State()).ReopenMain(addSubTasks, now)
    {
      ok := main.status in {Failed, Partial};
      if ok {
        main := main.(status := Running, version := main.version + 1, updatedAt := now);
        if addSubTasks > 0 {
          main := main.(subTotal := main.subTotal + addSubTasks);
        }
      }
    }

    /** Increments first, then the status: two statements, with nothing in between here. */
    method UpdateMainTaskStats(version: int, success: int, fail: int, subDone: int, status: TaskStatus, now: int) returns (ok: bool)
      modifies this
      ensures Reply(State(), ok) == old(State()).UpdateMainStats(version, success, fail, subDone, status, now)
    {
      if success != 0 || fail != 0 || subDone != 0 {
        main := main.(successCount := main.successCount + success, failCount := main.failCount + fail,
                      subDone := main.subDone + subDone, updatedAt := now);
      }
      if !status.IsTerminal() {
        if status == Running && main.status in {Pending, Running, Retrying} {
          main := main.(status := Running, updatedAt := now);
        }
        return true;
      }
      ok := main.version == version && main.status !in {Success, Partial, Failed, Cancelled, Paused};
      if ok {
        main := main.(status := status, version := version + 1, updatedAt := now);
      }
    }

    method PatchMainMeta(total: int, subTotal: int, now: int)
      modifies this
      ensures State() == old(State()).PatchMainMeta(total, subTotal, now)
    {
      if main.status !in {Cancelled, Paused, Success, Partial, Failed} {
        main := main.(totalCount := total, subTotal := subTotal, updatedAt := now);
      }
    }

    method SyncMainUserCounts(success: int, fail: int, now: int)
      modifies this
      ensures State() == old(State()).SyncUserCounts(success, fail, now)
    {
      main := main.(successCount := success, failCount := fail, updatedAt := now);
    }

    method SyncMainCounters(success: int, fail: int, subDone: int, subTotal: int, now: int)
      modifies this
      ensures State() == old(State()).SyncMainCounters(success, fail, subDone, subTotal, now)
    {
      main := main.(successCount := success, failCount := fail, subDone := subDone,
                    version := main.version + 1, updatedAt := now);
      if subTotal >= 0 {
        main := main.(subTotal := subTotal);
      }
    }

    /** INSERT, row by row; each row takes the next id. */
    method CreateSubTasks(batch: seq<SubTask>)
      modifies this
      ensures State() == old(State()).CreateSubTasks(batch)
    {
      ghost var before := State();
      InsertedNone(before);
      for i := 0 to |batch|
        invariant State() == before.CreateSubTasks(batch[..i])
      {
        InsertedOne(before, batch, i);
        subs, nextId := subs[nextId := batch[i]], nextId + 1;
      }
      assert batch[..|batch|] == batch;
    }

    method CreateSubTasksWithLease(worker: string, batch: seq<SubTask>, now: int) returns (ok: bool)
      modifies this
      ensures Reply(State(), ok) == old(State()).CreateSubTasksWithLease(worker, batch, now)
    {
      if |batch| == 0 {
        return true;
      }
      if worker == "" {
        CreateSubTasks(batch);
        return true;
      }
      ok := RenewSplitLease(worker, now);
      if ok {
        CreateSubTasks(batch);
      }
    }

    method DeleteSubTasksByMainTask() returns (deleted: nat)
      modifies this
      ensures State() == old(State()).DeleteSubTasks() && deleted == |old(subs)|
    {
      deleted := |subs|;
      subs := map[];
    }

    /** The claimable row with the smallest id among those no other transaction has locked, if any. */
    method ClaimSubTask(worker: string, locked: set<nat>, now: int, claimTimeoutSec: int) returns (claimed: Option<nat>)
      modifies this
      ensures claimed.None? ==> State() == old(State())
      ensures claimed.Some? ==> Reply(State(), true) == old(State()).ClaimSubTask(claimed.value, worker, now, claimTimeoutSec)
      ensures claimed.Some? ==>
        && claimed.value in old(subs) && claimed.value !in locked
        && MayBeClaimed(old(main), old(subs)[claimed.value], now - claimTimeoutSec)
        && subs == old(subs)[claimed.value := old(subs)[claimed.value].(status := Running, worker := worker, claimedAt := Some(now))]
      ensures forall id :: id in old(subs) && id !in locked && MayBeClaimed(old(main), old(subs)[id], now - claimTimeoutSec)
                ==> claimed.Some? && claimed.value <= id
    {
      claimed := None;
      var left := subs.Keys;
      while left != {}
        invariant left <= subs.Keys && State() == old(State())
        invariant claimed.Some? ==> claimed.value in subs && claimed.value !in locked && State().Claimable(claimed.value, now, claimTimeoutSec)
        invariant forall id :: id in subs && id !in left && id !in locked && State().Claimable(id, now, claimTimeoutSec)
                    ==> claimed.Some? && claimed.value <= id
        decreases |left|
      {
        var id :| id in left;
        left := left - {id};
        if id !in locked && State().Claimable(id, now, claimTimeoutSec) && (claimed.None? || id < claimed.value) {
          claimed := Some(id);
        }
      }
      if claimed.Some? {
        var id := claimed.value;
        subs := subs[id := subs[id].(status := Running, worker := worker, claimedAt := Some(now))];
      }
    }

    method CancelUnfinishedSubTasks()
      modifies this
      ensures State() == old(State()).CancelUnfinished()
    {
      subs := map id | id in subs ::
        if subs[id].status in {Pending, Running, Retrying} then subs[id].(status := Cancelled) else subs[id];
    }

    method ReleaseSubTask(id: nat)
      modifies this
      ensures State() == old(State()).ReleaseSubTask(id)
    {
      if id in subs && subs[id].status == Running {
        subs := subs[id := subs[id].(status := Pending, worker := "", claimedAt := None)];
      }
    }

    method RenewSubTaskClaim(id: nat, worker: string, now: int) returns (ok: bool)
      modifies this
      ensures Reply(State(), ok) == old(State()).RenewSubTaskClaim(id, worker, now)
    {
      ok := id in subs && subs[id].worker == worker && subs[id].status == Running;
      if ok {
        subs := subs[id := subs[id].(claimedAt := Some(now))];
      }
    }

    method UpdateSubTaskResult(id: nat, worker: string, success: int, fail: int, status: TaskStatus) returns (ok: bool)
      modifies this
      ensures Reply(State(), ok) == old(State()).UpdateSubTaskResult(id, worker, success, fail, status)
    {
      ok := id in subs && subs[id].worker == worker && subs[id].status in {Running, Retrying};
      if ok {
        subs := subs[id := subs[id].(success := success, fail := fail, status := status)];
      }
    }

    method ResetFailedSubTasks() returns (reset: nat)
      modifies this
      ensures State() == old(State()).ResetFailed() && reset == |IdsIn(old(subs), {Failed})|
    {
      reset := |set id | id in subs && subs[id].status == Failed|;
      assert (set id | id in subs && subs[id].status == Failed) == IdsIn(subs, {Failed});
      subs := map id | id in subs ::
        if subs[id].status == Failed
        then subs[id].(status := Pending, success := 0, fail := 0, worker := "", claimedAt := None,
                       retries := subs[id].retries + 1)
        else subs[id];
    }

    /** The largest shard number, -1 when there is no row. */
    method MaxShardIndex() returns (max: int)
      ensures IsMaxShard(subs, max)
    {
      if subs == map[] {
        return -1;
      }
      var first :| first in subs;
      var left := subs.Keys - {first};
      max := subs[first].shard;
      while left != {}
        invariant left <= subs.Keys
        invariant exists id :: id in subs && subs[id].shard == max
        invariant forall id :: id in subs && id !in left ==> subs[id].shard <= max
        decreases |left|
      {
        var id :| id in left;
        left := left - {id};
        if subs[id].shard > max {
          max := subs[id].shard;
        }
      }
    }

    /** The ids of the rows in one status, each once, in no particular order. */
    method ListSubTasksByStatus(status: TaskStatus) returns (ids: seq<nat>)
      ensures forall id :: id in ids <==> id in IdsIn(subs, {status})
    {
      ids := [];
      var left := subs.Keys;
      while left != {}
        invariant left <= subs.Keys
        invariant forall id :: id in ids <==> id in subs && id !in left && subs[id].status == status
        decreases |left|
      {
        var id :| id in left;
        left := left - {id};
        if subs[id].status == status {
          ids := ids + [id];
        }
      }
    }

    /** Count and user sums of the rows in one status. */
    method SummarizeStatus(status: TaskStatus) returns (line: Summary)
      ensures line.status == status && LineOk(line, subs)
    {
      var count, success, fail := 0, 0, 0;
      var left := set id | id in subs && subs[id].status == status;
      assert left == IdsIn(subs, {status});
      ghost var all := left;
      while left != {}
        invariant left <= all && Summed(subs, all, left, count, success, fail)
        decreases |left|
      {
        var id :| id in left;
        SummedOne(subs, all, left, count, success, fail, id);
        count, success, fail := count + 1, success + subs[id].success, fail + subs[id].fail;
        left := left - {id};
      }
      line := Summary(status, count, success, fail);
    }

    /** GROUP BY status: one line for each status that some row has. */
    method SummarizeSubTasks() returns (lines: seq<Summary>)
      ensures Summarizes(lines, subs)
    {
      lines := [];
      for k := 0 to |STATUSES|
        invariant SummarizedTo(lines, subs, k)
      {
        var line := SummarizeStatus(STATUSES[k]);
        SummaryGrows(lines, subs, k, line);
        if line.subCount > 0 {
          lines := lines + [line];
        }
      }
      forall id | id in subs ensures subs[id].status in STATUSES[..|STATUSES|] {
        AllStatuses(subs[id].status);
      }
    }
  }

  lemma InsertedNone(db: Db)
    ensures db.CreateSubTasks([]) == db
  {
    assert db.CreateSubTasks([]).subs == db.subs;
  }

  function NewRows(first: nat, batch: seq<SubTask>): map<nat, SubTask> {
    map id | id in NewIds(first, |batch|) :: batch[id - first]
  }

  lemma NewRowsGrow(first: nat, batch: seq<SubTask>, row: SubTask)
    ensures NewRows(first, batch + [row]) == NewRows(first, batch)[first + |batch| := row]
  {
  }

  lemma InsertedOne(db: Db, batch: seq<SubTask>, i: nat)
    requires i < |batch|
    ensures var before := db.CreateSubTasks(batch[..i]);
      db.CreateSubTasks(batch[..i + 1]) == Db(before.main, before.subs[before.nextId := batch[i]], before.nextId + 1)
  {
    var rows, row := batch[..i], batch[i];
    assert batch[..i + 1] == rows + [row];
    NewRowsGrow(db.nextId, rows, row);
    Appended(db.subs, NewRows(db.nextId, rows), db.nextId + i, row);
    assert db.CreateSubTasks(rows + [row]).subs == db.subs + NewRows(db.nextId, rows + [row]);
  }

  lemma Appended(subs: map<nat, SubTask>, more: map<nat, SubTask>, id: nat, row: SubTask)
    ensures subs + more[id := row] == (subs + more)[id := row]
  {
  }

  predicate HasLine(lines: seq<Summary>, status: TaskStatus) {
    exists i :: 0 <= i < |lines| && lines[i].status == status
  }

  /** The summary of the rows whose status is among the first `k`. */
  ghost predicate SummarizedTo(lines: seq<Summary>, subs: map<nat, SubTask>, k: nat)
    requires k <= |STATUSES|
  {
    && (forall i, j :: 0 <= i < j < |lines| ==> lines[i].status != lines[j].status)
    && (forall i :: 0 <= i < |lines| ==> LineOk(lines[i], subs) && lines[i].status in STATUSES[..k])
    && (forall id :: id in subs && subs[id].status in STATUSES[..k] ==> HasLine(lines, subs[id].status))
  }

  lemma StatusesDistinct(k: nat)
    requires k < |STATUSES|
    ensures STATUSES[k] !in STATUSES[..k]
    ensures forall s :: s in STATUSES[..k + 1] <==> s in STATUSES[..k] || s == STATUSES[k]
  {
    assert STATUSES[..k + 1] == STATUSES[..k] + [STATUSES[k]];
  }

  lemma SummaryGrows(lines: seq<Summary>, subs: map<nat, SubTask>, k: nat, line: Summary)
    requires k < |STATUSES| && SummarizedTo(lines, subs, k)
    requires LineOk(line, subs) && line.status == STATUSES[k]
    ensures SummarizedTo(if line.subCount > 0 then lines + [line] else lines, subs, k + 1)
  {
    StatusesDistinct(k);
    var after := if line.subCount > 0 then lines + [line] else lines;
    forall id | id in subs && subs[id].status in STATUSES[..k + 1] ensures HasLine(after, subs[id].status) {
      if subs[id].status == STATUSES[k] {
        assert id in IdsIn(subs, {STATUSES[k]});
        assert after[|after| - 1].status == STATUSES[k];
      } else {
        var i :| 0 <= i < |lines| && lines[i].status == subs[id].status;
        assert after[i] == lines[i];
      }
    }
  }

  lemma AllStatuses(status: TaskStatus)
    ensures status in STATUSES && STATUSES[..|STATUSES|] == STATUSES
  {
    match status
    case Draft => assert STATUSES[0] == status;
    case Pending => assert STATUSES[1] == status;
    case Running => assert STATUSES[2] == status;
    case Paused => assert STATUSES[3] == status;
    case Success => assert STATUSES[4] == status;
    case Partial => assert STATUSES[5] == status;
    case Failed => assert STATUSES[6] == status;
    case Cancelled => assert STATUSES[7] == status;
    case Retrying => assert STATUSES[8] == status;
  }
}
