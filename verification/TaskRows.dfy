/** The rows of one campaign: its main task and its sub-tasks, and the effect of every
    statement the repository runs on them. Each statement is a guard and an update;
    `ok` is "some row was changed". Times are whole seconds; the empty string is "no worker". */
module TaskRows {
  import opened Status

  datatype MainTask = MainTask(
    status: TaskStatus, version: int, owner: string, leaseAt: Option<int>,
    subTotal: int, subDone: int, totalCount: int, successCount: int, failCount: int,
    updatedAt: int)

  datatype SubTask = SubTask(
    shard: int, users: seq<string>, total: int, success: int, fail: int,
    status: TaskStatus, worker: string, claimedAt: Option<int>, retries: int)

  datatype Reply = Reply(db: Db, ok: bool)

  const DEFAULT_LEASE_SEC := 90
  const DEFAULT_STALE_SEC := 60

  function LeaseDeadline(now: int, leaseTimeoutSec: int): int {
    now - (if leaseTimeoutSec <= 0 then DEFAULT_LEASE_SEC else leaseTimeoutSec)
  }

  function Shard(index: int, users: seq<string>): SubTask {
    SubTask(index, users, |users|, 0, 0, Pending, "", None, 0)
  }

  /** The ids an INSERT of `count` rows is given. */
  function NewIds(first: nat, count: nat): (ids: set<nat>)
    ensures forall id :: id in ids <==> first <= id < first + count
    ensures |ids| == count
  {
    if count == 0 then {} else NewIds(first, count - 1) + {first + count - 1}
  }

  datatype Db = Db(main: MainTask, subs: map<nat, SubTask>, nextId: nat)
  {
    /** An UPDATE of the main row that matched. */
    function Write(m: MainTask, now: int): Reply {
      Reply(this.(main := m.(updatedAt := now)), true)
    }

    function Unmatched(): Reply {
      Reply(this, false)
    }

    // ---- split lease ----

    function MarkRunning(worker: string, now: int): Reply {
      if main.status == Pending then
        Write(main.(status := Running, owner := worker, leaseAt := Some(now)), now)
      else Unmatched()
    }

    function RenewSplitLease(worker: string, now: int): Reply {
      if main.status == Running && main.owner == worker then
        Write(main.(leaseAt := Some(now)), now)
      else Unmatched()
    }

    function ClearSplitLease(now: int): Db {
      Write(main.(owner := "", leaseAt := None), now).db
    }

    predicate LeaseStale(now: int, leaseTimeoutSec: int) {
      main.leaseAt.None? || main.leaseAt.value < LeaseDeadline(now, leaseTimeoutSec)
    }

    function ClaimStaleSplit(worker: string, now: int, leaseTimeoutSec: int): Reply {
      if main.status == Running && main.owner != "" && LeaseStale(now, leaseTimeoutSec) then
        Write(main.(owner := worker, leaseAt := Some(now), subTotal := 0, totalCount := 0), now)
      else Unmatched()
    }

    // ---- operator actions on the main row ----

    function PublishMain(now: int): Reply {
      if main.status == Draft then Write(main.(status := Pending), now) else Unmatched()
    }

    function CancelMain(now: int): Reply {
      if main.status.IsCancellable() then
        Write(main.(status := Cancelled, version := main.version + 1), now)
      else Unmatched()
    }

    function PauseMain(now: int): Reply {
      if main.status.IsPausable() then
        Write(main.(status := Paused, version := main.version + 1), now)
      else Unmatched()
    }

    function ResumeMain(hasSubTasks: bool, now: int): Reply {
      if main.status == Paused then
        Write(main.(status := if hasSubTasks then Running else Pending, version := main.version + 1), now)
      else Unmatched()
    }

    function ReopenMain(addSubTasks: int, now: int): Reply {
      if main.status.IsRetryable() then
        Write(main.(status := Running, version := main.version + 1,
                    subTotal := if addSubTasks > 0 then main.subTotal + addSubTasks else main.subTotal), now)
      else Unmatched()
    }

    // ---- counters and final status ----

    function AddStats(success: int, fail: int, subDone: int, now: int): Db {
      if success == 0 && fail == 0 && subDone == 0 then this else
      Write(main.(successCount := main.successCount + success, failCount := main.failCount + fail,
                  subDone := main.subDone + subDone), now).db
    }

    /** Final statuses are taken by compare-and-swap on `version`; `Running` never overwrites
        paused, cancelled or final rows; other statuses change nothing. */
    function SetStatus(version: int, status: TaskStatus, now: int): Reply {
      if !status.IsTerminal() then
        if status == Running && main.status in {Pending, Running, Retrying} then
          Write(main.(status := Running), now)
        else Reply(this, true)
      else if main.version == version && !main.status.IsTerminal() && main.status != Paused then
        Write(main.(status := status, version := version + 1), now)
      else Unmatched()
    }

    function UpdateMainStats(version: int, success: int, fail: int, subDone: int, status: TaskStatus, now: int): Reply {
      AddStats(success, fail, subDone, now).SetStatus(version, status, now)
    }

    function PatchMainMeta(total: int, subTotal: int, now: int): Db {
      if main.status.IsTerminal() || main.status == Paused then this else
      Write(main.(totalCount := total, subTotal := subTotal), now).db
    }

    function SyncUserCounts(success: int, fail: int, now: int): Db {
      Write(main.(successCount := success, failCount := fail), now).db
    }

    function SyncMainCounters(success: int, fail: int, subDone: int, subTotal: int, now: int): Db {
      Write(main.(successCount := success, failCount := fail, subDone := subDone, version := main.version + 1,
                  subTotal := if subTotal >= 0 then subTotal else main.subTotal), now).db
    }

    /** Rows the reaper lists: counted full, yet still running. */
    predicate Finishable(now: int, staleSec: int) {
      && main.status == Running
      && main.subTotal > 0
      && main.subDone >= main.subTotal
      && main.owner == ""
      && main.updatedAt < now - (if staleSec <= 0 then DEFAULT_STALE_SEC else staleSec)
    }

    // ---- sub-task rows ----

    function CreateSubTasks(batch: seq<SubTask>): Db {
      Db(main, subs + (map id | id in NewIds(nextId, |batch|) :: batch[id - nextId]), nextId + |batch|)
    }

    function CreateSubTasksWithLease(worker: string, batch: seq<SubTask>, now: int): Reply {
      if |batch| == 0 then Reply(this, true)
      else if worker == "" then Reply(CreateSubTasks(batch), true)
      else
        var renewed := RenewSplitLease(worker, now);
        if renewed.ok then Reply(renewed.db.CreateSubTasks(batch), true) else Unmatched()
    }

    function DeleteSubTasks(): Db {
      this.(subs := map[])
    }

    predicate Claimable(id: nat, now: int, claimTimeoutSec: int) {
      && id in subs
      && main.status == Running && main.owner == ""
      && (subs[id].status in {Pending, Retrying}
          || (subs[id].status == Running && subs[id].claimedAt.Some?
              && subs[id].claimedAt.value < now - claimTimeoutSec))
    }

    /** The claim of row `id`; which claimable row is taken depends on the locks other workers hold. */
    function ClaimSubTask(id: nat, worker: string, now: int, claimTimeoutSec: int): Reply {
      if Claimable(id, now, claimTimeoutSec) then
        Reply(this.(subs := subs[id := subs[id].(status := Running, worker := worker, claimedAt := Some(now))]), true)
      else Unmatched()
    }

    function CancelUnfinished(): Db {
      this.(subs := map id | id in subs ::
        if subs[id].status in {Pending, Running, Retrying} then subs[id].(status := Cancelled) else subs[id])
    }

    function ReleaseSubTask(id: nat): Db {
      if id in subs && subs[id].status == Running then
        this.(subs := subs[id := subs[id].(status := Pending, worker := "", claimedAt := None)])
      else this
    }

    function RenewSubTaskClaim(id: nat, worker: string, now: int): Reply {
      if id in subs && subs[id].worker == worker && subs[id].status == Running then
        Reply(this.(subs := subs[id := subs[id].(claimedAt := Some(now))]), true)
      else Unmatched()
    }

    function UpdateSubTaskResult(id: nat, worker: string, success: int, fail: int, status: TaskStatus): Reply {
      if id in subs && subs[id].worker == worker && subs[id].status in {Running, Retrying} then
        Reply(this.(subs := subs[id := subs[id].(success := success, fail := fail, status := status)]), true)
      else Unmatched()
    }

    function ResetFailed(): Db {
      this.(subs := map id | id in subs ::
        if subs[id].status == Failed
        then subs[id].(status := Pending, success := 0, fail := 0, worker := "", claimedAt := None,
                       retries := subs[id].retries + 1)
        else subs[id])
    }
  }

  lemma InsertedRow(db: Db, row: SubTask)
    ensures db.CreateSubTasks([row]) == Db(db.main, db.subs[db.nextId := row], db.nextId + 1)
  {
    assert forall id :: id in NewIds(db.nextId, 1) <==> id == db.nextId;
    assert db.CreateSubTasks([row]).subs == db.subs[db.nextId := row];
  }

  /** Ids of the rows in a given set of statuses. */
  function IdsIn(subs: map<nat, SubTask>, statuses: set<TaskStatus>): set<nat> {
    set id | id in subs && subs[id].status in statuses
  }

  function FinishedIds(subs: map<nat, SubTask>): set<nat> {
    IdsIn(subs, {Success, Failed, Partial})
  }

  predicate AllTerminal(subs: map<nat, SubTask>) {
    forall id :: id in subs ==> subs[id].status.IsTerminal()
  }

  function SuccessOf(subs: map<nat, SubTask>): map<nat, int> {
    map id | id in subs :: subs[id].success
  }

  function FailOf(subs: map<nat, SubTask>): map<nat, int> {
    map id | id in subs :: subs[id].fail
  }
}
