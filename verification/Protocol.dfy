/** One campaign under any number of split workers, claim workers, aggregator calls and operators.
    Every database or Redis call is one step, except for the groups named at each step below.
    Claim workers keep no state of their own here: any of them may issue any of its calls at any time,
    and only the guards of the rows decide what happens. A step that is not enabled changes nothing. */
module Protocol {
  import opened Status
  import opened TaskRows
  import opened Aggregation
  import opened Audience
  import opened Retry

  /** Parameters that stay fixed during a run. */
  datatype Config = Config(filter: Filter, maxUsers: nat, batchSize: nat)

  /** A running split: the version it read, the users it resolved, the shards it wrote (ids and users).
      `failing` is set once it has an error to return. */
  datatype Split = Split(version: int, raw: seq<TargetUser>, ids: seq<nat>, shards: seq<seq<string>>, failing: bool)

  /** What splits work on: the rows and the splits under way. */
  datatype SplitWork = SplitWork(db: Db, splits: map<string, Split>)

  /** `splits` is keyed by the owner name, `calls` by a call number. The other fields are history since the counters
      were last aligned: the rows counted in the database and in Redis; the calls that were already under way (but for
      a reaper's that had not read anything); whether no row's count was lost or could be blocked by one of those;
      whether one of those was about to count in Redis; and whether that could spoil the sums there. */
  datatype Sys = Sys(
    store: Store, splits: map<string, Split>, calls: map<nat, Call>, nextCall: nat,
    dbCounted: set<nat>, rdCounted: set<nat>, earlier: set<nat>, clean: bool, mixed: bool, spoiled: bool)
  {
    function Main(): MainTask { store.db.main }
    function Subs(): map<nat, SubTask> { store.db.subs }

    function WithDb(db: Db): Sys {
      this.(store := store.(db := db))
    }

    function Work(): SplitWork {
      SplitWork(store.db, splits)
    }

    function WithWork(w: SplitWork): Sys {
      this.(store := store.(db := w.db), splits := w.splits)
    }
  }

  datatype Step =
    | Publish(now: int)
    | Pause(now: int)
    | Resume(now: int)
    | Cancel(now: int)
    | RetryCampaign(pushFailed: seq<string>, outcomes: Option<(int, int)>, now: int)
    | StartSplit(owner: string, now: int)
    | TakeOverSplit(owner: string, leaseTimeoutSec: int, now: int)
    | RenewSplit(owner: string, now: int)
    | WritePage(owner: string, users: seq<TargetUser>, now: int)
    | FinishSplit(owner: string, now: int)
    | FailSplit(owner: string, now: int)
    | CrashSplit(owner: string)
    | Claim(id: nat, worker: string, claimTimeoutSec: int, now: int)
    | Release(id: nat)
    | RenewClaim(id: nat, worker: string, now: int)
    | Report(id: nat, worker: string, success: int, fail: int, status: TaskStatus)
    | Aggregate(call: nat, now: int)
    | MissRedis(call: nat)
    | LoseCall(call: nat, unmark: bool)
    | Reap(staleSec: int, now: int)
    | LoseRedis(hash: bool, marks: bool)
    | SyncUsers(success: int, fail: int, now: int)

  const NEW_MAIN := MainTask(Draft, 0, "", None, 0, 0, 0, 0, 0, 0)

  function Init(): Sys {
    Sys(Store(Db(NEW_MAIN, map[], 1), NO_COUNTERS), map[], map[], 0, {}, {}, {}, true, false, false)
  }

  // ---- operators ----

  /** Cancel: the main row and its unfinished sub-tasks in one step. */
  function CancelDb(db: Db, now: int): Db {
    var r := db.CancelMain(now);
    if r.ok then r.db.CancelUnfinished() else r.db
  }

  /** A reaper's call that has not read anything yet. */
  predicate Unread(call: Call) {
    call.sub.None? && call.pc.Begin?
  }

  /** A call that read a final status of the campaign and is about to mark its row, which is not finished. */
  predicate Blocks(call: Call, store: Store) {
    call.sub.Some? && call.pc.Loaded? && call.pc.main.status.IsTerminal() && call.sub.value !in FinishedIds(store.db.subs)
  }

  /** A call about to count in Redis, where the sums will then not both be zero. */
  predicate Spoils(call: Call, redis: Counters) {
    call.pc.Counted? && (call.success != 0 || call.fail != 0 || redis.success != 0 || redis.fail != 0)
  }

  predicate NoneBlocks(s: Sys, store: Store) {
    forall c :: c in s.calls ==> !Blocks(s.calls[c], store)
  }

  predicate NoneCounted(s: Sys) {
    forall c :: c in s.calls ==> !s.calls[c].pc.Counted?
  }

  predicate NoneSpoils(s: Sys, store: Store) {
    forall c :: c in s.calls ==> !Spoils(s.calls[c], store.redis)
  }

  /** Counting starts over from the rows, as if the calls under way could do nothing to it. */
  ghost function Restart(s: Sys, store: Store): Sys {
    s.(store := store, dbCounted := DoneIds(store.db.subs), rdCounted := DoneIds(store.db.subs),
       earlier := (set c | c in s.calls && !Unread(s.calls[c])), clean := true, mixed := false, spoiled := false)
  }

  /** Counting starts over from the rows; the calls under way are of the time before. */
  ghost function Realigned(s: Sys, store: Store): Sys {
    Restart(s, store).(clean := NoneBlocks(s, store), mixed := !NoneCounted(s), spoiled := !NoneSpoils(s, store))
  }

  ghost function RetryStep(cfg: Config, s: Sys, pushFailed: seq<string>, outcomes: Option<(int, int)>, now: int): Sys {
    if cfg.batchSize == 0 then s else
    var r := RetryMain(s.store, pushFailed, cfg.batchSize, outcomes, now);
    if r.Retried? then Realigned(s, r.store) else s
  }

  // ---- splitting ----

  /** Taking the lease, reading the main row and deleting old rows, in one step. The owner name is not in use. */
  function SplitBegun(w: SplitWork, lease: Reply, owner: string): SplitWork {
    if owner == "" || owner in w.splits || !lease.ok then w
    else
      var db := lease.db.DeleteSubTasks();
      SplitWork(db, w.splits[owner := Split(db.main.version, [], [], [], false)])
  }

  function BeginSplit(s: Sys, lease: Reply, owner: string): Sys {
    s.WithWork(SplitBegun(s.Work(), lease, owner))
  }

  function Failing(splits: map<string, Split>, owner: string): map<string, Split>
    requires owner in splits
  {
    splits[owner := splits[owner].(failing := true)]
  }

  /** The sum of the shard sizes written so far. */
  function Written(shards: seq<seq<string>>): nat {
    |Flatten(shards)|
  }

  /** One page: filter it, write its shard under the lease, patch the running total. */
  function PageWritten(cfg: Config, w: SplitWork, owner: string, users: seq<TargetUser>, now: int): SplitWork {
    if owner !in w.splits || w.splits[owner].failing then w
    else
      var p := w.splits[owner];
      var ids := KeptIds(cfg.filter, users);
      if |ids| == 0 then w.(splits := w.splits[owner := p.(raw := p.raw + users)])
      else
        var created := w.db.CreateSubTasksWithLease(owner, [Shard(|p.shards|, ids)], now);
        if !created.ok then w.(splits := Failing(w.splits, owner))
        else
          var p' := p.(raw := p.raw + users, ids := p.ids + [w.db.nextId], shards := p.shards + [ids]);
          if Written(p'.shards) > cfg.maxUsers then
            SplitWork(created.db, w.splits[owner := p'.(failing := true)])
          else
            SplitWork(created.db.PatchMainMeta(Written(p'.shards), 0, now), w.splits[owner := p'])
  }

  function WritePageStep(cfg: Config, s: Sys, owner: string, users: seq<TargetUser>, now: int): Sys {
    s.WithWork(PageWritten(cfg, s.Work(), owner, users, now))
  }

  function FinishSplitDb(db: Db, version: int, total: int, shards: int, now: int): Db {
    db.UpdateMainStats(version, 0, 0, 0, Running, now).db.PatchMainMeta(total, shards, now).ClearSplitLease(now)
  }

  /** The end of a split, taken while its owner still holds the lease: status, totals, lease. */
  function SplitFinished(w: SplitWork, owner: string, now: int): SplitWork {
    if owner !in w.splits || w.splits[owner].failing || w.db.main.owner != owner || |w.splits[owner].shards| == 0 then w
    else if w.db.main.status == Cancelled then SplitWork(w.db.CancelUnfinished(), Failing(w.splits, owner))
    else
      var p := w.splits[owner];
      SplitWork(FinishSplitDb(w.db, p.version, Written(p.shards), |p.shards|, now), w.splits - {owner})
  }

  function FinishSplitStep(s: Sys, owner: string, now: int): Sys {
    s.WithWork(SplitFinished(s.Work(), owner, now))
  }

  /** The error exit of a split: what runSplit does after Split returned an error, in one step. */
  function FailSplitDb(db: Db, version: int, owner: string, now: int): Db {
    if db.main.status == Cancelled then db.CancelUnfinished().ClearSplitLease(now)
    else if db.main.owner != "" && db.main.owner != owner then db
    else if db.main.status == Paused then db.ClearSplitLease(now)
    else db.UpdateMainStats(version, 0, 0, 0, Failed, now).db.ClearSplitLease(now)
  }

  function SplitFailed(w: SplitWork, owner: string, now: int): SplitWork {
    if owner !in w.splits then w
    else SplitWork(FailSplitDb(w.db, w.splits[owner].version, owner, now), w.splits - {owner})
  }

  function FailSplitStep(s: Sys, owner: string, now: int): Sys {
    s.WithWork(SplitFailed(s.Work(), owner, now))
  }

  // ---- claiming and reporting ----

  /** Results a worker may report for a row it claimed. */
  predicate Reportable(main: MainTask, row: SubTask, success: int, fail: int, status: TaskStatus) {
    match status
    case Success => 0 <= success <= row.total && fail == 0
    case Failed => success == 0 && fail == row.total
    case Cancelled => success == 0 && fail == 0 && main.status == Cancelled
    case _ => false
  }

  /** The result write; when it took effect and is not a cancellation, an aggregator call starts. */
  function ReportStep(s: Sys, id: nat, worker: string, success: int, fail: int, status: TaskStatus): Sys {
    if id !in s.Subs() || !Reportable(s.Main(), s.Subs()[id], success, fail, status) then s
    else
      var r := s.store.db.UpdateSubTaskResult(id, worker, success, fail, status);
      if !r.ok then s
      else if status == Cancelled then s.WithDb(r.db)
      else s.WithDb(r.db).(calls := s.calls[s.nextCall := Call(Some(id), success, fail, Begin)], nextCall := s.nextCall + 1)
  }

  // ---- aggregation ----

  function Settle(s: Sys, c: nat, a: Advance): Sys {
    s.(store := a.store, calls := if a.call.Some? then s.calls[c := a.call.value] else s.calls - {c})
  }

  function AggregateStep(s: Sys, c: nat, now: int): Sys {
    if c !in s.calls then s
    else
      var call := s.calls[c];
      var s' := Settle(s, c, CallStep(s.store, call, now));
      if call.sub.None? || c in s.earlier then s'
      else if call.pc.Marked? then s'.(dbCounted := s.dbCounted + {call.sub.value})
      else if call.pc.Counted? then s'.(rdCounted := s.rdCounted + {call.sub.value})
      else s'
  }

  function MissRedisStep(s: Sys, c: nat): Sys {
    if c !in s.calls then s else Settle(s, c, CallMissesRedis(s.store, s.calls[c]))
  }

  /** A row's call that has not counted it in the database. */
  predicate BeforeDb(c: Call) {
    c.sub.Some? && (c.pc.Begin? || c.pc.Loaded? || c.pc.Marked?)
  }

  /** The call returns an error or its process dies; it may have rolled its mark back. */
  function LoseCallStep(s: Sys, c: nat, unmark: bool): Sys {
    if c !in s.calls then s
    else
      var redis := if unmark && s.calls[c].sub.Some? then s.store.redis.Unmark(s.calls[c].sub.value) else s.store.redis;
      s.(store := s.store.(redis := redis), calls := s.calls - {c}, clean := s.clean && (c in s.earlier || !BeforeDb(s.calls[c])))
  }

  function ReapStep(s: Sys, staleSec: int, now: int): Sys {
    if !s.store.db.Finishable(now, staleSec) then s
    else s.(calls := s.calls[s.nextCall := Call(None, 0, 0, Begin)], nextCall := s.nextCall + 1)
  }

  function LoseRedisStep(s: Sys, hash: bool, marks: bool): Sys {
    var r := s.store.redis;
    var r1 := if hash then r.(success := 0, fail := 0, done := 0) else r;
    var r2 := if marks then r1.(finished := {}) else r1;
    s.(store := s.store.(redis := r2), rdCounted := if hash then {} else s.rdCounted)
  }

  // ---- one step ----

  /** A step of an operator or of a claim worker that only writes rows. */
  predicate IsRowStep(step: Step) {
    step.Publish? || step.Pause? || step.Resume? || step.Cancel? || step.RenewSplit? || step.Claim? || step.Release?
    || step.RenewClaim? || step.SyncUsers?
  }

  function RowMoves(db: Db, step: Step): Db
    requires IsRowStep(step)
  {
    match step
    case Publish(now) => db.PublishMain(now).db
    case Pause(now) => db.PauseMain(now).db
    case Resume(now) => // back to running when the split had finished, else to pending
      db.ResumeMain(db.main.subTotal > 0, now).db
    case Cancel(now) => CancelDb(db, now)
    case RenewSplit(owner, now) => db.RenewSplitLease(owner, now).db
    case Claim(id, worker, timeout, now) => db.ClaimSubTask(id, worker, now, timeout).db
    case Release(id) => db.ReleaseSubTask(id)
    case RenewClaim(id, worker, now) => db.RenewSubTaskClaim(id, worker, now).db
    case SyncUsers(success, fail, now) => db.SyncUserCounts(success, fail, now)
  }

  predicate IsSplitStep(step: Step) {
    step.StartSplit? || step.TakeOverSplit? || step.WritePage? || step.FinishSplit? || step.FailSplit? || step.CrashSplit?
  }

  function SplitMoves(cfg: Config, w: SplitWork, step: Step): SplitWork
    requires IsSplitStep(step)
  {
    match step
    case StartSplit(owner, now) => SplitBegun(w, w.db.MarkRunning(owner, now), owner)
    case TakeOverSplit(owner, lease, now) => SplitBegun(w, w.db.ClaimStaleSplit(owner, now, lease), owner)
    case WritePage(owner, users, now) => PageWritten(cfg, w, owner, users, now)
    case FinishSplit(owner, now) => SplitFinished(w, owner, now)
    case FailSplit(owner, now) => SplitFailed(w, owner, now)
    case CrashSplit(owner) => w.(splits := w.splits - {owner})
  }

  predicate IsCallStep(step: Step) {
    step.Aggregate? || step.MissRedis? || step.LoseCall?
  }

  function CallMoves(s: Sys, step: Step): Sys
    requires IsCallStep(step)
  {
    match step
    case Aggregate(c, now) => AggregateStep(s, c, now)
    case MissRedis(c) => MissRedisStep(s, c)
    case LoseCall(c, unmark) => LoseCallStep(s, c, unmark)
  }

  /** A step with which an aggregator call begins. */
  predicate BeginsCall(step: Step) {
    step.Report? || step.Reap?
  }

  function BeginMoves(s: Sys, step: Step): Sys
    requires BeginsCall(step)
  {
    match step
    case Report(id, worker, success, fail, status) => ReportStep(s, id, worker, success, fail, status)
    case Reap(staleSec, now) => ReapStep(s, staleSec, now)
  }

  ghost function Next(cfg: Config, s: Sys, step: Step): Sys {
    if IsRowStep(step) then s.WithDb(RowMoves(s.store.db, step))
    else if IsSplitStep(step) then s.WithWork(SplitMoves(cfg, s.Work(), step))
    else if IsCallStep(step) then CallMoves(s, step)
    else if BeginsCall(step) then BeginMoves(s, step)
    else if step.LoseRedis? then LoseRedisStep(s, step.hash, step.marks)
    else RetryStep(cfg, s, step.pushFailed, step.outcomes, step.now)
  }

  ghost function After(cfg: Config, s: Sys, steps: seq<Step>): Sys {
    if steps == [] then s else Next(cfg, After(cfg, s, steps[..|steps| - 1]), steps[|steps| - 1])
  }
}
