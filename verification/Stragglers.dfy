/** Aggregator calls that outlive a Retry. Some of them can still close the retried campaign too soon; the others
    can do no more than end, leave a mark behind, or count in Redis where that does no harm. */
module Stragglers {
  import opened Status
  import opened TaskRows
  import opened Aggregation
  import opened Protocol
  import opened Invariant
  import opened Preservation
  import opened SplitSteps
  import opened CountingSteps
  import opened RetryKeepsInvariant
  import Fencing

  // ---- which calls are dangerous ----

  /** A call that, if a Retry overtakes it here and leaves `open` rows open, may close the campaign too soon: it still
      counts, or it goes on to a compare-and-swap on a row it has yet to read. */
  predicate Live(call: Call, open: int) {
    match call.pc
    case Begin => call.sub.Some?
    case Loaded(main) => !main.status.IsTerminal()
    case Marked(_) => true
    case Counted(main) => main.status != Paused || open >= 2
    case Deciding(main, done) => main.subTotal > 0 && done >= main.subTotal
    case Swapping(_, _, _) => true
    case Rereading(_, _) => true
    case SwappingAgain(_, _, _) => false
  }

  /** A call that outlived a Retry and cannot close the campaign. What it can still do is no more than `clean`, `mixed`
      and `spoiled` allow for. */
  predicate Dead(s: Sys, call: Call) {
    match call.pc
    case Loaded(main) => main.status.IsTerminal() && call.sub.Some? && (s.clean ==> call.sub.value in s.dbCounted)
    case Counted(main) => main.status == Paused && call.sub.Some? && s.mixed
                          && (!s.spoiled ==> call.success == 0 && call.fail == 0)
    case Deciding(main, done) => main.subTotal <= 0 || done < main.subTotal
    case SwappingAgain(main, final, _) => final.IsTerminal() && main.version < s.Main().version
    case _ => false
  }

  predicate EarlierOk(s: Sys) {
    && (forall c :: c in s.earlier ==> c < s.nextCall)
    && (forall c :: c in s.calls ==> c < s.nextCall)
    && (forall c :: c in s.calls && c in s.earlier ==> Dead(s, s.calls[c]))
  }

  /** The version of the snapshot a call holds, if any, is none of the future. */
  predicate NotAhead(pc: Pc, version: int) {
    match pc
    case Begin => true
    case Loaded(main) => main.version <= version
    case Marked(main) => main.version <= version
    case Counted(main) => main.version <= version
    case Deciding(main, _) => main.version <= version
    case Swapping(main, _, _) => main.version <= version
    case Rereading(_, _) => true
    case SwappingAgain(main, _, _) => main.version <= version
  }

  predicate SnapsOk(s: Sys) {
    forall c :: c in s.calls ==> NotAhead(s.calls[c].pc, s.Main().version)
  }

  // ---- one step with no call from before a Retry ----

  lemma RowStepKeeps(cfg: Config, s: Sys, step: Step)
    requires Inv(cfg, s) && IsRowStep(step)
    ensures Inv(cfg, s.WithDb(RowMoves(s.store.db, step)))
  {
    if IsOperatorStep(step) {
      OperatorSteps(cfg, s, step);
    } else if IsWorkerStep(step) {
      WorkerSteps(cfg, s, step);
    } else {
      CancelKeeps(cfg, s, step.now);
    }
  }

  lemma SplitStepKeeps(cfg: Config, s: Sys, step: Step)
    requires Inv(cfg, s) && IsSplitStep(step)
    ensures Inv(cfg, s.WithWork(SplitMoves(cfg, s.Work(), step)))
  {
    if step.StartSplit? || step.TakeOverSplit? || step.WritePage? {
      SplitWorkKeeps(cfg, s, step);
    } else {
      SplitEndKeeps(cfg, s, step);
    }
  }

  lemma SplitWorkKeeps(cfg: Config, s: Sys, step: Step)
    requires Inv(cfg, s) && (step.StartSplit? || step.TakeOverSplit? || step.WritePage?)
    ensures Inv(cfg, s.WithWork(SplitMoves(cfg, s.Work(), step)))
  {
    match step
    case StartSplit(owner, now) => StartKeeps(cfg, s, owner, now);
    case TakeOverSplit(owner, lease, now) => TakeOverKeeps(cfg, s, owner, lease, now);
    case WritePage(owner, users, now) => WritePageKeeps(cfg, s, owner, users, now);
  }

  lemma SplitEndKeeps(cfg: Config, s: Sys, step: Step)
    requires Inv(cfg, s) && (step.FinishSplit? || step.FailSplit? || step.CrashSplit?)
    ensures Inv(cfg, s.WithWork(SplitMoves(cfg, s.Work(), step)))
  {
    match step
    case FinishSplit(owner, now) => FinishKeeps(cfg, s, owner, now);
    case FailSplit(owner, now) => FailSplitKeeps(cfg, s, owner, now);
    case CrashSplit(owner) => SplitEnded(cfg, s, owner);
  }

  lemma CallStepKeeps(cfg: Config, s: Sys, step: Step)
    requires Inv(cfg, s) && s.earlier == {} && IsCallStep(step)
    ensures Inv(cfg, CallMoves(s, step))
  {
    match step
    case Aggregate(c, now) => AggregateKeeps(cfg, s, c, now);
    case MissRedis(c) => MissRedisKeeps(cfg, s, c);
    case LoseCall(c, unmark) => LoseCallKeeps(cfg, s, c, unmark);
  }

  lemma BeginStepKeeps(cfg: Config, s: Sys, step: Step)
    requires Inv(cfg, s) && BeginsCall(step)
    ensures Inv(cfg, BeginMoves(s, step))
  {
    match step
    case Report(id, worker, success, fail, status) => ReportKeeps(cfg, s, id, worker, success, fail, status);
    case Reap(staleSec, now) => ReapKeeps(cfg, s, staleSec, now);
  }

  lemma PlainKeeps(cfg: Config, s: Sys, step: Step)
    requires Inv(cfg, s) && s.earlier == {} && !step.RetryCampaign?
    ensures Inv(cfg, Next(cfg, s, step))
  {
    if IsRowStep(step) {
      RowStepKeeps(cfg, s, step);
    } else if IsSplitStep(step) {
      SplitStepKeeps(cfg, s, step);
    } else if IsCallStep(step) {
      CallStepKeeps(cfg, s, step);
    } else if BeginsCall(step) {
      BeginStepKeeps(cfg, s, step);
    } else {
      LoseRedisKeeps(cfg, s, step.hash, step.marks);
    }
  }

  // ---- setting the earlier calls aside ----

  /** A step that is none of an earlier call's. */
  predicate Fresh(s: Sys, step: Step) {
    && !step.RetryCampaign?
    && (IsCallStep(step) ==> step.call !in s.earlier)
  }

  lemma Without(calls: map<nat, Call>, gone: set<nat>, c: nat, call: Call)
    requires c !in gone
    ensures calls[c := call] - gone == (calls - gone)[c := call]
    ensures (calls - {c}) - gone == (calls - gone) - {c}
  {
  }

  lemma CurrentSettle(s: Sys, c: nat, a: Advance)
    requires c !in s.earlier && c in s.calls
    ensures Current(Settle(s, c, a)) == Settle(Current(s), c, a)
  {
    Without(s.calls, s.earlier, c, if a.call.Some? then a.call.value else s.calls[c]);
  }

  lemma CurrentAggregate(s: Sys, c: nat, now: int)
    requires c !in s.earlier
    ensures Current(AggregateStep(s, c, now)) == AggregateStep(Current(s), c, now)
  {
    if c in s.calls { CurrentSettle(s, c, CallStep(s.store, s.calls[c], now)); }
  }

  lemma CurrentMiss(s: Sys, c: nat)
    requires c !in s.earlier
    ensures Current(MissRedisStep(s, c)) == MissRedisStep(Current(s), c)
  {
    if c in s.calls { CurrentSettle(s, c, CallMissesRedis(s.store, s.calls[c])); }
  }

  lemma CurrentLose(s: Sys, c: nat, unmark: bool)
    requires c !in s.earlier
    ensures Current(LoseCallStep(s, c, unmark)) == LoseCallStep(Current(s), c, unmark)
  {
    if c in s.calls { Without(s.calls, s.earlier, c, s.calls[c]); }
  }

  lemma CurrentCall(s: Sys, step: Step)
    requires IsCallStep(step) && step.call !in s.earlier
    ensures Current(CallMoves(s, step)) == CallMoves(Current(s), step)
  {
    match step
    case Aggregate(c, now) => CurrentAggregate(s, c, now);
    case MissRedis(c) => CurrentMiss(s, c);
    case LoseCall(c, unmark) => CurrentLose(s, c, unmark);
  }

  lemma CurrentReport(s: Sys, id: nat, worker: string, success: int, fail: int, status: TaskStatus)
    requires s.nextCall !in s.earlier
    ensures Current(ReportStep(s, id, worker, success, fail, status)) == ReportStep(Current(s), id, worker, success, fail, status)
  {
    Without(s.calls, s.earlier, s.nextCall, Call(Some(id), success, fail, Begin));
  }

  lemma CurrentReap(s: Sys, staleSec: int, now: int)
    requires s.nextCall !in s.earlier
    ensures Current(ReapStep(s, staleSec, now)) == ReapStep(Current(s), staleSec, now)
  {
    Without(s.calls, s.earlier, s.nextCall, Call(None, 0, 0, Begin));
  }

  lemma CurrentBegin(s: Sys, step: Step)
    requires BeginsCall(step) && s.nextCall !in s.earlier
    ensures Current(BeginMoves(s, step)) == BeginMoves(Current(s), step)
  {
    match step
    case Report(id, worker, success, fail, status) => CurrentReport(s, id, worker, success, fail, status);
    case Reap(staleSec, now) => CurrentReap(s, staleSec, now);
  }

  lemma CurrentWork(s: Sys, w: SplitWork)
    ensures Current(s.WithWork(w)) == Current(s).WithWork(w) && Current(s.WithDb(w.db)) == Current(s).WithDb(w.db)
  {
  }

  lemma CurrentNext(cfg: Config, s: Sys, step: Step)
    requires Fresh(s, step) && s.nextCall !in s.earlier
    ensures Current(Next(cfg, s, step)) == Next(cfg, Current(s), step)
  {
    if IsRowStep(step) {
      CurrentWork(s, SplitWork(RowMoves(s.store.db, step), s.splits));
    } else if IsSplitStep(step) {
      CurrentWork(s, SplitMoves(cfg, s.Work(), step));
    } else if IsCallStep(step) {
      CurrentCall(s, step);
    } else if BeginsCall(step) {
      CurrentBegin(s, step);
    }
  }

  // ---- what a fresh step does to the calls ----

  /** What was found out at the last Retry stands, but that a count may be lost since. */
  predicate HistoryGrows(s: Sys, s': Sys) {
    && s'.earlier == s.earlier && s'.mixed == s.mixed && s'.spoiled == s.spoiled
    && (s'.clean ==> s.clean) && s.dbCounted <= s'.dbCounted
  }

  /** It adds one, or moves or ends one that is none of the earlier ones. */
  predicate CallsGrow(s: Sys, s': Sys) {
    && HistoryGrows(s, s') && s'.nextCall >= s.nextCall
    && (forall c :: c in s'.calls && c in s.earlier && c != s.nextCall ==> c in s.calls && s'.calls[c] == s.calls[c])
    && (forall c :: c in s'.calls ==> c in s.calls || c < s'.nextCall)
  }

  lemma CallsMove(s: Sys, step: Step)
    requires IsCallStep(step) && step.call !in s.earlier
    ensures CallsGrow(s, CallMoves(s, step))
  {
    match step
    case Aggregate(c, now) => CallsAggregate(s, c, now);
    case MissRedis(c) =>
    case LoseCall(c, unmark) =>
  }

  lemma CallsAggregate(s: Sys, c: nat, now: int)
    requires c !in s.earlier
    ensures CallsGrow(s, AggregateStep(s, c, now))
  {
  }

  lemma CallsBegin(s: Sys, step: Step)
    requires BeginsCall(step)
    ensures CallsGrow(s, BeginMoves(s, step))
  {
    match step
    case Report(id, worker, success, fail, status) =>
    case Reap(staleSec, now) =>
  }

  lemma FreshCalls(cfg: Config, s: Sys, step: Step)
    requires Fresh(s, step)
    ensures CallsGrow(s, Next(cfg, s, step))
  {
    if IsCallStep(step) {
      CallsMove(s, step);
    } else if BeginsCall(step) {
      CallsBegin(s, step);
    }
  }

  // ---- every step ----

  lemma CallSnaps(st: Store, call: Call, now: int)
    requires NotAhead(call.pc, st.db.main.version)
    ensures var a := CallStep(st, call, now); a.call.Some? ==> NotAhead(a.call.value.pc, st.db.main.version)
  {
  }

  lemma NotAheadStays(pc: Pc, version: int, version': int)
    requires NotAhead(pc, version) && version <= version'
    ensures NotAhead(pc, version')
  {
  }

  lemma AggregateSnaps(s: Sys, c: nat, now: int)
    requires SnapsOk(s) && s.Main().version <= AggregateStep(s, c, now).Main().version
    ensures SnapsOk(AggregateStep(s, c, now))
  {
    var s' := AggregateStep(s, c, now);
    forall d | d in s'.calls ensures NotAhead(s'.calls[d].pc, s'.Main().version) {
      if d == c { CallSnaps(s.store, s.calls[c], now); }
      var pc := if d == c then CallStep(s.store, s.calls[c], now).call.value.pc else s.calls[d].pc;
      NotAheadStays(pc, s.Main().version, s'.Main().version);
    }
  }

  lemma OtherSnaps(s: Sys, s': Sys)
    requires SnapsOk(s) && s.Main().version <= s'.Main().version
    requires forall c :: c in s'.calls ==> (c in s.calls && s'.calls[c] == s.calls[c]) || s'.calls[c].pc.Begin?
    ensures SnapsOk(s')
  {
  }

  lemma MissedSnaps(s: Sys, c: nat)
    requires SnapsOk(s)
    ensures SnapsOk(MissRedisStep(s, c))
  {
  }

  /** Only aggregator calls that move get new program counters. */
  lemma CallsMoveAlone(cfg: Config, s: Sys, step: Step)
    requires !step.Aggregate? && !step.MissRedis?
    ensures var s' := Next(cfg, s, step);
      forall c :: c in s'.calls ==> (c in s.calls && s'.calls[c] == s.calls[c]) || s'.calls[c].pc.Begin?
  {
  }

  lemma SnapsStay(cfg: Config, s: Sys, step: Step)
    requires SnapsOk(s)
    ensures SnapsOk(Next(cfg, s, step))
  {
    Fencing.NextRaises(cfg, s, step);
    match step
    case Aggregate(c, now) => AggregateSnaps(s, c, now);
    case MissRedis(c) => MissedSnaps(s, c);
    case _ =>
      CallsMoveAlone(cfg, s, step);
      OtherSnaps(s, Next(cfg, s, step));
  }

  lemma DeadStays(s: Sys, s': Sys, call: Call)
    requires Dead(s, call) && s.Main().version <= s'.Main().version && HistoryGrows(s, s')
    ensures Dead(s', call)
  {
  }

  lemma FreshKeeps(cfg: Config, s: Sys, step: Step)
    requires Inv(cfg, Current(s)) && EarlierOk(s) && Fresh(s, step)
    ensures Inv(cfg, Current(Next(cfg, s, step))) && EarlierOk(Next(cfg, s, step))
  {
    var s' := Next(cfg, s, step);
    CurrentNext(cfg, s, step);
    PlainKeeps(cfg, Current(s), step);
    FreshCalls(cfg, s, step);
    Fencing.NextRaises(cfg, s, step);
    forall c | c in s'.calls && c in s'.earlier ensures Dead(s', s'.calls[c]) {
      DeadStays(s, s', s.calls[c]);
    }
  }

  // ---- a step of an earlier call ----

  /** It leaves nothing but what it does in Redis. */
  predicate Aside(s: Sys, s': Sys) {
    && Current(s') == WithRedis(Current(s), s'.store.redis)
    && s'.nextCall == s.nextCall && HistoryGrows(s, s') && s'.store.db == s.store.db
    && (forall c :: c in s'.calls ==> c in s.calls && s'.calls[c] == s.calls[c])
  }

  lemma StaleSwap(db: Db, version: int, final: TaskStatus, now: int)
    requires final.IsTerminal() && version < db.main.version
    ensures db.UpdateMainStats(version, 0, 0, 0, final, now) == Reply(db, false)
  {
  }

  lemma DeadEnds(s: Sys, c: nat, now: int)
    requires EarlierOk(s) && c in s.calls && c in s.earlier
    ensures Aside(s, AggregateStep(s, c, now))
  {
    var call := s.calls[c];
    assert Dead(s, call);
    if call.pc.SwappingAgain? {
      StaleSwap(s.store.db, call.pc.main.version, call.pc.final, now);
    }
    assert (s.calls - {c}) - s.earlier == s.calls - s.earlier;
  }

  /** A mark on a row that is counted, if no count was lost. */
  ghost predicate LeavesMark(s: Sys, redis: Counters) {
    exists id: nat :: redis == s.store.redis.Mark(id) && (s.clean ==> id in s.dbCounted)
  }

  /** A count in Redis where the state is prepared for it, of nothing if the sums are still right. */
  predicate LeavesCount(s: Sys, redis: Counters) {
    && s.mixed && redis == s.store.redis.(success := redis.success, fail := redis.fail, done := redis.done)
    && (!s.spoiled ==> redis.success == s.store.redis.success && redis.fail == s.store.redis.fail)
  }

  lemma DeadLeaves(s: Sys, c: nat, now: int)
    requires EarlierOk(s) && c in s.calls && c in s.earlier
    ensures var redis := AggregateStep(s, c, now).store.redis;
      redis == s.store.redis || LeavesMark(s, redis) || LeavesCount(s, redis)
  {
    var call := s.calls[c];
    assert Dead(s, call);
    if call.pc.Loaded? && call.sub.value !in s.store.redis.finished {
      assert AggregateStep(s, c, now).store.redis == s.store.redis.Mark(call.sub.value);
    }
  }

  lemma MarkLeft(cfg: Config, s: Sys, redis: Counters)
    requires Inv(cfg, s) && LeavesMark(s, redis)
    ensures Inv(cfg, WithRedis(s, redis))
  {
    var id: nat :| redis == s.store.redis.Mark(id) && (s.clean ==> id in s.dbCounted);
    forall c | s.clean && c in s.calls && s.calls[c].sub.Some? && (s.calls[c].pc.Begin? || s.calls[c].pc.Loaded?)
      ensures s.calls[c].sub.value !in redis.finished
    {
      assert CallRowOk(s, s.calls[c]) && BeforeRedis(s.calls[c]);
    }
    MarksChange(cfg, s, redis.finished);
  }

  lemma CountLeft(cfg: Config, s: Sys, redis: Counters)
    requires Inv(cfg, s) && LeavesCount(s, redis)
    ensures Inv(cfg, WithRedis(s, redis))
  {
    var s' := WithRedis(s, redis);
    forall c | c in s'.calls ensures PcOk(s', s'.calls[c]) && CallRowOk(s', s'.calls[c]) {
      assert PcOk(s, s.calls[c]) && CallRowOk(s, s.calls[c]);
    }
  }

  lemma AsideKeeps(cfg: Config, s: Sys, s': Sys)
    requires Inv(cfg, Current(s)) && EarlierOk(s) && Aside(s, s')
    requires Inv(cfg, WithRedis(Current(s), s'.store.redis))
    ensures Inv(cfg, Current(s')) && EarlierOk(s')
  {
    SameInv(cfg, Current(s'), WithRedis(Current(s), s'.store.redis));
    forall d | d in s'.calls && d in s'.earlier ensures Dead(s', s'.calls[d]) {
      DeadStays(s, s', s.calls[d]);
    }
  }

  lemma DeadKeeps(cfg: Config, s: Sys, c: nat, now: int)
    requires Inv(cfg, Current(s)) && EarlierOk(s) && c in s.calls && c in s.earlier
    ensures Inv(cfg, Current(AggregateStep(s, c, now))) && EarlierOk(AggregateStep(s, c, now))
  {
    var redis := AggregateStep(s, c, now).store.redis;
    DeadEnds(s, c, now);
    DeadLeaves(s, c, now);
    if redis == s.store.redis {
      SameInv(cfg, WithRedis(Current(s), redis), Current(s));
    } else if LeavesMark(s, redis) {
      MarkLeft(cfg, Current(s), redis);
    } else {
      CountLeft(cfg, Current(s), redis);
    }
    AsideKeeps(cfg, s, AggregateStep(s, c, now));
  }

  lemma DeadMisses(cfg: Config, s: Sys, c: nat)
    requires Inv(cfg, Current(s)) && EarlierOk(s) && c in s.calls && c in s.earlier
    ensures Inv(cfg, Current(MissRedisStep(s, c))) && EarlierOk(MissRedisStep(s, c))
  {
    var s' := MissRedisStep(s, c);
    assert Dead(s, s.calls[c]);
    assert (s.calls - {c}) - s.earlier == s.calls - s.earlier;
    assert s.calls[c := s.calls[c]] == s.calls;
    SameInv(cfg, WithRedis(Current(s), s'.store.redis), Current(s));
    AsideKeeps(cfg, s, s');
  }

  lemma DeadLost(cfg: Config, s: Sys, c: nat, unmark: bool)
    requires Inv(cfg, Current(s)) && EarlierOk(s) && c in s.calls && c in s.earlier
    ensures Inv(cfg, Current(LoseCallStep(s, c, unmark))) && EarlierOk(LoseCallStep(s, c, unmark))
  {
    var s' := LoseCallStep(s, c, unmark);
    assert (s.calls - {c}) - s.earlier == s.calls - s.earlier;
    if unmark && s.calls[c].sub.Some? {
      UnmarkKeeps(cfg, Current(s), s.calls[c].sub.value);
    } else {
      SameInv(cfg, WithRedis(Current(s), s'.store.redis), Current(s));
    }
    AsideKeeps(cfg, s, s');
  }

  lemma DeadStepKeeps(cfg: Config, s: Sys, step: Step)
    requires Inv(cfg, Current(s)) && EarlierOk(s) && IsCallStep(step) && step.call in s.calls && step.call in s.earlier
    ensures Inv(cfg, Current(CallMoves(s, step))) && EarlierOk(CallMoves(s, step))
  {
    match step
    case Aggregate(c, now) => DeadKeeps(cfg, s, c, now);
    case MissRedis(c) => DeadMisses(cfg, s, c);
    case LoseCall(c, unmark) => DeadLost(cfg, s, c, unmark);
  }
}
