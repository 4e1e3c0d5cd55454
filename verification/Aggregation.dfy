/** Counting finished sub-tasks and closing the campaign: the Redis counters, and the
    aggregator's two entry points cut at every database or Redis call. */
module Aggregation {
  import opened Status
  import opened TaskRows

  /** The per-campaign Redis hash (success, fail, done) and the set of sub-tasks marked finished. */
  datatype Counters = Counters(success: int, fail: int, done: int, finished: set<nat>)
  {
    function IncrSubDone(s: int, f: int): Counters {
      this.(success := success + s, fail := fail + f, done := done + 1)
    }

    /** Overwrites the hash and forgets every mark. */
    function SetSubDone(s: int, f: int, d: int): Counters {
      Counters(s, f, d, {})
    }

    function Mark(id: nat): Counters {
      this.(finished := finished + {id})
    }

    function Unmark(id: nat): Counters {
      this.(finished := finished - {id})
    }
  }

  const NO_COUNTERS := Counters(0, 0, 0, {})

  datatype Store = Store(db: Db, redis: Counters)

  /** Final status from user totals. */
  function Verdict(success: int, fail: int): TaskStatus {
    if fail == 0 then Success else if success == 0 then Failed else Partial
  }

  /** Where an aggregator call stands: the next call it will make, with the local variables it holds.
      `exact` is history: the totals were read while the count in Redis was full and its sums were not both zero. */
  datatype Pc =
    | Begin
    | Loaded(main: MainTask)
    | Marked(main: MainTask)
    | Counted(main: MainTask)
    | Deciding(main: MainTask, done: int)
    | Swapping(main: MainTask, final: TaskStatus, exact: bool)
    | Rereading(final: TaskStatus, exact: bool)
    | SwappingAgain(main: MainTask, final: TaskStatus, exact: bool)

  /** A running OnSubFinished (`sub` is the row it reports) or FinalizeStale (`sub` is None). */
  datatype Call = Call(sub: Option<nat>, success: int, fail: int, pc: Pc)

  datatype Advance = Advance(store: Store, call: Option<Call>)

  /** The status the totals in Redis give, falling back on the row's counts when both are zero. */
  function FinalStatus(redis: Counters, main: MainTask): TaskStatus {
    if redis.success == 0 && redis.fail == 0
    then Verdict(main.successCount, main.failCount)
    else Verdict(redis.success, redis.fail)
  }

  function Goto(st: Store, call: Call, pc: Pc): Advance {
    Advance(st, Some(call.(pc := pc)))
  }

  function Return(st: Store): Advance {
    Advance(st, None)
  }

  function Max(a: int, b: int): int {
    if a > b then a else b
  }

  /** After the count: a paused campaign is not closed, any other goes on to the decision. */
  function AfterCount(st: Store, call: Call, main: MainTask, done: int): Advance {
    if main.status == Paused then Return(st) else Goto(st, call, Deciding(main, done))
  }

  /** One database or Redis call of the aggregator, with the local work around it. */
  function CallStep(st: Store, call: Call, now: int): Advance {
    match call.pc
    case Begin =>
      if call.sub.Some? then Goto(st, call, Loaded(st.db.main))
      else if st.db.main.status != Running then Return(st)
      else Goto(st, call, Deciding(st.db.main, st.db.main.subDone))
    case Loaded(main) =>
      if call.sub.None? || call.sub.value in st.redis.finished then Return(st)
      else
        var marked := st.(redis := st.redis.Mark(call.sub.value));
        if main.status.IsTerminal() then Return(marked) else Goto(marked, call, Marked(main))
    case Marked(main) =>
      Goto(st.(db := st.db.UpdateMainStats(main.version, 0, 0, 1, main.status, now).db), call, Counted(main))
    case Counted(main) =>
      var redis := st.redis.IncrSubDone(call.success, call.fail);
      AfterCount(st.(redis := redis), call, main, Max(main.subDone + 1, redis.done))
    case Deciding(main, done) =>
      if main.subTotal <= 0 || done < main.subTotal then Return(st)
      else Goto(st, call, Swapping(main, FinalStatus(st.redis, main),
                                   st.redis.done == main.subTotal && (st.redis.success != 0 || st.redis.fail != 0)))
    case Swapping(main, final, exact) =>
      var swap := st.db.UpdateMainStats(main.version, 0, 0, 0, final, now);
      if swap.ok then Return(st.(db := swap.db)) else Goto(st, call, Rereading(final, exact))
    case Rereading(final, exact) =>
      if st.db.main.status.IsTerminal() || st.db.main.status == Paused then Return(st)
      else Goto(st, call, SwappingAgain(st.db.main, final, exact))
    case SwappingAgain(main, final, exact) =>
      Return(st.(db := st.db.UpdateMainStats(main.version, 0, 0, 0, final, now).db))
  }

  /** The Redis increment fails: the call goes on with the database count alone. */
  function CallMissesRedis(st: Store, call: Call): Advance {
    if call.pc.Counted? then AfterCount(st, call, call.pc.main, call.pc.main.subDone + 1)
    else Goto(st, call, call.pc)
  }
}
