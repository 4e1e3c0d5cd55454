/** The Redis counters and the aggregator as objects: one call run alone does exactly what the protocol's
    call does when all its steps are taken in a row. */
module AggregatorService {
  import opened Status
  import opened TaskRows
  import opened Aggregation
  import opened TaskRepository

  class CounterCache {
    var success: int
    var fail: int
    var done: int
    var finished: set<nat>

    function State(): Counters
      reads this
    {
      Counters(success, fail, done, finished)
    }

    constructor ()
      ensures State() == NO_COUNTERS
    {
      success, fail, done, finished := 0, 0, 0, {};
    }

    method IncrSubDone(s: int, f: int) returns (newDone: int)
      modifies this
      ensures State() == old(State()).IncrSubDone(s, f) && newDone == State().done
    {
      success := success + s;
      fail := fail + f;
      done := done + 1;
      newDone := done;
    }

    method GetSubDone() returns (s: int, f: int, d: int)
      ensures s == success && f == fail && d == done
    {
      s, f, d := success, fail, done;
    }

    method SetSubDone(s: int, f: int, d: int)
      modifies this
      ensures State() == old(State()).SetSubDone(s, f, d)
    {
      success, fail, done, finished := s, f, d, {};
    }

    /** True for the first mark of a sub-task only. */
    method TryMarkSubFinished(id: nat) returns (first: bool)
      modifies this
      ensures State() == old(State()).Mark(id) && first == (id !in old(finished))
    {
      first := id !in finished;
      finished := finished + {id};
    }

    method UnmarkSubFinished(id: nat)
      modifies this
      ensures State() == old(State()).Unmark(id)
    {
      finished := finished - {id};
    }
  }

  /** Calls left to make at most. */
  function Rank(pc: Pc): nat {
    match pc
    case Begin => 8
    case Loaded(_) => 7
    case Marked(_) => 6
    case Counted(_) => 5
    case Deciding(_, _) => 4
    case Swapping(_, _, _) => 3
    case Rereading(_, _) => 2
    case SwappingAgain(_, _, _) => 1
  }

  /** What an aggregator call leaves when nothing else runs. */
  function Completed(st: Store, call: Call, redisUp: bool, now: int): Store
    decreases Rank(call.pc)
  {
    var a := if call.pc.Counted? && !redisUp then CallMissesRedis(st, call) else CallStep(st, call, now);
    if a.call.Some? then Completed(a.store, a.call.value, redisUp, now) else a.store
  }

  /** One call of the aggregator taken off. */
  lemma OneStep(st: Store, call: Call, redisUp: bool, now: int)
    ensures var a := if call.pc.Counted? && !redisUp then CallMissesRedis(st, call) else CallStep(st, call, now);
      Completed(st, call, redisUp, now) == if a.call.Some? then Completed(a.store, a.call.value, redisUp, now) else a.store
  {
  }

  class Aggregator {
    const tasks: TaskRepo
    const cache: CounterCache

    constructor (repo: TaskRepo, counters: CounterCache)
      ensures tasks == repo && cache == counters
    {
      tasks, cache := repo, counters;
    }

    function State(): Store
      reads tasks, cache
    {
      Store(tasks.State(), cache.State())
    }

    /** A row was finished. `dbUp` and `redisUp` say whether the count in the database, resp. in Redis, goes through;
        when the former fails the mark is taken back. */
    method OnSubFinished(sub: nat, success: int, fail: int, dbUp: bool, redisUp: bool, now: int) returns (ok: bool)
      modifies tasks, cache
      ensures dbUp ==> ok
      ensures sub > 0 && ok ==> State() == Completed(old(State()), Call(Some(sub), success, fail, Begin), redisUp, now)
      ensures sub == 0 && ok ==> State() == if old(tasks.main).status.IsTerminal() then old(State())
                else Completed(old(State()), Call(Some(0), success, fail, Marked(old(tasks.main))), redisUp, now)
      ensures !dbUp ==> (ok <==> old(tasks.main).status.IsTerminal() || (sub > 0 && sub in old(cache.finished)))
      ensures !ok ==> State() == old(State())
    {
      ghost var call := Call(Some(sub), success, fail, Begin);
      var main := tasks.main;
      var marked := false;
      ghost var st := State();
      OneStep(st, call, redisUp, now);
      OneStep(st, call.(pc := Loaded(main)), redisUp, now);
      if sub > 0 {
        var first := cache.TryMarkSubFinished(sub);
        if !first {
          assert State().redis == old(State()).redis;
          return true;
        }
        marked := true;
      }
      if main.status.IsTerminal() {
        return true;
      }
      if !dbUp {
        if marked {
          cache.UnmarkSubFinished(sub);
          assert State().redis.finished == old(State()).redis.finished;
        }
        return false;
      }
      OneStep(State(), call.(pc := Marked(main)), redisUp, now);
      var _ := tasks.UpdateMainTaskStats(main.version, 0, 0, 1, main.status, now);
      OneStep(State(), call.(pc := Counted(main)), redisUp, now);
      var done := main.subDone + 1;
      if redisUp {
        var redisDone := cache.IncrSubDone(success, fail);
        if redisDone > done {
          done := redisDone;
        }
      }
      ok := true;
      if main.status != Paused {
        FinalizeIfDone(main, done, call, redisUp, now);
      }
    }

    /** The reaper's second chance: decides on the database count. */
    method FinalizeStale(redisUp: bool, now: int)
      modifies tasks, cache
      ensures State() == Completed(old(State()), Call(None, 0, 0, Begin), redisUp, now)
    {
      var main := tasks.main;
      if main.status == Running {
        FinalizeIfDone(main, main.subDone, Call(None, 0, 0, Begin), redisUp, now);
      }
    }

    method FinalizeIfDone(snapshot: MainTask, done: int, ghost call: Call, redisUp: bool, now: int)
      modifies tasks, cache
      ensures State() == Completed(old(State()), call.(pc := Deciding(snapshot, done)), redisUp, now)
    {
      var main := snapshot;
      ghost var st := State();
      OneStep(st, call.(pc := Deciding(main, done)), redisUp, now);
      if main.subTotal <= 0 || done < main.subTotal {
        return;
      }
      var succTotal, failTotal, _ := cache.GetSubDone();
      if succTotal == 0 && failTotal == 0 {
        succTotal, failTotal := main.successCount, main.failCount;
      }
      var final := Success;
      if failTotal == 0 {
        final := Success;
      } else if succTotal == 0 {
        final := Failed;
      } else {
        final := Partial;
      }
      ghost var exact := st.redis.done == main.subTotal && (st.redis.success != 0 || st.redis.fail != 0);
      assert final == FinalStatus(st.redis, main);
      OneStep(st, call.(pc := Swapping(main, final, exact)), redisUp, now);
      var ok := tasks.UpdateMainTaskStats(main.version, 0, 0, 0, final, now);
      if !ok {
        OneStep(st, call.(pc := Rereading(final, exact)), redisUp, now);
        OneStep(st, call.(pc := SwappingAgain(tasks.main, final, exact)), redisUp, now);
        main := tasks.main;
        if main.status.IsTerminal() || main.status == Paused {
          return;
        }
        ok := tasks.UpdateMainTaskStats(main.version, 0, 0, 0, final, now);
      }
    }
  }

  /** Reporting the same row again changes nothing, whatever became of the first report. */
  lemma SecondReportIgnored(st: Store, call: Call, up: bool, up2: bool, now: int, later: int)
    requires call.sub.Some? && call.pc.Begin?
    ensures var once := Completed(st, call, up, now);
      Completed(once, call, up2, later) == once
  {
    var loaded := call.(pc := Loaded(st.db.main));
    assert Completed(st, call, up, now) == Completed(st, loaded, up, now);
    if call.sub.value !in st.redis.finished && !st.db.main.status.IsTerminal() {
      KeepsMarks(st.(redis := st.redis.Mark(call.sub.value)), call.(pc := Marked(st.db.main)), up, now);
    }
    var once := Completed(st, call, up, now);
    assert call.sub.value in once.redis.finished;
  }

  lemma {:induction false} KeepsMarks(st: Store, call: Call, up: bool, now: int)
    requires !call.pc.Begin? && !call.pc.Loaded?
    ensures Completed(st, call, up, now).redis.finished == st.redis.finished
    decreases Rank(call.pc)
  {
    var a := if call.pc.Counted? && !up then CallMissesRedis(st, call) else CallStep(st, call, now);
    if a.call.Some? {
      KeepsMarks(a.store, a.call.value, up, now);
    }
  }
}
