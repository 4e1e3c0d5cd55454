/** What holds of a campaign over whole runs. */
module CampaignRuns {
  import opened Status
  import opened SetSums
  import opened TaskRows
  import opened Aggregation
  import opened Protocol
  import opened Invariant
  import opened CountingSteps
  import opened RetryKeepsInvariant
  import opened Stragglers
  import opened AnyRun
  import opened SafeRetries

  // ---- what the last Retry overtook ----

  /** The state a Retry found, and the rows and counters it left. */
  datatype Overtaking = Overtaking(before: Sys, store: Store)

  ghost function LastRetry(cfg: Config, steps: seq<Step>): Option<Overtaking> {
    if steps == [] then None
    else
      var n := |steps| - 1;
      var s := After(cfg, Init(), steps[..n]);
      if Retries(cfg, s, steps[n]) then Some(Overtaking(s, Next(cfg, s, steps[n]).store)) else LastRetry(cfg, steps[..n])
  }

  /** The last Retry of the run overtook no live call. What happened before it does not matter. */
  ghost predicate LastQuiet(cfg: Config, steps: seq<Step>) {
    var r := LastRetry(cfg, steps);
    r.Some? ==> NoneLive(r.value.before, r.value.store)
  }

  /** The last Retry of the run overtook no call that was about to count in Redis. */
  ghost predicate RedisKept(cfg: Config, steps: seq<Step>) {
    var r := LastRetry(cfg, steps);
    r.Some? ==> NoneCounted(r.value.before)
  }

  /** It overtook none whose count spoils the sums in Redis. */
  ghost predicate SumsKept(cfg: Config, steps: seq<Step>) {
    var r := LastRetry(cfg, steps);
    r.Some? ==> NoneSpoils(r.value.before, r.value.store)
  }

  /** A call that began since the last Retry fails before it has counted its row in the database. */
  predicate LosesCount(s: Sys, step: Step) {
    step.LoseCall? && step.call in s.calls && step.call !in s.earlier && BeforeDb(s.calls[step.call])
  }

  /** The last Retry of the run overtook no call that could block a count, and no count was lost since. */
  ghost predicate CountsKept(cfg: Config, steps: seq<Step>) {
    steps != [] ==>
      var n := |steps| - 1;
      var s := After(cfg, Init(), steps[..n]);
      if Retries(cfg, s, steps[n]) then NoneBlocks(s, Next(cfg, s, steps[n]).store)
      else CountsKept(cfg, steps[..n]) && !LosesCount(s, steps[n])
  }

  lemma CallHistory(s: Sys, step: Step)
    requires IsCallStep(step)
    ensures var s' := CallMoves(s, step);
      s'.mixed == s.mixed && s'.spoiled == s.spoiled && s'.clean == (s.clean && !LosesCount(s, step))
  {
    match step
    case Aggregate(c, now) =>
    case MissRedis(c) =>
    case LoseCall(c, unmark) =>
  }

  lemma BeginHistory(s: Sys, step: Step)
    requires BeginsCall(step)
    ensures var s' := BeginMoves(s, step); s'.mixed == s.mixed && s'.spoiled == s.spoiled && s'.clean == s.clean
  {
  }

  lemma HistoryNext(cfg: Config, s: Sys, step: Step)
    requires !Retries(cfg, s, step)
    ensures var s' := Next(cfg, s, step);
      s'.mixed == s.mixed && s'.spoiled == s.spoiled && s'.clean == (s.clean && !LosesCount(s, step))
  {
    if IsCallStep(step) {
      NextCallHistory(cfg, s, step);
    } else if BeginsCall(step) {
      NextBeginHistory(cfg, s, step);
    } else {
      NextOtherHistory(cfg, s, step);
    }
  }

  lemma NextCallHistory(cfg: Config, s: Sys, step: Step)
    requires IsCallStep(step)
    ensures var s' := Next(cfg, s, step);
      s'.mixed == s.mixed && s'.spoiled == s.spoiled && s'.clean == (s.clean && !LosesCount(s, step))
  {
    CallHistory(s, step);
  }

  lemma NextBeginHistory(cfg: Config, s: Sys, step: Step)
    requires BeginsCall(step)
    ensures var s' := Next(cfg, s, step); s'.mixed == s.mixed && s'.spoiled == s.spoiled && s'.clean == s.clean
  {
    BeginHistory(s, step);
  }

  lemma NextOtherHistory(cfg: Config, s: Sys, step: Step)
    requires !IsCallStep(step) && !BeginsCall(step) && !Retries(cfg, s, step)
    ensures var s' := Next(cfg, s, step); s'.mixed == s.mixed && s'.spoiled == s.spoiled && s'.clean == s.clean
  {
  }

  lemma RetryHistory(cfg: Config, s: Sys, step: Step)
    requires Retries(cfg, s, step)
    ensures var s' := Next(cfg, s, step);
      s'.mixed == !NoneCounted(s) && s'.spoiled == !NoneSpoils(s, s'.store) && s'.clean == NoneBlocks(s, s'.store)
  {
  }

  /** The history kept in the state says so. */
  lemma {:induction false} HistoryTells(cfg: Config, steps: seq<Step>)
    ensures var s := After(cfg, Init(), steps);
      s.mixed == !RedisKept(cfg, steps) && s.spoiled == !SumsKept(cfg, steps) && s.clean == CountsKept(cfg, steps)
  {
    if steps != [] {
      var n := |steps| - 1;
      var s := After(cfg, Init(), steps[..n]);
      HistoryTells(cfg, steps[..n]);
      if Retries(cfg, s, steps[n]) { RetryHistory(cfg, s, steps[n]); } else { HistoryNext(cfg, s, steps[n]); }
    }
  }

  // ---- the invariant ----

  lemma InitSound(cfg: Config)
    ensures Sound(cfg, Init())
  {
    RowsAlways(cfg, []);
    InitInv(cfg);
    assert Current(Init()) == Init();
  }

  lemma {:induction false} RunKeeps(cfg: Config, steps: seq<Step>)
    requires LastQuiet(cfg, steps)
    ensures Sound(cfg, After(cfg, Init(), steps))
  {
    if steps == [] {
      InitSound(cfg);
    } else {
      var n := |steps| - 1;
      var s := After(cfg, Init(), steps[..n]);
      RowsAlways(cfg, steps[..n]);
      if !Retries(cfg, s, steps[n]) { RunKeeps(cfg, steps[..n]); }
      NextKeeps(cfg, s, steps[n]);
    }
  }

  /** Whatever went wrong in a run, Retries over live calls and lost counts included: a Retry that goes through while no
      call is under way puts everything right again. */
  lemma RetryHeals(cfg: Config, steps: seq<Step>, step: Step)
    requires var s := After(cfg, Init(), steps); Retries(cfg, s, step) && s.calls == map[]
    ensures var run := steps + [step];
      && Sound(cfg, After(cfg, Init(), run))
      && LastQuiet(cfg, run) && CountsKept(cfg, run) && SumsKept(cfg, run) && RedisKept(cfg, run)
  {
    var run := steps + [step];
    assert run[..|run| - 1] == steps;
    RunKeeps(cfg, run);
  }

  // ---- counts ----

  lemma CountBounds(cfg: Config, s: Sys)
    requires Inv(cfg, s)
    ensures s.Main().subDone <= |FinishedIds(s.Subs())| && (!s.mixed ==> s.store.redis.done <= s.Main().subDone)
  {
    SubsetCard(s.rdCounted, s.dbCounted);
    SubsetCard(s.dbCounted, FinishedIds(s.Subs()));
  }

  /** No aggregator call is under way. */
  predicate AtRest(s: Sys) {
    s.calls == map[] && !s.Main().status.IsTerminal()
  }

  lemma RestCounts(cfg: Config, s: Sys)
    requires Inv(cfg, s) && s.clean && AtRest(s)
    ensures s.Main().subDone == |FinishedIds(s.Subs())|
  {
    assert FinishedIds(s.Subs()) == s.dbCounted;
  }

  // ---- no early finish ----

  /** The aggregator closes the campaign with this step. */
  ghost predicate Closes(cfg: Config, s: Sys, step: Step) {
    step.Aggregate? && !s.Main().status.IsTerminal() && Next(cfg, s, step).Main().status.IsTerminal()
  }

  /** Whenever the aggregator closes a campaign, every row is finished and the total counts every row; and if the count
      in Redis was full when the totals were read, and the last Retry kept the sums, the status is the one the rows
      give. */
  lemma NoEarlyFinish(cfg: Config, steps: seq<Step>, step: Step)
    requires LastQuiet(cfg, steps)
    requires var s := After(cfg, Init(), steps); Closes(cfg, s, step)
    ensures var s := After(cfg, Init(), steps);
      RightlyClosed(s, step, Next(cfg, s, step)) && (SumsKept(cfg, steps) ==> RightlyJudged(s, step, Next(cfg, s, step)))
  {
    RunKeeps(cfg, steps);
    HistoryTells(cfg, steps);
    ClosedRows(cfg, After(cfg, Init(), steps), step);
  }

  ghost predicate RightlyClosed(s: Sys, step: Step, closed: Sys) {
    && step.Aggregate? && step.call in s.calls
    && closed.Subs() == s.Subs()
    && AllFinished(closed) && AllTerminal(closed.Subs())
    && closed.Main().subTotal == |closed.Subs()|
  }

  ghost predicate RightlyJudged(s: Sys, step: Step, closed: Sys) {
    && step.Aggregate? && step.call in s.calls
    && (s.calls[step.call].pc.Swapping? || s.calls[step.call].pc.SwappingAgain?)
    && (s.calls[step.call].pc.exact ==> GivenByRows(closed.Subs(), closed.Main().status))
  }

  /** What the successes and failures of users say: all well, all failed, or some of each. */
  predicate GivenBy(status: TaskStatus, success: int, fail: int) {
    && (status == Success <==> fail == 0)
    && (status == Failed <==> fail != 0 && success == 0)
    && (status == Partial <==> fail != 0 && success != 0)
  }

  ghost predicate GivenByRows(subs: map<nat, SubTask>, status: TaskStatus) {
    GivenBy(status, Sum(subs.Keys, SuccessOf(subs)), Sum(subs.Keys, FailOf(subs)))
  }

  lemma GivenVerdict(subs: map<nat, SubTask>, status: TaskStatus)
    ensures status == TrueVerdict(subs) <==> GivenByRows(subs, status)
  {
  }

  lemma ClosedRows(cfg: Config, s: Sys, step: Step)
    requires Sound(cfg, s)
    ensures Closes(cfg, s, step) ==>
              RightlyClosed(s, step, Next(cfg, s, step)) && (!s.spoiled ==> RightlyJudged(s, step, Next(cfg, s, step)))
  {
    if Closes(cfg, s, step) {
      var c := step.call;
      if c in s.earlier {
        DeadEnds(s, c, step.now);
      } else {
        CurrentAggregate(s, c, step.now);
        ClosingStep(cfg, Current(s), c, step.now);
        FinishedAreTerminal(s.Subs());
      }
      GivenVerdict(s.Subs(), Next(cfg, s, step).Main().status);
    }
  }

  lemma FinishedAreTerminal(subs: map<nat, SubTask>)
    requires FinishedIds(subs) == subs.Keys
    ensures AllTerminal(subs)
  {
    forall id | id in subs ensures subs[id].status.IsTerminal() {
      assert id in FinishedIds(subs);
    }
  }

  lemma OnlySwapsClose(s: Sys, c: nat, now: int)
    requires c in s.calls && !s.Main().status.IsTerminal() && s.Main().status !in {Draft, Pending, Retrying}
    requires s.calls[c].pc.Marked? ==> !s.calls[c].pc.main.status.IsTerminal()
    ensures var s' := AggregateStep(s, c, now);
      && s'.Subs() == s.Subs() && s'.Main().subTotal == s.Main().subTotal
      && (s'.Main().status.IsTerminal() ==>
            && (s.calls[c].pc.Swapping? || s.calls[c].pc.SwappingAgain?)
            && s'.Main().status == s.calls[c].pc.final)
  {
    if s.calls[c].pc.Marked? { DbCountWrites(s.store.db, s.calls[c].pc.main, now); }
  }

  lemma ClosingStep(cfg: Config, s: Sys, c: nat, now: int)
    requires Inv(cfg, s) && c in s.calls
    requires !s.Main().status.IsTerminal() && AggregateStep(s, c, now).Main().status.IsTerminal()
    ensures s.calls[c].pc.Swapping? || s.calls[c].pc.SwappingAgain?
    ensures ClosingOk(s, AggregateStep(s, c, now).Main().status, s.calls[c].pc.exact)
    ensures AggregateStep(s, c, now).Subs() == s.Subs()
    ensures AggregateStep(s, c, now).Main().subTotal == |s.Subs()|
  {
    PhaseOfCall(s, c);
    assert PcOk(s, s.calls[c]);
    OnlySwapsClose(s, c, now);
  }
}
