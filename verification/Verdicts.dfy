/** The status a campaign is closed with, over whole runs: what it is decided on, and what the rows say of it. */
module Verdicts {
  import opened Status
  import opened TaskRows
  import opened Aggregation
  import opened Protocol
  import opened CallRows
  import opened Stragglers
  import opened AnyRun
  import opened CampaignRuns

  /** The user totals a call that decides goes by: those in Redis, or those of the row it read when both are zero there. */
  predicate ByTotals(redis: Counters, main: MainTask, final: TaskStatus) {
    if redis.success == 0 && redis.fail == 0 then GivenBy(final, main.successCount, main.failCount)
    else GivenBy(final, redis.success, redis.fail)
  }

  predicate FullCount(redis: Counters, main: MainTask) {
    redis.done == main.subTotal && (redis.success != 0 || redis.fail != 0)
  }

  /** Step i of the run is call c deciding on `final`. */
  ghost predicate DecidedAt(cfg: Config, steps: seq<Step>, i: nat, c: nat, final: TaskStatus, exact: bool) {
    && i < |steps| && steps[i].Aggregate? && steps[i].call == c
    && var s := After(cfg, Init(), steps[..i]);
       && c in s.calls && s.calls[c].pc.Deciding?
       && 0 < s.calls[c].pc.main.subTotal <= s.calls[c].pc.done
       && ByTotals(s.store.redis, s.calls[c].pc.main, final)
       && (exact <==> FullCount(s.store.redis, s.calls[c].pc.main))
  }

  ghost predicate Decided(cfg: Config, steps: seq<Step>, c: nat, final: TaskStatus, exact: bool) {
    exists i: nat :: DecidedAt(cfg, steps, i, c, final, exact)
  }

  ghost predicate PcDecided(cfg: Config, steps: seq<Step>, c: nat, pc: Pc) {
    match pc
    case Swapping(_, final, exact) => Decided(cfg, steps, c, final, exact)
    case Rereading(final, exact) => Decided(cfg, steps, c, final, exact)
    case SwappingAgain(_, final, exact) => Decided(cfg, steps, c, final, exact)
    case _ => true
  }

  lemma DecidedLater(cfg: Config, steps: seq<Step>, step: Step, c: nat, final: TaskStatus, exact: bool)
    requires Decided(cfg, steps, c, final, exact)
    ensures Decided(cfg, steps + [step], c, final, exact)
  {
    var i: nat :| DecidedAt(cfg, steps, i, c, final, exact);
    assert (steps + [step])[..i] == steps[..i];
    assert DecidedAt(cfg, steps + [step], i, c, final, exact);
  }

  lemma PcLater(cfg: Config, steps: seq<Step>, step: Step, c: nat, pc: Pc)
    requires PcDecided(cfg, steps, c, pc)
    ensures PcDecided(cfg, steps + [step], c, pc)
  {
    if pc.Swapping? || pc.Rereading? || pc.SwappingAgain? { DecidedLater(cfg, steps, step, c, pc.final, pc.exact); }
  }

  /** Where a call goes from here, as far as the decision is concerned. */
  lemma CallDecides(st: Store, call: Call, now: int)
    ensures var a := CallStep(st, call, now);
      a.call.Some? ==>
        match a.call.value.pc
        case Swapping(main, final, exact) =>
          && call.pc.Deciding? && call.pc.main == main && 0 < main.subTotal <= call.pc.done
          && ByTotals(st.redis, main, final) && (exact <==> FullCount(st.redis, main))
        case Rereading(final, exact) => call.pc.Swapping? && call.pc.final == final && call.pc.exact == exact
        case SwappingAgain(_, final, exact) => call.pc.Rereading? && call.pc.final == final && call.pc.exact == exact
        case _ => true
  {
  }

  lemma CallStaysDecided(cfg: Config, steps: seq<Step>, c: nat, now: int)
    requires var s := After(cfg, Init(), steps); c in s.calls && PcDecided(cfg, steps, c, s.calls[c].pc)
    ensures var s := After(cfg, Init(), steps);
      var a := CallStep(s.store, s.calls[c], now);
      a.call.Some? ==> PcDecided(cfg, steps + [Aggregate(c, now)], c, a.call.value.pc)
  {
    var s := After(cfg, Init(), steps);
    var run := steps + [Aggregate(c, now)];
    var a := CallStep(s.store, s.calls[c], now);
    CallDecides(s.store, s.calls[c], now);
    if a.call.Some? && a.call.value.pc.Swapping? {
      assert run[..|steps|] == steps;
      assert DecidedAt(cfg, run, |steps|, c, a.call.value.pc.final, a.call.value.pc.exact);
    } else if a.call.Some? && (a.call.value.pc.Rereading? || a.call.value.pc.SwappingAgain?) {
      DecidedLater(cfg, steps, Aggregate(c, now), c, a.call.value.pc.final, a.call.value.pc.exact);
    }
  }

  /** Whatever call moves, its old state and its new one, if it has one. */
  lemma CallFrom(cfg: Config, s: Sys, step: Step, c: nat)
    requires c in Next(cfg, s, step).calls
    ensures var call := Next(cfg, s, step).calls[c];
      || (c in s.calls && call == s.calls[c])
      || (step.Aggregate? && step.call == c && c in s.calls
          && CallStep(s.store, s.calls[c], step.now).call == Some(call))
      || call.pc.Begin? || call.pc.Deciding?
  {
    if step.Aggregate? {
      if step.call in s.calls { CallSettles(s, step.call, step.now); }
    } else if step.MissRedis? {
      CallMisses(s, step.call);
    } else {
      CallsMoveAlone(cfg, s, step);
    }
  }

  lemma CallMisses(s: Sys, c: nat)
    ensures var s' := MissRedisStep(s, c);
      forall d :: d in s'.calls ==> (d in s.calls && s'.calls[d] == s.calls[d]) || s'.calls[d].pc.Deciding?
  {
  }

  lemma DecidedStays(cfg: Config, steps: seq<Step>, step: Step, c: nat)
    requires forall d :: d in After(cfg, Init(), steps).calls ==> PcDecided(cfg, steps, d, After(cfg, Init(), steps).calls[d].pc)
    requires c in Next(cfg, After(cfg, Init(), steps), step).calls
    ensures PcDecided(cfg, steps + [step], c, Next(cfg, After(cfg, Init(), steps), step).calls[c].pc)
  {
    var s := After(cfg, Init(), steps);
    CallFrom(cfg, s, step, c);
    var call := Next(cfg, s, step).calls[c];
    if c in s.calls && call == s.calls[c] {
      PcLater(cfg, steps, step, c, call.pc);
    } else if step.Aggregate? && step.call == c && c in s.calls {
      CallStaysDecided(cfg, steps, c, step.now);
    }
  }

  /** Every call that holds a status decided on it earlier in the run. */
  lemma {:induction false} AllDecided(cfg: Config, steps: seq<Step>)
    ensures forall c :: c in After(cfg, Init(), steps).calls ==> PcDecided(cfg, steps, c, After(cfg, Init(), steps).calls[c].pc)
  {
    if steps != [] {
      var n := |steps| - 1;
      AllDecided(cfg, steps[..n]);
      assert steps[..n] + [steps[n]] == steps;
      forall c | c in After(cfg, Init(), steps).calls ensures PcDecided(cfg, steps, c, After(cfg, Init(), steps).calls[c].pc) {
        DecidedStays(cfg, steps[..n], steps[n], c);
      }
    }
  }

  lemma CloserHolds(cfg: Config, s: Sys, step: Step)
    requires RowsSound(cfg, s) && Closes(cfg, s, step)
    ensures step.call in s.calls && (s.calls[step.call].pc.Swapping? || s.calls[step.call].pc.SwappingAgain?)
    ensures Next(cfg, s, step).Main().status == s.calls[step.call].pc.final
  {
    if step.call in s.calls {
      assert Formed(s.calls[step.call], s.Main().subTotal);
      ErasedPhase(s, step.call);
      OnlySwapsClose(s, step.call, step.now);
    }
  }

  /** In every run, Retries of any kind included: the aggregator closes a campaign with the status that the same call
      decided on earlier, success, failed or partial by the user totals it then found. */
  lemma ClosedAsDecided(cfg: Config, steps: seq<Step>, step: Step)
    requires Closes(cfg, After(cfg, Init(), steps), step)
    ensures var s := After(cfg, Init(), steps);
      && step.call in s.calls && (s.calls[step.call].pc.Swapping? || s.calls[step.call].pc.SwappingAgain?)
      && Decided(cfg, steps, step.call, Next(cfg, s, step).Main().status, s.calls[step.call].pc.exact)
  {
    var s := After(cfg, Init(), steps);
    AllDecided(cfg, steps);
    RowsAlways(cfg, steps);
    CloserHolds(cfg, s, step);
  }
}
