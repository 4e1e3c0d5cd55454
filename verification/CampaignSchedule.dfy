/** A recurring campaign: its cron schedule between a start and an end, for a number of runs. Times are seconds on
    the schedule's fixed-offset clock. */
module CampaignSchedule {
  import opened Status
  import opened CronSchedule
  import CronReach

  datatype Plan = Plan(cron: Schedule, startAt: Option<nat>, endAt: Option<nat>, maxRuns: int, runCount: int)
  {
    predicate Valid() {
      cron.Valid() && (startAt.Some? ==> startAt.value >= 60)
    }

    predicate UsedUp() {
      maxRuns > 0 && runCount >= maxRuns
    }

    predicate Exhausted(now: nat) {
      UsedUp() || (endAt.Some? && now > endAt.value)
    }

    /** The moment the search starts from. */
    function From(after: nat): nat
      requires Valid()
    {
      if startAt.Some? && after < startAt.value then startAt.value - 60 else after
    }
  }

  datatype Answer = NoMatch | Over | At(minute: nat)

  /** What the next firing found leads to. */
  function Decide(p: Plan, next: Option<nat>): Answer {
    match next
    case None => NoMatch
    case Some(m) =>
      if p.endAt.Some? && m * 60 > p.endAt.value then Over
      else if p.UsedUp() then Over
      else At(m)
  }

  method ComputeNext(p: Plan, after: nat) returns (answer: Answer)
    requires p.Valid()
    ensures exists next :: IsNext(p.cron, p.From(after), next) && answer == Decide(p, next)
  {
    var from := after;
    if p.startAt.Some? && after < p.startAt.value {
      from := p.startAt.value - 60;
    }
    var next := Next(p.cron, from);
    assert IsNext(p.cron, p.From(after), next);
    if next.None? {
      return NoMatch;
    }
    if p.endAt.Some? && next.value * 60 > p.endAt.value {
      return Over;
    }
    if p.maxRuns > 0 && p.runCount >= p.maxRuns {
      return Over;
    }
    answer := At(next.value);
  }

  /** The run that is planned is the first firing after the moment asked about, or, asked before the start, after the minute
      before it; there is none if nothing fires in the search window, if the end comes first or if the runs are used up. */
  lemma PlannedIff(p: Plan, after: nat, next: Option<nat>, m: nat)
    requires p.Valid() && IsNext(p.cron, p.From(after), next)
    ensures var from := if p.startAt.Some? && after < p.startAt.value then p.startAt.value - 60 else after;
      Decide(p, next) == At(m) <==>
        && p.cron.Fires(m) && from < m * 60 && m < SearchEnd(from)
        && (forall k :: from < k * 60 && k < m ==> !p.cron.Fires(k))
        && (p.endAt.Some? ==> m * 60 <= p.endAt.value)
        && (p.maxRuns > 0 ==> p.runCount < p.maxRuns)
    ensures Decide(p, next) == NoMatch <==> next == None
  {
    var from := if p.startAt.Some? && after < p.startAt.value then p.startAt.value - 60 else after;
    assert from == p.From(after);
    AfterMinute(from);
    if next.Some? && next.value < m && p.cron.Fires(next.value) { assert from < next.value * 60; }
  }

  /** The minutes after second `from` are those from the next whole one on. */
  lemma AfterMinute(from: nat)
    ensures forall k: nat :: from < k * 60 <==> from / 60 + 1 <= k
  {
  }

  /** A plan is over when its runs are used up or its end has passed. */
  lemma OverIff(p: Plan, now: nat)
    ensures p.Exhausted(now) <==> (p.maxRuns > 0 && p.maxRuns <= p.runCount) || (p.endAt.Some? && p.endAt.value < now)
  {
  }

  lemma MinuteBefore(start: nat)
    requires start >= 60
    ensures (start - 60) / 60 + 1 == start / 60
  {
  }

  /** The first firing lies before the start exactly when the start is not on a whole minute and its minute fires:
      the search begins one minute back, at the whole minute the start falls in. */
  lemma FirstRunEarly(p: Plan, after: nat, m: nat)
    requires p.Valid() && p.startAt.Some? && after < p.startAt.value
    requires IsNext(p.cron, p.From(after), Some(m))
    ensures var start := p.startAt.value;
      m * 60 < start <==> start % 60 != 0 && p.cron.Fires(start / 60)
  {
    var start := p.startAt.value;
    MinuteBefore(start);
    if p.cron.Fires(start / 60) {
      assert !(start / 60 < m);
    }
  }

  /** A plan for "* * * * *" that starts at half past a minute: asked before its start, it runs thirty seconds early. */
  lemma HalfAMinuteEarly(s: Schedule, expr: string, start: nat, after: nat)
    requires expr == CronReach.Expr(CronReach.EVERY_MINUTE) && ReadFrom(s, expr)
    requires start >= 60 && start % 60 == 30 && after < start
    ensures var p := Plan(s, Some(start), None, 0, 0);
      && p.Valid() && IsNext(p.cron, p.From(after), Some(start / 60))
      && Decide(p, Some(start / 60)) == At(start / 60) && start / 60 * 60 == start - 30
    ensures expr == "* * * * *"
  {
    CronReach.EveryMinuteWritten();
    CronReach.EveryMinute(s, expr, start / 60);
    NextMinuteFires(s, start - 60, start / 60);
  }

  lemma NextMinuteFires(s: Schedule, from: nat, m: nat)
    requires s.Valid() && s.Fires(m) && m == from / 60 + 1
    ensures IsNext(s, from, Some(m))
  {
    SearchReaches(m);
  }

  lemma SearchReaches(t: nat)
    ensures t < (t / MINUTES_IN_A_DAY + MAX_LOOKAHEAD_DAYS + 1) * MINUTES_IN_A_DAY
  {
    assert t < (t / MINUTES_IN_A_DAY + 1) * MINUTES_IN_A_DAY;
  }

  /** A plan that is over plans nothing more. */
  lemma ExhaustedPlansNothing(p: Plan, now: nat, next: Option<nat>)
    requires p.Valid() && p.Exhausted(now) && IsNext(p.cron, p.From(now), next)
    requires p.startAt.Some? && p.endAt.Some? ==> p.startAt.value <= p.endAt.value
    ensures !Decide(p, next).At?
  {
  }
}
