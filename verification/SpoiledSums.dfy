/** A call that counts in Redis after a Retry puts the count there ahead of the database, and may put a wrong sum
    beside it. When exactly a Retry leaves room for that. */
module SpoiledSums {
  import opened Status
  import opened SetSums
  import opened TaskRows
  import opened Aggregation
  import opened Protocol
  import opened Invariant
  import opened RetryKeepsInvariant
  import opened Stragglers
  import opened AnyRun
  import opened SafeRetries
  import opened CampaignRuns
  import opened RetryFaults

  // ---- the count in Redis ----

  /** Some continuation in which nothing fails has Redis count more rows than the database. */
  ghost predicate MayRunAhead(cfg: Config, s: Sys) {
    exists s' :: Leads(cfg, s, s') && s'.store.redis.done > s'.Main().subDone
  }

  /** No continuation without a Retry, whatever fails in it, does. */
  ghost predicate NeverAhead(cfg: Config, s: Sys) {
    forall steps :: NoRetry(steps) ==> After(cfg, s, steps).store.redis.done <= After(cfg, s, steps).Main().subDone
  }

  /** A call of a paused campaign counts in Redis and ends. */
  lemma CountsAndEnds(s: Sys, c: nat)
    requires c in s.calls && s.calls[c].pc.Counted? && s.calls[c].pc.main.status == Paused && c in s.earlier
    ensures AggregateStep(s, c, 0) ==
      s.(store := s.store.(redis := s.store.redis.IncrSubDone(s.calls[c].success, s.calls[c].fail)), calls := s.calls - {c})
  {
  }

  lemma CounterRunsAhead(cfg: Config, r: Sys, c: nat)
    requires Reset(r) && c in r.calls && r.calls[c].pc.Counted? && r.calls[c].pc.main.status == Paused && c in r.earlier
    ensures MayRunAhead(cfg, r)
  {
    LeadsHere(cfg, r);
    AggregateOn(cfg, r, r, c, 0);
    CountsAndEnds(r, c);
  }

  lemma {:induction false} FlagsOn(cfg: Config, s: Sys, steps: seq<Step>)
    requires NoRetry(steps)
    ensures After(cfg, s, steps).mixed == s.mixed && After(cfg, s, steps).spoiled == s.spoiled
  {
    if steps != [] {
      var n := |steps| - 1;
      FlagsOn(cfg, s, steps[..n]);
      HistoryNext(cfg, After(cfg, s, steps[..n]), steps[n]);
    }
  }

  lemma UnmixedNeverAhead(cfg: Config, s: Sys)
    requires Sound(cfg, s) && !s.mixed
    ensures NeverAhead(cfg, s)
  {
    forall steps | NoRetry(steps) ensures After(cfg, s, steps).store.redis.done <= After(cfg, s, steps).Main().subDone {
      SoundOn(cfg, s, steps);
      FlagsOn(cfg, s, steps);
      CountBounds(cfg, Current(After(cfg, s, steps)));
    }
  }

  lemma AheadOrNever(cfg: Config, s: Sys)
    requires MayRunAhead(cfg, s)
    ensures !NeverAhead(cfg, s)
  {
    var s' :| Leads(cfg, s, s') && s'.store.redis.done > s'.Main().subDone;
    var steps :| AllSmooth(steps) && After(cfg, s, steps) == s';
    assert NoRetry(steps);
  }

  // ---- the verdict ----

  /** The aggregator closes the campaign on a full count in Redis with a status its rows do not give. */
  ghost predicate Misjudges(cfg: Config, s: Sys, step: Step) {
    Closes(cfg, s, step) && !RightlyJudged(s, step, Next(cfg, s, step))
  }

  ghost predicate MayMisjudge(cfg: Config, s: Sys) {
    exists s', step :: MisjudgedAt(cfg, s, s', step)
  }

  ghost predicate MisjudgedAt(cfg: Config, s: Sys, s': Sys, step: Step) {
    Leads(cfg, s, s') && Misjudges(cfg, s', step)
  }

  ghost predicate NeverMisjudges(cfg: Config, s: Sys) {
    forall steps, step :: NoRetry(steps) ==> !Misjudges(cfg, After(cfg, s, steps), step)
  }

  lemma UnspoiledNeverMisjudges(cfg: Config, s: Sys)
    requires Sound(cfg, s) && !s.spoiled
    ensures NeverMisjudges(cfg, s)
  {
    forall steps, step | NoRetry(steps) ensures !Misjudges(cfg, After(cfg, s, steps), step) {
      SoundOn(cfg, s, steps);
      FlagsOn(cfg, s, steps);
      ClosedRows(cfg, After(cfg, s, steps), step);
    }
  }

  lemma MisjudgesOrNever(cfg: Config, s: Sys)
    requires MayMisjudge(cfg, s)
    ensures !NeverMisjudges(cfg, s)
  {
    var s', step :| MisjudgedAt(cfg, s, s', step);
    var steps :| AllSmooth(steps) && After(cfg, s, steps) == s';
    assert NoRetry(steps);
  }

  // ---- from the Retry to a wrong verdict ----

  /** Every row is finished, nobody failed in any but possibly `x`, and the counts are full. */
  predicate Misled(s: Sys, x: nat) {
    && s.Main().status == Running && s.Main().owner == "" && s.Main().subTotal == |s.Subs()| > 0
    && s.Main().subDone == s.Main().subTotal == s.store.redis.done
    && x in s.Subs() && (forall id :: id in s.Subs() && id != x ==> s.Subs()[id].fail == 0)
    && (s.store.redis.success != 0 || s.store.redis.fail != 0)
    && (s.store.redis.fail == 0 <==> s.Subs()[x].fail != 0)
  }

  lemma TrueFail(subs: map<nat, SubTask>, x: nat)
    requires x in subs && forall id :: id in subs && id != x ==> subs[id].fail == 0
    ensures TrueVerdict(subs) == Success <==> subs[x].fail == 0
  {
    SumTakeOut(subs.Keys, FailOf(subs), x);
    SumZero(subs.Keys - {x}, FailOf(subs));
  }

  /** The reaper's call is about to close the campaign on the totals in Redis. */
  predicate ReaperSwaps(s: Sys, s': Sys, c: nat) {
    && s'.store == s.store && c in s'.calls
    && s'.calls[c].pc == Swapping(s.Main(), FinalStatus(s.store.redis, s.Main()), true)
  }

  lemma ReaperReads(s: Sys, now: int)
    requires s.Main().status == Running && s.Main().owner == "" && s.Main().subDone >= s.Main().subTotal > 0
    requires now > s.Main().updatedAt + DEFAULT_STALE_SEC
    ensures var s1 := ReapStep(s, 0, now);
      var s2 := AggregateStep(s1, s.nextCall, now);
      s2.store == s.store && s.nextCall in s2.calls && s2.calls[s.nextCall] == Call(None, 0, 0, Deciding(s.Main(), s.Main().subDone))
  {
  }

  lemma ReaperDecides(s: Sys, s1: Sys, c: nat, now: int)
    requires s1.store == s.store && c in s1.calls && s1.calls[c] == Call(None, 0, 0, Deciding(s.Main(), s.Main().subDone))
    requires s.Main().subDone == s.Main().subTotal == s.store.redis.done && s.Main().subTotal > 0
    requires s.store.redis.success != 0 || s.store.redis.fail != 0
    ensures ReaperSwaps(s, AggregateStep(s1, c, now), c)
  {
  }

  lemma ReaperCloses(s: Sys, c: nat, now: int, final: TaskStatus)
    requires c in s.calls && s.calls[c].pc == Swapping(s.Main(), final, true) && s.Main().status == Running && final.IsTerminal()
    ensures var s' := AggregateStep(s, c, now); s'.Main().status == final && s'.Subs() == s.Subs()
  {
  }

  lemma SwapMisjudges(cfg: Config, s: Sys, s': Sys, c: nat, x: nat)
    requires Misled(s, x) && ReaperSwaps(s, s', c)
    ensures Misjudges(cfg, s', Aggregate(c, 0))
  {
    TrueFail(s.Subs(), x);
    ReaperCloses(s', c, 0, FinalStatus(s.store.redis, s.Main()));
    ClosesWrongly(cfg, s', c, AggregateStep(s', c, 0));
  }

  lemma ClosesWrongly(cfg: Config, s: Sys, c: nat, closed: Sys)
    requires c in s.calls && s.calls[c].pc.Swapping? && s.calls[c].pc.exact && !s.Main().status.IsTerminal()
    requires closed == AggregateStep(s, c, 0) && closed.Main().status.IsTerminal()
    requires closed.Main().status != TrueVerdict(closed.Subs())
    ensures Misjudges(cfg, s, Aggregate(c, 0))
  {
    GivenVerdict(closed.Subs(), closed.Main().status);
  }

  lemma ReaperComes(cfg: Config, r: Sys, s: Sys, x: nat) returns (s': Sys)
    requires Leads(cfg, r, s) && Misled(s, x)
    ensures Leads(cfg, r, s') && ReaperSwaps(s, s', s.nextCall)
  {
    var now := s.Main().updatedAt + DEFAULT_STALE_SEC + 1;
    var c := s.nextCall;
    var s1 := ReapStep(s, 0, now);
    var s2 := AggregateStep(s1, c, now);
    s' := AggregateStep(s2, c, now);
    ReapOn(cfg, r, s, now);
    AggregateOn(cfg, r, s1, c, now);
    AggregateOn(cfg, r, s2, c, now);
    ReaperReads(s, now);
    ReaperDecides(s, s2, c, now);
  }

  /** After the overtaken call has counted: the count in Redis is full, the open row `x` is still to be sent. */
  predicate Spoilt(s: Sys, x: nat) {
    && Ready(s) && Open(s) == {x} && x !in s.store.redis.finished && FreshRows(s.Subs())
    && s.Main().subDone + 1 == s.Main().subTotal == s.store.redis.done && s.Main().subTotal > 0
    && (s.store.redis.success != 0 || s.store.redis.fail != 0)
  }

  /** The row is reported so that its outcome contradicts the sums, and counted in the database. */
  lemma SpoiltMisleads(cfg: Config, r: Sys, s: Sys, x: nat) returns (s': Sys)
    requires Leads(cfg, r, s) && Spoilt(s, x)
    ensures Leads(cfg, r, s') && Misled(s', x) && s'.Subs().Keys == s.Subs().Keys
    ensures s'.Subs()[x].status == if s.store.redis.fail != 0 then Success else Failed
    ensures s'.store.redis == s.store.redis.Mark(x)
  {
    var ok := s.store.redis.fail != 0;
    var s1 := ClaimRow(cfg, r, s, x);
    var s2 := ReportRow(cfg, r, s1, x, ok);
    var s3 := MarkRow(cfg, r, s2, s1.nextCall);
    MarkedStep(s3, s1.nextCall);
    AggregateOn(cfg, r, s3, s1.nextCall, 0);
    ContradictedRows(s, s1, s2, x, ok);
    s' := AggregateStep(s3, s1.nextCall, 0);
    CountedMisleads(s, s2, s3, s', x);
  }

  lemma SpoiltMisjudges(cfg: Config, r: Sys, s: Sys, x: nat)
    requires Leads(cfg, r, s) && Spoilt(s, x)
    ensures MayMisjudge(cfg, r)
  {
    var s1 := SpoiltMisleads(cfg, r, s, x);
    var s2 := ReaperComes(cfg, r, s1, x);
    SwapMisjudges(cfg, s1, s2, s1.nextCall, x);
    assert MisjudgedAt(cfg, r, s2, Aggregate(s1.nextCall, 0));
  }

  predicate Contradicts(subs: map<nat, SubTask>, redis: Counters, x: nat) {
    && x in subs && (forall id :: id in subs && id != x ==> subs[id].fail == 0)
    && (redis.fail == 0 <==> subs[x].fail != 0)
  }

  lemma ContradictedRows(s: Sys, s1: Sys, s2: Sys, x: nat, ok: bool)
    requires FreshRows(s.Subs()) && Ready(s1) && x in Open(s1) && x in s.Subs()
    requires s1 == s.WithDb(s.store.db.(subs := s1.Subs())) && s1.Subs() == s.Subs()[x := s1.Subs()[x]]
    requires RowReported(s1, s2, x, ok) && ok == (s.store.redis.fail != 0)
    ensures Contradicts(s2.Subs(), s.store.redis, x) && |s2.Subs()| == |s.Subs()|
  {
    assert s1.Subs().Keys == s.Subs().Keys;
  }

  lemma CountedMisleads(s: Sys, s2: Sys, s3: Sys, s4: Sys, x: nat)
    requires Spoilt(s, x) && Contradicts(s2.Subs(), s.store.redis, x) && |s2.Subs()| == |s.Subs()|
    requires s2.Main() == s.Main() && s2.store.redis == s.store.redis
    requires s3.store.db == s2.store.db && s3.store.redis == s2.store.redis.Mark(x)
    requires s4.store == s3.store.(db := s3.store.db.(main := s3.Main().(subDone := s3.Main().subDone + 1, updatedAt := 0)))
    ensures Misled(s4, x)
  {
  }

  lemma CounterSpoils(cfg: Config, r: Sys, c: nat)
    requires Reset(r) && FreshRows(r.Subs()) && |Open(r)| == 1
    requires c in r.calls && r.calls[c].pc.Counted? && r.calls[c].pc.main.status == Paused && c in r.earlier
    requires r.store.redis.success + r.calls[c].success != 0 || r.store.redis.fail + r.calls[c].fail != 0
    ensures MayMisjudge(cfg, r)
  {
    var x :| x in Open(r);
    SubsetCard({x}, Open(r));
    LeadsHere(cfg, r);
    AggregateOn(cfg, r, r, c, 0);
    CountsAndEnds(r, c);
    CountedSpoils(r, AggregateStep(r, c, 0), c, x);
    SpoiltMisjudges(cfg, r, AggregateStep(r, c, 0), x);
  }

  lemma CountedSpoils(r: Sys, s: Sys, c: nat, x: nat)
    requires Reset(r) && FreshRows(r.Subs()) && Open(r) == {x} && c in r.calls
    requires r.store.redis.success + r.calls[c].success != 0 || r.store.redis.fail + r.calls[c].fail != 0
    requires s == r.(store := r.store.(redis := r.store.redis.IncrSubDone(r.calls[c].success, r.calls[c].fail)), calls := r.calls - {c})
    ensures Spoilt(s, x)
  {
    assert Open(s) == Open(r);
  }

  /** The sums after a Retry are none of failures. */
  lemma FreshSums(cfg: Config, s: Sys, store: Store)
    requires Restarted(cfg, s, store) && FreshRows(store.db.subs)
    ensures store.redis.success >= 0 && store.redis.fail == 0
  {
    var t := Current(Restart(s, store));
    SumNonNegative(t.rdCounted, SuccessOf(t.Subs()));
    SumZero(t.rdCounted, FailOf(t.Subs()));
  }

  // ---- exactly which Retries keep the count and the verdict ----

  /** A call about to count in Redis that a safe Retry overtook. */
  lemma OvertakenCounter(cfg: Config, s: Sys, store: Store, c: nat)
    requires RowsSound(cfg, s) && Restarted(cfg, s, store) && NoneLive(s, store)
    requires c in s.calls && s.calls[c].pc.Counted?
    ensures var r := Realigned(s, store);
      && c in r.earlier && s.calls[c].pc.main.status == Paused && s.calls[c].success >= 0
      && Reset(r) && |Open(r)| == 1 && FreshRows(r.Subs())
  {
    assert !Live(s.calls[c], OpenRows(store.db.subs));
    RestartedIsReset(cfg, s, store);
    RestartedRows(cfg, s, store);
    OvertakenDies(cfg, s, store, c);
  }

  lemma OvertakingVerdictIff(cfg: Config, s: Sys, store: Store)
    requires RowsSound(cfg, s) && Restarted(cfg, s, store) && RowsSound(cfg, Realigned(s, store)) && NoneLive(s, store)
    ensures NoneSpoils(s, store) <==> NeverMisjudges(cfg, Realigned(s, store))
    ensures !NoneSpoils(s, store) ==> MayMisjudge(cfg, Realigned(s, store))
  {
    RetryOvertakes(cfg, s, store);
    if NoneSpoils(s, store) {
      UnspoiledNeverMisjudges(cfg, Realigned(s, store));
    } else {
      var c :| c in s.calls && Spoils(s.calls[c], store.redis);
      SpoilerMisjudges(cfg, s, store, c);
      MisjudgesOrNever(cfg, Realigned(s, store));
    }
  }

  lemma SpoilerMisjudges(cfg: Config, s: Sys, store: Store, c: nat)
    requires RowsSound(cfg, s) && Restarted(cfg, s, store) && NoneLive(s, store)
    requires c in s.calls && Spoils(s.calls[c], store.redis)
    ensures MayMisjudge(cfg, Realigned(s, store))
  {
    OvertakenCounter(cfg, s, store, c);
    FreshSums(cfg, s, store);
    NonzeroSums(s.calls[c], store.redis);
    CounterSpoils(cfg, Realigned(s, store), c);
  }

  lemma NonzeroSums(call: Call, redis: Counters)
    requires Spoils(call, redis) && call.success >= 0 && redis.success >= 0 && redis.fail == 0
    ensures redis.success + call.success != 0 || redis.fail + call.fail != 0
  {
  }

  lemma OvertakingCountIff(cfg: Config, s: Sys, store: Store)
    requires RowsSound(cfg, s) && Restarted(cfg, s, store) && RowsSound(cfg, Realigned(s, store)) && NoneLive(s, store)
    ensures NoneCounted(s) <==> NeverAhead(cfg, Realigned(s, store))
    ensures !NoneCounted(s) ==> MayRunAhead(cfg, Realigned(s, store))
  {
    RetryOvertakes(cfg, s, store);
    if NoneCounted(s) {
      UnmixedNeverAhead(cfg, Realigned(s, store));
    } else {
      var c :| c in s.calls && s.calls[c].pc.Counted?;
      OvertakenCounter(cfg, s, store, c);
      CounterRunsAhead(cfg, Realigned(s, store), c);
      AheadOrNever(cfg, Realigned(s, store));
    }
  }

  /** A Retry that overtakes no live call keeps the verdict of every later closing on a full count in Redis, if and only
      if it overtakes no call that is about to count in Redis where the sums will then not both be zero. If it does
      overtake one, nothing need fail for the campaign to be closed with a status its rows do not give. */
  lemma VerdictSafeIff(cfg: Config, steps: seq<Step>, pushFailed: seq<string>, outcomes: Option<(int, int)>, now: int)
    requires var s := After(cfg, Init(), steps);
      var s' := RetryStep(cfg, s, pushFailed, outcomes, now);
      s' != s && NoneLive(s, s'.store)
    ensures var s := After(cfg, Init(), steps);
      var s' := RetryStep(cfg, s, pushFailed, outcomes, now);
      && (NoneSpoils(s, s'.store) <==> NeverMisjudges(cfg, s'))
      && (!NoneSpoils(s, s'.store) ==> MayMisjudge(cfg, s'))
  {
    var s := After(cfg, Init(), steps);
    RowsAlways(cfg, steps);
    var store := RetryLands(cfg, s, pushFailed, outcomes, now);
    OvertakingVerdictIff(cfg, s, store);
  }

  /** And it keeps the count in Redis from running ahead of the database if and only if it overtakes no call about to
      count in Redis at all. */
  lemma RedisSafeIff(cfg: Config, steps: seq<Step>, pushFailed: seq<string>, outcomes: Option<(int, int)>, now: int)
    requires var s := After(cfg, Init(), steps);
      var s' := RetryStep(cfg, s, pushFailed, outcomes, now);
      s' != s && NoneLive(s, s'.store)
    ensures var s := After(cfg, Init(), steps);
      var s' := RetryStep(cfg, s, pushFailed, outcomes, now);
      && (NoneCounted(s) <==> NeverAhead(cfg, s'))
      && (!NoneCounted(s) ==> MayRunAhead(cfg, s'))
  {
    var s := After(cfg, Init(), steps);
    RowsAlways(cfg, steps);
    var store := RetryLands(cfg, s, pushFailed, outcomes, now);
    OvertakingCountIff(cfg, s, store);
  }
}
