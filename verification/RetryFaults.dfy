/** Every live call that a Retry overtakes can close the retried campaign while a row is open: from each of them a
    continuation is built that does. Together with SafeRetries this says exactly which Retries are safe. */
module RetryFaults {
  import opened Status
  import opened SetSums
  import opened TaskRows
  import opened Aggregation
  import opened Retry
  import opened Protocol
  import opened Invariant
  import opened CountingSteps
  import opened RetryKeepsInvariant
  import opened Stragglers
  import opened AnyRun
  import opened SafeRetries
  import opened CampaignRuns

  predicate NoRetry(steps: seq<Step>) {
    forall i :: 0 <= i < |steps| ==> !steps[i].RetryCampaign?
  }

  /** A call fails, a process dies or a Redis key is lost. */
  predicate Fails(step: Step) {
    step.LoseCall? || step.MissRedis? || step.LoseRedis? || step.CrashSplit?
  }

  predicate NothingFails(steps: seq<Step>) {
    forall i :: 0 <= i < |steps| ==> !Fails(steps[i])
  }

  predicate Smooth(step: Step) {
    !step.RetryCampaign? && !Fails(step)
  }

  predicate AllSmooth(steps: seq<Step>) {
    forall i :: 0 <= i < |steps| ==> Smooth(steps[i])
  }

  /** Some continuation in which nothing fails leads there. */
  ghost predicate Leads(cfg: Config, s: Sys, s': Sys) {
    exists steps :: AllSmooth(steps) && After(cfg, s, steps) == s'
  }

  lemma LeadsHere(cfg: Config, s: Sys)
    ensures Leads(cfg, s, s)
  {
    assert AllSmooth([]) && After(cfg, s, []) == s;
  }

  lemma LeadsOn(cfg: Config, s: Sys, s1: Sys, step: Step, s2: Sys)
    requires Leads(cfg, s, s1) && Smooth(step) && s2 == Next(cfg, s1, step)
    ensures Leads(cfg, s, s2)
  {
    var steps :| AllSmooth(steps) && After(cfg, s, steps) == s1;
    assert (steps + [step])[..|steps|] == steps;
    assert AllSmooth(steps + [step]) && After(cfg, s, steps + [step]) == s2;
  }

  lemma AggregateOn(cfg: Config, s: Sys, s1: Sys, c: nat, now: int)
    requires Leads(cfg, s, s1)
    ensures Leads(cfg, s, AggregateStep(s1, c, now))
  {
    LeadsOn(cfg, s, s1, Aggregate(c, now), AggregateStep(s1, c, now));
  }

  lemma ClaimOn(cfg: Config, s: Sys, s1: Sys, id: nat, worker: string)
    requires Leads(cfg, s, s1)
    ensures Leads(cfg, s, s1.WithDb(s1.store.db.ClaimSubTask(id, worker, 0, 0).db))
  {
    LeadsOn(cfg, s, s1, Claim(id, worker, 0, 0), s1.WithDb(s1.store.db.ClaimSubTask(id, worker, 0, 0).db));
  }

  lemma ReportOn(cfg: Config, s: Sys, s1: Sys, id: nat, worker: string, success: int, fail: int, status: TaskStatus)
    requires Leads(cfg, s, s1)
    ensures Leads(cfg, s, ReportStep(s1, id, worker, success, fail, status))
  {
    LeadsOn(cfg, s, s1, Report(id, worker, success, fail, status), ReportStep(s1, id, worker, success, fail, status));
  }

  lemma ReapOn(cfg: Config, s: Sys, s1: Sys, now: int)
    requires Leads(cfg, s, s1)
    ensures Leads(cfg, s, ReapStep(s1, 0, now))
  {
    LeadsOn(cfg, s, s1, Reap(0, now), ReapStep(s1, 0, now));
  }

  /** Some continuation in which nothing fails ends with the aggregator closing the campaign while a row is open. */
  ghost predicate MayCloseEarly(cfg: Config, s: Sys) {
    exists s', step :: ClosesEarly(cfg, s, s', step)
  }

  ghost predicate ClosesEarly(cfg: Config, s: Sys, s': Sys, step: Step) {
    Leads(cfg, s, s') && Closes(cfg, s', step) && !AllFinished(s')
  }

  // ---- from a swap to the close ----

  lemma SwapAgainCloses(cfg: Config, s: Sys, s1: Sys, c: nat)
    requires Leads(cfg, s, s1) && !AllFinished(s1)
    requires s1.Main().status == Running && c in s1.calls && s1.calls[c].pc.SwappingAgain?
    requires s1.calls[c].pc.main.version == s1.Main().version && s1.calls[c].pc.final.IsTerminal()
    ensures MayCloseEarly(cfg, s)
  {
    assert ClosesEarly(cfg, s, s1, Aggregate(c, 0));
  }

  lemma RereadCloses(cfg: Config, s: Sys, s1: Sys, c: nat)
    requires Leads(cfg, s, s1) && !AllFinished(s1)
    requires s1.Main().status == Running && c in s1.calls && s1.calls[c].pc.Rereading? && s1.calls[c].pc.final.IsTerminal()
    ensures MayCloseEarly(cfg, s)
  {
    var s2 := AggregateStep(s1, c, 0);
    AggregateOn(cfg, s, s1, c, 0);
    SwapAgainCloses(cfg, s, s2, c);
  }

  lemma SwapCloses(cfg: Config, s: Sys, s1: Sys, c: nat)
    requires Leads(cfg, s, s1) && !AllFinished(s1)
    requires s1.Main().status == Running && c in s1.calls && s1.calls[c].pc.Swapping? && s1.calls[c].pc.final.IsTerminal()
    ensures MayCloseEarly(cfg, s)
  {
    var s2 := AggregateStep(s1, c, 0);
    if s1.calls[c].pc.main.version == s1.Main().version {
      assert ClosesEarly(cfg, s, s1, Aggregate(c, 0));
    } else {
      AggregateOn(cfg, s, s1, c, 0);
      RereadCloses(cfg, s, s2, c);
    }
  }

  lemma DecisionCloses(cfg: Config, s: Sys, s1: Sys, c: nat)
    requires Leads(cfg, s, s1) && !AllFinished(s1)
    requires s1.Main().status == Running && c in s1.calls && s1.calls[c].pc.Deciding?
    requires s1.calls[c].pc.main.subTotal > 0 && s1.calls[c].pc.done >= s1.calls[c].pc.main.subTotal
    ensures MayCloseEarly(cfg, s)
  {
    var s2 := AggregateStep(s1, c, 0);
    AggregateOn(cfg, s, s1, c, 0);
    SwapCloses(cfg, s, s2, c);
  }

  // ---- finishing one row ----

  function Open(s: Sys): set<nat> {
    s.Subs().Keys - FinishedIds(s.Subs())
  }

  /** A sealed campaign that goes on: its open rows can be claimed or reported. */
  predicate Ready(s: Sys) {
    && s.Main().status == Running && s.Main().owner == "" && s.Main().subTotal == |s.Subs()|
    && (forall c :: c in s.earlier ==> c < s.nextCall) && (forall c :: c in s.calls ==> c < s.nextCall)
    && (forall id :: id in Open(s) ==> s.Subs()[id].status in {Pending, Running} && s.Subs()[id].total > 0)
  }

  /** The other calls, and everything a Retry and the splits look after, are as they were; new calls are about to decide. */
  predicate Besides(s: Sys, s': Sys) {
    && s'.earlier == s.earlier && s'.nextCall >= s.nextCall
    && s'.Main() == s.Main().(subDone := s'.Main().subDone, updatedAt := s'.Main().updatedAt)
    && s'.Subs().Keys == s.Subs().Keys
    && (forall c :: c in s.calls ==> c in s'.calls && s'.calls[c] == s.calls[c])
    && (forall c :: c in s'.calls ==> c in s.calls || s'.calls[c].pc.Deciding?)
  }

  lemma ClaimTakes(s: Sys, id: nat)
    requires Ready(s) && id in Open(s) && s.Subs()[id].status == Pending
    ensures s.store.db.ClaimSubTask(id, "w", 0, 0).db
         == s.store.db.(subs := s.Subs()[id := s.Subs()[id].(status := Running, worker := "w", claimedAt := Some(0))])
  {
  }

  lemma ClaimedRow(s: Sys, id: nat, row: SubTask)
    requires Ready(s) && id in Open(s) && row == s.Subs()[id].(status := Running, worker := row.worker, claimedAt := row.claimedAt)
    ensures var s' := s.WithDb(s.store.db.(subs := s.Subs()[id := row])); Ready(s') && Open(s') == Open(s)
  {
    var s' := s.WithDb(s.store.db.(subs := s.Subs()[id := row]));
    assert s'.Subs().Keys == s.Subs().Keys;
    assert FinishedIds(s'.Subs()) == FinishedIds(s.Subs());
  }

  lemma ClaimRow(cfg: Config, s0: Sys, s: Sys, id: nat) returns (s': Sys)
    requires Leads(cfg, s0, s) && Ready(s) && id in Open(s)
    ensures Leads(cfg, s0, s') && Ready(s') && Open(s') == Open(s) && s'.Subs()[id].status == Running
    ensures s' == s.WithDb(s.store.db.(subs := s'.Subs())) && s'.Subs().Keys == s.Subs().Keys
    ensures id in s.Subs() && s'.Subs() == s.Subs()[id := s'.Subs()[id]]
  {
    s' := s;
    if s.Subs()[id].status == Pending {
      var row := s.Subs()[id].(status := Running, worker := "w", claimedAt := Some(0));
      s' := s.WithDb(s.store.db.(subs := s.Subs()[id := row]));
      ClaimTakes(s, id);
      ClaimOn(cfg, s0, s, id, "w");
      ClaimedRow(s, id, row);
    }
  }

  /** A row reported as a whole: everybody succeeded, or everybody failed. */
  function WholeRow(row: SubTask, ok: bool): SubTask {
    if ok then row.(success := row.total, fail := 0, status := Success)
    else row.(success := 0, fail := row.total, status := Failed)
  }

  /** The row's report took effect, its call about to begin. */
  predicate RowReported(s: Sys, s': Sys, id: nat, ok: bool) {
    && id in s.Subs() && s'.Subs() == s.Subs()[id := WholeRow(s.Subs()[id], ok)]
    && s' == s.(store := s.store.(db := s.store.db.(subs := s'.Subs())),
                calls := s.calls[s.nextCall := Call(Some(id), s'.Subs()[id].success, s'.Subs()[id].fail, Begin)],
                nextCall := s.nextCall + 1)
    && s'.Subs().Keys == s.Subs().Keys
  }

  lemma ReportTakes(s: Sys, id: nat, ok: bool)
    requires id in s.Subs() && s.Subs()[id].status == Running && s.Subs()[id].total > 0
    ensures var row, row' := s.Subs()[id], WholeRow(s.Subs()[id], ok);
      RowReported(s, ReportStep(s, id, row.worker, row'.success, row'.fail, row'.status), id, ok)
  {
    assert s.Subs()[id := WholeRow(s.Subs()[id], ok)].Keys == s.Subs().Keys;
  }

  lemma ReportReady(s: Sys, s': Sys, id: nat, ok: bool)
    requires Ready(s) && id in Open(s) && RowReported(s, s', id, ok)
    ensures Ready(s') && Open(s') == Open(s) - {id}
  {
    assert FinishedIds(s'.Subs()) == FinishedIds(s.Subs()) + {id};
  }

  lemma ReportRow(cfg: Config, s0: Sys, s: Sys, id: nat, ok: bool) returns (s': Sys)
    requires Leads(cfg, s0, s) && Ready(s) && id in Open(s) && s.Subs()[id].status == Running
    ensures Leads(cfg, s0, s') && Ready(s') && Open(s') == Open(s) - {id} && RowReported(s, s', id, ok)
  {
    var row, row' := s.Subs()[id], WholeRow(s.Subs()[id], ok);
    s' := ReportStep(s, id, row.worker, row'.success, row'.fail, row'.status);
    ReportOn(cfg, s0, s, id, row.worker, row'.success, row'.fail, row'.status);
    ReportTakes(s, id, ok);
    ReportReady(s, s', id, ok);
  }

  /** A call that counted in the database and in Redis and is about to decide. */
  predicate CountedBoth(s: Sys, s': Sys, n: nat) {
    && s'.Main() == s.Main().(subDone := s.Main().subDone + 1, updatedAt := s'.Main().updatedAt)
    && s'.store.db == s.store.db.(main := s'.Main())
    && s'.store.redis.done == s.store.redis.done + 1
    && s'.nextCall == s.nextCall && s'.earlier == s.earlier
    && (forall c :: c in s.calls && c != n ==> c in s'.calls && s'.calls[c] == s.calls[c])
    && (forall c :: c in s'.calls ==> c in s.calls)
    && n in s'.calls && s'.calls[n].pc.Deciding?
    && s'.calls[n].pc.main == s.Main()
    && s'.calls[n].pc.done == Max(s.Main().subDone + 1, s.store.redis.done + 1)
  }

  lemma CountSteps(s: Sys, n: nat)
    requires n in s.calls && s.calls[n].pc.Begin? && s.calls[n].sub.Some? && s.Main().status == Running
    requires s.calls[n].sub.value !in s.store.redis.finished
    ensures var s1 := AggregateStep(s, n, 0);
      var s2 := AggregateStep(s1, n, 0);
      && s2.store == s.store.(redis := s.store.redis.Mark(s.calls[n].sub.value))
      && s2.calls == s.calls[n := s.calls[n].(pc := Marked(s.Main()))]
      && s2.nextCall == s.nextCall && s2.earlier == s.earlier
  {
    var s1 := AggregateStep(s, n, 0);
    assert s1.store == s.store && s1.calls == s.calls[n := s.calls[n].(pc := Loaded(s.Main()))];
  }

  lemma MarkedStep(s: Sys, n: nat)
    requires n in s.calls && s.calls[n].pc.Marked? && s.calls[n].pc.main == s.Main() && s.calls[n].sub.Some?
    requires s.Main().status == Running
    ensures var s1 := AggregateStep(s, n, 0);
      && s1.store == s.store.(db := s.store.db.(main := s.Main().(subDone := s.Main().subDone + 1, updatedAt := 0)))
      && s1.calls == s.calls[n := s.calls[n].(pc := Counted(s.Main()))]
      && s1.nextCall == s.nextCall && s1.earlier == s.earlier
  {
    DbCountWrites(s.store.db, s.Main(), 0);
  }

  lemma MarkedSteps(s: Sys, n: nat)
    requires n in s.calls && s.calls[n].pc.Marked? && s.calls[n].pc.main == s.Main() && s.calls[n].sub.Some?
    requires s.Main().status == Running
    ensures var s1 := AggregateStep(s, n, 0);
      var s2 := AggregateStep(s1, n, 0);
      CountedBoth(s, s2, n) && s2.store.redis.finished == s.store.redis.finished
  {
    MarkedStep(s, n);
  }

  // ---- finishing all rows but one ----

  /** One more row finished and counted, its call about to decide. */
  predicate OneFinished(s: Sys, s': Sys, id: nat) {
    && Ready(s') && Besides(s, s') && s'.nextCall == s.nextCall + 1
    && Open(s') == Open(s) - {id}
    && s'.Main().subDone == s.Main().subDone + 1 && s'.store.redis.done == s.store.redis.done + 1
    && s'.store.redis.finished == s.store.redis.finished + {id}
    && LastDecides(s')
  }

  /** The last call begun is about to decide on the counts as they are. */
  predicate LastDecides(s: Sys) {
    && s.nextCall > 0 && s.nextCall - 1 in s.calls
    && s.calls[s.nextCall - 1].pc.Deciding?
    && s.calls[s.nextCall - 1].pc.main.subTotal == s.Main().subTotal
    && s.calls[s.nextCall - 1].pc.done == Max(s.Main().subDone, s.store.redis.done)
  }

  lemma CountRowNow(cfg: Config, s0: Sys, s: Sys, n: nat) returns (s': Sys)
    requires Leads(cfg, s0, s) && s.Main().status == Running
    requires n in s.calls && s.calls[n].pc.Begin? && s.calls[n].sub.Some?
    requires s.calls[n].sub.value !in s.store.redis.finished
    ensures Leads(cfg, s0, s') && CountedBoth(s, s', n)
    ensures s'.store.redis.finished == s.store.redis.finished + {s.calls[n].sub.value}
  {
    var s1 := MarkRow(cfg, s0, s, n);
    var s2 := AggregateStep(s1, n, 0);
    s' := AggregateStep(s2, n, 0);
    MarkedSteps(s1, n);
    AggregateOn(cfg, s0, s1, n, 0);
    AggregateOn(cfg, s0, s2, n, 0);
  }

  /** A call that begins marks its row. */
  lemma MarkRow(cfg: Config, s0: Sys, s: Sys, n: nat) returns (s': Sys)
    requires Leads(cfg, s0, s) && s.Main().status == Running
    requires n in s.calls && s.calls[n].pc.Begin? && s.calls[n].sub.Some?
    requires s.calls[n].sub.value !in s.store.redis.finished
    ensures Leads(cfg, s0, s')
    ensures s'.store == s.store.(redis := s.store.redis.Mark(s.calls[n].sub.value))
    ensures s'.calls == s.calls[n := s.calls[n].(pc := Marked(s.Main()))]
    ensures s'.nextCall == s.nextCall && s'.earlier == s.earlier
  {
    var s1 := AggregateStep(s, n, 0);
    s' := AggregateStep(s1, n, 0);
    CountSteps(s, n);
    AggregateOn(cfg, s0, s, n, 0);
    AggregateOn(cfg, s0, s1, n, 0);
  }

  lemma CountedIsFinished(s: Sys, s1: Sys, s2: Sys, s': Sys, id: nat)
    requires Ready(s) && s1 == s.WithDb(s.store.db.(subs := s1.Subs())) && s1.Subs().Keys == s.Subs().Keys && Open(s1) == Open(s)
    requires id in s1.Subs()
    requires RowReported(s1, s2, id, false) && Ready(s2) && Open(s2) == Open(s1) - {id}
    requires CountedBoth(s2, s', s1.nextCall) && s'.store.redis.finished == s2.store.redis.finished + {id}
    ensures OneFinished(s, s', id)
  {
    assert s'.Subs() == s2.Subs();
    assert Open(s') == Open(s2);
    forall c | c in s.calls ensures c in s'.calls && s'.calls[c] == s.calls[c] {
      assert c != s1.nextCall;
      assert c in s2.calls && s2.calls[c] == s.calls[c];
    }
  }

  lemma FinishRow(cfg: Config, s0: Sys, s: Sys, id: nat) returns (s': Sys)
    requires Leads(cfg, s0, s) && Ready(s) && id in Open(s) && id !in s.store.redis.finished
    ensures Leads(cfg, s0, s') && OneFinished(s, s', id)
  {
    var s1 := ClaimRow(cfg, s0, s, id);
    var s2 := ReportRow(cfg, s0, s1, id, false);
    s' := CountRowNow(cfg, s0, s2, s1.nextCall);
    CountedIsFinished(s, s1, s2, s', id);
  }

  /** All rows but `keep` finished and counted. */
  predicate AllButOne(s: Sys, s': Sys, keep: nat) {
    && Ready(s') && Besides(s, s') && Open(s') == {keep}
    && s'.Main().subDone == s.Main().subDone + |Open(s)| - 1
    && s'.store.redis.done == s.store.redis.done + |Open(s)| - 1
    && (if |Open(s)| >= 2 then LastDecides(s') else s' == s)
  }

  lemma OneOfMany(a: set<nat>, x: nat)
    requires x in a && a != {x}
    ensures |a| >= 2 && exists y :: y in a && y != x
  {
    assert a - {x} != {};
    var y :| y in a - {x};
    SubsetCard({x, y}, a);
  }

  lemma {:induction false} FinishOthers(cfg: Config, s0: Sys, s: Sys, keep: nat) returns (s': Sys)
    requires Leads(cfg, s0, s) && Ready(s) && keep in Open(s)
    requires Open(s) * s.store.redis.finished <= {keep}
    ensures Leads(cfg, s0, s') && AllButOne(s, s', keep)
    decreases |Open(s)|
  {
    if Open(s) == {keep} {
      s' := s;
    } else {
      OneOfMany(Open(s), keep);
      var id :| id in Open(s) && id != keep;
      assert id !in Open(s) * s.store.redis.finished;
      var s1 := FinishRow(cfg, s0, s, id);
      assert |Open(s1)| == |Open(s)| - 1;
      assert Open(s1) * s1.store.redis.finished <= {keep} by {
        forall x | x in Open(s1) * s1.store.redis.finished ensures x == keep {
          assert x in Open(s) * s.store.redis.finished;
        }
      }
      s' := FinishOthers(cfg, s0, s1, keep);
      AllButOneMore(s, s1, s', keep, id);
    }
  }

  lemma AllButOneMore(s: Sys, s1: Sys, s': Sys, keep: nat, id: nat)
    requires OneFinished(s, s1, id) && AllButOne(s1, s', keep)
    requires id in Open(s) && keep in Open(s1)
    ensures AllButOne(s, s', keep)
  {
    assert |Open(s1)| == |Open(s)| - 1;
    assert |Open(s1)| >= 1;
  }

  // ---- one count too many closes the campaign ----

  /** The reaper finds the database count full and closes the campaign, open rows or not. */
  lemma FullCountCloses(cfg: Config, s0: Sys, s: Sys)
    requires Leads(cfg, s0, s) && Ready(s) && Open(s) != {} && s.Main().subDone >= s.Main().subTotal > 0
    ensures MayCloseEarly(cfg, s0)
  {
    var now := s.Main().updatedAt + DEFAULT_STALE_SEC + 1;
    var s1 := ReapStep(s, 0, now);
    var s2 := AggregateStep(s1, s.nextCall, now);
    ReapOn(cfg, s0, s, now);
    AggregateOn(cfg, s0, s1, s.nextCall, now);
    assert s2.calls[s.nextCall] == Call(None, 0, 0, Deciding(s.Main(), s.Main().subDone)) && s2.store == s.store;
    DecisionCloses(cfg, s0, s2, s.nextCall);
  }

  /** A count in the database that is ahead of the finished rows. */
  lemma DbAheadCloses(cfg: Config, s0: Sys, s: Sys, keep: nat)
    requires Leads(cfg, s0, s) && Ready(s) && keep in Open(s) && Open(s) * s.store.redis.finished <= {keep}
    requires s.Main().subDone + |Open(s)| > s.Main().subTotal > 0
    ensures MayCloseEarly(cfg, s0)
  {
    var s' := FinishOthers(cfg, s0, s, keep);
    FullCountCloses(cfg, s0, s');
  }

  /** A count in Redis that is ahead of the finished rows, while at least two are open. */
  lemma RedisAheadCloses(cfg: Config, s0: Sys, s: Sys, keep: nat)
    requires Leads(cfg, s0, s) && Ready(s) && keep in Open(s) && Open(s) * s.store.redis.finished <= {keep}
    requires s.store.redis.done + |Open(s)| > s.Main().subTotal > 0 && |Open(s)| >= 2
    ensures MayCloseEarly(cfg, s0)
  {
    var s' := FinishOthers(cfg, s0, s, keep);
    LastCloses(cfg, s0, s, s', keep);
  }

  lemma LastCloses(cfg: Config, s0: Sys, s: Sys, s': Sys, keep: nat)
    requires Leads(cfg, s0, s') && AllButOne(s, s', keep) && |Open(s)| >= 2
    requires s.store.redis.done + |Open(s)| > s.Main().subTotal > 0
    ensures MayCloseEarly(cfg, s0)
  {
    LeftDecides(s, s', keep);
    DecisionCloses(cfg, s0, s', s'.nextCall - 1);
  }

  lemma LeftDecides(s: Sys, s': Sys, keep: nat)
    requires AllButOne(s, s', keep) && |Open(s)| >= 2
    ensures !AllFinished(s') && s'.Main().status == Running && s'.nextCall > 0
    ensures s'.nextCall - 1 in s'.calls && s'.calls[s'.nextCall - 1].pc.Deciding?
    ensures s'.calls[s'.nextCall - 1].pc.main.subTotal == s.Main().subTotal
    ensures s'.calls[s'.nextCall - 1].pc.done >= s.store.redis.done + |Open(s)| - 1
  {
    assert keep in Open(s');
  }

  // ---- where each live call leads ----

  /** What the rows and counters are right after a Retry. */
  predicate Reset(s: Sys) {
    && Ready(s) && Open(s) != {} && s.Main().subTotal > 0 && s.store.redis.finished == {}
    && s.Main().subDone + |Open(s)| == s.Main().subTotal
    && s.store.redis.done + |Open(s)| == s.Main().subTotal
  }

  lemma OpenCount(s: Sys)
    ensures |Open(s)| == OpenRows(s.Subs()) && |FinishedIds(s.Subs())| + |Open(s)| == |s.Subs()|
  {
    assert FinishedIds(s.Subs()) <= s.Subs().Keys;
    assert s.Subs().Keys == FinishedIds(s.Subs()) + Open(s);
  }

  lemma RestartedIsReset(cfg: Config, s: Sys, store: Store)
    requires Numbered(s) && Restarted(cfg, s, store)
    ensures Reset(Realigned(s, store)) && |Open(Realigned(s, store))| == OpenRows(store.db.subs)
  {
    RestartedRows(cfg, s, store);
    OpenCount(Realigned(s, store));
    RestartedReady(s, store);
  }

  /** The rows a Retry leaves: nobody failed in them, and the finished ones are successes. */
  predicate FreshRows(subs: map<nat, SubTask>) {
    forall id :: id in subs ==>
      && subs[id].status in {Pending, Running, Success} && subs[id].total > 0
      && subs[id].success >= 0 && subs[id].fail == 0
  }

  lemma RestartedRows(cfg: Config, s: Sys, store: Store)
    requires Restarted(cfg, s, store)
    ensures FreshRows(store.db.subs) && DoneIds(store.db.subs) == FinishedIds(store.db.subs)
  {
    forall id | id in store.db.subs
      ensures store.db.subs[id].status in {Pending, Running, Success} && store.db.subs[id].total > 0
      ensures store.db.subs[id].success >= 0 && store.db.subs[id].fail == 0
    {
      assert RowOk(store.db.subs[id], Current(Restart(s, store)).Main());
      assert id !in IdsIn(store.db.subs, {Failed});
    }
  }

  lemma RestartedReady(s: Sys, store: Store)
    requires FreshRows(store.db.subs) && DoneIds(store.db.subs) == FinishedIds(store.db.subs) && Aligned(store)
    requires store.db.main.status == Running && store.db.main.owner == "" && store.db.main.subTotal > 0
    requires forall c :: c in s.calls ==> c < s.nextCall
    requires var r := Realigned(s, store); |Open(r)| >= 1 && |FinishedIds(r.Subs())| + |Open(r)| == |r.Subs()|
    ensures Reset(Realigned(s, store))
  {
  }

  /** The rows of the database are untouched, and the reset still stands but for one count more. */
  predicate CountedOnce(s: Sys, s': Sys, x: nat) {
    && s'.store.db == s.store.db.(main := s'.Main())
    && s'.Main() == s.Main().(subDone := s.Main().subDone + 1, updatedAt := s'.Main().updatedAt)
    && s'.store.redis.finished <= s.store.redis.finished + {x}
    && s'.nextCall == s.nextCall && s'.earlier == s.earlier && (forall c :: c in s'.calls ==> c in s.calls)
  }

  lemma MarkedCounts(cfg: Config, s0: Sys, s: Sys, c: nat) returns (s': Sys)
    requires Leads(cfg, s0, s) && s.Main().status == Running && c in s.calls && s.calls[c].sub.Some?
    requires s.calls[c].pc.Marked? && !s.calls[c].pc.main.status.IsTerminal()
    ensures Leads(cfg, s0, s') && CountedOnce(s, s', s.calls[c].sub.value) && s'.store.redis.finished == s.store.redis.finished
  {
    s' := AggregateStep(s, c, 0);
    DbCountWrites(s.store.db, s.calls[c].pc.main, 0);
    AggregateOn(cfg, s0, s, c, 0);
  }

  lemma LoadedCounts(cfg: Config, s0: Sys, s: Sys, c: nat) returns (s': Sys)
    requires Leads(cfg, s0, s) && s.Main().status == Running && c in s.calls && s.calls[c].sub.Some?
    requires s.calls[c].sub.value !in s.store.redis.finished
    requires s.calls[c].pc.Loaded? && !s.calls[c].pc.main.status.IsTerminal()
    ensures Leads(cfg, s0, s') && CountedOnce(s, s', s.calls[c].sub.value)
  {
    var s1 := AggregateStep(s, c, 0);
    AggregateOn(cfg, s0, s, c, 0);
    s' := MarkedCounts(cfg, s0, s1, c);
  }

  lemma BeginCounts(cfg: Config, s0: Sys, s: Sys, c: nat) returns (s': Sys)
    requires Leads(cfg, s0, s) && s.Main().status == Running && c in s.calls && s.calls[c].sub.Some?
    requires s.calls[c].sub.value !in s.store.redis.finished && s.calls[c].pc.Begin?
    ensures Leads(cfg, s0, s') && CountedOnce(s, s', s.calls[c].sub.value)
  {
    var s1 := AggregateStep(s, c, 0);
    AggregateOn(cfg, s0, s, c, 0);
    s' := LoadedCounts(cfg, s0, s1, c);
  }

  lemma CountedOnceCloses(cfg: Config, s0: Sys, s: Sys, s': Sys, x: nat)
    requires Reset(s) && Leads(cfg, s0, s') && CountedOnce(s, s', x)
    ensures MayCloseEarly(cfg, s0)
  {
    var keep :| keep in Open(s) && (x in Open(s) ==> keep == x);
    assert Open(s') == Open(s);
    DbAheadCloses(cfg, s0, s', keep);
  }

  /** A call that has yet to count its row in the database counts a row that was reset, or counts it twice. */
  lemma UncountedCloses(cfg: Config, s: Sys, c: nat)
    requires Reset(s) && c in s.calls && BeforeDb(s.calls[c])
    requires !s.calls[c].pc.Begin? ==> !s.calls[c].pc.main.status.IsTerminal()
    ensures MayCloseEarly(cfg, s)
  {
    LeadsHere(cfg, s);
    var s';
    match s.calls[c].pc {
      case Begin => s' := BeginCounts(cfg, s, s, c);
      case Loaded(_) => s' := LoadedCounts(cfg, s, s, c);
      case Marked(_) => s' := MarkedCounts(cfg, s, s, c);
    }
    CountedOnceCloses(cfg, s, s, s', s.calls[c].sub.value);
  }

  /** A call about to count in Redis and then decide on a total no larger than the new one. */
  lemma CountedCloses(cfg: Config, s: Sys, c: nat)
    requires Reset(s) && c in s.calls && s.calls[c].sub.Some? && s.calls[c].pc.Counted?
    requires s.calls[c].pc.main.status != Paused && 0 < s.calls[c].pc.main.subTotal <= s.Main().subTotal
    ensures MayCloseEarly(cfg, s)
  {
    LeadsHere(cfg, s);
    var keep :| keep in Open(s);
    var s1 := FinishOthers(cfg, s, s, keep);
    CountedDecides(s1, c);
    AggregateOn(cfg, s, s1, c, 0);
    assert keep in Open(s1);
    DecisionCloses(cfg, s, AggregateStep(s1, c, 0), c);
  }

  lemma CountedDecides(s: Sys, c: nat)
    requires c in s.calls && s.calls[c].sub.Some? && s.calls[c].pc.Counted? && s.calls[c].pc.main.status != Paused
    ensures var s' := AggregateStep(s, c, 0);
      && s'.store.db == s.store.db && c in s'.calls && s'.calls[c].pc.Deciding?
      && s'.calls[c].pc.main == s.calls[c].pc.main && s'.calls[c].pc.done >= s.store.redis.done + 1
  {
  }

  predicate RedisOnce(s: Sys, s': Sys) {
    && s'.store == s.store.(redis := s.store.redis.(success := s'.store.redis.success, fail := s'.store.redis.fail,
                                                    done := s.store.redis.done + 1))
    && s'.nextCall == s.nextCall && s'.earlier == s.earlier && (forall c :: c in s'.calls ==> c in s.calls)
  }

  lemma PausedCounts(s: Sys, c: nat)
    requires c in s.calls && s.calls[c].sub.Some? && s.calls[c].pc.Counted? && s.calls[c].pc.main.status == Paused
    ensures RedisOnce(s, AggregateStep(s, c, 0))
  {
  }

  lemma RedisAhead(cfg: Config, s: Sys, s': Sys)
    requires Reset(s) && |Open(s)| >= 2 && RedisOnce(s, s') && Leads(cfg, s, s')
    ensures MayCloseEarly(cfg, s)
  {
    var keep :| keep in Open(s);
    assert Open(s') == Open(s);
    RedisAheadCloses(cfg, s, s', keep);
  }

  /** A call of a paused campaign counts in Redis and ends; the call of the last row but one then decides. */
  lemma PausedCountCloses(cfg: Config, s: Sys, c: nat)
    requires Reset(s) && c in s.calls && s.calls[c].sub.Some? && s.calls[c].pc.Counted?
    requires s.calls[c].pc.main.status == Paused && |Open(s)| >= 2
    ensures MayCloseEarly(cfg, s)
  {
    LeadsHere(cfg, s);
    var s1 := AggregateStep(s, c, 0);
    AggregateOn(cfg, s, s, c, 0);
    PausedCounts(s, c);
    RedisAhead(cfg, s, s1);
  }

  lemma SwapperCloses(cfg: Config, s: Sys, c: nat)
    requires Reset(s) && c in s.calls
    requires match s.calls[c].pc
             case Deciding(main, done) => main.subTotal > 0 && done >= main.subTotal
             case Swapping(_, final, _) => final.IsTerminal()
             case Rereading(final, _) => final.IsTerminal()
             case _ => false
    ensures MayCloseEarly(cfg, s)
  {
    LeadsHere(cfg, s);
    match s.calls[c].pc
    case Deciding(_, _) => DecisionCloses(cfg, s, s, c);
    case Swapping(_, _, _) => SwapCloses(cfg, s, s, c);
    case Rereading(_, _) => RereadCloses(cfg, s, s, c);
  }

  // ---- exactly which Retries are safe ----

  /** From a live call that a Retry overtakes, some continuation closes the campaign while a row is open. */
  lemma LiveCloses(cfg: Config, s: Sys, store: Store, c: nat)
    requires Numbered(s) && Restarted(cfg, s, store) && CallsFormed(Realigned(s, store))
    requires c in s.calls && Live(s.calls[c], OpenRows(store.db.subs))
    ensures MayCloseEarly(cfg, Realigned(s, store))
  {
    var r := Realigned(s, store);
    var pc := s.calls[c].pc;
    RestartedIsReset(cfg, s, store);
    assert r.calls[c] == s.calls[c] && Formed(r.calls[c], r.Main().subTotal);
    if pc.Begin? || pc.Loaded? || pc.Marked? {
      UncountedCloses(cfg, r, c);
    } else if pc.Counted? && pc.main.status == Paused {
      PausedCountCloses(cfg, r, c);
    } else if pc.Counted? {
      CountedCloses(cfg, r, c);
    } else {
      SwapperCloses(cfg, r, c);
    }
  }

  lemma {:induction false} SoundOn(cfg: Config, s: Sys, steps: seq<Step>)
    requires Sound(cfg, s) && NoRetry(steps)
    ensures Sound(cfg, After(cfg, s, steps))
  {
    if steps != [] {
      var n := |steps| - 1;
      SoundOn(cfg, s, steps[..n]);
      NextKeeps(cfg, After(cfg, s, steps[..n]), steps[n]);
    }
  }

  /** No continuation without a Retry, whatever fails in it, has the aggregator close the campaign while a row is open. */
  ghost predicate NeverClosesEarly(cfg: Config, s: Sys) {
    forall steps, step :: NoRetry(steps) && Closes(cfg, After(cfg, s, steps), step) ==> AllFinished(After(cfg, s, steps))
  }

  lemma SoundNeverClosesEarly(cfg: Config, s: Sys)
    requires Sound(cfg, s)
    ensures NeverClosesEarly(cfg, s)
  {
    forall steps, step | NoRetry(steps) && Closes(cfg, After(cfg, s, steps), step) ensures AllFinished(After(cfg, s, steps)) {
      SoundOn(cfg, s, steps);
      ClosedRows(cfg, After(cfg, s, steps), step);
    }
  }

  lemma EarlyOrNever(cfg: Config, s: Sys)
    requires MayCloseEarly(cfg, s)
    ensures !NeverClosesEarly(cfg, s)
  {
    var s', step :| ClosesEarly(cfg, s, s', step);
    var steps :| AllSmooth(steps) && After(cfg, s, steps) == s';
    assert NoRetry(steps);
  }

  /** A Retry that goes through, in whatever run, is safe, in the sense that no continuation without a further Retry has
      the aggregator close the campaign while a row is open, if and only if it overtakes no live call. If it does overtake
      one, nothing need fail for the campaign to be closed so. */
  lemma RetrySafeIff(cfg: Config, steps: seq<Step>, pushFailed: seq<string>, outcomes: Option<(int, int)>, now: int)
    requires var s := After(cfg, Init(), steps); RetryStep(cfg, s, pushFailed, outcomes, now) != s
    ensures var s := After(cfg, Init(), steps);
      var s' := RetryStep(cfg, s, pushFailed, outcomes, now);
      && (NoneLive(s, s'.store) <==> NeverClosesEarly(cfg, s'))
      && (!NoneLive(s, s'.store) ==> MayCloseEarly(cfg, s'))
  {
    var s := After(cfg, Init(), steps);
    RowsAlways(cfg, steps);
    var store := RetryLands(cfg, s, pushFailed, outcomes, now);
    OvertakingSafeIff(cfg, s, store);
  }

  lemma OvertakingSafeIff(cfg: Config, s: Sys, store: Store)
    requires RowsSound(cfg, s) && Restarted(cfg, s, store) && RowsSound(cfg, Realigned(s, store))
    ensures NoneLive(s, store) <==> NeverClosesEarly(cfg, Realigned(s, store))
    ensures !NoneLive(s, store) ==> MayCloseEarly(cfg, Realigned(s, store))
  {
    if NoneLive(s, store) {
      RetryOvertakes(cfg, s, store);
      SoundNeverClosesEarly(cfg, Realigned(s, store));
    } else {
      var c :| c in s.calls && Live(s.calls[c], OpenRows(store.db.subs));
      LiveCloses(cfg, s, store, c);
      EarlyOrNever(cfg, Realigned(s, store));
    }
  }
}
