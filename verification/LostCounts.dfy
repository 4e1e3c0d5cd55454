/** A mark that outlives a Retry can keep a row from being counted, and then the campaign is running for good. When
    exactly a Retry leaves room for that. */
module LostCounts {
  import opened Status
  import opened TaskRows
  import opened Aggregation
  import opened Protocol
  import opened Invariant
  import opened RetryKeepsInvariant
  import opened CallRows
  import opened Stragglers
  import opened AnyRun
  import opened SafeRetries
  import opened SplitVersions
  import opened CampaignRuns
  import opened RetryFaults

  // ---- letting the calls under way end ----

  /** A call that ends without touching the database. */
  predicate Ends(s: Sys, call: Call) {
    match call.pc
    case Begin => call.sub.None? && s.Main().status == Running && s.Main().subDone < s.Main().subTotal
    case Loaded(main) => main.status.IsTerminal()
    case Counted(main) => main.status == Paused
    case Deciding(main, done) => main.subTotal <= 0 || done < main.subTotal
    case SwappingAgain(main, final, _) => final.IsTerminal() && main.version < s.Main().version
    case _ => false
  }

  /** Call `c` has ended; if it had a mark to set, it is set. */
  predicate Ended(s: Sys, s': Sys, c: nat) {
    && c in s.calls && s'.calls == s.calls - {c} && s'.store.db == s.store.db && s'.splits == s.splits
    && s'.nextCall == s.nextCall && s'.earlier == s.earlier
    && s.store.redis.finished <= s'.store.redis.finished
    && (s.calls[c].pc.Loaded? && s.calls[c].sub.Some? ==> s.calls[c].sub.value in s'.store.redis.finished)
  }

  lemma EndsAtOnce(s: Sys, c: nat)
    requires c in s.calls && Ends(s, s.calls[c]) && !s.calls[c].pc.Begin?
    ensures Ended(s, AggregateStep(s, c, 0), c)
  {
    var pc := s.calls[c].pc;
    if pc.SwappingAgain? { StaleSwap(s.store.db, pc.main.version, pc.final, 0); }
  }

  /** A reaper's call that has not read anything finds the count short. */
  lemma UnreadDecides(s: Sys, c: nat)
    requires c in s.calls && Ends(s, s.calls[c]) && s.calls[c].pc.Begin?
    ensures var s' := AggregateStep(s, c, 0);
      && s' == s.(calls := s.calls[c := s.calls[c].(pc := Deciding(s.Main(), s.Main().subDone))])
      && Ends(s', s'.calls[c])
  {
  }

  lemma EndedInTwo(s: Sys, c: nat, call: Call, s': Sys)
    requires c in s.calls && s.calls[c].pc.Begin? && call.pc.Deciding?
    requires Ended(s.(calls := s.calls[c := call]), s', c)
    ensures Ended(s, s', c)
  {
    assert s.calls[c := call] - {c} == s.calls - {c};
  }

  lemma EndCall(cfg: Config, s0: Sys, s: Sys, c: nat) returns (s': Sys)
    requires Leads(cfg, s0, s) && c in s.calls && Ends(s, s.calls[c])
    ensures Leads(cfg, s0, s') && Ended(s, s', c)
  {
    AggregateOn(cfg, s0, s, c, 0);
    s' := AggregateStep(s, c, 0);
    if s.calls[c].pc.Begin? {
      UnreadDecides(s, c);
      AggregateOn(cfg, s0, s', c, 0);
      EndsAtOnce(s', c);
      EndedInTwo(s, c, s'.calls[c], AggregateStep(s', c, 0));
      s' := AggregateStep(s', c, 0);
    } else {
      EndsAtOnce(s, c);
    }
  }

  /** All calls have ended, the marks they had to set are set. */
  predicate Drained(s: Sys, s': Sys) {
    && s'.calls == map[] && s'.store.db == s.store.db && s'.splits == s.splits
    && s'.nextCall == s.nextCall && s'.earlier == s.earlier
    && s.store.redis.finished <= s'.store.redis.finished
    && (forall c :: c in s.calls && s.calls[c].pc.Loaded? && s.calls[c].sub.Some? ==>
          s.calls[c].sub.value in s'.store.redis.finished)
  }

  lemma DrainedMore(s: Sys, s1: Sys, s': Sys, c: nat)
    requires Ended(s, s1, c) && Drained(s1, s')
    ensures Drained(s, s')
  {
    forall d | d in s.calls && s.calls[d].pc.Loaded? && s.calls[d].sub.Some?
      ensures s.calls[d].sub.value in s'.store.redis.finished
    {
      if d != c { assert d in s1.calls && s1.calls[d] == s.calls[d]; }
    }
  }

  lemma {:induction false} Drain(cfg: Config, s0: Sys, s: Sys) returns (s': Sys)
    requires Leads(cfg, s0, s) && forall c :: c in s.calls ==> Ends(s, s.calls[c])
    ensures Leads(cfg, s0, s') && Drained(s, s')
    decreases |s.calls|
  {
    s' := s;
    if s.calls != map[] {
      var c :| c in s.calls;
      var s1 := EndCall(cfg, s0, s, c);
      forall d | d in s1.calls ensures Ends(s1, s1.calls[d]) {
        assert s1.calls[d] == s.calls[d];
      }
      s' := Drain(cfg, s0, s1);
      DrainedMore(s, s1, s', c);
    }
  }

  // ---- a row whose report finds its mark set ----

  /** Running or paused, every row finished, nobody counting, and the count is short. */
  predicate Stuck(s: Sys) {
    && s.Main().status in {Running, Paused} && s.Main().owner == "" && s.calls == map[]
    && AllFinished(s) && s.Main().subTotal == |s.Subs()| > 0 && s.Main().subDone < s.Main().subTotal
    && AllStale(s)
  }

  lemma RowsStayStuck(db: Db, step: Step)
    requires IsRowStep(step) && !step.Cancel?
    requires db.main.status in {Running, Paused} && db.main.subTotal > 0 && FinishedIds(db.subs) == db.subs.Keys
    ensures var db' := RowMoves(db, step);
      && db'.subs == db.subs && db'.main.owner == db.main.owner && db'.main.status in {Running, Paused}
      && db'.main.subTotal == db.main.subTotal && db'.main.subDone == db.main.subDone
      && db.main.version <= db'.main.version
  {
    if step.Claim? || step.Release? || step.RenewClaim? {
      assert step.id in db.subs ==> step.id in FinishedIds(db.subs);
    }
  }

  lemma ExitStaysStuck(db: Db, version: int, owner: string, now: int)
    requires db.main.status in {Running, Paused} && db.main.owner == "" && version < db.main.version
    ensures FailSplitDb(db, version, owner, now) == db.ClearSplitLease(now)
  {
  }

  lemma SplitsStayStuck(cfg: Config, w: SplitWork, step: Step)
    requires IsSplitStep(step) && w.db.main.status in {Running, Paused} && w.db.main.owner == ""
    requires forall o :: o in w.splits ==> o != "" && w.splits[o].version < w.db.main.version
    ensures var w' := SplitMoves(cfg, w, step);
      && w'.db == w.db.(main := w'.db.main)
      && w'.db.main == w.db.main.(leaseAt := w'.db.main.leaseAt, updatedAt := w'.db.main.updatedAt)
      && (forall o :: o in w'.splits ==> o in w.splits && w'.splits[o].version == w.splits[o].version)
  {
    match step
    case FailSplit(owner, now) => if owner in w.splits { ExitStaysStuck(w.db, w.splits[owner].version, owner, now); }
    case _ =>
  }

  lemma NothingBegins(s: Sys, step: Step)
    requires Stuck(s) && BeginsCall(step)
    ensures BeginMoves(s, step) == s
  {
    if step.Report? && step.id in s.Subs() { assert step.id in FinishedIds(s.Subs()); }
  }

  lemma StaysStuck(cfg: Config, s: Sys, step: Step)
    requires Stuck(s) && !step.Cancel?
    ensures Stuck(Next(cfg, s, step)) && Next(cfg, s, step).Subs() == s.Subs()
  {
    if IsRowStep(step) {
      StuckInRowStep(cfg, s, step);
    } else if IsSplitStep(step) {
      StuckInSplitStep(cfg, s, step);
    } else {
      StuckInCallStep(cfg, s, step);
    }
  }

  lemma StuckInRowStep(cfg: Config, s: Sys, step: Step)
    requires Stuck(s) && IsRowStep(step) && !step.Cancel?
    ensures Stuck(Next(cfg, s, step)) && Next(cfg, s, step).Subs() == s.Subs()
  {
    RowsStayStuck(s.store.db, step);
  }

  lemma StuckInSplitStep(cfg: Config, s: Sys, step: Step)
    requires Stuck(s) && IsSplitStep(step)
    ensures Stuck(Next(cfg, s, step)) && Next(cfg, s, step).Subs() == s.Subs()
  {
    SplitsStayStuck(cfg, s.Work(), step);
    StuckWithWork(s, SplitMoves(cfg, s.Work(), step));
  }

  lemma StuckWithWork(s: Sys, w: SplitWork)
    requires Stuck(s) && w.db == s.store.db.(main := w.db.main)
    requires w.db.main == s.Main().(leaseAt := w.db.main.leaseAt, updatedAt := w.db.main.updatedAt)
    requires forall o :: o in w.splits ==> o in s.splits && w.splits[o].version == s.splits[o].version
    ensures Stuck(s.WithWork(w)) && s.WithWork(w).Subs() == s.Subs()
  {
  }

  lemma StuckInCallStep(cfg: Config, s: Sys, step: Step)
    requires Stuck(s) && !IsRowStep(step) && !IsSplitStep(step)
    ensures Stuck(Next(cfg, s, step)) && Next(cfg, s, step).Subs() == s.Subs()
  {
    if BeginsCall(step) { NothingBegins(s, step); }
  }

  /** Whatever happens but a cancellation, such a campaign is never closed. */
  lemma {:induction false} StuckForGood(cfg: Config, s: Sys, steps: seq<Step>)
    requires Stuck(s) && forall i :: 0 <= i < |steps| ==> !steps[i].Cancel?
    ensures Stuck(After(cfg, s, steps)) && After(cfg, s, steps).Subs() == s.Subs()
  {
    if steps != [] {
      var n := |steps| - 1;
      StuckForGood(cfg, s, steps[..n]);
      StaysStuck(cfg, After(cfg, s, steps[..n]), steps[n]);
    }
  }

  ghost predicate MayStick(cfg: Config, s: Sys) {
    exists s' :: Leads(cfg, s, s') && Stuck(s')
  }

  /** No split under way holds the current version, now and later. */
  lemma {:induction false} StaleOn(cfg: Config, s: Sys, steps: seq<Step>)
    requires Sound(cfg, s) && NoRetry(steps) && AllStale(s) && s.Main().subTotal > 0
    ensures AllStale(After(cfg, s, steps)) && After(cfg, s, steps).Main().subTotal > 0
  {
    if steps != [] {
      var n := |steps| - 1;
      var s1 := After(cfg, s, steps[..n]);
      SoundOn(cfg, s, steps[..n]);
      StaleOn(cfg, s, steps[..n]);
      InvSealing(cfg, Current(s1));
      SealedStays(cfg, s1, steps[n]);
    }
  }

  lemma SealedStays(cfg: Config, s: Sys, step: Step)
    requires Sealing(Current(s)) && AllStale(s) && s.Main().subTotal > 0
    ensures AllStale(Next(cfg, s, step)) && Next(cfg, s, step).Main().subTotal > 0
  {
    assert Sealing(s);
    StaleStay(cfg, s, step);
    NextOfDone(cfg, s, step);
  }

  lemma StaleHere(cfg: Config, r: Sys, s: Sys)
    requires Sound(cfg, r) && AllStale(r) && r.Main().subTotal > 0 && Leads(cfg, r, s)
    ensures AllStale(s)
  {
    var steps :| AllSmooth(steps) && After(cfg, r, steps) == s;
    StaleOn(cfg, r, steps);
  }

  lemma RetryStales(cfg: Config, s: Sys, store: Store)
    requires Inv(cfg, Erased(s)) && Restarted(cfg, s, store) && VersionsOk(s)
    ensures AllStale(Realigned(s, store))
  {
    SealingOf(cfg, s);
  }

  /** One row is open and marked, nobody is counting. */
  predicate Blocked(s: Sys, id: nat) {
    && Ready(s) && s.calls == map[] && Open(s) == {id} && id in s.store.redis.finished
    && s.Main().subDone < s.Main().subTotal
  }

  lemma FoundMarked(s: Sys, c: nat)
    requires c in s.calls && s.calls[c].pc.Begin? && s.calls[c].sub.Some? && s.calls[c].sub.value in s.store.redis.finished
    ensures var s1 := AggregateStep(s, c, 0);
      AggregateStep(s1, c, 0) == s.(calls := s.calls - {c})
  {
    var s1 := AggregateStep(s, c, 0);
    assert s1 == s.(calls := s.calls[c := s.calls[c].(pc := Loaded(s.Main()))]);
    assert s1.calls - {c} == s.calls - {c};
  }

  lemma IgnoredReport(cfg: Config, s0: Sys, s: Sys, c: nat)
    requires Leads(cfg, s0, s) && c in s.calls && s.calls[c].pc.Begin? && s.calls[c].sub.Some?
    requires s.calls[c].sub.value in s.store.redis.finished
    ensures Leads(cfg, s0, s.(calls := s.calls - {c}))
  {
    AggregateOn(cfg, s0, s, c, 0);
    AggregateOn(cfg, s0, AggregateStep(s, c, 0), c, 0);
    FoundMarked(s, c);
  }

  lemma BlockedSticks(cfg: Config, s0: Sys, s: Sys, id: nat) returns (s': Sys)
    requires Leads(cfg, s0, s) && Blocked(s, id)
    ensures Leads(cfg, s0, s') && (AllStale(s') ==> Stuck(s'))
    ensures s'.Main() == s.Main() && s'.splits == s.splits && id in s'.Subs() && s'.Subs()[id].status == Success
  {
    var s1 := ClaimRow(cfg, s0, s, id);
    var s2 := ReportRow(cfg, s0, s1, id, true);
    IgnoredReport(cfg, s0, s2, s1.nextCall);
    s' := s2.(calls := s2.calls - {s1.nextCall});
    IgnoredSticks(s, s1, s2, id);
  }

  lemma IgnoredSticks(s: Sys, s1: Sys, s2: Sys, id: nat)
    requires Blocked(s, id) && s1 == s.WithDb(s.store.db.(subs := s1.Subs())) && RowReported(s1, s2, id, true)
    requires Ready(s2) && Open(s2) == Open(s) - {id}
    ensures var s' := s2.(calls := s2.calls - {s1.nextCall}); AllStale(s') ==> Stuck(s')
  {
    var s' := s2.(calls := s2.calls - {s1.nextCall});
    assert s'.calls == map[];
    assert Open(s2) == {};
    assert FinishedIds(s2.Subs()) == s2.Subs().Keys;
    assert s'.Subs() == s2.Subs();
  }

  // ---- from the Retry to there ----

  /** While a row is open the calls of a sound state that have nothing to count end by themselves. */
  lemma CallsEnd(cfg: Config, s: Sys, c: nat)
    requires Sound(cfg, s) && c in s.calls && s.Main().status == Running && s.Main().subTotal > 0 && !AllFinished(s)
    requires c in s.earlier || Unread(s.calls[c]) || s.calls[c].pc.Deciding?
    requires s.Main().subDone < s.Main().subTotal
    ensures Ends(s, s.calls[c])
  {
    if c in s.earlier {
      assert Dead(s, s.calls[c]);
    } else {
      assert c in Current(s).calls && PcOk(Current(s), s.calls[c]);
    }
  }

  /** What is left once all rows but `id` are finished and counted after a Retry. */
  lemma LeftEnds(cfg: Config, r: Sys, s: Sys, id: nat)
    requires Reset(r) && AllButOne(r, s, id) && Sound(cfg, s)
    requires forall c :: c in r.calls ==> c in r.earlier || Unread(r.calls[c])
    ensures forall c :: c in s.calls ==> Ends(s, s.calls[c])
  {
    assert id in Open(s);
    forall c | c in s.calls ensures Ends(s, s.calls[c]) {
      CallsEnd(cfg, s, c);
    }
  }

  lemma LeftBlocked(r: Sys, s: Sys, s': Sys, c: nat, id: nat)
    requires Reset(r) && AllButOne(r, s, id) && Drained(s, s')
    requires c in r.calls && r.calls[c].pc.Loaded? && r.calls[c].sub == Some(id)
    ensures Blocked(s', id)
  {
    assert s.calls[c] == r.calls[c];
    assert Open(s') == Open(s);
  }

  lemma SoundHere(cfg: Config, r: Sys, s: Sys)
    requires Sound(cfg, r) && Leads(cfg, r, s)
    ensures Sound(cfg, s)
  {
    var steps :| AllSmooth(steps) && After(cfg, r, steps) == s;
    SoundOn(cfg, r, steps);
  }

  /** After a Retry that overtook a call about to mark a row it reopened, some continuation in which nothing fails leaves
      the campaign stuck. */
  lemma BlockerSticks(cfg: Config, r: Sys, c: nat, id: nat)
    requires Sound(cfg, r) && Reset(r) && AllStale(r)
    requires forall d :: d in r.calls ==> d in r.earlier || Unread(r.calls[d])
    requires c in r.calls && r.calls[c].pc.Loaded? && r.calls[c].sub == Some(id) && id in Open(r)
    ensures MayStick(cfg, r)
  {
    LeadsHere(cfg, r);
    var s1 := FinishOthers(cfg, r, r, id);
    SoundHere(cfg, r, s1);
    LeftEnds(cfg, r, s1, id);
    var s2 := Drain(cfg, r, s1);
    LeftBlocked(r, s1, s2, c, id);
    var s3 := BlockedSticks(cfg, r, s2, id);
    StaleHere(cfg, r, s3);
  }

  lemma BlockedRow(cfg: Config, s: Sys, store: Store, c: nat)
    requires Rooted(Realigned(s, store)) && c in s.calls && Blocks(s.calls[c], store)
    ensures s.calls[c].sub.value in Open(Realigned(s, store))
  {
  }

  // ---- exactly which Retries keep all counts ----

  predicate NoLostCall(steps: seq<Step>) {
    forall i :: 0 <= i < |steps| ==> !steps[i].LoseCall?
  }

  /** In every continuation without a Retry or a lost call, whatever else fails, the database count is the number of
      finished rows whenever no call is under way. */
  ghost predicate CountsInFull(cfg: Config, s: Sys) {
    forall steps :: NoRetry(steps) && NoLostCall(steps) && AtRest(After(cfg, s, steps)) ==>
      After(cfg, s, steps).Main().subDone == |FinishedIds(After(cfg, s, steps).Subs())|
  }

  lemma {:induction false} CleanOn(cfg: Config, s: Sys, steps: seq<Step>)
    requires s.clean && NoRetry(steps) && NoLostCall(steps)
    ensures After(cfg, s, steps).clean
  {
    if steps != [] {
      var n := |steps| - 1;
      CleanOn(cfg, s, steps[..n]);
      HistoryNext(cfg, After(cfg, s, steps[..n]), steps[n]);
    }
  }

  lemma CleanCounts(cfg: Config, s: Sys)
    requires Sound(cfg, s) && s.clean
    ensures CountsInFull(cfg, s)
  {
    forall steps | NoRetry(steps) && NoLostCall(steps) && AtRest(After(cfg, s, steps))
      ensures After(cfg, s, steps).Main().subDone == |FinishedIds(After(cfg, s, steps).Subs())|
    {
      SoundOn(cfg, s, steps);
      CleanOn(cfg, s, steps);
      RestCounts(cfg, Current(After(cfg, s, steps)));
    }
  }

  lemma StuckIsShort(cfg: Config, s: Sys)
    requires MayStick(cfg, s)
    ensures !CountsInFull(cfg, s)
  {
    var s' :| Leads(cfg, s, s') && Stuck(s');
    var steps :| AllSmooth(steps) && After(cfg, s, steps) == s';
    assert NoRetry(steps) && NoLostCall(steps);
  }

  lemma OvertakingCountsIff(cfg: Config, s: Sys, store: Store)
    requires RowsSound(cfg, s) && Restarted(cfg, s, store) && RowsSound(cfg, Realigned(s, store))
    requires NoneLive(s, store) && VersionsOk(s)
    ensures NoneBlocks(s, store) <==> CountsInFull(cfg, Realigned(s, store))
    ensures !NoneBlocks(s, store) ==> MayStick(cfg, Realigned(s, store))
  {
    RetryOvertakes(cfg, s, store);
    if NoneBlocks(s, store) {
      CleanCounts(cfg, Realigned(s, store));
    } else {
      var c :| c in s.calls && Blocks(s.calls[c], store);
      RestartedIsReset(cfg, s, store);
      RetryStales(cfg, s, store);
      BlockedRow(cfg, s, store, c);
      BlockerSticks(cfg, Realigned(s, store), c, s.calls[c].sub.value);
      StuckIsShort(cfg, Realigned(s, store));
    }
  }

  /** A Retry that overtakes no live call keeps every count, in the sense of CountsInFull, if and only if it overtakes no
      call that has read a final status and is about to mark a row the Retry leaves unfinished. If it does overtake
      one, nothing need fail for the campaign to get stuck, for good (`StuckForGood`). */
  lemma CountsSafeIff(cfg: Config, steps: seq<Step>, pushFailed: seq<string>, outcomes: Option<(int, int)>, now: int)
    requires var s := After(cfg, Init(), steps);
      var s' := RetryStep(cfg, s, pushFailed, outcomes, now);
      s' != s && NoneLive(s, s'.store)
    ensures var s := After(cfg, Init(), steps);
      var s' := RetryStep(cfg, s, pushFailed, outcomes, now);
      && (NoneBlocks(s, s'.store) <==> CountsInFull(cfg, s'))
      && (!NoneBlocks(s, s'.store) ==> MayStick(cfg, s'))
  {
    var s := After(cfg, Init(), steps);
    RowsAlways(cfg, steps);
    var store := RetryLands(cfg, s, pushFailed, outcomes, now);
    VersionsAlways(cfg, steps);
    OvertakingCountsIff(cfg, s, store);
  }
}
