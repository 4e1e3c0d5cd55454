/** The invariant of the whole system, and the Retries that bring it about: whatever the state before, a Retry that
    overtakes no live call aligns all counters with the rows again. */
module SafeRetries {
  import opened Status
  import opened SetSums
  import opened TaskRows
  import opened Aggregation
  import opened Protocol
  import opened Invariant
  import opened RetryKeepsInvariant
  import opened Stragglers
  import opened AnyRun

  /** What holds in every run, and besides the counting of the calls begun since the last Retry, which those from before
      it cannot disturb. */
  ghost predicate Sound(cfg: Config, s: Sys) {
    RowsSound(cfg, s) && Inv(cfg, Current(s)) && EarlierOk(s)
  }

  // ---- a Retry that overtakes no live call ----

  /** None of the calls under way is live when the Retry takes effect. */
  predicate NoneLive(s: Sys, store: Store) {
    forall c :: c in s.calls ==> !Live(s.calls[c], OpenRows(store.db.subs))
  }

  function Flagged(s: Sys, clean: bool, mixed: bool, spoiled: bool): Sys {
    s.(clean := clean, mixed := mixed, spoiled := spoiled)
  }

  /** Less may be claimed of a sound state. */
  lemma FlagsKeep(cfg: Config, s: Sys, clean: bool, mixed: bool, spoiled: bool)
    requires Inv(cfg, s) && s.clean && !s.mixed && !s.spoiled
    requires (spoiled ==> mixed) && (mixed ==> Sheltered(s)) && (mixed && !spoiled ==> Blank(s))
    ensures Inv(cfg, Flagged(s, clean, mixed, spoiled))
  {
    var s' := Flagged(s, clean, mixed, spoiled);
    forall c | c in s'.calls ensures PcOk(s', s'.calls[c]) && CallRowOk(s', s'.calls[c]) {
      assert PcOk(s, s.calls[c]) && CallRowOk(s, s.calls[c]);
    }
    assert mixed && !spoiled ==> Blank(s') by {
      if mixed && !spoiled {
        var x: nat :| BlankBut(s.Subs(), x);
        assert BlankBut(s'.Subs(), x);
      }
    }
  }

  lemma OverSheltered(cfg: Config, s: Sys, store: Store)
    requires Restarted(cfg, s, store) && OpenRows(store.db.subs) < 2
    ensures Sheltered(Current(Restart(s, store)))
  {
    var s' := Current(Restart(s, store));
    forall c | c in s'.calls ensures !BeforeRedis(s'.calls[c]) {
      assert Unread(s'.calls[c]);
    }
  }

  /** With sums of nothing after a Retry, nobody succeeded or failed in a finished row. */
  lemma NothingSummed(cfg: Config, s: Sys)
    requires Inv(cfg, s) && !s.spoiled && s.rdCounted == FinishedIds(s.Subs())
    requires s.store.redis.success == 0 && s.store.redis.fail == 0
    ensures forall id :: id in FinishedIds(s.Subs()) ==> s.Subs()[id].success == 0 && s.Subs()[id].fail == 0
  {
    forall id | id in FinishedIds(s.Subs()) ensures s.Subs()[id].success >= 0 && s.Subs()[id].fail >= 0 {
      assert RowOk(s.Subs()[id], s.Main());
    }
    SumNonNegative(s.rdCounted, SuccessOf(s.Subs()));
    SumNonNegative(s.rdCounted, FailOf(s.Subs()));
  }

  lemma OverBlank(cfg: Config, s: Sys, store: Store)
    requires Restarted(cfg, s, store) && OpenRows(store.db.subs) < 2
    requires store.redis.success == 0 && store.redis.fail == 0
    ensures Blank(Current(Restart(s, store)))
  {
    var s' := Current(Restart(s, store));
    NothingSummed(cfg, s');
    var open := s'.Subs().Keys - FinishedIds(s'.Subs());
    assert s'.Subs().Keys == open + FinishedIds(s'.Subs());
    assert |open| == 1;
    var x :| x in open;
    SubsetCard({x}, open);
    assert BlankBut(s'.Subs(), x);
  }

  /** What the three findings of a Retry rest on. */
  lemma OvertakenFlags(cfg: Config, s: Sys, store: Store)
    requires Restarted(cfg, s, store) && NoneLive(s, store)
    ensures var r := Current(Restart(s, store));
      && (!NoneSpoils(s, store) ==> !NoneCounted(s))
      && (!NoneCounted(s) ==> Sheltered(r))
      && (!NoneCounted(s) && NoneSpoils(s, store) ==> Blank(r))
  {
    if !NoneCounted(s) {
      var c :| c in s.calls && s.calls[c].pc.Counted?;
      assert !Live(s.calls[c], OpenRows(store.db.subs));
      OverSheltered(cfg, s, store);
      if NoneSpoils(s, store) {
        assert !Spoils(s.calls[c], store.redis);
        OverBlank(cfg, s, store);
      }
    }
  }

  lemma OvertakenDies(cfg: Config, s: Sys, store: Store, c: nat)
    requires SnapsOk(s) && CallsFormed(s) && Restarted(cfg, s, store) && NoneLive(s, store)
    requires c in s.calls && !Unread(s.calls[c])
    ensures Dead(Realigned(s, store), s.calls[c])
  {
    var call := s.calls[c];
    assert !Live(call, OpenRows(store.db.subs));
    assert NotAhead(call.pc, s.Main().version) && Formed(call, s.Main().subTotal);
    if call.pc.Loaded? && NoneBlocks(s, store) { assert !Blocks(call, store); }
    if call.pc.Counted? && NoneSpoils(s, store) { assert !Spoils(call, store.redis); }
  }

  lemma OvertakenDie(cfg: Config, s: Sys, store: Store)
    requires SnapsOk(s) && Numbered(s) && CallsFormed(s) && Restarted(cfg, s, store) && NoneLive(s, store)
    ensures EarlierOk(Realigned(s, store))
  {
    var s' := Realigned(s, store);
    forall c | c in s'.calls && c in s'.earlier ensures Dead(s', s'.calls[c]) {
      OvertakenDies(cfg, s, store, c);
    }
  }

  lemma RealignedInv(cfg: Config, s: Sys, store: Store)
    requires Restarted(cfg, s, store) && NoneLive(s, store)
    ensures Inv(cfg, Current(Realigned(s, store)))
  {
    OvertakenFlags(cfg, s, store);
    FlagsKeep(cfg, Current(Restart(s, store)), NoneBlocks(s, store), !NoneCounted(s), !NoneSpoils(s, store));
  }

  /** The calls under way are dead ones afterwards, and all else counts from the rows. */
  lemma RetryOvertakes(cfg: Config, s: Sys, store: Store)
    requires RowsSound(cfg, s) && Restarted(cfg, s, store) && NoneLive(s, store)
    requires RowsSound(cfg, Realigned(s, store))
    ensures Sound(cfg, Realigned(s, store))
  {
    RealignedInv(cfg, s, store);
    OvertakenDie(cfg, s, store);
  }

  /** A Retry that goes through. */
  ghost predicate Retries(cfg: Config, s: Sys, step: Step) {
    step.RetryCampaign? && Next(cfg, s, step) != s
  }

  /** A step that, if it is a Retry that goes through, finds no live call under way. */
  ghost predicate Quiet(cfg: Config, s: Sys, step: Step) {
    Retries(cfg, s, step) ==> NoneLive(s, Next(cfg, s, step).store)
  }

  lemma SplitsErased(cfg: Config, s: Sys)
    requires RowsOk(Erased(s).store.db) && SplitsOk(cfg, Erased(s)) && PhaseOk(Erased(s))
    ensures RowsOk(s.store.db) && SplitsOk(cfg, s) && (s.Main().status.IsRetryable() ==> s.Main().owner == "")
  {
    forall w | w in s.splits ensures SplitOk(cfg, s.store.db, w, s.splits[w]) {
      assert SplitOk(cfg, Erased(s).store.db, w, Erased(s).splits[w]);
    }
    forall id | id in s.Subs() ensures id < s.store.db.nextId && RowOk(s.Subs()[id], s.Main()) {
      assert RowOk(Erased(s).Subs()[id], Erased(s).Main());
    }
  }

  lemma ReadyOf(cfg: Config, s: Sys)
    requires RowsSound(cfg, s)
    ensures RowsReady(cfg, s)
  {
    SplitsErased(cfg, s);
  }

  lemma NextIsRetry(cfg: Config, s: Sys, pushFailed: seq<string>, outcomes: Option<(int, int)>, now: int)
    ensures Next(cfg, s, RetryCampaign(pushFailed, outcomes, now)) == RetryStep(cfg, s, pushFailed, outcomes, now)
  {
  }

  lemma RowsKeepAt(cfg: Config, s: Sys, step: Step, s': Sys)
    requires RowsSound(cfg, s) && s' == Next(cfg, s, step)
    ensures RowsSound(cfg, s')
  {
    RowsKeep(cfg, s, step);
  }

  /** Where a Retry that goes through leads, in whatever run. */
  lemma RetryLands(cfg: Config, s: Sys, pushFailed: seq<string>, outcomes: Option<(int, int)>, now: int) returns (store: Store)
    requires RowsSound(cfg, s) && RetryStep(cfg, s, pushFailed, outcomes, now) != s
    ensures RetryStep(cfg, s, pushFailed, outcomes, now) == Realigned(s, store)
    ensures Restarted(cfg, s, store) && RowsSound(cfg, Realigned(s, store))
  {
    ReadyOf(cfg, s);
    store := RetrySound(cfg, s, pushFailed, outcomes, now);
    NextIsRetry(cfg, s, pushFailed, outcomes, now);
    RowsKeepAt(cfg, s, RetryCampaign(pushFailed, outcomes, now), Realigned(s, store));
  }

  lemma RetryStepKeeps(cfg: Config, s: Sys, step: Step)
    requires RowsSound(cfg, s) && Retries(cfg, s, step) && Quiet(cfg, s, step)
    ensures Sound(cfg, Next(cfg, s, step))
  {
    NextIsRetry(cfg, s, step.pushFailed, step.outcomes, step.now);
    var store := RetryLands(cfg, s, step.pushFailed, step.outcomes, step.now);
    RetryOvertakes(cfg, s, store);
    SoundThere(cfg, Realigned(s, store), Next(cfg, s, step));
  }

  lemma SoundThere(cfg: Config, s: Sys, s': Sys)
    requires Sound(cfg, s) && s' == s
    ensures Sound(cfg, s')
  {
  }

  lemma NoCallNoMove(s: Sys, step: Step)
    requires IsCallStep(step) && step.call !in s.calls
    ensures CallMoves(s, step) == s
  {
  }

  lemma NextIsCall(cfg: Config, s: Sys, step: Step)
    requires IsCallStep(step)
    ensures Next(cfg, s, step) == CallMoves(s, step)
  {
  }

  lemma DeadPassKeeps(cfg: Config, s: Sys, step: Step)
    requires Inv(cfg, Current(s)) && EarlierOk(s) && IsCallStep(step) && step.call in s.earlier
    ensures Inv(cfg, Current(Next(cfg, s, step))) && EarlierOk(Next(cfg, s, step))
  {
    NextIsCall(cfg, s, step);
    if step.call in s.calls { DeadStepKeeps(cfg, s, step); } else { NoCallNoMove(s, step); }
  }

  lemma PassKeeps(cfg: Config, s: Sys, step: Step)
    requires Inv(cfg, Current(s)) && EarlierOk(s) && !Retries(cfg, s, step)
    ensures Inv(cfg, Current(Next(cfg, s, step))) && EarlierOk(Next(cfg, s, step))
  {
    if Fresh(s, step) {
      FreshKeeps(cfg, s, step);
    } else if !step.RetryCampaign? {
      DeadPassKeeps(cfg, s, step);
    }
  }

  /** A Retry needs no counting to be right beforehand. */
  lemma NextKeeps(cfg: Config, s: Sys, step: Step)
    requires RowsSound(cfg, s) && Quiet(cfg, s, step)
    requires Retries(cfg, s, step) || Sound(cfg, s)
    ensures Sound(cfg, Next(cfg, s, step))
  {
    if Retries(cfg, s, step) {
      RetryStepKeeps(cfg, s, step);
    } else {
      RowsKeep(cfg, s, step);
      PassKeeps(cfg, s, step);
    }
  }
}
