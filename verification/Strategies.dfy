/** What the channel strategies do for a message, told without the functions they are computed with: which channels are
    tried, when the next one is, which error is reported, and who can keep a message from going out at all. */
module Strategies {
  import opened Status
  import opened PushRecords
  import opened Gateway
  import opened GatewayService
  import opened ChannelStrategy

  /** Nothing was decided this time. */
  predicate Undecided(o: Outcome) {
    !o.ok && o.err.Some? && o.err.value in {Throttled, FrequencyUnavailable, UnsubscribeUnavailable, PreferenceUnavailable,
                                            MainStatusUnavailable, ContextEnded}
  }

  predicate WasWithheld(o: Outcome) {
    !o.ok && o.err == Some(Withheld)
  }

  /** The channel failed, for this time and for good. */
  predicate FailedForGood(o: Outcome) {
    !o.ok && o.err.Some? && !Undecided(o) && o.err != Some(Withheld)
  }

  predicate LastWith(outcomes: seq<Outcome>, i: nat, kind: Outcome -> bool) {
    i < |outcomes| && kind(outcomes[i]) && forall j :: i < j < |outcomes| ==> !kind(outcomes[j])
  }

  predicate NoneWith(outcomes: seq<Outcome>, kind: Outcome -> bool) {
    forall i :: 0 <= i < |outcomes| ==> !kind(outcomes[i])
  }

  /** The error of the last outcome of a kind, if there is one. */
  ghost predicate LastErrorOf(outcomes: seq<Outcome>, kind: Outcome -> bool, err: Option<Failure>) {
    if NoneWith(outcomes, kind) then err == None
    else exists i: nat :: LastWith(outcomes, i, kind) && err == outcomes[i].err && err.Some?
  }

  lemma OneOutcomeMore(outcomes: seq<Outcome>, o: Outcome, kind: Outcome -> bool, err: Option<Failure>)
    requires LastErrorOf(outcomes, kind, err) && (kind(o) ==> o.err.Some?)
    ensures LastErrorOf(outcomes + [o], kind, if kind(o) then o.err else err)
  {
    var more, n := outcomes + [o], |outcomes|;
    if kind(o) {
      assert LastWith(more, n, kind);
    } else if NoneWith(outcomes, kind) {
      assert NoneWith(more, kind);
    } else {
      var i: nat :| LastWith(outcomes, i, kind) && err == outcomes[i].err && err.Some?;
      assert LastWith(more, i, kind);
    }
  }

  lemma {:induction false} LastErrors(outcomes: seq<Outcome>)
    ensures LastErrorOf(outcomes, Undecided, LastDeferred(outcomes))
    ensures LastErrorOf(outcomes, FailedForGood, LastHard(outcomes))
  {
    if outcomes != [] {
      var n := |outcomes| - 1;
      LastErrors(outcomes[..n]);
      assert outcomes == outcomes[..n] + [outcomes[n]];
      OneOutcomeMore(outcomes[..n], outcomes[n], Undecided, LastDeferred(outcomes[..n]));
      OneOutcomeMore(outcomes[..n], outcomes[n], FailedForGood, LastHard(outcomes[..n]));
    }
  }

  // ---- all channels at once ----

  predicate SomeTook(outcomes: seq<Outcome>) {
    exists i :: 0 <= i < |outcomes| && outcomes[i].ok
  }

  predicate SomeWithheld(outcomes: seq<Outcome>) {
    exists i :: 0 <= i < |outcomes| && WasWithheld(outcomes[i])
  }

  /** One channel that took the message is enough; else the last undecided error counts, else the last failure. */
  lemma ParallelReports(outcomes: seq<Outcome>)
    ensures var err := ParallelResult(outcomes);
      if SomeTook(outcomes) then err == None
      else if !NoneWith(outcomes, Undecided) then err.Some? && LastErrorOf(outcomes, Undecided, err)
      else if !NoneWith(outcomes, FailedForGood) then err.Some? && LastErrorOf(outcomes, FailedForGood, err)
      else err == if SomeWithheld(outcomes) then None else Some(AllFailed)
  {
    LastErrors(outcomes);
    if !SomeTook(outcomes) {
      assert SomeWithheld(outcomes) <==> exists i :: 0 <= i < |outcomes| && outcomes[i].err == Some(Withheld) by {
        if i :| 0 <= i < |outcomes| && outcomes[i].err == Some(Withheld) { assert WasWithheld(outcomes[i]); }
      }
    }
  }

  // ---- one channel after another ----

  /** The channel failed so that the next may be tried: neither undecided nor stopped by the campaign or the hour. */
  predicate LetsNextTry(o: Outcome) {
    !o.ok && o.err.Some? && !Undecided(o) && o.err.value !in {MainPaused, OutsideWindow, QuietHours}
  }

  lemma MovesOnIs(o: Outcome)
    ensures MovesOn(o) <==> LetsNextTry(o)
  {
  }

  /** As many channels as the message may use. */
  predicate UsedUp(m: Message, n: nat) {
    n == |m.channels| || (m.maxFallback > 0 && n == m.maxFallback + 1)
  }

  /** How a chain ended after the channels in `tried`. */
  ghost predicate ChainReports(m: Message, answers: nat -> Answers, tried: seq<Outcome>, err: Option<Failure>) {
    var n := |tried|;
    if n > 0 && !LetsNextTry(tried[n - 1]) then err == (if tried[n - 1].ok then None else tried[n - 1].err)
    else if UsedUp(m, n) then
      if NoneWith(tried, FailedForGood) then err == (if SomeWithheld(tried) then None else Some(AllFailed))
      else err.Some? && LastErrorOf(tried, FailedForGood, err)
    else match answers(n).gate
      case GateCancelled => err == None
      case GatePaused => err == Some(MainPaused)
      case GateUnavailable => err == Some(MainStatusUnavailable)
      case Open => false
  }

  lemma LastTried(tried: seq<Outcome>)
    requires tried != [] && FellThrough(tried[..|tried| - 1])
    ensures FellThrough(tried) <==> LetsNextTry(tried[|tried| - 1])
  {
    MovesOnIs(tried[|tried| - 1]);
    forall i | 0 <= i < |tried| - 1 ensures MovesOn(tried[i]) { assert MovesOn(tried[..|tried| - 1][i]); }
  }

  /** A fallback tries the channels in their order, no more of them than it may, each after the one before it failed in a
      way that lets the next try; and it reports what the channel that ended it says, the last failure when all are used
      up, or the campaign's status. */
  lemma FallbackReports(history: History, from: nat, m: Message, answers: nat -> Answers, tried: seq<Outcome>, err: Option<Failure>, maxRetry: int)
    requires ChainDone(history, from, m, answers, tried, err, maxRetry)
    ensures |tried| <= |m.channels| && (m.maxFallback > 0 ==> |tried| <= m.maxFallback + 1)
    ensures forall i :: 0 <= i < |tried| ==>
      answers(i).gate == Open && SentAt(history, from + i, Key(m.task, m.user, m.channels[i]), answers(i), tried[i], maxRetry)
    ensures forall i :: 0 <= i < |tried| - 1 ==> LetsNextTry(tried[i])
    ensures ChainReports(m, answers, tried, err)
  {
    forall i | 0 <= i < |tried|
      ensures SentAt(history, from + i, Key(m.task, m.user, m.channels[i]), answers(i), tried[i], maxRetry)
    {
      assert SentAt(history, from + i, Key(m.task, m.user, Chain(m)[i]), answers(i), tried[i], maxRetry);
    }
    forall i | 0 <= i < |tried| - 1 ensures LetsNextTry(tried[i]) {
      assert MovesOn(tried[..|tried| - 1][i]);
      MovesOnIs(tried[i]);
    }
    if tried != [] { LastTried(tried); }
    ChainEnds(history, from, m, answers, tried, err);
  }

  lemma ChainEnds(history: History, from: nat, m: Message, answers: nat -> Answers, tried: seq<Outcome>, err: Option<Failure>)
    requires ChainEnded(history, from, m, answers, tried, err)
    requires FellThrough(tried) <==> tried == [] || LetsNextTry(tried[|tried| - 1])
    ensures ChainReports(m, answers, tried, err)
  {
    if FellThrough(tried) && |tried| == |Chain(m)| {
      LastErrors(tried);
      forall i | 0 <= i < |tried| ensures !tried[i].ok { assert MovesOn(tried[i]); }
      if AnyWithheld(tried) {
        var i :| 0 <= i < |tried| && tried[i].err == Some(Withheld);
        assert WasWithheld(tried[i]);
      }
    }
  }

  // ---- every channel ----

  /** Neither took the message nor withheld it, nor is it undecided. */
  predicate Missed(o: Outcome) {
    !o.ok && o.err != Some(Withheld) && !Undecided(o)
  }

  ghost predicate LastMiss(outcomes: seq<Outcome>, err: Option<Failure>) {
    exists i: nat :: LastWith(outcomes, i, Missed) && err == MissOf(outcomes[i])
  }

  function MissOf(o: Outcome): Option<Failure> {
    if o.err.Some? then o.err else Some(AllFailed)
  }

  /** The last miss decides what is reported, and without one nothing is. */
  ghost predicate MissReported(outcomes: seq<Outcome>, err: Option<Failure>) {
    if NoneWith(outcomes, Missed) then err == None else LastMiss(outcomes, err)
  }

  lemma NoMissMore(outcomes: seq<Outcome>, o: Outcome, err: Option<Failure>)
    requires MissReported(outcomes, err) && !Missed(o)
    ensures MissReported(outcomes + [o], err)
  {
    if !NoneWith(outcomes, Missed) {
      var i: nat :| LastWith(outcomes, i, Missed) && err == MissOf(outcomes[i]);
      assert LastWith(outcomes + [o], i, Missed);
    }
  }

  lemma {:induction false} LastOtherIs(outcomes: seq<Outcome>)
    ensures MissReported(outcomes, LastOther(outcomes))
  {
    if outcomes != [] {
      var n := |outcomes| - 1;
      var o := outcomes[n];
      if Missed(o) {
        assert LastWith(outcomes, n, Missed);
      } else {
        LastOtherIs(outcomes[..n]);
        NoMissMore(outcomes[..n], o, LastOther(outcomes[..n]));
        assert outcomes == outcomes[..n] + [o];
      }
    }
  }

  /** Every channel must take or withhold the message; else the last undecided error counts, else the last other. */
  lemma AllSuccessReports(outcomes: seq<Outcome>)
    ensures var err := AllSuccessResult(outcomes);
      if NoneWith(outcomes, Undecided) then MissReported(outcomes, err) else err.Some? && LastErrorOf(outcomes, Undecided, err)
  {
    LastErrors(outcomes);
    LastOtherIs(outcomes);
  }

  // ---- before any channel ----

  /** Nothing about the campaign or the hour is against a send. */
  predicate MaySend(s: Surroundings) {
    s.gate == Open && !s.expired && s.inWindow && !s.quiet && s.userQuiet == Allowed
  }

  /** What ends a message before any channel is tried, in the order it is looked at. */
  predicate TurnedBack(s: Surroundings, err: Option<Failure>) {
    && (s.gate == GateUnavailable ==> err == Some(MainStatusUnavailable))
    && (s.gate == GatePaused ==> err == Some(MainPaused))
    && (s.gate == GateCancelled ==> err == None)
    && (s.gate == Open && s.expired ==> err == None)
    && (s.gate == Open && !s.expired && !s.inWindow ==> err == Some(OutsideWindow))
    && (s.gate == Open && !s.expired && s.inWindow && s.quiet ==> err == Some(QuietHours))
    && (s.gate == Open && !s.expired && s.inWindow && !s.quiet ==>
          err == if s.userQuiet.Unknown? then Some(s.userQuiet.why) else Some(QuietHours))
  }

  /** These records are closed, in this order, and nothing else is done. */
  ghost predicate ClosesOnly(before: History, after: History, keys: seq<Key>, status: ClosingStatus, s: Surroundings) {
    && |after| == |before| + |keys| && before <= after
    && forall i :: 0 <= i < |keys| ==> after[|before| + i] == (keys[i], Gateway.Close(status, s.now, s.saved))
  }

  /** The channels the message names. */
  predicate Named(m: Message, chs: seq<Channel>) {
    if m.channels != [] then chs == m.channels else chs == if m.channel != "" then [m.channel] else []
  }

  predicate IsKeyOf(m: Message, k: Key, ch: Channel) {
    k.task == m.task && k.user == m.user && k.channel == ch
  }

  /** The keys of the named channels, empty names passed over. */
  predicate KeysOf(m: Message, chs: seq<Channel>, keys: seq<Key>, at: seq<nat>) {
    && |at| == |keys|
    && (forall k :: 0 <= k < |at| ==> at[k] < |chs| && chs[at[k]] != "" && IsKeyOf(m, keys[k], chs[at[k]]))
    && (forall j, k :: 0 <= j < k < |at| ==> at[j] < at[k])
    && (forall i :: 0 <= i < |chs| && chs[i] != "" ==> i in at)
  }

  lemma OneKeyMore(m: Message, chs: seq<Channel>, keys: seq<Key>, at: seq<nat>, ch: Channel)
    requires KeysOf(m, chs, keys, at) && ch != ""
    ensures KeysOf(m, chs + [ch], keys + [Key(m.task, m.user, ch)], at + [|chs|])
  {
    assert (at + [|chs|])[|at|] == |chs|;
    forall i | 0 <= i < |chs| + 1 && (chs + [ch])[i] != "" ensures i in at + [|chs|] {
      if i < |chs| { assert i in at; }
    }
  }

  lemma KeyPassed(m: Message, chs: seq<Channel>, keys: seq<Key>, at: seq<nat>)
    requires KeysOf(m, chs, keys, at)
    ensures KeysOf(m, chs + [""], keys, at)
  {
  }

  lemma {:induction false} ClosingsAre(m: Message, chs: seq<Channel>, now: int, saved: bool) returns (keys: seq<Key>, at: seq<nat>)
    ensures KeysOf(m, chs, keys, at)
    ensures |ClosingsOf(m, chs, now, saved)| == |keys|
    ensures forall i :: 0 <= i < |keys| ==> ClosingsOf(m, chs, now, saved)[i] == (keys[i], Gateway.Close(Expired, now, saved))
  {
    keys, at := [], [];
    if chs != [] {
      var n := |chs| - 1;
      keys, at := ClosingsAre(m, chs[..n], now, saved);
      assert chs == chs[..n] + [chs[n]];
      if chs[n] != "" {
        OneKeyMore(m, chs[..n], keys, at, chs[n]);
        keys, at := keys + [Key(m.task, m.user, chs[n])], at + [n];
      } else {
        KeyPassed(m, chs[..n], keys, at);
      }
    }
  }

  /** A message that may not go out ends with its reason and at most closes its records: its own channel's when the campaign
      was cancelled, those of all named channels when it ran out. */
  lemma TurnedBackReports(before: History, after: History, m: Message, s: Surroundings, chs: seq<Channel>,
                          outcomes: seq<Outcome>, err: Option<Failure>, maxRetry: int) returns (keys: seq<Key>, at: seq<nat>, named: seq<Channel>)
    requires Handled(before, after, m, s, chs, outcomes, err, maxRetry) && !MaySend(s)
    ensures TurnedBack(s, err)
    ensures s.gate == GateCancelled ==> ClosesOnly(before, after, [Key(m.task, m.user, m.channel)], SendCancelled, s)
    ensures s.gate == Open && s.expired ==> Named(m, named) && KeysOf(m, named, keys, at) && ClosesOnly(before, after, keys, Expired, s)
    ensures s.gate != GateCancelled && !(s.gate == Open && s.expired) ==> after == before
  {
    named := m.EffectiveChannels();
    keys, at := ClosingsAre(m, named, s.now, s.saved);
  }

  /** All channels are tried in order. */
  ghost predicate EachTried(after: History, from: nat, m: Message, chs: seq<Channel>, s: Surroundings, outcomes: seq<Outcome>, maxRetry: int) {
    && |outcomes| == |chs| && |after| == from + |chs|
    && forall i :: 0 <= i < |chs| ==> SentAt(after, from + i, Key(m.task, m.user, chs[i]), s.answers(i), outcomes[i], maxRetry)
  }

  /** A message that may go out does, on the channels its mode gives, those it names, in the order of their costs, or those of
      the rule that applies: on all of them at once if it says so and names several, on one alone if it has just that, else
      one after another. */
  lemma SentReports(before: History, after: History, m: Message, s: Surroundings, chs: seq<Channel>,
                    outcomes: seq<Outcome>, err: Option<Failure>, maxRetry: int) returns (named: seq<Channel>)
    requires Handled(before, after, m, s, chs, outcomes, err, maxRetry) && MaySend(s)
    ensures chs == [] ==> err == Some(NoChannel) && after == before
    ensures Named(m, named)
    ensures m.mode !in {Conditional, CostPriority} ==> chs == named
    ensures m.mode == CostPriority ==> exists order :: StableOrder(named, m.costs, order) && Reordered(named, order, chs)
    ensures m.mode == Conditional ==> Routed(m.routes, (c: Condition) => Matches(c, m.facts), named, chs)
    ensures chs != [] && |m.channels| > 1 && m.mode in {Parallel, AllSuccess} ==>
      && EachTried(after, |before|, m, chs, s, outcomes, maxRetry)
      && err == if m.mode == Parallel then ParallelResult(outcomes) else AllSuccessResult(outcomes)
    ensures chs != [] && (if m.mode == Conditional then |chs| == 1 else m.mode != CostPriority && |m.channels| <= 1) ==>
      && EachTried(after, |before|, m, chs[..1], s, outcomes, maxRetry)
      && err == if outcomes[0].ok || outcomes[0].err == Some(Withheld) then None else outcomes[0].err
    ensures chs != [] && (m.mode == CostPriority || (if m.mode == Conditional then |chs| > 1 else |m.channels| > 1 && m.mode in {Single, Fallback})) ==>
      ChainDone(after, |before|, m.(channels := chs), s.answers, outcomes, err, maxRetry)
  {
    named := m.EffectiveChannels();
    if chs != [] {
      var n := m.(channels := chs);
      assert SentBy(m.EffectiveMode(), after, |before|, n, s.answers, outcomes, err, maxRetry);
    }
  }
}
