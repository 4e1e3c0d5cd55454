/** The gateway as an object over the push repository. Its history names every event on every record; the state
    of each record is what the history makes of it, so what holds of all runs of events holds of the gateway. */
module GatewayService {
  import opened Status
  import opened PushRecords
  import opened Gateway
  import opened ChannelStrategy

  datatype Mode = Single | Fallback | Parallel | AllSuccess | Conditional | CostPriority

  datatype Message = Message(task: nat, user: string, channels: seq<Channel>, mode: Mode, maxFallback: int, channel: Channel,
                             routes: seq<Rule>, costs: map<Channel, int>, facts: Facts)
  {
    function EffectiveChannels(): seq<Channel> {
      if |channels| > 0 then channels else if channel != "" then [channel] else []
    }

    /** Several channels and no mode named: a fallback. One channel: single, unless routes or costs decide. */
    function EffectiveMode(): Mode {
      if mode in {Conditional, CostPriority} then mode
      else if |EffectiveChannels()| <= 1 then Single
      else if mode == Single then Fallback
      else mode
    }
  }

  /** The channels a message is sent on: by its routes, by cost, or as they are. */
  ghost predicate Resolved(m: Message, chs: seq<Channel>) {
    var base := m.EffectiveChannels();
    match m.mode
    case Conditional => Routed(m.routes, (c: Condition) => Matches(c, m.facts), base, chs)
    case CostPriority => exists order :: StableOrder(base, m.costs, order) && Reordered(base, order, chs)
    case _ => chs == base
  }

  type History = seq<(Key, Gateway.Event)>

  const NEW_LINE := Line(None, false)

  /** The events of one key, in order. */
  function Of(history: History, key: Key): seq<Gateway.Event> {
    if history == [] then []
    else
      var last := history[|history| - 1];
      Of(history[..|history| - 1], key) + (if last.0 == key then [last.1] else [])
  }

  lemma OfOneMore(history: History, key: Key, k: Key, e: Gateway.Event)
    ensures Of(history + [(k, e)], key) == if k == key then Of(history, key) + [e] else Of(history, key)
  {
    assert (history + [(k, e)])[..|history|] == history;
  }

  /** `line` and `accepted` are what the events of a key make of a new one. */
  predicate TraceOf(history: History, key: Key, maxRetry: int, line: Line, accepted: int) {
    && line == Gateway.After(NEW_LINE, Of(history, key), key.channel, maxRetry)
    && accepted == Gateway.Accepted(NEW_LINE, Of(history, key), key.channel, maxRetry)
  }

  function Accepting(line: Line, e: Gateway.Event, channel: Channel, maxRetry: int): int {
    if e.Deliver? then Gateway.SendOne(line, e.a, channel, maxRetry).accepts else 0
  }

  lemma TraceExtended(history: History, k: Key, key: Key, e: Gateway.Event, maxRetry: int, line: Line, n: int)
    requires TraceOf(history, k, maxRetry, line, n)
    ensures k == key ==> TraceOf(history + [(key, e)], k, maxRetry, Gateway.Next(line, e, k.channel, maxRetry), n + Accepting(line, e, k.channel, maxRetry))
    ensures k != key ==> TraceOf(history + [(key, e)], k, maxRetry, line, n)
  {
    OfOneMore(history, k, key, e);
    var events := Of(history, k);
    assert (events + [e])[..|events|] == events;
  }

  // ---- channel strategies ----

  /** The error a parallel send reports: none if some channel took the message. */
  function ParallelResult(outcomes: seq<Outcome>): Option<Failure> {
    if exists i :: 0 <= i < |outcomes| && outcomes[i].ok then None
    else if LastDeferred(outcomes).Some? then LastDeferred(outcomes)
    else if LastHard(outcomes).Some? then LastHard(outcomes)
    else if exists i :: 0 <= i < |outcomes| && outcomes[i].err == Some(Withheld) then None
    else Some(AllFailed)
  }

  function LastDeferred(outcomes: seq<Outcome>): Option<Failure> {
    if outcomes == [] then None
    else
      var o := outcomes[|outcomes| - 1];
      if !o.ok && o.err.Some? && o.err.value.Retryable() then o.err else LastDeferred(outcomes[..|outcomes| - 1])
  }

  function LastHard(outcomes: seq<Outcome>): Option<Failure> {
    if outcomes == [] then None
    else
      var o := outcomes[|outcomes| - 1];
      if Hard(o) then o.err else LastHard(outcomes[..|outcomes| - 1])
  }

  predicate Hard(o: Outcome) {
    !o.ok && o.err.Some? && !o.err.value.Retryable() && !o.err.value.Withheld?
  }

  /** A parallel send is done with exactly when some channel succeeded, or none failed in a way that leaves
      something to try or report and at least one was withheld. */
  lemma {:induction false} ParallelDone(outcomes: seq<Outcome>)
    ensures ParallelResult(outcomes) == None <==>
      || (exists i :: 0 <= i < |outcomes| && outcomes[i].ok)
      || ((forall i :: 0 <= i < |outcomes| ==> outcomes[i].err == None || outcomes[i].err == Some(Withheld))
          && exists i :: 0 <= i < |outcomes| && outcomes[i].err == Some(Withheld))
  {
    LastFound(outcomes);
  }

  lemma {:induction false} LastFound(outcomes: seq<Outcome>)
    ensures LastDeferred(outcomes).Some? <==> exists i :: 0 <= i < |outcomes| && DeferredAt(outcomes[i])
    ensures LastHard(outcomes).Some? <==> exists i :: 0 <= i < |outcomes| && Hard(outcomes[i])
    ensures LastDeferred(outcomes).Some? ==> LastDeferred(outcomes).value.Retryable()
    ensures LastHard(outcomes).Some? ==> !LastHard(outcomes).value.Retryable() && !LastHard(outcomes).value.Withheld?
  {
    if outcomes != [] {
      var n := |outcomes| - 1;
      LastFound(outcomes[..n]);
      assert outcomes == outcomes[..n] + [outcomes[n]];
      assert DeferredAt(outcomes[n]) ==> exists i :: 0 <= i < |outcomes| && DeferredAt(outcomes[i]);
      assert Hard(outcomes[n]) ==> exists i :: 0 <= i < |outcomes| && Hard(outcomes[i]);
    }
  }

  predicate DeferredAt(o: Outcome) {
    !o.ok && o.err.Some? && o.err.value.Retryable()
  }

  /** The error of an all-channels send: the last failure to retry, else the last other failure; withheld
      channels and channels that took the message do not count. */
  function AllSuccessResult(outcomes: seq<Outcome>): Option<Failure> {
    if LastDeferred(outcomes).Some? then LastDeferred(outcomes) else LastOther(outcomes)
  }

  function LastOther(outcomes: seq<Outcome>): Option<Failure> {
    if outcomes == [] then None
    else
      var o := outcomes[|outcomes| - 1];
      if o.ok || o.err == Some(Withheld) || DeferredAt(o) then LastOther(outcomes[..|outcomes| - 1])
      else if o.err.Some? then o.err else Some(AllFailed)
  }

  /** All-success is done with exactly when every channel took the message or withheld it. */
  lemma {:induction false} AllSuccessDone(outcomes: seq<Outcome>)
    ensures AllSuccessResult(outcomes) == None <==>
      forall i :: 0 <= i < |outcomes| ==> outcomes[i].ok || outcomes[i].err == Some(Withheld)
  {
    if outcomes != [] {
      AllSuccessDone(outcomes[..|outcomes| - 1]);
      assert outcomes == outcomes[..|outcomes| - 1] + [outcomes[|outcomes| - 1]];
    }
  }

  /** How a fallback chain went: every channel but the last tried failed in a way that lets the next one try. */
  predicate FellThrough(tried: seq<Outcome>) {
    forall i :: 0 <= i < |tried| ==> MovesOn(tried[i])
  }

  predicate MovesOn(o: Outcome) {
    !o.ok && o.err.Some? && (o.err.value.Withheld? || !(o.err.value.Retryable()
      || o.err.value.MainPaused? || o.err.value.OutsideWindow? || o.err.value.QuietHours?))
  }

  /** The result of a chain whose channels all failed. */
  function ChainResult(tried: seq<Outcome>): Option<Failure> {
    if LastHard(tried).Some? then LastHard(tried)
    else if AnyWithheld(tried) then None
    else Some(AllFailed)
  }

  predicate AnyWithheld(tried: seq<Outcome>) {
    exists i :: 0 <= i < |tried| && tried[i].err == Some(Withheld)
  }

  lemma TriedOneMore(tried: seq<Outcome>, more: seq<Outcome>, failure: Failure)
    requires |more| == |tried| + 1 && more[..|tried|] == tried && more[|tried|] == Fails(failure)
    ensures LastHard(more) == if failure.Withheld? || failure.Retryable() then LastHard(tried) else Some(failure)
    ensures AnyWithheld(more) == (AnyWithheld(tried) || failure == Withheld)
  {
    assert forall i :: 0 <= i < |tried| ==> more[i] == tried[i];
    if AnyWithheld(tried) {
      var i :| 0 <= i < |tried| && tried[i].err == Some(Withheld);
      assert more[i].err == Some(Withheld);
    }
  }

  /** Channels a message may try in a fallback. */
  function Chain(m: Message): seq<Channel> {
    if m.maxFallback > 0 && m.maxFallback + 1 < |m.channels| then m.channels[..m.maxFallback + 1] else m.channels
  }

  /** What the gateway is told before it picks a channel. */
  datatype Surroundings = Surroundings(gate: Gate, expired: bool, inWindow: bool, quiet: bool, userQuiet: Check,
                                       answers: nat -> Answers, now: int, saved: bool)

  /** Nothing but sends and closings of the message's own records. */
  predicate About(events: History, m: Message) {
    forall i :: 0 <= i < |events| ==>
      && events[i].0.task == m.task && events[i].0.user == m.user
      && (events[i].1.Deliver? || events[i].1.Close?)
  }

  /** What a history makes of a key. */
  function LineAfter(history: History, key: Key, maxRetry: int): Line {
    Gateway.After(NEW_LINE, Of(history, key), key.channel, maxRetry)
  }

  /** Entry `at` of the history is this send, and its outcome is what the entries before it make of it. */
  ghost predicate SentAt(history: History, at: nat, key: Key, a: Answers, o: Outcome, maxRetry: int) {
    && at < |history| && history[at] == (key, Deliver(a))
    && o == Gateway.SendOne(LineAfter(history[..at], key, maxRetry), a, key.channel, maxRetry).outcome
  }

  lemma SentNow(history: History, key: Key, a: Answers, o: Outcome, maxRetry: int, line: Line, accepted: int)
    requires TraceOf(history, key, maxRetry, line, accepted)
    requires o == Gateway.SendOne(line, a, key.channel, maxRetry).outcome
    ensures SentAt(history + [(key, Deliver(a))], |history|, key, a, o, maxRetry)
  {
    assert (history + [(key, Deliver(a))])[..|history|] == history;
  }

  /** From entry `from` on, the message went out on the first channels, one after another, with these outcomes. */
  ghost predicate SentEach(history: History, from: nat, m: Message, chs: seq<Channel>, answers: nat -> Answers,
                           outcomes: seq<Outcome>, maxRetry: int) {
    && |outcomes| <= |chs|
    && forall i :: 0 <= i < |outcomes| ==>
         SentAt(history, from + i, Key(m.task, m.user, chs[i]), answers(i), outcomes[i], maxRetry)
  }

  lemma SentStays(history: History, later: History, from: nat, m: Message, chs: seq<Channel>, answers: nat -> Answers,
                  outcomes: seq<Outcome>, maxRetry: int)
    requires SentEach(history, from, m, chs, answers, outcomes, maxRetry) && history <= later
    ensures SentEach(later, from, m, chs, answers, outcomes, maxRetry)
  {
    forall i | 0 <= i < |outcomes|
      ensures SentAt(later, from + i, Key(m.task, m.user, chs[i]), answers(i), outcomes[i], maxRetry)
    {
      assert SentAt(history, from + i, Key(m.task, m.user, chs[i]), answers(i), outcomes[i], maxRetry);
      assert later[..from + i] == history[..from + i];
    }
  }

  lemma SentOneMore(history: History, later: History, from: nat, m: Message, chs: seq<Channel>, answers: nat -> Answers,
                    outcomes: seq<Outcome>, o: Outcome, maxRetry: int)
    requires SentEach(history, from, m, chs, answers, outcomes, maxRetry) && history <= later
    requires |outcomes| < |chs| && |history| == from + |outcomes|
    requires SentAt(later, |history|, Key(m.task, m.user, chs[|outcomes|]), answers(|outcomes|), o, maxRetry)
    ensures SentEach(later, from, m, chs, answers, outcomes + [o], maxRetry)
  {
    SentStays(history, later, from, m, chs, answers, outcomes, maxRetry);
  }

  /** How a fallback chain ended, its channels up to the last one tried having gone as in `tried`: with the chain
      used up, with a channel that took the message or failed for good, or with the campaign's status. */
  ghost predicate ChainEnded(history: History, from: nat, m: Message, answers: nat -> Answers, tried: seq<Outcome>, err: Option<Failure>) {
    var chs, n := Chain(m), |tried|;
    && n <= |chs|
    && (forall i :: 0 <= i < n ==> answers(i).gate == Open)
    && (n > 0 ==> FellThrough(tried[..n - 1]))
    && (if !FellThrough(tried) then |history| == from + n && err == (if tried[n - 1].ok then None else tried[n - 1].err)
        else if n == |chs| then |history| == from + n && err == ChainResult(tried)
        else StoppedBy(history, from + n, Key(m.task, m.user, chs[n]), answers(n), err))
  }

  /** The status gate said no to the next channel. */
  ghost predicate StoppedBy(history: History, at: nat, key: Key, a: Answers, err: Option<Failure>) {
    match a.gate
    case Open => false
    case GateCancelled => err == None && |history| == at + 1 && history[at] == (key, Gateway.Close(SendCancelled, a.at, a.saved))
    case GatePaused => err == Some(MainPaused) && |history| == at
    case GateUnavailable => err == Some(MainStatusUnavailable) && |history| == at
  }

  /** The chain so far: all gates open, every channel tried failed so that the next may be tried. */
  ghost predicate Going(history: History, from: nat, m: Message, answers: nat -> Answers, tried: seq<Outcome>, maxRetry: int) {
    && |tried| <= |Chain(m)| && |history| == from + |tried|
    && (forall i :: 0 <= i < |tried| ==> answers(i).gate == Open)
    && FellThrough(tried)
    && SentEach(history, from, m, Chain(m), answers, tried, maxRetry)
  }

  /** What a fallback leaves behind: sends in order on the message's own records, and a chain that ended. */
  ghost predicate ChainDone(history: History, from: nat, m: Message, answers: nat -> Answers, tried: seq<Outcome>,
                            err: Option<Failure>, maxRetry: int) {
    && from <= |history| && About(history[from..], m)
    && SentEach(history, from, m, Chain(m), answers, tried, maxRetry)
    && ChainEnded(history, from, m, answers, tried, err)
  }

  lemma SentAbout(history: History, from: nat, m: Message, chs: seq<Channel>, answers: nat -> Answers,
                  outcomes: seq<Outcome>, maxRetry: int)
    requires SentEach(history, from, m, chs, answers, outcomes, maxRetry) && from + |outcomes| == |history|
    ensures About(history[from..], m)
  {
    forall i | 0 <= i < |history[from..]|
      ensures history[from..][i].0.task == m.task && history[from..][i].0.user == m.user && history[from..][i].1.Deliver?
    {
      assert SentAt(history, from + i, Key(m.task, m.user, chs[i]), answers(i), outcomes[i], maxRetry);
    }
  }

  lemma ChainStops(history: History, later: History, from: nat, m: Message, answers: nat -> Answers, tried: seq<Outcome>,
                   maxRetry: int, err: Option<Failure>)
    requires Going(history, from, m, answers, tried, maxRetry) && history <= later && |tried| < |Chain(m)|
    requires StoppedBy(later, |history|, Key(m.task, m.user, Chain(m)[|tried|]), answers(|tried|), err)
    ensures ChainDone(later, from, m, answers, tried, err, maxRetry)
  {
    SentStays(history, later, from, m, Chain(m), answers, tried, maxRetry);
    SentAbout(history, from, m, Chain(m), answers, tried, maxRetry);
    assert forall i :: 0 <= i < |history| - from ==> later[from..][i] == history[from..][i];
  }

  lemma ChainUsedUp(history: History, from: nat, m: Message, answers: nat -> Answers, tried: seq<Outcome>, maxRetry: int)
    requires Going(history, from, m, answers, tried, maxRetry) && |tried| == |Chain(m)|
    ensures ChainDone(history, from, m, answers, tried, ChainResult(tried), maxRetry)
  {
    SentAbout(history, from, m, Chain(m), answers, tried, maxRetry);
  }

  lemma ChainGoesOn(history: History, later: History, from: nat, m: Message, answers: nat -> Answers, tried: seq<Outcome>,
                    o: Outcome, maxRetry: int)
    requires Going(history, from, m, answers, tried, maxRetry) && history <= later
    requires |tried| < |Chain(m)| && |later| == |history| + 1 && answers(|tried|).gate == Open
    requires SentAt(later, |history|, Key(m.task, m.user, Chain(m)[|tried|]), answers(|tried|), o, maxRetry)
    ensures (tried + [o])[..|tried|] == tried
    ensures MovesOn(o) ==> Going(later, from, m, answers, tried + [o], maxRetry)
    ensures !MovesOn(o) ==> ChainDone(later, from, m, answers, tried + [o], if o.ok then None else o.err, maxRetry)
  {
    SentOneMore(history, later, from, m, Chain(m), answers, tried, o, maxRetry);
    assert (tried + [o])[..|tried|] == tried;
    if !MovesOn(o) { ChainEndsWith(history, later, from, m, answers, tried, o, maxRetry); }
  }

  lemma ChainEndsWith(history: History, later: History, from: nat, m: Message, answers: nat -> Answers, tried: seq<Outcome>,
                      o: Outcome, maxRetry: int)
    requires Going(history, from, m, answers, tried, maxRetry) && |tried| < |Chain(m)| && answers(|tried|).gate == Open
    requires |later| == |history| + 1 && SentEach(later, from, m, Chain(m), answers, tried + [o], maxRetry) && !MovesOn(o)
    ensures ChainDone(later, from, m, answers, tried + [o], if o.ok then None else o.err, maxRetry)
  {
    SentAbout(later, from, m, Chain(m), answers, tried + [o], maxRetry);
    assert (tried + [o])[..|tried|] == tried;
  }

  /** What becomes of a message before a channel is picked. */
  datatype Verdict = Ends(err: Option<Failure>) | GoesOut

  function Gatekeeping(s: Surroundings): Verdict {
    match s.gate
    case GateUnavailable => Ends(Some(MainStatusUnavailable))
    case GateCancelled => Ends(None)
    case GatePaused => Ends(Some(MainPaused))
    case Open =>
      if s.expired then Ends(None)
      else if !s.inWindow then Ends(Some(OutsideWindow))
      else if s.quiet then Ends(Some(QuietHours))
      else match s.userQuiet
        case Unknown(why) => Ends(Some(why))
        case Denied => Ends(Some(QuietHours))
        case Allowed => GoesOut
  }

  /** The records a message that ended there closes: its own channel's when cancelled, every channel's when expired. */
  function Closings(m: Message, s: Surroundings): History {
    match s.gate
    case GateCancelled => [(Key(m.task, m.user, m.channel), Gateway.Close(SendCancelled, s.now, s.saved))]
    case Open => if s.expired then ClosingsOf(m, m.EffectiveChannels(), s.now, s.saved) else []
    case _ => []
  }

  function ClosingsOf(m: Message, chs: seq<Channel>, now: int, saved: bool): History {
    if chs == [] then []
    else
      var n := |chs| - 1;
      ClosingsOf(m, chs[..n], now, saved)
        + (if chs[n] == "" then [] else [(Key(m.task, m.user, chs[n]), Gateway.Close(Expired, now, saved))])
  }

  lemma OneMoreClosing(history: History, m: Message, chs: seq<Channel>, i: nat, now: int, saved: bool)
    requires i < |chs|
    ensures history + ClosingsOf(m, chs[..i + 1], now, saved) == history + ClosingsOf(m, chs[..i], now, saved)
      + (if chs[i] == "" then [] else [(Key(m.task, m.user, chs[i]), Gateway.Close(Expired, now, saved))])
  {
    assert chs[..i + 1][..i] == chs[..i];
  }

  /** All channels were tried, one after another. */
  ghost predicate SentOnAll(history: History, from: nat, m: Message, answers: nat -> Answers, outcomes: seq<Outcome>, maxRetry: int) {
    && |outcomes| == |m.channels| && |history| == from + |outcomes|
    && SentEach(history, from, m, m.channels, answers, outcomes, maxRetry)
  }

  /** Only the first channel was tried. */
  ghost predicate SentOnFirst(history: History, from: nat, m: Message, answers: nat -> Answers, outcomes: seq<Outcome>,
                              err: Option<Failure>, maxRetry: int) {
    && |outcomes| == 1 && |history| == from + 1
    && SentEach(history, from, m, m.channels, answers, outcomes, maxRetry)
    && err == if outcomes[0].ok || outcomes[0].err == Some(Withheld) then None else outcomes[0].err
  }

  ghost predicate SentBy(mode: Mode, history: History, from: nat, m: Message, answers: nat -> Answers, outcomes: seq<Outcome>,
                         err: Option<Failure>, maxRetry: int) {
    match mode
    case Parallel => SentOnAll(history, from, m, answers, outcomes, maxRetry) && err == ParallelResult(outcomes)
    case AllSuccess => SentOnAll(history, from, m, answers, outcomes, maxRetry) && err == AllSuccessResult(outcomes)
    case Single => SentOnFirst(history, from, m, answers, outcomes, err, maxRetry)
    case Conditional =>
      if |m.channels| == 1 then SentOnFirst(history, from, m, answers, outcomes, err, maxRetry)
      else ChainDone(history, from, m, answers, outcomes, err, maxRetry)
    case _ => ChainDone(history, from, m, answers, outcomes, err, maxRetry)
  }

  /** Everything handling a message did, and the error it reports for it. */
  ghost predicate Handled(before: History, after: History, m: Message, s: Surroundings, chs: seq<Channel>,
                          outcomes: seq<Outcome>, err: Option<Failure>, maxRetry: int) {
    match Gatekeeping(s)
    case Ends(why) => err == why && after == before + Closings(m, s)
    case GoesOut =>
      && Resolved(m, chs)
      && if chs == [] then err == Some(NoChannel) && after == before
         else before <= after && SentBy(m.EffectiveMode(), after, |before|, m.(channels := chs), s.answers, outcomes, err, maxRetry)
  }

  class Service {
    const repo: PushRepo
    const maxRetry: int
    var marks: set<Key>
    /** Sends the channels accepted. */
    var accepts: seq<Key>
    ghost var history: History

    constructor (records: PushRepo, retries: int)
      requires records.records == map[]
      ensures repo == records && maxRetry == retries && Valid() && history == [] && accepts == []
    {
      repo, maxRetry, marks, accepts, history := records, retries, {}, [], [];
      new;
      forall key ensures Traced(key) {}
    }

    function LineOf(key: Key): Line
      reads this, repo
    {
      Line(repo.Find(key), key in marks)
    }

    /** The record of a key, its mark and its accepted sends are what the history says. */
    ghost predicate Traced(key: Key)
      reads this, repo
    {
      TraceOf(history, key, maxRetry, LineOf(key), multiset(accepts)[key])
    }

    ghost predicate Valid()
      reads this, repo
    {
      forall key :: Traced(key)
    }

    /** No failed receipt reopened the key's record and no accepted send went unsaved: the user got the message at most once. */
    lemma DeliveredAtMostOnce(key: Key)
      requires Valid()
      requires Unexcused(NEW_LINE, Of(history, key), key.channel, maxRetry)
      ensures multiset(accepts)[key] <= 1
    {
      assert Traced(key);
      AtMostOnce(NEW_LINE, Of(history, key), key.channel, maxRetry);
    }

    /** The channels accepted no message for the key that opt-out, frequency, tokens or status denied. */
    lemma DeniedNeverSent(key: Key)
      requires Valid()
      ensures multiset(accepts)[key] <= Allowing(Of(history, key), maxRetry)
    {
      assert Traced(key);
      AcceptedOnlyAllowed(NEW_LINE, Of(history, key), key.channel, maxRetry);
    }

    /** The rest of the gateway is as it was. */
    twostate predicate OnlyChanged(key: Key)
      reads this, repo
    {
      && (forall k :: k != key ==> LineOf(k) == old(LineOf(k)))
      && (forall k :: k != key ==> multiset(accepts)[k] == old(multiset(accepts)[k]))
    }

    twostate predicate TookTurn(key: Key, o: Outcome, turn: Turn)
      reads this, repo
    {
      && LineOf(key) == turn.line && o == turn.outcome
      && multiset(accepts)[key] == old(multiset(accepts)[key]) + turn.accepts
    }

    method Update(key: Key, a: Answers, status: PushStatus, provider: string, providerId: string, error: string)
      requires key in repo.records
      modifies repo`records
      ensures Line(repo.Find(key), key in marks) == Put(old(LineOf(key)), a, status, provider, providerId, error)
      ensures repo.records == old(repo.records)[key := repo.records[key]] && key in repo.records
    {
      if a.saved {
        repo.UpdateRecordDelivery(key, status, provider, providerId, error, a.at);
      }
    }

    /** The attempts on one channel. */
    method TrySend(a: Answers) returns (end: SendEnd)
      ensures end == Attempts(a.attempts, 0, if maxRetry < 0 then 0 else maxRetry)
    {
      var retries := maxRetry;
      if retries < 0 {
        retries := 0;
      }
      var attempt := 0;
      while attempt <= retries
        invariant 0 <= attempt <= retries
        invariant Attempts(a.attempts, attempt, retries) == Attempts(a.attempts, 0, retries)
        decreases retries - attempt
      {
        var t := a.attempts(attempt);
        if t.gate != Open {
          return Stops(t.gate);
        }
        if !t.sendError && t.hasResult && t.success {
          return Accepts;
        }
        if t.hasResult && !t.retryable && !t.sendError {
          break;
        }
        if attempt == retries {
          break;
        }
        if t.contextEnds {
          return ContextOver;
        }
        attempt := attempt + 1;
      }
      end := Refuses;
    }

    method DoSend(key: Key, a: Answers) returns (o: Outcome)
      requires key in repo.records
      modifies repo`records, this`marks, this`accepts
      ensures TookTurn(key, o, Gateway.DoSend(old(LineOf(key)), a, key.channel, maxRetry))
      ensures OnlyChanged(key)
    {
      if !a.registered {
        Update(key, a, Unreachable, "", "", a.why);
        return Fails(Withheld);
      }
      var end := TrySend(a);
      match end {
        case Stops(gate) =>
          match gate {
            case GateUnavailable =>
              Update(key, a, Queued, "", "", a.why);
              return Fails(MainStatusUnavailable);
            case GateCancelled =>
              Update(key, a, SendCancelled, "", "", "main task cancelled");
              return DROPPED;
            case _ =>
              Update(key, a, Queued, "", "", "main task paused");
              return Fails(MainPaused);
          }
        case ContextOver =>
          return Fails(ContextEnded);
        case Refuses =>
          Update(key, a, SendFailed, key.channel, "", a.why);
          return if a.saved then Fails(SendFailure) else Fails(RepoError);
        case Accepts =>
          accepts := accepts + [key];
          if !a.saved {
            return Fails(RepoError);
          }
          Update(key, a, Sent, if a.provider != "" then a.provider else key.channel, a.providerId, "");
          marks := marks + {key};
          return SUCCEEDED;
      }
    }

    /** Opt-out, frequency, tokens and status, then the send. */
    method Guard(key: Key, a: Answers) returns (o: Outcome)
      requires key in repo.records
      modifies repo`records, this`marks, this`accepts
      ensures TookTurn(key, o, Guarded(old(LineOf(key)), a, key.channel, maxRetry))
      ensures OnlyChanged(key)
    {
      match a.optOut {
        case Denied =>
          Update(key, a, Suppressed, "", "", a.why);
          return Fails(Withheld);
        case Unknown(why) =>
          Update(key, a, Queued, "", "", a.why);
          return Fails(why);
        case Allowed =>
      }
      match a.frequency {
        case Unknown(why) =>
          Update(key, a, Queued, "", "", a.why);
          return Fails(why);
        case Denied =>
          Update(key, a, Suppressed, "", "", "frequency_limit");
          return Fails(Withheld);
        case Allowed =>
      }
      if a.token.Some? {
        Update(key, a, Queued, "", "", "channel throttled");
        return Fails(a.token.value);
      }
      match a.gateAfter {
        case GateCancelled =>
          Update(key, a, SendCancelled, "", "", "main task cancelled");
          return DROPPED;
        case GatePaused =>
          Update(key, a, Queued, "", "", a.why);
          return Fails(MainPaused);
        case GateUnavailable =>
          Update(key, a, Queued, "", "", a.why);
          return Fails(MainStatusUnavailable);
        case Open =>
      }
      o := DoSend(key, a);
    }

    method SendOne(key: Key, a: Answers) returns (o: Outcome)
      requires Valid()
      modifies repo`records, this
      ensures Valid() && history == old(history) + [(key, Deliver(a))]
      ensures SentAt(history, |old(history)|, key, a, o, maxRetry)
      ensures OnlyChanged(key)
    {
      o := SendOneBody(key, a);
      assert old(Traced(key));
      SentNow(history, key, a, o, maxRetry, old(LineOf(key)), old(multiset(accepts)[key]));
      history := history + [(key, Deliver(a))];
      forall k ensures Traced(k) {
        assert old(Traced(k));
        TraceExtended(old(history), k, key, Deliver(a), maxRetry, old(LineOf(k)), old(multiset(accepts)[k]));
      }
    }

    method SendOneBody(key: Key, a: Answers) returns (o: Outcome)
      modifies repo`records, this`marks, this`accepts
      ensures TookTurn(key, o, Gateway.SendOne(old(LineOf(key)), a, key.channel, maxRetry))
      ensures OnlyChanged(key)
    {
      if !a.renders {
        if !a.claimFails {
          var dup, inFlight := repo.ClaimDelivery(key, key.channel, a.at);
          if !dup && !inFlight {
            Update(key, a, SendFailed, "", "", a.why);
          }
        }
        return Fails(RenderError);
      }
      if key in marks {
        return SUCCEEDED;
      }
      if a.claimFails {
        return Fails(RepoError);
      }
      var dup, inFlight := repo.ClaimDelivery(key, key.channel, a.at);
      if dup {
        marks := marks + {key};
        return SUCCEEDED;
      }
      if inFlight {
        return Fails(InProgress);
      }
      o := Guard(key, a);
    }

    /** A receipt for a record: it moves the record if it may. */
    method Receipt(key: Key, event: ReceiptEvent, error: string, now: int)
      requires Valid() && key in repo.records
      modifies repo, this`history
      ensures Valid() && history == old(history) + [(key, Report(event, error, now))]
    {
      repo.ApplyReceipt(key, event, error, now);
      history := history + [(key, Report(event, error, now))];
      forall k ensures Traced(k) {
        assert old(Traced(k));
        TraceExtended(old(history), k, key, Report(event, error, now), maxRetry, old(LineOf(k)), old(multiset(accepts)[k]));
      }
    }

    /** The mark in Redis is gone: it ran out, was evicted, or a retry of the campaign cleared it. */
    method Forgotten(key: Key)
      requires Valid()
      modifies this`marks, this`history
      ensures Valid() && history == old(history) + [(key, Forget)]
    {
      marks := marks - {key};
      history := history + [(key, Forget)];
      forall k ensures Traced(k) {
        assert old(Traced(k));
        TraceExtended(old(history), k, key, Forget, maxRetry, old(LineOf(k)), old(multiset(accepts)[k]));
      }
    }

    /** The record of a message that will not be sent is claimed and closed, unless it was delivered or is in flight. */
    method Close(key: Key, status: ClosingStatus, now: int, saved: bool)
      requires Valid()
      modifies repo`records, this`history
      ensures Valid() && history == old(history) + [(key, Gateway.Close(status, now, saved))]
    {
      CloseBody(key, status, now, saved);
      history := history + [(key, Gateway.Close(status, now, saved))];
      forall k ensures Traced(k) {
        assert old(Traced(k));
        TraceExtended(old(history), k, key, Gateway.Close(status, now, saved), maxRetry, old(LineOf(k)), old(multiset(accepts)[k]));
      }
    }

    method CloseBody(key: Key, status: PushStatus, now: int, saved: bool)
      modifies repo`records
      ensures LineOf(key) == old(LineOf(key)).(rec := Some(Closed(old(repo.Find(key)), key.channel, status, now, saved)))
      ensures OnlyChanged(key)
    {
      var dup, inFlight := repo.ClaimDelivery(key, key.channel, now);
      if saved && !dup && !inFlight {
        repo.UpdateRecordDelivery(key, status, "", "", "closed", now);
      }
    }

    /** The next channel of a fallback chain: the status gate, then the send. */
    method TryNext(m: Message, channel: Channel, a: Answers, ghost from: nat, ghost answers: nat -> Answers, ghost tried: seq<Outcome>)
      returns (stop: bool, err: Option<Failure>, ghost tried': seq<Outcome>)
      requires Valid() && Going(history, from, m, answers, tried, maxRetry)
      requires |tried| < |Chain(m)| && channel == Chain(m)[|tried|] && a == answers(|tried|)
      modifies repo`records, this
      ensures Valid() && old(history) <= history
      ensures !stop || ChainDone(history, from, m, answers, tried', err, maxRetry)
      ensures stop || Going(history, from, m, answers, tried', maxRetry)
      ensures !stop ==> |tried'| == |tried| + 1 && tried'[..|tried|] == tried
      ensures !stop ==> err.Some? && !err.value.Retryable() && tried'[|tried|] == Fails(err.value)
    {
      tried' := tried;
      var key := Key(m.task, m.user, channel);
      match a.gate {
        case GateCancelled =>
          Close(key, SendCancelled, a.at, a.saved);
          ChainStops(old(history), history, from, m, answers, tried, maxRetry, None);
          return true, None, tried;
        case GatePaused =>
          ChainStops(history, history, from, m, answers, tried, maxRetry, Some(MainPaused));
          return true, Some(MainPaused), tried;
        case GateUnavailable =>
          ChainStops(history, history, from, m, answers, tried, maxRetry, Some(MainStatusUnavailable));
          return true, Some(MainStatusUnavailable), tried;
        case Open =>
      }
      var o := SendOne(key, a);
      ChainGoesOn(old(history), history, from, m, answers, tried, o, maxRetry);
      tried' := tried + [o];
      if o.ok {
        return true, None, tried';
      }
      err := o.err;
      stop := err.None? || err.value.Retryable() || err.value in {MainPaused, OutsideWindow, QuietHours};
    }

    method SendFallback(m: Message, answers: nat -> Answers) returns (err: Option<Failure>, ghost tried: seq<Outcome>)
      requires Valid()
      modifies repo`records, this
      ensures Valid() && old(history) <= history
      ensures ChainDone(history, |old(history)|, m, answers, tried, err, maxRetry)
    {
      var chs := m.channels;
      if m.maxFallback > 0 && m.maxFallback + 1 < |chs| {
        chs := chs[..m.maxFallback + 1];
      }
      tried := [];
      var lastErr: Option<Failure> := None;
      var anySuppressed := false;
      ghost var from := |history|;
      for i := 0 to |chs|
        invariant Valid() && old(history) <= history
        invariant |tried| == i && Going(history, from, m, answers, tried, maxRetry)
        invariant lastErr == LastHard(tried)
        invariant anySuppressed == AnyWithheld(tried)
      {
        var stop;
        ghost var before := tried;
        stop, err, tried := TryNext(m, chs[i], answers(i), from, answers, tried);
        if stop {
          return;
        }
        TriedOneMore(before, tried, err.value);
        if err == Some(Withheld) {
          anySuppressed := true;
        } else {
          lastErr := err;
        }
      }
      ChainUsedUp(history, from, m, answers, tried, maxRetry);
      err := if lastErr.Some? then lastErr else if anySuppressed then None else Some(AllFailed);
    }

    /** Every channel is tried; here one after another. */
    method SendEachChannel(m: Message, answers: nat -> Answers) returns (outcomes: seq<Outcome>)
      requires Valid()
      modifies repo`records, this
      ensures Valid() && old(history) <= history
      ensures SentOnAll(history, |old(history)|, m, answers, outcomes, maxRetry)
    {
      outcomes := [];
      for i := 0 to |m.channels|
        invariant Valid() && old(history) <= history
        invariant |outcomes| == i && |history| == |old(history)| + i
        invariant SentEach(history, |old(history)|, m, m.channels, answers, outcomes, maxRetry)
      {
        ghost var so := history;
        var o := SendOne(Key(m.task, m.user, m.channels[i]), answers(i));
        SentOneMore(so, history, |old(history)|, m, m.channels, answers, outcomes, o, maxRetry);
        outcomes := outcomes + [o];
      }
    }

    method SendParallel(m: Message, answers: nat -> Answers) returns (err: Option<Failure>, ghost outcomes: seq<Outcome>)
      requires Valid()
      modifies repo`records, this
      ensures Valid() && old(history) <= history
      ensures SentOnAll(history, |old(history)|, m, answers, outcomes, maxRetry) && err == ParallelResult(outcomes)
    {
      var all := SendEachChannel(m, answers);
      outcomes := all;
      err := ClassifyParallel(all);
    }

    method SendAllSuccess(m: Message, answers: nat -> Answers) returns (err: Option<Failure>, ghost outcomes: seq<Outcome>)
      requires Valid()
      modifies repo`records, this
      ensures Valid() && old(history) <= history
      ensures SentOnAll(history, |old(history)|, m, answers, outcomes, maxRetry) && err == AllSuccessResult(outcomes)
    {
      var all := SendEachChannel(m, answers);
      outcomes := all;
      err := ClassifyAllSuccess(all);
    }

    static method ClassifyParallel(outcomes: seq<Outcome>) returns (err: Option<Failure>)
      ensures err == ParallelResult(outcomes)
    {
      var anyOK, anySuppressed := false, false;
      var lastErr: Option<Failure>, deferredErr: Option<Failure> := None, None;
      for i := 0 to |outcomes|
        invariant anyOK <==> exists j :: 0 <= j < i && outcomes[j].ok
        invariant !anyOK ==> (anySuppressed <==> exists j :: 0 <= j < i && outcomes[j].err == Some(Withheld))
        invariant deferredErr == LastDeferred(outcomes[..i]) && lastErr == LastHard(outcomes[..i])
      {
        assert outcomes[..i + 1][..i] == outcomes[..i];
        var o := outcomes[i];
        if o.ok {
          anyOK := true;
        } else if o.err == Some(Withheld) {
          anySuppressed := true;
        } else if o.err.Some? {
          if o.err.value.Retryable() {
            deferredErr := o.err;
          } else {
            lastErr := o.err;
          }
        }
      }
      assert outcomes[..|outcomes|] == outcomes;
      if anyOK {
        return None;
      }
      if deferredErr.Some? {
        return deferredErr;
      }
      if lastErr.Some? {
        return lastErr;
      }
      if anySuppressed {
        return None;
      }
      err := Some(AllFailed);
    }

    static method ClassifyAllSuccess(outcomes: seq<Outcome>) returns (err: Option<Failure>)
      ensures err == AllSuccessResult(outcomes)
    {
      var lastErr: Option<Failure>, retryableErr: Option<Failure> := None, None;
      for i := 0 to |outcomes|
        invariant retryableErr == LastDeferred(outcomes[..i]) && lastErr == LastOther(outcomes[..i])
      {
        assert outcomes[..i + 1][..i] == outcomes[..i];
        var o := outcomes[i];
        if o.ok || o.err == Some(Withheld) {
        } else if o.err.Some? {
          if o.err.value.Retryable() {
            retryableErr := o.err;
          } else {
            lastErr := o.err;
          }
        } else {
          lastErr := Some(AllFailed);
        }
      }
      assert outcomes[..|outcomes|] == outcomes;
      err := if retryableErr.Some? then retryableErr else lastErr;
    }

    method ResolveSendChannels(m: Message) returns (chs: seq<Channel>)
      ensures Resolved(m, chs)
    {
      chs := m.EffectiveChannels();
      match m.mode {
        case Conditional =>
          chs := ResolveRoutes(m.routes, m.facts, chs);
        case CostPriority =>
          chs := SortChannelsByCost(chs, m.costs);
        case _ =>
      }
    }

    /** Status, expiry, send window, quiet hours of the platform and of the user, in this order. */
    method CheckSurroundings(m: Message, s: Surroundings) returns (verdict: Verdict)
      requires Valid()
      modifies repo`records, this`history
      ensures Valid() && verdict == Gatekeeping(s)
      ensures history == old(history) + (if verdict.Ends? then Closings(m, s) else [])
    {
      match s.gate {
        case GateUnavailable => return Ends(Some(MainStatusUnavailable));
        case GateCancelled =>
          Close(Key(m.task, m.user, m.channel), SendCancelled, s.now, s.saved);
          return Ends(None);
        case GatePaused => return Ends(Some(MainPaused));
        case Open =>
      }
      if s.expired {
        MarkExpired(m, s.now, s.saved);
        return Ends(None);
      }
      if !s.inWindow {
        return Ends(Some(OutsideWindow));
      }
      if s.quiet {
        return Ends(Some(QuietHours));
      }
      match s.userQuiet {
        case Unknown(why) => return Ends(Some(why));
        case Denied => return Ends(Some(QuietHours));
        case Allowed => return GoesOut;
      }
    }

    method MarkExpired(m: Message, now: int, saved: bool)
      requires Valid()
      modifies repo`records, this`history
      ensures Valid() && history == old(history) + ClosingsOf(m, m.EffectiveChannels(), now, saved)
    {
      var chs := m.EffectiveChannels();
      for i := 0 to |chs|
        invariant Valid() && history == old(history) + ClosingsOf(m, chs[..i], now, saved)
      {
        OneMoreClosing(old(history), m, chs, i, now, saved);
        if chs[i] != "" {
          Close(Key(m.task, m.user, chs[i]), Expired, now, saved);
        }
      }
      assert chs[..|chs|] == chs;
    }

    /** The strategy the mode names, on channels resolved before. */
    method SendByMode(mode: Mode, m: Message, answers: nat -> Answers) returns (err: Option<Failure>, ghost outcomes: seq<Outcome>)
      requires Valid() && m.channels != []
      modifies repo`records, this
      ensures Valid() && old(history) <= history
      ensures SentBy(mode, history, |old(history)|, m, answers, outcomes, err, maxRetry)
    {
      match mode {
        case Parallel =>
          err, outcomes := SendParallel(m, answers);
        case AllSuccess =>
          err, outcomes := SendAllSuccess(m, answers);
        case Fallback | CostPriority =>
          err, outcomes := SendFallback(m, answers);
        case Conditional =>
          if |m.channels| == 1 {
            err, outcomes := SendFirst(m, answers);
          } else {
            err, outcomes := SendFallback(m, answers);
          }
        case Single =>
          err, outcomes := SendFirst(m, answers);
      }
    }

    method SendFirst(m: Message, answers: nat -> Answers) returns (err: Option<Failure>, ghost outcomes: seq<Outcome>)
      requires Valid() && m.channels != []
      modifies repo`records, this
      ensures Valid() && old(history) <= history
      ensures SentOnFirst(history, |old(history)|, m, answers, outcomes, err, maxRetry)
    {
      var o := SendOne(Key(m.task, m.user, m.channels[0]), answers(0));
      SentOneMore(old(history), history, |old(history)|, m, m.channels, answers, [], o, maxRetry);
      outcomes := [o];
      err := if o.ok || o.err == Some(Withheld) then None else o.err;
    }

    /** One message, from the status check on. No error means the queue may acknowledge it. */
    method Handle(m: Message, s: Surroundings) returns (err: Option<Failure>, ghost chs: seq<Channel>, ghost outcomes: seq<Outcome>)
      requires Valid()
      modifies repo`records, this
      ensures Valid()
      ensures Handled(old(history), history, m, s, chs, outcomes, err, maxRetry)
    {
      chs, outcomes := [], [];
      var verdict := CheckSurroundings(m, s);
      if verdict.Ends? {
        return verdict.err, chs, outcomes;
      }
      var resolved := ResolveSendChannels(m);
      chs := resolved;
      if |resolved| == 0 {
        return Some(NoChannel), chs, outcomes;
      }
      err, outcomes := SendByMode(m.EffectiveMode(), m.(channels := resolved), s.answers);
    }
  }
}
