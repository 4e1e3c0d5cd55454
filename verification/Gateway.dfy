/** The push gateway: one user on one channel (sendOne, doSend), the channel strategies built on it, and what
    handling the same message over and over does. What the gateway is told by others (checks, limiter, channel
    sender, clock, context) comes in as answers, one set for each channel it tries. */
module Gateway {
  import opened Status
  import opened PushRecords

  // ---- answers and outcomes ----

  datatype Failure =
    | RenderError | RepoError | InProgress | Withheld | SendFailure | AllFailed | NoChannel | MainPaused
    | OutsideWindow | QuietHours | Throttled | FrequencyUnavailable | UnsubscribeUnavailable | PreferenceUnavailable
    | MainStatusUnavailable | ContextEnded
  {
    /** Not decided this time: no final status, try the message again. */
    predicate Retryable() {
      Throttled? || FrequencyUnavailable? || UnsubscribeUnavailable? || PreferenceUnavailable?
      || MainStatusUnavailable? || ContextEnded?
    }
  }

  datatype Gate = Open | GateCancelled | GatePaused | GateUnavailable

  datatype Check = Allowed | Denied | Unknown(why: Failure)

  /** One call of the channel's sender: what the status gate said before it, and what came back. */
  datatype Attempt = Attempt(gate: Gate, hasResult: bool, success: bool, retryable: bool, sendError: bool, contextEnds: bool)
  {
    predicate Accepted() {
      !sendError && hasResult && success
    }
  }

  /** `saved` is whether the repository takes the writes that follow the claim. */
  datatype Answers = Answers(
    gate: Gate, renders: bool, claimFails: bool, at: int, optOut: Check, frequency: Check, token: Option<Failure>,
    gateAfter: Gate, registered: bool, attempts: nat -> Attempt, provider: string, providerId: string, why: string, saved: bool)

  /** The result of sendOne. Not ok with no error: the campaign was cancelled under way. */
  datatype Outcome = Outcome(ok: bool, err: Option<Failure>)

  const SUCCEEDED := Outcome(true, None)
  const DROPPED := Outcome(false, None)

  function Fails(f: Failure): Outcome {
    Outcome(false, Some(f))
  }

  /** What the gateway knows of one (task, user, channel): the record and the mark in Redis. */
  datatype Line = Line(rec: Option<Record>, marked: bool)

  /** `accepts` is how often the channel's sender accepted the message. */
  datatype Turn = Turn(line: Line, accepts: int, outcome: Outcome)

  // ---- one user on one channel ----

  function Put(line: Line, a: Answers, status: PushStatus, provider: string, providerId: string, error: string): Line {
    if line.rec.None? || !a.saved then line
    else line.(rec := Some(Written(line.rec.value, status, provider, providerId, error, a.at)))
  }

  datatype SendEnd = Accepts | Refuses | Stops(gate: Gate) | ContextOver

  /** The send loop from attempt `i` on. */
  function Attempts(attempts: nat -> Attempt, i: nat, maxRetry: nat): SendEnd
    requires i <= maxRetry
    decreases maxRetry - i
  {
    var t := attempts(i);
    if !t.gate.Open? then Stops(t.gate)
    else if t.Accepted() then Accepts
    else if t.hasResult && !t.retryable && !t.sendError then Refuses
    else if i == maxRetry then Refuses
    else if t.contextEnds then ContextOver
    else Attempts(attempts, i + 1, maxRetry)
  }

  function DoSend(line: Line, a: Answers, channel: Channel, maxRetry: int): Turn {
    if !a.registered then Turn(Put(line, a, Unreachable, "", "", a.why), 0, Fails(Withheld))
    else match Attempts(a.attempts, 0, if maxRetry < 0 then 0 else maxRetry)
      case Stops(GateUnavailable) => Turn(Put(line, a, Queued, "", "", a.why), 0, Fails(MainStatusUnavailable))
      case Stops(GateCancelled) => Turn(Put(line, a, SendCancelled, "", "", "main task cancelled"), 0, DROPPED)
      case Stops(_) => Turn(Put(line, a, Queued, "", "", "main task paused"), 0, Fails(MainPaused))
      case ContextOver => Turn(line, 0, Fails(ContextEnded))
      case Refuses =>
        Turn(Put(line, a, SendFailed, channel, "", a.why), 0, if a.saved then Fails(SendFailure) else Fails(RepoError))
      case Accepts =>
        var provider := if a.provider != "" then a.provider else channel;
        if a.saved then Turn(Put(line, a, Sent, provider, a.providerId, "").(marked := true), 1, SUCCEEDED)
        else Turn(line, 1, Fails(RepoError))
  }

  /** After the claim was granted. */
  function Guarded(line: Line, a: Answers, channel: Channel, maxRetry: int): Turn {
    if a.optOut.Denied? then Turn(Put(line, a, Suppressed, "", "", a.why), 0, Fails(Withheld))
    else if a.optOut.Unknown? then Turn(Put(line, a, Queued, "", "", a.why), 0, Fails(a.optOut.why))
    else if a.frequency.Unknown? then Turn(Put(line, a, Queued, "", "", a.why), 0, Fails(a.frequency.why))
    else if a.frequency.Denied? then Turn(Put(line, a, Suppressed, "", "", "frequency_limit"), 0, Fails(Withheld))
    else if a.token.Some? then Turn(Put(line, a, Queued, "", "", "channel throttled"), 0, Fails(a.token.value))
    else match a.gateAfter
      case GateCancelled => Turn(Put(line, a, SendCancelled, "", "", "main task cancelled"), 0, DROPPED)
      case GatePaused => Turn(Put(line, a, Queued, "", "", a.why), 0, Fails(MainPaused))
      case GateUnavailable => Turn(Put(line, a, Queued, "", "", a.why), 0, Fails(MainStatusUnavailable))
      case Open => DoSend(line, a, channel, maxRetry)
  }

  function SendOne(line: Line, a: Answers, channel: Channel, maxRetry: int): Turn {
    if !a.renders then
      if a.claimFails || !AnswerTo(line.rec, a.at).Granted? then Turn(line, 0, Fails(RenderError))
      else Turn(Put(line.(rec := Some(Claimed(line.rec, channel, a.at))), a, SendFailed, "", "", a.why), 0, Fails(RenderError))
    else if line.marked then Turn(line, 0, SUCCEEDED)
    else if a.claimFails then Turn(line, 0, Fails(RepoError))
    else match AnswerTo(line.rec, a.at)
      case Duplicate => Turn(line.(marked := true), 0, SUCCEEDED)
      case InFlight => Turn(line, 0, Fails(InProgress))
      case Granted => Guarded(line.(rec := Some(Claimed(line.rec, channel, a.at))), a, channel, maxRetry)
  }

  predicate Holding(line: Line) {
    line.rec.Some? && line.rec.value.status.DeliveredOK()
  }

  /** A send accepted by the channel finds a record that was not delivered, and with the write saved leaves it
      sent; nothing else the gateway does moves a delivered record. */
  lemma SendOneHolds(line: Line, a: Answers, channel: Channel, maxRetry: int)
    ensures var s := SendOne(line, a, channel, maxRetry);
      && 0 <= s.accepts <= 1
      && (s.accepts == 1 ==> !Holding(line) && (a.saved ==> Holding(s.line)))
      && (Holding(line) ==> s.line.rec == line.rec)
      && (line.rec.Some? ==> s.line.rec.Some?)
  {
  }

  /** A claim that was granted does not stay: unless the context ended in a backoff, the record is out of sending. */
  lemma GrantReleased(line: Line, a: Answers, channel: Channel, maxRetry: int)
    requires a.saved && !a.claimFails && AnswerTo(line.rec, a.at).Granted? && !(a.renders && line.marked)
    ensures var s := SendOne(line, a, channel, maxRetry);
      s.outcome.err == Some(ContextEnded) || (s.line.rec.Some? && !s.line.rec.value.status.Sending?)
  {
  }

  /** The context can end only in a backoff, after a retryable attempt that was not the last. */
  lemma {:induction false} ContextEndsInBackoff(attempts: nat -> Attempt, i: nat, maxRetry: nat)
    requires i <= maxRetry
    ensures Attempts(attempts, i, maxRetry).ContextOver? <==> exists k :: i <= k < maxRetry && BackoffAt(attempts, i, k)
    decreases maxRetry - i
  {
    if i < maxRetry {
      var next := i + 1;
      ContextEndsInBackoff(attempts, next, maxRetry);
      if GoesOn(attempts(i)) && exists k :: next <= k < maxRetry && BackoffAt(attempts, next, k) {
        var k :| next <= k < maxRetry && BackoffAt(attempts, next, k);
        assert BackoffAt(attempts, i, k);
      }
      if exists k :: i <= k < maxRetry && BackoffAt(attempts, i, k) {
        var k :| i <= k < maxRetry && BackoffAt(attempts, i, k);
        assert k > i ==> BackoffAt(attempts, next, k);
      }
      assert BackoffAt(attempts, i, i) <==> Fruitless(attempts(i)) && attempts(i).contextEnds;
    }
  }

  /** The attempt was made, was not accepted and may be repeated. */
  predicate Fruitless(t: Attempt) {
    t.gate.Open? && !t.Accepted() && !(t.hasResult && !t.retryable && !t.sendError)
  }

  predicate GoesOn(t: Attempt) {
    Fruitless(t) && !t.contextEnds
  }

  predicate BackoffAt(attempts: nat -> Attempt, i: nat, k: nat) {
    i <= k && Fruitless(attempts(k)) && attempts(k).contextEnds && forall j :: i <= j < k ==> GoesOn(attempts(j))
  }

  // ---- when a message is sent, and what becomes of it when it is not ----

  /** The sender took the message. */
  predicate Takes(t: Attempt) {
    t.gate == Open && t.hasResult && t.success && !t.sendError
  }

  /** The attempts before the k-th all failed in a way that may be repeated, and the context lasted. */
  predicate Reaches(attempts: nat -> Attempt, k: nat) {
    forall j :: 0 <= j < k ==>
      var t := attempts(j);
      t.gate == Open && !t.contextEnds && (t.sendError || !t.hasResult || (!t.success && t.retryable))
  }

  /** The k-th is the last one made: it was refused for good, or no more are left. */
  predicate GivesUp(attempts: nat -> Attempt, k: nat, maxRetry: nat) {
    var t := attempts(k);
    && Reaches(attempts, k) && t.gate == Open
    && ((t.hasResult && !t.success && !t.retryable && !t.sendError) || (k == maxRetry && !Takes(t)))
  }

  function Retries(maxRetry: int): nat {
    if maxRetry < 0 then 0 else maxRetry
  }

  /** From attempt i on, the same for the attempts from i on. */
  predicate ReachesFrom(attempts: nat -> Attempt, i: nat, k: nat) {
    forall j :: i <= j < k ==> GoesOn(attempts(j))
  }

  predicate EndsAt(attempts: nat -> Attempt, i: nat, k: nat, maxRetry: nat, end: SendEnd) {
    var t := attempts(k);
    && i <= k <= maxRetry && ReachesFrom(attempts, i, k)
    && match end
       case Accepts => Takes(t)
       case Stops(gate) => t.gate == gate != Open
       case ContextOver => Fruitless(t) && t.contextEnds && k < maxRetry
       case Refuses => t.gate == Open && !Takes(t) && ((t.hasResult && !t.retryable && !t.sendError) || k == maxRetry)
  }

  lemma {:induction false} AttemptsEnd(attempts: nat -> Attempt, i: nat, maxRetry: nat) returns (k: nat)
    requires i <= maxRetry
    ensures EndsAt(attempts, i, k, maxRetry, Attempts(attempts, i, maxRetry))
    decreases maxRetry - i
  {
    var t := attempts(i);
    if !GoesOn(t) || i == maxRetry {
      k := i;
    } else {
      k := AttemptsEnd(attempts, i + 1, maxRetry);
    }
  }

  lemma OneEnd(attempts: nat -> Attempt, k: nat, maxRetry: nat, end: SendEnd, m: nat, other: SendEnd)
    requires EndsAt(attempts, 0, k, maxRetry, end) && EndsAt(attempts, 0, m, maxRetry, other)
    ensures k == m && end == other
  {
    assert ReachesFrom(attempts, 0, k) && ReachesFrom(attempts, 0, m);
  }

  /** The attempts end with an acceptance, a refusal, a closed gate or the end of the context, at the first attempt that
      brings it about. */
  lemma AttemptsEndIff(attempts: nat -> Attempt, maxRetry: nat, k: nat)
    requires k <= maxRetry && Reaches(attempts, k)
    ensures Takes(attempts(k)) ==> Attempts(attempts, 0, maxRetry) == Accepts
    ensures GivesUp(attempts, k, maxRetry) ==> Attempts(attempts, 0, maxRetry) == Refuses
    ensures attempts(k).gate != Open ==> Attempts(attempts, 0, maxRetry) == Stops(attempts(k).gate)
    ensures attempts(k).gate == Open && !Takes(attempts(k)) && !GivesUp(attempts, k, maxRetry) && attempts(k).contextEnds ==>
              Attempts(attempts, 0, maxRetry) == ContextOver
  {
    var m := AttemptsEnd(attempts, 0, maxRetry);
    var end := Attempts(attempts, 0, maxRetry);
    if Takes(attempts(k)) { OneEnd(attempts, m, maxRetry, end, k, Accepts); }
    if GivesUp(attempts, k, maxRetry) { OneEnd(attempts, m, maxRetry, end, k, Refuses); }
    if attempts(k).gate != Open { OneEnd(attempts, m, maxRetry, end, k, Stops(attempts(k).gate)); }
    if attempts(k).gate == Open && !Takes(attempts(k)) && !GivesUp(attempts, k, maxRetry) && attempts(k).contextEnds {
      OneEnd(attempts, m, maxRetry, end, k, ContextOver);
    }
  }

  /** Whoever is asked before a send has nothing against it, and some attempt is accepted after none but repeatable ones. */
  ghost predicate Allows(a: Answers, maxRetry: int) {
    && a.renders && !a.claimFails && a.optOut == Allowed && a.frequency == Allowed && a.token == None
    && a.gateAfter == Open && a.registered
    && exists k :: 0 <= k <= Retries(maxRetry) && Reaches(a.attempts, k) && Takes(a.attempts(k))
  }

  /** A new key, or a record that was not delivered and is not being sent by another who took it less than two minutes ago. */
  predicate Free(rec: Option<Record>, now: int) {
    rec.None? || (rec.value.status !in {Sent, Delivered, Clicked} && (rec.value.status == Sending ==> now - rec.value.updatedAt >= 120))
  }

  /** The channel accepts a message exactly if it renders, is not marked as done, its record is free, and nobody asked
      before the send denies it: opt-out, frequency, tokens, status, sender. */
  lemma AcceptsIff(line: Line, a: Answers, channel: Channel, maxRetry: int)
    ensures SendOne(line, a, channel, maxRetry).accepts == 1 <==>
      !line.marked && Free(line.rec, a.at) && Allows(a, maxRetry)
    ensures SendOne(line, a, channel, maxRetry).accepts in {0, 1}
  {
    var k := AttemptsEnd(a.attempts, 0, Retries(maxRetry));
    if Attempts(a.attempts, 0, Retries(maxRetry)).Accepts? { assert Reaches(a.attempts, k) && Takes(a.attempts(k)); }
    if m :| 0 <= m <= Retries(maxRetry) && Reaches(a.attempts, m) && Takes(a.attempts(m)) {
      AttemptsEndIff(a.attempts, Retries(maxRetry), m);
    }
  }

  /** The turn ended without a send, with this record written if the repository took it, and with this outcome. */
  predicate EndsWith(s: Turn, line: Line, a: Answers, channel: Channel, status: PushStatus, error: string, outcome: Outcome) {
    && s.accepts == 0 && s.outcome == outcome && s.line.marked == line.marked
    && s.line.rec == Some(if a.saved then Record(status, channel, "", error, None, a.at) else Record(Sending, channel, "", "", None, a.at))
  }

  /** What stops a message that renders and whose claim was granted, in the order it is looked at. */
  lemma StoppedBefore(line: Line, a: Answers, channel: Channel, maxRetry: int)
    requires a.renders && !line.marked && !a.claimFails && Free(line.rec, a.at)
    ensures var s := SendOne(line, a, channel, maxRetry);
      var asked := a.optOut == Allowed && a.frequency == Allowed;
      && (a.optOut.Denied? ==> EndsWith(s, line, a, channel, Suppressed, a.why, Outcome(false, Some(Withheld))))
      && (a.optOut.Unknown? ==> EndsWith(s, line, a, channel, Queued, a.why, Outcome(false, Some(a.optOut.why))))
      && (a.optOut.Allowed? && a.frequency.Unknown? ==>
            EndsWith(s, line, a, channel, Queued, a.why, Outcome(false, Some(a.frequency.why))))
      && (a.optOut.Allowed? && a.frequency.Denied? ==>
            EndsWith(s, line, a, channel, Suppressed, "frequency_limit", Outcome(false, Some(Withheld))))
      && (asked && a.token.Some? ==>
            EndsWith(s, line, a, channel, Queued, "channel throttled", Outcome(false, Some(a.token.value))))
      && (asked && a.token.None? && a.gateAfter == GateCancelled ==>
            EndsWith(s, line, a, channel, SendCancelled, "main task cancelled", Outcome(false, None)))
      && (asked && a.token.None? && a.gateAfter == GatePaused ==>
            EndsWith(s, line, a, channel, Queued, a.why, Outcome(false, Some(MainPaused))))
      && (asked && a.token.None? && a.gateAfter == GateUnavailable ==>
            EndsWith(s, line, a, channel, Queued, a.why, Outcome(false, Some(MainStatusUnavailable))))
      && (asked && a.token.None? && a.gateAfter == Open && !a.registered ==>
            EndsWith(s, line, a, channel, Unreachable, a.why, Outcome(false, Some(Withheld))))
  {
  }

  function SentRecord(a: Answers, channel: Channel): Record {
    Record(Sent, if a.provider != "" then a.provider else channel, a.providerId, "", Some(a.at), a.at)
  }

  /** What becomes of a message nothing stops before the channel's sender: the first attempt that is accepted, given up,
      stopped by the campaign's status or left by the context decides. */
  lemma DecidedByAttempt(line: Line, a: Answers, channel: Channel, maxRetry: int, k: nat)
    requires a.renders && !line.marked && !a.claimFails && Free(line.rec, a.at)
    requires a.optOut == Allowed && a.frequency == Allowed && a.token == None && a.gateAfter == Open && a.registered
    requires k <= Retries(maxRetry) && Reaches(a.attempts, k)
    ensures var s, t := SendOne(line, a, channel, maxRetry), a.attempts(k);
      && (t.gate == GateUnavailable ==> EndsWith(s, line, a, channel, Queued, a.why, Outcome(false, Some(MainStatusUnavailable))))
      && (t.gate == GateCancelled ==> EndsWith(s, line, a, channel, SendCancelled, "main task cancelled", Outcome(false, None)))
      && (t.gate == GatePaused ==> EndsWith(s, line, a, channel, Queued, "main task paused", Outcome(false, Some(MainPaused))))
      && (GivesUp(a.attempts, k, Retries(maxRetry)) ==>
            EndsWith(s, line, a, channel, SendFailed, a.why, Outcome(false, Some(if a.saved then SendFailure else RepoError))))
      && (t.gate == Open && !Takes(t) && !GivesUp(a.attempts, k, Retries(maxRetry)) && t.contextEnds ==>
            s == Turn(line.(rec := Some(Record(Sending, channel, "", "", None, a.at))), 0, Outcome(false, Some(ContextEnded))))
      && (Takes(t) ==>
            && s.accepts == 1
            && (a.saved ==>
                  && s.outcome == Outcome(true, None)
                  && s.line == Line(Some(SentRecord(a, channel)), true))
            && (!a.saved ==>
                  && s.outcome == Outcome(false, Some(RepoError))
                  && s.line == line.(rec := Some(Record(Sending, channel, "", "", None, a.at)))))
  {
    AttemptsEndIff(a.attempts, Retries(maxRetry), k);
  }

  /** What becomes of a message that cannot be rendered, is marked as done, or whose record is not free. */
  lemma NotClaimed(line: Line, a: Answers, channel: Channel, maxRetry: int)
    ensures var s := SendOne(line, a, channel, maxRetry);
      && (!a.renders && (a.claimFails || !Free(line.rec, a.at)) ==> s == Turn(line, 0, Outcome(false, Some(RenderError))))
      && (!a.renders && !a.claimFails && Free(line.rec, a.at) ==>
            EndsWith(s, line, a, channel, SendFailed, a.why, Outcome(false, Some(RenderError))))
      && (a.renders && line.marked ==> s == Turn(line, 0, Outcome(true, None)))
      && (a.renders && !line.marked && a.claimFails ==> s == Turn(line, 0, Outcome(false, Some(RepoError))))
      && (a.renders && !line.marked && !a.claimFails && !Free(line.rec, a.at) ==>
            s == if line.rec.value.status == Sending then Turn(line, 0, Outcome(false, Some(InProgress)))
                 else Turn(line.(marked := true), 0, Outcome(true, None)))
  {
  }

  // ---- handling the same message again and again ----

  /** The status a cancelled or an expired message marks its record with. */
  type ClosingStatus = s: PushStatus | s.SendCancelled? || s.Expired? witness SendCancelled

  /** What can happen to one (task, user, channel): a send, a receipt, a cancelled or expired message marking its
      record, or Redis forgetting the mark. */
  datatype Event =
    | Deliver(a: Answers)
    | Report(event: ReceiptEvent, error: string, now: int)
    | Close(status: ClosingStatus, now: int, saved: bool)
    | Forget

  /** markCancelled and markExpired. */
  function Closed(rec: Option<Record>, channel: Channel, status: PushStatus, now: int, saved: bool): Record {
    if saved && AnswerTo(rec, now).Granted? then Written(Claimed(rec, channel, now), status, "", "", "closed", now)
    else Claimed(rec, channel, now)
  }

  function Next(line: Line, e: Event, channel: Channel, maxRetry: int): Line {
    match e
    case Deliver(a) => SendOne(line, a, channel, maxRetry).line
    case Report(event, error, now) =>
      if line.rec.None? then line else line.(rec := Some(Receipted(line.rec.value, event, error, now)))
    case Close(status, now, saved) => line.(rec := Some(Closed(line.rec, channel, status, now, saved)))
    case Forget => line.(marked := false)
  }

  /** What the events other than a send do: a receipt moves the record if there is one, a closing one that is free, and a
      lost mark is gone; the mark is touched by nothing else. */
  lemma EventsTell(line: Line, e: Event, channel: Channel, maxRetry: int)
    requires !e.Deliver?
    ensures var line' := Next(line, e, channel, maxRetry);
      match e
      case Report(event, error, now) =>
        line'.marked == line.marked && (line.rec.None? ==> line'.rec.None?)
        && (line.rec.Some? ==> line'.rec == Some(Receipted(line.rec.value, event, error, now)))
      case Close(status, now, saved) =>
        && line'.marked == line.marked
        && line'.rec == (if !Free(line.rec, now) then line.rec
                         else if saved then Some(Record(status, channel, "", "closed", None, now))
                         else Some(Record(Sending, channel, "", "", None, now)))
      case Forget => !line'.marked && line'.rec == line.rec
      case Deliver(_) => true
  {
  }

  function After(line: Line, events: seq<Event>, channel: Channel, maxRetry: int): Line {
    if events == [] then line
    else Next(After(line, events[..|events| - 1], channel, maxRetry), events[|events| - 1], channel, maxRetry)
  }

  function Accepted(line: Line, events: seq<Event>, channel: Channel, maxRetry: int): int {
    if events == [] then 0
    else
      var last := events[|events| - 1];
      var before := After(line, events[..|events| - 1], channel, maxRetry);
      Accepted(line, events[..|events| - 1], channel, maxRetry)
        + (if last.Deliver? then SendOne(before, last.a, channel, maxRetry).accepts else 0)
  }

  /** An event that lets the user be sent the same thing once more: a failed receipt that reopens the record, or an
      accepted send whose write was lost. */
  predicate Excuses(before: Line, e: Event, channel: Channel, maxRetry: int) {
    || (e.Report? && Holding(before) && !Holding(Next(before, e, channel, maxRetry)))
    || (e.Deliver? && !e.a.saved && SendOne(before, e.a, channel, maxRetry).accepts == 1)
  }

  function Excused(line: Line, events: seq<Event>, channel: Channel, maxRetry: int): nat {
    if events == [] then 0
    else
      var n := |events| - 1;
      Excused(line, events[..n], channel, maxRetry)
        + (if Excuses(After(line, events[..n], channel, maxRetry), events[n], channel, maxRetry) then 1 else 0)
  }

  function One(b: bool): nat {
    if b then 1 else 0
  }

  /** In every run the accepted sends are exactly the reopening receipts and lost writes, and one more if the record has
      become a delivered one since. */
  lemma {:induction false} AcceptedCounted(line: Line, events: seq<Event>, channel: Channel, maxRetry: int)
    ensures Accepted(line, events, channel, maxRetry) + One(Holding(line))
         == Excused(line, events, channel, maxRetry) + One(Holding(After(line, events, channel, maxRetry)))
  {
    if events != [] {
      var n := |events| - 1;
      AcceptedCounted(line, events[..n], channel, maxRetry);
      EventCounted(After(line, events[..n], channel, maxRetry), events[n], channel, maxRetry);
    }
  }

  lemma EventCounted(before: Line, e: Event, channel: Channel, maxRetry: int)
    ensures One(Holding(before)) + (if e.Deliver? then SendOne(before, e.a, channel, maxRetry).accepts else 0)
         == One(Holding(Next(before, e, channel, maxRetry))) + One(Excuses(before, e, channel, maxRetry))
  {
    match e {
      case Deliver(a) => SendOneHolds(before, a, channel, maxRetry);
      case Close(status, now, saved) => ClosedHolds(before.rec, channel, status, now, saved);
      case _ =>
    }
  }

  lemma ClosedHolds(rec: Option<Record>, channel: Channel, status: ClosingStatus, now: int, saved: bool)
    ensures rec.Some? && rec.value.status.DeliveredOK() ==> Closed(rec, channel, status, now, saved) == rec.value
    ensures !(rec.Some? && rec.value.status.DeliveredOK()) ==> !Closed(rec, channel, status, now, saved).status.DeliveredOK()
  {
  }

  predicate Unexcused(line: Line, events: seq<Event>, channel: Channel, maxRetry: int) {
    forall i :: 0 <= i < |events| ==> !Excuses(After(line, events[..i], channel, maxRetry), events[i], channel, maxRetry)
  }

  /** The deliveries of a run that nobody asked before the send denied. */
  ghost function Allowing(events: seq<Event>, maxRetry: int): nat {
    if events == [] then 0
    else
      var last := events[|events| - 1];
      Allowing(events[..|events| - 1], maxRetry) + (if last.Deliver? && Allows(last.a, maxRetry) then 1 else 0)
  }

  /** In every run the channel accepts no more than these. */
  lemma {:induction false} AcceptedOnlyAllowed(line: Line, events: seq<Event>, channel: Channel, maxRetry: int)
    ensures Accepted(line, events, channel, maxRetry) <= Allowing(events, maxRetry)
  {
    if events != [] {
      var n := |events| - 1;
      AcceptedOnlyAllowed(line, events[..n], channel, maxRetry);
      if events[n].Deliver? { AcceptsIff(After(line, events[..n], channel, maxRetry), events[n].a, channel, maxRetry); }
    }
  }

  /** Redelivery safety: with no reopening receipt and no lost write the channel accepts the message at most once. */
  lemma AtMostOnce(line: Line, events: seq<Event>, channel: Channel, maxRetry: int)
    requires Unexcused(line, events, channel, maxRetry)
    ensures Accepted(line, events, channel, maxRetry) <= 1
  {
    AcceptedCounted(line, events, channel, maxRetry);
    NoExcuse(line, events, channel, maxRetry);
  }

  lemma {:induction false} NoExcuse(line: Line, events: seq<Event>, channel: Channel, maxRetry: int)
    requires Unexcused(line, events, channel, maxRetry)
    ensures Excused(line, events, channel, maxRetry) == 0
  {
    if events != [] {
      var n := |events| - 1;
      forall i | 0 <= i < n ensures !Excuses(After(line, events[..n][..i], channel, maxRetry), events[..n][i], channel, maxRetry) {
        assert events[..n][..i] == events[..i];
      }
      NoExcuse(line, events[..n], channel, maxRetry);
    }
  }
}
