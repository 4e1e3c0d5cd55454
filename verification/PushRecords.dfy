/** Push records: one per (task, user, channel). Claims, delivery writes and receipts, and what every order of
    them keeps. */
module PushRecords {
  import opened Status

  /** Seconds without an update after which a record left in sending may be taken over. */
  const IN_FLIGHT_STALE := 120

  datatype Key = Key(task: nat, user: string, channel: Channel)

  /** The empty string stands for an absent provider id; `sentAt` is set when the record first becomes sent. */
  datatype Record = Record(status: PushStatus, provider: string, providerId: string, error: string, sentAt: Option<int>, updatedAt: int)

  datatype ClaimAnswer = Granted | Duplicate | InFlight

  // ---- the three writes, on one record ----

  function Placeholder(provider: string, now: int): Record {
    Record(Sending, provider, "", "", None, now)
  }

  function AnswerTo(rec: Option<Record>, now: int): ClaimAnswer {
    if rec.None? then Granted
    else if rec.value.status.DeliveredOK() then Duplicate
    else if rec.value.status.Sending? && now - rec.value.updatedAt < IN_FLIGHT_STALE then InFlight
    else Granted
  }

  function Claimed(rec: Option<Record>, provider: string, now: int): Record {
    if AnswerTo(rec, now).Granted? then Placeholder(provider, now) else assert rec.Some?; rec.value
  }

  /** The error text after a delivery write. */
  function ErrorAfter(rec: Record, status: PushStatus, error: string): string {
    if status.DeliveredOK() || status.Sending? then error
    else if error != "" then error else rec.error
  }

  function Written(rec: Record, status: PushStatus, provider: string, providerId: string, error: string, now: int): Record {
    if !rec.status.CanTransitTo(status) then rec
    else if rec.status == status && provider == "" && providerId == "" && error == "" then rec
    else Record(status,
                if provider != "" then provider else rec.provider,
                if providerId != "" then providerId else rec.providerId,
                ErrorAfter(rec, status, error),
                if status.Sent? && rec.sentAt.None? then Some(now) else rec.sentAt, now)
  }

  function Receipted(rec: Record, event: ReceiptEvent, error: string, now: int): Record {
    var status := event.Status();
    if rec.status.CanTransitTo(status) && !(rec.status == status && error == "")
    then rec.(status := status, error := ErrorAfter(rec, status, error), updatedAt := now)
    else rec
  }

  /** What a delivery write that may be made leaves: what is given is taken over, what is not stays, but for the error, which
      a state of delivery or sending clears; the time of sending is that of the first write of sent. One that may not be
      made, or says nothing new, leaves the record as it is. */
  lemma WrittenFields(rec: Record, status: PushStatus, provider: string, providerId: string, error: string, now: int)
    ensures var r := Written(rec, status, provider, providerId, error, now);
      if !rec.status.CanTransitTo(status) || (rec.status == status && provider == "" && providerId == "" && error == "") then r == rec
      else
        && r.status == status && r.updatedAt == now
        && (provider != "" ==> r.provider == provider) && (provider == "" ==> r.provider == rec.provider)
        && (providerId != "" ==> r.providerId == providerId) && (providerId == "" ==> r.providerId == rec.providerId)
        && (error != "" ==> r.error == error)
        && (error == "" ==> r.error == if status in {Sent, Delivered, Clicked, Sending} then "" else rec.error)
        && (rec.sentAt.Some? ==> r.sentAt == rec.sentAt)
        && (rec.sentAt.None? ==> r.sentAt == if status == Sent then Some(now) else None)
  {
  }

  /** A receipt that may be taken moves the status to its own, and leaves provider and time of sending. */
  lemma ReceiptedFields(rec: Record, event: ReceiptEvent, error: string, now: int)
    ensures var r := Receipted(rec, event, error, now);
      var status := match event case ReceiptDelivered => Delivered case ReceiptClicked => Clicked case ReceiptFailed => SendFailed;
      if !rec.status.CanTransitTo(status) || (rec.status == status && error == "") then r == rec
      else
        && r.status == status && r.updatedAt == now && r.provider == rec.provider && r.providerId == rec.providerId
        && r.sentAt == rec.sentAt
        && r.error == if error == "" && status == SendFailed then rec.error else error
  {
  }

  // ---- the repository ----

  class PushRepo {
    var records: map<Key, Record>
    var receipts: set<(Key, ReceiptEvent)>

    constructor ()
      ensures records == map[] && receipts == {}
    {
      records, receipts := map[], {};
    }

    function Find(key: Key): Option<Record>
      reads this
    {
      if key in records then Some(records[key]) else None
    }

    /** Insert the placeholder; when the key is taken, look at the record and take it over if it may be. */
    method ClaimDelivery(key: Key, provider: string, now: int) returns (duplicate: bool, inFlight: bool)
      modifies this`records
      ensures records == old(records)[key := Claimed(old(Find(key)), if provider == "" then key.channel else provider, now)]
      ensures duplicate <==> AnswerTo(old(Find(key)), now).Duplicate?
      ensures inFlight <==> AnswerTo(old(Find(key)), now).InFlight?
    {
      var name := provider;
      if name == "" {
        name := key.channel;
      }
      if key !in records {
        records := records[key := Placeholder(name, now)];
        return false, false;
      }
      var existing := records[key];
      if existing.status.DeliveredOK() {
        return true, false;
      }
      if existing.status == Sending && now - existing.updatedAt < IN_FLIGHT_STALE {
        return false, true;
      }
      records := records[key := existing.(status := Sending, provider := name, providerId := "", error := "", sentAt := None, updatedAt := now)];
      return false, false;
    }

    /** A late or backward event is ignored; so is one that would change nothing. */
    method UpdateRecordDelivery(key: Key, status: PushStatus, provider: string, providerId: string, error: string, now: int)
      requires key in records
      modifies this`records
      ensures records == old(records)[key := Written(old(records)[key], status, provider, providerId, error, now)]
    {
      var rec := records[key];
      if !rec.status.CanTransitTo(status) {
        return;
      }
      if rec.status == status && provider == "" && providerId == "" && error == "" {
        return;
      }
      var update := rec.(status := status, updatedAt := now);
      if provider != "" {
        update := update.(provider := provider);
      }
      if providerId != "" {
        update := update.(providerId := providerId);
      }
      if status == SendFailed || status.IsSuppressedLike() {
        if error != "" {
          update := update.(error := error);
        }
      } else if status.DeliveredOK() || status == Sending {
        update := update.(error := error);
      } else if status == Queued || status == SendCancelled {
        if error != "" {
          update := update.(error := error);
        }
      }
      if status == Sent && rec.sentAt.None? {
        update := update.(sentAt := Some(now));
      }
      records := records[key := update];
    }

    /** The status moves if it may; the receipt is kept once per event. */
    method ApplyReceipt(key: Key, event: ReceiptEvent, error: string, now: int)
      requires key in records
      modifies this
      ensures records == old(records)[key := Receipted(old(records)[key], event, error, now)]
      ensures receipts == old(receipts) + {(key, event)}
    {
      var rec := records[key];
      var status := event.Status();
      if rec.status.CanTransitTo(status) && !(rec.status == status && error == "") {
        var update := rec.(status := status, updatedAt := now);
        if status == SendFailed {
          if error != "" {
            update := update.(error := error);
          }
        } else {
          update := update.(error := error);
        }
        records := records[key := update];
      }
      receipts := receipts + {(key, event)};
    }
  }

  // ---- runs of writes on one record ----

  datatype Event =
    | Claim(provider: string, now: int)
    | Write(status: PushStatus, provider: string, providerId: string, error: string, now: int)
    | Receipt(event: ReceiptEvent, error: string, now: int)

  /** A write or a receipt for a record that does not exist finds no row. */
  function Step(rec: Option<Record>, e: Event): Option<Record> {
    match e
    case Claim(provider, now) => Some(Claimed(rec, provider, now))
    case Write(status, provider, providerId, error, now) =>
      if rec.None? then None else Some(Written(rec.value, status, provider, providerId, error, now))
    case Receipt(event, error, now) =>
      if rec.None? then None else Some(Receipted(rec.value, event, error, now))
  }

  function After(rec: Option<Record>, events: seq<Event>): Option<Record> {
    if events == [] then rec else Step(After(rec, events[..|events| - 1]), events[|events| - 1])
  }

  /** Every write follows the transition table; clicked is never left; nothing deletes a record. */
  lemma WritesFollowTable(rec: Option<Record>, e: Event)
    ensures rec.Some? ==> Step(rec, e).Some?
    ensures rec.Some? ==> rec.value.status.CanTransitTo(Step(rec, e).value.status)
    ensures rec.Some? && rec.value.status.Clicked? ==> Step(rec, e).value.status.Clicked?
    ensures rec.None? && Step(rec, e).Some? ==> e.Claim? && Step(rec, e).value.status.Sending?
  {
  }

  /** A delivered record is left for a state in which it can be sent again only by a failed event. */
  lemma ReopenedOnlyByFailure(rec: Option<Record>, e: Event)
    requires rec.Some? && rec.value.status.DeliveredOK() && !Step(rec, e).value.status.DeliveredOK()
    ensures Step(rec, e).value.status.SendFailed?
    ensures (e.Receipt? && e.event.ReceiptFailed?) || (e.Write? && e.status.SendFailed?)
  {
  }

  lemma {:induction false} ClickedForever(rec: Option<Record>, events: seq<Event>)
    requires rec.Some? && rec.value.status.Clicked?
    ensures After(rec, events).Some? && After(rec, events).value.status.Clicked?
  {
    if events != [] {
      ClickedForever(rec, events[..|events| - 1]);
    }
  }

  predicate Grants(rec: Option<Record>, e: Event) {
    e.Claim? && AnswerTo(rec, e.now).Granted?
  }

  predicate LeavesSending(rec: Option<Record>, events: seq<Event>, k: nat) {
    k <= |events| && After(rec, events[..k]).Some? && !After(rec, events[..k]).value.status.Sending?
  }

  function Time(e: Event): int {
    e.now
  }

  /** The clock readings do not go back. */
  predicate Clocked(events: seq<Event>) {
    forall i, j :: 0 <= i < j < |events| ==> Time(events[i]) <= Time(events[j])
  }

  /** The event wrote the record. */
  predicate Writes(rec: Option<Record>, events: seq<Event>, k: nat) {
    k < |events| && Step(After(rec, events[..k]), events[k]) != After(rec, events[..k])
  }

  /** Nothing wrote the record in the two minutes before event `j`. */
  predicate QuietBefore(rec: Option<Record>, events: seq<Event>, j: nat) {
    j < |events| &&
    forall k :: 0 <= k < j && Writes(rec, events, k) ==> Time(events[k]) <= Time(events[j]) - IN_FLIGHT_STALE
  }

  /** Two grants of one record are separated by its leaving sending, or by two minutes in which nothing wrote it. */
  lemma GrantsApart(rec: Option<Record>, events: seq<Event>, i: nat, j: nat)
    requires i < j < |events| && Clocked(events)
    requires Grants(After(rec, events[..i]), events[i]) && Grants(After(rec, events[..j]), events[j])
    ensures (exists k :: i < k <= j && LeavesSending(rec, events, k)) || QuietBefore(rec, events, j)
  {
    SomeSince(rec, events, i, j);
    if !After(rec, events[..j]).value.status.Sending? {
      assert LeavesSending(rec, events, j);
    } else {
      forall k | 0 <= k < j && Writes(rec, events, k) ensures Time(events[k]) <= Time(events[j]) - IN_FLIGHT_STALE {
        WriteIsDated(rec, events, k, j);
      }
    }
  }

  /** The record's date is not before any write of it. */
  lemma {:induction false} WriteIsDated(rec: Option<Record>, events: seq<Event>, k: nat, j: nat)
    requires k < j <= |events| && Clocked(events) && Writes(rec, events, k)
    ensures After(rec, events[..j]).Some? && Time(events[k]) <= After(rec, events[..j]).value.updatedAt
  {
    assert events[..j][..j - 1] == events[..j - 1];
    if k < j - 1 {
      WriteIsDated(rec, events, k, j - 1);
    }
  }

  lemma {:induction false} SomeSince(rec: Option<Record>, events: seq<Event>, i: nat, j: nat)
    requires i < j <= |events| && events[i].Claim?
    ensures After(rec, events[..j]).Some?
  {
    assert events[..j][..j - 1] == events[..j - 1];
    if i < j - 1 {
      SomeSince(rec, events, i, j - 1);
    }
  }

  // ---- receipts on a sent record ----

  /** Where a sequence of receipts leaves a sent record: at the first click or failure, else delivered if any
      receipt said so. */
  function Outcome(events: seq<ReceiptEvent>): PushStatus {
    if events == [] then Sent
    else if events[0].ReceiptClicked? then Clicked
    else if events[0].ReceiptFailed? then SendFailed
    else match Outcome(events[1..])
      case Sent => Delivered
      case other => other
  }

  function Receive(rec: Record, events: seq<ReceiptEvent>, error: string, now: int): Record
    decreases |events|
  {
    if events == [] then rec else Receive(Receipted(rec, events[0], error, now), events[1..], error, now)
  }

  lemma {:induction false} ReceiptsSettle(rec: Record, events: seq<ReceiptEvent>, error: string, now: int)
    ensures rec.status.Sent? ==> Receive(rec, events, error, now).status == Outcome(events)
    ensures rec.status.Delivered? ==>
              Receive(rec, events, error, now).status == (if Outcome(events).Sent? then Delivered else Outcome(events))
    decreases |events|
    ensures rec.status.Clicked? || rec.status.SendFailed? ==> Receive(rec, events, error, now).status == rec.status
  {
    if events != [] {
      ReceiptsSettle(Receipted(rec, events[0], error, now), events[1..], error, now);
    }
  }

  /** Outcome said plainly. */
  lemma {:induction false} OutcomeIsFirst(events: seq<ReceiptEvent>)
    ensures Outcome(events).Sent? <==> events == []
    ensures Outcome(events).Delivered? <==> events != [] && forall i :: 0 <= i < |events| ==> events[i].ReceiptDelivered?
    ensures Outcome(events).Clicked? <==> FirstIs(events, ReceiptClicked)
    ensures Outcome(events).SendFailed? <==> FirstIs(events, ReceiptFailed)
  {
    if events != [] {
      OutcomeIsFirst(events[1..]);
      var rest := events[1..];
      if FirstIs(rest, ReceiptClicked) && events[0].ReceiptDelivered? {
        var i :| 0 <= i < |rest| && FirstAt(rest, ReceiptClicked, i);
        assert FirstAt(events, ReceiptClicked, i + 1);
      }
      if FirstIs(rest, ReceiptFailed) && events[0].ReceiptDelivered? {
        var i :| 0 <= i < |rest| && FirstAt(rest, ReceiptFailed, i);
        assert FirstAt(events, ReceiptFailed, i + 1);
      }
      if FirstIs(events, ReceiptClicked) {
        var i :| 0 <= i < |events| && FirstAt(events, ReceiptClicked, i);
        assert i > 0 ==> FirstAt(rest, ReceiptClicked, i - 1);
      }
      if FirstIs(events, ReceiptFailed) {
        var i :| 0 <= i < |events| && FirstAt(events, ReceiptFailed, i);
        assert i > 0 ==> FirstAt(rest, ReceiptFailed, i - 1);
      }
      assert events[0].ReceiptClicked? ==> FirstAt(events, ReceiptClicked, 0);
      assert events[0].ReceiptFailed? ==> FirstAt(events, ReceiptFailed, 0);
    }
  }

  predicate FirstAt(events: seq<ReceiptEvent>, event: ReceiptEvent, i: nat) {
    i < |events| && events[i] == event && forall j :: 0 <= j < i ==> events[j].ReceiptDelivered?
  }

  predicate FirstIs(events: seq<ReceiptEvent>, event: ReceiptEvent) {
    exists i :: 0 <= i < |events| && FirstAt(events, event, i)
  }

  // ---- no owner on delivery writes ----

  /** The sequence in which a sender that was overtaken reports its failure last. */
  const OVERTAKEN: seq<Event> := [
    Claim("sms", 0), Claim("sms", 200), Write(Sent, "sms", "p1", "", 201), Receipt(ReceiptDelivered, "", 202),
    Write(SendFailed, "sms", "", "timeout", 203)]

  /** UpdateRecordDelivery asks for no owner: a sender whose record was taken over after two minutes reopens, by the
      failure it reports late, a record the other sender had delivered, with no failed receipt. */
  lemma StaleSenderReopens()
    ensures After(None, OVERTAKEN[..4]) == Some(Record(Delivered, "sms", "p1", "", Some(201), 202))
    ensures After(None, OVERTAKEN).Some? && After(None, OVERTAKEN).value.status == SendFailed
  {
    var r1 := Placeholder("sms", 0);
    var r2 := Placeholder("sms", 200);
    var r3 := Record(Sent, "sms", "p1", "", Some(201), 201);
    assert OVERTAKEN[..1][..0] == [] && OVERTAKEN[..1][0] == OVERTAKEN[0];
    assert After(None, OVERTAKEN[..1]) == Some(r1);
    assert OVERTAKEN[..2][..1] == OVERTAKEN[..1];
    assert After(None, OVERTAKEN[..2]) == Some(r2);
    assert OVERTAKEN[..3][..2] == OVERTAKEN[..2];
    assert After(None, OVERTAKEN[..3]) == Some(r3);
    assert OVERTAKEN[..4][..3] == OVERTAKEN[..3];
    assert OVERTAKEN[..5][..4] == OVERTAKEN[..4] && OVERTAKEN[..5] == OVERTAKEN;
  }

  predicate Reopens(rec: Option<Record>, events: seq<Event>, k: nat) {
    k < |events| && After(rec, events[..k]).Some? && After(rec, events[..k]).value.status.DeliveredOK()
      && !Step(After(rec, events[..k]), events[k]).value.status.DeliveredOK()
  }

  predicate FailedReceipt(e: Event) {
    e.Receipt? && e.event.ReceiptFailed?
  }

  // ---- when a delivered record is reopened ----

  /** Every delivery write is made under a grant of its own; `owners` names the grants. */
  predicate OwnGrants(rec: Option<Record>, events: seq<Event>, owners: seq<nat>) {
    && |owners| == |events|
    && (forall k :: 0 <= k < |events| && events[k].Write? ==>
          owners[k] < k && Grants(After(rec, events[..owners[k]]), events[owners[k]]))
    && (forall j, k :: 0 <= j < k < |events| && events[j].Write? && events[k].Write? ==> owners[j] != owners[k])
  }

  predicate NoFailedReceipt(events: seq<Event>) {
    forall i :: 0 <= i < |events| ==> !FailedReceipt(events[i])
  }

  /** The write that reports a record as sent, and finds it in sending. */
  predicate Sends(rec: Option<Record>, events: seq<Event>, j: nat) {
    && j < |events| && events[j].Write? && events[j].status.Sent?
    && After(rec, events[..j]).Some? && After(rec, events[..j]).value.status.Sending?
  }

  predicate Clicks(e: Event) {
    (e.Receipt? && e.event.ReceiptClicked?) || (e.Write? && e.status.Clicked?)
  }

  /** Two senders held grants when one of them wrote sent; the other wrote failed after it, before any click. */
  predicate SentThenFailed(rec: Option<Record>, events: seq<Event>, owners: seq<nat>, j: nat, k: nat)
    requires |owners| == |events|
  {
    && j < k < |events| && Sends(rec, events, j)
    && events[k].Write? && events[k].status.SendFailed?
    && owners[j] != owners[k] && owners[j] < j && owners[k] < j
    && forall i :: j < i < k ==> !Clicks(events[i])
  }

  lemma {:induction false} StaysDelivered(rec: Option<Record>, events: seq<Event>, i: nat, k: nat)
    requires i <= k <= |events| && After(rec, events[..i]).Some? && After(rec, events[..i]).value.status.DeliveredOK()
    requires forall n :: i <= n < k ==> !Reopens(rec, events, n)
    ensures After(rec, events[..k]).Some? && After(rec, events[..k]).value.status.DeliveredOK()
    ensures !After(rec, events[..i]).value.status.Clicked? && (forall n :: i <= n < k ==> !Clicks(events[n])) ==>
              !After(rec, events[..k]).value.status.Clicked?
  {
    if i < k {
      StaysDelivered(rec, events, i, k - 1);
      assert events[..k][..k - 1] == events[..k - 1];
      assert !Reopens(rec, events, k - 1);
    }
  }

  lemma {:induction false} FirstReopening(rec: Option<Record>, events: seq<Event>, k: nat) returns (first: nat)
    requires Reopens(rec, events, k)
    ensures first <= k && Reopens(rec, events, first) && forall i: nat :: i < first ==> !Reopens(rec, events, i)
  {
    if exists i: nat :: i < k && Reopens(rec, events, i) {
      var i: nat :| i < k && Reopens(rec, events, i);
      first := FirstReopening(rec, events, i);
    } else {
      first := k;
    }
  }

  /** A record gets into the delivered states only by a write that reports it as sent. */
  lemma {:induction false} FindSend(rec: Option<Record>, events: seq<Event>, i: nat, k: nat) returns (j: nat)
    requires i <= k <= |events|
    requires After(rec, events[..i]).Some? && !After(rec, events[..i]).value.status.DeliveredOK()
    requires After(rec, events[..k]).Some? && After(rec, events[..k]).value.status.DeliveredOK()
    ensures i <= j < k && Sends(rec, events, j)
    decreases k
  {
    assert k > i;
    var before := After(rec, events[..k - 1]);
    assert events[..k][..k - 1] == events[..k - 1];
    if before.Some? && before.value.status.DeliveredOK() {
      j := FindSend(rec, events, i, k - 1);
    } else {
      SomeStays(rec, events, i, k - 1);
      j := k - 1;
    }
  }

  lemma {:induction false} SomeStays(rec: Option<Record>, events: seq<Event>, i: nat, k: nat)
    requires i <= k <= |events| && After(rec, events[..i]).Some?
    ensures After(rec, events[..k]).Some?
  {
    if i < k {
      SomeStays(rec, events, i, k - 1);
      assert events[..k][..k - 1] == events[..k - 1];
    }
  }

  lemma FailureReopens(rec: Option<Record>, events: seq<Event>, owners: seq<nat>, j: nat, k: nat)
    requires |owners| == |events| && SentThenFailed(rec, events, owners, j, k)
    ensures exists n :: Reopens(rec, events, n)
  {
    if forall n: nat :: !Reopens(rec, events, n) {
      assert events[..j + 1][..j] == events[..j];
      StaysDelivered(rec, events, j + 1, k);
      assert Reopens(rec, events, k);
    }
  }

  lemma ReopeningOverlaps(rec: Option<Record>, events: seq<Event>, owners: seq<nat>, n: nat)
    requires OwnGrants(rec, events, owners) && NoFailedReceipt(events) && Reopens(rec, events, n)
    ensures exists j, k :: SentThenFailed(rec, events, owners, j, k)
  {
    var k := FirstReopening(rec, events, n);
    ReopenedOnlyByFailure(After(rec, events[..k]), events[k]);
    var g := owners[k];
    assert events[..g + 1][..g] == events[..g];
    var j := FindSend(rec, events, g + 1, k);
    forall i | j < i < k ensures !Clicks(events[i]) {
      if Clicks(events[i]) { ClickHolds(rec, events, j, i, k); }
    }
    assert owners[j] < j;
    assert SentThenFailed(rec, events, owners, j, k);
  }

  /** After a click on a record that was sent and not reopened nothing reopens it. */
  lemma ClickHolds(rec: Option<Record>, events: seq<Event>, j: nat, i: nat, k: nat)
    requires j < i < k < |events| && Sends(rec, events, j) && Clicks(events[i])
    requires forall n: nat :: n < k ==> !Reopens(rec, events, n)
    ensures !Reopens(rec, events, k)
  {
    assert events[..j + 1][..j] == events[..j];
    StaysDelivered(rec, events, j + 1, i);
    assert events[..i + 1][..i] == events[..i];
    ClickSticks(After(rec, events[..i]), events[i]);
    AfterOn(rec, events, i + 1, k);
    ClickedForever(After(rec, events[..i + 1]), events[i + 1..k]);
    WritesFollowTable(After(rec, events[..k]), events[k]);
  }

  lemma ClickSticks(rec: Option<Record>, e: Event)
    requires rec.Some? && rec.value.status.DeliveredOK() && Clicks(e)
    ensures Step(rec, e).Some? && Step(rec, e).value.status.Clicked?
  {
  }

  lemma {:induction false} AfterOn(rec: Option<Record>, events: seq<Event>, i: nat, k: nat)
    requires i <= k <= |events|
    ensures After(rec, events[..k]) == After(After(rec, events[..i]), events[i..k])
  {
    if i < k {
      AfterOn(rec, events, i, k - 1);
      assert events[..k][..k - 1] == events[..k - 1] && events[i..k][..k - 1 - i] == events[i..k - 1];
    } else {
      assert events[i..k] == [];
    }
  }

  /** With one write for each grant and no failed receipt, a delivered record is reopened if and only if two senders
      overlapped: both had their grants when one of them wrote sent, and the other wrote failed after that, with no click
      in between. */
  lemma ReopenedIff(rec: Option<Record>, events: seq<Event>, owners: seq<nat>)
    requires OwnGrants(rec, events, owners) && NoFailedReceipt(events)
    ensures (exists n :: Reopens(rec, events, n)) <==> exists j, k :: SentThenFailed(rec, events, owners, j, k)
  {
    if exists n :: Reopens(rec, events, n) {
      var n :| Reopens(rec, events, n);
      ReopeningOverlaps(rec, events, owners, n);
    }
    if exists j, k :: SentThenFailed(rec, events, owners, j, k) {
      var j, k :| SentThenFailed(rec, events, owners, j, k);
      FailureReopens(rec, events, owners, j, k);
    }
  }

  /** It may be either of the two that writes sent: here the overtaken one does, and the other's failure reopens. */
  lemma EitherMaySend()
    ensures var events := [Claim("sms", 0), Claim("sms", 200), Write(Sent, "sms", "p1", "", 201), Write(SendFailed, "sms", "", "e", 202)];
      OwnGrants(None, events, [0, 0, 0, 1]) && Reopens(None, events, 3)
  {
    var events := [Claim("sms", 0), Claim("sms", 200), Write(Sent, "sms", "p1", "", 201), Write(SendFailed, "sms", "", "e", 202)];
    assert events[..0] == [] && events[..1][..0] == [] && events[..2][..1] == events[..1] && events[..3][..2] == events[..2];
    assert After(None, events[..1]) == Some(Placeholder("sms", 0));
    assert After(None, events[..2]) == Some(Placeholder("sms", 200));
    assert After(None, events[..3]) == Some(Record(Sent, "sms", "p1", "", Some(201), 201));
  }

  /** Every delivery write is made under a grant of its own, less than two minutes after it; `owners` names the grants. */
  predicate Prompt(rec: Option<Record>, events: seq<Event>, owners: seq<nat>) {
    && |owners| == |events|
    && (forall k :: 0 <= k < |events| && events[k].Write? ==> PromptAt(rec, events, owners[k], k))
    && (forall j, k :: 0 <= j < k < |events| && events[j].Write? && events[k].Write? ==> owners[j] != owners[k])
  }

  predicate PromptAt(rec: Option<Record>, events: seq<Event>, g: nat, k: nat) {
    && g < k < |events|
    && Grants(After(rec, events[..g]), events[g])
    && Time(events[k]) < Time(events[g]) + IN_FLIGHT_STALE
  }

  /** Sending, and written at or after `since`. */
  predicate Held(rec: Option<Record>, since: int) {
    rec.Some? && rec.value.status.Sending? && since <= rec.value.updatedAt
  }

  lemma HeldStep(rec: Option<Record>, e: Event, since: int)
    requires Held(rec, since) && Time(e) < since + IN_FLIGHT_STALE && !e.Write? && !FailedReceipt(e)
    ensures Held(Step(rec, e), since) && !Grants(rec, e)
  {
  }

  /** From its grant to its write a prompt sender holds the record: nobody else is granted it and nobody writes it. */
  lemma {:induction false} SenderHolds(rec: Option<Record>, events: seq<Event>, owners: seq<nat>, k: nat, j: nat)
    requires Prompt(rec, events, owners) && Clocked(events)
    requires k < |events| && events[k].Write? && owners[k] < j <= k
    requires forall i :: 0 <= i < k ==> !FailedReceipt(events[i])
    ensures Held(After(rec, events[..j]), Time(events[owners[k]]))
    decreases k, j
  {
    var g, w := owners[k], j - 1;
    assert PromptAt(rec, events, g, k);
    assert events[..j][..w] == events[..w];
    if w > g {
      SenderHolds(rec, events, owners, k, w);
      if events[w].Write? {
        var other := owners[w];
        assert PromptAt(rec, events, other, w);
        if other < g {
          SenderHolds(rec, events, owners, w, g);
          HeldStep(After(rec, events[..g]), events[g], Time(events[other]));
        } else {
          SenderHolds(rec, events, owners, k, other);
          HeldStep(After(rec, events[..other]), events[other], Time(events[g]));
        }
      } else {
        HeldStep(After(rec, events[..w]), events[w], Time(events[g]));
      }
    }
  }

  /** When every sender writes once and within two minutes of its grant, a delivered record is reopened only after a
      failed receipt. */
  lemma ReopenedAfterFailedReceipt(rec: Option<Record>, events: seq<Event>, owners: seq<nat>, k: nat)
    requires Prompt(rec, events, owners) && Clocked(events)
    ensures Reopens(rec, events, k) ==> exists i :: 0 <= i <= k < |events| && FailedReceipt(events[i])
  {
    if Reopens(rec, events, k) {
      ReopenedOnlyByFailure(After(rec, events[..k]), events[k]);
      if forall i :: 0 <= i <= k ==> !FailedReceipt(events[i]) {
        assert events[k].Write? && PromptAt(rec, events, owners[k], k);
        SenderHolds(rec, events, owners, k, k);
      }
    }
  }
}
