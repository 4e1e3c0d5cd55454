/** The Redis Stream queue: a consumer group with its pending list, redelivery of idle entries, and a dead-letter
    stream. Times are milliseconds. */
module StreamQueue {
  import opened Status
  import opened Decimal

  /** The id Redis gives an entry: milliseconds and a sequence number, written "ms-seq". */
  datatype Id = Id(ms: nat, seqNo: nat)
  {
    function Text(): string {
      Itoa(ms) + "-" + Itoa(seqNo)
    }

    predicate Below(other: Id) {
      ms < other.ms || (ms == other.ms && seqNo < other.seqNo)
    }
  }

  datatype Entry = Entry(id: Id, payload: string)

  datatype Waiting = Waiting(deliveries: nat, at: int)

  datatype Dead = Dead(source: nat, payload: string, deliveries: nat)

  datatype Options = Options(claimMinIdle: int, claimBatch: int, maxDelivery: int, deferredMaxAge: int)

  const DEFAULT_DEFERRED_MAX_AGE := 24 * 3600 * 1000

  function Normalized(o: Options): (r: Options)
    ensures r.claimMinIdle > 0 && r.claimBatch > 0 && r.maxDelivery > 0 && r.deferredMaxAge >= 0
    ensures r.deferredMaxAge == 0 <==> o.deferredMaxAge < 0
  {
    Options(if o.claimMinIdle <= 0 then 30000 else o.claimMinIdle,
            if o.claimBatch <= 0 then 16 else o.claimBatch,
            if o.maxDelivery <= 0 then 5 else o.maxDelivery,
            if o.deferredMaxAge == 0 then DEFAULT_DEFERRED_MAX_AGE else if o.deferredMaxAge < 0 then 0 else o.deferredMaxAge)
  }

  /** A setting that is given is taken, one that is not has its default; a negative age limit is none. */
  lemma SettingsTaken(o: Options)
    ensures var r := Normalized(o);
      && (o.claimMinIdle > 0 ==> r.claimMinIdle == o.claimMinIdle) && (o.claimMinIdle <= 0 ==> r.claimMinIdle == 30000)
      && (o.claimBatch > 0 ==> r.claimBatch == o.claimBatch) && (o.claimBatch <= 0 ==> r.claimBatch == 16)
      && (o.maxDelivery > 0 ==> r.maxDelivery == o.maxDelivery) && (o.maxDelivery <= 0 ==> r.maxDelivery == 5)
      && (o.deferredMaxAge > 0 ==> r.deferredMaxAge == o.deferredMaxAge) && (o.deferredMaxAge < 0 ==> r.deferredMaxAge == 0)
      && (o.deferredMaxAge == 0 ==> r.deferredMaxAge == 86400000)
  {
  }

  /** What a handler returned: nothing, an error that asks to wait, or any other error. Malformed is a payload that no
      handler was called for, because it could not be read. */
  datatype Result = Done | Deferred | Rejected | Malformed

  /** Redis calls that fail. */
  datatype Faults = Faults(countFails: bool, dlqFails: bool, ackFails: bool)

  // ---- when an entry is dead-lettered ----

  function IndexOfDash(s: string): (i: int)
    ensures -1 <= i < |s|
    ensures i >= 0 ==> s[i] == '-' && forall j :: 0 <= j < i ==> s[j] != '-'
    ensures i < 0 ==> forall j :: 0 <= j < |s| ==> s[j] != '-'
  {
    if s == "" then -1
    else if s[0] == '-' then 0
    else
      var i := IndexOfDash(s[1..]);
      if i < 0 then -1 else i + 1
  }

  /** How long an entry has been in the stream, read off its id; None when the id cannot be read. */
  function StreamEntryAge(id: string, now: int): Option<int> {
    var sep := IndexOfDash(id);
    if sep <= 0 then None
    else match Atoi(id[..sep])
      case None => None
      case Some(ms) => if ms <= 0 then None else Some(now - ms)
  }

  predicate ShouldDeadLetterDeferred(age: int, maxAge: int) {
    maxAge > 0 && age > 0 && age >= maxAge
  }

  predicate DeferredDeadLetter(id: string, now: int, maxAge: int) {
    StreamEntryAge(id, now).Some? && ShouldDeadLetterDeferred(StreamEntryAge(id, now).value, maxAge)
  }

  predicate ShouldDeadLetter(deliveries: int, maxDelivery: int, result: Result) {
    !result.Deferred? && maxDelivery > 0 && deliveries >= maxDelivery
  }

  /** The age of an entry is the time since the id's milliseconds. */
  lemma AgeOfId(id: Id, now: int)
    requires 0 < id.ms <= MAX_INT64
    ensures StreamEntryAge(id.Text(), now) == Some(now - id.ms)
  {
    var text, ms := id.Text(), Itoa(id.ms);
    assert text[|ms|] == '-';
    assert forall j :: 0 <= j < |ms| ==> text[j] == ms[j] && IsDigit(ms[j]);
    assert IndexOfDash(text) == |ms|;
    assert text[..|ms|] == ms;
    AtoiItoa(id.ms);
  }

  /** An id without a positive number before a dash has no age. */
  lemma NoAge(id: string, now: int)
    requires |id| == 0 || id[0] == '-' || (forall j :: 0 <= j < |id| ==> id[j] != '-')
             || (|id| > 1 && id[0] == '0' && id[1] == '-')
    ensures StreamEntryAge(id, now) == None
  {
    if |id| > 1 && id[0] == '0' && id[1] == '-' {
      assert IndexOfDash(id) == 1;
      assert id[..1] == Itoa(0);
      AtoiItoa(0);
    }
  }

  // ---- one entry's life in the group ----

  /** What becomes of a pending entry when its handler returns: kept pending, or gone from the pending list;
      `dead` when a copy went to the dead-letter stream. An entry that is not pending (another handler was
      faster) has None. */
  datatype Fate = Fate(pending: Option<Waiting>, dead: bool)

  function Acked(p: Option<Waiting>, faults: Faults): Option<Waiting> {
    if faults.ackFails then p else None
  }

  function Finished(id: Id, p: Option<Waiting>, result: Result, now: int, o: Options, faults: Faults): Fate {
    match result
    case Done => Fate(Acked(p, faults), false)
    case Malformed => Fate(Acked(p, faults), !faults.dlqFails)
    case Deferred =>
      if DeferredDeadLetter(id.Text(), now, o.deferredMaxAge) && !faults.dlqFails
      then Fate(Acked(p, faults), true) else Fate(p, false)
    case Rejected =>
      if p.Some? && !faults.countFails && ShouldDeadLetter(p.value.deliveries, o.maxDelivery, result) && !faults.dlqFails
      then Fate(Acked(p, faults), true) else Fate(p, false)
  }

  /** An entry that leaves the pending list was handled or has a copy among the dead letters, unless its payload could
      not be read and the copy could not be written: then it is gone. */
  lemma LeavesHandledOrDead(id: Id, p: Option<Waiting>, result: Result, now: int, o: Options, faults: Faults)
    requires p.Some? && Finished(id, p, result, now, o, faults).pending.None?
    ensures result.Done? || Finished(id, p, result, now, o, faults).dead <==> !(result.Malformed? && faults.dlqFails)
  {
  }

  /** An error that asks to wait dead-letters an entry exactly when the entry is as old as the limit allows (and there
      is one), however often it was delivered. */
  lemma DeferredDiesOfAgeOnly(id: Id, p: Option<Waiting>, now: int, o: Options, faults: Faults)
    requires 0 < id.ms <= MAX_INT64 && !faults.dlqFails
    ensures Finished(id, p, Deferred, now, o, faults).dead <==>
      o.deferredMaxAge > 0 && now - id.ms >= o.deferredMaxAge
  {
    AgeOfId(id, now);
  }

  // ---- the group as a value, and its steps ----

  /** Entries go by their place in the stream; those before the cursor have been delivered to the group. */
  datatype Group = Group(stream: seq<Entry>, cursor: nat, pending: map<nat, Waiting>, dlq: seq<Dead>)
  {
    function PendingOf(i: nat): Option<Waiting> {
      if i in pending then Some(pending[i]) else None
    }

    predicate Idle(o: Options, i: nat, now: int) {
      i in pending && now - pending[i].at >= o.claimMinIdle
    }

    predicate Sound() {
      cursor <= |stream| && forall i :: i in pending ==> i < cursor
    }
  }

  const NO_GROUP := Group([], 0, map[], [])

  /** One Redis call each but for Return, which is a handler's return with everything done about it: the count, the dead
      copy and the acknowledgement. Several consumers read, reclaim and return in any order; any of the idle entries may
      be the ones taken over. */
  datatype Step =
    | Add(payload: string, at: nat)
    | Read(count: nat, now: int)
    | Reclaim(taken: set<nat>, now: int)
    | Return(i: nat, result: Result, now: int, faults: Faults)

  /** The id an entry added now gets: above every id before it. */
  function NewId(stream: seq<Entry>, now: nat): (id: Id)
    ensures |stream| > 0 ==> stream[|stream| - 1].id.Below(id)
  {
    if |stream| > 0 && stream[|stream| - 1].id.ms >= now
    then stream[|stream| - 1].id.(seqNo := stream[|stream| - 1].id.seqNo + 1)
    else Id(now, 0)
  }

  function ReadUpTo(g: Group, count: nat): nat {
    if g.cursor + count <= |g.stream| then g.cursor + count else |g.stream|
  }

  function FirstDelivered(g: Group, upTo: nat, now: int): map<nat, Waiting> {
    if upTo <= g.cursor then g.pending else FirstDelivered(g, upTo - 1, now)[upTo - 1 := Waiting(1, now)]
  }

  lemma {:induction false} DeliveredFirst(g: Group, upTo: nat, now: int)
    ensures var pending := FirstDelivered(g, upTo, now);
      && (forall i :: i in pending <==> i in g.pending || g.cursor <= i < upTo)
      && (forall i :: i in pending ==> pending[i] == if g.cursor <= i < upTo then Waiting(1, now) else g.pending[i])
  {
    if upTo > g.cursor { DeliveredFirst(g, upTo - 1, now); }
  }

  function TakenOver(o: Options, g: Group, taken: set<nat>, now: int): map<nat, Waiting> {
    map i | i in g.pending ::
      if i in taken && g.Idle(o, i, now) then Waiting(g.pending[i].deliveries + 1, now) else g.pending[i]
  }

  /** The delivery count written into a dead copy. */
  function Counted(g: Group, step: Step): nat
    requires step.Return?
  {
    if step.i in g.pending && !step.result.Malformed? then g.pending[step.i].deliveries else 0
  }

  function Next(o: Options, g: Group, step: Step): Group {
    match step
    case Add(payload, at) => g.(stream := g.stream + [Entry(NewId(g.stream, at), payload)])
    case Read(count, now) =>
      g.(cursor := ReadUpTo(g, count), pending := FirstDelivered(g, ReadUpTo(g, count), now))
    case Reclaim(taken, now) => g.(pending := TakenOver(o, g, taken, now))
    case Return(i, result, now, faults) =>
      if i >= |g.stream| then g
      else
        var fate := Finished(g.stream[i].id, g.PendingOf(i), result, now, o, faults);
        g.(pending := if fate.pending.Some? then g.pending else g.pending - {i},
           dlq := if fate.dead then g.dlq + [Dead(i, g.stream[i].payload, Counted(g, step))] else g.dlq)
  }

  function After(o: Options, steps: seq<Step>): Group {
    if steps == [] then NO_GROUP else Next(o, After(o, steps[..|steps| - 1]), steps[|steps| - 1])
  }

  lemma OneMore(o: Options, steps: seq<Step>, step: Step)
    ensures After(o, steps + [step]) == Next(o, After(o, steps), step)
  {
    assert (steps + [step])[..|steps|] == steps;
  }

  /** The steps in which messages are published one after another. */
  function Adds(payloads: seq<string>, now: nat): (steps: seq<Step>)
    ensures |steps| == |payloads| && forall i :: 0 <= i < |steps| ==> steps[i] == Add(payloads[i], now)
  {
    if payloads == [] then [] else [Add(payloads[0], now)] + Adds(payloads[1..], now)
  }

  lemma AddsOneMore(payloads: seq<string>, now: nat, i: nat)
    requires i < |payloads|
    ensures Adds(payloads, now)[..i + 1] == Adds(payloads, now)[..i] + [Add(payloads[i], now)]
  {
  }

  /** Behind the entries there were, the first n messages, in order. */
  predicate Carries(before: seq<Entry>, stream: seq<Entry>, payloads: seq<string>, n: nat) {
    && before <= stream && |stream| == |before| + n && n <= |payloads|
    && forall k :: 0 <= k < n ==> stream[|before| + k].payload == payloads[k]
  }

  lemma CarriesOneMore(before: seq<Entry>, stream: seq<Entry>, payloads: seq<string>, n: nat, e: Entry)
    requires Carries(before, stream, payloads, n) && n < |payloads| && e.payload == payloads[n]
    ensures Carries(before, stream + [e], payloads, n + 1)
  {
  }

  function Members(taken: seq<nat>): set<nat> {
    set i | i in taken
  }

  lemma TakenOneMore(o: Options, g: Group, taken: seq<nat>, i: nat, now: int)
    requires g.Idle(o, i, now) && i !in taken
    ensures TakenOver(o, g, Members(taken + [i]), now)
         == TakenOver(o, g, Members(taken), now)[i := Waiting(g.pending[i].deliveries + 1, now)]
  {
  }

  // ---- an entry that keeps failing ----

  predicate Delivers(o: Options, g: Group, step: Step, i: nat) {
    || (step.Read? && g.cursor <= i < ReadUpTo(g, step.count))
    || (step.Reclaim? && i in step.taken && g.Idle(o, i, step.now))
  }

  /** How often entry i was delivered, for the first time or again. */
  function Deliveries(o: Options, steps: seq<Step>, i: nat): nat {
    if steps == [] then 0
    else
      var n := |steps| - 1;
      Deliveries(o, steps[..n], i) + (if Delivers(o, After(o, steps[..n]), steps[n], i) then 1 else 0)
  }

  function DeadCopies(dlq: seq<Dead>, i: nat): nat {
    if dlq == [] then 0
    else DeadCopies(dlq[..|dlq| - 1], i) + (if dlq[|dlq| - 1].source == i then 1 else 0)
  }

  /** A handler of entry i that returns here fails, with an error that does not ask to wait, or asks to wait before the
      entry is too old; an acknowledgement it leads to goes through. */
  predicate Fails(o: Options, g: Group, step: Step, i: nat) {
    step.Return? && step.i == i && i < |g.stream| ==>
      && (step.result.Rejected? || step.result.Deferred?)
      && (step.result.Deferred? ==> !DeferredDeadLetter(g.stream[i].id.Text(), step.now, o.deferredMaxAge))
      && !step.faults.ackFails
  }

  predicate KeepsFailing(o: Options, steps: seq<Step>, i: nat) {
    forall k :: 0 <= k < |steps| ==> Fails(o, After(o, steps[..k]), steps[k], i)
  }

  /** A rejection that is counted, and finds the entry delivered as often as allowed. */
  predicate Convicts(o: Options, g: Group, step: Step, i: nat) {
    && step.Return? && step.i == i && i < |g.stream| && step.result.Rejected? && !step.faults.countFails && !step.faults.dlqFails
    && i in g.pending && g.pending[i].deliveries >= o.maxDelivery
  }

  predicate Convicted(o: Options, steps: seq<Step>, i: nat) {
    steps != [] &&
      var n := |steps| - 1;
      Convicted(o, steps[..n], i) || Convicts(o, After(o, steps[..n]), steps[n], i)
  }

  lemma SoundStays(o: Options, g: Group, step: Step)
    requires g.Sound()
    ensures Next(o, g, step).Sound()
  {
    if step.Read? { DeliveredFirst(g, ReadUpTo(g, step.count), step.now); }
  }

  lemma {:induction false} SoundAlways(o: Options, steps: seq<Step>)
    ensures After(o, steps).Sound()
  {
    if steps != [] {
      var n := |steps| - 1;
      SoundAlways(o, steps[..n]);
      SoundStays(o, After(o, steps[..n]), steps[n]);
    }
  }

  /** What the group knows of an entry that keeps failing. */
  predicate Stands(o: Options, g: Group, i: nat, deliveries: nat, convicted: bool) {
    && DeadCopies(g.dlq, i) == (if convicted then 1 else 0)
    && (if convicted then deliveries >= o.maxDelivery && i < g.cursor && i !in g.pending
        else if deliveries == 0 then i >= g.cursor && i !in g.pending
        else i in g.pending && g.pending[i].deliveries == deliveries)
  }

  lemma DeadCopyAdded(dlq: seq<Dead>, d: Dead, i: nat)
    ensures DeadCopies(dlq + [d], i) == DeadCopies(dlq, i) + (if d.source == i then 1 else 0)
  {
    assert (dlq + [d])[..|dlq|] == dlq;
  }

  /** The return of another entry's handler. */
  lemma OtherReturns(o: Options, g: Group, step: Step, i: nat)
    requires step.Return? && step.i != i
    ensures var g' := Next(o, g, step);
      && g'.cursor == g.cursor && DeadCopies(g'.dlq, i) == DeadCopies(g.dlq, i)
      && (i in g'.pending <==> i in g.pending) && (i in g.pending ==> g'.pending[i] == g.pending[i])
  {
    if step.i < |g.stream| {
      DeadCopyAdded(g.dlq, Dead(step.i, g.stream[step.i].payload, Counted(g, step)), i);
    }
  }

  /** What a failing handler does to its own entry: nothing, unless it convicts. */
  lemma FailingReturns(o: Options, g: Group, step: Step, i: nat)
    requires step.Return? && step.i == i && i < |g.stream| && Fails(o, g, step, i) && o.maxDelivery > 0
    ensures var g' := Next(o, g, step);
      && g'.cursor == g.cursor
      && (if Convicts(o, g, step, i) then i !in g'.pending && DeadCopies(g'.dlq, i) == DeadCopies(g.dlq, i) + 1
          else g'.pending == g.pending && g'.dlq == g.dlq)
  {
    if Convicts(o, g, step, i) { DeadCopyAdded(g.dlq, Dead(i, g.stream[i].payload, Counted(g, step)), i); }
  }

  lemma ReturnStands(o: Options, g: Group, step: Step, i: nat, deliveries: nat, convicted: bool)
    requires g.Sound() && Stands(o, g, i, deliveries, convicted) && Fails(o, g, step, i) && o.maxDelivery > 0 && step.Return?
    ensures Stands(o, Next(o, g, step), i, deliveries, convicted || Convicts(o, g, step, i))
  {
    if step.i != i {
      OtherReturns(o, g, step, i);
    } else if i < |g.stream| {
      FailingReturns(o, g, step, i);
    }
  }

  lemma StepStands(o: Options, g: Group, step: Step, i: nat, deliveries: nat, convicted: bool)
    requires g.Sound() && Stands(o, g, i, deliveries, convicted) && Fails(o, g, step, i) && o.maxDelivery > 0
    ensures var now := deliveries + if Delivers(o, g, step, i) then 1 else 0;
      Stands(o, Next(o, g, step), i, now, convicted || Convicts(o, g, step, i))
  {
    if step.Return? {
      ReturnStands(o, g, step, i, deliveries, convicted);
    } else if step.Read? {
      DeliveredFirst(g, ReadUpTo(g, step.count), step.now);
    }
  }

  lemma {:induction false} FailingStands(o: Options, steps: seq<Step>, i: nat)
    requires o.maxDelivery > 0 && KeepsFailing(o, steps, i)
    ensures Stands(o, After(o, steps), i, Deliveries(o, steps, i), Convicted(o, steps, i))
  {
    if steps != [] {
      var n := |steps| - 1;
      forall k | 0 <= k < n ensures Fails(o, After(o, steps[..n][..k]), steps[..n][k], i) {
        assert steps[..n][..k] == steps[..k];
      }
      FailingStands(o, steps[..n], i);
      SoundAlways(o, steps[..n]);
      StepStands(o, After(o, steps[..n]), steps[n], i, Deliveries(o, steps[..n], i), Convicted(o, steps[..n], i));
    }
  }

  /** In any run of the group in which every handler of entry i that returns fails, whatever happens to other entries:
      as long as it was delivered fewer than maxDelivery times, it is pending with exactly that count and has no copy
      among the dead letters; it leaves the pending list at the first counted rejection that finds maxDelivery
      deliveries or more, and from then on it has exactly one dead copy and is not delivered again. */
  lemma FailingDiesOnMax(o: Options, steps: seq<Step>, i: nat)
    requires o.maxDelivery > 0 && KeepsFailing(o, steps, i)
    ensures var g, k := After(o, steps), Deliveries(o, steps, i);
      && (0 < k < o.maxDelivery ==> g.PendingOf(i).Some? && g.pending[i].deliveries == k && DeadCopies(g.dlq, i) == 0)
      && (Convicted(o, steps, i) ==>
            && g.PendingOf(i).None? && DeadCopies(g.dlq, i) == 1 && k >= o.maxDelivery
            && forall step :: !Delivers(o, g, step, i))
      && (!Convicted(o, steps, i) && k > 0 ==> g.PendingOf(i).Some? && g.pending[i].deliveries == k && DeadCopies(g.dlq, i) == 0)
  {
    FailingStands(o, steps, i);
  }

  /** Without a limit on deliveries, no error that does not ask to wait ever puts an entry among the dead letters. */
  lemma NoLimitNoDeath(id: Id, p: Option<Waiting>, now: int, o: Options, faults: Faults)
    requires o.maxDelivery <= 0
    ensures Finished(id, p, Rejected, now, o, faults) == Fate(p, false)
  {
  }

  // ---- when an entry is delivered ----

  predicate DeliversAt(o: Options, steps: seq<Step>, k: nat, i: nat) {
    k < |steps| && Delivers(o, After(o, steps[..k]), steps[k], i)
  }

  /** Step m is the last that delivered entry i before step k. */
  predicate LastDelivery(o: Options, steps: seq<Step>, m: nat, k: nat, i: nat) {
    m < k <= |steps| && DeliversAt(o, steps, m, i) && forall n :: m < n < k ==> !DeliversAt(o, steps, n, i)
  }

  function TimeOf(step: Step): int
    requires step.Read? || step.Reclaim?
  {
    step.now
  }

  /** What a pending entry bears: how often it was delivered, and when for the last time. */
  predicate Bears(o: Options, steps: seq<Step>, i: nat, m: nat) {
    var g := After(o, steps);
    && LastDelivery(o, steps, m, |steps|, i) && i in g.pending
    && g.pending[i].at == TimeOf(steps[m]) && g.pending[i].deliveries == Deliveries(o, steps, i)
  }

  lemma DeliversTo(o: Options, g: Group, step: Step, i: nat)
    requires g.Sound() && Delivers(o, g, step, i)
    ensures var g' := Next(o, g, step);
      i in g'.pending && g'.pending[i] == Waiting((if i in g.pending then g.pending[i].deliveries else 0) + 1, TimeOf(step))
  {
    if step.Read? { DeliveredFirst(g, ReadUpTo(g, step.count), step.now); }
  }

  lemma NotDelivered(o: Options, g: Group, step: Step, i: nat)
    requires g.Sound() && !Delivers(o, g, step, i) && i in Next(o, g, step).pending
    ensures i in g.pending && Next(o, g, step).pending[i] == g.pending[i]
  {
    if step.Read? { DeliveredFirst(g, ReadUpTo(g, step.count), step.now); }
  }

  lemma LastStays(o: Options, steps: seq<Step>, m: nat, i: nat)
    requires steps != [] && LastDelivery(o, steps[..|steps| - 1], m, |steps| - 1, i) && !DeliversAt(o, steps, |steps| - 1, i)
    ensures LastDelivery(o, steps, m, |steps|, i)
  {
    var n := |steps| - 1;
    forall k | 0 <= k < n ensures DeliversAt(o, steps, k, i) == DeliversAt(o, steps[..n], k, i) {
      assert steps[..n][..k] == steps[..k];
    }
  }

  lemma NewLast(o: Options, steps: seq<Step>, i: nat)
    requires steps != [] && DeliversAt(o, steps, |steps| - 1, i)
    ensures LastDelivery(o, steps, |steps| - 1, |steps|, i)
  {
  }

  /** After every run a pending entry bears the number of its deliveries and the time of the last of them. */
  lemma {:induction false} PendingTells(o: Options, steps: seq<Step>, i: nat) returns (m: nat)
    requires i in After(o, steps).pending
    ensures Bears(o, steps, i, m)
  {
    var n := |steps| - 1;
    var g := After(o, steps[..n]);
    SoundAlways(o, steps[..n]);
    Conserved(o, steps[..n], i);
    if Delivers(o, g, steps[n], i) {
      m := n;
      DeliversTo(o, g, steps[n], i);
      if i in g.pending { var before := PendingTells(o, steps[..n], i); } else { NeverBefore(o, steps[..n], steps[n], i); }
      NewLast(o, steps, i);
    } else {
      NotDelivered(o, g, steps[n], i);
      m := PendingTells(o, steps[..n], i);
      LastStays(o, steps, m, i);
    }
  }

  /** An entry that is delivered while it is not pending is delivered for the first time. */
  lemma NeverBefore(o: Options, steps: seq<Step>, step: Step, i: nat)
    requires Delivers(o, After(o, steps), step, i) && i !in After(o, steps).pending
    ensures Deliveries(o, steps, i) == 0
  {
    Conserved(o, steps, i);
  }

  /** In every run an entry is delivered again only while it is pending, and only when it was last delivered at least the
      minimum idle time ago; and then it is, if it is among those taken over. */
  lemma DeliveriesApart(o: Options, steps: seq<Step>, step: Step, i: nat)
    requires Deliveries(o, steps, i) > 0
    ensures Delivers(o, After(o, steps), step, i) <==>
      && step.Reclaim? && i in step.taken && i in After(o, steps).pending
      && exists m: nat :: LastDelivery(o, steps, m, |steps|, i) && step.now - TimeOf(steps[m]) >= o.claimMinIdle
  {
    Conserved(o, steps, i);
    if step.Reclaim? && i in After(o, steps).pending {
      var m := PendingTells(o, steps, i);
      if k: nat :| LastDelivery(o, steps, k, |steps|, i) && step.now - TimeOf(steps[k]) >= o.claimMinIdle { assert k == m; }
    }
  }

  /** A read delivers the next entries, as many as were asked for or as there are. */
  lemma ReadsNext(o: Options, g: Group, count: nat, now: int, i: nat)
    requires g.Sound()
    ensures Delivers(o, g, Read(count, now), i) <==> g.cursor <= i < |g.stream| && i - g.cursor < count
    ensures Next(o, g, Read(count, now)).cursor - g.cursor <= count
  {
  }

  /** The copy of an entry that can be read bears the number of its deliveries; that of an unreadable one bears none. */
  lemma CopyBearsCount(o: Options, steps: seq<Step>, step: Step)
    requires step.Return? && step.i in After(o, steps).pending && |Next(o, After(o, steps), step).dlq| > |After(o, steps).dlq|
    ensures var g, g' := After(o, steps), Next(o, After(o, steps), step);
      step.i < |g.stream| && g'.dlq == g.dlq + [Dead(step.i, g.stream[step.i].payload, if step.result.Malformed? then 0 else Deliveries(o, steps, step.i))]
  {
    var m := PendingTells(o, steps, step.i);
  }

  lemma StreamGrows(o: Options, g: Group, step: Step)
    ensures Next(o, g, step).stream ==
      if step.Add? then g.stream + [Entry(NewId(g.stream, step.at), step.payload)] else g.stream
  {
  }

  /** Ids rise in the stream, first by their time and then by their number. */
  lemma {:induction false} IdsRise(o: Options, steps: seq<Step>, i: nat, j: nat)
    requires i < j < |After(o, steps).stream|
    ensures var a, b := After(o, steps).stream[i].id, After(o, steps).stream[j].id;
      a.ms < b.ms || (a.ms == b.ms && a.seqNo < b.seqNo)
  {
    var n := |steps| - 1;
    var before := After(o, steps[..n]).stream;
    var last := |before| - 1;
    StreamGrows(o, After(o, steps[..n]), steps[n]);
    if j < |before| {
      IdsRise(o, steps[..n], i, j);
    } else if i < last {
      IdsRise(o, steps[..n], i, last);
    }
  }

  /** Without such a conviction and without success, an entry that can be read leaves the pending list only by a deferred error that is
      too old, whatever its delivery count. */
  lemma LeavesOnlyBy(o: Options, g: Group, step: Step, i: nat)
    requires i in g.pending && i < |g.stream| && o.maxDelivery > 0
    ensures i !in Next(o, g, step).pending ==>
      && step.Return? && step.i == i && !step.faults.ackFails
      && (|| step.result.Done? || step.result.Malformed? || Convicts(o, g, step, i)
          || (step.result.Deferred? && !step.faults.dlqFails
              && DeferredDeadLetter(g.stream[i].id.Text(), step.now, o.deferredMaxAge)))
  {
    if step.Read? { DeliveredFirst(g, ReadUpTo(g, step.count), step.now); }
  }

  // ---- every entry is accounted for ----

  /** The step takes entry i off the pending list. */
  predicate Leaves(o: Options, g: Group, step: Step, i: nat) {
    i in g.pending && i !in Next(o, g, step).pending
  }

  function Leavings(o: Options, steps: seq<Step>, i: nat): nat {
    if steps == [] then 0
    else
      var n := |steps| - 1;
      Leavings(o, steps[..n], i) + (if Leaves(o, After(o, steps[..n]), steps[n], i) then 1 else 0)
  }

  /** How an entry may leave: a handler returned without error, its copy went to the dead letters, or it could not be read
      and the copy could not be written. */
  datatype Way = Handled | Copied | Lost

  /** A return that finds entry i pending and whose acknowledgement goes through. */
  predicate Settles(g: Group, step: Step, i: nat) {
    step.Return? && step.i == i && i in g.pending && i < |g.stream| && !step.faults.ackFails
  }

  predicate SettlesBy(o: Options, g: Group, step: Step, i: nat, way: Way) {
    && Settles(g, step, i)
    && match way
       case Handled => step.result.Done?
       case Copied => DeadCopies(Next(o, g, step).dlq, i) > DeadCopies(g.dlq, i)
       case Lost => step.result.Malformed? && step.faults.dlqFails
  }

  /** How often entry i was settled in that way. */
  function Settled(o: Options, steps: seq<Step>, i: nat, way: Way): nat {
    if steps == [] then 0
    else
      var n := |steps| - 1;
      Settled(o, steps[..n], i, way) + (if SettlesBy(o, After(o, steps[..n]), steps[n], i, way) then 1 else 0)
  }

  /** Entry i was settled once, in that way. */
  predicate OnlyBy(o: Options, steps: seq<Step>, i: nat, way: Way) {
    Settled(o, steps, i, way) == 1 && forall other: Way :: other != way ==> Settled(o, steps, i, other) == 0
  }

  predicate CopiesTrue(g: Group) {
    forall k :: 0 <= k < |g.dlq| ==> g.dlq[k].source < |g.stream| && g.dlq[k].payload == g.stream[g.dlq[k].source].payload
  }

  lemma LeavesInOneWay(o: Options, g: Group, step: Step, i: nat)
    requires g.Sound()
    ensures (if Leaves(o, g, step, i) then 1 else 0) ==
      (if SettlesBy(o, g, step, i, Handled) then 1 else 0) + (if SettlesBy(o, g, step, i, Copied) then 1 else 0)
      + (if SettlesBy(o, g, step, i, Lost) then 1 else 0)
  {
    if Settles(g, step, i) {
      var fate := Finished(g.stream[i].id, g.PendingOf(i), step.result, step.now, o, step.faults);
      DeadCopyAdded(g.dlq, Dead(i, g.stream[i].payload, Counted(g, step)), i);
      assert Leaves(o, g, step, i) <==> fate.pending.None?;
      assert SettlesBy(o, g, step, i, Copied) <==> fate.dead;
    } else {
      OnlySettled(o, g, step, i);
    }
  }

  lemma OnlySettled(o: Options, g: Group, step: Step, i: nat)
    requires g.Sound() && !Settles(g, step, i)
    ensures !Leaves(o, g, step, i)
  {
    if step.Read? { DeliveredFirst(g, ReadUpTo(g, step.count), step.now); }
  }

  lemma StepConserves(o: Options, g: Group, step: Step, i: nat)
    requires g.Sound()
    ensures var g' := Next(o, g, step);
      && (i in g'.pending <==> (i in g.pending && !Leaves(o, g, step, i)) || (g.cursor <= i < g'.cursor))
      && (Delivers(o, g, step, i) ==> i < g'.cursor) && (i < g'.cursor ==> i < g.cursor || Delivers(o, g, step, i))
      && g.cursor <= g'.cursor
  {
    if step.Read? { DeliveredFirst(g, ReadUpTo(g, step.count), step.now); }
  }

  lemma StepKeepsCopies(o: Options, g: Group, step: Step, i: nat)
    requires CopiesTrue(g)
    ensures CopiesTrue(Next(o, g, step)) && DeadCopies(Next(o, g, step).dlq, i) >= DeadCopies(g.dlq, i)
  {
    if step.Return? && step.i < |g.stream| {
      DeadCopyAdded(g.dlq, Dead(step.i, g.stream[step.i].payload, Counted(g, step)), i);
    }
  }

  lemma {:induction false} CopyOf(dlq: seq<Dead>, i: nat) returns (k: nat)
    requires DeadCopies(dlq, i) >= 1
    ensures k < |dlq| && dlq[k].source == i
  {
    k := |dlq| - 1;
    if dlq[k].source != i { k := CopyOf(dlq[..k], i); }
  }

  /** What is known of entry i after a run. */
  predicate Accounted(g: Group, i: nat, delivered: nat, left: nat, handled: nat, copied: nat, lost: nat) {
    && (delivered > 0 <==> i < g.cursor)
    && left <= 1 && (i in g.pending <==> delivered > 0 && left == 0) && (left == 1 ==> delivered > 0)
    && handled + copied + lost == left
    && DeadCopies(g.dlq, i) >= copied
  }

  lemma StepAccounts(o: Options, g: Group, step: Step, i: nat, delivered: nat, left: nat, handled: nat, copied: nat, lost: nat)
    requires g.Sound() && CopiesTrue(g) && Accounted(g, i, delivered, left, handled, copied, lost)
    ensures Accounted(Next(o, g, step), i, delivered + (if Delivers(o, g, step, i) then 1 else 0),
                      left + (if Leaves(o, g, step, i) then 1 else 0),
                      handled + (if SettlesBy(o, g, step, i, Handled) then 1 else 0),
                      copied + (if SettlesBy(o, g, step, i, Copied) then 1 else 0),
                      lost + (if SettlesBy(o, g, step, i, Lost) then 1 else 0))
  {
    LeavesInOneWay(o, g, step, i);
    StepConserves(o, g, step, i);
    StepKeepsCopies(o, g, step, i);
  }

  /** After every run, whatever fails in it: an entry is unread exactly while it was never delivered; it is pending exactly
      from its first delivery until it leaves the list; it leaves the list at most once, and did so in exactly one of
      three ways: a handler returned without error, a dead copy of its payload was written, or it could not be read and
      no copy could be written. */
  lemma {:induction false} Conserved(o: Options, steps: seq<Step>, i: nat)
    ensures var g := After(o, steps);
      && (i >= g.cursor <==> Deliveries(o, steps, i) == 0)
      && (i in g.pending <==> Deliveries(o, steps, i) > 0 && Leavings(o, steps, i) == 0)
      && Leavings(o, steps, i) <= 1
      && Leavings(o, steps, i) == Settled(o, steps, i, Handled) + Settled(o, steps, i, Copied) + Settled(o, steps, i, Lost)
      && (Settled(o, steps, i, Copied) == 1 ==> DeadCopies(g.dlq, i) >= 1)
      && CopiesTrue(g)
    ensures Accounted(After(o, steps), i, Deliveries(o, steps, i), Leavings(o, steps, i), Settled(o, steps, i, Handled),
                      Settled(o, steps, i, Copied), Settled(o, steps, i, Lost))
  {
    if steps != [] {
      var n := |steps| - 1;
      Conserved(o, steps[..n], i);
      SoundAlways(o, steps[..n]);
      StepAccounts(o, After(o, steps[..n]), steps[n], i, Deliveries(o, steps[..n], i), Leavings(o, steps[..n], i),
                   Settled(o, steps[..n], i, Handled), Settled(o, steps[..n], i, Copied), Settled(o, steps[..n], i, Lost));
      StepKeepsCopies(o, After(o, steps[..n]), steps[n], i);
    }
  }

  const LOSING := Faults(false, true, false)

  /** Added, read, and found unreadable while the dead-letter stream cannot be written: the entry is acknowledged, and no
      copy of it is anywhere. */
  lemma UnreadableIsLost(o: Options)
    ensures var g := After(o, [Add("?", 7), Read(1, 8), Return(0, Malformed, 9, LOSING)]);
      |g.stream| == g.cursor == 1 && g.pending == map[] && g.dlq == []
  {
    var add, read, back := Add("?", 7), Read(1, 8), Return(0, Malformed, 9, LOSING);
    OneMore(o, [], add);
    OneMore(o, [add], read);
    OneMore(o, [add, read], back);
    assert [] + [add] == [add] && [add] + [read] == [add, read] && [add, read] + [back] == [add, read, back];
    var g2 := After(o, [add, read]);
    DeliveredFirst(After(o, [add]), 1, 8);
    assert g2.cursor == |g2.stream| == 1 && g2.pending.Keys == {0};
    assert g2.pending - {0} == map[];
  }

  class RedisStream {
    const opts: Options
    var stream: seq<Entry>
    var cursor: nat
    var pending: map<nat, Waiting>
    var dlq: seq<Dead>
    /** The steps taken so far. */
    ghost var history: seq<Step>

    constructor (o: Options)
      ensures Valid() && opts == Normalized(o) && history == []
    {
      opts, stream, cursor, pending, dlq, history := Normalized(o), [], 0, map[], [], [];
    }

    function State(): Group
      reads this
    {
      Group(stream, cursor, pending, dlq)
    }

    /** The group is where its history leads. */
    ghost predicate Valid()
      reads this
    {
      State() == After(opts, history)
    }

    /** Over the life of the object: an entry it published is unread, pending or has left, each exactly as its history of
        deliveries and returns says, and it left at most once and in one way. */
    lemma Conservation(i: nat)
      requires Valid() && i < |stream|
      ensures cursor <= i <==> Deliveries(opts, history, i) == 0
      ensures i in pending <==> Deliveries(opts, history, i) > 0 && Leavings(opts, history, i) == 0
      ensures i < cursor && i !in pending <==> Leavings(opts, history, i) == 1
      ensures i < cursor && i !in pending ==> exists way :: OnlyBy(opts, history, i, way)
      ensures Settled(opts, history, i, Copied) == 1 ==>
                exists k :: 0 <= k < |dlq| && dlq[k].source == i && dlq[k].payload == stream[i].payload
    {
      Conserved(opts, history, i);
      if i < cursor && i !in pending {
        var way := if Settled(opts, history, i, Handled) == 1 then Handled
                   else if Settled(opts, history, i, Copied) == 1 then Copied else Lost;
        assert OnlyBy(opts, history, i, way);
      }
      if Settled(opts, history, i, Copied) == 1 {
        var k := CopyOf(dlq, i);
      }
    }

    method Publish(payloads: seq<string>, now: nat)
      requires Valid()
      modifies this`stream, this`history
      ensures Valid() && history == old(history) + Adds(payloads, now)
      ensures Carries(old(stream), stream, payloads, |payloads|)
    {
      for i := 0 to |payloads|
        invariant Valid() && history == old(history) + Adds(payloads, now)[..i]
        invariant Carries(old(stream), stream, payloads, i)
      {
        CarriesOneMore(old(stream), stream, payloads, i, Entry(NewId(stream, now), payloads[i]));
        AddsOneMore(payloads, now, i);
        XAdd(payloads[i], now);
      }
      assert Adds(payloads, now)[..|payloads|] == Adds(payloads, now);
    }

    method XAdd(payload: string, now: nat)
      requires Valid()
      modifies this`stream, this`history
      ensures Valid() && history == old(history) + [Add(payload, now)]
      ensures stream == old(stream) + [Entry(NewId(old(stream), now), payload)]
    {
      OneMore(opts, history, Add(payload, now));
      stream := stream + [Entry(NewId(stream, now), payload)];
      history := history + [Add(payload, now)];
    }

    /** New entries for a consumer: the next ones after the cursor, at most `count`. */
    method ReadGroup(count: nat, now: int) returns (read: seq<nat>)
      requires Valid()
      modifies this`cursor, this`pending, this`history
      ensures Valid() && history == old(history) + [Read(count, now)] && State() == Next(opts, old(State()), Read(count, now))
      ensures |read| <= count && (|read| < count ==> cursor == |stream|)
      ensures |read| == cursor - old(cursor) && forall i :: 0 <= i < |read| ==> read[i] == old(cursor) + i
    {
      SoundAlways(opts, history);
      ghost var g := State();
      read := [];
      while |read| < count && cursor < |stream|
        invariant history == old(history)
        invariant old(cursor) <= cursor <= |stream| && |read| == cursor - old(cursor) && |read| <= count
        invariant forall i :: 0 <= i < |read| ==> read[i] == old(cursor) + i
        invariant pending == FirstDelivered(g, cursor, now)
        decreases |stream| - cursor
      {
        pending := pending[cursor := Waiting(1, now)];
        read := read + [cursor];
        cursor := cursor + 1;
      }
      assert cursor == ReadUpTo(g, count);
      OneMore(opts, history, Read(count, now));
      history := history + [Read(count, now)];
    }

    /** One round of taking over: pending entries idle for long enough, in stream order, at most a batch of them. The
        delivery count goes up; nothing is judged here, that is left to the handler's result. */
    method ReclaimOnce(now: int) returns (taken: seq<nat>)
      requires Valid() && opts.claimBatch > 0
      modifies this`pending, this`history
      ensures Valid() && history == old(history) + [Reclaim(Members(taken), now)]
      ensures State() == Next(opts, old(State()), Reclaim(Members(taken), now))
      ensures |taken| <= opts.claimBatch && forall i :: i in taken ==> old(State().Idle(opts, i, now))
      ensures |taken| < opts.claimBatch ==> forall i :: old(State().Idle(opts, i, now)) ==> i in taken
    {
      SoundAlways(opts, history);
      ghost var g := State();
      taken := [];
      var i := 0;
      while i < cursor && |taken| < opts.claimBatch
        invariant history == old(history) && 0 <= i <= cursor && |taken| <= opts.claimBatch
        invariant forall j :: j in taken ==> g.Idle(opts, j, now) && j < i
        invariant pending == TakenOver(opts, g, Members(taken), now)
        invariant forall j :: 0 <= j < i && g.Idle(opts, j, now) ==> j in taken
        decreases cursor - i
      {
        if i in pending && now - pending[i].at >= opts.claimMinIdle {
          TakenOneMore(opts, g, taken, i, now);
          pending := pending[i := Waiting(pending[i].deliveries + 1, now)];
          taken := taken + [i];
        }
        i := i + 1;
      }
      OneMore(opts, history, Reclaim(Members(taken), now));
      history := history + [Reclaim(Members(taken), now)];
    }

    /** A handler for entry `i` returned, or the entry could not be read. */
    method HandleMessage(i: nat, result: Result, now: int, faults: Faults)
      requires Valid() && i < |stream|
      modifies this`pending, this`dlq, this`history
      ensures Valid() && history == old(history) + [Return(i, result, now, faults)]
      ensures State() == Next(opts, old(State()), Return(i, result, now, faults))
    {
      OneMore(opts, history, Return(i, result, now, faults));
      history := history + [Return(i, result, now, faults)];
      if result == Malformed {
        if !faults.dlqFails {
          dlq := dlq + [Dead(i, stream[i].payload, 0)];
        }
        Ack(i, faults);
        return;
      }
      if result != Done {
        OnHandlerFailure(i, result, now, faults);
        return;
      }
      Ack(i, faults);
    }

    method OnHandlerFailure(i: nat, result: Result, now: int, faults: Faults)
      requires i < |stream| && !result.Done? && !result.Malformed?
      modifies this`pending, this`dlq
      ensures State() == Next(opts, old(State()), Return(i, result, now, faults))
    {
      var count := 0;
      if result == Deferred {
        if !DeferredDeadLetter(stream[i].id.Text(), now, opts.deferredMaxAge) {
          return;
        }
        if i in pending {
          count := pending[i].deliveries;
        }
      } else {
        if faults.countFails || i !in pending {
          return;
        }
        count := pending[i].deliveries;
        if !ShouldDeadLetter(count, opts.maxDelivery, result) {
          return;
        }
      }
      if faults.dlqFails {
        return;
      }
      dlq := dlq + [Dead(i, stream[i].payload, count)];
      Ack(i, faults);
    }

    method Ack(i: nat, faults: Faults)
      modifies this`pending
      ensures pending == if faults.ackFails then old(pending) else old(pending) - {i}
    {
      if !faults.ackFails {
        pending := pending - {i};
      }
    }
  }
}
