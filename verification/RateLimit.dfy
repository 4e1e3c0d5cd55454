/** Token buckets: the Redis script, the in-process bucket and the gateway's own; the bound they put on
    admissions, the expiry of idle buckets, and the reserve kept for high priority. Clock readings are
    milliseconds; rates are tokens per second. */
module RateLimit {
  import opened Status

  datatype Bucket = Bucket(tokens: real, at: int)

  /** One call: the clock reading, and the rate and burst in force, which may change from call to call. */
  datatype Ask = Ask(now: int, rate: real, burst: real)

  const KEY_TTL := 120000

  function Seconds(ms: int): real {
    ms as real / 1000.0
  }

  /** Tokens after refilling up to the burst; a new bucket is full; a clock that went back refills nothing. */
  function Refilled(b: Option<Bucket>, a: Ask): real {
    if b.None? then a.burst
    else
      var elapsed := if a.now < b.value.at then 0 else a.now - b.value.at;
      var tokens := b.value.tokens + Seconds(elapsed) * a.rate;
      if tokens > a.burst then a.burst else tokens
  }

  function Admits(b: Option<Bucket>, a: Ask): bool {
    Refilled(b, a) >= 1.0
  }

  function Taken(b: Option<Bucket>, a: Ask): Bucket {
    var tokens := Refilled(b, a);
    Bucket(if tokens >= 1.0 then tokens - 1.0 else tokens, a.now)
  }

  /** Where a bucket is kept. Redis drops one that was not called for two minutes. */
  datatype Keeper = InMemory | InRedis
  {
    function Live(b: Option<Bucket>, now: int): Option<Bucket> {
      if InRedis? && b.Some? && now - b.value.at >= KEY_TTL then None else b
    }
  }

  // ---- sequences of calls ----

  /** The bucket after some calls, and how many of them it admitted. */
  function After(k: Keeper, b: Option<Bucket>, asks: seq<Ask>): Option<Bucket> {
    if asks == [] then b
    else
      var a := asks[|asks| - 1];
      Some(Taken(k.Live(After(k, b, asks[..|asks| - 1]), a.now), a))
  }

  /** The answer to a call that follows some others. */
  predicate Answer(k: Keeper, b: Option<Bucket>, asks: seq<Ask>, a: Ask) {
    Admits(k.Live(After(k, b, asks), a.now), a)
  }

  function Admitted(k: Keeper, b: Option<Bucket>, asks: seq<Ask>): nat {
    if asks == [] then 0
    else
      var n := |asks| - 1;
      Admitted(k, b, asks[..n]) + (if Answer(k, b, asks[..n], asks[n]) then 1 else 0)
  }

  predicate Sorted(asks: seq<Ask>) {
    forall i, j :: 0 <= i < j < |asks| ==> asks[i].now <= asks[j].now
  }

  /** Rates and bursts are not negative and at most these. */
  predicate AtMost(asks: seq<Ask>, rate: real, burst: real) {
    forall i :: 0 <= i < |asks| ==> 0.0 <= asks[i].rate <= rate && 0.0 <= asks[i].burst <= burst
  }

  /** Two minutes refill the whole burst. */
  predicate Quick(asks: seq<Ask>) {
    forall i :: 0 <= i < |asks| ==> asks[i].burst <= 120.0 * asks[i].rate
  }

  predicate InRange(b: Option<Bucket>, burst: real) {
    b.Some? ==> 0.0 <= b.value.tokens <= burst
  }

  lemma MulMono(rate: real, a: real, b: real)
    requires rate >= 0.0 && a <= b
    ensures a * rate <= b * rate
  {
  }

  lemma MulRate(seconds: real, a: real, b: real)
    requires seconds >= 0.0 && a <= b
    ensures seconds * a <= seconds * b
  {
  }

  lemma MulAdd(rate: real, a: real, b: real)
    ensures (a + b) * rate == a * rate + b * rate
  {
  }

  lemma RefilledInRange(b: Option<Bucket>, a: Ask, burst: real)
    requires a.rate >= 0.0 && 0.0 <= a.burst <= burst && InRange(b, burst)
    ensures 0.0 <= Refilled(b, a) <= burst
  {
    if b.Some? {
      MulMono(a.rate, 0.0, Seconds(if a.now < b.value.at then 0 else a.now - b.value.at));
    }
  }

  /** Tokens stay between zero and the burst. */
  lemma {:induction false} TokensInRange(k: Keeper, b: Option<Bucket>, asks: seq<Ask>, rate: real, burst: real)
    requires burst >= 0.0 && AtMost(asks, rate, burst) && InRange(b, burst)
    ensures InRange(After(k, b, asks), burst)
  {
    if asks != [] {
      var n := |asks| - 1;
      TokensInRange(k, b, asks[..n], rate, burst);
      RefilledInRange(k.Live(After(k, b, asks[..n]), asks[n].now), asks[n], burst);
    }
  }

  // ---- expiry of idle buckets ----

  lemma ExpiryRefills(b: Option<Bucket>, a: Ask, burst: real)
    requires a.rate >= 0.0 && InRange(b, burst) && a.burst <= 120.0 * a.rate
    ensures Refilled(InRedis.Live(b, a.now), a) == Refilled(b, a)
  {
    if b.Some? && a.now - b.value.at >= KEY_TTL {
      MulMono(a.rate, 120.0, Seconds(a.now - b.value.at));
    }
  }

  /** When two minutes refill the whole burst, expiry changes no state and no answer. */
  lemma {:induction false} ExpiryNeutral(b: Option<Bucket>, asks: seq<Ask>, rate: real, burst: real)
    requires burst >= 0.0 && AtMost(asks, rate, burst) && InRange(b, burst) && Quick(asks)
    ensures After(InRedis, b, asks) == After(InMemory, b, asks)
    ensures Admitted(InRedis, b, asks) == Admitted(InMemory, b, asks)
  {
    if asks != [] {
      var n := |asks| - 1;
      ExpiryNeutral(b, asks[..n], rate, burst);
      TokensInRange(InMemory, b, asks[..n], rate, burst);
      ExpiryRefills(After(InMemory, b, asks[..n]), asks[n], burst);
    }
  }

  // ---- the bound ----

  lemma RefillStep(b: Option<Bucket>, a: Ask, rate: real)
    requires b.Some? && b.value.at <= a.now && a.rate <= rate
    ensures Refilled(b, a) <= b.value.tokens + Seconds(a.now - b.value.at) * rate
  {
    MulRate(Seconds(a.now - b.value.at), a.rate, rate);
  }

  lemma SecondsAdd(rate: real, a: int, b: int, c: int)
    ensures Seconds(c - a) * rate == Seconds(b - a) * rate + Seconds(c - b) * rate
  {
    assert Seconds(c - a) == Seconds(b - a) + Seconds(c - b);
    MulAdd(rate, Seconds(b - a), Seconds(c - b));
  }

  /** Admissions, and what is left, are at most the burst plus what `ms` milliseconds refill. */
  predicate Covered(admitted: int, tokens: real, burst: real, rate: real, ms: int) {
    admitted as real + tokens <= burst + Seconds(ms) * rate
  }

  lemma Combine(left: real, left': real, refilled: real, burst: real, gain: real, past: real, all: real)
    requires left <= burst + past && refilled <= gain && left' == left + refilled && all == past + gain
    ensures left' <= burst + all
  {
  }

  /** One call moves at most what the refill gave from the tokens to the admissions. */
  lemma Account(b: Option<Bucket>, a: Ask, admitted: int)
    ensures (admitted + (if Admits(b, a) then 1 else 0)) as real + Taken(b, a).tokens == admitted as real + Refilled(b, a)
  {
  }

  /** One more call on a bucket covered up to its date. */
  lemma CoveredOn(b: Option<Bucket>, a: Ask, admitted: int, first: int, rate: real, burst: real)
    requires b.Some? && b.value.at <= a.now && a.rate <= rate
    requires Covered(admitted, b.value.tokens, burst, rate, b.value.at - first)
    ensures Covered(admitted + (if Admits(b, a) then 1 else 0), Taken(b, a).tokens, burst, rate, a.now - first)
  {
    var gain, past, all := Seconds(a.now - b.value.at) * rate, Seconds(b.value.at - first) * rate, Seconds(a.now - first) * rate;
    RefillStep(b, a, rate);
    SecondsAdd(rate, first, b.value.at, a.now);
    Account(b, a, admitted);
    var refilled := Refilled(b, a) - b.value.tokens;
    Combine(admitted as real + b.value.tokens, admitted as real + b.value.tokens + refilled, refilled, burst, gain, past, all);
  }

  lemma CoveredFirst(b: Option<Bucket>, a: Ask, rate: real, burst: real)
    requires a.rate >= 0.0 && 0.0 <= a.burst <= burst && InRange(b, burst)
    ensures Covered(if Admits(b, a) then 1 else 0, Taken(b, a).tokens, burst, rate, 0)
  {
    RefilledInRange(b, a, burst);
    Account(b, a, 0);
  }

  lemma {:induction false} MemoryAccounted(b: Option<Bucket>, asks: seq<Ask>, rate: real, burst: real)
    requires burst >= 0.0 && AtMost(asks, rate, burst) && InRange(b, burst) && Sorted(asks) && |asks| > 0
    ensures var last := After(InMemory, b, asks);
      && last.Some? && last.value.at == asks[|asks| - 1].now
      && Covered(Admitted(InMemory, b, asks), last.value.tokens, burst, rate, asks[|asks| - 1].now - asks[0].now)
  {
    var n := |asks| - 1;
    if n > 0 {
      MemoryAccounted(b, asks[..n], rate, burst);
      assert asks[..n][n - 1] == asks[n - 1];
      CoveredOn(After(InMemory, b, asks[..n]), asks[n], Admitted(InMemory, b, asks[..n]), asks[0].now, rate, burst);
    } else {
      assert asks[..0] == [];
      CoveredFirst(b, asks[0], rate, burst);
    }
  }

  /** What was admitted and what is left came from the burst and the refills since the first call; for a bucket in Redis
      this takes that two minutes refill the whole burst. */
  lemma TokensAccounted(k: Keeper, b: Option<Bucket>, asks: seq<Ask>, rate: real, burst: real)
    requires burst >= 0.0 && AtMost(asks, rate, burst) && InRange(b, burst) && Sorted(asks) && |asks| > 0
    requires k.InRedis? ==> Quick(asks)
    ensures var last := After(k, b, asks);
      && last.Some? && last.value.at == asks[|asks| - 1].now
      && Covered(Admitted(k, b, asks), last.value.tokens, burst, rate, asks[|asks| - 1].now - asks[0].now)
  {
    MemoryAccounted(b, asks, rate, burst);
    if k.InRedis? { ExpiryNeutral(b, asks, rate, burst); }
  }

  lemma CoveredLonger(admitted: int, tokens: real, burst: real, rate: real, ms: int, length: int)
    requires rate >= 0.0 && tokens >= 0.0 && ms <= length && Covered(admitted, tokens, burst, rate, ms)
    ensures Covered(admitted, 0.0, burst, rate, length)
  {
    MulMono(rate, Seconds(ms), Seconds(length));
  }

  lemma NothingCovered(burst: real, rate: real, length: int)
    requires rate >= 0.0 && burst >= 0.0 && length >= 0
    ensures Covered(0, 0.0, burst, rate, length)
  {
    MulMono(rate, 0.0, Seconds(length));
  }

  /** In any stretch of length D, calls of a bucket are admitted at most burst + rate * D times, `rate` and `burst` being
      the largest in force. Without the last requirement this is false of a bucket in Redis: see BucketExpiry. */
  lemma AdmissionsBounded(k: Keeper, b: Option<Bucket>, asks: seq<Ask>, rate: real, burst: real, from: int, length: int)
    requires rate >= 0.0 && burst >= 0.0 && AtMost(asks, rate, burst) && InRange(b, burst) && Sorted(asks) && length >= 0
    requires forall i :: 0 <= i < |asks| ==> from <= asks[i].now <= from + length
    requires k.InRedis? ==> Quick(asks)
    ensures Covered(Admitted(k, b, asks), 0.0, burst, rate, length)
  {
    if asks == [] {
      NothingCovered(burst, rate, length);
    } else {
      TokensAccounted(k, b, asks, rate, burst);
      TokensInRange(k, b, asks, rate, burst);
      CoveredLonger(Admitted(k, b, asks), After(k, b, asks).value.tokens, burst, rate,
                    asks[|asks| - 1].now - asks[0].now, length);
    }
  }

  // ---- and what is admitted for sure ----

  /** A second brings `rate` tokens unless the burst is reached; a clock that goes back brings none; a new bucket is full;
      and a bucket that is left alone fills up. */
  lemma RefillLaws(b: Option<Bucket>, a: Ask)
    ensures b.None? ==> Refilled(b, a) == a.burst
    ensures b.Some? && a.now == b.value.at + 1000 && b.value.tokens + a.rate <= a.burst ==> Refilled(b, a) == b.value.tokens + a.rate
    ensures b.Some? && a.now <= b.value.at && b.value.tokens <= a.burst ==> Refilled(b, a) == b.value.tokens
    ensures b.Some? && b.value.at <= a.now && b.value.tokens + Seconds(a.now - b.value.at) * a.rate >= a.burst ==> Refilled(b, a) == a.burst
    ensures Refilled(b, a) <= a.burst
  {
    assert Seconds(1000) == 1.0;
  }

  /** Refilling at two moments gives what refilling at the later one gives, while the burst is not reached. */
  lemma RefillInSteps(b: Bucket, first: int, a: Ask)
    requires b.at <= first <= a.now && a.rate >= 0.0 && b.tokens + Seconds(a.now - b.at) * a.rate <= a.burst
    ensures Refilled(Some(Bucket(Refilled(Some(b), a.(now := first)), first)), a) == Refilled(Some(b), a)
  {
    SecondsAdd(a.rate, b.at, first, a.now);
    MulMono(a.rate, Seconds(first - b.at), Seconds(a.now - b.at));
  }

  /** Each call comes late enough after the one before it for a token to have come in at the call's rate, and every burst
      holds a token. */
  predicate Spaced(asks: seq<Ask>) {
    forall i :: 0 <= i < |asks| ==>
      && asks[i].burst >= 1.0 && asks[i].rate >= 0.0
      && (i > 0 ==> asks[i - 1].now <= asks[i].now && Seconds(asks[i].now - asks[i - 1].now) * asks[i].rate >= 1.0)
  }

  lemma OneAskMore(k: Keeper, b: Option<Bucket>, asks: seq<Ask>, a: Ask)
    ensures var live := k.Live(After(k, b, asks), a.now);
      && After(k, b, asks + [a]) == Some(Taken(live, a))
      && Admitted(k, b, asks + [a]) == Admitted(k, b, asks) + (if Admits(live, a) then 1 else 0)
  {
    assert (asks + [a])[..|asks|] == asks;
  }

  /** The bucket has a token for the call. */
  predicate HasOne(b: Option<Bucket>, a: Ask) {
    && a.burst >= 1.0 && a.rate >= 0.0
    && (b.Some? ==> b.value.tokens >= 0.0 && b.value.at <= a.now && Seconds(a.now - b.value.at) * a.rate >= 1.0)
  }

  lemma SpacedOne(b: Option<Bucket>, a: Ask)
    requires HasOne(b, a)
    ensures Admits(b, a) && Taken(b, a).tokens >= 0.0 && Taken(b, a).at == a.now
  {
  }

  /** The bucket was left by the call before the last. */
  predicate LeftBy(b: Option<Bucket>, asks: seq<Ask>) {
    if asks == [] then b.None? else b.Some? && b.value.at == asks[|asks| - 1].now && b.value.tokens >= 0.0
  }

  lemma SpacedLast(k: Keeper, b: Option<Bucket>, asks: seq<Ask>)
    requires asks != [] && Spaced(asks) && LeftBy(b, asks[..|asks| - 1])
    ensures HasOne(k.Live(b, asks[|asks| - 1].now), asks[|asks| - 1])
  {
    var n := |asks| - 1;
    if n > 0 { assert asks[..n][n - 1] == asks[n - 1]; }
  }

  lemma SpacedPrefix(asks: seq<Ask>)
    requires asks != [] && Spaced(asks)
    ensures Spaced(asks[..|asks| - 1])
  {
  }

  /** Such calls of a new bucket are all admitted, wherever it is kept. */
  lemma {:induction false} SpacedAllAdmitted(k: Keeper, asks: seq<Ask>)
    requires Spaced(asks)
    ensures Admitted(k, None, asks) == |asks| && LeftBy(After(k, None, asks), asks)
  {
    if asks != [] {
      var n := |asks| - 1;
      SpacedPrefix(asks);
      SpacedAllAdmitted(k, asks[..n]);
      SpacedLast(k, After(k, None, asks[..n]), asks);
      SpacedOne(k.Live(After(k, None, asks[..n]), asks[n].now), asks[n]);
    }
  }

  /** The same call n times over. */
  function Repeat(a: Ask, n: nat): (asks: seq<Ask>)
    ensures |asks| == n
  {
    if n == 0 then [] else Repeat(a, n - 1) + [a]
  }

  lemma NoTimePasses(k: Keeper, b: Bucket, a: Ask)
    requires b.at == a.now && b.tokens <= a.burst
    ensures k.Live(Some(b), a.now) == Some(b) && Refilled(Some(b), a) == b.tokens
  {
    assert Seconds(0) == 0.0;
  }

  /** A bucket from which m tokens were taken the moment it was new. */
  predicate TakenOf(b: Option<Bucket>, a: Ask, m: nat) {
    if m == 0 then b.None? || b == Some(Bucket(a.burst, a.now)) else b == Some(Bucket(a.burst - m as real, a.now))
  }

  lemma OneOfBurst(k: Keeper, b: Option<Bucket>, a: Ask, m: nat)
    requires a.burst >= 0.0 && TakenOf(b, a, m)
    ensures var live := k.Live(b, a.now);
      && (Admits(live, a) <==> a.burst - m as real >= 1.0)
      && TakenOf(Some(Taken(live, a)), a, if a.burst - m as real >= 1.0 then m + 1 else m)
  {
    if b.Some? { NoTimePasses(k, b.value, a); }
  }

  /** The whole tokens a burst holds. */
  predicate Whole(burst: real, tokens: nat) {
    tokens as real <= burst < tokens as real + 1.0
  }

  lemma WholeTokens(burst: real, tokens: nat, m: nat)
    requires Whole(burst, tokens)
    ensures burst - m as real >= 1.0 <==> m < tokens
  {
    if m < tokens { assert (m + 1) as real <= tokens as real; } else { assert m as real >= tokens as real; }
  }

  /** The calls so far took as many tokens as they could. */
  predicate TookAll(k: Keeper, a: Ask, n: nat, tokens: nat) {
    && Admitted(k, None, Repeat(a, n)) == (if n <= tokens then n else tokens)
    && TakenOf(After(k, None, Repeat(a, n)), a, Admitted(k, None, Repeat(a, n)))
  }

  lemma OneCallMore(k: Keeper, a: Ask, n: nat, tokens: nat)
    requires a.burst >= 0.0 && Whole(a.burst, tokens) && TookAll(k, a, n, tokens)
    ensures TookAll(k, a, n + 1, tokens)
  {
    var m := Admitted(k, None, Repeat(a, n));
    OneAskMore(k, None, Repeat(a, n), a);
    OneOfBurst(k, After(k, None, Repeat(a, n)), a, m);
    WholeTokens(a.burst, tokens, m);
  }

  /** Of n calls of a new bucket at the same moment those are admitted that the burst has whole tokens for. */
  lemma {:induction false} BurstAtOnce(k: Keeper, a: Ask, n: nat, tokens: nat)
    requires a.burst >= 0.0 && Whole(a.burst, tokens)
    ensures TookAll(k, a, n, tokens)
  {
    if n > 0 {
      BurstAtOnce(k, a, n - 1, tokens);
      OneCallMore(k, a, n - 1, tokens);
    }
  }

  // ---- reserve for high priority ----

  datatype Quota = Quota(qps: int, burst: int, highReserveRatio: real)

  /** The rate and burst of a channel for one priority, and whether the two have buckets of their own. */
  datatype Rates = Rates(rate: real, burst: real, split: bool)

  function Max1(x: real): real {
    if 1.0 > x then 1.0 else x
  }

  /** The reserve ratio, kept between 0 and 1. */
  function Ratio(q: Quota): real {
    if q.highReserveRatio < 0.0 then 0.0 else if q.highReserveRatio > 1.0 then 1.0 else q.highReserveRatio
  }

  /** The share of high priority, or of the rest. */
  function Share(q: Quota, high: bool): real {
    if high then Ratio(q) else 1.0 - Ratio(q)
  }

  function BurstOf(q: Quota): real {
    if q.burst <= 0 then q.qps as real else q.burst as real
  }

  /** `mult` is the adaptive factor. */
  function RatesFor(q: Quota, mult: real, high: bool): Rates {
    if q.qps <= 0 then Rates(0.0, 0.0, false)
    else
      var total := q.qps as real * mult;
      if Ratio(q) <= 0.0 then Rates(total, BurstOf(q), false)
      else Rates(total * Share(q, high), Max1(BurstOf(q) * Share(q, high)), true)
  }

  /** A quota without a reserve is one bucket for both priorities. A burst that is not given is a second's worth. */
  lemma QuotaTogether(q: Quota, mult: real, high: bool)
    requires q.qps > 0 && q.highReserveRatio <= 0.0
    ensures RatesFor(q, mult, high) == Rates(q.qps as real * mult, if q.burst > 0 then q.burst as real else q.qps as real, false)
  {
  }

  /** With a reserve the two have buckets of their own: their rates are their shares of the rate, their bursts their shares
      of the burst, or one token; a reserve of all leaves the other priority no rate. */
  lemma QuotaApart(q: Quota, mult: real)
    requires q.qps > 0 && q.highReserveRatio > 0.0
    ensures var h, n := RatesFor(q, mult, true), RatesFor(q, mult, false);
      var share := if q.highReserveRatio > 1.0 then 1.0 else q.highReserveRatio;
      var burst := if q.burst > 0 then q.burst as real else q.qps as real;
      && h.split && n.split
      && h.rate == q.qps as real * mult * share && n.rate == q.qps as real * mult * (1.0 - share)
      && OneOrMore(h.burst, burst * share) && OneOrMore(n.burst, burst * (1.0 - share))
  {
  }

  predicate OneOrMore(burst: real, share: real) {
    (share >= 1.0 ==> burst == share) && (share < 1.0 ==> burst == 1.0)
  }

  /** Calls of one priority, each with the adaptive factor of its time. */
  predicate OfQuota(asks: seq<Ask>, q: Quota, mults: seq<real>, high: bool) {
    |mults| == |asks| && forall i :: 0 <= i < |asks| ==>
      0.0 < mults[i] <= 1.0 && asks[i].rate == RatesFor(q, mults[i], high).rate && asks[i].burst == RatesFor(q, mults[i], high).burst
  }

  lemma NotNegative(a: real, b: real)
    requires a >= 0.0 && b >= 0.0
    ensures a * b >= 0.0
  {
  }

  lemma SplitShares(b: real, ratio: real)
    requires b >= 1.0 && 0.0 < ratio < 1.0
    ensures Max1(b * ratio) + Max1(b * (1.0 - ratio)) <= b + 1.0
  {
    assert b * ratio + b * (1.0 - ratio) == b;
    NotNegative(b, ratio);
    NotNegative(b, 1.0 - ratio);
  }

  lemma SplitRates(total: real, ratio: real, seconds: real)
    ensures seconds * (total * ratio) + seconds * (total * (1.0 - ratio)) == seconds * total
  {
    assert total * ratio + total * (1.0 - ratio) == total;
    MulSum(seconds, total * ratio, total * (1.0 - ratio));
  }

  lemma MulSum(s: real, a: real, b: real)
    ensures s * a + s * b == s * (a + b)
  {
  }

  lemma AddCovered(a: int, b: int, burstA: real, burstB: real, rateA: real, rateB: real, ms: int, burst: real, rate: real)
    requires Covered(a, 0.0, burstA, rateA, ms) && Covered(b, 0.0, burstB, rateB, ms)
    requires burstA + burstB <= burst && Seconds(ms) * rateA + Seconds(ms) * rateB <= Seconds(ms) * rate
    ensures Covered(a + b, 0.0, burst, rate, ms)
  {
  }

  lemma RatesSplit(q: Quota, length: int)
    requires q.qps > 0 && 0.0 < q.highReserveRatio < 1.0 && length >= 0
    ensures var h, n := RatesFor(q, 1.0, true), RatesFor(q, 1.0, false);
      && h.rate >= 0.0 && n.rate >= 0.0 && h.burst >= 1.0 && n.burst >= 1.0
      && h.burst + n.burst <= BurstOf(q) + 1.0
      && Seconds(length) * h.rate + Seconds(length) * n.rate == Seconds(length) * q.qps as real
  {
    var total, ratio := q.qps as real, Ratio(q);
    assert q.qps as real * 1.0 == total;
    NotNegative(total, ratio);
    NotNegative(total, 1.0 - ratio);
    SplitShares(BurstOf(q), ratio);
    SplitRates(total, ratio, Seconds(length));
  }

  lemma ShareLower(qps: real, mult: real, share: real)
    requires qps >= 0.0 && 0.0 < mult <= 1.0 && share >= 0.0
    ensures 0.0 <= qps * mult * share <= qps * 1.0 * share
  {
    NotNegative(qps, mult);
    NotNegative(qps * mult, share);
    MulRate(qps, mult, 1.0);
    MulMono(share, qps * mult, qps * 1.0);
  }

  lemma SplitRate(q: Quota, mult: real, high: bool)
    requires q.qps > 0 && 0.0 < q.highReserveRatio < 1.0
    ensures RatesFor(q, mult, high).rate == q.qps as real * mult * Share(q, high)
  {
  }

  /** The adaptive factor only ever lowers the rate, and leaves the burst alone. */
  lemma FactorLowers(q: Quota, mult: real, high: bool)
    requires q.qps > 0 && 0.0 < q.highReserveRatio < 1.0 && 0.0 < mult <= 1.0
    ensures 0.0 <= RatesFor(q, mult, high).rate <= RatesFor(q, 1.0, high).rate
    ensures RatesFor(q, mult, high).burst == RatesFor(q, 1.0, high).burst
  {
    SplitRate(q, mult, high);
    SplitRate(q, 1.0, high);
    ShareLower(q.qps as real, mult, Share(q, high));
  }

  lemma QuotaAtMost(q: Quota, mults: seq<real>, asks: seq<Ask>, high: bool)
    requires q.qps > 0 && 0.0 < q.highReserveRatio < 1.0 && OfQuota(asks, q, mults, high)
    ensures AtMost(asks, RatesFor(q, 1.0, high).rate, RatesFor(q, 1.0, high).burst)
  {
    forall i | 0 <= i < |asks|
      ensures 0.0 <= asks[i].rate <= RatesFor(q, 1.0, high).rate && 0.0 <= asks[i].burst <= RatesFor(q, 1.0, high).burst
    {
      FactorLowers(q, mults[i], high);
    }
  }

  /** With a reserve strictly between none and all, high and normal messages together are admitted at most
      burst + 1 + qps * D times in any stretch of length D, however the adaptive factor moves meanwhile; in Redis, if two
      minutes refill the bursts. */
  lemma SplitBounded(k: Keeper, q: Quota, high: Option<Bucket>, normal: Option<Bucket>, highAsks: seq<Ask>, highMults: seq<real>,
                     normalAsks: seq<Ask>, normalMults: seq<real>, from: int, length: int)
    requires q.qps > 0 && 0.0 < q.highReserveRatio < 1.0 && length >= 0
    requires OfQuota(highAsks, q, highMults, true) && OfQuota(normalAsks, q, normalMults, false)
    requires Sorted(highAsks) && Sorted(normalAsks) && (k.InRedis? ==> Quick(highAsks) && Quick(normalAsks))
    requires forall i :: 0 <= i < |highAsks| ==> from <= highAsks[i].now <= from + length
    requires forall i :: 0 <= i < |normalAsks| ==> from <= normalAsks[i].now <= from + length
    requires InRange(high, RatesFor(q, 1.0, true).burst) && InRange(normal, RatesFor(q, 1.0, false).burst)
    ensures Covered(Admitted(k, high, highAsks) + Admitted(k, normal, normalAsks), 0.0, BurstOf(q) + 1.0, q.qps as real, length)
  {
    var h, n := RatesFor(q, 1.0, true), RatesFor(q, 1.0, false);
    RatesSplit(q, length);
    QuotaAtMost(q, highMults, highAsks, true);
    QuotaAtMost(q, normalMults, normalAsks, false);
    AdmissionsBounded(k, high, highAsks, h.rate, h.burst, from, length);
    AdmissionsBounded(k, normal, normalAsks, n.rate, n.burst, from, length);
    AddCovered(Admitted(k, high, highAsks), Admitted(k, normal, normalAsks), h.burst, n.burst, h.rate, n.rate, length,
               BurstOf(q) + 1.0, q.qps as real);
  }

  // ---- the buckets themselves ----

  /** Buckets and admissions are what the calls made of them. */
  ghost predicate Recorded(shared: map<string, Bucket>, asked: map<string, seq<Ask>>, admitted: map<string, nat>) {
    && asked.Keys == admitted.Keys == shared.Keys
    && (forall key :: key in asked ==> MadeOf(Some(shared[key]), asked[key], admitted[key]))
  }

  ghost predicate MadeOf(b: Option<Bucket>, asks: seq<Ask>, admitted: nat) {
    b == After(InRedis, None, asks) && admitted == Admitted(InRedis, None, asks)
  }

  ghost function AskedOf(asked: map<string, seq<Ask>>, key: string): seq<Ask> {
    if key in asked then asked[key] else []
  }

  ghost function CountOf(admitted: map<string, nat>, key: string): nat {
    if key in admitted then admitted[key] else 0
  }

  lemma AskedOnce(b: Option<Bucket>, asks: seq<Ask>, admitted: nat, a: Ask)
    requires MadeOf(b, asks, admitted)
    ensures MadeOf(Some(Taken(InRedis.Live(b, a.now), a)), asks + [a], admitted + (if Answer(InRedis, None, asks, a) then 1 else 0))
  {
    assert (asks + [a])[..|asks|] == asks;
  }

  lemma RecordedOn(shared: map<string, Bucket>, asked: map<string, seq<Ask>>, admitted: map<string, nat>,
                   key: string, b: Bucket, asks: seq<Ask>, count: nat)
    requires Recorded(shared, asked, admitted) && MadeOf(Some(b), asks, count)
    ensures Recorded(shared[key := b], asked[key := asks], admitted[key := count])
  {
    assert asked[key := asks].Keys == asked.Keys + {key};
    assert shared[key := b].Keys == shared.Keys + {key};
    assert admitted[key := count].Keys == admitted.Keys + {key};
  }

  class ChannelQuotaLimiter {
    /** Buckets in Redis, and in-process ones. */
    var shared: map<string, Bucket>
    var local: map<string, Bucket>
    /** The calls of the script so far, and how many it admitted, key by key. */
    ghost var asked: map<string, seq<Ask>>
    ghost var admitted: map<string, nat>

    ghost predicate Valid()
      reads this
    {
      Recorded(shared, asked, admitted)
    }

    constructor ()
      ensures shared == map[] && local == map[] && asked == map[] && Valid()
    {
      shared, local, asked, admitted := map[], map[], map[], map[];
    }

    static function Find(buckets: map<string, Bucket>, key: string): Option<Bucket> {
      if key in buckets then Some(buckets[key]) else None
    }

    /** One run of the script, put on record. */
    method TakeShared(key: string, rate: real, burst: real, now: int) returns (allowed: bool)
      requires Valid()
      modifies this`shared, this`asked, this`admitted
      ensures Valid() && asked == old(asked)[key := AskedOf(old(asked), key) + [Ask(now, rate, burst)]]
      ensures allowed == Answer(InRedis, None, AskedOf(old(asked), key), Ask(now, rate, burst))
      ensures admitted == old(admitted)[key := CountOf(old(admitted), key) + (if allowed then 1 else 0)]
    {
      ghost var was, before, a := shared, AskedOf(asked, key), Ask(now, rate, burst);
      ghost var count := CountOf(admitted, key);
      assert MadeOf(Find(shared, key), before, count);
      AskedOnce(Find(shared, key), before, count, a);
      allowed := TokenBucketScript(key, rate, burst, now);
      count := count + if allowed then 1 else 0;
      RecordedOn(was, asked, admitted, key, shared[key], before + [a], count);
      asked, admitted := asked[key := before + [a]], admitted[key := count];
    }

    /** The script, after Redis dropped the key if it was idle for too long. */
    method TokenBucketScript(key: string, rate: real, burst: real, now: int) returns (allowed: bool)
      modifies this`shared
      ensures var b, a := InRedis.Live(old(Find(shared, key)), now), Ask(now, rate, burst);
        allowed == Admits(b, a) && shared == old(shared)[key := Taken(b, a)]
    {
      if key in shared && now - shared[key].at >= KEY_TTL {
        shared := shared - {key};
      }
      var tokens, ts := burst, now;
      if key in shared {
        tokens, ts := shared[key].tokens, shared[key].at;
      }
      var elapsed := (now - ts) as real / 1000.0;
      if elapsed < 0.0 {
        elapsed := 0.0;
      }
      tokens := tokens + elapsed * rate;
      if tokens > burst {
        tokens := burst;
      }
      allowed := false;
      if tokens >= 1.0 {
        tokens := tokens - 1.0;
        allowed := true;
      }
      shared := shared[key := Bucket(tokens, now)];
    }

    /** Whatever calls a bucket in Redis was given, its admissions are within the bound if two minutes refill it. */
    lemma Bounded(key: string, rate: real, burst: real, length: int)
      requires Valid() && key in asked
      requires rate >= 0.0 && burst >= 0.0 && AtMost(asked[key], rate, burst) && Sorted(asked[key]) && Quick(asked[key])
      requires length >= asked[key][|asked[key]| - 1].now - asked[key][0].now
      ensures Covered(admitted[key], 0.0, burst, rate, length)
    {
      AdmissionsBounded(InRedis, None, asked[key], rate, burst, asked[key][0].now, length);
    }

    /** The in-process bucket; its clock does not go back. */
    method TakeLocal(key: string, rate: real, burst: real, now: int) returns (allowed: bool)
      requires key in local ==> local[key].at <= now
      modifies this`local
      ensures var b, a := old(Find(local, key)), Ask(now, rate, burst);
        allowed == Admits(b, a) && local == old(local)[key := Taken(b, a)]
    {
      var b := Bucket(burst, now);
      if key in local {
        b := local[key];
      }
      var elapsed := Seconds(now - b.at);
      var tokens := b.tokens + elapsed * rate;
      if tokens > burst {
        tokens := burst;
      }
      allowed := tokens >= 1.0;
      if allowed {
        tokens := tokens - 1.0;
      }
      local := local[key := Bucket(tokens, now)];
    }

    /** Polling a local bucket until it admits or the readings the deadline leaves are used up. One success takes one
        token and ends the wait. */
    method WaitLocal(key: string, rate: real, burst: real, readings: seq<int>) returns (allowed: bool)
      requires Sorted(Paced(readings, rate, burst))
      requires key in local && |readings| > 0 ==> local[key].at <= readings[0]
      modifies this`local
      ensures var b, asks := old(Find(local, key)), Paced(readings, rate, burst);
        var used := if allowed then FirstAdmit(b, asks) + 1 else |readings|;
        && used <= |readings|
        && Find(local, key) == After(InMemory, b, asks[..used])
        && Admitted(InMemory, b, asks[..used]) == (if allowed then 1 else 0)
      ensures forall k :: k != key ==> Find(local, k) == old(Find(local, k))
    {
      ghost var b, asks := Find(local, key), Paced(readings, rate, burst);
      for i := 0 to |readings|
        invariant Find(local, key) == After(InMemory, b, asks[..i])
        invariant Admitted(InMemory, b, asks[..i]) == 0
        invariant i <= FirstAdmit(b, asks)
        invariant key in local && i < |readings| ==> local[key].at <= asks[i].now
        invariant forall k :: k != key ==> Find(local, k) == old(Find(local, k))
      {
        assert asks[..i + 1][..i] == asks[..i];
        FirstAdmitIs(b, asks, i);
        var ok := TakeLocal(key, rate, burst, readings[i]);
        if ok {
          return true;
        }
      }
      assert asks[..|readings|] == asks;
      allowed := false;
    }
  }

  /** The gateway's own bucket, used when there is no limiter: as many tokens a second as it holds. */
  class TokenGate {
    const rateQPS: int
    var tokens: real
    var lastRefill: int

    constructor (qps: int, now: int)
      ensures rateQPS == (if qps <= 0 then 500 else qps) && lastRefill == now && tokens == rateQPS as real
    {
      rateQPS := if qps <= 0 then 500 else qps;
      tokens := (if qps <= 0 then 500 else qps) as real;
      lastRefill := now;
    }

    method TakeToken(now: int) returns (allowed: bool)
      requires lastRefill <= now
      modifies this`tokens, this`lastRefill
      ensures var b := Some(Bucket(old(tokens), old(lastRefill)));
        var ask := Ask(now, rateQPS as real, rateQPS as real);
        allowed == Admits(b, ask) && Bucket(tokens, lastRefill) == Taken(b, ask)
    {
      tokens := tokens + Seconds(now - lastRefill) * rateQPS as real;
      if tokens > rateQPS as real {
        tokens := rateQPS as real;
      }
      lastRefill := now;
      if tokens < 1.0 {
        return false;
      }
      tokens := tokens - 1.0;
      return true;
    }
  }

  function Paced(readings: seq<int>, rate: real, burst: real): (asks: seq<Ask>)
    ensures |asks| == |readings|
    ensures forall i :: 0 <= i < |asks| ==> asks[i] == Ask(readings[i], rate, burst)
  {
    seq(|readings|, i requires 0 <= i < |readings| => Ask(readings[i], rate, burst))
  }

  /** The index of the first call that is admitted, or the number of calls. */
  function FirstAdmit(b: Option<Bucket>, asks: seq<Ask>): (i: nat)
    ensures i <= |asks|
    decreases |asks|
  {
    if asks == [] then 0
    else if Admits(b, asks[0]) then 0
    else 1 + FirstAdmit(Some(Taken(b, asks[0])), asks[1..])
  }

  lemma {:induction false} AfterConcat(k: Keeper, b: Option<Bucket>, first: seq<Ask>, rest: seq<Ask>)
    ensures After(k, b, first + rest) == After(k, After(k, b, first), rest)
    ensures Admitted(k, b, first + rest) == Admitted(k, b, first) + Admitted(k, After(k, b, first), rest)
    decreases |rest|
  {
    var all := first + rest;
    if rest == [] {
      assert all == first;
    } else {
      var n := |rest| - 1;
      assert all[..|all| - 1] == first + rest[..n];
      AfterConcat(k, b, first, rest[..n]);
    }
  }

  lemma {:induction false} FirstAdmitIs(b: Option<Bucket>, asks: seq<Ask>, i: nat)
    requires i < |asks| && i <= FirstAdmit(b, asks)
    ensures Answer(InMemory, b, asks[..i], asks[i]) <==> FirstAdmit(b, asks) == i
    decreases i
  {
    if i > 0 {
      var one := [asks[0]];
      assert one[..0] == [];
      FirstAdmitIs(Some(Taken(b, asks[0])), asks[1..], i - 1);
      assert asks[..i] == one + asks[1..][..i - 1];
      AfterConcat(InMemory, b, one, asks[1..][..i - 1]);
      assert After(InMemory, b, one) == Some(Taken(b, asks[0]));
    }
  }
}
