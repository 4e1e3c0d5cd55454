/** When the expiry of idle buckets shows: exactly which rates and bursts let a bucket in Redis admit more than the
    burst and the refills. */
module BucketExpiry {
  import opened Status
  import opened RateLimit

  /** What is left of a number above the whole number below it. */
  function Fraction(x: real): (f: real)
    ensures 0.0 <= f < 1.0
  {
    x - x.Floor as real
  }

  predicate Whole(x: real) {
    x == x.Floor as real
  }

  lemma SameFraction(x: real, y: real)
    requires Whole(x - y)
    ensures Fraction(x) == Fraction(y)
  {
    var n := (x - y).Floor;
    assert y.Floor as real + n as real <= x < y.Floor as real + n as real + 1.0;
    assert x.Floor == y.Floor + n;
  }

  /** What `ms` milliseconds refill. */
  function Gain(rate: real, ms: nat): real {
    if ms == 0 then 0.0 else Gain(rate, ms - 1) + rate / 1000.0
  }

  lemma {:induction false} GainIs(rate: real, ms: nat)
    ensures Gain(rate, ms) == Seconds(ms) * rate
  {
    if ms > 0 {
      GainIs(rate, ms - 1);
      SecondsAdd(rate, 0, ms - 1, ms);
      assert Seconds(ms - (ms - 1)) == 1.0 / 1000.0;
    }
  }

  lemma {:induction false} GainPlus(rate: real, m: nat, e: nat)
    ensures Gain(rate, m + e) == Gain(rate, m) + Gain(rate, e)
  {
    if e > 0 { GainPlus(rate, m, e - 1); }
  }

  lemma GainMono(rate: real, m: nat, e: nat)
    requires rate >= 0.0 && m <= e
    ensures 0.0 <= Gain(rate, m) <= Gain(rate, e)
  {
    GainIs(rate, m);
    GainIs(rate, e);
    MulMono(rate, Seconds(m), Seconds(e));
    MulMono(rate, 0.0, Seconds(m));
  }

  /** A full bucket, and what m milliseconds would add to it. */
  function Filled(rate: real, burst: real, m: nat): real {
    burst + Gain(rate, m)
  }

  /** Taking every token as soon as there is one, the bucket does not overflow for m milliseconds. */
  ghost predicate NoOverflow(rate: real, burst: real, m: nat) {
    forall i: nat :: i < m ==> Fraction(Filled(rate, burst, i)) + rate / 1000.0 <= burst
  }

  /** At some millisecond so few tokens are left over that two minutes do not refill the bucket. */
  ghost predicate RunsLow(rate: real, burst: real) {
    exists m: nat :: LowAt(rate, burst, m)
  }

  ghost predicate LowAt(rate: real, burst: real, m: nat) {
    NoOverflow(rate, burst, m) && Fraction(Filled(rate, burst, m)) + 120.0 * rate < burst
  }

  // ---- sequences of calls at one rate ----

  predicate Steady(asks: seq<Ask>, rate: real, burst: real) {
    forall i :: 0 <= i < |asks| ==> asks[i].rate == rate && asks[i].burst == burst
  }

  /** Some call is answered otherwise than by a bucket that is kept for good. */
  predicate Differs(asks: seq<Ask>) {
    exists i :: 0 <= i < |asks| && DiffersAt(asks, i)
  }

  predicate DiffersAt(asks: seq<Ask>, i: int)
    requires 0 <= i < |asks|
  {
    Answer(InRedis, None, asks[..i], asks[i]) != Answer(InMemory, None, asks[..i], asks[i])
  }

  /** More admissions within `length` milliseconds than the burst and the refills. */
  predicate Exceeds(asks: seq<Ask>, rate: real, burst: real, from: int, length: nat) {
    && (forall i :: 0 <= i < |asks| ==> from <= asks[i].now <= from + length)
    && !Covered(Admitted(InRedis, None, asks), 0.0, burst, rate, length)
  }

  // ---- when the bucket never runs low ----

  /** Levels that calls can bring about. */
  ghost predicate Reachable(b: Option<Bucket>, rate: real, burst: real) {
    b.Some? ==> 0.0 <= b.value.tokens <= burst && exists m: nat :: ReachedAt(b.value.tokens, rate, burst, m)
  }

  ghost predicate ReachedAt(tokens: real, rate: real, burst: real, m: nat) {
    NoOverflow(rate, burst, m) && Whole(tokens - Filled(rate, burst, m))
  }

  lemma WholeShift(x: real, y: real, z: real, d: real)
    requires Whole(x - y) && z == y + d
    ensures Whole(x + d - z)
  {
    assert x + d - z == x - y;
  }

  /** Part of a wait that does not overflow the bucket. */
  lemma PartOfWait(tokens: real, rate: real, burst: real, m: nat, j: nat, e: nat)
    requires rate >= 0.0 && tokens >= 0.0 && Whole(tokens - Filled(rate, burst, m))
    requires j < e && tokens + Gain(rate, e) <= burst
    ensures Fraction(Filled(rate, burst, m + j)) + rate / 1000.0 <= burst
  {
    GainPlus(rate, m, j);
    WholeShift(tokens, Filled(rate, burst, m), Filled(rate, burst, m + j), Gain(rate, j));
    SameFraction(tokens + Gain(rate, j), Filled(rate, burst, m + j));
    GainMono(rate, j, j + 1);
    GainMono(rate, j + 1, e);
  }

  lemma WaitingReaches(tokens: real, rate: real, burst: real, m: nat, e: nat)
    requires rate >= 0.0 && tokens >= 0.0 && ReachedAt(tokens, rate, burst, m) && tokens + Gain(rate, e) <= burst
    ensures ReachedAt(tokens + Gain(rate, e), rate, burst, m + e)
  {
    forall i: nat | i < m + e ensures Fraction(Filled(rate, burst, i)) + rate / 1000.0 <= burst {
      if i >= m { PartOfWait(tokens, rate, burst, m, i - m, e); }
    }
    GainPlus(rate, m, e);
    WholeShift(tokens, Filled(rate, burst, m), Filled(rate, burst, m + e), Gain(rate, e));
  }

  lemma RefillReaches(b: Option<Bucket>, a: Ask)
    requires a.rate >= 0.0 && a.burst >= 1.0 && Reachable(b, a.rate, a.burst) && (b.Some? ==> b.value.at <= a.now)
    ensures exists m: nat :: ReachedAt(Refilled(b, a), a.rate, a.burst, m)
    ensures 0.0 <= Refilled(b, a) <= a.burst
  {
    RefilledInRange(b, a, a.burst);
    FullReached(a.rate, a.burst);
    if b.Some? && Refilled(b, a) != a.burst {
      var m: nat :| ReachedAt(b.value.tokens, a.rate, a.burst, m);
      PartialRefill(b.value, a);
      WaitingReaches(b.value.tokens, a.rate, a.burst, m, a.now - b.value.at);
    }
  }

  lemma PartialRefill(b: Bucket, a: Ask)
    requires b.at <= a.now && Refilled(Some(b), a) != a.burst
    ensures Refilled(Some(b), a) == b.tokens + Gain(a.rate, a.now - b.at) <= a.burst
  {
    GainIs(a.rate, a.now - b.at);
  }

  lemma FullReached(rate: real, burst: real)
    ensures ReachedAt(burst, rate, burst, 0)
  {
    assert Filled(rate, burst, 0) == burst;
  }

  lemma TakingReaches(tokens: real, rate: real, burst: real, m: nat)
    requires ReachedAt(tokens, rate, burst, m)
    ensures ReachedAt(tokens - 1.0, rate, burst, m)
  {
  }

  lemma CallReaches(b: Option<Bucket>, a: Ask)
    requires a.rate >= 0.0 && a.burst >= 1.0 && Reachable(b, a.rate, a.burst) && (b.Some? ==> b.value.at <= a.now)
    ensures Reachable(Some(Taken(b, a)), a.rate, a.burst)
  {
    RefillReaches(b, a);
    var m: nat :| ReachedAt(Refilled(b, a), a.rate, a.burst, m);
    TakingReaches(Refilled(b, a), a.rate, a.burst, m);
  }

  /** Every level that calls can bring about is refilled by the time the bucket expires. */
  lemma ExpiryHidden(b: Option<Bucket>, a: Ask)
    requires a.rate >= 0.0 && a.burst >= 1.0 && Reachable(b, a.rate, a.burst) && !RunsLow(a.rate, a.burst)
    ensures Refilled(InRedis.Live(b, a.now), a) == Refilled(b, a)
  {
    if b.Some? && a.now - b.value.at >= KEY_TTL {
      var m: nat :| ReachedAt(b.value.tokens, a.rate, a.burst, m);
      NotLowThere(b.value.tokens, a.rate, a.burst, m);
      LongRefill(b.value, a);
    }
  }

  lemma LongRefill(b: Bucket, a: Ask)
    requires a.rate >= 0.0 && a.now - b.at >= KEY_TTL && b.tokens + 120.0 * a.rate >= a.burst
    ensures Refilled(Some(b), a) == a.burst
  {
    MulMono(a.rate, 120.0, Seconds(a.now - b.at));
  }

  lemma NotLowThere(tokens: real, rate: real, burst: real, m: nat)
    requires ReachedAt(tokens, rate, burst, m) && tokens >= 0.0 && !RunsLow(rate, burst)
    ensures tokens + 120.0 * rate >= burst
  {
    SameFraction(tokens, Filled(rate, burst, m));
    assert !LowAt(rate, burst, m);
  }

  lemma {:induction false} NeverLow(asks: seq<Ask>, rate: real, burst: real)
    requires rate >= 0.0 && burst >= 1.0 && Steady(asks, rate, burst) && Sorted(asks) && !RunsLow(rate, burst)
    ensures After(InRedis, None, asks) == After(InMemory, None, asks)
    ensures Reachable(After(InMemory, None, asks), rate, burst) && !Differs(asks)
    ensures asks != [] ==> After(InMemory, None, asks).Some? && After(InMemory, None, asks).value.at == asks[|asks| - 1].now
  {
    if asks != [] {
      var n := |asks| - 1;
      var before := asks[..n];
      NeverLow(before, rate, burst);
      ExpiryHidden(After(InMemory, None, before), asks[n]);
      CallReaches(After(InMemory, None, before), asks[n]);
      forall i | 0 <= i < |asks| ensures !DiffersAt(asks, i) {
        if i < n {
          assert asks[..i] == before[..i] && !DiffersAt(before, i);
        }
      }
    }
  }

  lemma {:induction false} SameAdmitted(asks: seq<Ask>)
    requires !Differs(asks)
    ensures Admitted(InRedis, None, asks) == Admitted(InMemory, None, asks)
  {
    if asks != [] {
      var n := |asks| - 1;
      forall i | 0 <= i < n ensures !DiffersAt(asks[..n], i) {
        assert asks[..n][..i] == asks[..i] && !DiffersAt(asks, i);
      }
      SameAdmitted(asks[..n]);
      assert !DiffersAt(asks, n);
    }
  }

  lemma ExceedingDiffers(asks: seq<Ask>, rate: real, burst: real, from: int, length: nat)
    requires rate >= 0.0 && burst >= 1.0 && Steady(asks, rate, burst) && Sorted(asks) && Exceeds(asks, rate, burst, from, length)
    ensures Differs(asks)
  {
    if !Differs(asks) {
      SameAdmitted(asks);
      AdmissionsBounded(InMemory, None, asks, rate, burst, from, length);
      assert false;
    }
  }

  // ---- when it does ----

  function Same(n: nat, a: Ask): (asks: seq<Ask>)
    ensures |asks| == n && forall i :: 0 <= i < n ==> asks[i] == a
  {
    seq(n, i => a)
  }

  function Min(a: int, b: int): int {
    if a < b then a else b
  }

  lemma AtOnce(k: Keeper, b: Bucket, a: Ask)
    requires b.at == a.now && b.tokens <= a.burst
    ensures Refilled(k.Live(Some(b), a.now), a) == b.tokens
  {
  }

  /** After n calls at one moment on a bucket that held `tokens`: whole tokens were taken as long as there were any. */
  predicate TookWhole(k: Keeper, b: Option<Bucket>, asks: seq<Ask>, tokens: real, now: int, n: nat) {
    && After(k, b, asks) == Some(Bucket(tokens - Min(n, tokens.Floor) as real, now))
    && Admitted(k, b, asks) == Min(n, tokens.Floor)
  }

  lemma TakesOne(k: Keeper, b: Option<Bucket>, a: Ask)
    requires 0.0 <= Refilled(k.Live(b, a.now), a)
    ensures TookWhole(k, b, [a], Refilled(k.Live(b, a.now), a), a.now, 1)
  {
    assert [a][..0] == [];
  }

  lemma TakesMore(k: Keeper, b: Option<Bucket>, asks: seq<Ask>, tokens: real, a: Ask, n: nat)
    requires 0.0 <= tokens <= a.burst && TookWhole(k, b, asks, tokens, a.now, n)
    ensures TookWhole(k, b, asks + [a], tokens, a.now, n + 1)
  {
    assert (asks + [a])[..|asks|] == asks;
    AtOnce(k, Bucket(tokens - Min(n, tokens.Floor) as real, a.now), a);
  }

  lemma {:induction false} Drained(k: Keeper, b: Option<Bucket>, a: Ask, n: nat)
    requires n >= 1 && 0.0 <= Refilled(k.Live(b, a.now), a) <= a.burst
    ensures TookWhole(k, b, Same(n, a), Refilled(k.Live(b, a.now), a), a.now, n)
  {
    if n == 1 {
      assert Same(1, a) == [a];
      TakesOne(k, b, a);
    } else {
      Drained(k, b, a, n - 1);
      assert Same(n, a) == Same(n - 1, a) + [a];
      TakesMore(k, b, Same(n - 1, a), Refilled(k.Live(b, a.now), a), a, n - 1);
    }
  }

  function Calls(now: int, rate: real, burst: real): seq<Ask>
    requires burst >= 1.0
  {
    Same(burst.Floor + 1, Ask(now, rate, burst))
  }

  /** From `start`, enough calls at every millisecond for m milliseconds. */
  function Cycle(start: int, m: nat, rate: real, burst: real): seq<Ask>
    requires burst >= 1.0
  {
    if m == 0 then Calls(start, rate, burst) else Cycle(start, m - 1, rate, burst) + Calls(start + m, rate, burst)
  }

  lemma Emptied(k: Keeper, b: Option<Bucket>, now: int, rate: real, burst: real)
    requires burst >= 1.0 && 0.0 <= Refilled(k.Live(b, now), Ask(now, rate, burst)) <= burst
    ensures var y := Refilled(k.Live(b, now), Ask(now, rate, burst));
      && After(k, b, Calls(now, rate, burst)) == Some(Bucket(Fraction(y), now))
      && Admitted(k, b, Calls(now, rate, burst)) == y.Floor
  {
    Drained(k, b, Ask(now, rate, burst), burst.Floor + 1);
  }

  lemma Then(b: Option<Bucket>, first: seq<Ask>, b1: Option<Bucket>, rest: seq<Ask>, b2: Option<Bucket>)
    requires After(InRedis, b, first) == b1 && After(InRedis, b1, rest) == b2
    ensures After(InRedis, b, first + rest) == b2
    ensures Admitted(InRedis, b, first + rest) == Admitted(InRedis, b, first) + Admitted(InRedis, b1, rest)
  {
    AfterConcat(InRedis, b, first, rest);
  }

  /** After a cycle of m milliseconds on a full bucket: it holds a fraction of a token, the rest was admitted. */
  predicate CycleGives(b: Option<Bucket>, asks: seq<Ask>, start: int, m: nat, rate: real, burst: real) {
    && After(InRedis, b, asks) == Some(Bucket(Fraction(Filled(rate, burst, m)), start + m))
    && Admitted(InRedis, b, asks) == Filled(rate, burst, m).Floor
  }

  lemma CycleGoesOn(b: Option<Bucket>, asks: seq<Ask>, start: int, m: nat, rate: real, burst: real)
    requires m > 0 && rate >= 0.0 && burst >= 1.0 && NoOverflow(rate, burst, m)
    requires CycleGives(b, asks, start, m - 1, rate, burst)
    ensures CycleGives(b, asks + Calls(start + m, rate, burst), start, m, rate, burst)
  {
    MillisecondRuns(start, m, rate, burst);
    Then(b, asks, Some(Bucket(Fraction(Filled(rate, burst, m - 1)), start + m - 1)),
         Calls(start + m, rate, burst), Some(Bucket(Fraction(Filled(rate, burst, m)), start + m)));
  }

  lemma {:induction false} CycleRuns(b: Option<Bucket>, start: int, m: nat, rate: real, burst: real)
    requires rate >= 0.0 && burst >= 1.0 && NoOverflow(rate, burst, m)
    requires Refilled(InRedis.Live(b, start), Ask(start, rate, burst)) == burst
    ensures CycleGives(b, Cycle(start, m, rate, burst), start, m, rate, burst)
  {
    if m == 0 {
      Emptied(InRedis, b, start, rate, burst);
    } else {
      NoOverflowBefore(rate, burst, m);
      CycleRuns(b, start, m - 1, rate, burst);
      CycleGoesOn(b, Cycle(start, m - 1, rate, burst), start, m, rate, burst);
    }
  }

  lemma NoOverflowBefore(rate: real, burst: real, m: nat)
    requires m > 0 && NoOverflow(rate, burst, m)
    ensures NoOverflow(rate, burst, m - 1)
  {
  }

  lemma MillisecondRuns(start: int, m: nat, rate: real, burst: real)
    requires m > 0 && rate >= 0.0 && burst >= 1.0 && NoOverflow(rate, burst, m)
    ensures var b := Some(Bucket(Fraction(Filled(rate, burst, m - 1)), start + m - 1));
      && After(InRedis, b, Calls(start + m, rate, burst)) == Some(Bucket(Fraction(Filled(rate, burst, m)), start + m))
      && Filled(rate, burst, m - 1).Floor + Admitted(InRedis, b, Calls(start + m, rate, burst)) == Filled(rate, burst, m).Floor
  {
    var b := Bucket(Fraction(Filled(rate, burst, m - 1)), start + m - 1);
    MillisecondRefills(start, m, rate, burst);
    assert InRedis.Live(Some(b), start + m) == Some(b);
    Emptied(InRedis, Some(b), start + m, rate, burst);
  }

  lemma FractionPlus(x: real, d: real)
    ensures Fraction(Fraction(x) + d) == Fraction(x + d) && x.Floor + (Fraction(x) + d).Floor == (x + d).Floor
  {
    var f := Fraction(x) + d;
    assert x + d == x.Floor as real + f;
    assert x.Floor as real + f.Floor as real <= x + d < x.Floor as real + f.Floor as real + 1.0;
  }

  lemma OneMillisecond(b: Bucket, a: Ask)
    requires b.at + 1 == a.now && b.tokens + a.rate / 1000.0 <= a.burst
    ensures Refilled(Some(b), a) == b.tokens + a.rate / 1000.0
  {
    GainIs(a.rate, 1);
    assert Gain(a.rate, 1) == Gain(a.rate, 0) + a.rate / 1000.0;
  }

  lemma MillisecondRefills(start: int, m: nat, rate: real, burst: real)
    requires m > 0 && rate >= 0.0 && NoOverflow(rate, burst, m)
    ensures var f := Fraction(Filled(rate, burst, m - 1));
      var y := Refilled(Some(Bucket(f, start + m - 1)), Ask(start + m, rate, burst));
      && 0.0 <= y <= burst && Fraction(y) == Fraction(Filled(rate, burst, m))
      && Filled(rate, burst, m - 1).Floor + y.Floor == Filled(rate, burst, m).Floor
  {
    var before := Filled(rate, burst, m - 1);
    OneMillisecond(Bucket(Fraction(before), start + m - 1), Ask(start + m, rate, burst));
    FractionPlus(before, rate / 1000.0);
  }

  /** The start of cycle n: each begins two minutes after the last one's end. */
  function StartOf(n: nat, m: nat): nat {
    if n == 0 then 0 else StartOf(n - 1, m) + m + KEY_TTL
  }

  function Cycles(n: nat, m: nat, rate: real, burst: real): seq<Ask>
    requires burst >= 1.0
  {
    if n == 0 then [] else Cycles(n - 1, m, rate, burst) + Cycle(StartOf(n - 1, m), m, rate, burst)
  }

  /** What n cycles admit beyond the bound: the last tokens are missing, but at each expiry some are given away. */
  function Surplus(n: nat, given: real, left: real): real
    requires n >= 1
  {
    if n == 1 then -left else Surplus(n - 1, given, left) + given
  }

  lemma {:induction false} SurplusIs(n: nat, given: real, left: real)
    requires n >= 1
    ensures Surplus(n, given, left) == (n - 1) as real * given - left
  {
    if n > 1 {
      SurplusIs(n - 1, given, left);
      MulAdd(given, (n - 2) as real, 1.0);
    }
  }

  function Given(rate: real, burst: real, m: nat): real {
    burst - 120.0 * rate - Fraction(Filled(rate, burst, m))
  }

  /** After n cycles: the bucket, and the admissions against the bound. */
  predicate Gives(asks: seq<Ask>, n: nat, m: nat, rate: real, burst: real)
    requires n >= 1
  {
    && After(InRedis, None, asks) == Some(Bucket(Fraction(Filled(rate, burst, m)), StartOf(n - 1, m) + m))
    && Admitted(InRedis, None, asks) as real == burst + Gain(rate, StartOf(n - 1, m) + m)
         + Surplus(n, Given(rate, burst, m), Fraction(Filled(rate, burst, m)))
  }

  lemma FirstGives(m: nat, rate: real, burst: real)
    requires rate >= 0.0 && burst >= 1.0 && NoOverflow(rate, burst, m)
    ensures Gives([] + Cycle(0, m, rate, burst), 1, m, rate, burst)
  {
    CycleAfter(m, rate, burst, [], None, 0, Cycle(0, m, rate, burst));
  }

  lemma NextGives(before: seq<Ask>, n: nat, m: nat, rate: real, burst: real)
    requires n >= 1 && rate >= 0.0 && burst >= 1.0 && NoOverflow(rate, burst, m) && Gives(before, n, m, rate, burst)
    ensures Gives(before + Cycle(StartOf(n, m), m, rate, burst), n + 1, m, rate, burst)
  {
    NextStart(n, m, rate);
    CycleAfter(m, rate, burst, before, After(InRedis, None, before), StartOf(n, m), Cycle(StartOf(n, m), m, rate, burst));
  }

  lemma {:induction false} CyclesRun(n: nat, m: nat, rate: real, burst: real)
    requires n >= 1 && rate >= 0.0 && burst >= 1.0 && NoOverflow(rate, burst, m)
    ensures Gives(Cycles(n, m, rate, burst), n, m, rate, burst)
  {
    if n == 1 {
      FirstGives(m, rate, burst);
    } else {
      CyclesRun(n - 1, m, rate, burst);
      NextGives(Cycles(n - 1, m, rate, burst), n - 1, m, rate, burst);
    }
  }

  /** One more cycle on a bucket that has expired. */
  lemma CycleAfter(m: nat, rate: real, burst: real, before: seq<Ask>, b: Option<Bucket>, start: int, cycle: seq<Ask>)
    requires rate >= 0.0 && burst >= 1.0 && NoOverflow(rate, burst, m)
    requires After(InRedis, None, before) == b && InRedis.Live(b, start) == None && cycle == Cycle(start, m, rate, burst)
    ensures After(InRedis, None, before + cycle) == Some(Bucket(Fraction(Filled(rate, burst, m)), start + m))
    ensures Admitted(InRedis, None, before + cycle) == Admitted(InRedis, None, before) + Filled(rate, burst, m).Floor
  {
    CycleRuns(b, start, m, rate, burst);
    Then(None, before, b, cycle, Some(Bucket(Fraction(Filled(rate, burst, m)), start + m)));
  }

  lemma NextStart(n: nat, m: nat, rate: real)
    requires n >= 1
    ensures Gain(rate, StartOf(n, m) + m) == Gain(rate, StartOf(n - 1, m) + m) + Gain(rate, m) + 120.0 * rate
  {
    assert StartOf(n, m) + m == StartOf(n - 1, m) + m + (m + KEY_TTL);
    GainPlus(rate, StartOf(n - 1, m) + m, m + KEY_TTL);
    GainPlus(rate, m, KEY_TTL);
    TwoMinutes(rate);
  }

  lemma TwoMinutes(rate: real)
    ensures Gain(rate, KEY_TTL) == 120.0 * rate
  {
    GainIs(rate, KEY_TTL);
  }

  predicate Within(asks: seq<Ask>, from: int, to: int) {
    Sorted(asks) && forall i :: 0 <= i < |asks| ==> from <= asks[i].now <= to
  }

  lemma WithinConcat(first: seq<Ask>, from: int, mid: int, rest: seq<Ask>, mid': int, to: int)
    requires Within(first, from, mid) && Within(rest, mid', to) && from <= mid <= mid' <= to
    ensures Within(first + rest, from, to)
  {
  }

  lemma {:induction false} CycleWithin(start: int, m: nat, rate: real, burst: real)
    requires burst >= 1.0
    ensures Within(Cycle(start, m, rate, burst), start, start + m) && Steady(Cycle(start, m, rate, burst), rate, burst)
  {
    if m > 0 {
      CycleWithin(start, m - 1, rate, burst);
      WithinConcat(Cycle(start, m - 1, rate, burst), start, start + m - 1, Calls(start + m, rate, burst), start + m, start + m);
    }
  }

  lemma {:induction false} CyclesWithin(n: nat, m: nat, rate: real, burst: real)
    requires n >= 1 && burst >= 1.0
    ensures Within(Cycles(n, m, rate, burst), 0, StartOf(n - 1, m) + m) && Steady(Cycles(n, m, rate, burst), rate, burst)
  {
    CycleWithin(StartOf(n - 1, m), m, rate, burst);
    if n > 1 {
      CyclesWithin(n - 1, m, rate, burst);
      WithinConcat(Cycles(n - 1, m, rate, burst), 0, StartOf(n - 2, m) + m,
                   Cycle(StartOf(n - 1, m), m, rate, burst), StartOf(n - 1, m), StartOf(n - 1, m) + m);
    } else {
      assert Cycles(0, m, rate, burst) + Cycle(0, m, rate, burst) == Cycle(0, m, rate, burst);
    }
  }

  lemma Archimedes(gain: real) returns (n: nat)
    requires gain > 0.0
    ensures n >= 1 && (n - 1) as real * gain >= 1.0
  {
    var k := 1.0 / gain;
    n := k.Floor + 2;
    assert k * gain == 1.0;
    MulMono(gain, k, (n - 1) as real);
  }

  lemma SurplusLeft(n: nat, given: real, left: real)
    requires n >= 1 && (n - 1) as real * given >= 1.0 > left
    ensures Surplus(n, given, left) > 0.0
  {
    SurplusIs(n, given, left);
  }

  lemma BeyondBound(admitted: int, burst: real, rate: real, length: nat)
    requires admitted as real > burst + Gain(rate, length)
    ensures !Covered(admitted, 0.0, burst, rate, length)
  {
    GainIs(rate, length);
  }

  /** Enough cycles of draining the bucket and letting it expire admit more than the bound allows. */
  lemma LowExceeds(rate: real, burst: real) returns (asks: seq<Ask>, length: nat)
    requires rate >= 0.0 && burst >= 1.0 && RunsLow(rate, burst)
    ensures Steady(asks, rate, burst) && Sorted(asks) && Exceeds(asks, rate, burst, 0, length)
  {
    var m: nat :| LowAt(rate, burst, m);
    var n := Archimedes(Given(rate, burst, m));
    asks, length := Cycles(n, m, rate, burst), StartOf(n - 1, m) + m;
    CyclesWithin(n, m, rate, burst);
    CyclesRun(n, m, rate, burst);
    SurplusLeft(n, Given(rate, burst, m), Fraction(Filled(rate, burst, m)));
    BeyondBound(Admitted(InRedis, None, asks), burst, rate, length);
  }

  // ---- exactly when expiry shows ----

  /** Calls at one rate and burst, starting from no bucket: some sequence of them is answered otherwise than by a bucket
      kept for good, and some sequence of them exceeds the bound, if and only if the bucket runs low. */
  lemma ExpiryShowsIff(rate: real, burst: real)
    requires rate >= 0.0 && burst >= 1.0
    ensures (exists asks :: Steady(asks, rate, burst) && Sorted(asks) && Differs(asks)) <==> RunsLow(rate, burst)
    ensures (exists asks, from, length :: Steady(asks, rate, burst) && Sorted(asks) && Exceeds(asks, rate, burst, from, length))
       <==> RunsLow(rate, burst)
  {
    if RunsLow(rate, burst) {
      var asks, length := LowExceeds(rate, burst);
      ExceedingDiffers(asks, rate, burst, 0, length);
    } else {
      forall asks | Steady(asks, rate, burst) && Sorted(asks) ensures !Differs(asks) {
        NeverLow(asks, rate, burst);
      }
      forall asks, from, length | Steady(asks, rate, burst) && Sorted(asks) ensures !Exceeds(asks, rate, burst, from, length) {
        if Exceeds(asks, rate, burst, from, length) { ExceedingDiffers(asks, rate, burst, from, length); }
      }
    }
  }

  /** With whole numbers, as for a channel without a reserve, the bucket runs low if and only if two minutes do not refill
      the burst; otherwise it can only if they do not. */
  lemma WholeRunsLow(rate: real, burst: real)
    requires rate >= 0.0 && burst >= 1.0
    ensures RunsLow(rate, burst) ==> burst > 120.0 * rate
    ensures Fraction(burst) + 120.0 * rate < burst ==> RunsLow(rate, burst)
    ensures Whole(burst) ==> (RunsLow(rate, burst) <==> burst > 120.0 * rate)
  {
    assert Filled(rate, burst, 0) == burst;
    if Fraction(burst) + 120.0 * rate < burst { assert LowAt(rate, burst, 0); }
  }

  /** A burst that two minutes do not refill is not enough for that: here half a token is always left over. */
  lemma {:induction false} OneAMillisecond(m: nat)
    ensures Gain(1000.0, m) == m as real
  {
    if m > 0 { OneAMillisecond(m - 1); }
  }

  lemma HalfLeft(x: real, n: int)
    requires x == n as real + 0.5
    ensures Fraction(x) == 0.5
  {
    assert x.Floor == n;
  }

  lemma HalfATokenSaves()
    ensures 120000.5 > 120.0 * 1000.0 && !RunsLow(1000.0, 120000.5)
  {
    forall m: nat ensures !LowAt(1000.0, 120000.5, m) {
      OneAMillisecond(m);
      HalfLeft(Filled(1000.0, 120000.5, m), 120000 + m);
    }
  }

  /** The reserved bucket of a small quota, called twice, left for two minutes and called twice: four admissions, where
      burst and refills come to 3.2. */
  lemma ReserveExceeds()
    ensures var r := RatesFor(Quota(1, 200, 0.01), 1.0, true);
      && r == Rates(0.01, 2.0, true)
      && var asks := Calls2(r.rate, r.burst);
         Steady(asks, r.rate, r.burst) && Sorted(asks) && Admitted(InRedis, None, asks) == 4
         && Exceeds(asks, r.rate, r.burst, 0, KEY_TTL)
  {
    var asks := Calls2(0.01, 2.0);
    assert asks[..3][..2] == asks[..2] && asks[..2][..1] == asks[..1] && asks[..1][..0] == [];
    assert After(InRedis, None, asks[..1]) == Some(Bucket(1.0, 0));
    assert After(InRedis, None, asks[..2]) == Some(Bucket(0.0, 0));
    assert After(InRedis, None, asks[..3]) == Some(Bucket(1.0, KEY_TTL));
    assert Admitted(InRedis, None, asks[..1]) == 1;
    assert Admitted(InRedis, None, asks[..2]) == 2;
    assert Admitted(InRedis, None, asks[..3]) == 3;
  }

  function Calls2(rate: real, burst: real): seq<Ask> {
    var first, later := Ask(0, rate, burst), Ask(KEY_TTL, rate, burst);
    [first, first, later, later]
  }
}
