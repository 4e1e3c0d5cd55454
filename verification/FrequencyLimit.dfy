/** The fixed-window frequency limiter: a call raises all of its counters or none. */
module FrequencyLimit {
  import opened Status

  /** A counter lives for one window from its first hit. Times are milliseconds. */
  datatype Counter = Counter(value: nat, start: int, window: int)

  datatype Limit = Limit(key: string, limit: int, windowSec: int)
  {
    predicate Active() {
      limit > 0 && windowSec > 0
    }

    function Window(): int {
      windowSec * 1000
    }
  }

  function Current(c: Option<Counter>, now: int): nat {
    if c.Some? && now < c.value.start + c.value.window then c.value.value else 0
  }

  /** INCR, with an expiry set on the first hit. */
  function Hit(c: Option<Counter>, now: int, window: int): Counter {
    if Current(c, now) == 0 then Counter(1, now, window) else Counter(c.value.value + 1, c.value.start, c.value.window)
  }

  // ---- hits on one key ----

  function After(hits: seq<int>, window: int): Option<Counter> {
    if hits == [] then None else Some(Hit(After(hits[..|hits| - 1], window), hits[|hits| - 1], window))
  }

  /** Hits made only while the counter was below the limit, by a clock that does not go back. */
  predicate Legal(hits: seq<int>, limit: int, window: int) {
    && (forall i, j :: 0 <= i < j < |hits| ==> hits[i] <= hits[j])
    && (forall i :: 0 <= i < |hits| ==> Current(After(hits[..i], window), hits[i]) < limit)
  }

  function HitsIn(hits: seq<int>, from: int, to: int): nat {
    if hits == [] then 0
    else HitsIn(hits[..|hits| - 1], from, to) + (if from <= hits[|hits| - 1] < to then 1 else 0)
  }

  lemma LegalPrefix(hits: seq<int>, limit: int, window: int)
    requires Legal(hits, limit, window) && hits != []
    ensures Legal(hits[..|hits| - 1], limit, window)
  {
    forall i | 0 <= i < |hits| - 1 ensures Current(After(hits[..|hits| - 1][..i], window), hits[i]) < limit {
      assert hits[..|hits| - 1][..i] == hits[..i];
    }
  }

  /** The counter never exceeds its limit, and is dated within the hits. */
  lemma {:induction false} NeverAbove(hits: seq<int>, limit: int, window: int)
    requires Legal(hits, limit, window) && window > 0 && hits != []
    ensures var c := After(hits, window).value;
      && 1 <= c.value <= limit && c.window == window
      && c.start <= hits[|hits| - 1] < c.start + window
  {
    var n := |hits| - 1;
    LegalPrefix(hits, limit, window);
    if n > 0 {
      NeverAbove(hits[..n], limit, window);
    }
    assert Current(After(hits[..n], window), hits[n]) < limit;
  }

  lemma {:induction false} EarlierHitsOutside(hits: seq<int>, limit: int, window: int, from: int, to: int)
    requires Legal(hits, limit, window) && (hits != [] ==> hits[|hits| - 1] < from)
    ensures HitsIn(hits, from, to) == 0
  {
    if hits != [] {
      LegalPrefix(hits, limit, window);
      EarlierHitsOutside(hits[..|hits| - 1], limit, window, from, to);
    }
  }

  /** Hits in a span up to its end: those of the window that was open when the span began, but for its first hit,
      and one window more. */
  lemma {:induction false} SpanSoFar(hits: seq<int>, limit: int, window: int, from: int)
    requires Legal(hits, limit, window) && window > 0 && hits != []
    requires hits[|hits| - 1] < from + window
    ensures var c := After(hits, window).value;
      HitsIn(hits, from, from + window) <= c.value - 1 + (if c.start >= from then limit else 0)
  {
    var n := |hits| - 1;
    LegalPrefix(hits, limit, window);
    NeverAbove(hits, limit, window);
    if n == 0 {
      assert hits[..n] == [];
    } else if hits[n] < from {
      EarlierHitsOutside(hits, limit, window, from, from + window);
    } else {
      assert hits[n - 1] <= hits[n];
      SpanSoFar(hits[..n], limit, window, from);
      NeverAbove(hits[..n], limit, window);
    }
  }

  lemma {:induction false} LaterHitsOutside(hits: seq<int>, n: nat, from: int, to: int)
    requires n <= |hits|
    requires forall i :: n <= i < |hits| ==> hits[i] >= to
    ensures HitsIn(hits, from, to) == HitsIn(hits[..n], from, to)
  {
    if n < |hits| {
      LaterHitsOutside(hits[..|hits| - 1], n, from, to);
      assert hits[..|hits| - 1][..n] == hits[..n];
    } else {
      assert hits[..n] == hits;
    }
  }

  /** Any half-open span one window long holds fewer than twice the limit. */
  lemma {:induction false} TwiceTheLimit(hits: seq<int>, limit: int, window: int, from: int)
    requires Legal(hits, limit, window) && window > 0 && limit > 0
    ensures HitsIn(hits, from, from + window) <= 2 * limit - 1
  {
    if hits != [] {
      if hits[|hits| - 1] < from + window {
        SpanSoFar(hits, limit, window, from);
        NeverAbove(hits, limit, window);
      } else {
        LegalPrefix(hits, limit, window);
        TwiceTheLimit(hits[..|hits| - 1], limit, window, from);
      }
    }
  }

  /** One hit at time 0, and n at the last moment of its window. */
  function LateHits(n: nat, window: int): (hits: seq<int>)
    ensures |hits| == n + 1
  {
    if n == 0 then [0] else LateHits(n - 1, window) + [window - 1]
  }

  /** The same for a full window, and n hits at the first moment of the next. */
  function BothSides(limit: nat, n: nat, window: int): (hits: seq<int>)
    requires limit > 0
    ensures |hits| == limit + n
  {
    if n == 0 then LateHits(limit - 1, window) else BothSides(limit, n - 1, window) + [window]
  }

  lemma OneHitMore(hits: seq<int>, t: int, limit: int, window: int, from: int, to: int)
    requires Legal(hits, limit, window) && (hits != [] ==> hits[|hits| - 1] <= t) && Current(After(hits, window), t) < limit
    ensures Legal(hits + [t], limit, window) && After(hits + [t], window) == Some(Hit(After(hits, window), t, window))
    ensures HitsIn(hits + [t], from, to) == HitsIn(hits, from, to) + (if from <= t < to then 1 else 0)
  {
    var more := hits + [t];
    assert more[..|hits|] == hits;
    forall i | 0 <= i < |more| ensures Current(After(more[..i], window), more[i]) < limit {
      if i < |hits| { assert more[..i] == hits[..i]; }
    }
  }

  /** Legal hits that end by time t with counter c, n of them at or after the window's last moment. */
  predicate Tally(hits: seq<int>, limit: int, window: int, t: int, c: Counter, n: int) {
    && Legal(hits, limit, window) && hits != [] && hits[|hits| - 1] == t && After(hits, window) == Some(c)
    && HitsIn(hits, window - 1, window - 1 + window) == n
  }

  lemma TallyOne(hits: seq<int>, t: int, limit: int, window: int, t': int, c: Counter, n: int)
    requires Tally(hits, limit, window, t, c, n) && t <= t' && window - 1 <= t' < window - 1 + window && Current(Some(c), t') < limit
    ensures Tally(hits + [t'], limit, window, t', Hit(Some(c), t', window), n + 1)
  {
    OneHitMore(hits, t', limit, window, window - 1, window - 1 + window);
  }

  lemma FirstTally(limit: int, window: int)
    requires limit > 0 && window >= 2
    ensures Tally([0], limit, window, 0, Counter(1, 0, window), 0)
  {
    assert [0][..0] == [];
  }

  lemma {:induction false} LateHitsCount(n: nat, limit: int, window: int)
    requires n < limit && window >= 2
    ensures Tally(LateHits(n, window), limit, window, if n == 0 then 0 else window - 1, Counter(n + 1, 0, window), n)
  {
    if n == 0 {
      FirstTally(limit, window);
    } else {
      LateHitsCount(n - 1, limit, window);
      TallyOne(LateHits(n - 1, window), if n == 1 then 0 else window - 1, limit, window, window - 1, Counter(n, 0, window), n - 1);
    }
  }

  lemma {:induction false} BothSidesCount(limit: nat, n: nat, window: int)
    requires limit > 0 && 1 <= n <= limit && window >= 2
    ensures Tally(BothSides(limit, n, window), limit, window, window, Counter(n, window, window), limit - 1 + n)
  {
    if n == 1 {
      LateHitsCount(limit - 1, limit, window);
      TallyOne(LateHits(limit - 1, window), if limit == 1 then 0 else window - 1, limit, window, window, Counter(limit, 0, window), limit - 1);
    } else {
      BothSidesCount(limit, n - 1, window);
      TallyOne(BothSides(limit, n - 1, window), window, limit, window, window, Counter(n - 1, window, window), limit - 2 + n);
    }
  }

  /** The bound is met for every limit: the end of a full window and the whole of the next. */
  lemma TwiceIsReached(limit: nat, window: int)
    requires limit > 0 && window >= 2
    ensures exists hits :: Legal(hits, limit, window) && HitsIn(hits, window - 1, window - 1 + window) == 2 * limit - 1
  {
    BothSidesCount(limit, limit, window);
  }

  /** The window open after the hits was opened by hit k: all since lie in it, and k is the first hit ever, or the first
      at or after the end of a window another one opened. */
  ghost predicate OpenedBy(hits: seq<int>, window: int, k: nat) {
    && k < |hits| && (forall i :: k <= i < |hits| ==> hits[i] < hits[k] + window)
    && (k > 0 ==> exists j: nat :: Opened(hits, window, j, k))
  }

  predicate Opened(hits: seq<int>, window: int, j: nat, k: nat) {
    j < k < |hits| && hits[j] + window <= hits[k] && forall i :: j < i < k ==> hits[i] < hits[j] + window
  }

  lemma StillOpen(hits: seq<int>, window: int, k: nat)
    requires hits != [] && OpenedBy(hits[..|hits| - 1], window, k) && hits[|hits| - 1] < hits[k] + window
    ensures OpenedBy(hits, window, k)
  {
    var n := |hits| - 1;
    forall i | k <= i < |hits| ensures hits[i] < hits[k] + window {
      if i < n { assert hits[..n][i] == hits[i]; }
    }
    if k > 0 {
      var j: nat :| Opened(hits[..n], window, j, k);
      assert Opened(hits, window, j, k);
    }
  }

  lemma OpenedAnew(hits: seq<int>, window: int, k: nat)
    requires hits != [] && window > 0 && OpenedBy(hits[..|hits| - 1], window, k) && hits[|hits| - 1] >= hits[k] + window
    ensures OpenedBy(hits, window, |hits| - 1)
  {
    var n := |hits| - 1;
    forall i | k < i < n ensures hits[i] < hits[k] + window { assert hits[..n][i] == hits[i]; }
    assert Opened(hits, window, k, n);
  }

  /** A counter counts the hits since the one that opened its window. */
  lemma {:induction false} CountsSince(hits: seq<int>, window: int) returns (k: nat)
    requires hits != [] && window > 0
    ensures OpenedBy(hits, window, k) && After(hits, window) == Some(Counter(|hits| - k, hits[k], window))
  {
    var n := |hits| - 1;
    if n == 0 {
      k := 0;
      assert hits[..0] == [];
    } else {
      k := CountsSince(hits[..n], window);
      assert hits[..n][k] == hits[k];
      if hits[n] >= hits[k] + window {
        OpenedAnew(hits, window, k);
        k := n;
      } else {
        StillOpen(hits, window, k);
      }
    }
  }

  /** It stands for them while its window lasts, and for none after that. */
  lemma StandsInWindow(c: Counter, now: int)
    ensures Current(Some(c), now) == if now - c.start < c.window then c.value else 0
    ensures Current(None, now) == 0
  {
  }

  // ---- the limiter ----

  /** Limits by key, the same in every call. */
  type Limits = string -> Limit

  predicate Distinct(limits: seq<Limit>) {
    forall i, j :: 0 <= i < j < |limits| ==> limits[i].key != limits[j].key
  }

  predicate Names(limits: seq<Limit>, key: string) {
    exists i :: 0 <= i < |limits| && limits[i].key == key && limits[i].Active()
  }

  /** The counter is what the hits make of it, and they kept the limit. */
  ghost predicate Follows(l: Limit, c: Option<Counter>, hits: seq<int>) {
    && (hits != [] ==> l.Active())
    && c == After(hits, l.Window())
    && Legal(hits, l.limit, l.Window())
  }

  class FrequencyCounters {
    var counters: map<string, Counter>
    ghost var hits: map<string, seq<int>>
    ghost const limits: Limits

    constructor (ghost fixed: Limits)
      ensures Valid() && limits == fixed && counters == map[]
    {
      counters := map[];
      hits, limits := map[], fixed;
    }

    function Find(key: string): Option<Counter>
      reads this
    {
      if key in counters then Some(counters[key]) else None
    }

    ghost function HitsOf(key: string): seq<int>
      reads this
    {
      if key in hits then hits[key] else []
    }

    ghost predicate KeyOk(key: string)
      reads this
    {
      Follows(limits(key), Find(key), HitsOf(key))
    }

    ghost predicate Valid()
      reads this
    {
      forall key :: KeyOk(key)
    }

    /** A key is hit fewer than twice its limit in a span as long as its window, and no counter is above its limit. */
    lemma Bounded(key: string, from: int)
      requires Valid() && limits(key).limit > 0 && limits(key).windowSec > 0
      ensures HitsIn(HitsOf(key), from, from + limits(key).windowSec * 1000) <= 2 * limits(key).limit - 1
      ensures key in counters ==> counters[key].value <= limits(key).limit
    {
      assert KeyOk(key);
      TwiceTheLimit(HitsOf(key), limits(key).limit, limits(key).Window(), from);
      if HitsOf(key) != [] {
        NeverAbove(HitsOf(key), limits(key).limit, limits(key).Window());
      }
    }

    /** Check every counter, then raise every counter. Limits that are off are left out. */
    method AllowAll(asked: seq<Limit>, now: int) returns (allowed: bool)
      requires Valid() && Distinct(asked)
      requires forall i :: 0 <= i < |asked| ==> asked[i] == limits(asked[i].key)
      requires forall key :: HitsOf(key) != [] ==> HitsOf(key)[|HitsOf(key)| - 1] <= now
      modifies this
      ensures Valid()
      ensures allowed <==> forall i :: 0 <= i < |asked| && asked[i].limit > 0 && asked[i].windowSec > 0 ==>
                Current(old(Find(asked[i].key)), now) < asked[i].limit
      ensures forall key :: HitsOf(key) == old(HitsOf(key)) + (if allowed && Names(asked, key) then [now] else [])
    {
      for i := 0 to |asked|
        invariant forall j :: 0 <= j < i && asked[j].Active() ==> Current(Find(asked[j].key), now) < asked[j].limit
        invariant counters == old(counters) && hits == old(hits)
      {
        if asked[i].Active() && Current(Find(asked[i].key), now) >= asked[i].limit {
          return false;
        }
      }
      assert Ready(asked, 0, now);
      RaiseAll(asked, now);
      allowed := true;
    }

    /** From the k-th on, the keys of a list are below their limits and were hit no later than now. */
    ghost predicate Ready(asked: seq<Limit>, k: nat, now: int)
      reads this
    {
      forall i :: k <= i < |asked| ==> ReadyOne(asked[i], now)
    }

    ghost predicate ReadyOne(l: Limit, now: int)
      reads this
    {
      && l == limits(l.key)
      && (l.Active() ==> Current(Find(l.key), now) < l.limit)
      && (HitsOf(l.key) != [] ==> HitsOf(l.key)[|HitsOf(l.key)| - 1] <= now)
    }

    method RaiseAll(asked: seq<Limit>, now: int)
      requires Valid() && Distinct(asked) && Ready(asked, 0, now)
      modifies this
      ensures Valid()
      ensures forall key :: HitsOf(key) == old(HitsOf(key)) + (if Names(asked, key) then [now] else [])
    {
      for i := 0 to |asked|
        invariant Valid() && Ready(asked, i, now)
        invariant forall key :: HitsOf(key) == old(HitsOf(key)) + (if Names(asked[..i], key) then [now] else [])
      {
        NamesGrow(asked, i);
        assert ReadyOne(asked[i], now);
        label before:
        if asked[i].Active() {
          HitOne(asked[i], now);
        }
        forall j | i + 1 <= j < |asked| ensures ReadyOne(asked[j], now) {
          assert old@before(ReadyOne(asked[j], now));
          assert asked[j].key != asked[i].key;
        }
      }
      assert asked[..|asked|] == asked;
    }

    twostate lemma OthersHeld(one: string)
      requires old(Valid()) && KeyOk(one)
      requires forall key :: key != one ==> HitsOf(key) == old(HitsOf(key)) && Find(key) == old(Find(key))
      ensures Valid()
    {
      forall key ensures KeyOk(key) {
        if key != one { assert old(KeyOk(key)); }
      }
    }

    lemma OneHeld(l: Limit, c: Option<Counter>, before: seq<int>, now: int)
      requires Follows(l, c, before) && l.Active() && Current(c, now) < l.limit && l == limits(l.key)
      requires before != [] ==> before[|before| - 1] <= now
      requires Find(l.key) == Some(Hit(c, now, l.Window())) && HitsOf(l.key) == before + [now]
      ensures KeyOk(l.key)
    {
      FollowsOn(l, c, before, now);
    }

    method HitOne(l: Limit, now: int)
      requires Valid() && l.Active() && ReadyOne(l, now)
      modifies this
      ensures Valid()
      ensures HitsOf(l.key) == old(HitsOf(l.key)) + [now]
      ensures forall key :: key != l.key ==> HitsOf(key) == old(HitsOf(key)) && Find(key) == old(Find(key))
    {
      var c := Find(l.key);
      ghost var before := HitsOf(l.key);
      assert KeyOk(l.key);
      if Current(c, now) == 0 {
        counters := counters[l.key := Counter(1, now, l.Window())];
      } else {
        counters := counters[l.key := counters[l.key].(value := counters[l.key].value + 1)];
      }
      hits := hits[l.key := HitsOf(l.key) + [now]];
      OneHeld(l, c, before, now);
      OthersHeld(l.key);
    }
  }

  lemma LegalGrows(hits: seq<int>, now: int, limit: int, window: int)
    requires Legal(hits, limit, window) && Current(After(hits, window), now) < limit
    requires hits != [] ==> hits[|hits| - 1] <= now
    ensures Legal(hits + [now], limit, window)
    ensures After(hits + [now], window) == Some(Hit(After(hits, window), now, window))
  {
    var all := hits + [now];
    assert all[..|hits|] == hits;
    forall i | 0 <= i < |all| ensures Current(After(all[..i], window), all[i]) < limit {
      if i < |hits| {
        assert all[..i] == hits[..i] && all[i] == hits[i];
      }
    }
  }

  lemma FollowsOn(l: Limit, c: Option<Counter>, hits: seq<int>, now: int)
    requires Follows(l, c, hits) && l.Active() && Current(c, now) < l.limit
    requires hits != [] ==> hits[|hits| - 1] <= now
    ensures Follows(l, Some(Hit(c, now, l.Window())), hits + [now])
  {
    LegalGrows(hits, now, l.limit, l.Window());
  }

  lemma NamesGrow(asked: seq<Limit>, i: nat)
    requires i < |asked| && Distinct(asked)
    ensures forall key :: Names(asked[..i + 1], key) <==> Names(asked[..i], key) || (key == asked[i].key && asked[i].Active())
    ensures !Names(asked[..i], asked[i].key)
  {
    assert asked[..i + 1] == asked[..i] + [asked[i]];
    forall key ensures Names(asked[..i + 1], key) <==> Names(asked[..i], key) || (key == asked[i].key && asked[i].Active()) {
      if Names(asked[..i], key) {
        var j :| 0 <= j < i && asked[..i][j].key == key && asked[..i][j].Active();
        assert asked[..i + 1][j] == asked[..i][j];
      }
      if key == asked[i].key && asked[i].Active() {
        assert asked[..i + 1][i].key == key;
      }
    }
  }
}
