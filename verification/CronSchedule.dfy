/** The parsed schedule, its day rule, and the search for the next firing against the minutes it fires in.
    A minute is numbered from midnight of 1 January of year 1 on the schedule's own fixed-offset clock. */
module CronSchedule {
  import opened Status
  import opened Text
  import opened Calendar
  import opened Cron

  const MINUTES_IN_A_DAY := 1440
  const MAX_LOOKAHEAD_DAYS := 366 * 4

  /** Which minutes, hours, days of the month, months and weekdays (0 is Sunday) are set. */
  datatype Schedule = Schedule(minute: seq<bool>, hour: seq<bool>, dom: seq<bool>, month: seq<bool>, dow: seq<bool>,
                               domStar: bool, dowStar: bool)
  {
    predicate Valid() {
      |minute| == 60 && |hour| == 24 && |dom| == 32 && |month| == 13 && |dow| == 7
    }

    /** Both day fields restricted: either may match. One of them free: the other decides. */
    predicate MatchDay(n: nat)
      requires Valid()
    {
      var d := DateOf(n);
      && month[d.month]
      && (if domStar && dowStar then true
          else if domStar then dow[Weekday(n)]
          else if dowStar then dom[d.day]
          else dom[d.day] || dow[Weekday(n)])
    }

    /** Which minutes the schedule fires in, by the code's rule for days (PosixDays has the rule of POSIX). */
    predicate Fires(m: nat)
      requires Valid()
    {
      MatchDay(m / MINUTES_IN_A_DAY) && hour[m / 60 % 24] && minute[m % 60]
    }
  }

  /** What each field of a schedule says, read off the text. */
  ghost predicate Reads(s: Schedule, fields: seq<string>)
    requires |fields| == 5
  {
    && s.Valid()
    && (forall v :: 0 <= v <= 59 ==> (s.minute[v] <==> SomePartHas(Split(fields[0], ','), CRON_FIELDS[0], v)))
    && (forall v :: 0 <= v <= 23 ==> (s.hour[v] <==> SomePartHas(Split(fields[1], ','), CRON_FIELDS[1], v)))
    && (forall v :: 1 <= v <= 31 ==> (s.dom[v] <==> SomePartHas(Split(fields[2], ','), CRON_FIELDS[2], v)))
    && (forall v :: 1 <= v <= 12 ==> (s.month[v] <==> SomePartHas(Split(fields[3], ','), CRON_FIELDS[3], v)))
    && (forall v :: 0 <= v <= 6 ==> (s.dow[v] <==> WeekdaySet(fields[4], v)))
    && (s.domStar <==> IsCronWildcard(fields[2]))
    && (s.dowStar <==> IsCronWildcard(fields[4]))
  }

  /** A weekday is named by its number; Sunday also by 7. */
  ghost predicate WeekdaySet(field: string, v: int) {
    SomePartHas(Split(field, ','), CRON_FIELDS[4], v) || (v == 0 && SomePartHas(Split(field, ','), CRON_FIELDS[4], 7))
  }

  /** The first field that is malformed or runs over decides. */
  function CronVerdict(fields: seq<string>, i: nat): Outcome<()>
    requires |fields| == 5 && i <= 5
    decreases 5 - i
  {
    if i == 5 then Parsed(()) else
    match FieldVerdict(Split(fields[i], ','), CRON_FIELDS[i])
    case Parsed(_) => CronVerdict(fields, i + 1)
    case bad => bad
  }

  /** The schedule the parser makes of the expression. */
  ghost predicate ReadFrom(s: Schedule, expr: string) {
    var fields := Fields(TrimSpace(expr));
    |fields| == 5 && CronVerdict(fields, 0).Parsed? && Reads(s, fields)
  }

  method ParseCron(expr: string) returns (r: Outcome<Schedule>)
    ensures var fields := Fields(TrimSpace(expr));
      if |fields| != 5 then r == Invalid
      else match CronVerdict(fields, 0)
        case Invalid => r == Invalid
        case Panicked => r == Panicked
        case Parsed(_) => r.Parsed? && Reads(r.value, fields)
  {
    var fields := Fields(TrimSpace(expr));
    if |fields| != 5 {
      return Invalid;
    }
    var sets: seq<seq<bool>> := [];
    for i := 0 to 5
      invariant |sets| == i && CronVerdict(fields, i) == CronVerdict(fields, 0)
      invariant AllFields(sets, fields, i)
    {
      var set_ := ParseCronField(fields[i], CRON_FIELDS[i]);
      match set_ {
        case Invalid => return Invalid;
        case Panicked => return Panicked;
        case Parsed(bits) =>
          OneFieldMore(sets, bits, fields, i);
          sets := sets + [bits];
      }
    }
    assert FieldRead(sets[4], fields[4], CRON_FIELDS[4]);
    var dow := FoldSunday(sets[4]);
    r := Parsed(Schedule(sets[0], sets[1], sets[2], sets[3], dow, IsCronWildcard(fields[2]), IsCronWildcard(fields[4])));
    AllRead(r.value, fields, sets);
  }

  ghost predicate AllFields(sets: seq<seq<bool>>, fields: seq<string>, n: nat)
    requires n <= |sets| && n <= |fields| && n <= 5
  {
    forall j :: 0 <= j < n ==> FieldRead(sets[j], fields[j], CRON_FIELDS[j])
  }

  lemma OneFieldMore(sets: seq<seq<bool>>, bits: seq<bool>, fields: seq<string>, i: nat)
    requires i == |sets| < |fields| && i < 5 && AllFields(sets, fields, i) && FieldRead(bits, fields[i], CRON_FIELDS[i])
    ensures AllFields(sets + [bits], fields, i + 1)
  {
    forall j | 0 <= j < i + 1 ensures FieldRead((sets + [bits])[j], fields[j], CRON_FIELDS[j]) {
      if j < i { assert FieldRead(sets[j], fields[j], CRON_FIELDS[j]); }
    }
  }

  lemma AllRead(s: Schedule, fields: seq<string>, sets: seq<seq<bool>>)
    requires |fields| == 5 && |sets| == 5 && AllFields(sets, fields, 5)
    requires s.minute == sets[0] && s.hour == sets[1] && s.dom == sets[2] && s.month == sets[3]
    requires |s.dow| == 7 && forall v :: 0 <= v <= 6 ==> (s.dow[v] <==> sets[4][v] || (v == 0 && sets[4][7]))
    requires s.domStar == IsCronWildcard(fields[2]) && s.dowStar == IsCronWildcard(fields[4])
    ensures Reads(s, fields)
  {
    assert FieldRead(sets[0], fields[0], CRON_FIELDS[0]);
    assert FieldRead(sets[1], fields[1], CRON_FIELDS[1]);
    assert FieldRead(sets[2], fields[2], CRON_FIELDS[2]);
    assert FieldRead(sets[3], fields[3], CRON_FIELDS[3]);
    assert FieldRead(sets[4], fields[4], CRON_FIELDS[4]);
  }

  ghost predicate FieldRead(bits: seq<bool>, field: string, spec: FieldSpec) {
    |bits| == spec.max + 1 && forall v :: 0 <= v <= spec.max ==> (bits[v] <==> SomePartHas(Split(field, ','), spec, v))
  }

  /** Weekday 7 is Sunday too. */
  method FoldSunday(bits: seq<bool>) returns (dow: seq<bool>)
    requires |bits| == 8
    ensures |dow| == 7 && forall v :: 0 <= v <= 6 ==> (dow[v] <==> bits[v] || (v == 0 && bits[7]))
  {
    var days := new bool[7](_ => false);
    for v := 0 to 8
      invariant forall w :: 0 <= w <= 6 ==> (days[w] <==> (w < v && bits[w]) || (v == 8 && w == 0 && bits[7]))
    {
      if bits[v] {
        days[v % 7] := true;
      }
    }
    dow := days[..];
  }

  // ---- the next firing ----

  /** No firing from minute `a` up to, not including, minute `b`. */
  predicate SilentFor(s: Schedule, a: nat, b: nat)
    requires s.Valid()
  {
    forall m :: a <= m < b ==> !s.Fires(m)
  }

  /** The first minute after the search window: the day of the first candidate and the days after it. */
  function SearchEnd(after: nat): nat {
    (((after / 60) + 1) / MINUTES_IN_A_DAY + MAX_LOOKAHEAD_DAYS + 1) * MINUTES_IN_A_DAY
  }

  /** The window holds the day of the first minute after the given second, and the 1464 days after it. */
  lemma WindowIs(after: nat, day: nat)
    requires day * 1440 <= after / 60 + 1 < (day + 1) * 1440
    ensures SearchEnd(after) == (day + 1465) * 1440
  {
  }

  /** What the search for the next firing after second `after` must return. */
  predicate IsNext(s: Schedule, after: nat, next: Option<nat>)
    requires s.Valid()
  {
    match next
    case Some(m) => after < m * 60 && m < SearchEnd(after) && s.Fires(m) && SilentFor(s, after / 60 + 1, m)
    case None => SilentFor(s, after / 60 + 1, SearchEnd(after))
  }

  lemma SilentDay(s: Schedule, t: nat)
    requires s.Valid() && !s.MatchDay(t / MINUTES_IN_A_DAY)
    ensures SilentFor(s, t, (t / MINUTES_IN_A_DAY + 1) * MINUTES_IN_A_DAY)
  {
    var day := t / MINUTES_IN_A_DAY;
    forall m | t <= m < (day + 1) * MINUTES_IN_A_DAY ensures !s.Fires(m) {
      SameDay(t, m);
    }
  }

  lemma SameDay(t: nat, m: nat)
    requires t <= m < (t / MINUTES_IN_A_DAY + 1) * MINUTES_IN_A_DAY
    ensures m / MINUTES_IN_A_DAY == t / MINUTES_IN_A_DAY
  {
  }

  lemma SilentJoin(s: Schedule, a: nat, b: nat, c: nat)
    requires s.Valid() && SilentFor(s, a, b) && SilentFor(s, b, c)
    ensures SilentFor(s, a, c)
  {
  }

  lemma NextMinute(t: nat)
    ensures var midnight := (t / MINUTES_IN_A_DAY + 1) * MINUTES_IN_A_DAY;
      if t + 1 < midnight then (t + 1) / MINUTES_IN_A_DAY == t / MINUTES_IN_A_DAY
      else t + 1 == midnight && (t + 1) / MINUTES_IN_A_DAY == t / MINUTES_IN_A_DAY + 1
           && (t + 1) / MINUTES_IN_A_DAY * MINUTES_IN_A_DAY == midnight
  {
  }

  /** A minute on, it is midnight if and only if the date is another. */
  lemma DateTurns(from: nat, t: nat)
    requires from <= t < (from / MINUTES_IN_A_DAY + 1) * MINUTES_IN_A_DAY
    ensures var midnight := (from / MINUTES_IN_A_DAY + 1) * MINUTES_IN_A_DAY;
      var now, then_ := DateOf(t / MINUTES_IN_A_DAY), DateOf((t + 1) / MINUTES_IN_A_DAY);
      if then_.day != now.day || then_.month != now.month || then_.year != now.year
      then t + 1 == midnight == (t + 1) / MINUTES_IN_A_DAY * MINUTES_IN_A_DAY
      else t + 1 < midnight
  {
    SameDay(from, t);
    NextMinute(t);
    NextDayDiffers(t / MINUTES_IN_A_DAY);
  }

  lemma FiresOnDay(s: Schedule, from: nat, t: nat)
    requires s.Valid() && s.MatchDay(from / MINUTES_IN_A_DAY)
    requires from <= t < (from / MINUTES_IN_A_DAY + 1) * MINUTES_IN_A_DAY
    ensures s.Fires(t) == (s.hour[t / 60 % 24] && s.minute[t % 60])
  {
    SameDay(from, t);
  }

  /** The rest of a matching day, minute by minute: the first firing in it, or the next midnight. */
  method SearchDay(s: Schedule, from: nat) returns (found: bool, t: nat)
    requires s.Valid() && s.MatchDay(from / MINUTES_IN_A_DAY)
    ensures SilentFor(s, from, t)
    ensures found ==> from <= t < (from / MINUTES_IN_A_DAY + 1) * MINUTES_IN_A_DAY && s.Fires(t)
    ensures !found ==> t == (from / MINUTES_IN_A_DAY + 1) * MINUTES_IN_A_DAY
  {
    t := from;
    var midnight := (from / MINUTES_IN_A_DAY + 1) * MINUTES_IN_A_DAY;
    while true
      invariant from <= t < midnight && SilentFor(s, from, t)
      decreases midnight - t
    {
      FiresOnDay(s, from, t);
      if s.hour[t / 60 % 24] && s.minute[t % 60] {
        return true, t;
      }
      var nt := t + 1;
      DateTurns(from, t);
      var now, then_ := DateOf(t / MINUTES_IN_A_DAY), DateOf(nt / MINUTES_IN_A_DAY);
      if then_.day != now.day || then_.month != now.month || then_.year != now.year {
        return false, nt / MINUTES_IN_A_DAY * MINUTES_IN_A_DAY;
      }
      t := nt;
    }
  }

  /** From the next whole minute on, day by day; a day that does not match is skipped at once. */
  method Next(s: Schedule, after: nat) returns (next: Option<nat>)
    requires s.Valid()
    ensures IsNext(s, after, next)
  {
    var t := after / 60 + 1;
    ghost var first := t / MINUTES_IN_A_DAY;
    for day := 0 to MAX_LOOKAHEAD_DAYS + 1
      invariant after / 60 + 1 <= t && SilentFor(s, after / 60 + 1, t)
      invariant t / MINUTES_IN_A_DAY == first + day
      invariant day > 0 ==> t == (first + day) * MINUTES_IN_A_DAY
    {
      if !s.MatchDay(t / MINUTES_IN_A_DAY) {
        SilentDay(s, t);
        var midnight := (t / MINUTES_IN_A_DAY + 1) * MINUTES_IN_A_DAY;
        SilentJoin(s, after / 60 + 1, t, midnight);
        t := midnight;
        continue;
      }
      var found, at := SearchDay(s, t);
      SilentJoin(s, after / 60 + 1, t, at);
      if found {
        return Some(at);
      }
      t := at;
    }
    next := None;
  }

  // ---- listing the firings ----

  /** What firing `i` was asked after. */
  function AskedAfter(after: nat, list: seq<nat>, i: nat): nat
    requires i < |list|
  {
    if i == 0 then after else list[i - 1] * 60
  }

  /** Firings got by asking for the next one again and again, each time after the last. */
  predicate Listing(s: Schedule, after: nat, list: seq<nat>)
    requires s.Valid()
  {
    forall i :: 0 <= i < |list| ==> IsNext(s, AskedAfter(after, list, i), Some(list[i]))
  }

  /** From the firing before it, or from the start, up to the i-th: nothing fires. */
  predicate SilentBefore(s: Schedule, after: nat, list: seq<nat>, i: nat)
    requires s.Valid() && i < |list|
  {
    SilentFor(s, if i == 0 then after / 60 + 1 else list[i - 1] + 1, list[i])
  }

  lemma NextFollows(s: Schedule, after: nat, list: seq<nat>, i: nat)
    requires s.Valid() && i < |list| && IsNext(s, AskedAfter(after, list, i), Some(list[i]))
    ensures s.Fires(list[i]) && SilentBefore(s, after, list, i)
    ensures i > 0 ==> list[i - 1] < list[i]
  {
  }

  lemma {:induction false} StepsGrow(list: seq<nat>, i: nat, j: nat)
    requires i < j < |list| && forall k :: 0 < k < |list| ==> list[k - 1] < list[k]
    ensures list[i] < list[j]
  {
    if i < j - 1 {
      StepsGrow(list, i, j - 1);
    }
  }

  /** Every firing up to the j-th listed one is listed. */
  lemma {:induction false} NoneMissed(s: Schedule, after: nat, list: seq<nat>, j: nat, m: nat)
    requires s.Valid() && j < |list| && forall k :: 0 <= k < |list| ==> SilentBefore(s, after, list, k)
    requires after / 60 < m <= list[j] && s.Fires(m)
    ensures m in list
  {
    if m < list[j] {
      assert SilentBefore(s, after, list, j);
      NoneMissed(s, after, list, j - 1, m);
    }
  }

  /** The list goes up, holds firings only, and misses none up to its end. */
  lemma ListingComplete(s: Schedule, after: nat, list: seq<nat>)
    requires s.Valid() && Listing(s, after, list)
    ensures forall i :: 0 <= i < |list| ==> s.Fires(list[i])
    ensures forall i, j :: 0 <= i < j < |list| ==> list[i] < list[j]
    ensures forall m :: after / 60 < m && list != [] && m <= list[|list| - 1] && s.Fires(m) ==> m in list
  {
    forall i | 0 <= i < |list|
      ensures s.Fires(list[i]) && SilentBefore(s, after, list, i) && (i > 0 ==> list[i - 1] < list[i])
    {
      NextFollows(s, after, list, i);
    }
    forall i, j | 0 <= i < j < |list| ensures list[i] < list[j] { StepsGrow(list, i, j); }
    if list != [] {
      forall m | after / 60 < m <= list[|list| - 1] && s.Fires(m) ensures m in list {
        NoneMissed(s, after, list, |list| - 1, m);
      }
    }
  }
}
