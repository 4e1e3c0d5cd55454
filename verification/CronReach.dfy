/** The firings the search does not reach: exactly for which schedules and starts it reports none although there is one;
    and two expressions, read from their text, that go wrong. */
module CronReach {
  import opened Status
  import opened Text
  import opened Decimal
  import opened Calendar
  import opened Cron
  import opened CronSchedule

  // ---- days by their date ----

  function DayOf(year: nat, month: nat, day: nat): nat
    requires year >= 1 && ValidDate(Date(year, month, day))
  {
    NewYear(year) + DaysBefore(year, month) + day - 1
  }

  lemma {:induction false} MonthsGrow(year: nat, a: nat, b: nat)
    requires 1 <= a <= b <= 13
    ensures DaysBefore(year, a) <= DaysBefore(year, b)
  {
    if a < b {
      MonthsGrow(year, a, b - 1);
    }
  }

  lemma DateAt(year: nat, month: nat, day: nat)
    requires year >= 1 && ValidDate(Date(year, month, day))
    ensures DateOf(DayOf(year, month, day)) == Date(year, month, day)
  {
    var n := DayOf(year, month, day);
    var d := DateOf(n);
    MonthsInYear(year, month);
    YearOfDay(n, year);
    DayNumber(n);
    SamePlace(year, month, day, d.month, d.day);
  }

  /** A place in the year belongs to one date. */
  lemma SamePlace(year: nat, month: nat, day: nat, month': nat, day': nat)
    requires ValidDate(Date(year, month, day)) && ValidDate(Date(year, month', day'))
    requires DaysBefore(year, month) + day == DaysBefore(year, month') + day'
    ensures month == month' && day == day'
  {
    if month' < month { EarlierMonth(year, month', day', month, day); }
    if month < month' { EarlierMonth(year, month, day, month', day'); }
  }

  lemma EarlierMonth(year: nat, month: nat, day: nat, month': nat, day': nat)
    requires ValidDate(Date(year, month, day)) && ValidDate(Date(year, month', day')) && month < month'
    ensures DaysBefore(year, month) + day < DaysBefore(year, month') + day'
  {
    MonthsGrow(year, month + 1, month');
    assert DaysBefore(year, month + 1) == DaysBefore(year, month) + DaysInMonth(year, month);
  }

  /** 29 February, or where it would be. */
  function LeapDay(year: nat): nat
    requires year >= 1
  {
    NewYear(year) + 59
  }

  lemma LeapDate(n: nat)
    requires DateOf(n).month == 2 && DateOf(n).day == 29
    ensures DateOf(n).year >= 1 && Leap(DateOf(n).year) && n == LeapDay(DateOf(n).year)
  {
    DayNumber(n);
    assert DaysBefore(DateOf(n).year, 2) == 31;
  }

  lemma LeapDayOf(year: nat)
    requires year >= 1 && Leap(year)
    ensures ValidDate(Date(year, 2, 29)) && DayOf(year, 2, 29) == LeapDay(year)
  {
    assert DaysBefore(year, 2) == 31;
  }

  lemma LeapDayDate(year: nat)
    requires year >= 1 && Leap(year)
    ensures DateOf(LeapDay(year)) == Date(year, 2, 29)
  {
    LeapDayOf(year);
    DateAt(year, 2, 29);
  }

  // ---- schedules ----

  /** Every field has a value, as in every schedule that was parsed. */
  predicate HasValues(s: Schedule) {
    s.Valid() && HasTimes(s) && HasDays(s)
  }

  predicate HasTimes(s: Schedule)
    requires s.Valid()
  {
    (exists v :: 0 <= v < 60 && s.minute[v]) && (exists v :: 0 <= v < 24 && s.hour[v])
  }

  predicate HasDays(s: Schedule)
    requires s.Valid()
  {
    (exists v :: 1 <= v < 32 && s.dom[v]) && (exists v :: 1 <= v < 13 && s.month[v]) && (exists v :: 0 <= v < 7 && s.dow[v])
  }

  /** A field that was accepted has a value. */
  lemma FieldHasValue(field: string, spec: FieldSpec) returns (v: int)
    requires FieldVerdict(Split(field, ','), spec).Parsed?
    ensures spec.min <= v <= spec.max && SomePartHas(Split(field, ','), spec, v)
  {
    var texts := Split(field, ',');
    var p := ReadPart(texts[0], spec).value;
    v := p.lo;
    TermStep(p.lo, p.step, 0);
    assert v == Term(p.lo, p.step, 0);
    assert PartHas(texts[0], spec, v);
  }

  lemma {:induction false} VerdictOfEach(fields: seq<string>, i: nat, j: nat)
    requires |fields| == 5 && i <= j < 5 && CronVerdict(fields, i).Parsed?
    ensures FieldVerdict(Split(fields[j], ','), CRON_FIELDS[j]).Parsed?
    decreases j - i
  {
    assert FieldVerdict(Split(fields[i], ','), CRON_FIELDS[i]).Parsed?;
    if i < j { VerdictOfEach(fields, i + 1, j); }
  }

  lemma EachHasValue(fields: seq<string>)
    requires |fields| == 5 && CronVerdict(fields, 0).Parsed?
    ensures forall j :: 0 <= j < 5 ==> HasValue(fields[j], CRON_FIELDS[j])
  {
    forall j | 0 <= j < 5 ensures HasValue(fields[j], CRON_FIELDS[j]) {
      VerdictOfEach(fields, 0, j);
      var v := FieldHasValue(fields[j], CRON_FIELDS[j]);
    }
  }

  ghost predicate HasValue(field: string, spec: FieldSpec) {
    exists v :: spec.min <= v <= spec.max && SomePartHas(Split(field, ','), spec, v)
  }

  lemma ValueSet(bits: seq<bool>, field: string, spec: FieldSpec) returns (v: nat)
    requires |bits| > spec.max && HasValue(field, spec)
    requires forall v :: spec.min <= v <= spec.max ==> (bits[v] <==> SomePartHas(Split(field, ','), spec, v))
    ensures spec.min <= v <= spec.max && bits[v] && SomePartHas(Split(field, ','), spec, v)
  {
    v :| spec.min <= v <= spec.max && SomePartHas(Split(field, ','), spec, v);
  }

  lemma WeekdayIsSet(dow: seq<bool>, field: string)
    requires |dow| == 7 && (forall v :: 0 <= v <= 6 ==> (dow[v] <==> WeekdaySet(field, v))) && HasValue(field, CRON_FIELDS[4])
    ensures exists v :: 0 <= v < 7 && dow[v]
  {
    var v :| 0 <= v <= 7 && SomePartHas(Split(field, ','), CRON_FIELDS[4], v);
    assert WeekdaySet(field, if v == 7 then 0 else v);
    assert dow[if v == 7 then 0 else v];
  }

  /** Every schedule that was parsed has a value in each field. */
  lemma ParsedHasValues(s: Schedule, fields: seq<string>)
    requires |fields| == 5 && CronVerdict(fields, 0).Parsed? && Reads(s, fields)
    ensures HasValues(s)
  {
    EachHasValue(fields);
    ReadValues(s, fields);
  }

  lemma ReadValues(s: Schedule, fields: seq<string>)
    requires |fields| == 5 && Reads(s, fields) && forall j :: 0 <= j < 5 ==> HasValue(fields[j], CRON_FIELDS[j])
    ensures HasValues(s)
  {
    ReadTimes(s, fields);
    ReadDays(s, fields);
  }

  lemma ReadTimes(s: Schedule, fields: seq<string>)
    requires |fields| == 5 && Reads(s, fields) && HasValue(fields[0], CRON_FIELDS[0]) && HasValue(fields[1], CRON_FIELDS[1])
    ensures HasTimes(s)
  {
    SomeBit(s.minute, fields[0], CRON_FIELDS[0]);
    SomeBit(s.hour, fields[1], CRON_FIELDS[1]);
  }

  lemma SomeBit(bits: seq<bool>, field: string, spec: FieldSpec)
    requires |bits| == spec.max + 1 && HasValue(field, spec)
    requires forall v :: spec.min <= v <= spec.max ==> (bits[v] <==> SomePartHas(Split(field, ','), spec, v))
    ensures exists v :: 0 <= v < |bits| && bits[v]
  {
    var v := ValueSet(bits, field, spec);
  }

  lemma ReadDays(s: Schedule, fields: seq<string>)
    requires |fields| == 5 && Reads(s, fields)
    requires HasValue(fields[2], CRON_FIELDS[2]) && HasValue(fields[3], CRON_FIELDS[3]) && HasValue(fields[4], CRON_FIELDS[4])
    ensures HasDays(s)
  {
    var dom := ValueSet(s.dom, fields[2], CRON_FIELDS[2]);
    var month := ValueSet(s.month, fields[3], CRON_FIELDS[3]);
    WeekdayIsSet(s.dow, fields[4]);
    assert s.dom[dom] && s.month[month];
  }

  /** The days go by the day of the month only, and 29 February is the only date of those set that ever occurs. */
  predicate LeapDayOnly(s: Schedule) {
    && s.Valid() && !s.domStar && s.dowStar && s.month[2] && s.dom[29]
    && forall month, day :: 1 <= month <= 12 && 1 <= day < 32 && s.month[month] && s.dom[day] ==> day > DaysInMonth(1, month)
  }

  /** The firings of the day are over at minute m. */
  predicate Spent(s: Schedule, m: nat)
    requires s.Valid()
  {
    forall t :: m % MINUTES_IN_A_DAY <= t < MINUTES_IN_A_DAY ==> !(s.hour[t / 60] && s.minute[t % 60])
  }

  /** From 29 February four years before a century that is no leap year, once its firings are over, up to 24 February
      of that century. */
  ghost predicate BeforeLeaplessCentury(s: Schedule, m: nat)
    requires s.Valid()
  {
    exists century: nat :: LeaplessCentury(century) && InGap(s, m, century)
  }

  predicate LeaplessCentury(century: nat) {
    century >= 100 && century % 100 == 0 && century % 400 != 0
  }

  predicate InGap(s: Schedule, m: nat, century: nat)
    requires s.Valid() && century >= 100
  {
    var day := m / MINUTES_IN_A_DAY;
    && LeapDay(century - 4) <= day <= NewYear(century) + 54
    && (day == LeapDay(century - 4) ==> Spent(s, m))
  }

  lemma MinuteOf(day: nat, hour: nat, minute: nat)
    requires hour < 24 && minute < 60
    ensures var m := day * MINUTES_IN_A_DAY + hour * 60 + minute;
      m / MINUTES_IN_A_DAY == day && m / 60 % 24 == hour && m % 60 == minute
  {
    var m := day * MINUTES_IN_A_DAY + hour * 60 + minute;
    assert m / 60 == day * 24 + hour;
  }

  /** A matching day has a firing. */
  lemma FiresOn(s: Schedule, day: nat) returns (m: nat)
    requires HasValues(s) && s.MatchDay(day)
    ensures m / MINUTES_IN_A_DAY == day && s.Fires(m)
  {
    var hour :| 0 <= hour < 24 && s.hour[hour];
    var minute :| 0 <= minute < 60 && s.minute[minute];
    m := day * MINUTES_IN_A_DAY + hour * 60 + minute;
    MinuteOf(day, hour, minute);
  }

  predicate Found(s: Schedule, after: nat)
    requires s.Valid()
  {
    !SilentFor(s, after / 60 + 1, SearchEnd(after))
  }

  function FirstDay(after: nat): nat {
    (after / 60 + 1) / MINUTES_IN_A_DAY
  }

  lemma WindowDays(after: nat, m: nat)
    ensures after / 60 + 1 <= m < SearchEnd(after) ==> FirstDay(after) <= m / MINUTES_IN_A_DAY <= FirstDay(after) + MAX_LOOKAHEAD_DAYS
    ensures FirstDay(after) < m / MINUTES_IN_A_DAY <= FirstDay(after) + MAX_LOOKAHEAD_DAYS ==> after / 60 + 1 <= m < SearchEnd(after)
  {
  }

  lemma MatchFound(s: Schedule, after: nat, day: nat)
    requires HasValues(s) && s.MatchDay(day) && FirstDay(after) < day <= FirstDay(after) + MAX_LOOKAHEAD_DAYS
    ensures Found(s, after)
  {
    var m := FiresOn(s, day);
    WindowDays(after, m);
  }

  /** The days of next year are all searched. */
  lemma NextYearSearched(first: nat, day: nat)
    requires DateOf(day).year == DateOf(first).year + 1
    ensures first < day <= first + MAX_LOOKAHEAD_DAYS
  {
    var year := DateOf(first).year;
    DayNumber(first);
    YearOfDay(first, year);
    YearOfDay(day, year + 1);
  }

  lemma CommonDate(year: nat, month: nat, day: nat)
    requires 1 <= month <= 12 && 1 <= day <= DaysInMonth(1, month)
    ensures ValidDate(Date(year, month, day))
  {
  }

  lemma WeekdayInMonth(year: nat, month: nat, weekday: nat) returns (day: nat)
    requires year >= 1 && 1 <= month <= 12 && weekday < 7
    ensures DateOf(day).year == year && DateOf(day).month == month && Weekday(day) == weekday
  {
    var start := DayOf(year, month, 1);
    var k := (weekday + 7 - Weekday(start)) % 7;
    day := DayOf(year, month, 1 + k);
    DateAt(year, month, 1 + k);
    WeekdayAfter(start, weekday, k);
  }

  lemma WeekdayAfter(start: nat, weekday: nat, k: nat)
    requires weekday < 7 && k == (weekday + 7 - Weekday(start)) % 7
    ensures Weekday(start + k) == weekday
  {
  }

  /** Unless only the day of the month decides, some day of next year matches. */
  lemma WeekdaysFound(s: Schedule, after: nat)
    requires HasValues(s) && (s.domStar || !s.dowStar)
    ensures Found(s, after)
  {
    var month :| 1 <= month < 13 && s.month[month];
    var weekday :| 0 <= weekday < 7 && s.dow[weekday];
    DayNumber(FirstDay(after));
    var day := WeekdayInMonth(DateOf(FirstDay(after)).year + 1, month, weekday);
    NextYearSearched(FirstDay(after), day);
    MatchFound(s, after, day);
  }

  /** A date that every year has is found next year. */
  lemma DateFound(s: Schedule, after: nat, month: nat, day: nat)
    requires HasValues(s) && !s.domStar && s.dowStar
    requires 1 <= month <= 12 && 1 <= day <= DaysInMonth(1, month) && s.month[month] && s.dom[day]
    ensures Found(s, after)
  {
    var year := DateOf(FirstDay(after)).year + 1;
    CommonDate(year, month, day);
    DateAt(year, month, day);
    NextYearSearched(FirstDay(after), DayOf(year, month, day));
    MatchFound(s, after, DayOf(year, month, day));
  }

  /** A firing that the search misses makes the schedule one of leap days only. */
  lemma MissedIsLeapDay(s: Schedule, after: nat, m: nat)
    requires HasValues(s) && s.Fires(m) && !Found(s, after)
    ensures LeapDayOnly(s)
  {
    if s.domStar || !s.dowStar {
      WeekdaysFound(s, after);
    } else {
      forall month, day | 1 <= month <= 12 && 1 <= day < 32 && s.month[month] && s.dom[day]
        ensures day > DaysInMonth(1, month)
      {
        if day <= DaysInMonth(1, month) { DateFound(s, after, month, day); }
      }
      var d := DateOf(m / MINUTES_IN_A_DAY);
      assert d.day > DaysInMonth(1, d.month);
    }
  }

  // ---- where the leap days are ----

  lemma FourYears(year: nat)
    requires year >= 1 && year % 4 == 0
    ensures NewYear(year + 4) == NewYear(year) + 1460 + (if Leap(year) then 1 else 0)
    ensures !Leap(year + 1) && !Leap(year + 2) && !Leap(year + 3)
    ensures !Leap(year) ==> Leap(year + 4)
  {
    assert NewYear(year + 2) == NewYear(year + 1) + YearLength(year + 1);
    assert NewYear(year + 4) == NewYear(year + 3) + YearLength(year + 3);
  }

  lemma FourthYear()
    ensures NewYear(4) == 1095
  {
    assert NewYear(2) == 365;
    assert NewYear(3) == 730;
  }

  /** A multiple of four whose 29 February, if it has one, is the next one to come. */
  predicate IsNextFourth(year: nat, day: nat, spent: bool) {
    && year >= 4 && year % 4 == 0 && day <= LeapDay(year) && (spent ==> day < LeapDay(year))
    && (year > 4 ==> LeapDay(year - 4) <= day && (!spent ==> LeapDay(year - 4) < day))
  }

  lemma {:induction false} NextFourth(day: nat, spent: bool) returns (year: nat)
    ensures IsNextFourth(year, day, spent)
  {
    FourthYear();
    if day == 0 {
      year := 4;
    } else {
      year := NextFourth(day - 1, spent);
      if LeapDay(year) < day || (spent && LeapDay(year) == day) {
        FourYears(year);
        year := year + 4;
      }
    }
  }

  lemma NextFourthNear(year: nat, day: nat, spent: bool)
    requires IsNextFourth(year, day, spent)
    ensures LeapDay(year) <= day + 1461
  {
    FourthYear();
    if year > 4 { FourYears(year - 4); }
  }

  /** Either a leap day that is still to come is among the days searched, or the start is in the gap. */
  lemma LeapDayAhead(s: Schedule, after: nat) returns (year: nat)
    requires s.Valid() && !BeforeLeaplessCentury(s, after / 60 + 1)
    ensures year >= 1 && Leap(year) && FirstDay(after) <= LeapDay(year) <= FirstDay(after) + MAX_LOOKAHEAD_DAYS
    ensures LeapDay(year) == FirstDay(after) ==> !Spent(s, after / 60 + 1)
  {
    var first, spent := FirstDay(after), Spent(s, after / 60 + 1);
    var next := NextFourth(first, spent);
    if Leap(next) {
      year := next;
      NextFourthNear(next, first, spent);
    } else {
      year := next + 4;
      FourYears(next);
      OutsideGap(s, after / 60 + 1, next);
    }
  }

  lemma OutsideGap(s: Schedule, m: nat, year: nat)
    requires s.Valid() && year > 4 && year % 4 == 0 && !Leap(year) && !BeforeLeaplessCentury(s, m)
    requires LeapDay(year - 4) <= m / MINUTES_IN_A_DAY && (LeapDay(year - 4) == m / MINUTES_IN_A_DAY ==> Spent(s, m))
    ensures m / MINUTES_IN_A_DAY > NewYear(year) + 54
  {
    assert LeaplessCentury(year) && !InGap(s, m, year);
  }

  lemma SpentIsSilent(s: Schedule, m: nat, t: nat)
    requires s.Valid() && Spent(s, m) && m <= t && t / MINUTES_IN_A_DAY == m / MINUTES_IN_A_DAY
    ensures !s.Fires(t)
  {
    var u := t % MINUTES_IN_A_DAY;
    assert t / 60 % 24 == u / 60 && t % 60 == u % 60;
  }

  lemma NotSpentFires(s: Schedule, m: nat) returns (t: nat)
    requires s.Valid() && !Spent(s, m) && s.MatchDay(m / MINUTES_IN_A_DAY)
    ensures m <= t && t / MINUTES_IN_A_DAY == m / MINUTES_IN_A_DAY && s.Fires(t)
  {
    var u :| m % MINUTES_IN_A_DAY <= u < MINUTES_IN_A_DAY && s.hour[u / 60] && s.minute[u % 60];
    t := m / MINUTES_IN_A_DAY * MINUTES_IN_A_DAY + u;
    MinuteOf(m / MINUTES_IN_A_DAY, u / 60, u % 60);
    assert t == m / MINUTES_IN_A_DAY * MINUTES_IN_A_DAY + u / 60 * 60 + u % 60;
  }

  lemma LeapDayFound(s: Schedule, after: nat)
    requires HasValues(s) && LeapDayOnly(s) && !BeforeLeaplessCentury(s, after / 60 + 1)
    ensures Found(s, after)
  {
    var year := LeapDayAhead(s, after);
    LeapDayDate(year);
    if LeapDay(year) == FirstDay(after) {
      var t := NotSpentFires(s, after / 60 + 1);
      TodayInWindow(after, t);
    } else {
      MatchFound(s, after, LeapDay(year));
    }
  }

  lemma TodayInWindow(after: nat, t: nat)
    requires after / 60 + 1 <= t && t / MINUTES_IN_A_DAY == FirstDay(after)
    ensures t < SearchEnd(after)
  {
  }

  // ---- in the gap ----

  lemma OnlyLeapDays(s: Schedule, day: nat)
    requires LeapDayOnly(s) && s.MatchDay(day)
    ensures DateOf(day).month == 2 && DateOf(day).day == 29
  {
    var d := DateOf(day);
    assert d.day > DaysInMonth(1, d.month);
  }

  /** Leap years that are not the century before, nor four years after, the leapless one are out of the way. */
  lemma LeapYearsApart(century: nat, year: nat)
    requires LeaplessCentury(century) && year >= 1 && Leap(year)
    ensures year < century - 4 ==> LeapDay(year) < LeapDay(century - 4)
    ensures year > century - 4 ==> LeapDay(year) >= NewYear(century) + 1460 + 59
  {
    if year < century - 4 { NewYearGrows(year, century - 4); }
    if year > century - 4 {
      NoLeapYearBetween(century, year);
      FourYears(century);
      if year > century + 4 { NewYearGrows(century + 4, year); }
    }
  }

  lemma NoLeapYearBetween(century: nat, year: nat)
    requires LeaplessCentury(century) && Leap(year) && year > century - 4
    ensures year >= century + 4
  {
    FourYears(century - 4);
    FourYears(century);
  }

  lemma GapIsSilent(s: Schedule, after: nat, century: nat)
    requires LeapDayOnly(s) && LeaplessCentury(century) && InGap(s, after / 60 + 1, century)
    ensures !Found(s, after)
  {
    forall m | after / 60 + 1 <= m < SearchEnd(after) ensures !s.Fires(m) {
      var day := m / MINUTES_IN_A_DAY;
      WindowDays(after, m);
      if s.MatchDay(day) {
        OnlyLeapDays(s, day);
        LeapDate(day);
        LeapYearsApart(century, DateOf(day).year);
        assert day == LeapDay(century - 4);
        SpentIsSilent(s, after / 60 + 1, m);
      }
    }
  }

  lemma FiresAfterGap(s: Schedule, after: nat, century: nat) returns (m: nat)
    requires HasValues(s) && LeapDayOnly(s) && LeaplessCentury(century) && InGap(s, after / 60 + 1, century)
    ensures after < m * 60 && s.Fires(m)
  {
    FourYears(century);
    LeapDayDate(century + 4);
    m := FiresOn(s, LeapDay(century + 4));
  }

  /** The search reports no firing although there is one if and only if the schedule fires on leap days only and starts
      less than four years before a 29 February that a century does not have. */
  lemma GivesUpIff(s: Schedule, after: nat)
    requires HasValues(s)
    ensures IsNext(s, after, None) && (exists m: nat :: after < m * 60 && s.Fires(m)) <==>
            LeapDayOnly(s) && BeforeLeaplessCentury(s, after / 60 + 1)
  {
    if LeapDayOnly(s) && BeforeLeaplessCentury(s, after / 60 + 1) {
      var century: nat :| LeaplessCentury(century) && InGap(s, after / 60 + 1, century);
      GapIsSilent(s, after, century);
      var m := FiresAfterGap(s, after, century);
    }
    if IsNext(s, after, None) && exists m: nat :: after < m * 60 && s.Fires(m) {
      var m: nat :| after < m * 60 && s.Fires(m);
      MissedIsLeapDay(s, after, m);
      if !BeforeLeaplessCentury(s, after / 60 + 1) { LeapDayFound(s, after); }
    }
  }

  // ---- two expressions ----

  lemma {:induction false} WordThen(w: string, rest: string)
    requires forall i :: 0 <= i < |w| ==> !IsSpace(w[i])
    ensures WordLength(w + " " + rest) == |w| && WordLength(w) == |w|
  {
    if w != "" {
      WordThen(w[1..], rest);
      assert (w + " " + rest)[1..] == w[1..] + " " + rest;
    }
  }

  /** The first word of a text, and the rest. */
  lemma FirstWord(w: string, rest: string)
    requires w != "" && forall i :: 0 <= i < |w| ==> !IsSpace(w[i])
    ensures Fields(w + " " + rest) == [w] + Fields(rest) && Fields(w) == [w]
  {
    var s := w + " " + rest;
    WordThen(w, rest);
    assert s[0] == w[0] && TrimLeft(s) == s && s[..|w|] == w && s[|w|..] == " " + rest;
    assert (" " + rest)[1..] == rest;
    assert TrimLeft(" " + rest) == TrimLeft(rest);
    assert TrimLeft(w) == w && w[..|w|] == w && w[|w|..] == "";
  }

  function Expr(fields: seq<string>): string
    requires |fields| == 5
  {
    fields[0] + " " + (fields[1] + " " + (fields[2] + " " + (fields[3] + " " + fields[4])))
  }

  predicate Word(w: string) {
    w != "" && forall i :: 0 <= i < |w| ==> !IsSpace(w[i])
  }

  lemma TrimStays(s: string)
    requires s != "" && !IsSpace(s[0]) && !IsSpace(s[|s| - 1])
    ensures TrimSpace(s) == s
  {
  }

  lemma WordStarts(w: string, rest: string)
    requires Word(w)
    ensures !IsSpace((w + " " + rest)[0])
  {
  }

  lemma WordBefore(w: string, rest: string, words: seq<string>)
    requires Word(w) && Fields(rest) == words
    ensures Fields(w + " " + rest) == [w] + words
  {
    FirstWord(w, rest);
  }

  lemma ExprWords(a: string, b: string, c: string, d: string, e: string)
    requires Word(a) && Word(b) && Word(c) && Word(d) && Word(e)
    ensures Fields(a + " " + (b + " " + (c + " " + (d + " " + e)))) == [a] + ([b] + ([c] + ([d] + [e])))
  {
    FirstWord(e, "");
    WordBefore(d, e, [e]);
    WordBefore(c, d + " " + e, [d] + [e]);
    WordBefore(b, c + " " + (d + " " + e), [c] + ([d] + [e]));
    WordBefore(a, b + " " + (c + " " + (d + " " + e)), [b] + ([c] + ([d] + [e])));
  }

  lemma ExprTrimmed(fields: seq<string>)
    requires |fields| == 5 && Word(fields[0]) && Word(fields[4])
    ensures TrimSpace(Expr(fields)) == Expr(fields)
  {
    var e := Expr(fields);
    WordStarts(fields[0], fields[1] + " " + (fields[2] + " " + (fields[3] + " " + fields[4])));
    assert e[|e| - 1] == fields[4][|fields[4]| - 1];
    TrimStays(e);
  }

  lemma ExprFields(fields: seq<string>)
    requires |fields| == 5 && Word(fields[0]) && Word(fields[1]) && Word(fields[2]) && Word(fields[3]) && Word(fields[4])
    ensures Fields(TrimSpace(Expr(fields))) == fields
  {
    ExprTrimmed(fields);
    ExprWords(fields[0], fields[1], fields[2], fields[3], fields[4]);
    assert fields == [fields[0]] + ([fields[1]] + ([fields[2]] + ([fields[3]] + [fields[4]])));
  }

  lemma NoComma(text: string)
    requires ',' !in text
    ensures Split(text, ',') == [text]
  {
  }

  const EVERY_MINUTE: seq<string> := ["*", "*", "*", "*", "*"]

  lemma EveryMinuteText()
    ensures Fields(TrimSpace(Expr(EVERY_MINUTE))) == EVERY_MINUTE
  {
    LeapDayWords();
    ExprFields(EVERY_MINUTE);
  }

  lemma EveryMinuteWritten()
    ensures Expr(EVERY_MINUTE) == "* * * * *"
  {
  }

  /** A field that is a wildcard has all its values. */
  lemma AllNamed(fields: seq<string>, j: nat)
    requires |fields| == 5 && j < 5 && fields[j] == "*"
    ensures forall v :: CRON_FIELDS[j].min <= v <= CRON_FIELDS[j].max ==> SomePartHas(Split(fields[j], ','), CRON_FIELDS[j], v)
  {
    ReadWildcard("*", CRON_FIELDS[j]);
  }

  lemma AllSet(s: Schedule, fields: seq<string>, m: nat)
    requires |fields| == 5 && (forall j :: 0 <= j < 5 ==> fields[j] == "*") && Reads(s, fields) && s.domStar && s.dowStar
    ensures s.Fires(m)
  {
    AllNamed(fields, 0);
    AllNamed(fields, 1);
    AllNamed(fields, 3);
  }

  /** "* * * * *" fires in every minute. */
  lemma EveryMinute(s: Schedule, expr: string, m: nat)
    requires expr == Expr(EVERY_MINUTE) && ReadFrom(s, expr)
    ensures s.Fires(m)
  {
    EveryMinuteText();
    EveryMinuteSet(s, EVERY_MINUTE, m);
  }

  lemma EveryMinuteSet(s: Schedule, fields: seq<string>, m: nat)
    requires |fields| == 5 && (forall j :: 0 <= j < 5 ==> fields[j] == "*") && Reads(s, fields)
    ensures s.Fires(m)
  {
    LeapDayStars();
    AllSet(s, fields, m);
  }

  const LEAP_DAY: seq<string> := ["0", "0", "29", "2", "*"]
  const PANICKING: seq<string> := ["1/9223372036854775807", "*", "*", "*", "*"]

  lemma PanickingText()
    ensures Word(PANICKING[0]) && ',' !in PANICKING[0]
  {
    MaxTextValue();
    var text := "1" + "/" + MAX_TEXT;
    forall i | 0 <= i < |text| ensures !IsSpace(text[i]) && text[i] != ',' {
      assert i >= 2 ==> text[i] == MAX_TEXT[i - 2] && IsDigit(MAX_TEXT[i - 2]);
    }
    Cron.PanickingText();
  }

  lemma PanickingWritten()
    ensures Expr(PANICKING) == "1/9223372036854775807 * * * *"
  {
  }

  /** The expression "1/9223372036854775807 * * * *" brings the parser down. */
  lemma PanickingExpression()
    ensures Expr(PANICKING) == "1/9223372036854775807 * * * *"
    ensures Fields(TrimSpace(Expr(PANICKING))) == PANICKING && CronVerdict(PANICKING, 0) == Panicked
  {
    PanickingText();
    PanickingWritten();
    ExprFields(PANICKING);
    NoComma(PANICKING[0]);
    PanickingField();
  }

  lemma ReadNumber(text: string, spec: FieldSpec)
    requires text != "" && AllDigits(text) && spec.min <= Value(text) <= spec.max < 60
    ensures Split(text, ',') == [text] && FieldVerdict([text], spec) == Parsed(())
    ensures forall v :: SomePartHas([text], spec, v) <==> v == Value(text)
  {
    assert ',' !in text by { forall i | 0 <= i < |text| ensures text[i] != ',' { assert IsDigit(text[i]); } }
    NoComma(text);
    DigitsPlain(text);
    DigitsNumber(text);
    var part := Part(Value(text), Value(text), 1);
    assert ReadPart(text, spec) == Some(part);
    OnePart(text, spec);
    forall v ensures SomePartHas([text], spec, v) <==> v == Value(text) {
      assert SomePartHas([text], spec, v) <==> PartHas([text][0], spec, v);
      TermStep(part.lo, 1, 0);
      if part.Has(v) {
        var k: nat :| v == Term(part.lo, 1, k);
      }
    }
  }

  lemma WildcardPart(text: string, spec: FieldSpec)
    requires text in {"*", "?"} && spec.max < 60 && spec.min <= spec.max
    ensures Split(text, ',') == [text] && ReadPart(text, spec) == Some(Part(spec.min, spec.max, 1))
  {
    NoComma(text);
    TrimStays(text);
    assert Index(text, '/') == -1;
  }

  lemma ReadWildcard(text: string, spec: FieldSpec)
    requires text in {"*", "?"} && spec.max < 60 && spec.min <= spec.max
    ensures Split(text, ',') == [text] && FieldVerdict([text], spec) == Parsed(())
    ensures forall v :: spec.min <= v <= spec.max ==> SomePartHas([text], spec, v)
  {
    WildcardPart(text, spec);
    OnePart(text, spec);
    forall v | spec.min <= v <= spec.max ensures SomePartHas([text], spec, v) {
      assert v == Term(spec.min, 1, v - spec.min);
      assert PartHas([text][0], spec, v);
    }
  }

  lemma TwoDigits()
    ensures AllDigits("29") && Value("29") == 29
  {
    DigitText('2');
    OneMore("2", '9', 2);
    assert "2" + ['9'] == "29";
  }

  lemma LeapDayReads()
    ensures forall v :: SomePartHas(Split("0", ','), CRON_FIELDS[0], v) <==> v == 0
    ensures forall v :: SomePartHas(Split("0", ','), CRON_FIELDS[1], v) <==> v == 0
    ensures forall v :: SomePartHas(Split("29", ','), CRON_FIELDS[2], v) <==> v == 29
    ensures forall v :: SomePartHas(Split("2", ','), CRON_FIELDS[3], v) <==> v == 2
    ensures forall v :: 0 <= v <= 7 ==> SomePartHas(Split("*", ','), CRON_FIELDS[4], v)
    ensures FieldVerdict(Split("0", ','), CRON_FIELDS[0]) == FieldVerdict(Split("0", ','), CRON_FIELDS[1]) == Parsed(())
    ensures FieldVerdict(Split("29", ','), CRON_FIELDS[2]) == FieldVerdict(Split("2", ','), CRON_FIELDS[3]) == Parsed(())
    ensures FieldVerdict(Split("*", ','), CRON_FIELDS[4]) == Parsed(())
  {
    DigitText('0');
    DigitText('2');
    TwoDigits();
    ReadNumber("0", CRON_FIELDS[0]);
    ReadNumber("0", CRON_FIELDS[1]);
    ReadNumber("29", CRON_FIELDS[2]);
    ReadNumber("2", CRON_FIELDS[3]);
    ReadWildcard("*", CRON_FIELDS[4]);
  }

  lemma VerdictStep(fields: seq<string>, i: nat)
    requires |fields| == 5 && i < 5 && FieldVerdict(Split(fields[i], ','), CRON_FIELDS[i]) == Parsed(())
    ensures CronVerdict(fields, i) == CronVerdict(fields, i + 1)
  {
  }

  lemma LeapDayWritten()
    ensures Expr(LEAP_DAY) == "0 0 29 2 *"
  {
  }

  lemma LeapDayWords()
    ensures Word("0") && Word("29") && Word("2") && Word("*")
  {
  }

  lemma LeapDayAccepted()
    ensures CronVerdict(LEAP_DAY, 0) == Parsed(())
  {
    LeapDayReads();
    VerdictStep(LEAP_DAY, 0);
    VerdictStep(LEAP_DAY, 1);
    VerdictStep(LEAP_DAY, 2);
    VerdictStep(LEAP_DAY, 3);
    VerdictStep(LEAP_DAY, 4);
  }

  /** "0 0 29 2 *" is accepted. */
  lemma LeapDayFields()
    ensures Expr(LEAP_DAY) == "0 0 29 2 *" && Fields(TrimSpace(Expr(LEAP_DAY))) == LEAP_DAY
    ensures CronVerdict(LEAP_DAY, 0) == Parsed(())
  {
    LeapDayWritten();
    LeapDayWords();
    ExprFields(LEAP_DAY);
    LeapDayAccepted();
  }

  lemma LeapDayStars()
    ensures !IsCronWildcard("29") && IsCronWildcard("*")
  {
    TrimStays("29");
    TrimStays("*");
  }

  lemma LeapDayDates(s: Schedule)
    requires Reads(s, LEAP_DAY)
    ensures (forall d :: 1 <= d < 32 ==> (s.dom[d] <==> d == 29)) && (forall m :: 1 <= m < 13 ==> (s.month[m] <==> m == 2))
  {
    LeapDayReads();
  }

  lemma LeapDayBits(s: Schedule)
    requires Reads(s, LEAP_DAY)
    ensures s.Valid() && s.minute[0] && s.hour[0] && s.dow[0] && !s.domStar && s.dowStar
    ensures (forall d :: 1 <= d < 32 ==> (s.dom[d] <==> d == 29)) && (forall m :: 1 <= m < 13 ==> (s.month[m] <==> m == 2))
  {
    LeapDayDates(s);
    LeapDayStars();
    LeapDayTimes(s);
  }

  lemma LeapDayTimes(s: Schedule)
    requires Reads(s, LEAP_DAY)
    ensures s.minute[0] && s.hour[0] && s.dow[0]
  {
    LeapDayReads();
    assert WeekdaySet(LEAP_DAY[4], 0);
  }

  /** What "0 0 29 2 *" is read as. */
  lemma LeapDaySchedule(s: Schedule)
    requires Reads(s, LEAP_DAY)
    ensures LeapDayOnly(s) && HasValues(s) && s.hour[0] && s.minute[0]
  {
    LeapDayBits(s);
  }

  lemma AfterLeapDay(s: Schedule, century: nat, after: nat)
    requires s.Valid() && LeaplessCentury(century) && after == (LeapDay(century - 4) + 1) * MINUTES_IN_A_DAY * 60
    ensures InGap(s, after / 60 + 1, century)
  {
    FourYears(century - 4);
    assert after / 60 == (LeapDay(century - 4) + 1) * MINUTES_IN_A_DAY;
    assert (after / 60 + 1) / MINUTES_IN_A_DAY == LeapDay(century - 4) + 1;
  }

  lemma NextLeapDay(s: Schedule, century: nat)
    requires LeapDayOnly(s) && s.hour[0] && s.minute[0] && LeaplessCentury(century)
    ensures s.Fires(LeapDay(century + 4) * MINUTES_IN_A_DAY) && LeapDay(century - 4) + 1 < LeapDay(century + 4)
  {
    FourYears(century - 4);
    FourYears(century);
    LeapDayDate(century + 4);
    MinuteOf(LeapDay(century + 4), 0, 0);
  }

  lemma LaterDay(a: nat, b: nat)
    requires a < b
    ensures a * MINUTES_IN_A_DAY * 60 < b * MINUTES_IN_A_DAY * 60
  {
  }

  /** "0 0 29 2 *", asked on 1 March four years before a century such as 2100: no firing is reported, although midnight of
      29 February four years after the century is one. */
  lemma SearchGivesUp(s: Schedule, after: nat, century: nat)
    requires Reads(s, LEAP_DAY) && LeaplessCentury(century)
    requires after == (LeapDay(century - 4) + 1) * MINUTES_IN_A_DAY * 60
    ensures IsNext(s, after, None) && s.Fires(LeapDay(century + 4) * MINUTES_IN_A_DAY)
    ensures after < LeapDay(century + 4) * MINUTES_IN_A_DAY * 60 && LeaplessCentury(2100)
  {
    LeapDaySchedule(s);
    AfterLeapDay(s, century, after);
    GapIsSilent(s, after, century);
    NextLeapDay(s, century);
    LaterDay(LeapDay(century - 4) + 1, LeapDay(century + 4));
  }
}
