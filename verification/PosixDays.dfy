/** The days a cron expression means to the POSIX crontab utility, read off the text of its fields, against the days the
    parsed schedule matches: exactly which expressions mean the same to both. */
module PosixDays {
  import opened Status
  import opened Text
  import opened Calendar
  import opened Cron
  import opened CronSchedule
  import opened CronReach

  /** Field j of the expression has the value. */
  ghost predicate Names(fields: seq<string>, j: nat, v: int)
    requires |fields| == 5 && j < 5
  {
    SomePartHas(Split(fields[j], ','), CRON_FIELDS[j], v)
  }

  /** The rule of IEEE Std 1003.1, crontab. With an asterisk for the day of the week, the month and the day of the month
      decide. With one for both of these, the day of the week decides. Else a day matches by month and day of the month,
      or by day of the week. The asterisk is a wildcard as the code has it, so `?` is one too. */
  ghost predicate PosixDay(fields: seq<string>, n: nat)
    requires |fields| == 5
  {
    var date := Names(fields, 3, DateOf(n).month) && Names(fields, 2, DateOf(n).day);
    if IsCronWildcard(fields[4]) then date
    else if IsCronWildcard(fields[3]) && IsCronWildcard(fields[2]) then WeekdaySet(fields[4], Weekday(n))
    else date || WeekdaySet(fields[4], Weekday(n))
  }

  ghost predicate PosixFires(fields: seq<string>, m: nat)
    requires |fields| == 5
  {
    PosixDay(fields, m / MINUTES_IN_A_DAY) && Names(fields, 1, m / 60 % 24) && Names(fields, 0, m % 60)
  }

  /** The fields do not restrict the weekday, or not the month by their text, or not the month at all and not, with a
      wildcard for the day of the month, the weekday either. */
  ghost predicate SameRule(fields: seq<string>)
    requires |fields| == 5
  {
    || IsCronWildcard(fields[4]) || IsCronWildcard(fields[3])
    || (AllMonths(fields) && (IsCronWildcard(fields[2]) ==> AllWeekdays(fields)))
  }

  ghost predicate AllMonths(fields: seq<string>)
    requires |fields| == 5
  {
    forall v :: 1 <= v <= 12 ==> Names(fields, 3, v)
  }

  ghost predicate AllWeekdays(fields: seq<string>)
    requires |fields| == 5
  {
    forall v :: 0 <= v <= 6 ==> WeekdaySet(fields[4], v)
  }

  // ---- wildcards ----

  lemma WildcardNamesAll(fields: seq<string>, j: nat)
    requires |fields| == 5 && j < 5 && Word(fields[j]) && IsCronWildcard(fields[j])
    ensures forall v :: CRON_FIELDS[j].min <= v <= CRON_FIELDS[j].max ==> Names(fields, j, v)
  {
    TrimStays(fields[j]);
    ReadWildcard(fields[j], CRON_FIELDS[j]);
  }

  lemma DateInRange(n: nat)
    ensures 1 <= DateOf(n).month <= 12 && 1 <= DateOf(n).day <= 31
  {
  }

  /** The three marks of a day that both rules look at. */
  lemma DayMarks(s: Schedule, fields: seq<string>, n: nat)
    requires |fields| == 5 && Reads(s, fields)
    ensures var d := DateOf(n);
      && 1 <= d.month <= 12 && 1 <= d.day <= 31
      && (s.month[d.month] <==> Names(fields, 3, d.month))
      && (s.dom[d.day] <==> Names(fields, 2, d.day))
      && (s.dow[Weekday(n)] <==> WeekdaySet(fields[4], Weekday(n)))
  {
    DateInRange(n);
  }

  lemma WildcardMarks(fields: seq<string>, n: nat)
    requires |fields| == 5 && Word(fields[2]) && Word(fields[3])
    ensures IsCronWildcard(fields[3]) ==> Names(fields, 3, DateOf(n).month)
    ensures IsCronWildcard(fields[2]) ==> Names(fields, 2, DateOf(n).day)
  {
    DateInRange(n);
    if IsCronWildcard(fields[3]) { WildcardNamesAll(fields, 3); }
    if IsCronWildcard(fields[2]) { WildcardNamesAll(fields, 2); }
  }

  // ---- where the rules agree ----

  lemma SameDays(s: Schedule, fields: seq<string>, n: nat)
    requires |fields| == 5 && Reads(s, fields) && Word(fields[2]) && Word(fields[3]) && SameRule(fields)
    ensures s.MatchDay(n) <==> PosixDay(fields, n)
  {
    DayMarks(s, fields, n);
    WildcardMarks(fields, n);
  }

  lemma SameMinutes(s: Schedule, fields: seq<string>, m: nat)
    requires |fields| == 5 && Reads(s, fields) && Word(fields[2]) && Word(fields[3]) && SameRule(fields)
    ensures s.Fires(m) <==> PosixFires(fields, m)
  {
    SameDays(s, fields, m / MINUTES_IN_A_DAY);
    TimeMarks(s, fields, m);
  }

  lemma TimeMarks(s: Schedule, fields: seq<string>, m: nat)
    requires |fields| == 5 && Reads(s, fields)
    ensures (s.hour[m / 60 % 24] <==> Names(fields, 1, m / 60 % 24)) && (s.minute[m % 60] <==> Names(fields, 0, m % 60))
  {
  }

  // ---- and where not ----

  lemma WeekdayAhead(first: nat, weekday: nat) returns (k: nat)
    requires weekday < 7
    ensures k < 7 && Weekday(first + k) == weekday
  {
    var w := Weekday(first);
    k := if w <= weekday then weekday - w else weekday + 7 - w;
    assert first + 1 == 7 * ((first + 1) / 7) + w;
    assert first + k + 1 == 7 * ((first + 1) / 7) + (if w <= weekday then weekday else weekday + 7);
  }

  /** Some day of every year has that month and that weekday. */
  lemma DayWith(year: nat, month: nat, weekday: nat) returns (n: nat)
    requires year >= 1 && 1 <= month <= 12 && weekday < 7
    ensures DateOf(n).year == year && DateOf(n).month == month && Weekday(n) == weekday
  {
    var first := DayOf(year, month, 1);
    var k := WeekdayAhead(first, weekday);
    n := DayOf(year, month, 1 + k);
    DateAt(year, month, 1 + k);
    assert n == first + k;
  }

  /** Such a day is one to POSIX by its weekday, or by its month and any day of it, and none to the code. */
  lemma DifferentDay(s: Schedule, fields: seq<string>, year: nat) returns (n: nat)
    requires year >= 1 && |fields| == 5 && Reads(s, fields) && Word(fields[2]) && Word(fields[3]) && HasDays(s) && !SameRule(fields)
    ensures PosixDay(fields, n) && !s.MatchDay(n)
  {
    if !AllMonths(fields) {
      var month :| 1 <= month <= 12 && !Names(fields, 3, month);
      var weekday :| 0 <= weekday < 7 && s.dow[weekday];
      n := DayWith(year, month, weekday);
    } else {
      var weekday :| 0 <= weekday <= 6 && !WeekdaySet(fields[4], weekday);
      var month: nat :| 1 <= month <= 12;
      n := DayWith(year, month, weekday);
    }
    DayMarks(s, fields, n);
    WildcardMarks(fields, n);
  }

  /** A minute whose hour and minute are set is judged by its day. */
  lemma JudgedByDay(s: Schedule, fields: seq<string>, n: nat, hour: nat, minute: nat, m: nat)
    requires |fields| == 5 && Reads(s, fields) && hour < 24 && minute < 60 && s.hour[hour] && s.minute[minute]
    requires m / MINUTES_IN_A_DAY == n && m / 60 % 24 == hour && m % 60 == minute
    ensures (s.Fires(m) <==> s.MatchDay(n)) && (PosixFires(fields, m) <==> PosixDay(fields, n))
  {
    TimeMarks(s, fields, m);
  }

  lemma MinuteOn(n: nat, hour: nat, minute: nat) returns (m: nat)
    requires hour < 24 && minute < 60
    ensures m / MINUTES_IN_A_DAY == n && m / 60 % 24 == hour && m % 60 == minute
  {
    m := n * MINUTES_IN_A_DAY + hour * 60 + minute;
    MinuteOf(n, hour, minute);
  }

  lemma DifferentMinute(s: Schedule, fields: seq<string>, year: nat) returns (m: nat)
    requires year >= 1 && |fields| == 5 && Reads(s, fields) && Word(fields[2]) && Word(fields[3]) && HasValues(s) && !SameRule(fields)
    ensures PosixFires(fields, m) && !s.Fires(m)
  {
    var n := DifferentDay(s, fields, year);
    var hour :| 0 <= hour < 24 && s.hour[hour];
    var minute :| 0 <= minute < 60 && s.minute[minute];
    m := MinuteOn(n, hour, minute);
    JudgedByDay(s, fields, n, hour, minute, m);
  }

  /** For every expression the parser accepts: its schedule fires in the minutes POSIX has it fire in, all of them and no
      others, if and only if it does not restrict the weekday, or its month is a wildcard, or it names all months and,
      with a wildcard for the day of the month, all weekdays. */
  lemma RulesAgreeIff(s: Schedule, expr: string)
    requires ReadFrom(s, expr)
    ensures var fields := Fields(TrimSpace(expr));
      SameRule(fields) <==> forall m: nat :: s.Fires(m) <==> PosixFires(fields, m)
  {
    var fields := Fields(TrimSpace(expr));
    assert Word(fields[2]) && Word(fields[3]);
    if SameRule(fields) {
      forall m: nat ensures s.Fires(m) <==> PosixFires(fields, m) { SameMinutes(s, fields, m); }
    } else {
      ParsedHasValues(s, fields);
      var m := DifferentMinute(s, fields, 2026);
    }
  }

  // ---- the search and the listing, by the POSIX rule ----

  /** The first firing after second `after` by the POSIX rule, in the search window. */
  ghost predicate IsPosixNext(fields: seq<string>, after: nat, next: Option<nat>)
    requires |fields| == 5
  {
    var start, end := after / 60 + 1, SearchEnd(after);
    match next
    case Some(m) => start <= m < end && PosixFires(fields, m) && forall k :: start <= k < m ==> !PosixFires(fields, k)
    case None => forall k :: start <= k < end ==> !PosixFires(fields, k)
  }

  /** What Next returns is then the next minute POSIX names. */
  lemma NextIsPosix(s: Schedule, expr: string, after: nat, next: Option<nat>)
    requires ReadFrom(s, expr) && SameRule(Fields(TrimSpace(expr)))
    ensures IsNext(s, after, next) <==> IsPosixNext(Fields(TrimSpace(expr)), after, next)
  {
    RulesAgreeIff(s, expr);
  }

  /** And a listing by asking again and again has all of them up to its end and nothing else. */
  lemma ListingIsPosix(s: Schedule, expr: string, after: nat, list: seq<nat>, m: nat)
    requires ReadFrom(s, expr) && SameRule(Fields(TrimSpace(expr))) && Listing(s, after, list) && list != []
    requires after / 60 < m <= list[|list| - 1]
    ensures m in list <==> PosixFires(Fields(TrimSpace(expr)), m)
  {
    RulesAgreeIff(s, expr);
    ListingComplete(s, after, list);
  }

  // ---- one expression that means different days ----

  const FEBRUARY_OR_MONDAY: seq<string> := ["0", "0", "*", "2", "1"]

  lemma FebruaryWritten()
    ensures Expr(FEBRUARY_OR_MONDAY) == "0 0 * 2 1"
  {
  }

  lemma FebruaryWords()
    ensures Word("0") && Word("*") && Word("2") && Word("1")
  {
  }

  lemma FebruaryReads()
    ensures forall v :: SomePartHas(Split("0", ','), CRON_FIELDS[0], v) <==> v == 0
    ensures forall v :: SomePartHas(Split("0", ','), CRON_FIELDS[1], v) <==> v == 0
    ensures forall v :: 1 <= v <= 31 ==> SomePartHas(Split("*", ','), CRON_FIELDS[2], v)
    ensures forall v :: SomePartHas(Split("2", ','), CRON_FIELDS[3], v) <==> v == 2
    ensures forall v :: SomePartHas(Split("1", ','), CRON_FIELDS[4], v) <==> v == 1
    ensures FieldVerdict(Split("0", ','), CRON_FIELDS[0]) == FieldVerdict(Split("0", ','), CRON_FIELDS[1]) == Parsed(())
    ensures FieldVerdict(Split("*", ','), CRON_FIELDS[2]) == FieldVerdict(Split("2", ','), CRON_FIELDS[3]) == Parsed(())
    ensures FieldVerdict(Split("1", ','), CRON_FIELDS[4]) == Parsed(())
  {
    DigitText('0');
    DigitText('1');
    DigitText('2');
    ReadNumber("0", CRON_FIELDS[0]);
    ReadNumber("0", CRON_FIELDS[1]);
    ReadWildcard("*", CRON_FIELDS[2]);
    ReadNumber("2", CRON_FIELDS[3]);
    ReadNumber("1", CRON_FIELDS[4]);
  }

  lemma FebruaryAccepted()
    ensures CronVerdict(FEBRUARY_OR_MONDAY, 0) == Parsed(())
  {
    FebruaryReads();
    VerdictStep(FEBRUARY_OR_MONDAY, 0);
    VerdictStep(FEBRUARY_OR_MONDAY, 1);
    VerdictStep(FEBRUARY_OR_MONDAY, 2);
    VerdictStep(FEBRUARY_OR_MONDAY, 3);
    VerdictStep(FEBRUARY_OR_MONDAY, 4);
  }

  lemma FebruaryWildcards()
    ensures !IsCronWildcard("1") && !IsCronWildcard("2") && IsCronWildcard("*")
  {
    TrimStays("1");
    TrimStays("2");
    TrimStays("*");
  }

  lemma FebruaryMarks(s: Schedule)
    requires Reads(s, FEBRUARY_OR_MONDAY)
    ensures s.minute[0] && s.hour[0] && s.domStar && !s.dowStar
    ensures forall d :: 1 <= d <= 31 ==> s.dom[d]
    ensures forall v :: 1 <= v <= 12 ==> (s.month[v] <==> v == 2)
    ensures forall v :: 0 <= v <= 6 ==> (s.dow[v] <==> v == 1)
  {
    FebruaryReads();
    FebruaryWildcards();
  }

  /** With months and weekdays restricted and the day of the month free, a day that has only one of the two. */
  lemma OnlyOne(s: Schedule, fields: seq<string>, n: nat, m: nat)
    requires |fields| == 5 && Reads(s, fields) && s.minute[0] && s.hour[0]
    requires IsCronWildcard(fields[2]) && !IsCronWildcard(fields[3]) && !IsCronWildcard(fields[4])
    requires forall d :: 1 <= d <= 31 ==> s.dom[d]
    requires s.month[DateOf(n).month] != s.dow[Weekday(n)] && Midnight(n, m)
    ensures PosixFires(fields, m) && !s.Fires(m)
  {
    OnlyOneDay(s, fields, n);
    JudgedByDay(s, fields, n, 0, 0, m);
  }

  /** Minute `m` is midnight of day `n`. */
  predicate Midnight(n: nat, m: nat) {
    m / MINUTES_IN_A_DAY == n && m / 60 % 24 == 0 && m % 60 == 0
  }

  lemma OnlyOneDay(s: Schedule, fields: seq<string>, n: nat)
    requires |fields| == 5 && Reads(s, fields)
    requires IsCronWildcard(fields[2]) && !IsCronWildcard(fields[3]) && !IsCronWildcard(fields[4])
    requires forall d :: 1 <= d <= 31 ==> s.dom[d]
    requires s.month[DateOf(n).month] != s.dow[Weekday(n)]
    ensures PosixDay(fields, n) && !s.MatchDay(n)
  {
    DayMarks(s, fields, n);
  }

  lemma FebruaryText()
    ensures Expr(FEBRUARY_OR_MONDAY) == "0 0 * 2 1" && Fields(TrimSpace(Expr(FEBRUARY_OR_MONDAY))) == FEBRUARY_OR_MONDAY
    ensures CronVerdict(FEBRUARY_OR_MONDAY, 0) == Parsed(())
  {
    FebruaryWritten();
    FebruaryWords();
    ExprFields(FEBRUARY_OR_MONDAY);
    FebruaryAccepted();
  }

  /** "0 0 * 2 1" fires on every day of February and on every Monday to POSIX, and only on Mondays of February here: in every
      year, midnight of some Tuesday in February and of some Monday in January are among the firings that are missing. */
  lemma FebruaryMondays(s: Schedule, year: nat) returns (tuesday: nat, monday: nat, m: nat, k: nat)
    requires ReadFrom(s, "0 0 * 2 1") && year >= 1
    ensures DateOf(tuesday).year == year && DateOf(tuesday).month == 2 && Weekday(tuesday) == 2 && Midnight(tuesday, m)
    ensures DateOf(monday).year == year && DateOf(monday).month == 1 && Weekday(monday) == 1 && Midnight(monday, k)
    ensures PosixFires(FEBRUARY_OR_MONDAY, m) && !s.Fires(m) && PosixFires(FEBRUARY_OR_MONDAY, k) && !s.Fires(k)
    ensures Fields(TrimSpace("0 0 * 2 1")) == FEBRUARY_OR_MONDAY && CronVerdict(FEBRUARY_OR_MONDAY, 0).Parsed?
  {
    FebruaryText();
    FebruaryMarks(s);
    FebruaryWildcards();
    tuesday := DayWith(year, 2, 2);
    monday := DayWith(year, 1, 1);
    m := MinuteOn(tuesday, 0, 0);
    k := MinuteOn(monday, 0, 0);
    OnlyOne(s, FEBRUARY_OR_MONDAY, tuesday, m);
    OnlyOne(s, FEBRUARY_OR_MONDAY, monday, k);
  }
}
