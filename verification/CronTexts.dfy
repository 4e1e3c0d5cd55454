/** Cron expressions as they are written: which minutes the text names, without the parser, and that the parser takes
    every such text exactly so. */
module CronTexts {
  import opened Status
  import opened Text
  import opened Decimal
  import opened Calendar
  import opened Cron
  import opened CronSchedule
  import opened CronReach

  datatype Range = All | Only(n: nat) | FromTo(lo: nat, hi: nat)

  /** What stands between two commas. */
  datatype Piece = Piece(range: Range, every: Option<nat>)
  {
    function Written(): string {
      RangeText(range) + (match every case None => "" case Some(n) => "/" + Itoa(n))
    }

    function Low(spec: FieldSpec): nat {
      match range case All => spec.min case Only(n) => n case FromTo(lo, _) => lo
    }

    function High(spec: FieldSpec): nat {
      match range case All => spec.max case Only(n) => n case FromTo(_, hi) => hi
    }

    function Step(): nat {
      if every.None? then 1 else every.value
    }

    /** Within the bounds of the field, and the 64-bit loop over its values does not run over. */
    predicate Fits(spec: FieldSpec) {
      spec.min <= Low(spec) <= High(spec) <= spec.max && 0 < Step() && Low(spec) + Step() <= MAX_INT64
    }

    /** The values it names: every so many, from the lower end to the upper. */
    predicate Says(spec: FieldSpec, v: int)
      requires Step() > 0
    {
      OnSteps(Low(spec), High(spec), Step(), v)
    }
  }

  /** The value is on the way from one to the other in such steps. */
  predicate OnSteps(lo: int, hi: int, step: nat, v: int)
    requires step > 0
  {
    lo <= v <= hi && (v - lo) % step == 0
  }

  function RangeText(range: Range): string {
    match range
    case All => "*"
    case Only(n) => Itoa(n)
    case FromTo(lo, hi) => Itoa(lo) + "-" + Itoa(hi)
  }

  // ---- one piece ----

  lemma AtoiOfItoa(n: nat)
    ensures Atoi(Itoa(n)) == if n <= MAX_INT64 then Some(n) else None
  {
    assert IsDigit(Itoa(n)[0]);
  }

  /** No blanks, commas or slashes in the text of a range, and a dash only between two numbers. */
  lemma RangePlain(range: Range)
    ensures RangeText(range) != ""
    ensures forall i :: 0 <= i < |RangeText(range)| ==> IsDigit(RangeText(range)[i]) || RangeText(range)[i] in {'*', '-'}
    ensures RangeText(range)[0] != '-'
  {
    match range
    case All =>
    case Only(n) => assert IsDigit(Itoa(n)[0]);
    case FromTo(lo, hi) => assert RangeText(range)[0] == Itoa(lo)[0] && IsDigit(Itoa(lo)[0]);
  }

  lemma WrittenPlain(p: Piece)
    ensures Word(p.Written()) && ',' !in p.Written()
  {
    RangePlain(p.range);
    var text := p.Written();
    forall i | 0 <= i < |text| ensures !IsSpace(text[i]) && text[i] != ',' {
      if i < |RangeText(p.range)| {
        assert text[i] == RangeText(p.range)[i];
      } else if i > |RangeText(p.range)| {
        assert text[i] == Itoa(p.every.value)[i - |RangeText(p.range)| - 1];
      }
    }
  }

  lemma SlashAt(p: Piece)
    ensures Index(p.Written(), '/') == if p.every.None? then -1 else |RangeText(p.range)|
    ensures p.every.Some? ==> p.Written()[..|RangeText(p.range)|] == RangeText(p.range)
    ensures p.every.Some? ==> p.Written()[|RangeText(p.range)| + 1..] == Itoa(p.every.value)
    ensures p.every.None? ==> p.Written() == RangeText(p.range)
  {
    RangePlain(p.range);
    var text, n := p.Written(), |RangeText(p.range)|;
    assert forall i :: 0 <= i < n ==> text[i] == RangeText(p.range)[i] && text[i] != '/';
    if p.every.Some? { assert text[n] == '/'; }
  }

  lemma RangeReadsBack(range: Range, spec: FieldSpec)
    requires range.Only? ==> range.n <= MAX_INT64
    requires range.FromTo? ==> range.lo <= MAX_INT64 && range.hi <= MAX_INT64
    ensures ReadRange(RangeText(range), spec) == Some((Piece(range, None).Low(spec), Piece(range, None).High(spec)))
  {
    match range
    case All =>
    case Only(n) =>
      DigitsPlain(Itoa(n));
      AtoiOfItoa(n);
    case FromTo(lo, hi) =>
      AtoiOfItoa(lo);
      AtoiOfItoa(hi);
      DigitsPlain(Itoa(lo));
      DigitsPlain(Itoa(hi));
      BetweenReadsBack(Itoa(lo), Itoa(hi), lo, hi, spec);
  }

  /** Two numbers with a dash between them. */
  lemma BetweenReadsBack(a: string, b: string, lo: nat, hi: nat, spec: FieldSpec)
    requires a != "" && AllDigits(a) && TrimSpace(a) == a && Atoi(a) == Some(lo)
    requires b != "" && AllDigits(b) && TrimSpace(b) == b && Atoi(b) == Some(hi)
    ensures ReadRange(a + "-" + b, spec) == Some((lo, hi))
  {
    var text := a + "-" + b;
    DashAt(a, b);
    assert text[..|a|] == a && text[|a| + 1..] == b;
    DashReads(text, |a|, spec, lo, hi);
  }

  lemma DashReads(text: string, dash: nat, spec: FieldSpec, lo: int, hi: int)
    requires TrimSpace(text) == text && |text| >= 2 && Index(text, '-') == dash < |text|
    requires Atoi(TrimSpace(text[..dash])) == Some(lo) && Atoi(TrimSpace(text[dash + 1..])) == Some(hi)
    ensures ReadRange(text, spec) == Some((lo, hi))
  {
  }

  lemma DashAt(a: string, b: string)
    requires a != "" && AllDigits(a) && b != "" && AllDigits(b)
    ensures Index(a + "-" + b, '-') == |a| && TrimSpace(a + "-" + b) == a + "-" + b
  {
    var text := a + "-" + b;
    NoDashInDigits(a);
    IndexAfter(a, '-', b);
    assert text == a + ['-'] + b;
    DigitNoSpace(a[0]);
    DigitNoSpace(b[|b| - 1]);
    assert text[0] == a[0] && text[|text| - 1] == b[|b| - 1];
    TrimStays(text);
  }

  lemma NoDashInDigits(s: string)
    requires AllDigits(s)
    ensures '-' !in s
  {
    forall i | 0 <= i < |s| ensures s[i] != '-' { assert IsDigit(s[i]); }
  }

  lemma DigitNoSpace(c: char)
    requires IsDigit(c)
    ensures !IsSpace(c)
  {
  }

  lemma PlainReads(text: string, spec: FieldSpec, lo: int, hi: int)
    requires text != "" && TrimSpace(text) == text && Index(text, '/') < 0
    requires ReadRange(text, spec) == Some((lo, hi)) && spec.min <= lo <= hi <= spec.max
    ensures ReadPart(text, spec) == Some(Part(lo, hi, 1))
  {
  }

  lemma SteppedReads(text: string, slash: nat, spec: FieldSpec, lo: int, hi: int, step: int)
    requires text != "" && TrimSpace(text) == text && Index(text, '/') == slash < |text|
    requires ReadRange(text[..slash], spec) == Some((lo, hi)) && spec.min <= lo <= hi <= spec.max
    requires Atoi(text[slash + 1..]) == Some(step) && step > 0
    ensures ReadPart(text, spec) == Some(Part(lo, hi, step))
  {
  }

  /** What the parser makes of a piece that fits is the piece. */
  lemma PieceReadsBack(p: Piece, spec: FieldSpec)
    requires spec.max < 60 && p.Fits(spec)
    ensures ReadPart(p.Written(), spec) == Some(Part(p.Low(spec), p.High(spec), p.Step()))
    ensures !Part(p.Low(spec), p.High(spec), p.Step()).Overruns()
  {
    WrittenPlain(p);
    TrimStays(p.Written());
    SlashAt(p);
    FitRangeReads(p, spec);
    if p.every.Some? {
      AtoiOfItoa(p.every.value);
      SteppedReads(p.Written(), |RangeText(p.range)|, spec, p.Low(spec), p.High(spec), p.every.value);
    } else {
      PlainReads(p.Written(), spec, p.Low(spec), p.High(spec));
    }
  }

  lemma FitRangeReads(p: Piece, spec: FieldSpec)
    requires spec.max < 60 && p.Fits(spec)
    ensures ReadRange(RangeText(p.range), spec) == Some((p.Low(spec), p.High(spec)))
  {
    RangeReadsBack(p.range, spec);
  }

  lemma StepsUp(lo: int, step: nat, v: int)
    requires step > 0 && v >= lo && (v - lo) % step == 0
    ensures v == Term(lo, step, (v - lo) / step)
  {
    assert v - lo == step * ((v - lo) / step) + (v - lo) % step;
  }

  lemma TimesDifference(step: nat, q: int, d: int)
    ensures step * (q - d) == step * q - step * d
  {
  }

  lemma TimesGrows(step: nat, x: int)
    ensures x >= 1 ==> step * x >= step
    ensures x <= 0 ==> step * x <= 0
  {
    if x > 1 { TimesDifference(step, x, 1); }
  }

  /** Nothing but zero is less than the step and apart by steps. */
  lemma RestIsNone(step: nat, q: int, d: int, r: int)
    requires 0 <= r < step && step * q == step * d + r
    ensures r == 0
  {
    TimesDifference(step, q, d);
    TimesGrows(step, q - d);
  }

  lemma StepsAre(lo: int, step: nat, k: nat)
    requires step > 0
    ensures Term(lo, step, k) >= lo && (Term(lo, step, k) - lo) % step == 0
  {
    var v := Term(lo, step, k) - lo;
    assert v == step * k;
    assert step * k >= 0;
    assert v == step * (v / step) + v % step;
    RestIsNone(step, k, v / step, v % step);
  }

  /** The values of a part are every so many from its lower end to its upper end. */
  lemma PartHasIff(lo: int, hi: int, step: nat, v: int)
    requires step > 0
    ensures Part(lo, hi, step).Has(v) == OnSteps(lo, hi, step, v)
  {
    if Part(lo, hi, step).Has(v) {
      var k: nat :| v == Term(lo, step, k);
      StepsAre(lo, step, k);
    }
    if lo <= v <= hi && (v - lo) % step == 0 { StepsUp(lo, step, v); }
  }

  // ---- a field ----

  function Texts(pieces: seq<Piece>): (texts: seq<string>)
    ensures |texts| == |pieces| && forall i :: 0 <= i < |texts| ==> texts[i] == pieces[i].Written()
  {
    seq(|pieces|, i requires 0 <= i < |pieces| => pieces[i].Written())
  }

  function Line(pieces: seq<Piece>): string {
    Joined(Texts(pieces), ',')
  }

  predicate AllFit(pieces: seq<Piece>, spec: FieldSpec) {
    pieces != [] && forall i :: 0 <= i < |pieces| ==> pieces[i].Fits(spec)
  }

  /** Some piece names the value. */
  predicate LineSays(pieces: seq<Piece>, spec: FieldSpec, v: int)
    requires AllFit(pieces, spec)
  {
    exists i :: 0 <= i < |pieces| && pieces[i].Says(spec, v)
  }

  lemma {:induction false} NoneRefused(pieces: seq<Piece>, spec: FieldSpec)
    requires spec.max < 60 && forall i :: 0 <= i < |pieces| ==> pieces[i].Fits(spec)
    ensures FieldVerdict(Texts(pieces), spec) == Parsed(())
  {
    if pieces != [] {
      PieceReadsBack(pieces[0], spec);
      NoneRefused(pieces[1..], spec);
      assert Texts(pieces)[1..] == Texts(pieces[1..]);
    }
  }

  lemma SaysPart(pieces: seq<Piece>, spec: FieldSpec, i: nat, v: int)
    requires spec.max < 60 && AllFit(pieces, spec) && i < |pieces|
    ensures PartHas(Texts(pieces)[i], spec, v) == pieces[i].Says(spec, v)
  {
    SaysPiece(pieces[i], spec, v);
  }

  lemma SaysPiece(p: Piece, spec: FieldSpec, v: int)
    requires spec.max < 60 && p.Fits(spec)
    ensures PartHas(p.Written(), spec, v) == p.Says(spec, v)
  {
    PieceReadsBack(p, spec);
    ReadHas(p.Written(), spec, Part(p.Low(spec), p.High(spec), p.Step()), v);
    PartHasIff(p.Low(spec), p.High(spec), p.Step(), v);
  }

  lemma ReadHas(text: string, spec: FieldSpec, part: Part, v: int)
    requires ReadPart(text, spec) == Some(part)
    ensures PartHas(text, spec, v) <==> part.Has(v)
  {
  }

  /** A field is read as the values its pieces name. */
  lemma LineReadsBack(pieces: seq<Piece>, spec: FieldSpec)
    requires spec.max < 60 && AllFit(pieces, spec)
    ensures FieldVerdict(Split(Line(pieces), ','), spec) == Parsed(())
    ensures forall v :: SomePartHas(Split(Line(pieces), ','), spec, v) <==> LineSays(pieces, spec, v)
  {
    forall i | 0 <= i < |pieces| ensures ',' !in Texts(pieces)[i] { WrittenPlain(pieces[i]); }
    SplitJoined(Texts(pieces), ',');
    NoneRefused(pieces, spec);
    forall v ensures SomePartHas(Texts(pieces), spec, v) <==> LineSays(pieces, spec, v) {
      forall i | 0 <= i < |pieces| ensures PartHas(Texts(pieces)[i], spec, v) <==> pieces[i].Says(spec, v) {
        SaysPart(pieces, spec, i, v);
      }
      if SomePartHas(Texts(pieces), spec, v) {
        var i :| 0 <= i < |pieces| && PartHas(Texts(pieces)[i], spec, v);
        assert pieces[i].Says(spec, v);
      }
    }
  }

  lemma {:induction false} LineIsWord(pieces: seq<Piece>)
    requires pieces != []
    ensures Word(Line(pieces))
  {
    WrittenPlain(pieces[0]);
    if |pieces| > 1 {
      LineIsWord(pieces[1..]);
      assert Texts(pieces)[1..] == Texts(pieces[1..]);
    }
  }

  /** The asterisk alone. */
  predicate IsStar(pieces: seq<Piece>) {
    pieces == [Piece(All, None)]
  }

  lemma StarIsWildcard(pieces: seq<Piece>)
    requires pieces != []
    ensures IsCronWildcard(Line(pieces)) <==> IsStar(pieces)
  {
    LineIsWord(pieces);
    TrimStays(Line(pieces));
    WrittenPlain(pieces[0]);
    RangePlain(pieces[0].range);
    if |pieces| == 1 {
      assert Line(pieces) == pieces[0].Written();
      if pieces[0].every.None? && pieces[0].range.Only? { assert IsDigit(Itoa(pieces[0].range.n)[0]); }
    } else {
      assert |Line(pieces)| >= 2;
    }
  }

  // ---- an expression ----

  function Lines(expr: seq<seq<Piece>>): seq<string>
    requires |expr| == 5
  {
    [Line(expr[0]), Line(expr[1]), Line(expr[2]), Line(expr[3]), Line(expr[4])]
  }

  predicate ExprFits(expr: seq<seq<Piece>>) {
    |expr| == 5 && AllFit(expr[0], CRON_FIELDS[0]) && AllFit(expr[1], CRON_FIELDS[1]) && AllFit(expr[2], CRON_FIELDS[2])
    && AllFit(expr[3], CRON_FIELDS[3]) && AllFit(expr[4], CRON_FIELDS[4])
  }

  /** The weekday, Sunday being 0 and 7. */
  predicate SaysWeekday(pieces: seq<Piece>, weekday: nat)
    requires AllFit(pieces, CRON_FIELDS[4])
  {
    LineSays(pieces, CRON_FIELDS[4], weekday) || (weekday == 0 && LineSays(pieces, CRON_FIELDS[4], 7))
  }

  /** The day is in a named month, and named by the day of the month or the weekday if both are restricted, else by the
      one that is. */
  predicate SaysDay(expr: seq<seq<Piece>>, date: Date, weekday: nat)
    requires ExprFits(expr)
  {
    && LineSays(expr[3], CRON_FIELDS[3], date.month)
    && (|| (IsStar(expr[2]) && IsStar(expr[4]))
        || (!IsStar(expr[2]) && LineSays(expr[2], CRON_FIELDS[2], date.day))
        || (!IsStar(expr[4]) && SaysWeekday(expr[4], weekday)))
  }

  lemma LinesAreWords(expr: seq<seq<Piece>>)
    requires ExprFits(expr)
    ensures Fields(TrimSpace(Expr(Lines(expr)))) == Lines(expr)
  {
    LineIsWord(expr[0]);
    LineIsWord(expr[1]);
    LineIsWord(expr[2]);
    LineIsWord(expr[3]);
    LineIsWord(expr[4]);
    ExprFields(Lines(expr));
  }

  /** Every expression written so, in range, is accepted. */
  lemma WrittenAccepted(expr: seq<seq<Piece>>)
    requires ExprFits(expr)
    ensures var fields := Fields(TrimSpace(Expr(Lines(expr)))); |fields| == 5 && CronVerdict(fields, 0) == Parsed(())
  {
    LinesAreWords(expr);
    LinesAccepted(expr);
  }

  lemma LinesAccepted(expr: seq<seq<Piece>>)
    requires ExprFits(expr)
    ensures CronVerdict(Lines(expr), 0) == Parsed(())
  {
    LineReadsBack(expr[4], CRON_FIELDS[4]);
    LineReadsBack(expr[3], CRON_FIELDS[3]);
    LineReadsBack(expr[2], CRON_FIELDS[2]);
    LineReadsBack(expr[1], CRON_FIELDS[1]);
    LineReadsBack(expr[0], CRON_FIELDS[0]);
    VerdictStep(Lines(expr), 4);
    VerdictStep(Lines(expr), 3);
    VerdictStep(Lines(expr), 2);
    VerdictStep(Lines(expr), 1);
    VerdictStep(Lines(expr), 0);
  }

  lemma DayIsSaid(s: Schedule, expr: seq<seq<Piece>>, n: nat)
    requires ExprFits(expr) && Reads(s, Lines(expr))
    ensures s.MatchDay(n) == SaysDay(expr, DateOf(n), (n + 1) % 7)
  {
    DateInMonth(n);
    LineReadsBack(expr[2], CRON_FIELDS[2]);
    LineReadsBack(expr[3], CRON_FIELDS[3]);
    LineReadsBack(expr[4], CRON_FIELDS[4]);
    StarIsWildcard(expr[2]);
    StarIsWildcard(expr[4]);
    assert s.dow[Weekday(n)] <==> SaysWeekday(expr[4], Weekday(n));
  }

  lemma DateInMonth(n: nat)
    ensures 1 <= DateOf(n).month <= 12 && 1 <= DateOf(n).day <= 31
  {
  }

  /** And the schedule read from it fires in a minute exactly if the text names its day, hour and minute. */
  lemma WrittenFires(s: Schedule, expr: seq<seq<Piece>>, day: nat, hour: nat, minute: nat)
    requires ExprFits(expr) && ReadFrom(s, Expr(Lines(expr))) && hour < 24 && minute < 60
    ensures s.Fires(day * 1440 + hour * 60 + minute) <==>
      && SaysDay(expr, DateOf(day), (day + 1) % 7)
      && LineSays(expr[1], CRON_FIELDS[1], hour)
      && LineSays(expr[0], CRON_FIELDS[0], minute)
  {
    LinesAreWords(expr);
    DayIsSaid(s, expr, day);
    TimeIsSaid(s, expr, hour, minute);
    FiresAt(s, day, hour, minute);
  }

  lemma FiresAt(s: Schedule, day: nat, hour: nat, minute: nat)
    requires s.Valid() && hour < 24 && minute < 60
    ensures s.Fires(day * 1440 + hour * 60 + minute) == (s.MatchDay(day) && s.hour[hour] && s.minute[minute])
  {
    MinuteOf(day, hour, minute);
  }

  lemma TimeIsSaid(s: Schedule, expr: seq<seq<Piece>>, hour: nat, minute: nat)
    requires ExprFits(expr) && Reads(s, Lines(expr)) && hour < 24 && minute < 60
    ensures s.hour[hour] == LineSays(expr[1], CRON_FIELDS[1], hour)
    ensures s.minute[minute] == LineSays(expr[0], CRON_FIELDS[0], minute)
  {
    LineReadsBack(expr[0], CRON_FIELDS[0]);
    LineReadsBack(expr[1], CRON_FIELDS[1]);
  }
}
