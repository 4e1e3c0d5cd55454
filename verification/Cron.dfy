/** The fields of a cron expression: the parser against the plain reading of each comma part, overflow of the step
    included. */
module Cron {
  import opened Status
  import opened Text
  import opened Decimal

  // ---- one field ----

  datatype FieldSpec = FieldSpec(min: nat, max: nat)

  const CRON_FIELDS: seq<FieldSpec> :=
    [FieldSpec(0, 59), FieldSpec(0, 23), FieldSpec(1, 31), FieldSpec(1, 12), FieldSpec(0, 7)]

  /** The k-th value of a progression. */
  function Term(lo: int, step: int, k: nat): int {
    lo + k * step
  }

  /** One comma part: the values lo, lo + step, lo + 2 step and so on up to `hi`. */
  datatype Part = Part(lo: int, hi: int, step: int)
  {
    ghost predicate Has(v: int) {
      v <= hi && exists k: nat :: v == Term(lo, step, k)
    }

    /** The 64-bit loop variable runs over: the step after the first value no longer fits. */
    predicate Overruns() {
      lo + step > MAX_INT64
    }
  }

  datatype Outcome<+T> = Parsed(value: T) | Invalid | Panicked

  predicate IsCronWildcard(field: string) {
    TrimSpace(field) == "*" || TrimSpace(field) == "?"
  }

  /** The part a piece of text means, if it is well formed and in range. */
  function ReadPart(text: string, spec: FieldSpec): Option<Part> {
    var part := TrimSpace(text);
    if part == "" then None
    else
      var slash := Index(part, '/');
      var step := if slash < 0 then Some(1) else Atoi(part[slash + 1..]);
      if step.None? || step.value <= 0 then None
      else
        var range := ReadRange(if slash < 0 then part else part[..slash], spec);
        if range.None? || range.value.0 < spec.min || range.value.1 > spec.max || range.value.0 > range.value.1 then None
        else Some(Part(range.value.0, range.value.1, step.value))
  }

  function ReadRange(part: string, spec: FieldSpec): Option<(int, int)> {
    if IsCronWildcard(part) then Some((spec.min, spec.max))
    else
      var dash := Index(part, '-');
      if dash >= 0 then
        var a, b := Atoi(TrimSpace(part[..dash])), Atoi(TrimSpace(part[dash + 1..]));
        if a.None? || b.None? then None else Some((a.value, b.value))
      else
        var n := Atoi(part);
        if n.None? then None else Some((n.value, n.value))
  }

  /** How parsing the parts goes, from left to right: the first that is malformed or runs over decides. */
  function FieldVerdict(texts: seq<string>, spec: FieldSpec): Outcome<()> {
    if texts == [] then Parsed(())
    else match ReadPart(texts[0], spec)
      case None => Invalid
      case Some(p) => if p.Overruns() then Panicked else FieldVerdict(texts[1..], spec)
  }

  /** Some part of the field has the value. */
  ghost predicate SomePartHas(texts: seq<string>, spec: FieldSpec, v: int) {
    exists i :: 0 <= i < |texts| && PartHas(texts[i], spec, v)
  }

  ghost predicate PartHas(text: string, spec: FieldSpec, v: int) {
    ReadPart(text, spec).Some? && ReadPart(text, spec).value.Has(v)
  }

  lemma TermStep(lo: int, step: int, k: nat)
    ensures Term(lo, step, k + 1) == Term(lo, step, k) + step
    ensures Term(lo, step, 0) == lo
  {
    assert (k + 1) * step == k * step + step;
  }

  lemma TermOrder(lo: int, step: int, j: nat, k: nat)
    requires step > 0 && j < k
    ensures Term(lo, step, j) + step <= Term(lo, step, k)
  {
    assert (k - j - 1) * step >= 0;
    assert k * step == j * step + step + (k - j - 1) * step;
  }

  /** No term lies between one and the next. */
  lemma NoTermBetween(lo: int, step: int, k: nat, w: int)
    requires step > 0 && Term(lo, step, k) < w < Term(lo, step, k) + step
    ensures !Part(lo, w, step).Has(w)
  {
    forall j: nat ensures w != Term(lo, step, j) {
      if j < k { TermOrder(lo, step, j, k); }
      if k < j { TermOrder(lo, step, k, j); }
    }
  }

  lemma NoTermBelow(lo: int, step: int, w: int)
    requires step > 0 && w < lo
    ensures !Part(lo, w, step).Has(w)
  {
    forall j: nat ensures w != Term(lo, step, j) {
      TermStep(lo, step, 0);
      if j > 0 { TermOrder(lo, step, 0, j); }
    }
  }

  /** Marked so far: what was set before, and the terms below `v`. */
  ghost predicate MarkedTo(before: seq<bool>, now: seq<bool>, p: Part, v: int) {
    |now| == |before| && forall w :: 0 <= w < |now| ==> (now[w] <==> before[w] || (w < v && p.Has(w)))
  }

  lemma MarkedOne(before: seq<bool>, now: seq<bool>, p: Part, k: nat)
    requires p.step > 0 && 0 <= Term(p.lo, p.step, k) <= p.hi && Term(p.lo, p.step, k) < |now|
    requires MarkedTo(before, now, p, Term(p.lo, p.step, k))
    ensures MarkedTo(before, now[Term(p.lo, p.step, k) := true], p, Term(p.lo, p.step, k) + p.step)
  {
    var v := Term(p.lo, p.step, k);
    var next := now[v := true];
    forall w | 0 <= w < |next| ensures next[w] <==> before[w] || (w < v + p.step && p.Has(w)) {
      if v < w < v + p.step {
        NoTermBetween(p.lo, p.step, k, w);
        assert !p.Has(w);
      }
    }
  }

  lemma MarkedNone(before: seq<bool>, p: Part)
    requires p.step > 0
    ensures MarkedTo(before, before, p, p.lo)
  {
    forall w | 0 <= w < |before| && w < p.lo ensures !p.Has(w) {
      NoTermBelow(p.lo, p.step, w);
    }
  }

  /** Marks the values of a part. The loop variable grows by the step as a 64-bit integer; once it runs over it is
      negative, and indexes outside the array. */
  method MarkPart(marks: array<bool>, p: Part) returns (panicked: bool)
    requires 0 <= p.lo <= p.hi < marks.Length <= 60 && 0 < p.step <= MAX_INT64
    modifies marks
    ensures panicked <==> p.Overruns()
    ensures !panicked ==> forall v :: 0 <= v < marks.Length ==> (marks[v] <==> old(marks[v]) || p.Has(v))
  {
    var v := p.lo;
    ghost var k: nat := 0;
    ghost var before := marks[..];
    TermStep(p.lo, p.step, 0);
    MarkedNone(before, p);
    while v <= p.hi
      invariant v == Term(p.lo, p.step, k) && p.lo <= v
      invariant k > 0 ==> p.step <= p.hi + p.hi || v > p.hi
      invariant k > 0 ==> !p.Overruns()
      invariant MarkedTo(before, marks[..], p, v)
      decreases p.hi - v
    {
      MarkedOne(before, marks[..], p, k);
      ghost var now := marks[..];
      marks[v] := true;
      assert marks[..] == now[v := true];
      TermStep(p.lo, p.step, k);
      if v + p.step > MAX_INT64 {
        assert k == 0;
        return true;
      }
      v := v + p.step;
      k := k + 1;
    }
    assert k > 0;
    panicked := false;
    forall w | 0 <= w < marks.Length ensures marks[w] <==> old(marks[w]) || p.Has(w) {
      assert marks[..][w] <==> before[w] || (w < v && p.Has(w));
    }
  }

  /** A field: every comma part, in turn. */
  method ParseCronField(field: string, spec: FieldSpec) returns (r: Outcome<seq<bool>>)
    requires spec.max < 60
    ensures match FieldVerdict(Split(field, ','), spec)
      case Invalid => r == Invalid
      case Panicked => r == Panicked
      case Parsed(_) =>
        r.Parsed? && |r.value| == spec.max + 1
        && forall v :: 0 <= v <= spec.max ==> (r.value[v] <==> SomePartHas(Split(field, ','), spec, v))
  {
    var marks := new bool[spec.max + 1](_ => false);
    var texts := Split(field, ',');
    assert texts[0..] == texts;
    for i := 0 to |texts|
      invariant FieldVerdict(texts[i..], spec) == FieldVerdict(texts, spec)
      invariant forall v :: 0 <= v <= spec.max ==> (marks[v] <==> SomePartHas(texts[..i], spec, v))
    {
      assert texts[i..][0] == texts[i] && texts[i..][1..] == texts[i + 1..];
      var part := ParsePart(texts[i], spec);
      if part.None? {
        return Invalid;
      }
      var panicked := MarkPart(marks, part.value);
      if panicked {
        return Panicked;
      }
      forall v | 0 <= v <= spec.max ensures SomePartHas(texts[..i + 1], spec, v) <==> SomePartHas(texts[..i], spec, v) || part.value.Has(v) {
        SomePartGrows(texts, spec, v, i);
      }
    }
    assert texts[|texts|..] == [] && texts[..|texts|] == texts;
    r := Parsed(marks[..]);
  }

  lemma SomePartGrows(texts: seq<string>, spec: FieldSpec, v: int, i: nat)
    requires i < |texts|
    ensures SomePartHas(texts[..i + 1], spec, v) <==> SomePartHas(texts[..i], spec, v) || PartHas(texts[i], spec, v)
  {
    assert texts[..i + 1] == texts[..i] + [texts[i]];
    if SomePartHas(texts[..i], spec, v) {
      var j :| 0 <= j < i && PartHas(texts[..i][j], spec, v);
      assert PartHas(texts[..i + 1][j], spec, v);
    }
    if PartHas(texts[i], spec, v) {
      assert PartHas(texts[..i + 1][i], spec, v);
    }
  }

  /** One part: step, then range, then bounds. */
  method ParsePart(text: string, spec: FieldSpec) returns (r: Option<Part>)
    ensures r == ReadPart(text, spec)
    ensures r.Some? ==> spec.min <= r.value.lo <= r.value.hi <= spec.max && 0 < r.value.step <= MAX_INT64
  {
    var part := TrimSpace(text);
    if part == "" {
      return None;
    }
    var step := 1;
    var idx := Index(part, '/');
    if idx >= 0 {
      var n := Atoi(part[idx + 1..]);
      if n.None? || n.value <= 0 {
        return None;
      }
      step := n.value;
      part := part[..idx];
    }
    var range := ParseRange(part, spec);
    if range.None? {
      return None;
    }
    var lo, hi := range.value.0, range.value.1;
    if lo < spec.min || hi > spec.max || lo > hi {
      return None;
    }
    r := Some(Part(lo, hi, step));
  }

  method ParseRange(part: string, spec: FieldSpec) returns (r: Option<(int, int)>)
    ensures r == ReadRange(part, spec)
  {
    if IsCronWildcard(part) {
      return Some((spec.min, spec.max));
    }
    if '-' in part {
      var dash := Index(part, '-');
      var a, b := Atoi(TrimSpace(part[..dash])), Atoi(TrimSpace(part[dash + 1..]));
      if a.None? || b.None? {
        return None;
      }
      return Some((a.value, b.value));
    }
    var n := Atoi(part);
    if n.None? {
      return None;
    }
    r := Some((n.value, n.value));
  }

  // ---- the texts that run over ----

  lemma DigitsPlain(s: string)
    requires s != "" && AllDigits(s)
    ensures TrimSpace(s) == s && !IsCronWildcard(s) && Index(s, '-') == -1 && Index(s, '/') == -1
  {
    assert IsDigit(s[0]) && IsDigit(s[|s| - 1]);
  }

  lemma DigitsNumber(s: string)
    requires s != "" && AllDigits(s) && Value(s) <= MAX_INT64
    ensures Atoi(s) == Some(Value(s))
  {
    assert IsDigit(s[0]);
  }

  /** A number over a number, both in digits. */
  lemma ReadStepped(lo: string, step: string, spec: FieldSpec)
    requires lo != "" && AllDigits(lo) && step != "" && AllDigits(step) && Value(lo) <= MAX_INT64 && Value(step) <= MAX_INT64
    ensures ReadPart(lo + "/" + step, spec) ==
      if Value(step) > 0 && spec.min <= Value(lo) <= spec.max then Some(Part(Value(lo), Value(lo), Value(step))) else None
  {
    var part := lo + "/" + step;
    assert part[|lo|] == '/';
    assert forall j :: 0 <= j < |lo| ==> part[j] == lo[j] && IsDigit(lo[j]);
    assert part[0] == lo[0] && part[|part| - 1] == step[|step| - 1] && IsDigit(step[|step| - 1]);
    assert TrimSpace(part) == part;
    assert Index(part, '/') == |lo|;
    assert part[|lo| + 1..] == step && part[..|lo|] == lo;
    DigitsNumber(step);
    DigitsNumber(lo);
    DigitsPlain(lo);
  }

  lemma OnePart(text: string, spec: FieldSpec)
    ensures FieldVerdict([text], spec) == match ReadPart(text, spec)
      case None => Invalid
      case Some(p) => if p.Overruns() then Panicked else Parsed(())
  {
    assert [text][1..] == [];
  }

  /** A field "n/step" in digits runs over if and only if n is in the field's range and n + step is no int64. */
  lemma SteppedPanicsIff(lo: string, step: string, spec: FieldSpec)
    requires lo != "" && AllDigits(lo) && step != "" && AllDigits(step) && Value(lo) <= MAX_INT64 && Value(step) <= MAX_INT64
    ensures FieldVerdict([lo + "/" + step], spec) == Panicked <==>
      spec.min <= Value(lo) <= spec.max && Value(step) > 0 && Value(lo) + Value(step) > MAX_INT64
  {
    ReadStepped(lo, step, spec);
    OnePart(lo + "/" + step, spec);
  }

  lemma OneMore(s: string, c: char, v: nat)
    requires AllDigits(s) && Value(s) == v && IsDigit(c)
    ensures AllDigits(s + [c]) && Value(s + [c]) == 10 * v + DigitValue(c)
  {
    assert (s + [c])[..|s|] == s;
  }

  const MAX_TEXT := "9223372036854775807"

  lemma MaxTextUpTo(n: nat, v: nat)
    requires n < 19 && AllDigits(MAX_TEXT[..n]) && Value(MAX_TEXT[..n]) == v
    ensures AllDigits(MAX_TEXT[..n + 1]) && Value(MAX_TEXT[..n + 1]) == 10 * v + DigitValue(MAX_TEXT[n])
  {
    OneMore(MAX_TEXT[..n], MAX_TEXT[n], v);
    assert MAX_TEXT[..n + 1] == MAX_TEXT[..n] + [MAX_TEXT[n]];
  }

  lemma MaxTextStart()
    ensures AllDigits(MAX_TEXT[..4]) && Value(MAX_TEXT[..4]) == 9223
  {
    MaxTextUpTo(0, 0);
    MaxTextUpTo(1, 9);
    MaxTextUpTo(2, 92);
    MaxTextUpTo(3, 922);
  }

  lemma MaxTextHead()
    ensures AllDigits(MAX_TEXT[..7]) && Value(MAX_TEXT[..7]) == 9223372
  {
    MaxTextStart();
    MaxTextUpTo(4, 9223);
    MaxTextUpTo(5, 92233);
    MaxTextUpTo(6, 922337);
  }

  lemma MaxTextMiddle()
    ensures AllDigits(MAX_TEXT[..13]) && Value(MAX_TEXT[..13]) == 9223372036854
  {
    MaxTextHead();
    MaxTextUpTo(7, 9223372);
    MaxTextUpTo(8, 92233720);
    MaxTextUpTo(9, 922337203);
    MaxTextUpTo(10, 9223372036);
    MaxTextUpTo(11, 92233720368);
    MaxTextUpTo(12, 922337203685);
  }

  lemma MaxTextValue()
    ensures AllDigits(MAX_TEXT) && Value(MAX_TEXT) == MAX_INT64
  {
    MaxTextMiddle();
    MaxTextUpTo(13, 9223372036854);
    MaxTextUpTo(14, 92233720368547);
    MaxTextUpTo(15, 922337203685477);
    MaxTextUpTo(16, 9223372036854775);
    MaxTextUpTo(17, 92233720368547758);
    MaxTextUpTo(18, 922337203685477580);
    assert MAX_TEXT[..19] == MAX_TEXT;
  }

  /** The minute field 1/9223372036854775807 brings the parser down. */
  lemma PanickingField()
    ensures FieldVerdict(["1/9223372036854775807"], CRON_FIELDS[0]) == Panicked
  {
    MaxTextValue();
    DigitText('1');
    SteppedPanicsIff("1", MAX_TEXT, CRON_FIELDS[0]);
    PanickingText();
  }

  lemma PanickingText()
    ensures "1" + "/" + MAX_TEXT == "1/9223372036854775807"
  {
  }

  lemma DigitText(c: char)
    requires IsDigit(c)
    ensures AllDigits([c]) && Value([c]) == DigitValue(c)
  {
    assert [c][..0] == "";
  }
}
