/** The preference service: partial updates, deletion, and the consent log written beside them. */
module ConsentService {
  import opened Status
  import opened Text
  import opened Strings
  import opened Consent

  datatype Answer = Saved(preference: Preference) | Removed | NotFound | InvalidInput

  predicate Digits(s: string, max: int)
    requires |s| == 2
  {
    '0' <= s[0] <= '9' && '0' <= s[1] <= '9' && (s[0] as int - '0' as int) * 10 + (s[1] as int - '0' as int) <= max
  }

  /** Two digits, a colon, two digits, on a 24-hour clock. */
  predicate ValidHHMM(v: string) {
    |v| == 5 && v[2] == ':' && Digits(v[..2], 23) && Digits(v[3..], 59)
  }

  function TwoDigits(n: nat): string
    requires n < 100
  {
    [(n / 10 + '0' as int) as char, (n % 10 + '0' as int) as char]
  }

  lemma DigitsAre(s: string, max: nat)
    requires |s| == 2 && max < 100
    ensures Digits(s, max) <==> exists n: nat :: n <= max && s == TwoDigits(n)
  {
    if Digits(s, max) {
      var n := (s[0] as int - '0' as int) * 10 + (s[1] as int - '0' as int);
      assert s == TwoDigits(n);
    }
  }

  /** A time of day is what 00:00 to 23:59 are written as, and nothing else. */
  lemma TimesAre(v: string)
    ensures ValidHHMM(v) <==> exists h: nat, m: nat :: h < 24 && m < 60 && v == TwoDigits(h) + ":" + TwoDigits(m)
  {
    if ValidHHMM(v) {
      DigitsAre(v[..2], 23);
      DigitsAre(v[3..], 59);
      var h: nat :| h <= 23 && v[..2] == TwoDigits(h);
      var m: nat :| m <= 59 && v[3..] == TwoDigits(m);
      assert v == v[..2] + ":" + v[3..];
    }
    if h: nat, m: nat :| h < 24 && m < 60 && v == TwoDigits(h) + ":" + TwoDigits(m) {
      assert v[..2] == TwoDigits(h) && v[3..] == TwoDigits(m) && v[2] == ':';
      DigitsAre(v[..2], 23);
      DigitsAre(v[3..], 59);
    }
  }

  method SortStrings(items: seq<string>) returns (sorted: seq<string>)
    ensures Sorted(sorted) && multiset(sorted) == multiset(items)
    ensures forall x :: x in sorted <==> x in items
  {
    SortSorts(items);
    sorted := Sort(items);
    SameMembers(sorted, items);
  }

  lemma KeysGrow(items: seq<string>, s: string)
    ensures Keys(items + [s]) == Keys(items) + KeyOf(s)
  {
    assert (items + [s])[..|items|] == items;
  }

  lemma KeysUpTo(items: seq<string>, i: nat)
    requires i < |items|
    ensures Keys(items[..i + 1]) == Keys(items[..i]) + KeyOf(items[i])
  {
    assert items[..i + 1] == items[..i] + [items[i]];
    KeysGrow(items[..i], items[i]);
  }

  lemma KeysOfMembers(a: seq<string>, b: seq<string>)
    requires forall x :: x in a <==> x in b
    ensures Keys(a) == Keys(b)
  {
    forall key ensures key in Keys(a) <==> key in Keys(b) {
      KeysHave(a, key);
      KeysHave(b, key);
      MembersHave(a, b, key);
      MembersHave(b, a, key);
    }
  }

  lemma MembersHave(a: seq<string>, b: seq<string>, key: string)
    requires forall x :: x in a ==> x in b
    ensures HasKey(a, key) ==> HasKey(b, key)
  {
    if HasKey(a, key) {
      var i :| 0 <= i < |a| && key in KeyOf(a[i]);
      assert a[i] in b;
      var j :| 0 <= j < |b| && b[j] == a[i];
      assert key in KeyOf(b[j]);
    }
  }

  lemma TrimmedKey(s: string)
    requires Trimmed(s)
    ensures KeyOf(s) == {ToLower(s)}
  {
  }

  /** A topic not picked yet is picked. */
  lemma PickedMore(out: seq<string>, s: string)
    requires Picked(out) && Trimmed(s) && ToLower(s) !in Keys(out)
    ensures Picked(out + [s]) && Keys(out + [s]) == Keys(out) + {ToLower(s)}
  {
    assert (out + [s])[..|out|] == out;
    TrimmedKey(s);
  }

  lemma {:induction false} PickedPairs(topics: seq<string>, i: nat, j: nat)
    requires Picked(topics) && i < j < |topics|
    ensures ToLower(topics[i]) != ToLower(topics[j]) && Trimmed(topics[i]) && Trimmed(topics[j])
  {
    var n := |topics| - 1;
    if j < n {
      PickedPairs(topics[..n], i, j);
    } else {
      PickedTrimmed(topics, i);
      TrimmedKey(topics[i]);
      KeysHave(topics[..n], ToLower(topics[i]));
      assert ToLower(topics[i]) in KeyOf(topics[..n][i]);
    }
  }

  lemma {:induction false} PickedTrimmed(topics: seq<string>, i: nat)
    requires Picked(topics) && i < |topics|
    ensures Trimmed(topics[i])
  {
    if i < |topics| - 1 {
      PickedTrimmed(topics[..|topics| - 1], i);
    }
  }

  predicate PairwiseOther(topics: seq<string>) {
    forall i, j :: 0 <= i < j < |topics| ==> ToLower(topics[i]) != ToLower(topics[j])
  }

  predicate AllTrimmed(topics: seq<string>) {
    forall i :: 0 <= i < |topics| ==> Trimmed(topics[i])
  }

  lemma {:induction false} PairwisePicked(topics: seq<string>)
    requires PairwiseOther(topics) && AllTrimmed(topics)
    ensures Picked(topics)
  {
    if topics != [] {
      var n := |topics| - 1;
      PairwisePicked(topics[..n]);
      KeysHave(topics[..n], ToLower(topics[n]));
      forall i | 0 <= i < n ensures ToLower(topics[n]) !in KeyOf(topics[..n][i]) {
        TrimmedKey(topics[i]);
        assert ToLower(topics[i]) != ToLower(topics[n]);
      }
    }
  }

  lemma SortedStaysPicked(out: seq<string>, topics: seq<string>)
    requires multiset(out) == multiset(topics) && Picked(out)
    ensures Picked(topics)
  {
    SameMembers(out, topics);
    forall i, j | 0 <= i < j < |out| ensures out[i] != out[j] { PickedPairs(out, i, j); }
    DistinctCount(out);
    DistinctCount(topics);
    assert forall x :: x in topics ==> multiset(topics)[x] == multiset(out)[x];
    forall i | 0 <= i < |topics| ensures Trimmed(topics[i]) {
      assert topics[i] in topics && topics[i] in out;
      var k :| 0 <= k < |out| && out[k] == topics[i];
      PickedTrimmed(out, k);
    }
    forall i, j | 0 <= i < j < |topics| ensures ToLower(topics[i]) != ToLower(topics[j]) {
      DistinctLower(out, topics[i], topics[j]);
    }
    PairwisePicked(topics);
  }

  lemma DistinctLower(out: seq<string>, a: string, b: string)
    requires Picked(out) && a in out && b in out && a != b
    ensures ToLower(a) != ToLower(b)
  {
    var i :| 0 <= i < |out| && out[i] == a;
    var j :| 0 <= j < |out| && out[j] == b;
    if i < j { PickedPairs(out, i, j); } else { PickedPairs(out, j, i); }
  }

  /** Empty and repeated topics dropped, the rest trimmed and sorted; case is kept but does not tell topics apart. */
  method NormalizeTopicList(items: seq<string>) returns (topics: seq<string>)
    ensures TopicsNormal(topics) && Keys(topics) == Keys(items)
  {
    var seen: set<string> := {};
    var out: seq<string> := [];
    for i := 0 to |items|
      invariant seen == Keys(items[..i]) == Keys(out) && Picked(out)
    {
      KeysUpTo(items, i);
      var s := TrimSpace(items[i]);
      TopicKey(items[i]);
      if s != "" {
        var key := ToLower(s);
        if key !in seen {
          PickedMore(out, s);
          seen := seen + {key};
          out := out + [s];
        }
      }
    }
    assert items[..|items|] == items;
    topics := SortStrings(out);
    SortedStaysPicked(out, topics);
    KeysOfMembers(topics, out);
  }

  lemma TopicKey(item: string)
    ensures KeyOf(item) == if TrimSpace(item) == "" then {} else {ToLower(TrimSpace(item))}
    ensures TrimSpace(item) != "" ==> Trimmed(TrimSpace(item))
  {
    TrimSpaceTwice(item);
  }

  predicate BadChannel(item: string) {
    Fold(item) != "" && Fold(item) !in CHANNELS
  }

  predicate NoneBad(items: seq<string>) {
    forall i :: 0 <= i < |items| ==> !BadChannel(items[i])
  }

  lemma NoneBadGrows(items: seq<string>, i: nat)
    requires i < |items| && NoneBad(items[..i]) && !BadChannel(items[i])
    ensures NoneBad(items[..i + 1])
  {
    assert items[..i + 1] == items[..i] + [items[i]];
  }

  lemma NoneBadPrefix(items: seq<string>, i: nat)
    requires i < |items| && BadChannel(items[i])
    ensures !NoneBad(items)
  {
  }

  /** Lower case, valid, none twice, sorted; one invalid name refuses the whole list. */
  method NormalizeChannels(items: seq<string>) returns (channels: Option<seq<string>>)
    ensures channels.Some? <==> NoneBad(items)
    ensures channels.Some? ==> Sorted(channels.value) && Keys(channels.value) == Keys(items) && ChannelsNormal(channels.value)
  {
    var seen: set<string> := {};
    var out: seq<string> := [];
    for i := 0 to |items|
      invariant seen == Keys(items[..i]) == Keys(out) && ChannelsNormal(out)
      invariant NoneBad(items[..i])
    {
      KeysUpTo(items, i);
      var ch := ToLower(TrimSpace(items[i]));
      ghost var bad := BadChannel(items[i]);
      assert bad == (ch != "" && ch !in CHANNELS);
      if ch != "" {
        if ch !in CHANNELS {
          NoneBadPrefix(items, i);
          return None;
        }
        if ch !in seen {
          ValidChannelsFold(ch);
          KeysGrow(out, ch);
          seen := seen + {ch};
          out := out + [ch];
        }
      }
      NoneBadGrows(items, i);
    }
    assert items[..|items|] == items;
    var sorted := SortStrings(out);
    KeysOfMembers(sorted, out);
    forall i | 0 <= i < |sorted| ensures sorted[i] in CHANNELS {
      assert sorted[i] in out;
    }
    channels := Some(sorted);
  }

  /** What an update makes of a stored preference, the lists as sets. */
  ghost predicate Applied(p: Preference, input: Input, next: Preference) {
    AppliedTimes(p, input, next) && AppliedConsent(p, input, next)
  }

  ghost predicate AppliedConsent(p: Preference, input: Input, next: Preference) {
    && next.marketing == (if input.marketing.Some? then input.marketing.value else p.marketing)
    && Keys(next.channels) == (if input.channels.Some? then Keys(input.channels.value) else Keys(p.channels))
    && Keys(next.topics) == (if input.topics.Some? then Keys(input.topics.value) else Keys(p.topics))
  }

  predicate AppliedTimes(p: Preference, input: Input, next: Preference) {
    && next.timezone == (if input.timezone.Some? then TrimSpace(input.timezone.value) else p.timezone)
    && next.quietStart == (if input.quietStart.Some? then TrimSpace(input.quietStart.value) else p.quietStart)
    && next.quietEnd == (if input.quietEnd.Some? then TrimSpace(input.quietEnd.value) else p.quietEnd)
    && next.preferredHour == (if input.preferredHour.None? then p.preferredHour
                              else if input.preferredHour.value == CLEAR_PREFERRED_HOUR then None else input.preferredHour)
  }

  predicate BadTime(v: Option<string>) {
    v.Some? && TrimSpace(v.value) != "" && !ValidHHMM(TrimSpace(v.value))
  }

  predicate BadHour(h: Option<int>) {
    h.Some? && h.value != CLEAR_PREFERRED_HOUR && !(0 <= h.value <= 23)
  }

  predicate BadChannels(items: Option<seq<string>>) {
    items.Some? && !NoneBad(items.value)
  }

  predicate BadZone(zone: Option<string>, known: bool) {
    zone.Some? && TrimSpace(zone.value) != "" && !known
  }

  /** An update is refused for an unknown time zone, a quiet hour that is no time, a preferred hour out of range or a
      channel that does not exist. `zoneKnown` is whether the time zone can be loaded. */
  predicate Refused(input: Input, zoneKnown: bool) {
    BadZone(input.timezone, zoneKnown) || BadTime(input.quietStart) || BadTime(input.quietEnd)
    || BadHour(input.preferredHour) || BadChannels(input.channels)
  }

  /** What an update is accepted with: a zone that can be loaded, times of day, an hour of the day or the sign to clear it, and
      channels that exist; blanks count as nothing given. */
  lemma AcceptedWith(input: Input, zoneKnown: bool)
    ensures !Refused(input, zoneKnown) <==>
      && (input.timezone.Some? && TrimSpace(input.timezone.value) != "" ==> zoneKnown)
      && (input.quietStart.Some? ==> TrimSpace(input.quietStart.value) == "" || ValidHHMM(TrimSpace(input.quietStart.value)))
      && (input.quietEnd.Some? ==> TrimSpace(input.quietEnd.value) == "" || ValidHHMM(TrimSpace(input.quietEnd.value)))
      && (input.preferredHour.Some? ==> -1 <= input.preferredHour.value <= 23)
      && (input.channels.Some? ==> forall ch :: ch in input.channels.value ==>
            ToLower(TrimSpace(ch)) in {"", "app_push", "sms", "email", "inbox", "wecom", "dingtalk"})
  {
    if input.channels.Some? {
      var chs := input.channels.value;
      forall i | 0 <= i < |chs| ensures chs[i] in chs {}
    }
  }

  /** Validates and takes over the fields that are given. */
  method ApplyInput(p: Preference, input: Input, zoneKnown: bool) returns (next: Option<Preference>)
    requires Stored(p)
    ensures next.None? <==> Refused(input, zoneKnown)
    ensures next.Some? ==> Stored(next.value) && Applied(p, input, next.value)
  {
    var q := ApplyTimes(p, input, zoneKnown);
    if q.None? {
      return None;
    }
    next := ApplyConsent(q.value, input);
  }

  predicate SameConsent(p: Preference, next: Preference) {
    next.channels == p.channels && next.topics == p.topics && next.marketing == p.marketing
  }

  predicate SameTimes(p: Preference, next: Preference) {
    next.timezone == p.timezone && next.quietStart == p.quietStart && next.quietEnd == p.quietEnd
    && next.preferredHour == p.preferredHour
  }

  method ApplyTimes(p: Preference, input: Input, zoneKnown: bool) returns (next: Option<Preference>)
    ensures next.None? <==>
      BadZone(input.timezone, zoneKnown) || BadTime(input.quietStart) || BadTime(input.quietEnd) || BadHour(input.preferredHour)
    ensures next.Some? ==> AppliedTimes(p, input, next.value) && SameConsent(p, next.value)
  {
    var q := p;
    if input.timezone.Some? {
      var tz := TrimSpace(input.timezone.value);
      if tz != "" && !zoneKnown {
        return None;
      }
      q := q.(timezone := tz);
    }
    if input.quietStart.Some? {
      var v := TrimSpace(input.quietStart.value);
      if v != "" && !ValidHHMM(v) {
        return None;
      }
      q := q.(quietStart := v);
    }
    if input.quietEnd.Some? {
      var v := TrimSpace(input.quietEnd.value);
      if v != "" && !ValidHHMM(v) {
        return None;
      }
      q := q.(quietEnd := v);
    }
    if input.preferredHour.Some? {
      var h := input.preferredHour.value;
      if h == CLEAR_PREFERRED_HOUR {
        q := q.(preferredHour := None);
      } else if h < 0 || h > 23 {
        return None;
      } else {
        q := q.(preferredHour := Some(h));
      }
    }
    next := Some(q);
  }

  method ApplyConsent(p: Preference, input: Input) returns (next: Option<Preference>)
    requires Stored(p)
    ensures next.None? <==> BadChannels(input.channels)
    ensures next.Some? ==> Stored(next.value) && AppliedConsent(p, input, next.value)
    ensures next.Some? ==> SameTimes(p, next.value)
  {
    var q := p;
    if input.channels.Some? {
      var chs := NormalizeChannels(input.channels.value);
      if chs.None? {
        return None;
      }
      q := q.(channels := chs.value);
    }
    if input.topics.Some? {
      var topics := NormalizeTopicList(input.topics.value);
      q := q.(topics := topics);
    }
    if input.marketing.Some? {
      q := q.(marketing := input.marketing.value);
    }
    next := Some(q);
  }

  // ---- the difference, logged ----

  method SortedKeys(keys: set<string>) returns (sorted: seq<string>)
    ensures Sorted(sorted) && (forall x :: x in sorted <==> x in keys)
  {
    var left, out := keys, [];
    while left != {}
      invariant left <= keys && forall x :: x in out <==> x in keys && x !in left
      decreases |left|
    {
      var x :| x in left;
      left := left - {x};
      out := out + [x];
    }
    sorted := SortStrings(out);
  }

  function ScopeOf(topic: bool, key: string): Scope {
    if topic then OnTopic(key) else OnChannel(key)
  }

  function KeysIn(s: State, topic: bool): set<string> {
    if topic then s.topics else s.channels
  }

  function WithKeys(s: State, topic: bool, keys: set<string>): State {
    if topic then s.(topics := keys) else s.(channels := keys)
  }

  /** A log entry that says what changed: something blocked now and not before, or the other way round. */
  predicate Truthful(log: Log, before: State, after: State) {
    match log.scope
    case Marketing => before.marketing != after.marketing && log.optOut == after.marketing
    case OnChannel(c) => (c in before.channels) != (c in after.channels) && log.optOut == (c in after.channels)
    case OnTopic(t) => (t in before.topics) != (t in after.topics) && log.optOut == (t in after.topics)
    case _ => true
  }

  predicate TruthfulKeys(logs: seq<Log>, user: string, topic: bool, before: set<string>, after: set<string>) {
    forall i :: 0 <= i < |logs| ==>
      && logs[i].user == user && logs[i].scope == ScopeOf(topic, Named(logs[i].scope))
      && (Named(logs[i].scope) in before) != (Named(logs[i].scope) in after)
      && logs[i].optOut == (Named(logs[i].scope) in after)
  }

  function Named(scope: Scope): string {
    match scope
    case OnChannel(c) => c
    case OnTopic(t) => t
    case _ => ""
  }

  lemma ReplayOne(s: State, logs: seq<Log>, log: Log)
    ensures Replay(s, logs + [log]) == Apply(Replay(s, logs), log)
  {
    assert (logs + [log])[..|logs|] == logs;
  }

  /** Keys opted out of since, then keys opted in again, each in order. */
  method DiffKeys(user: string, topic: bool, before: set<string>, after: set<string>) returns (logs: seq<Log>)
    ensures TruthfulKeys(logs, user, topic, before, after)
    ensures forall s :: KeysIn(s, topic) == before ==> Replay(s, logs) == WithKeys(s, topic, after)
  {
    logs := [];
    var added := SortedKeys(after);
    ghost var done: set<string> := {};
    for i := 0 to |added|
      invariant TruthfulKeys(logs, user, topic, before, after)
      invariant done == set x | x in added[..i]
      invariant forall s :: KeysIn(s, topic) == before ==> Replay(s, logs) == WithKeys(s, topic, before + done)
    {
      assert added[..i + 1] == added[..i] + [added[i]];
      assert added[i] in added;
      if added[i] !in before {
        var log := Log(user, true, ScopeOf(topic, added[i]));
        forall s | KeysIn(s, topic) == before ensures Replay(s, logs + [log]) == WithKeys(s, topic, before + (done + {added[i]})) {
          ReplayOne(s, logs, log);
          assert (before + done) + {added[i]} == before + (done + {added[i]});
        }
        logs := logs + [log];
      } else {
        assert before + done == before + (done + {added[i]});
      }
      done := done + {added[i]};
    }
    assert done == after;
    var removed := SortedKeys(before);
    ghost var gone: set<string> := {};
    assert before + after - gone == before + after;
    for i := 0 to |removed|
      invariant TruthfulKeys(logs, user, topic, before, after)
      invariant gone == set x | x in removed[..i] && x !in after
      invariant forall s :: KeysIn(s, topic) == before ==> Replay(s, logs) == WithKeys(s, topic, before + after - gone)
    {
      assert removed[..i + 1] == removed[..i] + [removed[i]];
      assert removed[i] in removed;
      if removed[i] !in after {
        var log := Log(user, false, ScopeOf(topic, removed[i]));
        forall s | KeysIn(s, topic) == before
          ensures Replay(s, logs + [log]) == WithKeys(s, topic, before + after - (gone + {removed[i]}))
        {
          ReplayOne(s, logs, log);
          assert (before + after - gone) - {removed[i]} == before + after - (gone + {removed[i]});
        }
        logs := logs + [log];
        gone := gone + {removed[i]};
      }
    }
    assert before + after - gone == after;
  }

  /** The entry for the marketing switch, if it moved. */
  method DiffMarketing(user: string, before: bool, after: bool) returns (logs: seq<Log>)
    ensures |logs| == (if before == after then 0 else 1)
    ensures |logs| == 1 ==> logs[0] == Log(user, after, Marketing)
    ensures forall s: State :: s.marketing == before ==> Replay(s, logs) == s.(marketing := after)
  {
    logs := [];
    if before != after {
      logs := [Log(user, after, Marketing)];
      assert logs[..0] == [];
    }
  }

  /** Entries for quiet hours and preferred hour; they do not touch consent. */
  method DiffTimes(user: string, before: Preference, after: Preference) returns (logs: seq<Log>)
    ensures forall i :: 0 <= i < |logs| ==> logs[i].user == user && logs[i].scope in {OnQuietHours, OnPreferredHour}
    ensures forall s :: Replay(s, logs) == s
    ensures before == after.(timezone := before.timezone) ==> logs == []
  {
    logs := [];
    if before.quietStart != after.quietStart || before.quietEnd != after.quietEnd {
      var log := Log(user, after.quietStart != "" && after.quietEnd != "", OnQuietHours);
      forall s ensures Replay(s, logs + [log]) == s { ReplayOne(s, logs, log); }
      logs := logs + [log];
    }
    if before.preferredHour != after.preferredHour {
      var log := Log(user, after.preferredHour.None?, OnPreferredHour);
      forall s ensures Replay(s, logs + [log]) == s { ReplayOne(s, logs, log); }
      logs := logs + [log];
    }
  }

  predicate AllTruthful(logs: seq<Log>, user: string, before: State, after: State) {
    forall i :: 0 <= i < |logs| ==> logs[i].user == user && Truthful(logs[i], before, after)
  }

  lemma KeysTruthful(logs: seq<Log>, user: string, topic: bool, before: State, after: State)
    requires TruthfulKeys(logs, user, topic, KeysIn(before, topic), KeysIn(after, topic))
    ensures AllTruthful(logs, user, before, after)
  {
  }

  lemma TruthfulConcat(a: seq<Log>, b: seq<Log>, user: string, before: State, after: State)
    requires AllTruthful(a, user, before, after) && AllTruthful(b, user, before, after)
    ensures AllTruthful(a + b, user, before, after)
  {
  }

  /** The log entries of a change, dimension by dimension. */
  method DiffConsent(user: string, before: Preference, after: Preference) returns (logs: seq<Log>)
    ensures AllTruthful(logs, user, StateOf(before), StateOf(after))
    ensures Replay(StateOf(before), logs) == StateOf(after)
  {
    ghost var s, t := StateOf(before), StateOf(after);
    var marketing := DiffMarketing(user, before.marketing, after.marketing);
    var chs := DiffKeys(user, false, Keys(before.channels), Keys(after.channels));
    var tps := DiffKeys(user, true, Keys(before.topics), Keys(after.topics));
    var times := DiffTimes(user, before, after);
    KeysTruthful(chs, user, false, s, t);
    KeysTruthful(tps, user, true, s, t);
    logs := marketing + chs + tps + times;
    TruthfulConcat(marketing, chs, user, s, t);
    TruthfulConcat(marketing + chs, tps, user, s, t);
    TruthfulConcat(marketing + chs + tps, times, user, s, t);
    ReplayConcat(s, marketing, chs);
    ReplayConcat(s, marketing + chs, tps);
    ReplayConcat(s, marketing + chs + tps, times);
  }

  /** Entries of one user appended to the log. */
  lemma LogsAppended(logs: seq<Log>, more: seq<Log>, user: string, u: string)
    requires forall i :: 0 <= i < |more| ==> more[i].user == user
    ensures Replay(ALL_ALLOWED, OfUser(logs + more, u)) ==
      if u == user then Replay(Replay(ALL_ALLOWED, OfUser(logs, u)), more) else Replay(ALL_ALLOWED, OfUser(logs, u))
  {
    OfUserConcat(logs, more, u);
    OfOneUser(more, user, u);
    if u == user {
      ReplayConcat(ALL_ALLOWED, OfUser(logs, u), more);
    } else {
      assert OfUser(logs, u) + [] == OfUser(logs, u);
    }
  }

  // ---- the service ----

  /** Only this user's preference changed, and as the update says. */
  ghost predicate Upserted(before: map<string, Preference>, after: map<string, Preference>, user: string, input: Input, answer: Answer) {
    && user in after && answer == Saved(after[user])
    && after == before[user := after[user]]
    && Applied(if user in before then before[user] else NO_PREFERENCE, input, after[user])
  }

  class Service {
    var preferences: map<string, Preference>
    var logs: seq<Log>

    constructor ()
      ensures Valid() && preferences == map[] && logs == []
    {
      preferences, logs := map[], [];
    }

    function Find(user: string): Option<Preference>
      reads this
    {
      if user in preferences then Some(preferences[user]) else None
    }

    function Current(user: string): State
      reads this
    {
      if user in preferences then StateOf(preferences[user]) else ALL_ALLOWED
    }

    /** What is stored is normal, and the log of every user replays to it. */
    ghost predicate Valid()
      reads this
    {
      && (forall user :: user in preferences ==> Stored(preferences[user]))
      && (forall user :: Replay(ALL_ALLOWED, OfUser(logs, user)) == Current(user))
    }

    /** The consent log agrees with enforcement. */
    lemma LogDecides(user: string, channel: string, topic: string)
      requires Valid() && channel in CHANNELS
      ensures var s := Replay(ALL_ALLOWED, OfUser(logs, user));
        Blocks(Find(user), channel, topic, false) <==>
          s.marketing || channel in s.channels || Fold(topic) in s.topics
    {
      BlocksByState(Find(user), channel, topic);
    }

    /** No message of high priority is held back, whatever was opted out of. */
    lemma HighGoesOut(user: string, channel: string, topic: string)
      ensures !Blocks(Find(user), channel, topic, true)
    {
    }

    /** A partial update: only the given fields change, and exactly the differences are logged. */
    method Upsert(name: string, input: Input, zoneKnown: bool) returns (answer: Answer)
      requires Valid()
      modifies this
      ensures Valid()
      ensures answer == InvalidInput <==> TrimSpace(name) == "" || Refused(input, zoneKnown)
      ensures answer == InvalidInput ==> preferences == old(preferences) && logs == old(logs)
      ensures answer == InvalidInput || Upserted(old(preferences), preferences, TrimSpace(name), input, answer)
      ensures old(logs) <= logs
    {
      var user := TrimSpace(name);
      if user == "" {
        return InvalidInput;
      }
      var before := if user in preferences then preferences[user] else NO_PREFERENCE;
      assert StateOf(before) == Current(user);
      var next := ApplyInput(before, input, zoneKnown);
      if next.None? {
        return InvalidInput;
      }
      var more := DiffConsent(user, before, next.value);
      preferences := preferences[user := next.value];
      logs := logs + more;
      forall u ensures Replay(ALL_ALLOWED, OfUser(logs, u)) == Current(u) {
        LogsAppended(old(logs), more, user, u);
        assert Replay(ALL_ALLOWED, OfUser(old(logs), u)) == old(Current(u));
      }
      answer := Saved(next.value);
    }

    /** Deletion goes back to everything allowed, and is logged as such. */
    method Delete(name: string) returns (answer: Answer)
      requires Valid()
      modifies this
      ensures Valid()
      ensures var user := TrimSpace(name);
        if user == "" then answer == InvalidInput && preferences == old(preferences) && logs == old(logs)
        else if user !in old(preferences) then answer == NotFound && preferences == old(preferences) && logs == old(logs)
        else answer == Removed && preferences == old(preferences) - {user} && Current(user) == ALL_ALLOWED
             && old(logs) < logs && logs[|logs| - 1] == Log(user, false, WholeRecord)
    {
      var user := TrimSpace(name);
      if user == "" {
        return InvalidInput;
      }
      if user !in preferences {
        return NotFound;
      }
      var existing := preferences[user];
      var more := DiffConsent(user, existing, NO_PREFERENCE);
      ReplayOne(StateOf(existing), more, Log(user, false, WholeRecord));
      more := more + [Log(user, false, WholeRecord)];
      preferences := preferences - {user};
      logs := logs + more;
      assert Current(user) == StateOf(NO_PREFERENCE);
      forall u ensures Replay(ALL_ALLOWED, OfUser(logs, u)) == Current(u) {
        LogsAppended(old(logs), more, user, u);
        assert Replay(ALL_ALLOWED, OfUser(old(logs), u)) == old(Current(u));
      }
      answer := Removed;
    }
  }
}
