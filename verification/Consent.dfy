/** User preferences and the consent log: every change is logged, and replaying the log gives what is enforced. */
module Consent {
  import opened Status
  import opened Text
  import opened Strings

  datatype Preference = Preference(
    timezone: string, quietStart: string, quietEnd: string, preferredHour: Option<int>,
    channels: seq<string>, topics: seq<string>, marketing: bool)

  const NO_PREFERENCE := Preference("", "", "", None, [], [], false)

  /** A partial update; None leaves a field alone. */
  datatype Input = Input(
    timezone: Option<string>, quietStart: Option<string>, quietEnd: Option<string>, preferredHour: Option<int>,
    channels: Option<seq<string>>, topics: Option<seq<string>>, marketing: Option<bool>)

  /** What is sent to clear the preferred hour. */
  const CLEAR_PREFERRED_HOUR := -1

  const CHANNELS: set<string> := {"app_push", "sms", "email", "inbox", "wecom", "dingtalk"}

  // ---- the log ----

  datatype Scope = Marketing | OnChannel(channel: string) | OnTopic(topic: string) | OnQuietHours | OnPreferredHour | WholeRecord

  datatype Log = Log(user: string, optOut: bool, scope: Scope)

  /** What a user has consented to: nothing blocked by default. */
  datatype State = State(marketing: bool, channels: set<string>, topics: set<string>)

  const ALL_ALLOWED := State(false, {}, {})

  function Apply(s: State, log: Log): State {
    match log.scope
    case Marketing => s.(marketing := log.optOut)
    case OnChannel(c) => s.(channels := if log.optOut then s.channels + {c} else s.channels - {c})
    case OnTopic(t) => s.(topics := if log.optOut then s.topics + {t} else s.topics - {t})
    case _ => s
  }

  function Replay(s: State, logs: seq<Log>): State {
    if logs == [] then s else Apply(Replay(s, logs[..|logs| - 1]), logs[|logs| - 1])
  }

  lemma {:induction false} ReplayConcat(s: State, a: seq<Log>, b: seq<Log>)
    ensures Replay(s, a + b) == Replay(Replay(s, a), b)
  {
    if b == [] {
      assert a + b == a;
    } else {
      assert (a + b)[..|a + b| - 1] == a + b[..|b| - 1];
      ReplayConcat(s, a, b[..|b| - 1]);
    }
  }

  function OfUser(logs: seq<Log>, user: string): seq<Log> {
    if logs == [] then []
    else OfUser(logs[..|logs| - 1], user) + (if logs[|logs| - 1].user == user then [logs[|logs| - 1]] else [])
  }

  lemma {:induction false} OfUserConcat(a: seq<Log>, b: seq<Log>, user: string)
    ensures OfUser(a + b, user) == OfUser(a, user) + OfUser(b, user)
  {
    if b == [] {
      assert a + b == a;
    } else {
      assert (a + b)[..|a + b| - 1] == a + b[..|b| - 1];
      OfUserConcat(a, b[..|b| - 1], user);
    }
  }

  lemma {:induction false} OfOneUser(logs: seq<Log>, user: string, other: string)
    requires forall i :: 0 <= i < |logs| ==> logs[i].user == user
    ensures OfUser(logs, other) == if other == user then logs else []
  {
    if logs != [] {
      OfOneUser(logs[..|logs| - 1], user, other);
      assert logs == logs[..|logs| - 1] + [logs[|logs| - 1]];
    }
  }

  // ---- what a preference blocks ----

  function Fold(s: string): string {
    ToLower(TrimSpace(s))
  }

  /** The folded items but for the empty one. */
  function Keys(items: seq<string>): set<string> {
    if items == [] then {} else Keys(items[..|items| - 1]) + KeyOf(items[|items| - 1])
  }

  function KeyOf(item: string): set<string> {
    if Fold(item) == "" then {} else {Fold(item)}
  }

  predicate HasKey(items: seq<string>, key: string) {
    exists i :: 0 <= i < |items| && key in KeyOf(items[i])
  }

  lemma {:induction false} KeysHave(items: seq<string>, key: string)
    ensures key in Keys(items) <==> HasKey(items, key)
  {
    if items != [] {
      var n := |items| - 1;
      KeysHave(items[..n], key);
      if HasKey(items[..n], key) {
        var i :| 0 <= i < n && key in KeyOf(items[..n][i]);
        assert key in KeyOf(items[i]);
      }
    }
  }

  function StateOf(p: Preference): State {
    State(p.marketing, Keys(p.channels), Keys(p.topics))
  }

  /** Channels are stored in lower case and valid; topics trimmed, none twice. */
  predicate Stored(p: Preference) {
    ChannelsNormal(p.channels) && TopicsNormal(p.topics)
  }

  predicate ChannelsNormal(channels: seq<string>) {
    forall i :: 0 <= i < |channels| ==> channels[i] in CHANNELS
  }

  predicate TopicsNormal(topics: seq<string>) {
    Picked(topics) && Sorted(topics)
  }

  /** Trimmed, not empty, none twice but for case. */
  predicate Picked(topics: seq<string>) {
    topics == [] ||
    var n := |topics| - 1;
    Picked(topics[..n]) && Trimmed(topics[n]) && ToLower(topics[n]) !in Keys(topics[..n])
  }

  predicate Trimmed(s: string) {
    s != "" && TrimSpace(s) == s
  }

  predicate IsChannelOptedOut(p: Option<Preference>, channel: string) {
    p.Some? && channel != "" && exists i :: 0 <= i < |p.value.channels| && TrimSpace(p.value.channels[i]) == channel
  }

  predicate IsTopicOptedOut(p: Option<Preference>, topic: string) {
    p.Some? && Fold(topic) != "" && HasFolded(p.value.topics, Fold(topic))
  }

  predicate HasFolded(items: seq<string>, key: string) {
    exists i :: 0 <= i < |items| && Fold(items[i]) == key
  }

  /** High-priority messages are never blocked. */
  predicate Blocks(p: Option<Preference>, channel: string, topic: string, high: bool) {
    p.Some? && !high && (p.value.marketing || IsChannelOptedOut(p, channel) || IsTopicOptedOut(p, topic))
  }

  lemma ValidChannelsFold(c: string)
    requires c in CHANNELS
    ensures TrimSpace(c) == c && Fold(c) == c && c != ""
  {
    FoldLetters(c);
  }

  lemma {:induction false} FoldLetters(c: string)
    requires c != "" && forall i :: 0 <= i < |c| ==> 'a' <= c[i] <= 'z' || c[i] == '_'
    ensures TrimSpace(c) == c && ToLower(c) == c
  {
    assert !IsSpace(c[0]) && !IsSpace(c[|c| - 1]);
    LowerStays(c);
  }

  lemma ChannelKey(c: string)
    requires c in CHANNELS
    ensures TrimSpace(c) == c && c != "" && KeyOf(c) == {c}
  {
    ValidChannelsFold(c);
  }

  lemma ChannelsByKey(p: Preference, channel: string)
    requires Stored(p) && channel in CHANNELS
    ensures IsChannelOptedOut(Some(p), channel) <==> channel in Keys(p.channels)
  {
    KeysHave(p.channels, channel);
    ChannelKey(channel);
    forall i | 0 <= i < |p.channels| ensures TrimSpace(p.channels[i]) == channel <==> channel in KeyOf(p.channels[i]) {
      ChannelKey(p.channels[i]);
    }
  }

  lemma FoldedHasKey(items: seq<string>, key: string)
    ensures HasKey(items, key) <==> key != "" && HasFolded(items, key)
  {
    if HasKey(items, key) {
      var i :| 0 <= i < |items| && key in KeyOf(items[i]);
      assert Fold(items[i]) == key;
    }
    if key != "" && HasFolded(items, key) {
      var i :| 0 <= i < |items| && Fold(items[i]) == key;
      assert key in KeyOf(items[i]);
    }
  }

  lemma TopicsByKey(p: Preference, key: string)
    ensures key in Keys(p.topics) <==> key != "" && HasFolded(p.topics, key)
  {
    KeysHave(p.topics, key);
    FoldedHasKey(p.topics, key);
  }

  /** Enforcement of a normal message on a valid channel is what the consent state says. */
  lemma BlocksByState(p: Option<Preference>, channel: string, topic: string)
    requires p.Some? ==> Stored(p.value)
    requires channel in CHANNELS
    ensures var s := if p.Some? then StateOf(p.value) else ALL_ALLOWED;
      Blocks(p, channel, topic, false) <==> s.marketing || channel in s.channels || Fold(topic) in s.topics
  {
    if p.Some? {
      ChannelsByKey(p.value, channel);
      TopicsByKey(p.value, Fold(topic));
    }
  }
}
