/** Filling {{ name }} placeholders: how a body is cut into text and placeholders, the four policies for missing
    variables, and the list of missing ones. */
module Rendering {
  import opened Status

  datatype Policy = Error | Keep | Default | Empty

  datatype Token = Text(c: char) | Placeholder(name: string, text: string)

  // ---- cutting a body ----

  predicate IsBlank(c: char) {
    c in {'\t', '\n', '\U{000C}', '\r', ' '}
  }

  predicate IsNameChar(c: char) {
    'a' <= c <= 'z' || 'A' <= c <= 'Z' || '0' <= c <= '9' || c == '_'
  }

  /** The first index from `i` on that is no blank. */
  function SkipBlanks(s: string, i: nat): (j: nat)
    requires i <= |s|
    ensures i <= j <= |s| && (forall k :: i <= k < j ==> IsBlank(s[k])) && (j < |s| ==> !IsBlank(s[j]))
    decreases |s| - i
  {
    if i == |s| || !IsBlank(s[i]) then i else SkipBlanks(s, i + 1)
  }

  /** The first index from `i` on that is no character of a name. */
  function SkipName(s: string, i: nat): (j: nat)
    requires i <= |s|
    ensures i <= j <= |s| && (forall k :: i <= k < j ==> IsNameChar(s[k])) && (j < |s| ==> !IsNameChar(s[j]))
    decreases |s| - i
  {
    if i == |s| || !IsNameChar(s[i]) then i else SkipName(s, i + 1)
  }

  /** `s` starts with two braces, blanks up to `a`, a name up to `b`, blanks up to `c` and two braces. */
  predicate Starts(s: string, a: nat, b: nat, c: nat) {
    && 2 <= a < b <= c && c + 2 <= |s|
    && s[0] == '{' && s[1] == '{' && s[c] == '}' && s[c + 1] == '}'
    && (forall i :: 2 <= i < a ==> IsBlank(s[i]))
    && (forall i :: a <= i < b ==> IsNameChar(s[i]))
    && (forall i :: b <= i < c ==> IsBlank(s[i]))
  }

  /** The whole of `s` is a placeholder. */
  ghost predicate IsPlaceholder(s: string, name: string) {
    exists a: nat, b: nat, c: nat :: Starts(s, a, b, c) && |s| == c + 2 && name == s[a..b]
  }

  function Cut(s: string, a: nat, b: nat, c: nat): Token
    requires a <= b <= c && c + 2 <= |s|
  {
    Placeholder(s[a..b], s[..c + 2])
  }

  /** The placeholder at the start of `s`, if there is one. */
  function MatchAt(s: string): (m: Option<Token>)
    ensures m.Some? ==> m.value.Placeholder? && m.value.text <= s && |m.value.text| >= 5
  {
    if |s| < 2 || s[0] != '{' || s[1] != '{' then None
    else
      var a := SkipBlanks(s, 2);
      var b := SkipName(s, a);
      var c := SkipBlanks(s, b);
      if b == a || c + 2 > |s| || s[c] != '}' || s[c + 1] != '}' then None else Some(Cut(s, a, b, c))
  }

  lemma MatchStarts(s: string) returns (a: nat, b: nat, c: nat)
    requires MatchAt(s).Some?
    ensures Starts(s, a, b, c) && MatchAt(s).value == Cut(s, a, b, c)
  {
    a := SkipBlanks(s, 2);
    b := SkipName(s, a);
    c := SkipBlanks(s, b);
  }

  lemma PrefixStarts(s: string, a: nat, b: nat, c: nat)
    requires Starts(s, a, b, c)
    ensures Starts(s[..c + 2], a, b, c) && s[..c + 2][a..b] == s[a..b]
  {
    var t := s[..c + 2];
    assert forall i :: 0 <= i < |t| ==> t[i] == s[i];
  }

  /** What is found is a placeholder. */
  lemma MatchIsPlaceholder(s: string)
    ensures MatchAt(s).Some? ==> IsPlaceholder(MatchAt(s).value.text, MatchAt(s).value.name)
  {
    if MatchAt(s).Some? {
      var a, b, c := MatchStarts(s);
      PrefixStarts(s, a, b, c);
    }
  }

  lemma NotBlankName(c: char)
    ensures IsNameChar(c) ==> !IsBlank(c)
    ensures c == '}' ==> !IsNameChar(c) && !IsBlank(c)
    ensures IsBlank(c) ==> !IsNameChar(c)
  {
  }

  /** And every placeholder that starts `s` is found. */
  lemma PlaceholderIsMatched(s: string, a: nat, b: nat, c: nat)
    requires Starts(s, a, b, c)
    ensures MatchAt(s) == Some(Cut(s, a, b, c))
  {
    NotBlankName(s[a]);
    assert SkipBlanks(s, 2) == a;
    NotBlankName(s[b]);
    assert SkipName(s, a) == b;
    NotBlankName(s[c]);
    assert SkipBlanks(s, b) == c;
  }

  /** The leftmost placeholders, and the text between them. */
  function Tokens(body: string): seq<Token>
    decreases |body|
  {
    if body == "" then []
    else match MatchAt(body)
      case Some(p) => [p] + Tokens(body[|p.text|..])
      case None => [Text(body[0])] + Tokens(body[1..])
  }

  function Shown(t: Token): string {
    match t
    case Text(c) => [c]
    case Placeholder(_, text) => text
  }

  function Join(tokens: seq<Token>): string {
    if tokens == [] then "" else Shown(tokens[0]) + Join(tokens[1..])
  }

  /** Nothing is lost in cutting: the pieces put together are the body. */
  lemma {:induction false} CutAndJoin(body: string)
    ensures Join(Tokens(body)) == body
    decreases |body|
  {
    if body != "" {
      match MatchAt(body)
      case Some(p) =>
        CutAndJoin(body[|p.text|..]);
        assert body == p.text + body[|p.text|..];
      case None =>
        CutAndJoin(body[1..]);
        assert body == [body[0]] + body[1..];
    }
  }

  /** Every placeholder token is one, and text is kept only where no placeholder starts. */
  lemma {:induction false} CutIsLeftmost(body: string, i: nat)
    requires i < |Tokens(body)|
    ensures var t := Tokens(body)[i];
      var rest := Join(Tokens(body)[i..]);
      match t
      case Placeholder(name, text) => IsPlaceholder(text, name)
      case Text(_) => MatchAt(rest).None?
    decreases i
  {
    CutAndJoin(body);
    if i == 0 {
      assert Tokens(body)[0..] == Tokens(body);
      MatchIsPlaceholder(body);
    } else {
      var rest := match MatchAt(body) case Some(p) => body[|p.text|..] case None => body[1..];
      assert Tokens(body)[i..] == Tokens(rest)[i - 1..];
      CutIsLeftmost(rest, i - 1);
    }
  }

  // ---- rendering ----

  function Lookup(m: map<string, string>, name: string): string {
    if name in m then m[name] else ""
  }

  /** What a token turns into. */
  function Filled(t: Token, vars: map<string, string>, policy: Policy, defaults: map<string, string>): string {
    match t
    case Text(c) => [c]
    case Placeholder(name, text) =>
      if name in vars then vars[name]
      else match policy
        case Keep => text
        case Default => Lookup(defaults, name)
        case _ => ""
  }

  function FilledAll(tokens: seq<Token>, vars: map<string, string>, policy: Policy, defaults: map<string, string>): string {
    if tokens == [] then "" else FilledAll(tokens[..|tokens| - 1], vars, policy, defaults) + Filled(tokens[|tokens| - 1], vars, policy, defaults)
  }

  /** The missing names, one for each placeholder that misses its variable. */
  function Misses(tokens: seq<Token>, vars: map<string, string>): seq<string> {
    if tokens == [] then []
    else
      var t := tokens[|tokens| - 1];
      Misses(tokens[..|tokens| - 1], vars) + (if t.Placeholder? && t.name !in vars then [t.name] else [])
  }

  /** The text, and the missing names when they are an error. */
  datatype Rendered = Rendered(text: string, missing: seq<string>)

  /** Without a variable map and with the empty policy the body is left alone; without a map otherwise, all are missing. */
  function Render(body: string, vars: Option<map<string, string>>, policy: Policy, defaults: map<string, string>): Rendered {
    if vars.None? && policy.Empty? then Rendered(body, [])
    else
      var known := if vars.Some? then vars.value else map[];
      Rendered(FilledAll(Tokens(body), known, policy, defaults), if policy.Error? then Misses(Tokens(body), known) else [])
  }

  function Concat(parts: seq<string>): string {
    if parts == [] then "" else Concat(parts[..|parts| - 1]) + parts[|parts| - 1]
  }

  /** What stands for a piece of the body: text stands for itself, a given value for its placeholder; a placeholder whose
      variable is missing is kept, replaced by the default, if there is one, or taken out. */
  predicate StandsFor(part: string, t: Token, vars: map<string, string>, policy: Policy, defaults: map<string, string>) {
    && (t.Text? ==> part == [t.c])
    && (t.Placeholder? && t.name in vars ==> part == vars[t.name])
    && (t.Placeholder? && t.name !in vars && policy == Keep ==> part == t.text)
    && (t.Placeholder? && t.name !in vars && policy == Default && t.name in defaults ==> part == defaults[t.name])
    && (t.Placeholder? && t.name !in vars && (policy in {Empty, Error} || (policy == Default && t.name !in defaults)) ==> part == "")
  }

  ghost predicate PutTogether(text: string, parts: seq<string>, tokens: seq<Token>, vars: map<string, string>, policy: Policy,
                              defaults: map<string, string>) {
    && text == Concat(parts) && |parts| == |tokens|
    && forall i :: 0 <= i < |tokens| ==> StandsFor(parts[i], tokens[i], vars, policy, defaults)
  }

  lemma {:induction false} FilledParts(tokens: seq<Token>, vars: map<string, string>, policy: Policy, defaults: map<string, string>)
    returns (parts: seq<string>)
    ensures PutTogether(FilledAll(tokens, vars, policy, defaults), parts, tokens, vars, policy, defaults)
  {
    parts := [];
    if tokens != [] {
      var n := |tokens| - 1;
      var before := FilledParts(tokens[..n], vars, policy, defaults);
      parts := before + [Filled(tokens[n], vars, policy, defaults)];
      assert parts[..n] == before;
    }
  }

  /** The rendered text, piece by piece of the body. Without a variable map all are missing, but the empty policy leaves
      the body alone. */
  lemma RenderedByPieces(body: string, vars: Option<map<string, string>>, policy: Policy, defaults: map<string, string>)
    ensures vars.None? && policy == Empty ==> Render(body, vars, policy, defaults).text == body
    ensures var known: map<string, string> := if vars.Some? then vars.value else map[];
      var text := Render(body, vars, policy, defaults).text;
      !(vars.None? && policy == Empty) ==> exists parts :: PutTogether(text, parts, Tokens(body), known, policy, defaults)
    ensures policy != Error ==> Render(body, vars, policy, defaults).missing == []
  {
    var parts := FilledParts(Tokens(body), if vars.Some? then vars.value else map[], policy, defaults);
  }

  lemma OneMoreFilled(tokens: seq<Token>, i: nat, vars: map<string, string>, policy: Policy, defaults: map<string, string>)
    requires i < |tokens|
    ensures FilledAll(tokens[..i + 1], vars, policy, defaults)
         == FilledAll(tokens[..i], vars, policy, defaults) + Filled(tokens[i], vars, policy, defaults)
    ensures Misses(tokens[..i + 1], vars) == Misses(tokens[..i], vars)
         + (if tokens[i].Placeholder? && tokens[i].name !in vars then [tokens[i].name] else [])
  {
    assert tokens[..i + 1][..i] == tokens[..i];
  }

  method RenderTemplateWithPolicy(body: string, vars: Option<map<string, string>>, policy: Policy, defaults: map<string, string>)
    returns (r: Rendered)
    ensures r == Render(body, vars, policy, defaults)
  {
    if vars.None? && policy == Empty {
      return Rendered(body, []);
    }
    var known := if vars.Some? then vars.value else map[];
    var tokens := Tokens(body);
    var out, missing := "", [];
    for i := 0 to |tokens|
      invariant out == FilledAll(tokens[..i], known, policy, defaults)
      invariant missing == if policy.Error? then Misses(tokens[..i], known) else []
    {
      OneMoreFilled(tokens, i, known, policy, defaults);
      match tokens[i] {
        case Text(c) => out := out + [c];
        case Placeholder(name, text) =>
          if name in known {
            out := out + known[name];
          } else {
            match policy {
              case Keep => out := out + text;
              case Default => out := out + Lookup(defaults, name);
              case Error => missing := missing + [name];
              case Empty =>
            }
          }
      }
    }
    assert tokens[..|tokens|] == tokens;
    r := Rendered(out, missing);
  }

  // ---- the list of missing variables ----

  predicate Occurs(tokens: seq<Token>, name: string) {
    exists i :: 0 <= i < |tokens| && IsNamed(tokens[i], name)
  }

  predicate IsNamed(t: Token, name: string) {
    t.Placeholder? && t.name == name
  }

  lemma OccursGrows(tokens: seq<Token>, i: nat, name: string)
    requires i < |tokens|
    ensures Occurs(tokens[..i + 1], name) <==> Occurs(tokens[..i], name) || IsNamed(tokens[i], name)
  {
    assert tokens[..i + 1] == tokens[..i] + [tokens[i]];
    if Occurs(tokens[..i], name) {
      var k :| 0 <= k < i && IsNamed(tokens[..i][k], name);
      assert IsNamed(tokens[..i + 1][k], name);
    }
    if IsNamed(tokens[i], name) {
      assert IsNamed(tokens[..i + 1][i], name);
    }
  }

  predicate Distinct(names: seq<string>) {
    forall i, j :: 0 <= i < j < |names| ==> names[i] != names[j]
  }

  /** Names that occur and have no value, each once. */
  method MissingVars(body: string, vars: Option<map<string, string>>) returns (missing: seq<string>)
    ensures Distinct(missing)
    ensures forall name :: name in missing <==> Occurs(Tokens(body), name) && (vars.None? || name !in vars.value)
  {
    var tokens := Tokens(body);
    var seen: set<string> := {};
    missing := [];
    for i := 0 to |tokens|
      invariant forall name :: name in seen <==> Occurs(tokens[..i], name)
      invariant forall name :: name in missing <==> Occurs(tokens[..i], name) && (vars.None? || name !in vars.value)
      invariant Distinct(missing)
    {
      forall name ensures Occurs(tokens[..i + 1], name) <==> Occurs(tokens[..i], name) || IsNamed(tokens[i], name) {
        OccursGrows(tokens, i, name);
      }
      if tokens[i].Placeholder? {
        var k := tokens[i].name;
        if k !in seen {
          seen := seen + {k};
          if vars.None? || k !in vars.value {
            missing := missing + [k];
          }
        }
      }
    }
    assert tokens[..|tokens|] == tokens;
  }

  lemma {:induction false} MissesAre(tokens: seq<Token>, vars: map<string, string>, name: string)
    ensures name in Misses(tokens, vars) <==> Occurs(tokens, name) && name !in vars
  {
    if tokens != [] {
      var n := |tokens| - 1;
      MissesAre(tokens[..n], vars, name);
      OccursGrows(tokens, n, name);
      assert tokens[..n + 1] == tokens;
    }
  }

  /** With variables given, the error policy fails exactly when some variable is missing. */
  lemma ErrorIffMissing(body: string, vars: map<string, string>, defaults: map<string, string>)
    ensures Render(body, Some(vars), Error, defaults).missing != [] <==>
      exists name :: Occurs(Tokens(body), name) && name !in vars
  {
    var missing := Misses(Tokens(body), vars);
    if missing != [] {
      MissesAre(Tokens(body), vars, missing[0]);
    }
    if name: string :| Occurs(Tokens(body), name) && name !in vars {
      MissesAre(Tokens(body), vars, name);
    }
  }

  lemma {:induction false} FilledAgree(tokens: seq<Token>, vars: map<string, string>, p: Policy, q: Policy, defaults: map<string, string>)
    requires forall i :: 0 <= i < |tokens| && tokens[i].Placeholder? ==> tokens[i].name in vars
    ensures FilledAll(tokens, vars, p, defaults) == FilledAll(tokens, vars, q, defaults)
  {
    if tokens != [] {
      FilledAgree(tokens[..|tokens| - 1], vars, p, q, defaults);
    }
  }

  /** When none is missing, all policies give the same text and none fails. */
  lemma PoliciesAgree(body: string, vars: map<string, string>, p: Policy, q: Policy, defaults: map<string, string>)
    requires forall name :: Occurs(Tokens(body), name) ==> name in vars
    ensures Render(body, Some(vars), p, defaults) == Render(body, Some(vars), q, defaults)
    ensures Render(body, Some(vars), p, defaults).missing == []
  {
    var tokens := Tokens(body);
    forall i | 0 <= i < |tokens| && tokens[i].Placeholder? ensures tokens[i].name in vars {
      assert IsNamed(tokens[i], tokens[i].name);
      assert Occurs(tokens, tokens[i].name);
    }
    FilledAgree(tokens, vars, p, q, defaults);
    var missing := Misses(tokens, vars);
    if missing != [] {
      MissesAre(tokens, vars, missing[0]);
    }
  }

  lemma {:induction false} JoinLast(tokens: seq<Token>)
    requires tokens != []
    ensures Join(tokens) == Join(tokens[..|tokens| - 1]) + Shown(tokens[|tokens| - 1])
  {
    if |tokens| > 1 {
      JoinLast(tokens[1..]);
      assert tokens[1..][..|tokens| - 2] == tokens[..|tokens| - 1][1..];
    }
  }

  lemma {:induction false} KeptIsJoined(tokens: seq<Token>, defaults: map<string, string>)
    ensures FilledAll(tokens, map[], Keep, defaults) == Join(tokens)
  {
    if tokens != [] {
      KeptIsJoined(tokens[..|tokens| - 1], defaults);
      JoinLast(tokens);
    }
  }

  /** Keeping placeholders, with no variables, changes nothing; nor does the empty policy without a map. */
  lemma KeepIsIdentity(body: string, vars: Option<map<string, string>>, defaults: map<string, string>)
    requires vars.None? || vars.value == map[]
    ensures Render(body, vars, Keep, defaults) == Rendered(body, [])
    ensures vars.None? ==> Render(body, vars, Empty, defaults) == Rendered(body, [])
  {
    KeptIsJoined(Tokens(body), defaults);
    CutAndJoin(body);
  }
}
