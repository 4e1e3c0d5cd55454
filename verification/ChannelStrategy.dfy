/** Which channels a message goes to: the stable order by cost, and the routing rules. */
module ChannelStrategy {
  import opened Status
  import opened Text
  import opened Strings
  import SetSums

  // ---- order by cost ----

  const UNKNOWN_COST := 100

  const DEFAULT_COSTS: map<Channel, int> :=
    map["inbox" := 1, "app_push" := 2, "email" := 3, "wecom" := 4, "dingtalk" := 4, "sms" := 10]

  function CostOf(ch: Channel, costs: map<Channel, int>): int {
    if ch in costs then costs[ch] else if ch in DEFAULT_COSTS then DEFAULT_COSTS[ch] else UNKNOWN_COST
  }

  /** A cost given with the message counts; without one the known channels have their order, and any other comes last. */
  lemma KnownOrder(costs: map<Channel, int>, other: Channel)
    ensures forall ch :: ch in costs ==> CostOf(ch, costs) == costs[ch]
    ensures costs.Keys !! {"inbox", "app_push", "email", "wecom", "dingtalk", "sms", other} && other !in DEFAULT_COSTS ==>
      CostOf("inbox", costs) < CostOf("app_push", costs) < CostOf("email", costs) < CostOf("wecom", costs)
        == CostOf("dingtalk", costs) < CostOf("sms", costs) < CostOf(other, costs)
  {
  }

  /** Channel i goes before channel j: cheaper, or as cheap and listed before. */
  predicate Before(chs: seq<Channel>, costs: map<Channel, int>, i: nat, j: nat)
    requires i < |chs| && j < |chs|
  {
    CostOf(chs[i], costs) < CostOf(chs[j], costs) || (CostOf(chs[i], costs) == CostOf(chs[j], costs) && i < j)
  }

  /** `order` lists every index of `chs` once, the earlier ones going before the later. */
  predicate StableOrder(chs: seq<Channel>, costs: map<Channel, int>, order: seq<nat>) {
    && |order| == |chs|
    && (forall a :: 0 <= a < |order| ==> order[a] < |chs|)
    && (forall i :: 0 <= i < |chs| ==> i in order)
    && (forall a, b :: 0 <= a < b < |order| ==> order[a] < |chs| && order[b] < |chs| && Before(chs, costs, order[a], order[b]))
  }

  /** `out` is `chs` taken in this order. */
  predicate Reordered(chs: seq<Channel>, order: seq<nat>, out: seq<Channel>) {
    |out| == |order| == |chs| && forall a :: 0 <= a < |out| ==> order[a] < |chs| && out[a] == chs[order[a]]
  }

  predicate Placed(chs: seq<Channel>, order: seq<nat>, out: seq<Channel>, i: nat)
    requires i < |chs| && |order| == |out|
  {
    exists a :: 0 <= a < |out| && order[a] == i && out[a] == chs[i]
  }

  /** What the stable order means: costs never fall along it, equal ones stay as they were, and each channel is there. */
  lemma SortedMeans(chs: seq<Channel>, costs: map<Channel, int>, order: seq<nat>, out: seq<Channel>)
    requires StableOrder(chs, costs, order) && Reordered(chs, order, out)
    ensures |out| == |order| == |chs|
    ensures forall a, b :: 0 <= a < b < |out| ==>
      CostOf(out[a], costs) <= CostOf(out[b], costs) && (CostOf(out[a], costs) == CostOf(out[b], costs) ==> order[a] < order[b])
    ensures forall i :: 0 <= i < |chs| ==> Placed(chs, order, out, i)
  {
    forall i | 0 <= i < |chs| ensures Placed(chs, order, out, i) {
      assert i in order;
      var a :| 0 <= a < |order| && order[a] == i;
      assert out[a] == chs[i];
    }
  }

  /** What the selection has taken so far. */
  ghost predicate Selected(chs: seq<Channel>, costs: map<Channel, int>, order: seq<nat>, used: seq<bool>) {
    && |used| == |chs|
    && (forall a :: 0 <= a < |order| ==> order[a] < |chs|)
    && (forall i :: 0 <= i < |chs| ==> (used[i] <==> i in order))
    && (forall a, b :: 0 <= a < b < |order| ==> order[a] < |chs| && order[b] < |chs| && Before(chs, costs, order[a], order[b]))
    && (forall a, i :: 0 <= a < |order| && 0 <= i < |chs| && !used[i] ==> order[a] < |chs| && Before(chs, costs, order[a], i))
  }

  ghost function BelowSet(n: nat): (s: set<nat>)
    ensures |s| == n && forall i: nat :: i in s <==> i < n
  {
    if n == 0 then {} else BelowSet(n - 1) + {n - 1}
  }

  ghost function Members(order: seq<nat>): (s: set<nat>)
    ensures |s| <= |order| && forall i :: i in s <==> i in order
  {
    if order == [] then {}
    else
      var n := |order| - 1;
      assert order == order[..n] + [order[n]];
      Members(order[..n]) + {order[n]}
  }

  /** Fewer numbers than `n` leave one below `n` out. */
  lemma NotAllUsed(order: seq<nat>, n: nat)
    requires |order| < n
    ensures exists i :: 0 <= i < n && i !in order
  {
    if forall i :: 0 <= i < n ==> i in order {
      SetSums.SubsetCard(BelowSet(n), Members(order));
    }
  }

  lemma {:induction false} DistinctMembers(order: seq<nat>)
    requires forall a, b :: 0 <= a < b < |order| ==> order[a] != order[b]
    ensures |Members(order)| == |order|
  {
    if order != [] {
      var n := |order| - 1;
      DistinctMembers(order[..n]);
      assert order[n] !in order[..n];
    }
  }

  /** As many different numbers below `n` as there are leave none out. */
  lemma NoneLeftOut(order: seq<nat>, n: nat)
    requires |order| == n && forall a :: 0 <= a < |order| ==> order[a] < n
    requires forall a, b :: 0 <= a < b < |order| ==> order[a] != order[b]
    ensures forall i :: 0 <= i < n ==> i in order
  {
    DistinctMembers(order);
    SetSums.SubsetCard(Members(order), BelowSet(n));
    assert forall i :: 0 <= i < n ==> i in BelowSet(n);
  }

  /** The cheapest channel not used yet, the first of them. */
  method Best(chs: seq<Channel>, costs: map<Channel, int>, used: array<bool>, ghost order: seq<nat>) returns (best: nat)
    requires Selected(chs, costs, order, used[..]) && |order| < |chs|
    ensures best < |chs| && !used[best]
    ensures forall i :: 0 <= i < |chs| && !used[i] && i != best ==> Before(chs, costs, best, i)
  {
    NotAllUsed(order, |chs|);
    var found := -1;
    for i := 0 to |chs|
      invariant -1 <= found < i
      invariant found >= 0 ==> !used[found]
      invariant found >= 0 ==> forall j :: 0 <= j < i && !used[j] && j != found ==> Before(chs, costs, found, j)
      invariant found < 0 ==> forall j :: 0 <= j < i ==> used[j]
    {
      if !used[i] {
        if found < 0 || CostOf(chs[i], costs) < CostOf(chs[found], costs)
          || (CostOf(chs[i], costs) == CostOf(chs[found], costs) && i < found)
        {
          found := i;
        }
      }
    }
    assert forall j :: 0 <= j < |chs| ==> used[..][j] == used[j];
    assert found >= 0;
    best := found;
  }

  lemma SelectedOneMore(chs: seq<Channel>, costs: map<Channel, int>, order: seq<nat>, used: seq<bool>, best: nat)
    requires Selected(chs, costs, order, used) && best < |chs| && !used[best]
    requires forall i :: 0 <= i < |chs| && !used[i] && i != best ==> Before(chs, costs, best, i)
    ensures Selected(chs, costs, order + [best], used[best := true])
  {
  }

  /** Selection: again and again the cheapest channel left. The result is the stable order by cost. */
  method SortChannelsByCost(chs: seq<Channel>, costs: map<Channel, int>) returns (out: seq<Channel>)
    ensures exists order :: StableOrder(chs, costs, order) && Reordered(chs, order, out)
  {
    ghost var order: seq<nat> := [];
    if |chs| <= 1 {
      if |chs| == 1 {
        order := [0];
      }
      assert StableOrder(chs, costs, order) && Reordered(chs, order, chs);
      return chs;
    }
    var taken := new Channel[|chs|](_ => "");
    var used := new bool[|chs|](_ => false);
    for n := 0 to |chs|
      invariant |order| == n && Selected(chs, costs, order, used[..])
      invariant forall a :: 0 <= a < n ==> taken[a] == chs[order[a]]
    {
      var best := Best(chs, costs, used, order);
      SelectedOneMore(chs, costs, order, used[..], best);
      ghost var before := used[..];
      used[best] := true;
      assert used[..] == before[best := true];
      taken[n] := chs[best];
      order := order + [best];
    }
    AllTaken(chs, costs, order, used[..]);
    out := taken[..];
    assert Reordered(chs, order, out);
  }

  lemma AllTaken(chs: seq<Channel>, costs: map<Channel, int>, order: seq<nat>, used: seq<bool>)
    requires Selected(chs, costs, order, used) && |order| == |chs|
    ensures StableOrder(chs, costs, order)
  {
    forall a, b | 0 <= a < b < |order| ensures order[a] != order[b] {
      assert Before(chs, costs, order[a], order[b]);
    }
    NoneLeftOut(order, |chs|);
  }

  // ---- routing rules ----

  datatype Condition = Condition(key: string, op: string, value: string)

  /** A rule without a condition is a default. */
  datatype Rule = Rule(when: Option<Condition>, channels: seq<Channel>)

  /** `number` reads a decimal number; `vars` go before `extra`. */
  datatype Facts = Facts(vars: map<string, string>, extra: map<string, string>, number: string -> Option<real>)
  {
    function Lookup(name: string): Option<string> {
      var key := TrimSpace(name);
      if key == "" then None
      else if key in vars then Some(vars[key])
      else if key in extra then Some(extra[key])
      else None
    }
  }

  datatype Operator = Eq | Ne | In | Exists | NotExists | Gt | Gte | Lt | Lte | Unheard

  function OperatorNamed(name: string): Operator {
    match name
    case "" => Eq
    case "eq" => Eq
    case "==" => Eq
    case "ne" => Ne
    case "!=" => Ne
    case "in" => In
    case "exists" => Exists
    case "not_exists" => NotExists
    case "gt" => Gt
    case "gte" => Gte
    case "lt" => Lt
    case "lte" => Lte
    case _ => Unheard
  }

  function Relation(op: Operator, below: bool, equal: bool): bool {
    match op
    case Gt => !below && !equal
    case Gte => !below
    case Lt => below
    case _ => below || equal
  }

  predicate OneOf(value: string, raw: string) {
    exists i :: 0 <= i < |Split(value, ',')| && TrimSpace(Split(value, ',')[i]) == raw
  }

  /** Numbers are compared as numbers when both sides are, else the texts in order. */
  predicate Compares(op: Operator, raw: string, value: string, number: string -> Option<real>) {
    var a, b := number(raw), number(value);
    if a.None? || b.None? then Relation(op, raw != value && AtMost(raw, value), raw == value)
    else Relation(op, a.value < b.value, a.value == b.value)
  }

  predicate Holds(op: Operator, fact: Option<string>, value: string, number: string -> Option<real>) {
    if op == Exists then fact.Some? && TrimSpace(fact.value) != ""
    else if op == NotExists then fact.None? || TrimSpace(fact.value) == ""
    else if fact.None? || op == Unheard then false
    else if op == Eq then fact.value == value
    else if op == Ne then fact.value != value
    else if op == In then OneOf(value, fact.value)
    else Compares(op, fact.value, value, number)
  }

  predicate Matches(c: Condition, f: Facts) {
    Holds(OperatorNamed(ToLower(TrimSpace(c.op))), f.Lookup(c.key), c.value, f.number)
  }

  /** Every operator goes by its name, in capitals or not, and by its sign; without a name it is equality. */
  lemma OperatorNames()
    ensures OperatorNamed("") == OperatorNamed("eq") == OperatorNamed("==") == Eq
    ensures OperatorNamed("ne") == OperatorNamed("!=") == Ne
    ensures OperatorNamed("in") == In && OperatorNamed("exists") == Exists && OperatorNamed("not_exists") == NotExists
    ensures OperatorNamed("gt") == Gt && OperatorNamed("gte") == Gte && OperatorNamed("lt") == Lt && OperatorNamed("lte") == Lte
  {
  }

  /** Both sides numbers: the four comparisons are those of the numbers. */
  lemma ComparesNumbers(raw: string, value: string, number: string -> Option<real>, a: real, b: real)
    requires number(raw) == Some(a) && number(value) == Some(b)
    ensures Holds(Gt, Some(raw), value, number) <==> a > b
    ensures Holds(Gte, Some(raw), value, number) <==> a >= b
    ensures Holds(Lt, Some(raw), value, number) <==> a < b
    ensures Holds(Lte, Some(raw), value, number) <==> a <= b
  {
  }

  /** Else the texts in order. */
  lemma ComparesTexts(raw: string, value: string, number: string -> Option<real>)
    requires number(raw).None? || number(value).None?
    ensures Holds(Lte, Some(raw), value, number) <==> AtMost(raw, value)
    ensures Holds(Gte, Some(raw), value, number) <==> AtMost(value, raw)
    ensures Holds(Lt, Some(raw), value, number) <==> !AtMost(value, raw)
    ensures Holds(Gt, Some(raw), value, number) <==> !AtMost(raw, value)
  {
    AtMostTotal(raw, value);
    AtMostBoth(raw, value);
  }

  lemma {:induction false} AtMostBoth(a: string, b: string)
    ensures AtMost(a, b) && AtMost(b, a) <==> a == b
  {
    if a != "" && b != "" && a[0] == b[0] {
      AtMostBoth(a[1..], b[1..]);
      assert a == [a[0]] + a[1..] && b == [b[0]] + b[1..];
    }
  }

  /** The other operators: equal or not, one of a list, a value that is not blank. A fact that is missing matches nothing but
      its absence, and an operator nobody knows matches nothing. */
  lemma ComparesOtherwise(fact: Option<string>, value: string, number: string -> Option<real>)
    ensures forall op :: fact.None? && op != NotExists ==> !Holds(op, fact, value, number)
    ensures fact.Some? ==>
      && (Holds(Eq, fact, value, number) <==> fact.value == value)
      && (Holds(Ne, fact, value, number) <==> fact.value != value)
      && (Holds(In, fact, value, number) <==> exists item :: item in Split(value, ',') && TrimSpace(item) == fact.value)
      && (Holds(Exists, fact, value, number) <==> TrimSpace(fact.value) != "")
    ensures Holds(NotExists, fact, value, number) <==> !Holds(Exists, fact, value, number)
    ensures !Holds(Unheard, fact, value, number)
  {
  }

  /** A conditional rule that applies; `matches` evaluates its condition. */
  predicate Applies(r: Rule, matches: Condition -> bool) {
    r.when.Some? && matches(r.when.value) && |r.channels| > 0
  }

  predicate IsDefault(r: Rule) {
    r.when.None? && |r.channels| > 0
  }

  /** The first conditional rule that applies decides; failing that the last default; failing that the fallback. */
  predicate Routed(rules: seq<Rule>, matches: Condition -> bool, fallback: seq<Channel>, out: seq<Channel>) {
    || (exists i :: 0 <= i < |rules| && FirstApplying(rules, matches, i) && out == rules[i].channels)
    || (NoneApplies(rules, matches) && exists i :: 0 <= i < |rules| && LastDefault(rules, i) && out == rules[i].channels)
    || (NoneApplies(rules, matches) && NoDefault(rules) && out == fallback)
  }

  /** A rule is taken up for its channels: one with a condition if that holds, one without in any case. */
  predicate TakenUp(r: Rule, conditional: bool, matches: Condition -> bool) {
    r.channels != [] && (if conditional then r.when.Some? && matches(r.when.value) else r.when.None?)
  }

  /** The channels are those of the first rule whose condition holds, else of the last without one, else as they were. */
  lemma RoutedMeans(rules: seq<Rule>, matches: Condition -> bool, fallback: seq<Channel>, out: seq<Channel>)
    requires Routed(rules, matches, fallback, out)
    ensures if exists i :: 0 <= i < |rules| && TakenUp(rules[i], true, matches) then
        exists i :: 0 <= i < |rules| && TakenUp(rules[i], true, matches) && out == rules[i].channels
                    && forall j :: 0 <= j < i ==> !TakenUp(rules[j], true, matches)
      else if exists i :: 0 <= i < |rules| && TakenUp(rules[i], false, matches) then
        exists i :: 0 <= i < |rules| && TakenUp(rules[i], false, matches) && out == rules[i].channels
                    && forall j :: i < j < |rules| ==> !TakenUp(rules[j], false, matches)
      else out == fallback
  {
    assert forall i :: 0 <= i < |rules| ==> (TakenUp(rules[i], true, matches) <==> Applies(rules[i], matches));
    assert forall i :: 0 <= i < |rules| ==> (TakenUp(rules[i], false, matches) <==> IsDefault(rules[i]));
    if NoneApplies(rules, matches) {
      assert forall i :: 0 <= i < |rules| ==> !TakenUp(rules[i], true, matches);
    }
  }

  /** A variable goes before an extra field of the same name; blanks around the name do not count, and nothing has none. */
  lemma LooksUp(f: Facts, name: string)
    ensures var key := TrimSpace(name);
      && (key != "" && key in f.vars ==> f.Lookup(name) == Some(f.vars[key]))
      && (key != "" && key !in f.vars && key in f.extra ==> f.Lookup(name) == Some(f.extra[key]))
      && (f.Lookup(name) == None <==> key == "" || (key !in f.vars && key !in f.extra))
  {
  }

  predicate FirstApplying(rules: seq<Rule>, matches: Condition -> bool, i: nat) {
    i < |rules| && Applies(rules[i], matches) && forall j :: 0 <= j < i ==> !Applies(rules[j], matches)
  }

  predicate LastDefault(rules: seq<Rule>, i: nat) {
    i < |rules| && IsDefault(rules[i]) && forall j :: i < j < |rules| ==> !IsDefault(rules[j])
  }

  predicate NoneApplies(rules: seq<Rule>, matches: Condition -> bool) {
    forall i :: 0 <= i < |rules| ==> !Applies(rules[i], matches)
  }

  predicate NoDefault(rules: seq<Rule>) {
    forall i :: 0 <= i < |rules| ==> !IsDefault(rules[i])
  }

  /** The last default among the first `i` rules, -1 if there is none. */
  predicate LastSoFar(rules: seq<Rule>, i: nat, last: int) {
    && i <= |rules| && -1 <= last < i
    && (last >= 0 ==> IsDefault(rules[last]))
    && (forall j :: last < j < i ==> !IsDefault(rules[j]))
  }

  method MatchRouteRules(rules: seq<Rule>, matches: Condition -> bool, fallback: seq<Channel>) returns (out: seq<Channel>)
    ensures Routed(rules, matches, fallback, out)
  {
    var default_: seq<Channel> := [];
    ghost var last := -1;
    for i := 0 to |rules|
      invariant forall j :: 0 <= j < i ==> !Applies(rules[j], matches)
      invariant LastSoFar(rules, i, last)
      invariant default_ == if last < 0 then [] else rules[last].channels
    {
      var r := rules[i];
      if r.when.None? {
        if |r.channels| > 0 {
          default_, last := r.channels, i;
        }
      } else if matches(r.when.value) && |r.channels| > 0 {
        RoutedFirst(rules, matches, fallback, i);
        return r.channels;
      }
    }
    RoutedLast(rules, matches, fallback, last);
    if |default_| > 0 {
      return default_;
    }
    out := fallback;
  }

  lemma RoutedFirst(rules: seq<Rule>, matches: Condition -> bool, fallback: seq<Channel>, i: nat)
    requires i < |rules| && Applies(rules[i], matches) && forall j :: 0 <= j < i ==> !Applies(rules[j], matches)
    ensures Routed(rules, matches, fallback, rules[i].channels)
  {
    assert FirstApplying(rules, matches, i);
  }

  lemma RoutedLast(rules: seq<Rule>, matches: Condition -> bool, fallback: seq<Channel>, last: int)
    requires NoneApplies(rules, matches) && LastSoFar(rules, |rules|, last)
    ensures Routed(rules, matches, fallback, if last < 0 then fallback else rules[last].channels)
    ensures last >= 0 ==> |rules[last].channels| > 0
  {
    if last >= 0 {
      assert LastDefault(rules, last);
    }
  }

  /** Rules evaluated on a message's own variables. */
  method ResolveRoutes(rules: seq<Rule>, f: Facts, fallback: seq<Channel>) returns (out: seq<Channel>)
    ensures Routed(rules, (c: Condition) => Matches(c, f), fallback, out)
  {
    out := MatchRouteRules(rules, (c: Condition) => Matches(c, f), fallback);
  }
}
