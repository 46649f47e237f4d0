/** Which rules of a robots.txt apply to the crawler, and what they say about a path. */
module RobotsRules {
  import opened Prelude
  import opened RobotsMatch

  const ROBOTS_MAX_RULES: nat := 512
  const ROBOTS_MAX_RULE_CHARS: nat := 2048
  const ROBOTS_MAX_PATH_CHARS: nat := 8192
  const AGENT := "agenthostbranddna"

  datatype Rule = Rule(allow: bool, path: string)

  datatype Group = Group(agents: seq<string>, rules: seq<Rule>)

  predicate Anchored(rule: Rule) {
    rule.path != "" && rule.path[|rule.path| - 1] == '$'
  }

  function Pattern(rule: Rule): string {
    if Anchored(rule) then rule.path[..|rule.path| - 1] else rule.path
  }

  function Specificity(pattern: string): nat {
    if pattern == "" then 0 else (if pattern[0] == '*' then 0 else 1) + Specificity(pattern[1..])
  }

  /** A rule with an empty path applies to nothing. */
  predicate Applies(rule: Rule, path: string) {
    rule.path != "" && Matches(Pattern(rule), path, Anchored(rule))
  }

  // ------------------------------------------------------------------- which groups

  predicate NamesUs(group: Group) {
    exists agent :: agent in group.agents && (agent == AGENT || AGENT + "/" <= agent)
  }

  predicate NamesAll(group: Group) {
    "*" in group.agents
  }

  /** The groups that name the crawler, or, if none does, those for every crawler. */
  predicate Selected(groups: seq<Group>, group: Group) {
    if exists g :: g in groups && NamesUs(g) then NamesUs(group) else NamesAll(group)
  }

  function RulesOf(groups: seq<Group>, all: seq<Group>): seq<Rule> {
    if groups == [] then []
    else (if Selected(all, groups[0]) then groups[0].rules else []) + RulesOf(groups[1..], all)
  }

  function SelectedRules(groups: seq<Group>): seq<Rule> {
    RulesOf(groups, groups)
  }

  // ---------------------------------------------------------------------- the verdict

  /** Among the most specific rules that apply, some allows; or none applies. */
  predicate Verdict(rules: seq<Rule>, path: string) {
    || (forall r :: r in rules ==> !Applies(r, path))
    || (exists r :: r in rules && Applies(r, path) && r.allow && MostSpecific(rules, path, r))
  }

  predicate MostSpecific(rules: seq<Rule>, path: string, rule: Rule) {
    forall r :: r in rules && Applies(r, path) ==> Specificity(Pattern(r)) <= Specificity(Pattern(rule))
  }

  predicate WithinLimits(rules: seq<Rule>) {
    |rules| <= ROBOTS_MAX_RULES && forall r :: r in rules ==> |r.path| <= ROBOTS_MAX_RULE_CHARS
  }

  /** What the crawler is allowed: refused outright when anything is over its limit. */
  predicate Allows(groups: seq<Group>, path: string) {
    |path| <= ROBOTS_MAX_PATH_CHARS && WithinLimits(SelectedRules(groups)) && Verdict(SelectedRules(groups), path)
  }

  method Exact(groups: seq<Group>) returns (exact: seq<Group>)
    ensures exact == Filter(groups, NamesUs)
  {
    exact := [];
    for i := 0 to |groups|
      invariant exact == Filter(groups[..i], NamesUs)
    {
      FilterOneMore(groups, i, NamesUs);
      if NamesUs(groups[i]) { exact := exact + [groups[i]]; }
    }
    assert groups[..|groups|] == groups;
  }

  method ForAll(groups: seq<Group>) returns (some: seq<Group>)
    ensures some == Filter(groups, NamesAll)
  {
    some := [];
    for i := 0 to |groups|
      invariant some == Filter(groups[..i], NamesAll)
    {
      FilterOneMore(groups, i, NamesAll);
      if NamesAll(groups[i]) { some := some + [groups[i]]; }
    }
    assert groups[..|groups|] == groups;
  }

  function Filter(groups: seq<Group>, keep: Group -> bool): seq<Group> {
    if groups == [] then [] else (if keep(groups[0]) then [groups[0]] else []) + Filter(groups[1..], keep)
  }

  lemma {:induction false} FilterOneMore(groups: seq<Group>, i: nat, keep: Group -> bool)
    requires i < |groups|
    ensures Filter(groups[..i + 1], keep) == Filter(groups[..i], keep) + (if keep(groups[i]) then [groups[i]] else [])
  {
    if i == 0 {
      assert groups[..1] == [groups[0]] && groups[..0] == [];
      assert Filter([], keep) == [];
      assert [groups[0]][1..] == [];
    } else {
      assert groups[..i + 1][1..] == groups[1..][..i] && groups[..i][1..] == groups[1..][..i - 1];
      FilterOneMore(groups[1..], i - 1, keep);
    }
  }

  function Flatten(groups: seq<Group>): seq<Rule> {
    if groups == [] then [] else groups[0].rules + Flatten(groups[1..])
  }

  lemma {:induction false} FlattenFilter(groups: seq<Group>, all: seq<Group>, keep: Group -> bool)
    requires forall g :: Selected(all, g) <==> keep(g)
    ensures Flatten(Filter(groups, keep)) == RulesOf(groups, all)
  {
    if groups != [] {
      FlattenFilter(groups[1..], all, keep);
      var rest := Filter(groups[1..], keep);
      if keep(groups[0]) {
        assert ([groups[0]] + rest)[1..] == rest;
      } else {
        assert [] + rest == rest;
      }
    }
  }

  lemma {:induction false} FilterEmpty(groups: seq<Group>, keep: Group -> bool)
    ensures Filter(groups, keep) == [] <==> forall g :: g in groups ==> !keep(g)
  {
    if groups != [] {
      FilterEmpty(groups[1..], keep);
    }
  }

  lemma {:induction false} FlattenOneMore(groups: seq<Group>, i: nat)
    requires i < |groups|
    ensures Flatten(groups[..i + 1]) == Flatten(groups[..i]) + groups[i].rules
  {
    if i == 0 {
      assert groups[..1][1..] == [] && groups[..1][0] == groups[0];
    } else {
      assert groups[..i + 1][1..] == groups[1..][..i] && groups[..i][1..] == groups[1..][..i - 1];
      FlattenOneMore(groups[1..], i - 1);
    }
  }

  lemma {:induction false} FlattenPrefix(groups: seq<Group>, i: nat)
    requires i <= |groups|
    ensures Flatten(groups[..i]) <= Flatten(groups)
    decreases |groups| - i
  {
    if i == |groups| {
      assert groups[..i] == groups;
    } else {
      FlattenOneMore(groups, i);
      FlattenPrefix(groups, i + 1);
    }
  }

  /** The groups the loop runs over have exactly the selected rules. */
  method Select(groups: seq<Group>) returns (selected: seq<Group>)
    ensures Flatten(selected) == SelectedRules(groups)
  {
    var exact := Exact(groups);
    FilterEmpty(groups, NamesUs);
    if |exact| > 0 {
      FlattenFilter(groups, groups, NamesUs);
      return exact;
    }
    selected := ForAll(groups);
    FlattenFilter(groups, groups, NamesAll);
  }

  /** The rule the loop holds after it has seen some rules. */
  ghost predicate IsWinner(seen: seq<Rule>, path: string, winner: Option<Rule>) {
    match winner
    case None => forall r :: r in seen ==> !Applies(r, path)
    case Some(w) =>
      && w in seen && Applies(w, path) && MostSpecific(seen, path, w)
      && (!w.allow ==> forall r :: r in seen && Applies(r, path) && r.allow ==> Specificity(Pattern(r)) < Specificity(Pattern(w)))
  }

  lemma WinnerDecides(seen: seq<Rule>, path: string, winner: Option<Rule>)
    requires IsWinner(seen, path, winner)
    ensures Verdict(seen, path) <==> winner.None? || winner.value.allow
  {
    if winner.Some? && !winner.value.allow {
      forall r | r in seen && Applies(r, path) && r.allow ensures !MostSpecific(seen, path, r) {
        assert Specificity(Pattern(r)) < Specificity(Pattern(winner.value));
      }
    }
  }

  /** Weigh one more rule against the winner so far. */
  method Weigh(rule: Rule, path: string, winner: Option<Rule>, ghost seen: seq<Rule>) returns (next: Option<Rule>)
    requires IsWinner(seen, path, winner)
    ensures IsWinner(seen + [rule], path, next)
  {
    if rule.path == "" { return winner; }
    var matches := RobotsPathMatches(Pattern(rule), path, Anchored(rule));
    if !matches { return winner; }
    var specificity := Specificity(Pattern(rule));
    if winner.None? { return Some(rule); }
    var best := Specificity(Pattern(winner.value));
    next := if specificity > best || (specificity == best && rule.allow) then Some(rule) else winner;
  }

  /** Weigh the rules of one group after those already seen; None once a limit is passed. */
  method WeighGroup(rules: seq<Rule>, path: string, before: Option<Rule>, count: nat, ghost seen: seq<Rule>)
    returns (winner: Option<Option<Rule>>)
    requires WithinLimits(seen) && count == |seen| && IsWinner(seen, path, before)
    ensures winner.Some? <==> WithinLimits(seen + rules)
    ensures winner.Some? ==> IsWinner(seen + rules, path, winner.value)
  {
    var best, ruleCount := before, count;
    assert seen + rules[..0] == seen;
    for j := 0 to |rules|
      invariant ruleCount == |seen| + j && WithinLimits(seen + rules[..j])
      invariant IsWinner(seen + rules[..j], path, best)
    {
      assert rules[j] in seen + rules;
      ruleCount := ruleCount + 1;
      if ruleCount > ROBOTS_MAX_RULES || |rules[j].path| > ROBOTS_MAX_RULE_CHARS { return None; }
      best := Weigh(rules[j], path, best, seen + rules[..j]);
      assert seen + rules[..j] + [rules[j]] == seen + rules[..j + 1];
    }
    assert rules[..|rules|] == rules;
    winner := Some(best);
  }

  method RobotsAllows(groups: seq<Group>, path: string) returns (yes: bool)
    ensures yes <==> Allows(groups, path)
  {
    if |path| > ROBOTS_MAX_PATH_CHARS { return false; }
    var selected := Select(groups);
    var winner: Option<Rule>, count: nat := None, 0;
    for i := 0 to |selected|
      invariant WithinLimits(Flatten(selected[..i])) && count == |Flatten(selected[..i])|
      invariant IsWinner(Flatten(selected[..i]), path, winner)
    {
      FlattenOneMore(selected, i);
      FlattenPrefix(selected, i + 1);
      var next := WeighGroup(selected[i].rules, path, winner, count, Flatten(selected[..i]));
      if next.None? { return false; }
      winner, count := next.value, count + |selected[i].rules|;
    }
    assert selected[..|selected|] == selected;
    WinnerDecides(SelectedRules(groups), path, winner);
    yes := winner.None? || winner.value.allow;
  }

  // --------------------------------------------------------------- order does not matter

  /** The verdict depends only on which rules there are, not on their order. */
  lemma SameRulesSameVerdict(a: seq<Rule>, b: seq<Rule>, path: string)
    requires multiset(a) == multiset(b)
    ensures WithinLimits(a) == WithinLimits(b) && Verdict(a, path) == Verdict(b, path)
  {
    assert |a| == |multiset(a)| == |multiset(b)| == |b|;
    assert forall r :: r in a <==> r in multiset(a);
    assert forall r :: r in b <==> r in multiset(b);
    assert forall r :: MostSpecific(a, path, r) <==> MostSpecific(b, path, r);
  }

  lemma {:induction false} RulesOfSplit(a: seq<Group>, b: seq<Group>, all: seq<Group>)
    ensures RulesOf(a + b, all) == RulesOf(a, all) + RulesOf(b, all)
  {
    if a == [] {
      assert a + b == b;
    } else {
      assert (a + b)[1..] == a[1..] + b;
      RulesOfSplit(a[1..], b, all);
    }
  }

  lemma RulesAround(before: seq<Group>, g: Group, after: seq<Group>, all: seq<Group>)
    ensures RulesOf(before + [g] + after, all)
         == RulesOf(before, all) + (if Selected(all, g) then g.rules else []) + RulesOf(after, all)
  {
    RulesOfSplit(before + [g], after, all);
    RulesOfSplit(before, [g], all);
    assert [g][1..] == [];
    assert RulesOf([g], all) == if Selected(all, g) then g.rules else [];
  }

  lemma Cancel<T>(x: multiset<T>, y: multiset<T>, both: multiset<T>)
    requires both + x == both + y
    ensures x == y
  {
    forall t: T ensures x[t] == y[t] {
      assert (both + x)[t] == (both + y)[t];
    }
  }

  lemma MiddleFirst<T>(x: seq<T>, middle: seq<T>, y: seq<T>)
    ensures multiset(x + middle + y) == multiset(middle) + multiset(x + y)
  {
  }

  lemma RemoveFromBoth(a: seq<Group>, b: seq<Group>, j: nat)
    requires multiset(a) == multiset(b) && a != [] && j < |b| && b[j] == a[0]
    ensures multiset(a[1..]) == multiset(b[..j] + b[j + 1..])
  {
    MiddleFirst([], [a[0]], a[1..]);
    MiddleFirst(b[..j], [a[0]], b[j + 1..]);
    assert a == [] + [a[0]] + a[1..] && [] + a[1..] == a[1..] && b == b[..j] + [a[0]] + b[j + 1..];
    Cancel(multiset(a[1..]), multiset(b[..j] + b[j + 1..]), multiset([a[0]]));
  }

  lemma {:induction false} PermutedGroups(a: seq<Group>, b: seq<Group>, all: seq<Group>)
    requires multiset(a) == multiset(b)
    ensures multiset(RulesOf(a, all)) == multiset(RulesOf(b, all))
    decreases |a|
  {
    if a == [] {
      assert |b| == |multiset(b)| == 0;
    } else {
      var j := WhereIs(a, b);
      var g, left, right := b[j], b[..j], b[j + 1..];
      RemoveFromBoth(a, b, j);
      PermutedGroups(a[1..], left + right, all);
      RulesOfSplit(left, right, all);
      RulesAround(left, g, right, all);
      assert b == left + [g] + right;
      MiddleFirst(RulesOf(left, all), if Selected(all, g) then g.rules else [], RulesOf(right, all));
    }
  }

  lemma WhereIs(a: seq<Group>, b: seq<Group>) returns (j: nat)
    requires multiset(a) == multiset(b) && a != []
    ensures j < |b| && b[j] == a[0]
  {
    assert a[0] in multiset(b);
    j :| 0 <= j < |b| && b[j] == a[0];
  }

  lemma {:induction false} SelectedTheSame(groups: seq<Group>, a: seq<Group>, b: seq<Group>)
    requires forall g :: g in a <==> g in b
    ensures RulesOf(groups, a) == RulesOf(groups, b)
  {
    if groups != [] {
      SelectedTheSame(groups[1..], a, b);
    }
  }

  /** Reordering the groups changes no verdict. */
  lemma GroupOrderDoesNotMatter(a: seq<Group>, b: seq<Group>, path: string)
    requires multiset(a) == multiset(b)
    ensures Allows(a, path) <==> Allows(b, path)
  {
    assert forall g :: g in a <==> g in multiset(a);
    assert forall g :: g in b <==> g in multiset(b);
    PermutedGroups(a, b, a);
    SelectedTheSame(b, a, b);
    SameRulesSameVerdict(SelectedRules(a), SelectedRules(b), path);
  }

  /** Nor does reordering the rules inside a group. */
  lemma RuleOrderDoesNotMatter(before: seq<Group>, agents: seq<string>, a: seq<Rule>, b: seq<Rule>, after: seq<Group>, path: string)
    requires multiset(a) == multiset(b)
    ensures Allows(before + [Group(agents, a)] + after, path) <==> Allows(before + [Group(agents, b)] + after, path)
  {
    var x, y := before + [Group(agents, a)] + after, before + [Group(agents, b)] + after;
    SelectionIgnoresRules(before, agents, a, b, after);
    RulesAround(before, Group(agents, a), after, x);
    RulesAround(before, Group(agents, b), after, y);
    RulesOfSame(before, x, y);
    RulesOfSame(after, x, y);
    assert Selected(x, Group(agents, a)) <==> Selected(y, Group(agents, b));
    SameRulesSameVerdict(SelectedRules(x), SelectedRules(y), path);
  }

  /** Whether a group is selected depends on the agents alone. */
  lemma SelectionIgnoresRules(before: seq<Group>, agents: seq<string>, a: seq<Rule>, b: seq<Rule>, after: seq<Group>)
    ensures forall g :: Selected(before + [Group(agents, a)] + after, g) <==> Selected(before + [Group(agents, b)] + after, g)
  {
    var x, y := before + [Group(agents, a)] + after, before + [Group(agents, b)] + after;
    assert forall g :: g in x <==> g in before || g == Group(agents, a) || g in after;
    assert forall g :: g in y <==> g in before || g == Group(agents, b) || g in after;
    assert NamesUs(Group(agents, a)) <==> NamesUs(Group(agents, b));
  }

  lemma {:induction false} RulesOfSame(groups: seq<Group>, x: seq<Group>, y: seq<Group>)
    requires forall g :: Selected(x, g) <==> Selected(y, g)
    ensures RulesOf(groups, x) == RulesOf(groups, y)
  {
    if groups != [] {
      RulesOfSame(groups[1..], x, y);
    }
  }
}
