/**
 Reading robots.txt into groups: consecutive user-agent lines open a group, the rules
 after them belong to it, and anything over a limit denies everything.
 */
module RobotsParse {
  import opened Prelude
  import opened TextLines
  import opened RobotsRules
  import opened RobotsLine

  const ROBOTS_MAX_BODY_CHARS: nat := 512 * 1024
  const ROBOTS_MAX_DIRECTIVES: nat := 4096

  const DENY_ALL := [Group([AGENT], [Rule(false, "/")])]

  datatype Reading = Reading(groups: seq<Group>, agents: seq<string>, rules: seq<Rule>, directives: nat, ruleCount: nat)

  const START := Reading([], [], [], 0, 0)

  function Flush(r: Reading): Reading {
    r.(groups := if r.agents == [] then r.groups else r.groups + [Group(r.agents, r.rules)], agents := [], rules := [])
  }

  /** Take one line; None denies everything. */
  function Take(r: Reading, line: Line): Option<Reading> {
    match line
    case Blank => Some(r)
    case TooLong => None
    case Says(d) =>
      if r.directives + 1 > ROBOTS_MAX_DIRECTIVES then None else TakeDirective(r.(directives := r.directives + 1), d)
  }

  function TakeDirective(r: Reading, d: Directive): Option<Reading> {
    match d
    case UserAgent(name) =>
      var r1 := if r.rules == [] then r else Flush(r);
      Some(r1.(agents := r1.agents + [name]))
    case RuleLine(rule) =>
      if r.agents == [] then Some(r)
      else if |rule.path| > ROBOTS_MAX_RULE_CHARS || r.ruleCount + 1 > ROBOTS_MAX_RULES then None
      else Some(r.(rules := r.rules + [rule], ruleCount := r.ruleCount + 1))
    case Ignored => Some(r)
  }

  function Then(r: Option<Reading>, line: Line): Option<Reading> {
    if r.None? then None else Take(r.value, line)
  }

  /** What has been read after the first `n` lines. */
  function TakeFirst(lines: seq<Line>, n: nat): Option<Reading>
    requires n <= |lines|
  {
    if n == 0 then Some(START) else Then(TakeFirst(lines, n - 1), lines[n - 1])
  }

  function ReadLines(lines: seq<string>): seq<Line> {
    seq(|lines|, i requires 0 <= i < |lines| => ReadLine(lines[i]))
  }

  function Parsed(body: string): seq<Group> {
    if |body| > ROBOTS_MAX_BODY_CHARS then DENY_ALL
    else
      var lines := ReadLines(Lines(body));
      var r := TakeFirst(lines, |lines|);
      if r.None? then DENY_ALL else Flush(r.value).groups
  }

  lemma {:induction false} DeniedForGood(lines: seq<Line>, i: nat, n: nat)
    requires i <= n <= |lines| && TakeFirst(lines, i).None?
    ensures TakeFirst(lines, n).None?
  {
    if i < n {
      DeniedForGood(lines, i, n - 1);
    }
  }

  /** Run the loop over the lines; None denies everything. */
  method TakeLines(lines: seq<Line>) returns (read: Option<Reading>)
    ensures read == TakeFirst(lines, |lines|)
  {
    read := Some(START);
    for i := 0 to |lines|
      invariant read.Some? && read == TakeFirst(lines, i)
    {
      read := Then(read, lines[i]);
      if read.None? {
        DeniedForGood(lines, i + 1, |lines|);
        return;
      }
    }
  }

  method ParseRobots(body: string) returns (groups: seq<Group>)
    ensures groups == Parsed(body)
  {
    if |body| > ROBOTS_MAX_BODY_CHARS { return DENY_ALL; }
    var read := TakeLines(ReadLines(Lines(body)));
    groups := if read.None? then DENY_ALL else Flush(read.value).groups;
  }

  // ---------------------------------------------------------------------- round trip

  function GroupLines(g: Group): seq<Directive> {
    seq(|g.agents|, i requires 0 <= i < |g.agents| => UserAgent(g.agents[i]))
    + seq(|g.rules|, i requires 0 <= i < |g.rules| => RuleLine(g.rules[i]))
  }

  function AllLines(groups: seq<Group>): seq<Directive> {
    if groups == [] then [] else AllLines(groups[..|groups| - 1]) + GroupLines(groups[|groups| - 1])
  }

  function RuleCount(groups: seq<Group>): nat {
    if groups == [] then 0 else RuleCount(groups[..|groups| - 1]) + |groups[|groups| - 1].rules|
  }

  /** Groups that a robots.txt can spell out: only the last may have no rules. */
  predicate Renderable(groups: seq<Group>) {
    && (forall i :: 0 <= i < |groups| ==> groups[i].agents != [])
    && (forall d :: d in AllLines(groups) ==> Readable(d))
    && (forall i :: 0 <= i < |groups| - 1 ==> groups[i].rules != [])
    && |AllLines(groups)| <= ROBOTS_MAX_DIRECTIVES && RuleCount(groups) <= ROBOTS_MAX_RULES
  }

  /** A robots.txt that spells out the groups, one directive a line. */
  function Rendered(groups: seq<Group>): string {
    Joined(TextsOf(AllLines(groups)))
  }

  function TextsOf(ds: seq<Directive>): seq<string> {
    seq(|ds|, i requires 0 <= i < |ds| => DirectiveText(ds[i]))
  }

  /** The lines say exactly these directives, from position `at` on. */
  ghost predicate Say(lines: seq<Line>, at: nat, ds: seq<Directive>) {
    at + |ds| <= |lines| && forall i :: 0 <= i < |ds| ==> lines[at + i] == Says(ds[i])
  }

  /** Between groups: nothing open, or a group that already has a rule. */
  predicate Between(r: Reading) {
    r.rules == [] ==> r.agents == []
  }

  /** The first user-agent line closes the group before it; the next ones collect agents. */
  lemma {:induction false} TakeAgents(lines: seq<Line>, at: nat, r: Reading, g: Group, k: nat)
    requires 1 <= k <= |g.agents| && Say(lines, at, GroupLines(g)) && TakeFirst(lines, at) == Some(r)
    requires Between(r) && r.directives + k <= ROBOTS_MAX_DIRECTIVES
    ensures TakeFirst(lines, at + k) == Some(Flush(r).(agents := g.agents[..k], directives := r.directives + k))
  {
    assert GroupLines(g)[k - 1] == UserAgent(g.agents[k - 1]) && lines[at + (k - 1)] == Says(UserAgent(g.agents[k - 1]));
    if k == 1 {
      assert [] + [g.agents[0]] == g.agents[..1];
    } else {
      TakeAgents(lines, at, r, g, k - 1);
      assert g.agents[..k - 1] + [g.agents[k - 1]] == g.agents[..k];
    }
  }

  /** A group just read: its agents and the first `k` of its rules. */
  function Opened(r: Reading, g: Group, k: nat): Reading
    requires k <= |g.rules|
  {
    Reading(Flush(r).groups, g.agents, g.rules[..k], r.directives + |g.agents| + k, r.ruleCount + k)
  }

  lemma {:induction false} TakeRules(lines: seq<Line>, at: nat, r: Reading, g: Group, k: nat)
    requires g.agents != [] && k <= |g.rules| && Say(lines, at, GroupLines(g)) && TakeFirst(lines, at) == Some(r)
    requires Between(r) && forall x :: x in g.rules ==> |x.path| <= ROBOTS_MAX_RULE_CHARS
    requires r.directives + |g.agents| + k <= ROBOTS_MAX_DIRECTIVES && r.ruleCount + k <= ROBOTS_MAX_RULES
    ensures TakeFirst(lines, at + |g.agents| + k) == Some(Opened(r, g, k))
  {
    if k == 0 {
      TakeAgents(lines, at, r, g, |g.agents|);
      assert g.agents[..|g.agents|] == g.agents && g.rules[..0] == [];
    } else {
      TakeRules(lines, at, r, g, k - 1);
      var i := |g.agents| + (k - 1);
      assert GroupLines(g)[i] == RuleLine(g.rules[k - 1]) && g.rules[k - 1] in g.rules;
      assert lines[at + i] == Says(RuleLine(g.rules[k - 1]));
      assert g.rules[..k - 1] + [g.rules[k - 1]] == g.rules[..k];
    }
  }

  lemma {:induction false} LinesPrefix(groups: seq<Group>, k: nat)
    requires k <= |groups|
    ensures AllLines(groups[..k]) <= AllLines(groups) && RuleCount(groups[..k]) <= RuleCount(groups)
  {
    if k == |groups| {
      assert groups[..k] == groups;
    } else {
      assert groups[..|groups| - 1][..k] == groups[..k];
      LinesPrefix(groups[..|groups| - 1], k);
    }
  }

  lemma {:induction false} OneGroupMore(groups: seq<Group>, k: nat)
    requires 0 < k <= |groups|
    ensures AllLines(groups[..k]) == AllLines(groups[..k - 1]) + GroupLines(groups[k - 1])
    ensures RuleCount(groups[..k]) == RuleCount(groups[..k - 1]) + |groups[k - 1].rules|
  {
    assert groups[..k][..k - 1] == groups[..k - 1];
  }

  /** What has been read after the first `k` groups. */
  ghost predicate ReadUpTo(r: Reading, groups: seq<Group>, k: nat)
    requires k <= |groups|
  {
    && Flush(r).groups == groups[..k]
    && r.directives == |AllLines(groups[..k])| && r.ruleCount == RuleCount(groups[..k])
    && (k == 0 ==> r == START)
    && (k > 0 ==> r.rules == groups[k - 1].rules)
  }

  /** What reading needs to know of the k-th group. */
  ghost predicate Next(groups: seq<Group>, lines: seq<Line>, k: nat)
    requires 0 < k <= |groups|
  {
    var g := groups[k - 1];
    && Say(lines, |AllLines(groups[..k - 1])|, GroupLines(g))
    && g.agents != [] && (forall x :: x in g.rules ==> |x.path| <= ROBOTS_MAX_RULE_CHARS)
    && (k > 1 ==> groups[k - 2].rules != [])
    && |AllLines(groups[..k - 1])| + |g.agents| + |g.rules| <= ROBOTS_MAX_DIRECTIVES
    && RuleCount(groups[..k - 1]) + |g.rules| <= ROBOTS_MAX_RULES
  }

  lemma {:induction false} LinesAreWhere(groups: seq<Group>, k: nat, i: nat)
    requires 0 < k <= |groups| && i < |GroupLines(groups[k - 1])|
    ensures |AllLines(groups[..k - 1])| + i < |AllLines(groups)|
    ensures AllLines(groups)[|AllLines(groups[..k - 1])| + i] == GroupLines(groups[k - 1])[i]
  {
    LinesPrefix(groups, k);
    OneGroupMore(groups, k);
  }

  lemma {:induction false} RulesAreShort(groups: seq<Group>, k: nat, j: nat)
    requires forall d :: d in AllLines(groups) ==> ShortRule(d)
    requires 0 < k <= |groups| && j < |groups[k - 1].rules|
    ensures |groups[k - 1].rules[j].path| <= ROBOTS_MAX_RULE_CHARS
  {
    var g := groups[k - 1];
    LinesAreWhere(groups, k, |g.agents| + j);
    var i := |AllLines(groups[..k - 1])| + (|g.agents| + j);
    assert AllLines(groups)[i] == RuleLine(g.rules[j]) && AllLines(groups)[i] in AllLines(groups);
    assert ShortRule(RuleLine(g.rules[j]));
  }

  lemma {:induction false} GroupIsNext(groups: seq<Group>, lines: seq<Line>, k: nat)
    requires Renderable(groups) && Say(lines, 0, AllLines(groups)) && 0 < k <= |groups|
    ensures Next(groups, lines, k)
  {
    var g, at := groups[k - 1], |AllLines(groups[..k - 1])|;
    LinesPrefix(groups, k);
    OneGroupMore(groups, k);
    forall i | 0 <= i < |GroupLines(g)| ensures lines[at + i] == Says(GroupLines(g)[i]) {
      LinesAreWhere(groups, k, i);
      assert lines[0 + (at + i)] == Says(AllLines(groups)[at + i]);
    }
    ReadablesAreShort(AllLines(groups));
    forall j | 0 <= j < |g.rules| ensures |g.rules[j].path| <= ROBOTS_MAX_RULE_CHARS {
      RulesAreShort(groups, k, j);
    }
  }

  lemma {:induction false} GroupClosed(groups: seq<Group>, k: nat, before: Reading)
    requires 0 < k <= |groups| && (k > 1 ==> groups[k - 2].rules != []) && ReadUpTo(before, groups, k - 1)
    ensures Between(before)
    ensures groups[k - 1].agents != [] ==>
      ReadUpTo(Opened(before, groups[k - 1], |groups[k - 1].rules|), groups, k)
  {
    var g := groups[k - 1];
    OneGroupMore(groups, k);
    assert g.rules[..|g.rules|] == g.rules && groups[..k] == groups[..k - 1] + [g];
  }

  lemma {:induction false} TakeGroup(lines: seq<Line>, at: nat, before: Reading, g: Group) returns (r: Reading)
    requires g.agents != [] && Say(lines, at, GroupLines(g)) && TakeFirst(lines, at) == Some(before) && Between(before)
    requires forall x :: x in g.rules ==> |x.path| <= ROBOTS_MAX_RULE_CHARS
    requires before.directives + |g.agents| + |g.rules| <= ROBOTS_MAX_DIRECTIVES && before.ruleCount + |g.rules| <= ROBOTS_MAX_RULES
    ensures r == Opened(before, g, |g.rules|) && at + |GroupLines(g)| <= |lines|
    ensures TakeFirst(lines, at + |GroupLines(g)|) == Some(r)
  {
    TakeRules(lines, at, before, g, |g.rules|);
    r := Opened(before, g, |g.rules|);
  }

  lemma {:induction false} TakeNextGroup(groups: seq<Group>, lines: seq<Line>, k: nat, before: Reading) returns (r: Reading)
    requires 0 < k <= |groups| && Next(groups, lines, k)
    requires TakeFirst(lines, |AllLines(groups[..k - 1])|) == Some(before) && ReadUpTo(before, groups, k - 1)
    ensures |AllLines(groups[..k])| <= |lines|
    ensures TakeFirst(lines, |AllLines(groups[..k])|) == Some(r) && ReadUpTo(r, groups, k)
  {
    var g := groups[k - 1];
    GroupClosed(groups, k, before);
    r := TakeGroup(lines, |AllLines(groups[..k - 1])|, before, g);
    OneGroupMore(groups, k);
  }

  lemma {:induction false} TakeGroups(groups: seq<Group>, lines: seq<Line>, k: nat) returns (r: Reading)
    requires k <= |groups| && forall j :: 0 < j <= k ==> Next(groups, lines, j)
    ensures |AllLines(groups[..k])| <= |lines|
    ensures TakeFirst(lines, |AllLines(groups[..k])|) == Some(r) && ReadUpTo(r, groups, k)
  {
    if k == 0 {
      r := START;
      assert groups[..0] == [];
    } else {
      r := TakeGroups(groups, lines, k - 1);
      r := TakeNextGroup(groups, lines, k, r);
    }
  }

  /** Spelled out and read back, line by line. */
  lemma {:induction false} TextsRead(ds: seq<Directive>)
    requires forall d :: d in ds ==> Readable(d)
    ensures Say(ReadLines(TextsOf(ds) + [""]), 0, ds)
    ensures ReadLines(TextsOf(ds) + [""])[|ds|] == Blank
    ensures forall text :: text in TextsOf(ds) ==> '\n' !in text && '\r' !in text
  {
    forall i | 0 <= i < |ds|
      ensures ReadLine(TextsOf(ds)[i]) == Says(ds[i]) && '\n' !in TextsOf(ds)[i] && '\r' !in TextsOf(ds)[i]
    {
      DirectiveReads(ds[i]);
      DirectiveIsOneLine(ds[i]);
    }
  }

  /** The empty piece after the last line end changes nothing. */
  lemma {:induction false} BlankAtEnd(lines: seq<Line>, n: nat, r: Reading)
    requires |lines| == n + 1 && lines[n] == Blank && TakeFirst(lines, n) == Some(r)
    ensures TakeFirst(lines, |lines|) == Some(r)
  {
  }

  lemma {:induction false} AllGroupsTaken(groups: seq<Group>, lines: seq<Line>) returns (r: Reading)
    requires Renderable(groups) && Say(lines, 0, AllLines(groups))
    requires |lines| == |AllLines(groups)| + 1 && lines[|lines| - 1] == Blank
    ensures TakeFirst(lines, |lines|) == Some(r) && Flush(r).groups == groups
  {
    forall k | 0 < k <= |groups| ensures Next(groups, lines, k) {
      GroupIsNext(groups, lines, k);
    }
    r := TakeGroups(groups, lines, |groups|);
    assert groups[..|groups|] == groups;
    BlankAtEnd(lines, |AllLines(groups)|, r);
  }

  /** Groups within the limits, spelled out as a robots.txt, are read back as they are. */
  lemma {:induction false} RenderedReadsBack(groups: seq<Group>)
    requires Renderable(groups) && |Rendered(groups)| <= ROBOTS_MAX_BODY_CHARS
    ensures Parsed(Rendered(groups)) == groups
  {
    TextsRead(AllLines(groups));
    LinesOfJoined(TextsOf(AllLines(groups)));
    var r := AllGroupsTaken(groups, ReadLines(Lines(Rendered(groups))));
  }
}
