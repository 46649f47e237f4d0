/** What single lines and rules of a robots.txt come to, whatever surrounds them. */
module RobotsLaws {
  import opened TextLines
  import opened TrimLaws
  import opened RobotsMatch
  import opened RobotsRules
  import opened RobotsLine
  import opened RobotsParse

  // --------------------------------------------------------------- the more specific rule

  /** Specificity counts the characters that are not stars. */
  lemma {:induction false} SpecificityCounts(pattern: string)
    ensures Specificity(pattern) + multiset(pattern)['*'] == |pattern|
  {
    if pattern != "" {
      SpecificityCounts(pattern[1..]);
      assert pattern == [pattern[0]] + pattern[1..];
    }
  }

  /** A path without a star and without a dollar at its end is a plain prefix. */
  predicate PlainPath(s: string) {
    s != "" && '*' !in s && s[|s| - 1] != '$'
  }

  lemma {:induction false} PlainDenotes(s: string, text: string)
    requires '*' !in s
    ensures Denotes(s, text) <==> text == s
  {
    if s != "" && text != "" && text[0] == s[0] {
      PlainDenotes(s[1..], text[1..]);
      assert s == [s[0]] + s[1..] && text == [text[0]] + text[1..];
    }
  }

  /** One star between two texts stands for whatever lies between them. */
  lemma {:induction false} StarDenotes(a: string, b: string, text: string)
    requires '*' !in a && '*' !in b
    ensures Denotes(a + "*" + b, text) <==> a <= text && |a| + |b| <= |text| && text[|text| - |b|..] == b
  {
    if a == "" {
      assert a + "*" + b == "*" + b && ("*" + b)[1..] == b;
      forall k | 0 <= k <= |text| ensures Denotes(b, text[k..]) <==> text[k..] == b {
        PlainDenotes(b, text[k..]);
      }
    } else {
      var pattern := a + "*" + b;
      assert pattern[0] == a[0] && pattern[1..] == a[1..] + "*" + b;
      if text != "" && text[0] == a[0] {
        StarDenotes(a[1..], b, text[1..]);
        assert a == [a[0]] + a[1..] && text == [text[0]] + text[1..];
        if |a| + |b| <= |text| { assert text[1..][|text| - 1 - |b|..] == text[|text| - |b|..]; }
      }
    }
  }

  lemma PlainApplies(rule: Rule, path: string)
    requires PlainPath(rule.path)
    ensures Applies(rule, path) <==> rule.path <= path
    ensures Specificity(Pattern(rule)) == |rule.path|
  {
    SpecificityCounts(rule.path);
    forall k | 0 <= k <= |path| ensures Denotes(rule.path, path[..k]) <==> path[..k] == rule.path {
      PlainDenotes(rule.path, path[..k]);
    }
    if rule.path <= path {
      assert path[..|rule.path|] == rule.path;
    }
  }

  /** Of an allowing and a refusing prefix, the longer one decides, and the allowing one when they are as long. */
  lemma LongerPrefixDecides(allowed: string, refused: string, path: string)
    requires PlainPath(allowed) && PlainPath(refused)
    ensures Verdict([Rule(true, allowed), Rule(false, refused)], path)
       <==> !(refused <= path) || (allowed <= path && |allowed| >= |refused|)
  {
    var yes, no := Rule(true, allowed), Rule(false, refused);
    PlainApplies(yes, path);
    PlainApplies(no, path);
    var rules := [yes, no];
    assert rules[0] == yes && rules[1] == no;
    assert forall r :: r in rules <==> r == yes || r == no;
    assert MostSpecific(rules, path, yes) <==> !(refused <= path) || |refused| <= |allowed|;
  }

  // ------------------------------------------------------------------ the right group

  /** The crawler is named by its own name, alone or with a version, and by nothing else. */
  lemma OwnName(agent: string, version: string)
    ensures NamesUs(Group(["agenthostbranddna"], [])) && NamesUs(Group(["agenthostbranddna/" + version], []))
    ensures NamesUs(Group([agent], [])) ==> agent == "agenthostbranddna" || "agenthostbranddna/" <= agent
  {
    assert "agenthostbranddna" in ["agenthostbranddna"];
    var named := "agenthostbranddna/" + version;
    assert AGENT + "/" == "agenthostbranddna/" && "agenthostbranddna/" <= named;
    assert named in Group([named], []).agents;
  }

  /** Once some group names the crawler, those that do not are as good as absent. */
  lemma OthersDoNotMatter(before: seq<Group>, other: Group, after: seq<Group>, path: string)
    requires !NamesUs(other) && ((exists g :: g in before + after && NamesUs(g)) || !NamesAll(other))
    ensures Allows(before + [other] + after, path) <==> Allows(before + after, path)
  {
    var x, y := before + [other] + after, before + after;
    assert forall g :: g in x <==> g in y || g == other;
    assert forall g :: Selected(x, g) <==> Selected(y, g);
    RulesAround(before, other, after, x);
    RulesOfSame(before, x, y);
    RulesOfSame(after, x, y);
    RulesOfSplit(before, after, y);
  }

  /** What denies everything refuses every path. */
  lemma DenyAllDenies(path: string)
    requires "/" <= path
    ensures !Allows(DENY_ALL, path)
  {
    var g, no := Group([AGENT], [Rule(false, "/")]), Rule(false, "/");
    assert DENY_ALL == [g] && AGENT in g.agents && g in DENY_ALL && NamesUs(g);
    assert [g][1..] == [] && g.rules == [no];
    assert RulesOf([], DENY_ALL) == [];
    assert SelectedRules(DENY_ALL) == [no];
    PlainApplies(no, path);
    assert no in [no];
  }

  // ------------------------------------------------------------------ what denies all

  lemma LongLineStops(lines: seq<Line>, i: nat)
    requires i < |lines| && lines[i].TooLong?
    ensures TakeFirst(lines, |lines|).None?
  {
    assert TakeFirst(lines, i + 1).None?;
    DeniedForGood(lines, i + 1, |lines|);
  }

  /** A line that is too long denies everything, wherever it stands. */
  lemma LongLineDenies(body: string, i: nat)
    requires i < |Lines(body)| && ReadLine(Lines(body)[i]).TooLong?
    ensures Parsed(body) == DENY_ALL
  {
    LongLineStops(ReadLines(Lines(body)), i);
  }

  function Directives(lines: seq<Line>, n: nat): nat
    requires n <= |lines|
  {
    if n == 0 then 0 else Directives(lines, n - 1) + if lines[n - 1].Says? then 1 else 0
  }

  lemma {:induction false} DirectivesCounted(lines: seq<Line>, n: nat)
    requires n <= |lines| && TakeFirst(lines, n).Some?
    ensures TakeFirst(lines, n).value.directives == Directives(lines, n) <= ROBOTS_MAX_DIRECTIVES
  {
    if n > 0 {
      DirectivesCounted(lines, n - 1);
    }
  }

  /** So do too many directives. */
  lemma ManyDirectivesDeny(body: string)
    requires Directives(ReadLines(Lines(body)), |Lines(body)|) > ROBOTS_MAX_DIRECTIVES
    ensures Parsed(body) == DENY_ALL
  {
    var lines := ReadLines(Lines(body));
    if TakeFirst(lines, |lines|).Some? {
      DirectivesCounted(lines, |lines|);
    }
  }

  /** And too many rules, which are all in groups that were read. */
  lemma {:induction false} RulesCounted(lines: seq<Line>, n: nat)
    requires n <= |lines| && TakeFirst(lines, n).Some?
    ensures var r := TakeFirst(lines, n).value;
      r.ruleCount == |Flatten(r.groups)| + |r.rules| <= ROBOTS_MAX_RULES && (r.rules != [] ==> r.agents != [])
  {
    if n > 0 {
      RulesCounted(lines, n - 1);
      var r := TakeFirst(lines, n - 1).value;
      FlattenMore(r.groups, Group(r.agents, r.rules));
    }
  }

  lemma FlattenMore(groups: seq<Group>, g: Group)
    ensures Flatten(groups + [g]) == Flatten(groups) + g.rules
  {
    FlattenOneMore(groups + [g], |groups|);
    assert (groups + [g])[..|groups| + 1] == groups + [g] && (groups + [g])[..|groups|] == groups;
  }

  /** What was read never has more rules than the verdict may weigh. */
  lemma ParsedIsWithinLimit(body: string)
    ensures |Flatten(Parsed(body))| <= ROBOTS_MAX_RULES
  {
    var lines := ReadLines(Lines(body));
    var r := TakeFirst(lines, |lines|);
    if |body| <= ROBOTS_MAX_BODY_CHARS && r.Some? {
      RulesCounted(lines, |lines|);
      FlattenMore(r.value.groups, Group(r.value.agents, r.value.rules));
    } else {
      FlattenMore([], DENY_ALL[0]);
      assert [] + [DENY_ALL[0]] == DENY_ALL;
    }
  }

  // ---------------------------------------------------------------------- one line

  predicate NoBreak(s: string) {
    forall i :: 0 <= i < |s| ==> !LineBreak(s[i])
  }

  lemma {:induction false} BreakFound(s: string, rest: string)
    requires NoBreak(s) && (rest != "" ==> LineBreak(rest[0]))
    ensures FindBreak(s + rest) == |s|
  {
    if s == "" {
      assert s + rest == rest;
    } else {
      assert (s + rest)[1..] == s[1..] + rest;
      BreakFound(s[1..], rest);
    }
  }

  /** A comment goes, from its hash to the end of its line. */
  lemma CommentGoes(text: string, comment: string, rest: string)
    requires '#' !in text && NoBreak(comment) && (rest != "" ==> LineBreak(rest[0]))
    ensures Uncomment(text + "#" + comment + rest) == text + rest
  {
    var line := text + "#" + comment + rest;
    assert line[..|text|] == text && line[|text|..] == ("#" + comment) + rest;
    FindIs(line, '#', |text|);
    BreakFound("#" + comment, rest);
    assert (("#" + comment) + rest)[|"#" + comment|..] == rest;
  }

  /** The letters that stand for each other. */
  lemma LettersLowered(i: nat, c: char)
    requires i < 26
    ensures LowerChar("ABCDEFGHIJKLMNOPQRSTUVWXYZ"[i]) == "abcdefghijklmnopqrstuvwxyz"[i]
    ensures !('A' <= c <= 'Z') ==> LowerChar(c) == c
  {
  }

  lemma KeysInAnyCase()
    ensures Lower("User-Agent") == Lower("USER-AGENT") == "user-agent"
    ensures Lower("Allow") == Lower("ALLOW") == "allow" && Lower("Disallow") == Lower("DISALLOW") == "disallow"
  {
  }

  lemma ColonFound(key: string, middle: string, tail: string)
    requires ':' !in key && AllSpace(middle)
    ensures var line := key + middle + ":" + tail;
      Find(line, ':') == |key + middle| && line[..|key + middle|] == key + middle && line[|key + middle| + 1..] == tail
  {
    var line := key + middle + ":" + tail;
    assert line[..|key + middle|] == key + middle && line[|key + middle| + 1..] == tail;
    FindIs(line, ':', |key + middle|);
  }

  lemma {:induction false} GapSkipped(gap: string, value: string)
    requires AllSpace(gap) && Trimmed(value)
    ensures RobotsLine.SkipSpaces(gap + value) == value
  {
    if gap == "" {
      assert gap + value == value;
    } else {
      assert (gap + value)[1..] == gap[1..] + value;
      GapSkipped(gap[1..], value);
    }
  }

  /** The key and the value of a line are read whatever white space stands around them, and in any case of the key. */
  lemma ClassifySpaced(key: string, middle: string, gap: string, value: string)
    requires key != "" && Trimmed(key) && ':' !in key && AllSpace(middle) && AllSpace(gap) && Trimmed(value) && NoBreak(value)
    ensures Classify(key + middle + ":" + (gap + value)) == KeyValue(Lower(key), value)
  {
    ColonFound(key, middle, gap + value);
    GapSkipped(gap, value);
    TrimCuts("", key, middle);
    assert "" + key + middle == key + middle;
    TrimCuts("", value, "");
    assert "" + value + "" == value;
    ClassifyAt(key + middle + ":" + (gap + value), |key + middle|, key, value);
  }

  lemma ClassifyAt(line: string, n: nat, key: string, value: string)
    requires Find(line, ':') == n && 0 < n < |line| && Trim(line[..n]) == key
    requires RobotsLine.SkipSpaces(line[n + 1..]) == value && Trim(value) == value && NoBreak(value)
    ensures Classify(line) == KeyValue(Lower(key), value)
  {
  }

  lemma SpacedIsTrimmed(key: string, middle: string, gap: string, value: string)
    requires key != "" && Trimmed(key) && value != "" && Trimmed(value)
    ensures Trimmed(key + middle + ":" + (gap + value))
  {
    var line := key + middle + ":" + (gap + value);
    assert line[0] == key[0] && line[|line| - 1] == value[|value| - 1];
  }

  lemma NoHash(before: string, line: string, after: string)
    requires AllSpace(before) && AllSpace(after) && '#' !in line
    ensures '#' !in before + line + after
  {
  }

  lemma SpacedLineReads(before: string, key: string, middle: string, gap: string, value: string, after: string, comment: string)
    requires key != "" && Trimmed(key) && ':' !in key && '#' !in key && value != "" && Trimmed(value) && '#' !in value && NoBreak(value)
    requires AllSpace(before) && AllSpace(middle) && AllSpace(gap) && AllSpace(after)
    requires comment == "" || (comment[0] == '#' && NoBreak(comment))
    requires |key| + |middle| + 1 + |gap| + |value| <= ROBOTS_MAX_DIRECTIVE_CHARS
    ensures ReadLine(before + (key + middle + ":" + (gap + value)) + after + comment) == Says(KeyValue(Lower(key), value))
  {
    var line := key + middle + ":" + (gap + value);
    var text := before + line + after;
    NoHash(before, line, after);
    if comment == "" {
      NoComment(text);
      assert text + comment == text;
    } else {
      CommentGoes(text, comment[1..], "");
      assert text + comment == text + "#" + comment[1..] + "" && text + "" == text;
    }
    SpacedIsTrimmed(key, middle, gap, value);
    TrimCuts(before, line, after);
    ClassifySpaced(key, middle, gap, value);
  }
}
