/** One line of robots.txt: its comment, its key and its value. */
module RobotsLine {
  import opened TextLines
  import opened RobotsRules

  const ROBOTS_MAX_DIRECTIVE_CHARS: nat := 4096

  predicate LineBreak(c: char) {
    c == '\n' || c == '\r' || c == '\U{2028}' || c == '\U{2029}'
  }

  function Find(s: string, c: char): (n: nat)
    ensures n <= |s| && (n < |s| ==> s[n] == c) && c !in s[..n]
  {
    if s == "" || s[0] == c then 0 else Find(s[1..], c) + 1
  }

  function FindBreak(s: string): (n: nat)
    ensures n <= |s|
  {
    if s == "" || LineBreak(s[0]) then 0 else FindBreak(s[1..]) + 1
  }

  /** Drop a comment: from the first hash to the end of its line. */
  function Uncomment(line: string): string {
    var n := Find(line, '#');
    if n == |line| then line else line[..n] + line[n..][FindBreak(line[n..])..]
  }

  function LowerChar(c: char): char {
    if 'A' <= c <= 'Z' then (c as int + 32) as char else c
  }

  function Lower(s: string): string {
    seq(|s|, i requires 0 <= i < |s| => LowerChar(s[i]))
  }

  function SkipSpaces(s: string): string {
    if s != "" && Space(s[0]) then SkipSpaces(s[1..]) else s
  }

  datatype Directive = UserAgent(name: string) | RuleLine(rule: Rule) | Ignored

  /** What a trimmed line without its comment says. */
  function Classify(line: string): Directive {
    var n := Find(line, ':');
    if n == 0 || n == |line| || (exists c :: c in SkipSpaces(line[n + 1..]) && LineBreak(c)) then Ignored
    else
      KeyValue(Lower(Trim(line[..n])), Trim(SkipSpaces(line[n + 1..])))
  }

  function KeyValue(key: string, value: string): Directive {
    if key == "user-agent" then UserAgent(Lower(value))
    else if key == "allow" then RuleLine(Rule(true, value))
    else if key == "disallow" then RuleLine(Rule(false, value))
    else Ignored
  }

  /** A line as the loop sees it: nothing, too much, or a directive. */
  datatype Line = Blank | TooLong | Says(directive: Directive)

  function ReadLine(raw: string): Line {
    var line := Trim(Uncomment(raw));
    if line == "" then Blank
    else if |line| > ROBOTS_MAX_DIRECTIVE_CHARS then TooLong
    else Says(Classify(line))
  }

  // ---------------------------------------------------------------------- round trip

  /** Text that a line can carry unchanged. */
  predicate Plain(s: string) {
    Trim(s) == s && '#' !in s && forall c :: c in s ==> !LineBreak(c)
  }

  function KeyOf(d: Directive): string {
    match d
    case UserAgent(_) => "user-agent"
    case RuleLine(rule) => if rule.allow then "allow" else "disallow"
    case Ignored => "ignored"
  }

  function ValueOf(d: Directive): string {
    match d
    case UserAgent(name) => name
    case RuleLine(rule) => rule.path
    case Ignored => ""
  }

  predicate Readable(d: Directive) {
    && !d.Ignored? && Plain(ValueOf(d)) && |KeyOf(d)| + 2 + |ValueOf(d)| <= ROBOTS_MAX_DIRECTIVE_CHARS
    && (d.UserAgent? ==> Lower(d.name) == d.name)
    && (d.RuleLine? ==> |d.rule.path| <= ROBOTS_MAX_RULE_CHARS)
  }

  function DirectiveText(d: Directive): string {
    KeyOf(d) + ": " + ValueOf(d)
  }

  lemma {:induction false} TrimShrinks(s: string)
    ensures |Trim(s)| <= |s|
    decreases |s|
  {
    if s != "" {
      if Space(s[0]) { TrimShrinks(s[1..]); }
      else if Space(s[|s| - 1]) { TrimShrinks(s[..|s| - 1]); }
    }
  }

  lemma TrimmedEnds(s: string)
    requires Trim(s) == s && s != ""
    ensures !Space(s[0]) && !Space(s[|s| - 1])
  {
    TrimShrinks(s[1..]);
    TrimShrinks(s[..|s| - 1]);
  }

  lemma {:induction false} FindIs(s: string, c: char, n: nat)
    requires n <= |s| && c !in s[..n] && (n < |s| ==> s[n] == c)
    ensures Find(s, c) == n
  {
    if n > 0 {
      assert s[0] in s[..n];
      assert s[1..][..n - 1] == s[..n][1..];
      FindIs(s[1..], c, n - 1);
    }
  }

  function Kept(key: string, value: string): string {
    if value == "" then key + ":" else key + ": " + value
  }

  lemma TrimKept(key: string, value: string)
    requires key != "" && Trim(key) == key && Trim(value) == value
    ensures Trim(key + ": " + value) == Kept(key, value)
  {
    var raw := key + ": " + value;
    TrimmedEnds(key);
    if value == "" {
      assert raw[..|raw| - 1] == key + ":";
      assert Trim(key + ":") == key + ":";
    } else {
      TrimmedEnds(value);
    }
  }

  lemma NoComment(raw: string)
    requires '#' !in raw
    ensures Uncomment(raw) == raw
  {
    FindIs(raw, '#', |raw|);
  }

  lemma ColonKept(key: string, value: string)
    requires ':' !in key
    ensures Find(Kept(key, value), ':') == |key|
  {
    assert Kept(key, value)[..|key|] == key;
    FindIs(Kept(key, value), ':', |key|);
  }

  /** Nothing is cut off, and the colon is where it was put. */
  lemma TextKept(key: string, value: string)
    requires key != "" && Trim(key) == key && ':' !in key && '#' !in key && Plain(value)
    ensures Trim(Uncomment(key + ": " + value)) == Kept(key, value)
    ensures Find(Kept(key, value), ':') == |key|
  {
    NoComment(key + ": " + value);
    TrimKept(key, value);
    ColonKept(key, value);
  }

  lemma ValueKept(key: string, value: string)
    requires Plain(value)
    ensures Kept(key, value)[..|key|] == key && SkipSpaces(Kept(key, value)[|key| + 1..]) == value
  {
    if value == "" {
      assert (key + ":")[|key| + 1..] == "";
    } else {
      TrimmedEnds(value);
      assert (key + ": " + value)[|key| + 1..] == " " + value;
      assert (" " + value)[1..] == value;
      assert SkipSpaces(" " + value) == SkipSpaces(value);
    }
  }

  lemma ReadKept(key: string, value: string)
    requires key != "" && Trim(key) == key && Lower(key) == key && Plain(value)
    requires Find(Kept(key, value), ':') == |key|
    requires Kept(key, value)[..|key|] == key && SkipSpaces(Kept(key, value)[|key| + 1..]) == value
    ensures Classify(Kept(key, value)) == KeyValue(key, value)
  {
  }

  lemma KeyValueReads(key: string, value: string)
    requires key != "" && Trim(key) == key && Lower(key) == key && ':' !in key && '#' !in key && Plain(value)
    requires |key| + 2 + |value| <= ROBOTS_MAX_DIRECTIVE_CHARS
    ensures ReadLine(key + ": " + value) == Says(KeyValue(key, value))
  {
    TextKept(key, value);
    ValueKept(key, value);
    ReadKept(key, value);
  }

  lemma KeysArePlain(d: Directive)
    ensures var key := KeyOf(d);
      key != "" && |key| <= 10 && Trim(key) == key && Lower(key) == key
      && forall c :: c in key ==> c != ':' && c != '#' && !LineBreak(c)
  {
    assert forall i :: 0 <= i < |KeyOf(d)| ==> KeyOf(d)[i] == '-' || 'a' <= KeyOf(d)[i] <= 'z';
    assert Lower(KeyOf(d)) == KeyOf(d);
  }

  predicate ShortRule(d: Directive) {
    d.RuleLine? ==> |d.rule.path| <= ROBOTS_MAX_RULE_CHARS
  }

  lemma ReadablesAreShort(ds: seq<Directive>)
    requires forall d :: d in ds ==> Readable(d)
    ensures forall d :: d in ds ==> ShortRule(d)
  {
  }

  lemma KeySays(d: Directive)
    requires Readable(d)
    ensures KeyValue(KeyOf(d), ValueOf(d)) == d
  {
  }

  /** A line that spells out a directive is read as that directive. */
  lemma DirectiveReads(d: Directive)
    requires Readable(d)
    ensures ReadLine(DirectiveText(d)) == Says(d)
  {
    KeysArePlain(d);
    KeyValueReads(KeyOf(d), ValueOf(d));
    KeySays(d);
  }

  lemma DirectiveIsOneLine(d: Directive)
    requires Readable(d)
    ensures '\n' !in DirectiveText(d) && '\r' !in DirectiveText(d)
  {
    KeysArePlain(d);
  }
}
