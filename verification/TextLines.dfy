/** Splitting text into lines and trimming it, as JavaScript does with `/\r?\n/` and `trim`. */
module TextLines {
  predicate Space(c: char) {
    || c == ' ' || '\t' <= c <= '\r' || c == '\U{A0}' || c == '\U{1680}' || '\U{2000}' <= c <= '\U{200A}'
    || c == '\U{2028}' || c == '\U{2029}' || c == '\U{202F}' || c == '\U{205F}' || c == '\U{3000}' || c == '\U{FEFF}'
  }

  function Trim(s: string): string {
    if s == "" then ""
    else if Space(s[0]) then Trim(s[1..])
    else if Space(s[|s| - 1]) then Trim(s[..|s| - 1])
    else s
  }

  function Newline(text: string): (n: nat)
    ensures n <= |text| && (n < |text| ==> text[n] == '\n')
    ensures forall i :: 0 <= i < n ==> text[i] != '\n'
  {
    if text == "" || text[0] == '\n' then 0 else Newline(text[1..]) + 1
  }

  function WithoutReturn(line: string): string {
    if line != "" && line[|line| - 1] == '\r' then line[..|line| - 1] else line
  }

  /** The pieces between line ends; a line end is a newline, with the return before it if there is one. */
  function Lines(text: string): (pieces: seq<string>)
    ensures pieces != []
  {
    var n := Newline(text);
    if n == |text| then [text] else [WithoutReturn(text[..n])] + Lines(text[n + 1..])
  }

  function Last<T>(s: seq<T>): T
    requires s != []
  {
    s[|s| - 1]
  }

  function Front<T>(s: seq<T>): seq<T>
    requires s != []
  {
    s[..|s| - 1]
  }

  lemma NewlineAt(text: string, n: nat)
    requires n < |text| && text[n] == '\n' && forall i :: 0 <= i < n ==> text[i] != '\n'
    ensures Newline(text) == n
  {
  }

  lemma LinesCut(text: string, n: nat)
    requires n < |text| && text[n] == '\n' && forall i :: 0 <= i < n ==> text[i] != '\n'
    ensures Lines(text) == [WithoutReturn(text[..n])] + Lines(text[n + 1..])
  {
    NewlineAt(text, n);
  }

  lemma FrontAndLast<T>(first: T, s: seq<T>)
    requires s != []
    ensures Front([first] + s) == [first] + Front(s) && Last([first] + s) == Last(s)
  {
  }

  lemma CutOfMore(text: string, more: string, n: nat)
    requires n < |text| && text[n] == '\n' && forall i :: 0 <= i < n ==> text[i] != '\n'
    ensures Lines(text + more) == [WithoutReturn(text[..n])] + Lines(text[n + 1..] + more)
  {
    assert (text + more)[..n] == text[..n] && (text + more)[n + 1..] == text[n + 1..] + more;
    LinesCut(text + more, n);
  }

  /** Splitting more text splits only the unfinished last piece further. */
  lemma {:induction false} LinesOfMore(text: string, more: string)
    ensures Lines(text + more) == Front(Lines(text)) + Lines(Last(Lines(text)) + more)
    decreases |text|
  {
    var n := Newline(text);
    if n < |text| {
      var line, rest := WithoutReturn(text[..n]), Lines(text[n + 1..]);
      CutOfMore(text, more, n);
      LinesCut(text, n);
      FrontAndLast(line, rest);
      LinesOfMore(text[n + 1..], more);
      var behind := Lines(Last(rest) + more);
      assert [line] + (Front(rest) + behind) == [line] + Front(rest) + behind;
    } else {
      assert Lines(text) == [text];
      assert Front(Lines(text)) == [];
    }
  }

  function Joined(lines: seq<string>): string {
    if lines == [] then "" else lines[0] + "\n" + Joined(lines[1..])
  }

  lemma JoinedSplits(line: string, rest: string)
    ensures var text := line + "\n" + rest;
      text[..|line|] == line && text[|line|] == '\n' && text[|line| + 1..] == rest
  {
  }

  lemma NoReturn(line: string)
    requires '\r' !in line
    ensures WithoutReturn(line) == line
  {
  }

  lemma OneLine(line: string, rest: string)
    requires '\n' !in line && '\r' !in line
    ensures Lines(line + "\n" + rest) == [line] + Lines(rest)
  {
    var text := line + "\n" + rest;
    JoinedSplits(line, rest);
    NoReturn(line);
    forall i | 0 <= i < |line| ensures text[i] != '\n' {
      assert text[i] == line[i] && line[i] in line;
    }
    LinesCut(text, |line|);
  }

  /** Lines written out one after another are read back as they were. */
  lemma {:induction false} LinesOfJoined(lines: seq<string>)
    requires forall line :: line in lines ==> '\n' !in line && '\r' !in line
    ensures Lines(Joined(lines)) == lines + [""]
  {
    if lines != [] {
      LinesOfJoined(lines[1..]);
      OneLine(lines[0], Joined(lines[1..]));
      assert [lines[0]] + (lines[1..] + [""]) == lines + [""];
    }
  }
}
