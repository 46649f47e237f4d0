/** What single lines of a streamed response say, and which of them decides. */
module RelayStreamLaws {
  import opened Prelude
  import opened BudgetRules
  import opened TextLines
  import opened TrimLaws
  import opened RelayStream

  /** A data line, with any white space around what it carries. */
  function DataLine(gap: string, data: string, after: string): string {
    "data:" + (gap + data + after)
  }

  lemma DataIsRead(gap: string, data: string, after: string)
    requires AllSpace(gap) && AllSpace(after) && Trimmed(data)
    ensures "data:" <= DataLine(gap, data, after) && Trim(DataLine(gap, data, after)[5..]) == data
  {
    assert DataLine(gap, data, after)[5..] == gap + data + after;
    TrimCuts(gap, data, after);
  }

  /** An event that reports three counts that add up is believed, with these counts. */
  lemma ReportIsBelieved(gap: string, data: string, after: string, read: string -> EventData, p: nat, c: nat)
    requires AllSpace(gap) && AllSpace(after) && Trimmed(data) && data != "" && data != "[DONE]"
    requires read(data) == HasUsage(Reported(p, c, p + c)) && p + c <= MAX_SAFE_INTEGER
    ensures UsageFromEvent(DataLine(gap, data, after), read) == Usable(Usage(p, c))
  {
    DataIsRead(gap, data, after);
  }

  /** Counts that do not add up, a malformed object and data that does not parse make it unusable. */
  lemma OtherReportsAreNot(gap: string, data: string, after: string, read: string -> EventData, p: int, c: int, t: int)
    requires AllSpace(gap) && AllSpace(after) && Trimmed(data) && data != "" && data != "[DONE]"
    requires read(data) == Unparsable || read(data) == HasUsage(Missing) || (read(data) == HasUsage(Reported(p, c, t)) && t != p + c)
    ensures UsageFromEvent(DataLine(gap, data, after), read) == Unusable
  {
    DataIsRead(gap, data, after);
  }

  /** The mark of the end, an event without usage and a line of another kind say nothing. */
  lemma TheRestIsSilent(gap: string, data: string, after: string, line: string, read: string -> EventData)
    requires AllSpace(gap) && AllSpace(after) && Trimmed(data)
    requires data == "" || data == "[DONE]" || read(data) == NoUsage
    ensures UsageFromEvent(DataLine(gap, data, after), read) == Silent
    ensures !("data:" <= line) ==> UsageFromEvent(line, read) == Silent
  {
    DataIsRead(gap, data, after);
  }

  /** The last line that is not silent decides, and without one there is no usage. */
  lemma {:induction false} LastLineDecides(lines: seq<string>, i: nat, read: string -> EventData)
    requires i < |lines| && !UsageFromEvent(lines[i], read).Silent?
    requires forall j :: i < j < |lines| ==> UsageFromEvent(lines[j], read).Silent?
    ensures LastWord(lines, read)
         == if UsageFromEvent(lines[i], read).Usable? then Some(UsageFromEvent(lines[i], read).usage) else None
  {
    if i < |lines| - 1 {
      LastLineDecides(Front(lines), i, read);
    }
  }

  lemma {:induction false} AllSilent(lines: seq<string>, read: string -> EventData)
    requires forall j :: 0 <= j < |lines| ==> UsageFromEvent(lines[j], read).Silent?
    ensures LastWord(lines, read) == None
  {
    if lines != [] {
      AllSilent(Front(lines), read);
    }
  }

  /** A line ends at its newline, with the return before it if there is one. */
  lemma LineEnds(line: string, rest: string)
    requires '\n' !in line && '\r' !in line
    ensures Lines(line + "\n" + rest) == [line] + Lines(rest)
    ensures Lines(line + "\r" + "\n" + rest) == [line] + Lines(rest)
  {
    OneLine(line, rest);
    var text := line + "\r" + "\n" + rest;
    JoinedSplits(line + "\r", rest);
    forall i | 0 <= i < |line| + 1 ensures text[i] != '\n' {
      assert text[i] == (line + "\r")[i];
      assert i < |line| ==> text[i] in line;
    }
    LinesCut(text, |line| + 1);
  }

  /** A usage report between other lines is what a stream comes to, if only silent lines follow it. */
  lemma ReportDecides(before: seq<string>, report: string, after: seq<string>, read: string -> EventData, usage: Usage)
    requires UsageFromEvent(report, read) == Usable(usage)
    requires forall j :: 0 <= j < |after| ==> UsageFromEvent(after[j], read).Silent?
    ensures LastWord(before + [report] + after, read) == Some(usage)
  {
    LastLineDecides(before + [report] + after, |before|, read);
  }
}
