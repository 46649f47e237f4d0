/**
 Reading the provider's token usage out of a streamed response. The stream arrives in
 chunks cut at arbitrary places; the last line that carries usage decides.
 Chunks are taken as already decoded text with their size in bytes.
 */
module RelayStream {
  import opened Prelude
  import opened BudgetRules
  import opened TextLines

  const MAX_RESPONSE_BYTES: nat := 8 * 1024 * 1024

  datatype Chunk = Chunk(text: string, bytes: nat)

  /** What JSON parsing finds in an event's data. */
  datatype EventData = Unparsable | NoUsage | HasUsage(usage: RawUsage)

  /** A line says nothing about usage, or says something unusable, or reports usage. */
  datatype Candidate = Silent | Unusable | Usable(usage: Usage)

  function UsageFromEvent(line: string, read: string -> EventData): Candidate {
    if !("data:" <= line) then Silent
    else
      var data := Trim(line[5..]);
      if data == "" || data == "[DONE]" then Silent
      else match read(data)
        case Unparsable => Unusable
        case NoUsage => Silent
        case HasUsage(raw) =>
          if NormalizeUsage(raw).Some? then Usable(NormalizeUsage(raw).value) else Unusable
  }

  // ------------------------------------------------------------------- the last word

  /** The last line that says anything about usage decides; an unusable one discards what came before. */
  function LastWord(lines: seq<string>, read: string -> EventData): Option<Usage> {
    if lines == [] then None
    else match UsageFromEvent(Last(lines), read)
      case Silent => LastWord(Front(lines), read)
      case Unusable => None
      case Usable(u) => Some(u)
  }

  lemma {:induction false} LastWordOfMore(lines: seq<string>, more: seq<string>, read: string -> EventData)
    requires LastWord(more, read).None? && forall i :: 0 <= i < |more| ==> UsageFromEvent(more[i], read).Silent?
    ensures LastWord(lines + more, read) == LastWord(lines, read)
  {
    if more == [] {
      assert lines + more == lines;
    } else {
      assert Front(lines + more) == lines + Front(more);
      assert UsageFromEvent(more[|more| - 1], read).Silent?;
      LastWordOfMore(lines, Front(more), read);
    }
  }

  function TextOf(chunks: seq<Chunk>): string {
    if chunks == [] then "" else TextOf(chunks[..|chunks| - 1]) + chunks[|chunks| - 1].text
  }

  function BytesOf(chunks: seq<Chunk>): nat {
    if chunks == [] then 0 else BytesOf(chunks[..|chunks| - 1]) + chunks[|chunks| - 1].bytes
  }

  lemma {:induction false} BytesGrow(chunks: seq<Chunk>, i: nat)
    requires i <= |chunks|
    ensures BytesOf(chunks[..i]) <= BytesOf(chunks)
  {
    if i == |chunks| {
      assert chunks[..i] == chunks;
    } else {
      assert chunks[..|chunks| - 1][..i] == chunks[..i];
      BytesGrow(chunks[..|chunks| - 1], i);
    }
  }

  /** One candidate after another: what the reader's `usage` variable holds. */
  method Consider(lines: seq<string>, read: string -> EventData, before: Option<Usage>, ghost seen: seq<string>)
    returns (usage: Option<Usage>)
    requires before == LastWord(seen, read)
    ensures usage == LastWord(seen + lines, read)
  {
    usage := before;
    assert seen + lines[..0] == seen;
    for i := 0 to |lines|
      invariant usage == LastWord(seen + lines[..i], read)
    {
      assert Front(seen + lines[..i + 1]) == seen + lines[..i];
      var candidate := UsageFromEvent(lines[i], read);
      match candidate {
        case Silent =>
        case Unusable => usage := None;
        case Usable(u) => usage := Some(u);
      }
    }
    assert lines[..|lines|] == lines;
  }

  /** Take one more chunk: finish the lines it completes and keep the unfinished rest. */
  method TakeChunk(text: string, read: string -> EventData, pending: string, before: Option<Usage>, ghost seen: string)
    returns (rest: string, usage: Option<Usage>)
    requires pending == Last(Lines(seen)) && before == LastWord(Front(Lines(seen)), read)
    ensures rest == Last(Lines(seen + text)) && usage == LastWord(Front(Lines(seen + text)), read)
  {
    LinesOfMore(seen, text);
    var lines := Lines(pending + text);
    usage := Consider(lines[..|lines| - 1], read, before, Front(Lines(seen)));
    assert Front(Lines(seen)) + lines[..|lines| - 1] == Front(Lines(seen + text));
    rest := lines[|lines| - 1];
  }

  /**
   Read the whole stream. It fails exactly when the response is too large; otherwise
   the usage is the last word of the lines of the whole text, however it was cut.
   */
  method ReadUsage(chunks: seq<Chunk>, read: string -> EventData) returns (usage: Option<Usage>, tooLarge: bool)
    ensures tooLarge <==> BytesOf(chunks) > MAX_RESPONSE_BYTES
    ensures !tooLarge ==> usage == LastWord(Lines(TextOf(chunks)), read)
  {
    usage := None;
    var total := 0;
    var pending := "";
    for i := 0 to |chunks|
      invariant total == BytesOf(chunks[..i]) <= MAX_RESPONSE_BYTES
      invariant pending == Last(Lines(TextOf(chunks[..i])))
      invariant usage == LastWord(Front(Lines(TextOf(chunks[..i]))), read)
    {
      assert chunks[..i + 1][..i] == chunks[..i];
      total := total + chunks[i].bytes;
      if total > MAX_RESPONSE_BYTES {
        BytesGrow(chunks, i + 1);
        return None, true;
      }
      pending, usage := TakeChunk(chunks[i].text, read, pending, usage, TextOf(chunks[..i]));
    }
    assert chunks[..|chunks|] == chunks;
    tooLarge := false;
    ghost var pieces := Lines(TextOf(chunks));
    assert pieces == Front(pieces) + [pending];
    if pending != "" {
      usage := Consider([pending], read, usage, Front(pieces));
    } else {
      LastWordOfMore(Front(pieces), [pending], read);
    }
  }
}
