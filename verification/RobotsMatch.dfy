/** Path patterns of robots.txt rules (section 2.2.3 of RFC 9309). */
module RobotsMatch {
  import opened Prelude
  import opened TextSearch

  // --------------------------------------------------------------- what a pattern means

  // `*` stands for any run of characters, and a pattern matches a prefix of the path, or all
  // of it when anchored. The matcher works part by part and greedily; it is right for every
  // pattern and path.

  /** The pattern stands for exactly this text. */
  predicate Denotes(pattern: string, text: string) {
    if pattern == "" then text == ""
    else if pattern[0] == '*' then exists k :: 0 <= k <= |text| && Denotes(pattern[1..], text[k..])
    else text != "" && text[0] == pattern[0] && Denotes(pattern[1..], text[1..])
  }

  /** The pattern matches the path: all of it if anchored, otherwise some prefix of it. */
  predicate Matches(pattern: string, path: string, anchored: bool) {
    if anchored then Denotes(pattern, path)
    else exists k :: 0 <= k <= |path| && Denotes(pattern, path[..k])
  }

  /** The same, told from the front. */
  predicate From(pattern: string, path: string, anchored: bool) {
    if pattern == "" then !anchored || path == ""
    else if pattern[0] == '*' then exists k :: 0 <= k <= |path| && From(pattern[1..], path[k..], anchored)
    else path != "" && path[0] == pattern[0] && From(pattern[1..], path[1..], anchored)
  }

  lemma {:induction false} FromAnchored(pattern: string, path: string)
    ensures From(pattern, path, true) <==> Denotes(pattern, path)
  {
    if pattern == "" {
    } else if pattern[0] == '*' {
      forall k | 0 <= k <= |path| ensures From(pattern[1..], path[k..], true) <==> Denotes(pattern[1..], path[k..]) {
        FromAnchored(pattern[1..], path[k..]);
      }
    } else if path != "" {
      FromAnchored(pattern[1..], path[1..]);
    }
  }

  lemma {:induction false} FromPrefix(pattern: string, path: string)
    ensures From(pattern, path, false) <==> exists k :: 0 <= k <= |path| && Denotes(pattern, path[..k])
    decreases |pattern|
  {
    if pattern == "" {
      assert path[..0] == "";
    } else if pattern[0] == '*' {
      StarPrefix(pattern, path);
    } else {
      var rest := pattern[1..];
      if path != "" {
        FromPrefix(rest, path[1..]);
        forall k | 0 <= k <= |path| - 1 ensures Denotes(rest, path[1..][..k]) <==> Denotes(rest, path[..k + 1][1..]) {
          assert path[1..][..k] == path[..k + 1][1..];
        }
        if k :| 0 <= k <= |path| - 1 && Denotes(rest, path[1..][..k]) && path[0] == pattern[0] {
          assert Denotes(pattern, path[..k + 1]);
        }
        if k :| 0 <= k <= |path| && Denotes(pattern, path[..k]) {
          assert path[..k][1..] == path[1..][..k - 1];
        }
      }
    }
  }

  lemma StarPrefix(pattern: string, path: string)
    requires pattern != "" && pattern[0] == '*'
    ensures From(pattern, path, false) <==> exists k :: 0 <= k <= |path| && Denotes(pattern, path[..k])
    decreases |pattern|, 0
  {
    var rest := pattern[1..];
    if j :| 0 <= j <= |path| && From(rest, path[j..], false) {
      FromPrefix(rest, path[j..]);
      var k :| 0 <= k <= |path[j..]| && Denotes(rest, path[j..][..k]);
      assert path[j..][..k] == path[..j + k][j..];
      assert Denotes(pattern, path[..j + k]);
    }
    if k :| 0 <= k <= |path| && Denotes(pattern, path[..k]) {
      var j :| 0 <= j <= k && Denotes(rest, path[..k][j..]);
      assert path[..k][j..] == path[j..][..k - j];
      FromPrefix(rest, path[j..]);
    }
  }

  lemma FromIsMatches(pattern: string, path: string, anchored: bool)
    ensures From(pattern, path, anchored) <==> Matches(pattern, path, anchored)
  {
    if anchored { FromAnchored(pattern, path); } else { FromPrefix(pattern, path); }
  }

  // ------------------------------------------------------------- splitting into parts

  function Star(pattern: string): (n: nat)
    ensures n <= |pattern| && (n < |pattern| ==> pattern[n] == '*') && '*' !in pattern[..n]
  {
    if pattern == "" || pattern[0] == '*' then 0 else Star(pattern[1..]) + 1
  }

  /** The parts between the stars. */
  function Parts(pattern: string): (parts: seq<string>)
    ensures parts != []
  {
    var n := Star(pattern);
    if n == |pattern| then [pattern] else [pattern[..n]] + Parts(pattern[n + 1..])
  }

  /** The pattern from part `i` on, with the star before it. */
  function Rest(parts: seq<string>, i: nat): string
    requires i <= |parts|
    decreases |parts| - i
  {
    if i == |parts| then "" else "*" + parts[i] + Rest(parts, i + 1)
  }

  lemma {:induction false} RestShift(part: string, parts: seq<string>, i: nat)
    requires i <= |parts|
    ensures Rest([part] + parts, i + 1) == Rest(parts, i)
    decreases |parts| - i
  {
    var longer := [part] + parts;
    if i < |parts| {
      RestShift(part, parts, i + 1);
      assert longer[i + 1] == parts[i];
      assert Rest(longer, i + 1) == "*" + longer[i + 1] + Rest(longer, i + 2);
    }
  }

  lemma JoinStep(first: string, tail: string, parts: seq<string>)
    requires parts != [] && tail == parts[0] + Rest(parts, 1)
    ensures first + "*" + tail == first + Rest([first] + parts, 1)
  {
    RestShift(first, parts, 0);
    assert "*" + parts[0] + Rest(parts, 1) == "*" + tail;
  }

  lemma AroundStar(pattern: string, n: nat)
    requires n < |pattern| && pattern[n] == '*'
    ensures pattern == pattern[..n] + "*" + pattern[n + 1..]
  {
  }

  lemma PartsUnfold(pattern: string)
    ensures Star(pattern) == |pattern| ==> Parts(pattern) == [pattern]
    ensures Star(pattern) < |pattern| ==> Parts(pattern) == [pattern[..Star(pattern)]] + Parts(pattern[Star(pattern) + 1..])
  {
  }

  /** The parts, joined by stars, are the pattern. */
  lemma {:induction false} PartsJoin(pattern: string)
    ensures pattern == Parts(pattern)[0] + Rest(Parts(pattern), 1)
  {
    var n, parts := Star(pattern), Parts(pattern);
    PartsUnfold(pattern);
    if n < |pattern| {
      var first, tail := pattern[..n], pattern[n + 1..];
      PartsJoin(tail);
      JoinStep(first, tail, Parts(tail));
      AroundStar(pattern, n);
      assert parts[0] == first;
    }
  }

  lemma {:induction false} PartsPlain(pattern: string)
    ensures forall part :: part in Parts(pattern) ==> '*' !in part
  {
    var n := Star(pattern);
    if n < |pattern| {
      PartsPlain(pattern[n + 1..]);
    }
  }

  predicate EndsWithStar(pattern: string) {
    pattern != "" && pattern[|pattern| - 1] == '*'
  }

  lemma {:induction false} PartsEnds(pattern: string)
    ensures pattern != "" && pattern[0] == '*' <==> |Parts(pattern)| > 1 && Parts(pattern)[0] == ""
    ensures EndsWithStar(pattern) <==> |Parts(pattern)| > 1 && Parts(pattern)[|Parts(pattern)| - 1] == ""
  {
    var n := Star(pattern);
    if n < |pattern| {
      var tail := pattern[n + 1..];
      PartsEnds(tail);
      assert |Parts(tail)| == 1 ==> Parts(tail) == [tail];
      assert Parts(pattern) == [pattern[..n]] + Parts(tail);
      assert tail == "" || tail[|tail| - 1] == pattern[|pattern| - 1];
    }
  }

  // ----------------------------------------------------------------- one part at a time

  /** A part without stars must come first. */
  lemma {:induction false} PartFirst(part: string, rest: string, path: string, anchored: bool)
    requires '*' !in part
    ensures From(part + rest, path, anchored) <==> OccursAt(part, path, 0) && From(rest, path[|part|..], anchored)
  {
    if part == "" {
      assert part + rest == rest && path[0..] == path;
    } else {
      assert (part + rest)[0] == part[0] && (part + rest)[1..] == part[1..] + rest;
      if path != "" {
        PartFirst(part[1..], rest, path[1..], anchored);
        assert OccursAt(part, path, 0) <==> path[0] == part[0] && OccursAt(part[1..], path[1..], 0) by {
          if OccursAt(part, path, 0) {
            assert path[1..][0..|part| - 1] == path[0..|part|][1..] == part[1..];
          }
          if path[0] == part[0] && OccursAt(part[1..], path[1..], 0) {
            assert path[0..|part|] == [path[0]] + path[1..][0..|part| - 1];
          }
        }
        if |part| <= |path| {
          assert path[1..][|part| - 1..] == path[|part|..];
        }
      }
    }
  }

  /** Behind a star, a match from further on is a match from here. */
  lemma StarSkips(rest: string, path: string, k: nat, anchored: bool)
    requires k <= |path| && From("*" + rest, path[k..], anchored)
    ensures From("*" + rest, path, anchored)
  {
    assert ("*" + rest)[1..] == rest;
    var j :| 0 <= j <= |path[k..]| && From(rest, path[k..][j..], anchored);
    assert path[k..][j..] == path[k + j..];
  }

  lemma PartAt(part: string, rest: string, path: string, k: nat, anchored: bool)
    requires '*' !in part && k <= |path|
    ensures From(part + rest, path[k..], anchored) <==> OccursAt(part, path, k) && From(rest, path[k + |part|..], anchored)
  {
    PartFirst(part, rest, path[k..], anchored);
    if k + |part| <= |path| {
      assert path[k..][0..|part|] == path[k..k + |part|];
      assert path[k..][|part|..] == path[k + |part|..];
    }
  }

  /** A part behind a star may start wherever it occurs. */
  lemma StarPart(part: string, rest: string, path: string, anchored: bool)
    requires '*' !in part
    ensures From("*" + part + rest, path, anchored) <==>
      exists k :: OccursAt(part, path, k) && From(rest, path[k + |part|..], anchored)
  {
    var pattern := "*" + part + rest;
    assert pattern[1..] == part + rest;
    if From(pattern, path, anchored) {
      var k :| 0 <= k <= |path| && From(part + rest, path[k..], anchored);
      PartAt(part, rest, path, k, anchored);
    }
    if k :| OccursAt(part, path, k) && From(rest, path[k + |part|..], anchored) {
      PartAt(part, rest, path, k, anchored);
      assert From(pattern[1..], path[k..], anchored);
      assert From(pattern, path, anchored);
    }
  }

  /** When another star follows, the first occurrence is as good as any. */
  lemma FirstIsEnough(part: string, rest: string, path: string, anchored: bool, found: nat)
    requires '*' !in part && OccursAt(part, path, found) && forall k :: OccursAt(part, path, k) ==> found <= k
    ensures From("*" + part + ("*" + rest), path, anchored) <==> From("*" + rest, path[found + |part|..], anchored)
  {
    StarPart(part, "*" + rest, path, anchored);
    if k :| OccursAt(part, path, k) && From("*" + rest, path[k + |part|..], anchored) {
      assert path[found + |part|..][k - found..] == path[k + |part|..];
      StarSkips(rest, path[found + |part|..], k - found, anchored);
    }
  }

  /** At the end of an anchored pattern, the part must end the path. */
  lemma LastAnchored(part: string, path: string)
    requires '*' !in part
    ensures From("*" + part, path, true) <==> OccursAt(part, path, |path| - |part|)
  {
    assert "*" + part + "" == "*" + part;
    StarPart(part, "", path, true);
    forall k | OccursAt(part, path, k) ensures From("", path[k + |part|..], true) <==> k == |path| - |part| {
      assert |path[k + |part|..]| == |path| - |part| - k;
    }
  }

  lemma LastOpen(part: string, path: string)
    requires '*' !in part
    ensures From("*" + part, path, false) <==> exists k :: OccursAt(part, path, k)
  {
    assert "*" + part + "" == "*" + part;
    StarPart(part, "", path, false);
  }

  /** Two stars are one. */
  lemma TwoStars(rest: string, path: string, anchored: bool)
    ensures From("*" + "" + ("*" + rest), path, anchored) <==> From("*" + rest, path, anchored)
  {
    assert path[0..] == path && path[0..0] == "";
    FirstIsEnough("", rest, path, anchored, 0);
  }

  // --------------------------------------------------------------------- the matcher

  lemma OccursFrom(part: string, path: string, cursor: nat, k: int)
    requires cursor <= |path| && k >= 0
    ensures OccursAt(part, path[cursor..], k) <==> OccursAt(part, path, cursor + k)
  {
    if cursor + k + |part| <= |path| {
      assert path[cursor..][k..k + |part|] == path[cursor + k..cursor + k + |part|];
    }
  }

  /** What is left to match once the parts before `index` are placed. */
  predicate Remains(parts: seq<string>, index: nat, path: string, cursor: nat, anchored: bool)
    requires 0 < index <= |parts| && cursor <= |path|
  {
    if index == |parts| && index > 1 && parts[index - 1] == "" then true
    else From(Rest(parts, index), path[cursor..], anchored)
  }

  lemma SkipEmptyPart(parts: seq<string>, index: nat, path: string, cursor: nat, anchored: bool)
    requires 0 < index < |parts| && cursor <= |path| && parts[index] == ""
    ensures Remains(parts, index, path, cursor, anchored) <==> Remains(parts, index + 1, path, cursor, anchored)
  {
    var tail := path[cursor..];
    if index == |parts| - 1 {
      assert Rest(parts, index) == "*";
      assert tail[|tail|..] == "" && From("*"[1..], tail[|tail|..], anchored);
    } else {
      var more := parts[index + 1] + Rest(parts, index + 2);
      assert Rest(parts, index + 1) == "*" + more;
      assert Rest(parts, index) == "*" + "" + ("*" + more);
      TwoStars(more, tail, anchored);
    }
  }

  /** The last part of an anchored pattern goes at the end of the path. */
  lemma PlaceLast(parts: seq<string>, path: string, cursor: nat)
    requires |parts| > 1 && cursor <= |path| && parts[|parts| - 1] != "" && '*' !in parts[|parts| - 1]
    ensures Remains(parts, |parts| - 1, path, cursor, true) <==>
      cursor <= |path| - |parts[|parts| - 1]| && OccursAt(parts[|parts| - 1], path, |path| - |parts[|parts| - 1]|)
  {
    var part, tail := parts[|parts| - 1], path[cursor..];
    assert Rest(parts, |parts| - 1) == "*" + part;
    LastAnchored(part, tail);
    if |tail| >= |part| {
      OccursFrom(part, path, cursor, |tail| - |part|);
    }
  }

  lemma FoundInTail(part: string, path: string, cursor: nat, found: int)
    requires cursor <= |path| && FirstFound(part, path, cursor, found)
    ensures FirstFound(part, path[cursor..], 0, if found < 0 then found else found - cursor)
  {
    forall k | 0 <= k ensures OccursAt(part, path[cursor..], k) <==> OccursAt(part, path, cursor + k) {
      OccursFrom(part, path, cursor, k);
    }
  }

  /** Before another star a part goes at its first occurrence; without one there is no match. */
  lemma PlaceMiddle(parts: seq<string>, index: nat, path: string, cursor: nat, anchored: bool, found: int)
    requires 0 < index < |parts| - 1 && cursor <= |path| && parts[index] != "" && '*' !in parts[index]
    requires FirstFound(parts[index], path, cursor, found)
    ensures Remains(parts, index, path, cursor, anchored) <==>
      found >= 0 && Remains(parts, index + 1, path, found + |parts[index]|, anchored)
  {
    var part, tail := parts[index], path[cursor..];
    var more := parts[index + 1] + Rest(parts, index + 2);
    assert Rest(parts, index + 1) == "*" + more;
    assert Rest(parts, index) == "*" + part + ("*" + more);
    FoundInTail(part, path, cursor, found);
    if found >= 0 {
      FirstIsEnough(part, more, tail, anchored, found - cursor);
      assert tail[found - cursor + |part|..] == path[found + |part|..];
    } else {
      StarPart(part, "*" + more, tail, anchored);
    }
  }

  /** The last part of an open pattern only has to occur. */
  lemma PlaceLastOpen(parts: seq<string>, path: string, cursor: nat, found: int)
    requires |parts| > 1 && cursor <= |path| && parts[|parts| - 1] != "" && '*' !in parts[|parts| - 1]
    requires FirstFound(parts[|parts| - 1], path, cursor, found)
    ensures Remains(parts, |parts| - 1, path, cursor, false) <==> found >= 0
    ensures found >= 0 ==> Remains(parts, |parts|, path, found + |parts[|parts| - 1]|, false)
  {
    var part := parts[|parts| - 1];
    assert Rest(parts, |parts| - 1) == "*" + part;
    LastOpen(part, path[cursor..]);
    FoundInTail(part, path, cursor, found);
  }

  /** The part before the first star is a prefix of the path. */
  lemma PlaceFirst(pattern: string, path: string, anchored: bool)
    ensures var parts := Parts(pattern);
      && (Matches(pattern, path, anchored) <==> parts[0] <= path && Remains(parts, 1, path, |parts[0]|, anchored))
      && (pattern != "" && pattern[0] == '*' ==> parts[0] == "")
      && (forall part :: part in parts ==> '*' !in part)
  {
    var parts := Parts(pattern);
    PartsJoin(pattern);
    PartsPlain(pattern);
    PartsEnds(pattern);
    FromIsMatches(pattern, path, anchored);
    PartFirst(parts[0], Rest(parts, 1), path, anchored);
    assert OccursAt(parts[0], path, 0) <==> parts[0] <= path;
  }

  lemma NothingRemains(pattern: string, path: string, cursor: nat, anchored: bool)
    requires cursor <= |path|
    ensures Remains(Parts(pattern), |Parts(pattern)|, path, cursor, anchored)
       <==> !anchored || EndsWithStar(pattern) || cursor == |path|
  {
    PartsEnds(pattern);
    assert path[cursor..] == "" <==> cursor == |path|;
  }

  /** Place one part behind a star, and say where the next one may start. */
  method PlaceNext(parts: seq<string>, index: nat, path: string, cursor: nat, anchored: bool) returns (next: Option<nat>)
    requires 0 < index < |parts| && cursor <= |path| && '*' !in parts[index]
    ensures next.Some? ==> next.value <= |path|
    ensures Remains(parts, index, path, cursor, anchored) <==>
      next.Some? && Remains(parts, index + 1, path, next.value, anchored)
  {
    var part := parts[index];
    if part == "" {
      SkipEmptyPart(parts, index, path, cursor, anchored);
      return Some(cursor);
    }
    if anchored && index == |parts| - 1 {
      PlaceLast(parts, path, cursor);
      if |path| - |part| < cursor || path[|path| - |part|..] != part { return None; }
      assert path[|path|..] == "";
      return Some(|path|);
    }
    var found := IndexOf(path, part, cursor);
    if index == |parts| - 1 {
      PlaceLastOpen(parts, path, cursor, found);
    } else {
      PlaceMiddle(parts, index, path, cursor, anchored, found);
    }
    next := if found < 0 then None else Some(found + |part|);
  }

  method RobotsPathMatches(pattern: string, path: string, anchored: bool) returns (yes: bool)
    ensures yes <==> Matches(pattern, path, anchored)
  {
    var parts := Parts(pattern);
    PlaceFirst(pattern, path, anchored);
    var cursor: nat, index: nat := 0, 0;
    if !(pattern != "" && pattern[0] == '*') {
      if !(parts[0] <= path) { return false; }
      cursor, index := |parts[0]|, 1;
    }
    while index < |parts|
      invariant index <= |parts| && cursor <= |path|
      invariant index == 0 ==> parts[0] == "" && cursor == 0
      invariant Matches(pattern, path, anchored) <==> Remains(parts, if index == 0 then 1 else index, path, cursor, anchored)
    {
      assert parts[index] in parts;
      if index > 0 {
        var next := PlaceNext(parts, index, path, cursor, anchored);
        if next.None? { return false; }
        cursor := next.value;
      }
      index := index + 1;
    }
    NothingRemains(pattern, path, cursor, anchored);
    if !anchored || EndsWithStar(pattern) { return true; }
    yes := cursor == |path|;
  }
}
