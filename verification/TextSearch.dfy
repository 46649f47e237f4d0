/** Where one text occurs in another. */
module TextSearch {
  predicate OccursAt(part: string, text: string, k: int) {
    0 <= k <= |text| - |part| && text[k..k + |part|] == part
  }

  /** `found` is the first occurrence at or after `from`, or negative if there is none. */
  ghost predicate FirstFound(part: string, text: string, from: nat, found: int) {
    if found < 0 then forall k :: from <= k ==> !OccursAt(part, text, k)
    else from <= found && OccursAt(part, text, found) && forall k :: from <= k < found ==> !OccursAt(part, text, k)
  }

  /** The first occurrence of a part at or after a position, if there is one. */
  method IndexOf(text: string, part: string, from: nat) returns (found: int)
    requires from <= |text|
    ensures FirstFound(part, text, from, found)
  {
    found := from;
    while found + |part| <= |text|
      invariant from <= found
      invariant forall k :: from <= k < found ==> !OccursAt(part, text, k)
    {
      if text[found..found + |part|] == part { return; }
      found := found + 1;
    }
    found := -1;
  }

  /** Occurrences in a slice are the occurrences in the text that fit into it. */
  lemma InSlice(part: string, text: string, i: nat, j: nat, k: int)
    requires i <= j <= |text|
    ensures OccursAt(part, text[i..j], k) <==> 0 <= k <= j - i - |part| && OccursAt(part, text, i + k)
  {
    if 0 <= k <= j - i - |part| {
      var inner, outer := text[i..j][k..k + |part|], text[i + k..i + k + |part|];
      assert |inner| == |outer| && forall q :: 0 <= q < |inner| ==> inner[q] == text[i + k + q] == outer[q];
      assert inner == outer;
    }
  }

  lemma TailOfTail(text: string, i: nat, k: nat)
    requires i + k <= |text|
    ensures text[i..][..k] == text[i..i + k] && text[i..][k..] == text[i + k..]
  {
  }

  lemma OccursByIndex(part: string, text: string, k: nat)
    requires k <= |text| - |part| && forall i :: 0 <= i < |part| ==> text[k + i] == part[i]
    ensures OccursAt(part, text, k)
  {
    assert text[k..k + |part|] == part;
  }
}
