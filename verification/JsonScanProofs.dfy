/** The scan answers for every JSON text, by recursion over its concrete syntax. */
module JsonScanProofs {
  import opened JsonText
  import opened JsonScan

  /** A name that is among `keys` or repeats an earlier one. */
  predicate Repeats(members: seq<Member>, keys: set<seq<Unit>>)
    requires forall m :: m in members ==> WellFormedMember(m)
  {
    members != []
    && (NameOf(members[0]) in keys || Repeats(members[1..], keys + {NameOf(members[0])}))
  }

  function AllNames(members: seq<Member>): set<seq<Unit>>
    requires forall m :: m in members ==> WellFormedMember(m)
  {
    if members == [] then {} else {NameOf(members[0])} + AllNames(members[1..])
  }

  lemma {:induction false} RepeatsMeans(members: seq<Member>, keys: set<seq<Unit>>)
    requires forall m :: m in members ==> WellFormedMember(m)
    ensures Repeats(members, keys) <==>
      || (exists i :: 0 <= i < |members| && NameOf(members[i]) in keys)
      || (exists i, j :: 0 <= i < j < |members| && NameOf(members[i]) == NameOf(members[j]))
  {
    if members != [] {
      var first, rest := NameOf(members[0]), members[1..];
      assert forall i :: 0 <= i < |rest| ==> rest[i] == members[i + 1];
      RepeatsMeans(rest, keys + {first});
      if i, j :| 0 <= i < j < |members| && NameOf(members[i]) == NameOf(members[j]) {
        assert rest[j - 1] == members[j];
        assert i > 0 ==> rest[i - 1] == members[i];
      }
      if i :| 0 <= i < |members| && NameOf(members[i]) in keys {
        assert i > 0 ==> rest[i - 1] == members[i];
      }
    }
  }

  predicate SomeItemRepeats(items: seq<Item>) {
    exists i :: 0 <= i < |items| && WellFormedItem(items[i]) && HasDuplicate(items[i].value)
  }

  predicate SomeMemberRepeats(members: seq<Member>) {
    exists i :: 0 <= i < |members| && WellFormedMember(members[i]) && HasDuplicate(members[i].value)
  }

  /** What follows a value: nothing that would turn a string into a name. */
  predicate NoColon(tail: seq<Unit>, stack: seq<Frame>) {
    InObject(stack) ==> !ColonAfter(tail, 0)
  }

  lemma ScanItem(item: Item, tail: seq<Unit>, stack: seq<Frame>)
    requires WellFormedItem(item) && !InObject(stack)
    ensures Scan(RenderItem(item) + tail, stack) == (HasDuplicate(item.value) || Scan(tail, stack))
    decreases item.value, 3
  {
    assert RenderItem(item) + tail == item.before + (Render(item.value) + (item.after + tail));
    ScanSpace(item.before, Render(item.value) + (item.after + tail), stack);
    ScanValue(item.value, item.after + tail, stack);
    ScanSpace(item.after, tail, stack);
  }

  lemma ScanItems(v: Value, k: nat, tail: seq<Unit>, stack: seq<Frame>)
    requires v.Arr? && WellFormed(v) && k < |v.items| && !InObject(stack)
    ensures Scan(RenderItems(v.items[k..]) + tail, stack) == (SomeItemRepeats(v.items[k..]) || Scan(tail, stack))
    decreases v, 0, |v.items| - k
  {
    var items := v.items[k..];
    assert WellFormedItem(v.items[k]);
    if |items| == 1 {
      ScanItem(items[0], tail, stack);
    } else {
      var rest := RenderItems(v.items[k + 1..]);
      assert items[1..] == v.items[k + 1..];
      assert RenderItems(items) + tail == RenderItem(items[0]) + ([COMMA] + (rest + tail));
      ScanItem(items[0], [COMMA] + (rest + tail), stack);
      ScanNeutral([COMMA], rest + tail, stack);
      ScanItems(v, k + 1, tail, stack);
      assert forall i :: 0 < i < |items| ==> items[i] == v.items[k + 1..][i - 1];
    }
  }

  /** From the opening of a member to just before its value: the name is looked up and joins the names. */
  lemma ScanMemberName(m: Member, value: seq<Unit>, base: seq<Frame>, keys: set<seq<Unit>>)
    requires WellFormedMember(m)
    ensures Scan(m.before + StringText(m.name) + m.beforeColon + [COLON] + m.afterColon + value, base + [ObjectFrame(keys)])
         == (NameOf(m) in keys || Scan(value, base + [ObjectFrame(keys + {NameOf(m)})]))
  {
    var before, now := base + [ObjectFrame(keys)], base + [ObjectFrame(keys + {NameOf(m)})];
    var colon := m.beforeColon + ([COLON] + (m.afterColon + value));
    assert m.before + StringText(m.name) + m.beforeColon + [COLON] + m.afterColon + value
        == m.before + (StringText(m.name) + colon);
    ScanSpace(m.before, StringText(m.name) + colon, before);
    ColonBehind(m.beforeColon, [COLON] + (m.afterColon + value));
    ScanName(m.name, colon, before);
    assert WithKey(before, NameOf(m)) == now;
    ScanSpace(m.beforeColon, [COLON] + (m.afterColon + value), now);
    ScanNeutral([COLON], m.afterColon + value, now);
    ScanSpace(m.afterColon, value, now);
  }

  lemma ScanMember(m: Member, tail: seq<Unit>, base: seq<Frame>, keys: set<seq<Unit>>)
    requires WellFormedMember(m) && tail != [] && !ScriptSpace(tail[0]) && tail[0] != COLON
    ensures Scan(RenderMember(m) + tail, base + [ObjectFrame(keys)])
         == (NameOf(m) in keys || HasDuplicate(m.value) || Scan(tail, base + [ObjectFrame(keys + {NameOf(m)})]))
    decreases m.value, 3
  {
    var now := base + [ObjectFrame(keys + {NameOf(m)})];
    var value := Render(m.value) + (m.after + tail);
    assert RenderMember(m) + tail == m.before + StringText(m.name) + m.beforeColon + [COLON] + m.afterColon + value;
    ScanMemberName(m, value, base, keys);
    ColonBehind(m.after, tail);
    ScanValue(m.value, m.after + tail, now);
    ScanSpace(m.after, tail, now);
  }

  lemma ScanMembers(v: Value, k: nat, tail: seq<Unit>, base: seq<Frame>, keys: set<seq<Unit>>)
    requires v.Obj? && WellFormed(v) && k < |v.members|
    requires tail != [] && !ScriptSpace(tail[0]) && tail[0] != COLON
    ensures var members := v.members[k..];
      Scan(RenderMembers(members) + tail, base + [ObjectFrame(keys)])
      == (Repeats(members, keys) || SomeMemberRepeats(members) || Scan(tail, base + [ObjectFrame(keys + AllNames(members))]))
    decreases v, 0, |v.members| - k
  {
    var members := v.members[k..];
    assert WellFormedMember(v.members[k]);
    var m, now := members[0], keys + {NameOf(members[0])};
    assert members[1..] == v.members[k + 1..];
    if |members| == 1 {
      ScanMember(m, tail, base, keys);
      assert keys + AllNames(members) == now;
    } else {
      var rest := RenderMembers(v.members[k + 1..]);
      assert RenderMembers(members) + tail == RenderMember(m) + ([COMMA] + (rest + tail));
      ScanMember(m, [COMMA] + (rest + tail), base, keys);
      ScanNeutral([COMMA], rest + tail, base + [ObjectFrame(now)]);
      ScanMembers(v, k + 1, tail, base, now);
      assert keys + AllNames(members) == now + AllNames(members[1..]);
      assert forall i :: 0 < i < |members| ==> members[i] == v.members[k + 1..][i - 1];
    }
  }

  lemma ScanArray(v: Value, tail: seq<Unit>, stack: seq<Frame>)
    requires v.Arr? && WellFormed(v)
    ensures Scan(Render(v) + tail, stack) == (HasDuplicate(v) || Scan(tail, stack))
    decreases v, 1
  {
    var inside, close := stack + [ArrayFrame], [CLOSE_BRACKET] + tail;
    var body := if v.items == [] then v.inner else RenderItems(v.items);
    assert Render(v) + tail == [OPEN_BRACKET] + (body + close);
    assert (Render(v) + tail)[1..] == body + close;
    assert close[1..] == tail && CloseScope(inside, false) == stack;
    if v.items == [] {
      ScanSpace(v.inner, close, inside);
    } else {
      assert v.items[0..] == v.items;
      ScanItems(v, 0, close, inside);
    }
  }

  lemma ScanObject(v: Value, tail: seq<Unit>, stack: seq<Frame>)
    requires v.Obj? && WellFormed(v)
    ensures Scan(Render(v) + tail, stack) == (HasDuplicate(v) || Scan(tail, stack))
    decreases v, 1
  {
    var inside, close := stack + [ObjectFrame({})], [CLOSE_BRACE] + tail;
    var body := if v.members == [] then v.inner else RenderMembers(v.members);
    assert Render(v) + tail == [OPEN_BRACE] + (body + close);
    assert (Render(v) + tail)[1..] == body + close;
    assert close[1..] == tail;
    if v.members == [] {
      assert CloseScope(inside, true) == stack;
      ScanSpace(v.inner, close, inside);
    } else {
      var names := {} + AllNames(v.members);
      assert CloseScope(stack + [ObjectFrame(names)], true) == stack;
      assert v.members[0..] == v.members;
      ScanMembers(v, 0, close, stack, {});
      RepeatsMeans(v.members, {});
    }
  }

  /** Scanning over a value finds what is repeated in it, and otherwise leaves the scopes as they were. */
  lemma ScanValue(v: Value, tail: seq<Unit>, stack: seq<Frame>)
    requires WellFormed(v) && NoColon(tail, stack)
    ensures Scan(Render(v) + tail, stack) == (HasDuplicate(v) || Scan(tail, stack))
    decreases v, 2
  {
    match v
    case Token(text) =>
      ScanNeutral(text, tail, stack);
    case Str(pieces) =>
      ScanString(pieces, tail, stack);
    case Arr(_, _) =>
      ScanArray(v, tail, stack);
    case Obj(_, _) =>
      ScanObject(v, tail, stack);
  }

  /**
   For every JSON text, with any white space and any escapes, the scan reports a
   duplicate exactly when some object has two members whose decoded names are equal.
   */
  lemma ScanFindsDuplicates(d: Document)
    requires WellFormedDocument(d)
    ensures Scan(RenderDocument(d), []) <==> HasDuplicate(d.value)
  {
    assert RenderDocument(d) == d.before + (Render(d.value) + (d.after + []));
    ScanSpace(d.before, Render(d.value) + (d.after + []), []);
    ScanValue(d.value, d.after + [], []);
    ScanSpace(d.after, [], []);
  }
}
