/**
 Cron fields: numbers, `*`, ranges and steps, in comma lists. A field stands for the
 union of its parts, with both spellings of Sunday made one.
 */
module CronFields {
  import opened Prelude
  import opened Decimals

  datatype Field = Field(min: nat, max: nat)

  const MINUTE := Field(0, 59)
  const HOUR := Field(0, 23)
  const DAY_OF_MONTH := Field(1, 31)
  const MONTH := Field(1, 12)
  const DAY_OF_WEEK := Field(0, 7)

  function Find(s: string, c: char): (n: nat)
    ensures n <= |s| && (n < |s| ==> s[n] == c) && c !in s[..n]
  {
    if s == "" || s[0] == c then 0 else Find(s[1..], c) + 1
  }

  function Split(s: string, c: char): (parts: seq<string>)
    ensures parts != []
  {
    var n := Find(s, c);
    if n == |s| then [s] else [s[..n]] + Split(s[n + 1..], c)
  }

  // ----------------------------------------------------------------------- one part

  /** From `lo` to `hi` in steps. */
  datatype Range = Range(lo: nat, hi: nat, step: nat)

  /** What a part means, or None when it is malformed or out of range. */
  function PartRange(part: string, field: Field): Option<Range> {
    var slash := Find(part, '/');
    var bounds := part[..slash];
    if slash < |part| && (!Digits(part[slash + 1..]) || Number(part[slash + 1..]) < 1) then None
    else
      var step := if slash < |part| then Number(part[slash + 1..]) else 1;
      if bounds == "*" then Some(Range(field.min, field.max, step))
      else if Digits(bounds) then
        if slash < |part| || !(field.min <= Number(bounds) <= field.max) then None
        else Some(Range(Number(bounds), Number(bounds), 1))
      else
        var dash := Find(bounds, '-');
        if dash == |bounds| || !Digits(bounds[..dash]) || !Digits(bounds[dash + 1..]) then None
        else
          var lo, hi := Number(bounds[..dash]), Number(bounds[dash + 1..]);
          if lo > hi || lo < field.min || hi > field.max then None else Some(Range(lo, hi, step))
  }

  /** The values a range steps through. */
  function Nth(r: Range, k: nat): nat {
    r.lo + k * r.step
  }

  lemma NthGrows(r: Range, j: nat, k: nat)
    requires j <= k
    ensures Nth(r, j) <= Nth(r, k)
  {
    assert k * r.step == j * r.step + (k - j) * r.step;
  }

  /** `v` is one of the values up to the upper bound. */
  ghost predicate RangeHas(r: Range, field: Field, v: int) {
    exists k: nat :: Nth(r, k) <= r.hi && v == Normal(Nth(r, k), field)
  }

  /** Seven is the other spelling of Sunday. */
  function Normal(v: nat, field: Field): nat {
    if field.max == 7 && v == 7 then 0 else v
  }

  lemma StepIsPositive(part: string, field: Field)
    ensures PartRange(part, field).Some? ==> PartRange(part, field).value.step > 0
    ensures PartRange(part, field).Some? && field.min <= field.max ==>
      field.min <= PartRange(part, field).value.lo <= PartRange(part, field).value.hi <= field.max
  {
  }

  /** A value that one of the parts stands for. */
  ghost predicate PartHas(part: string, field: Field, v: int) {
    PartRange(part, field).Some? && RangeHas(PartRange(part, field).value, field, v)
  }

  ghost predicate FieldHas(text: string, field: Field, v: int) {
    exists part :: part in Split(text, ',') && PartHas(part, field, v)
  }

  predicate WellFormed(text: string, field: Field) {
    forall part :: part in Split(text, ',') ==> PartRange(part, field).Some?
  }

  // --------------------------------------------------------------------- the parser

  /** Add the values of one range, stepping through it. */
  method AddRange(values: set<nat>, r: Range, field: Field) returns (more: set<nat>)
    requires r.step > 0
    ensures forall v :: v in more <==> v in values || RangeHas(r, field, v)
  {
    more := values;
    var v := r.lo;
    ghost var k: nat := 0;
    while v <= r.hi
      invariant v == Nth(r, k)
      invariant forall j: nat :: j < k ==> Nth(r, j) <= r.hi
      invariant forall x :: x in more <==> x in values || exists j: nat :: j < k && x == Normal(Nth(r, j), field)
      decreases r.hi - v
    {
      more := more + {Normal(v, field)};
      assert Nth(r, k + 1) == v + r.step by { assert (k + 1) * r.step == k * r.step + r.step; }
      v := v + r.step;
      k := k + 1;
    }
    forall j: nat | Nth(r, j) <= r.hi ensures j < k {
      if j >= k { NthGrows(r, k, j); }
    }
  }

  method ParseField(text: string, field: Field) returns (values: Option<set<nat>>)
    ensures values.Some? <==> WellFormed(text, field)
    ensures values.Some? ==> forall v :: v in values.value <==> FieldHas(text, field, v)
  {
    var parts := Split(text, ',');
    var found: set<nat> := {};
    for i := 0 to |parts|
      invariant forall j :: 0 <= j < i ==> PartRange(parts[j], field).Some?
      invariant forall v :: v in found <==> exists j :: 0 <= j < i && PartHas(parts[j], field, v)
    {
      var r := PartRange(parts[i], field);
      if r.None? {
        assert parts[i] in parts;
        return None;
      }
      StepIsPositive(parts[i], field);
      ghost var before := found;
      found := AddRange(found, r.value, field);
      forall v ensures v in found <==> exists j :: 0 <= j < i + 1 && PartHas(parts[j], field, v) {
        assert v in found <==> v in before || PartHas(parts[i], field, v);
      }
    }
    values := Some(found);
  }
}
