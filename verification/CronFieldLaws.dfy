/** What each written form of a cron field stands for. */
module CronFieldLaws {
  import opened Prelude
  import opened Decimals
  import opened CronFields

  /** The forms of a part: `*`, `*` with a step, a number, a range, a range with a step. */
  datatype Form = All | AllBy(step: nat) | One(n: nat) | Span(a: nat, b: nat) | SpanBy(a: nat, b: nat, step: nat)

  /** The part is written in this form; numbers may have zeros in front. */
  ghost predicate Written(part: string, form: Form) {
    match form
    case All => part == "*"
    case AllBy(step) => exists s :: Numeral(s, step) && part == "*/" + s
    case One(n) => Numeral(part, n)
    case Span(a, b) => exists s, t :: Numeral(s, a) && Numeral(t, b) && part == s + "-" + t
    case SpanBy(a, b, step) =>
      exists s, t, u :: Numeral(s, a) && Numeral(t, b) && Numeral(u, step) && part == s + "-" + t + "/" + u
  }

  /** The bounds are in order and within the field, and the step is at least one. */
  predicate Sound(form: Form, field: Field) {
    match form
    case All => true
    case AllBy(step) => step >= 1
    case One(n) => field.min <= n <= field.max
    case Span(a, b) => field.min <= a <= b <= field.max
    case SpanBy(a, b, step) => field.min <= a <= b <= field.max && step >= 1
  }

  /** The values of the form before the two spellings of Sunday are made one. */
  predicate Stands(form: Form, field: Field, x: int) {
    match form
    case All => field.min <= x <= field.max
    case AllBy(step) => step >= 1 && field.min <= x <= field.max && (x - field.min) % step == 0
    case One(n) => x == n
    case Span(a, b) => a <= x <= b
    case SpanBy(a, b, step) => step >= 1 && a <= x <= b && (x - a) % step == 0
  }

  // -------------------------------------------------------------------- reading a form

  lemma FindAt(s: string, c: char, n: nat)
    requires n <= |s| && c !in s[..n] && (n < |s| ==> s[n] == c)
    ensures Find(s, c) == n
  {
    var found := Find(s, c);
    assert forall i :: 0 <= i < n ==> s[..n][i] == s[i];
    assert forall i :: 0 <= i < found ==> s[..found][i] == s[i];
  }

  lemma NoMark(s: string, c: char)
    requires Digits(s) && (c == '/' || c == '-' || c == '*')
    ensures c !in s
  {
  }

  /** Bounds without a slash, with or without a step behind one. */
  lemma Stepped(bounds: string, step: string)
    requires '/' !in bounds
    ensures Find(bounds + "/" + step, '/') == |bounds| && Find(bounds, '/') == |bounds|
    ensures (bounds + "/" + step)[..|bounds|] == bounds && (bounds + "/" + step)[|bounds| + 1..] == step
  {
    FindAt(bounds + "/" + step, '/', |bounds|);
    FindAt(bounds, '/', |bounds|);
  }

  lemma Dashed(a: string, b: string)
    requires Digits(a) && Digits(b)
    ensures var bounds := a + "-" + b;
      Find(bounds, '-') == |a| && bounds[..|a|] == a && bounds[|a| + 1..] == b && '/' !in bounds && !Digits(bounds) && bounds != "*"
  {
    var bounds := a + "-" + b;
    NoMark(a, '-');
    FindAt(bounds, '-', |a|);
    NoMark(a, '/');
    NoMark(b, '/');
    assert bounds[|a|] == '-';
  }

  /** The range of a sound form. */
  function Steps(form: Form, field: Field): Range {
    match form
    case All => Range(field.min, field.max, 1)
    case AllBy(step) => Range(field.min, field.max, step)
    case One(n) => Range(n, n, 1)
    case Span(a, b) => Range(a, b, 1)
    case SpanBy(a, b, step) => Range(a, b, step)
  }

  lemma ReadSpan(part: string, field: Field, s: string, t: string, a: nat, b: nat)
    requires Numeral(s, a) && Numeral(t, b) && part == s + "-" + t
    ensures PartRange(part, field) == if Sound(Span(a, b), field) then Some(Range(a, b, 1)) else None
  {
    NumeralIsRead(s, a);
    NumeralIsRead(t, b);
    Dashed(s, t);
    Stepped(part, "");
    assert part[..|part|] == part;
  }

  lemma ReadSpanBy(part: string, field: Field, s: string, t: string, u: string, a: nat, b: nat, step: nat)
    requires Numeral(s, a) && Numeral(t, b) && Numeral(u, step) && part == s + "-" + t + "/" + u
    ensures PartRange(part, field) == if Sound(SpanBy(a, b, step), field) then Some(Range(a, b, step)) else None
  {
    NumeralIsRead(s, a);
    NumeralIsRead(t, b);
    NumeralIsRead(u, step);
    Dashed(s, t);
    Stepped(s + "-" + t, u);
  }

  /** A part in one of the forms has the range of the form, if that is sound. */
  lemma FormIsRead(part: string, form: Form, field: Field)
    requires Written(part, form)
    ensures PartRange(part, field) == if Sound(form, field) then Some(Steps(form, field)) else None
  {
    match form
    case All =>
      Stepped("*", "");
      assert part[..1] == "*";
    case AllBy(step) =>
      var s :| Numeral(s, step) && part == "*/" + s;
      NumeralIsRead(s, step);
      Stepped("*", s);
      assert part == "*" + "/" + s;
    case One(n) =>
      NumeralIsRead(part, n);
      NoMark(part, '/');
      NoMark(part, '*');
      Stepped(part, "");
      assert part[..|part|] == part;
    case Span(a, b) =>
      var s, t :| Numeral(s, a) && Numeral(t, b) && part == s + "-" + t;
      ReadSpan(part, field, s, t, a, b);
    case SpanBy(a, b, step) =>
      var s, t, u :| Numeral(s, a) && Numeral(t, b) && Numeral(u, step) && part == s + "-" + t + "/" + u;
      ReadSpanBy(part, field, s, t, u, a, b, step);
  }

  /** The form of a part without a step. */
  lemma PlainForm(part: string, field: Field) returns (form: Form)
    requires PartRange(part, field).Some? && Find(part, '/') == |part|
    ensures Written(part, form)
  {
    assert part[..|part|] == part;
    if part == "*" { return All; }
    if Digits(part) {
      DigitsAreNumeral(part);
      return One(Number(part));
    }
    var dash := Find(part, '-');
    DigitsAreNumeral(part[..dash]);
    DigitsAreNumeral(part[dash + 1..]);
    assert part == part[..dash] + "-" + part[dash + 1..];
    form := Span(Number(part[..dash]), Number(part[dash + 1..]));
  }

  lemma SpanByWritten(s: string, t: string, u: string)
    requires Digits(s) && Digits(t) && Digits(u)
    ensures Written(s + "-" + t + "/" + u, SpanBy(Number(s), Number(t), Number(u)))
  {
    DigitsAreNumeral(s);
    DigitsAreNumeral(t);
    DigitsAreNumeral(u);
  }

  /** The form of a part with a step. */
  lemma SteppedForm(part: string, field: Field) returns (form: Form)
    requires PartRange(part, field).Some? && Find(part, '/') < |part|
    ensures Written(part, form)
  {
    var slash := Find(part, '/');
    var bounds, step := part[..slash], part[slash + 1..];
    assert part == bounds + "/" + step;
    if bounds == "*" {
      DigitsAreNumeral(step);
      assert part == "*/" + step;
      return AllBy(Number(step));
    }
    var dash := Find(bounds, '-');
    var s, t := bounds[..dash], bounds[dash + 1..];
    assert bounds == s + "-" + t;
    SpanByWritten(s, t, step);
    form := SpanBy(Number(s), Number(t), Number(step));
  }

  /** A part is accepted exactly when it is written in one of the forms, with sound numbers. */
  lemma AcceptedIffWritten(part: string, field: Field)
    ensures PartRange(part, field).Some? <==> exists form :: Written(part, form) && Sound(form, field)
  {
    if PartRange(part, field).Some? {
      var form;
      if Find(part, '/') == |part| { form := PlainForm(part, field); } else { form := SteppedForm(part, field); }
      FormIsRead(part, form, field);
      assert Written(part, form) && Sound(form, field);
    }
    if form :| Written(part, form) && Sound(form, field) {
      FormIsRead(part, form, field);
    }
  }

  // -------------------------------------------------------------------- its values

  lemma StepsOf(d: nat, step: nat)
    requires step >= 1 && d % step == 0
    ensures d == d / step * step
  {
  }

  lemma Multiple(k: nat, step: nat)
    requires step >= 1
    ensures (k * step) % step == 0
  {
    var quotient, rest := k * step / step, k * step % step;
    assert k * step == quotient * step + rest;
    assert rest == (k - quotient) * step;
    if quotient < k { AtLeastOne(k - quotient, step); }
    if quotient > k { AtLeastOne(quotient - k, step); }
  }

  lemma AtLeastOne(k: nat, step: nat)
    requires k >= 1
    ensures k * step >= step
  {
    assert k * step == (k - 1) * step + step;
  }

  predicate Meets(r: Range, x: nat)
    requires r.step >= 1
  {
    r.lo <= x <= r.hi && (x - r.lo) % r.step == 0
  }

  /** Stepping through a range meets exactly the values at a multiple of the step. */
  lemma Stepping(r: Range, field: Field, v: int)
    requires r.step >= 1
    ensures RangeHas(r, field, v) <==> exists x: nat :: Meets(r, x) && v == Normal(x, field)
  {
    if k: nat :| Nth(r, k) <= r.hi && v == Normal(Nth(r, k), field) {
      Multiple(k, r.step);
      NthGrows(r, 0, k);
      assert Meets(r, Nth(r, k));
    }
    if x: nat :| Meets(r, x) && v == Normal(x, field) {
      StepsOf(x - r.lo, r.step);
      assert Nth(r, (x - r.lo) / r.step) == x;
    }
  }

  /** Day of the week seven is Sunday, which is day zero; every other value is itself. */
  predicate Counts(x: int, field: Field, v: int) {
    v == if field == DAY_OF_WEEK && x == 7 then 0 else x
  }

  lemma StandsInSteps(form: Form, field: Field, x: nat)
    requires Sound(form, field)
    ensures Stands(form, field, x) <==> Meets(Steps(form, field), x)
  {
  }

  predicate CronField(field: Field) {
    field == MINUTE || field == HOUR || field == DAY_OF_MONTH || field == MONTH || field == DAY_OF_WEEK
  }

  lemma OneIsNormal(field: Field, x: nat)
    requires CronField(field)
    ensures Counts(x, field, Normal(x, field))
  {
  }

  /** A part stands for the values of the form in which it is written. */
  lemma FormHas(part: string, form: Form, field: Field, v: int)
    requires CronField(field) && Written(part, form) && Sound(form, field)
    ensures PartHas(part, field, v) <==> exists x: nat :: Stands(form, field, x) && Counts(x, field, v)
  {
    FormIsRead(part, form, field);
    Stepping(Steps(form, field), field, v);
    forall x: nat ensures Counts(x, field, v) <==> v == Normal(x, field) {
      OneIsNormal(field, x);
    }
    forall x: nat ensures Stands(form, field, x) <==> Meets(Steps(form, field), x) {
      StandsInSteps(form, field, x);
    }
  }

  // ----------------------------------------------------------------- form by form

  /** `*` and the step of `*` with one, spelled out. */
  lemma EveryValue(field: Field, v: int)
    requires CronField(field)
    ensures PartHas("*", field, v) <==> exists x: nat :: field.min <= x <= field.max && Counts(x, field, v)
  {
    FormHas("*", All, field, v);
    assert forall x: nat :: Stands(All, field, x) <==> field.min <= x <= field.max;
  }

  lemma EveryNth(n: nat, field: Field, v: int)
    requires CronField(field) && n >= 1
    ensures PartHas("*/" + Decimal(n), field, v)
       <==> exists x: nat :: field.min <= x <= field.max && (x - field.min) % n == 0 && Counts(x, field, v)
  {
    assert Numeral(Decimal(n), n);
    FormHas("*/" + Decimal(n), AllBy(n), field, v);
    assert forall x: nat :: Stands(AllBy(n), field, x) <==> field.min <= x <= field.max && (x - field.min) % n == 0;
  }

  lemma OneNumber(n: nat, field: Field, v: int)
    requires CronField(field)
    ensures PartHas(Decimal(n), field, v) <==> field.min <= n <= field.max && Counts(n, field, v)
  {
    FormIsRead(Decimal(n), One(n), field);
    if Sound(One(n), field) {
      FormHas(Decimal(n), One(n), field, v);
      assert forall x: nat :: Stands(One(n), field, x) <==> x == n;
    }
  }

  lemma FromTo(a: nat, b: nat, field: Field, v: int)
    requires CronField(field)
    ensures PartHas(Decimal(a) + "-" + Decimal(b), field, v)
       <==> field.min <= a && b <= field.max && exists x: nat :: a <= x <= b && Counts(x, field, v)
  {
    var part := Decimal(a) + "-" + Decimal(b);
    assert Numeral(Decimal(a), a) && Numeral(Decimal(b), b);
    FormIsRead(part, Span(a, b), field);
    if Sound(Span(a, b), field) {
      FormHas(part, Span(a, b), field, v);
      assert forall x: nat :: Stands(Span(a, b), field, x) <==> a <= x <= b;
    }
  }

  lemma SpanByStands(a: nat, b: nat, n: nat, field: Field)
    requires n >= 1
    ensures forall x: nat :: Stands(SpanBy(a, b, n), field, x) <==> a <= x <= b && (x - a) % n == 0
  {
  }

  lemma SpanByHas(part: string, a: nat, b: nat, n: nat, field: Field, v: int)
    requires CronField(field) && Written(part, SpanBy(a, b, n)) && n >= 1
    ensures PartHas(part, field, v)
       <==> field.min <= a && b <= field.max && exists x: nat :: a <= x <= b && (x - a) % n == 0 && Counts(x, field, v)
  {
    var form := SpanBy(a, b, n);
    FormIsRead(part, form, field);
    if Sound(form, field) {
      FormHas(part, form, field, v);
      SpanByStands(a, b, n, field);
    } else {
      assert !PartHas(part, field, v);
    }
  }

  lemma FromToBy(a: nat, b: nat, n: nat, field: Field, v: int)
    requires CronField(field) && n >= 1
    ensures PartHas(Decimal(a) + "-" + Decimal(b) + "/" + Decimal(n), field, v)
       <==> field.min <= a && b <= field.max && exists x: nat :: a <= x <= b && (x - a) % n == 0 && Counts(x, field, v)
  {
    assert Numeral(Decimal(a), a) && Numeral(Decimal(b), b) && Numeral(Decimal(n), n);
    SpanByHas(Decimal(a) + "-" + Decimal(b) + "/" + Decimal(n), a, b, n, field, v);
  }

  // ------------------------------------------------------------------------- lists

  lemma SplitOne(part: string, rest: string)
    requires ',' !in part
    ensures Split(part, ',') == [part] && Split(part + "," + rest, ',') == [part] + Split(rest, ',')
  {
    FindAt(part, ',', |part|);
    FindAt(part + "," + rest, ',', |part|);
    assert (part + "," + rest)[..|part|] == part && (part + "," + rest)[|part| + 1..] == rest;
  }

  /** A list stands for what its parts stand for together, and is well formed when each of them is. */
  lemma ListHas(part: string, rest: string, field: Field, v: int)
    requires ',' !in part
    ensures FieldHas(part, field, v) <==> PartHas(part, field, v)
    ensures FieldHas(part + "," + rest, field, v) <==> PartHas(part, field, v) || FieldHas(rest, field, v)
    ensures WellFormed(part, field) <==> PartRange(part, field).Some?
    ensures WellFormed(part + "," + rest, field) <==> PartRange(part, field).Some? && WellFormed(rest, field)
  {
    SplitOne(part, rest);
    assert part in Split(part, ',');
  }

  lemma AllWithin(field: Field, v: int)
    requires CronField(field)
    ensures PartHas("*", field, v) <==> field.min <= v <= if field == DAY_OF_WEEK then 6 else field.max
  {
    EveryValue(field, v);
    if field.min <= v <= field.max && !(field == DAY_OF_WEEK && v == 7) {
      assert Counts(v, field, v);
    }
  }

  /** What the bounds of the fields are. */
  lemma FieldBounds(v: int)
    ensures PartHas("*", MINUTE, v) <==> 0 <= v <= 59
    ensures PartHas("*", HOUR, v) <==> 0 <= v <= 23
    ensures PartHas("*", DAY_OF_MONTH, v) <==> 1 <= v <= 31
    ensures PartHas("*", MONTH, v) <==> 1 <= v <= 12
    ensures PartHas("*", DAY_OF_WEEK, v) <==> 0 <= v <= 6
  {
    AllWithin(MINUTE, v);
    AllWithin(HOUR, v);
    AllWithin(DAY_OF_MONTH, v);
    AllWithin(MONTH, v);
    AllWithin(DAY_OF_WEEK, v);
  }
}
