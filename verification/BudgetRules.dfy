/**
 The spending ledger as values. Money is counted in units of 1e-8 USD, in which
 the provider's peak prices are 44 per input token and 132 per output token, so
 every cost, ceiling and quotient of the ledger is an exact integer.
 */
module BudgetRules {
  import opened Prelude
  import opened Sums
  import opened BudgetDays

  const INPUT_RATE: nat := 44
  const OUTPUT_RATE: nat := 132
  const MAX_PROVIDER_OUTPUT_TOKENS: nat := 4096
  const MAX_SAFE_INTEGER: int := 0x1F_FFFF_FFFF_FFFF

  datatype Usage = Usage(prompt: nat, completion: nat)

  function CostOf(usage: Usage): nat {
    usage.prompt * INPUT_RATE + usage.completion * OUTPUT_RATE
  }

  function WorstCase(input: nat, output: nat): nat {
    CostOf(Usage(input, output))
  }

  // ------------------------------------------------------------- provider usage

  /** What the provider's response says about usage; Missing covers absent and malformed objects. */
  datatype RawUsage = Missing | Reported(prompt: int, completion: int, total: int)

  predicate SafeCount(n: int) { 0 <= n <= MAX_SAFE_INTEGER }

  function NormalizeUsage(raw: RawUsage): Option<Usage> {
    match raw
    case Missing => None
    case Reported(p, c, t) =>
      if SafeCount(p) && SafeCount(c) && SafeCount(t) && t == p + c then Some(Usage(p, c)) else None
  }

  /** A reservation id is the run id and a ledger-wide serial number. */
  datatype ReservationId = ReservationId(runId: string, serial: nat)

  datatype Reservation = Reservation(
    id: ReservationId, day: Day, maxOutput: nat, inputBound: nat, reserved: nat)

  datatype Settlement = Settlement(usage: Usage, trusted: bool, exceededBounds: bool)

  function UsageForReservation(raw: RawUsage, r: Reservation): Settlement {
    match NormalizeUsage(raw)
    case None => Settlement(Usage(r.inputBound, r.maxOutput), false, false)
    case Some(u) => Settlement(u, true, u.prompt > r.inputBound || u.completion > r.maxOutput)
  }

  predicate WithinBounds(u: Usage, r: Reservation) {
    u.prompt <= r.inputBound && u.completion <= r.maxOutput
  }

  // --------------------------------------------------------------------- ledger

  datatype Message = Message(roleBytes: nat, contentBytes: nat)

  function PromptBound(messages: seq<Message>): nat {
    if messages == [] then 0
    else PromptBound(messages[..|messages| - 1])
         + messages[|messages| - 1].roleBytes + messages[|messages| - 1].contentBytes + 16
  }

  datatype Ledger = Ledger(
    base: map<Day, nat>,
    settled: map<Day, nat>,
    held: map<Day, nat>,
    activeRunIds: set<string>,
    nextSerial: nat)

  datatype Run = Run(
    id: string, runLimit: nat, dayLimit: nat, day: Day,
    live: map<ReservationId, Reservation>, settled: nat, closed: bool)

  function At(m: map<Day, nat>, d: Day): nat {
    if d in m then m[d] else 0
  }

  function Held(live: map<ReservationId, Reservation>, id: ReservationId): int {
    if id in live then live[id].reserved else 0
  }

  /** What one run has reserved and not yet settled or cancelled. */
  ghost function RunHeld(run: Run): int {
    Sum(run.live.Keys, id => Held(run.live, id))
  }

  ghost function DayTotal(l: Ledger, d: Day): nat {
    At(l.base, d) + At(l.settled, d) + At(l.held, d)
  }

  /** The requested output, defaulted and clamped as the ledger does it: zero means unspecified. */
  function Requested(request: real): (n: nat)
    ensures 1 <= n <= MAX_PROVIDER_OUTPUT_TOKENS
  {
    if request == 0.0 then MAX_PROVIDER_OUTPUT_TOKENS
    else if request < 1.0 then 1
    else if request >= MAX_PROVIDER_OUTPUT_TOKENS as real then MAX_PROVIDER_OUTPUT_TOKENS
    else request.Floor
  }

  function Shift(m: map<Day, nat>, d: Day, delta: int): map<Day, nat> {
    var next := At(m, d) + delta;
    if next <= 0 then m - {d} else m[d := next]
  }

  datatype Scope = PerRun | Daily

  datatype ReserveResult =
    | Reserved(reservation: Reservation)
    | RunClosed
    | DayRollover
    | BaseUnavailable
    | NoBudget(scope: Scope)
    | HookFailed

  datatype ReserveOutcome = ReserveOutcome(ledger: Ledger, run: Run, result: ReserveResult)

  function Max0(n: int): nat { if n < 0 then 0 else n }
  function Min(a: int, b: int): int { if a <= b then a else b }

  /** What is left for one more request: the smaller of the run's and the day's remainder. */
  ghost function Available(l: Ledger, run: Run): nat {
    Min(Max0(run.runLimit - run.settled - RunHeld(run)), Max0(run.dayLimit - DayTotal(l, run.day)))
  }

  ghost function LimitingScope(l: Ledger, run: Run): Scope {
    if Max0(run.runLimit - run.settled - RunHeld(run)) <= Max0(run.dayLimit - DayTotal(l, run.day)) then PerRun else Daily
  }

  /** The durable daily spend is read once per day and cached. */
  function WithBase(l: Ledger, d: Day, durable: Option<nat>): Option<Ledger> {
    if d in l.base then Some(l)
    else if durable.None? then None
    else Some(l.(base := l.base[d := durable.value]))
  }

  /**
   Admit one request. `today` is the run's local day now, `durable` what the durable
   state answers for the run's day (None when it throws), and `hookOk` whether the
   write-ahead hook succeeds.
   */
  ghost function Reserve(l: Ledger, run: Run, today: Day, durable: Option<nat>,
                         input: nat, request: real, hookOk: bool): ReserveOutcome
  {
    if run.closed then ReserveOutcome(l, run, RunClosed)
    else if today != run.day then ReserveOutcome(l, run, DayRollover)
    else if WithBase(l, run.day, durable).None? then ReserveOutcome(l, run, BaseUnavailable)
    else ReserveFrom(WithBase(l, run.day, durable).value, run, input, request, hookOk)
  }

  /** Admission once the day's durable spend is known. */
  ghost function ReserveFrom(l: Ledger, run: Run, input: nat, request: real, hookOk: bool): ReserveOutcome {
    var available := Available(l, run);
    if available < WorstCase(input, 1) then ReserveOutcome(l, run, NoBudget(LimitingScope(l, run)))
    else
      var output := Min(Requested(request), (available - WorstCase(input, 0)) / OUTPUT_RATE);
      if output < 1 then ReserveOutcome(l, run, NoBudget(LimitingScope(l, run)))
      else
        var r := Reservation(ReservationId(run.id, l.nextSerial), run.day, output, input, WorstCase(input, output));
        var l2 := l.(nextSerial := l.nextSerial + 1);
        if !hookOk then ReserveOutcome(l2, run, HookFailed)
        else ReserveOutcome(l2.(held := Shift(l2.held, run.day, r.reserved)), run.(live := run.live[r.id := r]), Reserved(r))
  }

  datatype SettleResult =
    | Settled(cost: nat, exceededReservation: bool, exceededRunLimit: bool, exceededDayLimit: bool)
    | Cancelled
    | NotOpen
    | NotActive
    | HookRefused

  datatype SettleOutcome = SettleOutcome(ledger: Ledger, run: Run, result: SettleResult)

  predicate IsLive(run: Run, r: Reservation) {
    r.id in run.live && run.live[r.id] == r
  }

  function Settle(l: Ledger, run: Run, r: Reservation, usage: Usage, hookOk: bool): SettleOutcome {
    if run.closed then SettleOutcome(l, run, NotOpen)
    else if !IsLive(run, r) then SettleOutcome(l, run, NotActive)
    else if !hookOk then SettleOutcome(l, run, HookRefused)
    else
      var cost := CostOf(usage);
      var l1 := l.(held := Shift(l.held, run.day, -(r.reserved as int)), settled := l.settled[run.day := At(l.settled, run.day) + cost]);
      var run1 := run.(live := run.live - {r.id}, settled := run.settled + cost);
      SettleOutcome(l1, run1,
        Settled(cost, cost > r.reserved, run1.settled > run.runLimit,
                At(l.base, run.day) + At(l1.settled, run.day) > run.dayLimit))
  }

  function Cancel(l: Ledger, run: Run, r: Reservation, hookOk: bool): SettleOutcome {
    if run.closed then SettleOutcome(l, run, NotOpen)
    else if !IsLive(run, r) then SettleOutcome(l, run, NotActive)
    else if !hookOk then SettleOutcome(l, run, HookRefused)
    else SettleOutcome(l.(held := Shift(l.held, run.day, -(r.reserved as int))), run.(live := run.live - {r.id}), Cancelled)
  }

  // --------------------------------------------------------- admission theorems

  /** The grant costs no more than what is left of both ceilings. */
  lemma GrantFitsBothCeilings(l: Ledger, run: Run, today: Day, durable: Option<nat>, input: nat, request: real, hookOk: bool)
    requires Reserve(l, run, today, durable, input, request, hookOk).result.Reserved?
    ensures var o := Reserve(l, run, today, durable, input, request, hookOk);
      var l1 := WithBase(l, run.day, durable).value;
      var r := o.result.reservation;
      && 1 <= r.maxOutput <= Requested(request)
      && r.reserved == WorstCase(input, r.maxOutput) == WorstCase(r.inputBound, r.maxOutput)
      && run.settled + RunHeld(run) + r.reserved <= run.runLimit
      && DayTotal(l1, run.day) + r.reserved <= run.dayLimit
  {
    var l1 := WithBase(l, run.day, durable).value;
    var spare := Available(l1, run) - WorstCase(input, 0);
    assert spare / OUTPUT_RATE * OUTPUT_RATE <= spare;
  }

  /** An output size is affordable when its worst case fits both ceilings. */
  ghost predicate Affordable(l: Ledger, run: Run, input: nat, output: nat) {
    && run.settled + RunHeld(run) + WorstCase(input, output) <= run.runLimit
    && DayTotal(l, run.day) + WorstCase(input, output) <= run.dayLimit
  }

  lemma AffordableIffAvailable(l: Ledger, run: Run, input: nat, output: nat)
    requires 1 <= output
    ensures Affordable(l, run, input, output) <==> WorstCase(input, output) <= Available(l, run)
    ensures Affordable(l, run, input, output) <==>
      WorstCase(input, 0) <= Available(l, run) && output <= (Available(l, run) - WorstCase(input, 0)) / OUTPUT_RATE
  {
    var spare := Available(l, run) - WorstCase(input, 0);
    if spare >= 0 {
      var q := spare / OUTPUT_RATE;
      assert OUTPUT_RATE * q <= spare < OUTPUT_RATE * (q + 1);
      if output <= q {
        assert OUTPUT_RATE * output <= OUTPUT_RATE * q;
      } else {
        assert OUTPUT_RATE * output >= OUTPUT_RATE * (q + 1);
      }
    }
  }

  /**
   The granted output is the largest affordable size up to the request, and the
   request is refused for budget exactly when not even one output token is affordable.
   */
  lemma GrantIsLargestAffordable(l: Ledger, run: Run, today: Day, durable: Option<nat>, input: nat, request: real, hookOk: bool)
    requires !run.closed && today == run.day && WithBase(l, run.day, durable).Some?
    ensures var o := Reserve(l, run, today, durable, input, request, hookOk);
      var l1 := WithBase(l, run.day, durable).value;
      && (o.result.NoBudget? <==> !Affordable(l1, run, input, 1))
      && (o.result.Reserved? ==>
            var n := o.result.reservation.maxOutput;
            && Affordable(l1, run, input, n)
            && forall m: nat :: Affordable(l1, run, input, m) && m <= Requested(request) ==> m <= n)
  {
    var l1 := WithBase(l, run.day, durable).value;
    AffordableIffAvailable(l1, run, input, 1);
    var o := Reserve(l, run, today, durable, input, request, hookOk);
    if o.result.Reserved? {
      var n := o.result.reservation.maxOutput;
      AffordableIffAvailable(l1, run, input, n);
      forall m: nat | Affordable(l1, run, input, m) && m <= Requested(request) ensures m <= n {
        if m >= 1 {
          AffordableIffAvailable(l1, run, input, m);
        }
      }
    }
  }
}
