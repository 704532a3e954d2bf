/** The clock of a run (`app/run_store/models.py`, `app/run_store/service.py`):
    a row holds the instants at which the run started, ended and was last
    paused and the milliseconds credited to past pauses; `elapsed_ms` is
    computed from these.  A meter that adds up what really passed is the
    reference it is compared with. */
module PauseClock {
  import opened Common

  /** Instants are microseconds. */
  datatype Row = Row(started: Option<int>, ended: Option<int>, pauseStarted: Option<int>, pausedTotalMs: int)

  const NewRow := Row(None, None, None, 0)

  datatype Op =
    | Tick(micros: nat)
    | MarkRunning
    | SetHitl(pending: bool)
    | ClearHitl
    | Complete
    | MarkRecoverable

  /** How the program turns microseconds into whole milliseconds.  It goes
      through binary floating point, so an exact number of milliseconds may
      come out one too low. */
  type Conversion = int -> int

  ghost predicate Truncates(ms: Conversion) {
    forall us: int :: (us >= 0 ==> us - 1000 <= 1000 * ms(us) <= us) && (us <= 0 ==> ms(us) <= 0)
  }

  /** A conversion without that flaw. */
  ghost predicate ExactOnWholeMillis(ms: Conversion) {
    forall k: int :: ms(1000 * k) == k
  }

  // -------------------------------------------------------------- the row

  /** `RunRecord.elapsed_ms`. */
  function ElapsedMs(row: Row, now: int, ms: Conversion): int {
    if row.started.None? then 0
    else
      var end := if row.ended.Some? then row.ended.value
                 else if row.pauseStarted.Some? then row.pauseStarted.value
                 else now;
      Max(0, ms(end - row.started.value) - row.pausedTotalMs)
  }

  function Update(row: Row, op: Op, now: int, ms: Conversion): Row {
    match op
    case Tick(_) => row
    case MarkRunning =>
      row.(started := if row.started.Some? then row.started else Some(now), pauseStarted := None)
    case SetHitl(pending) =>
      row.(pauseStarted := if !pending then None else if row.pauseStarted.Some? then row.pauseStarted else Some(now))
    case ClearHitl =>
      var extra := if row.pauseStarted.Some? then Max(0, ms(now - row.pauseStarted.value)) else 0;
      row.(pauseStarted := None, pausedTotalMs := row.pausedTotalMs + extra)
    case Complete => row.(ended := Some(now), pauseStarted := None)
    case MarkRecoverable => row.(ended := if row.ended.Some? then row.ended else Some(now))
  }

  // ------------------------------------------------------------ the meter

  /** What really passed, in microseconds: `active` outside pauses between start
      and end, `pausing` in the pause under way, `credits` the pauses of a
      started, unended run closed by `clear_hitl`, `lost` those closed
      otherwise, `idle` since the run ended, `gap` idle time that a later
      completion moved the end past; `strayMs` what `clear_hitl` credited for
      pauses outside the run. */
  datatype Meter = Meter(
    active: nat, pausing: nat, credits: seq<nat>, lost: nat, idle: nat, gap: nat, strayMs: nat)

  const ZeroMeter := Meter(0, 0, [], 0, 0, 0, 0)

  predicate Live(row: Row) { row.started.Some? && row.ended.None? }

  predicate Paused(row: Row) { row.pauseStarted.Some? }

  function Losing(m: Meter): Meter { m.(lost := m.lost + m.pausing, pausing := 0) }

  function Observe(m: Meter, row: Row, op: Op, now: int, ms: Conversion): Meter {
    match op
    case Tick(us) =>
      if Live(row) then (if Paused(row) then m.(pausing := m.pausing + us) else m.(active := m.active + us))
      else if row.started.Some? then m.(idle := m.idle + us)
      else m
    case MarkRunning => Losing(m)
    case SetHitl(pending) => if pending then m else Losing(m)
    case ClearHitl =>
      if !Paused(row) then m
      else if Live(row) then m.(credits := m.credits + [m.pausing], pausing := 0)
      else m.(strayMs := m.strayMs + Max0(ms(now - row.pauseStarted.value)))
    case Complete => Losing(m).(gap := m.gap + m.idle, idle := 0)
    case MarkRecoverable => Losing(m)
  }

  // ----------------------------------------------------------------- runs

  datatype World = World(now: int, row: Row, meter: Meter)

  function Do(w: World, op: Op, ms: Conversion): World {
    World(
      if op.Tick? then w.now + op.micros else w.now,
      Update(w.row, op, w.now, ms),
      Observe(w.meter, w.row, op, w.now, ms))
  }

  function Run(begin: int, ops: seq<Op>, ms: Conversion): World {
    if |ops| == 0 then World(begin, NewRow, ZeroMeter)
    else Do(Run(begin, ops[..|ops| - 1], ms), ops[|ops| - 1], ms)
  }

  function Total(pauses: seq<nat>): nat {
    if |pauses| == 0 then 0 else Total(pauses[..|pauses| - 1]) + pauses[|pauses| - 1]
  }

  function TotalMs(pauses: seq<nat>, ms: Conversion): nat {
    if |pauses| == 0 then 0 else TotalMs(pauses[..|pauses| - 1], ms) + Max0(ms(pauses[|pauses| - 1]))
  }

  /** What the instants in the row stand for. */
  function Span(m: Meter): nat { m.active + m.lost + m.gap + Total(m.credits) }

  ghost predicate Inv(w: World, ms: Conversion) {
    var row, m := w.row, w.meter;
    && (row.started.None? ==> m == ZeroMeter.(strayMs := m.strayMs))
    && (row.started.Some? && row.ended.None? ==>
          m.idle == 0 && m.gap == 0 && w.now - row.started.value == Span(m) + m.pausing)
    && (row.started.Some? && row.ended.Some? ==>
          && m.pausing == 0
          && (row.ended.value - row.started.value == Span(m) || (row.ended.value < row.started.value && Span(m) == 0))
          && w.now - row.started.value == Span(m) + m.idle)
    && (Live(row) && Paused(row) ==> w.now - row.pauseStarted.value == m.pausing)
    && (Live(row) && !Paused(row) ==> m.pausing == 0)
    && (Paused(row) ==> row.pauseStarted.value <= w.now)
    && (row.ended.Some? ==> row.ended.value <= w.now)
    && row.pausedTotalMs == TotalMs(m.credits, ms) + m.strayMs
  }

  lemma TickKeepsInv(w: World, us: nat, ms: Conversion)
    requires Inv(w, ms)
    ensures Inv(Do(w, Tick(us), ms), ms)
  {
  }

  lemma ClearKeepsInv(w: World, ms: Conversion)
    requires Inv(w, ms)
    ensures Inv(Do(w, ClearHitl, ms), ms)
  {
    if Paused(w.row) && Live(w.row) {
      var c := w.meter.credits;
      assert (c + [w.meter.pausing])[..|c|] == c;
    }
  }

  lemma EndingKeepsInv(w: World, op: Op, ms: Conversion)
    requires Inv(w, ms) && (op.Complete? || op.MarkRecoverable?)
    ensures Inv(Do(w, op, ms), ms)
  {
  }

  lemma MarkingKeepsInv(w: World, op: Op, ms: Conversion)
    requires Inv(w, ms) && (op.MarkRunning? || op.SetHitl?)
    ensures Inv(Do(w, op, ms), ms)
  {
  }

  lemma DoKeepsInv(w: World, op: Op, ms: Conversion)
    requires Inv(w, ms)
    ensures Inv(Do(w, op, ms), ms)
  {
    match op
    case Tick(us) => TickKeepsInv(w, us, ms);
    case ClearHitl => ClearKeepsInv(w, ms);
    case Complete => EndingKeepsInv(w, op, ms);
    case MarkRecoverable => EndingKeepsInv(w, op, ms);
    case _ => MarkingKeepsInv(w, op, ms);
  }

  lemma {:induction false} RunKeepsInv(begin: int, ops: seq<Op>, ms: Conversion)
    ensures Inv(Run(begin, ops, ms), ms)
  {
    if |ops| > 0 {
      RunKeepsInv(begin, ops[..|ops| - 1], ms);
      DoKeepsInv(Run(begin, ops[..|ops| - 1], ms), ops[|ops| - 1], ms);
    }
  }

  // ------------------------------------------------------------- theorems

  lemma {:induction false} CreditsTruncate(pauses: seq<nat>, ms: Conversion)
    requires Truncates(ms)
    ensures Total(pauses) - 1000 * |pauses| <= 1000 * TotalMs(pauses, ms) <= Total(pauses)
  {
    if |pauses| > 0 {
      CreditsTruncate(pauses[..|pauses| - 1], ms);
      var last := pauses[|pauses| - 1];
      assert last - 1000 <= 1000 * ms(last) <= last;
    }
  }

  /** What `elapsed_ms` charges for: time outside pauses, the pauses that were
      never credited and the time between two completions, less the credits for
      pauses outside the run. */
  function Charged(m: Meter): int { m.active + m.lost + m.gap - 1000 * m.strayMs }

  /** After every sequence of operations `elapsed_ms` is the charged time, up to
      one millisecond down and one millisecond up per credited pause. */
  lemma ElapsedIsChargedTime(begin: int, ops: seq<Op>, ms: Conversion)
    requires Truncates(ms)
    ensures var w := Run(begin, ops, ms); WithinTruncation(w, Charged(w.meter), ms)
  {
    RunKeepsInv(begin, ops, ms);
    ChargedAt(Run(begin, ops, ms), ms);
  }

  ghost predicate WithinTruncation(w: World, charged: int, ms: Conversion) {
    charged - 1000 <= 1000 * ElapsedMs(w.row, w.now, ms) <= Max0(charged + 1000 * |w.meter.credits|)
  }

  lemma ChargedAt(w: World, ms: Conversion)
    requires Truncates(ms) && Inv(w, ms)
    ensures WithinTruncation(w, Charged(w.meter), ms)
  {
    CreditsTruncate(w.meter.credits, ms);
    if w.row.started.Some? {
      var length := End(w) - w.row.started.value;
      assert length >= 0 ==> length - 1000 <= 1000 * ms(length) <= length;
      assert length <= 0 ==> ms(length) <= 0;
    }
  }

  /** The instant up to which `elapsed_ms` counts. */
  function End(w: World): int {
    if w.row.ended.Some? then w.row.ended.value
    else if w.row.pauseStarted.Some? then w.row.pauseStarted.value
    else w.now
  }

  // ------------------------------------------- runs that charge what they should

  /** What a caller must see to: no pause is closed but by `clear_hitl`, no
      pause is opened outside the run, and the run ends once. */
  predicate Proper(row: Row, op: Op) {
    match op
    case Tick(_) => true
    case MarkRunning => !Paused(row) && (row.started.Some? || row.ended.None?)
    case SetHitl(pending) => if pending then Live(row) else !Paused(row)
    case ClearHitl => true
    case Complete => !Paused(row) && Live(row)
    case MarkRecoverable => !Paused(row)
  }

  predicate ProperRun(begin: int, ops: seq<Op>, ms: Conversion) {
    |ops| == 0
    || (ProperRun(begin, ops[..|ops| - 1], ms) && Proper(Run(begin, ops[..|ops| - 1], ms).row, ops[|ops| - 1]))
  }

  lemma {:induction false} ProperRunsChargeNothingElse(begin: int, ops: seq<Op>, ms: Conversion)
    requires ProperRun(begin, ops, ms)
    ensures var w := Run(begin, ops, ms);
            && w.meter.lost == 0 && w.meter.gap == 0 && w.meter.strayMs == 0
            && (Paused(w.row) ==> Live(w.row))
  {
    if |ops| > 0 {
      ProperRunsChargeNothingElse(begin, ops[..|ops| - 1], ms);
      RunKeepsInv(begin, ops[..|ops| - 1], ms);
      ProperStep(Run(begin, ops[..|ops| - 1], ms), ops[|ops| - 1], ms);
    }
  }

  lemma ProperStep(w: World, op: Op, ms: Conversion)
    requires Inv(w, ms) && Proper(w.row, op)
    requires w.meter.lost == w.meter.gap == w.meter.strayMs == 0 && (Paused(w.row) ==> Live(w.row))
    ensures var w' := Do(w, op, ms);
            w'.meter.lost == w'.meter.gap == w'.meter.strayMs == 0 && (Paused(w'.row) ==> Live(w'.row))
  {
    MeterNow(w, ms);
  }

  /** In a proper run `elapsed_ms` is the time since the start spent outside
      pauses, up to truncation. */
  lemma ElapsedIsActiveTime(begin: int, ops: seq<Op>, ms: Conversion)
    requires Truncates(ms) && ProperRun(begin, ops, ms)
    ensures var w := Run(begin, ops, ms); WithinTruncation(w, w.meter.active, ms)
  {
    ProperRunsChargeNothingElse(begin, ops, ms);
    RunKeepsInv(begin, ops, ms);
    var w := Run(begin, ops, ms);
    ChargedAt(w, ms);
    assert Charged(w.meter) == w.meter.active;
  }

  // ------------------------------------------------------ whole milliseconds

  predicate WholeMillis(ops: seq<Op>) {
    forall i :: 0 <= i < |ops| && ops[i].Tick? ==> ops[i].micros % 1000 == 0
  }

  predicate WholeMeter(m: Meter) {
    && m.active % 1000 == 0 && m.pausing % 1000 == 0 && m.lost % 1000 == 0 && m.idle % 1000 == 0 && m.gap % 1000 == 0
    && forall i :: 0 <= i < |m.credits| ==> m.credits[i] % 1000 == 0
  }

  lemma DoKeepsWhole(w: World, op: Op, ms: Conversion)
    requires WholeMeter(w.meter) && (op.Tick? ==> op.micros % 1000 == 0)
    ensures WholeMeter(Do(w, op, ms).meter)
  {
    match op
    case Tick(us) => TickKeepsWhole(w, us, ms);
    case ClearHitl =>
    case Complete =>
      LosingKeepsWhole(w.meter);
      WholeSum(w.meter.gap, w.meter.idle);
    case _ => LosingKeepsWhole(w.meter);
  }

  lemma WholeSum(a: int, b: int)
    requires a % 1000 == 0 && b % 1000 == 0
    ensures (a + b) % 1000 == 0
  {
  }

  lemma LosingKeepsWhole(m: Meter)
    requires WholeMeter(m)
    ensures WholeMeter(Losing(m))
  {
    WholeSum(m.lost, m.pausing);
  }

  lemma TickKeepsWhole(w: World, us: nat, ms: Conversion)
    requires WholeMeter(w.meter) && us % 1000 == 0
    ensures WholeMeter(Do(w, Tick(us), ms).meter)
  {
    var m := w.meter;
    WholeSum(m.pausing, us);
    WholeSum(m.active, us);
    WholeSum(m.idle, us);
  }

  lemma {:induction false} RunIsWhole(begin: int, ops: seq<Op>, ms: Conversion)
    requires WholeMillis(ops)
    ensures WholeMeter(Run(begin, ops, ms).meter)
  {
    if |ops| > 0 {
      RunIsWhole(begin, ops[..|ops| - 1], ms);
      DoKeepsWhole(Run(begin, ops[..|ops| - 1], ms), ops[|ops| - 1], ms);
    }
  }

  lemma ExactAt(us: int, ms: Conversion)
    requires ExactOnWholeMillis(ms) && us % 1000 == 0
    ensures 1000 * ms(us) == us
  {
    assert ms(1000 * (us / 1000)) == us / 1000;
    assert 1000 * (us / 1000) == us;
  }

  lemma {:induction false} CreditsExact(pauses: seq<nat>, ms: Conversion)
    requires ExactOnWholeMillis(ms) && forall i :: 0 <= i < |pauses| ==> pauses[i] % 1000 == 0
    ensures 1000 * TotalMs(pauses, ms) == Total(pauses) && Total(pauses) % 1000 == 0
  {
    if |pauses| > 0 {
      CreditsExact(pauses[..|pauses| - 1], ms);
      ExactAt(pauses[|pauses| - 1], ms);
    }
  }

  /** Without rounding, `elapsed_ms` is exactly the charged time ... */
  lemma ElapsedIsExact(begin: int, ops: seq<Op>, ms: Conversion)
    requires Truncates(ms) && ExactOnWholeMillis(ms) && WholeMillis(ops)
    ensures var w := Run(begin, ops, ms);
            1000 * ElapsedMs(w.row, w.now, ms) == Max0(Charged(w.meter))
  {
    RunKeepsInv(begin, ops, ms);
    RunIsWhole(begin, ops, ms);
    ExactlyAt(Run(begin, ops, ms), ms);
  }

  lemma ExactlyAt(w: World, ms: Conversion)
    requires Truncates(ms) && ExactOnWholeMillis(ms) && Inv(w, ms) && WholeMeter(w.meter)
    ensures 1000 * ElapsedMs(w.row, w.now, ms) == Max0(Charged(w.meter))
  {
    CreditsExact(w.meter.credits, ms);
    if w.row.started.Some? {
      LengthIs(w, ms);
      var length := End(w) - w.row.started.value;
      if length < 0 {
        assert ms(length) <= 0;
      } else {
        ExactAt(length, ms);
      }
    }
  }

  lemma LengthIs(w: World, ms: Conversion)
    requires Inv(w, ms) && w.row.started.Some? && WholeMeter(w.meter) && Total(w.meter.credits) % 1000 == 0
    ensures var length := End(w) - w.row.started.value;
            (length == Span(w.meter) && length % 1000 == 0) || (length < 0 && Span(w.meter) == 0)
  {
    SpanIsWhole(w.meter);
    LengthIsSpan(w, ms);
  }

  lemma LengthIsSpan(w: World, ms: Conversion)
    requires Inv(w, ms) && w.row.started.Some?
    ensures var length := End(w) - w.row.started.value;
            length == Span(w.meter) || (length < 0 && Span(w.meter) == 0)
  {
  }

  lemma SpanIsWhole(m: Meter)
    requires WholeMeter(m) && Total(m.credits) % 1000 == 0
    ensures Span(m) % 1000 == 0
  {
    WholeSum(m.active, m.lost);
    WholeSum(m.active + m.lost, m.gap);
    WholeSum(m.active + m.lost + m.gap, Total(m.credits));
  }

  /** ... so it is the active time if and only if what was charged in error is
      what was credited in error (or everything was credited away). */
  lemma ElapsedIsActiveIff(begin: int, ops: seq<Op>, ms: Conversion)
    requires Truncates(ms) && ExactOnWholeMillis(ms) && WholeMillis(ops)
    ensures var w := Run(begin, ops, ms);
            1000 * ElapsedMs(w.row, w.now, ms) == w.meter.active
            <==> (w.meter.lost + w.meter.gap == 1000 * w.meter.strayMs
                  || (w.meter.active == 0 && w.meter.lost + w.meter.gap < 1000 * w.meter.strayMs))
  {
    ElapsedIsExact(begin, ops, ms);
  }

  /** Nothing was charged or credited in error. */
  predicate ChargeFree(m: Meter) { m.lost == 0 && m.gap == 0 && m.strayMs == 0 }

  /** What a caller can check before a call: a pause of the run is closed by
      `clear_hitl` or began just now, a pause outside the run is worth no
      millisecond when it is credited, and the run ends once or at the same
      instant. */
  predicate Harmless(row: Row, now: int, op: Op, ms: Conversion) {
    var begunNow := Paused(row) ==> row.pauseStarted.value == now;
    match op
    case Tick(_) => true
    case MarkRunning => Live(row) ==> begunNow
    case SetHitl(pending) => pending || (Live(row) ==> begunNow)
    case ClearHitl => Live(row) || (Paused(row) ==> ms(now - row.pauseStarted.value) <= 0)
    case Complete =>
      if Live(row) then begunNow
      else row.started.Some? ==> now == Max(row.started.value, row.ended.value)
    case MarkRecoverable => Live(row) ==> begunNow
  }

  /** What the meter says about the pause under way and the time since the end. */
  lemma MeterNow(w: World, ms: Conversion)
    requires Inv(w, ms)
    ensures w.meter.pausing == if Live(w.row) && Paused(w.row) then w.now - w.row.pauseStarted.value else 0
    ensures w.row.started.Some? && w.row.ended.Some? ==>
              w.meter.idle == w.now - Max(w.row.started.value, w.row.ended.value)
    ensures w.row.started.None? || w.row.ended.None? ==> w.meter.idle == 0
  {
  }

  lemma ClosingIsChargeFreeIff(w: World, op: Op, ms: Conversion)
    requires Inv(w, ms) && ChargeFree(w.meter) && !op.ClearHitl?
    ensures ChargeFree(Do(w, op, ms).meter) <==> Harmless(w.row, w.now, op, ms)
  {
    var m := w.meter;
    assert m.pausing == 0 <==> (Live(w.row) && Paused(w.row) ==> w.row.pauseStarted.value == w.now) by {
      MeterNow(w, ms);
    }
    if op.Complete? && w.row.started.Some? && w.row.ended.Some? {
      MeterNow(w, ms);
    } else if op.Complete? {
      assert m.idle == 0 by {
        MeterNow(w, ms);
      }
    }
  }

  lemma ClearIsChargeFreeIff(w: World, ms: Conversion)
    requires ChargeFree(w.meter)
    ensures ChargeFree(Do(w, ClearHitl, ms).meter) <==> Harmless(w.row, w.now, ClearHitl, ms)
  {
  }

  lemma ErrorsStay(w: World, op: Op, ms: Conversion)
    requires ChargeFree(Do(w, op, ms).meter)
    ensures ChargeFree(w.meter)
  {
  }

  /** After a call nothing was charged or credited in error if and only if nothing
      had been before and the call is harmless. */
  lemma StepIsChargeFreeIff(w: World, op: Op, ms: Conversion)
    requires Inv(w, ms)
    ensures ChargeFree(Do(w, op, ms).meter) <==> ChargeFree(w.meter) && Harmless(w.row, w.now, op, ms)
  {
    if ChargeFree(w.meter) {
      if op.ClearHitl? {
        ClearIsChargeFreeIff(w, ms);
      } else {
        ClosingIsChargeFreeIff(w, op, ms);
      }
    } else if ChargeFree(Do(w, op, ms).meter) {
      ErrorsStay(w, op, ms);
    }
  }

  predicate HarmlessRun(begin: int, ops: seq<Op>, ms: Conversion) {
    |ops| == 0
    || (HarmlessRun(begin, ops[..|ops| - 1], ms)
        && var before := Run(begin, ops[..|ops| - 1], ms);
           Harmless(before.row, before.now, ops[|ops| - 1], ms))
  }

  /** Over a whole run nothing is charged or credited in error if and only if
      every call was harmless when it was made. */
  lemma {:induction false} RunIsChargeFreeIff(begin: int, ops: seq<Op>, ms: Conversion)
    ensures ChargeFree(Run(begin, ops, ms).meter) <==> HarmlessRun(begin, ops, ms)
  {
    if |ops| > 0 {
      var rest, op := ops[..|ops| - 1], ops[|ops| - 1];
      RunIsChargeFreeIff(begin, rest, ms);
      RunKeepsInv(begin, rest, ms);
      StepIsChargeFreeIff(Run(begin, rest, ms), op, ms);
    }
  }

  /** So in every harmless run `elapsed_ms` is the time since the start spent
      outside pauses, up to truncation. */
  lemma HarmlessRunIsActiveTime(begin: int, ops: seq<Op>, ms: Conversion)
    requires Truncates(ms) && HarmlessRun(begin, ops, ms)
    ensures var w := Run(begin, ops, ms); WithinTruncation(w, w.meter.active, ms)
  {
    RunIsChargeFreeIff(begin, ops, ms);
    RunKeepsInv(begin, ops, ms);
    ChargeFreeIsActive(Run(begin, ops, ms), ms);
  }

  lemma ChargeFreeIsActive(w: World, ms: Conversion)
    requires Truncates(ms) && Inv(w, ms) && ChargeFree(w.meter)
    ensures WithinTruncation(w, w.meter.active, ms)
  {
    ChargedAt(w, ms);
    assert Charged(w.meter) == w.meter.active;
  }

  ghost predicate IsRight(w: World, ms: Conversion) { 1000 * ElapsedMs(w.row, w.now, ms) == w.meter.active }

  /** A call after a charge-free run leaves `elapsed_ms` right if and only if it is
      harmless, or it credits a pause to a run that has no time to lose. */
  lemma StepIsRightIff(begin: int, ops: seq<Op>, op: Op, ms: Conversion)
    requires Truncates(ms) && ExactOnWholeMillis(ms) && WholeMillis(ops) && WholeMillis([op])
    requires ChargeFree(Run(begin, ops, ms).meter)
    ensures var w := Run(begin, ops, ms);
            IsRight(Do(w, op, ms), ms)
            <==> Harmless(w.row, w.now, op, ms) || (op.ClearHitl? && ElapsedMs(w.row, w.now, ms) == 0)
  {
    RunKeepsInv(begin, ops, ms);
    RunIsWhole(begin, ops, ms);
    assert [op][0] == op;
    StepIsRightAt(Run(begin, ops, ms), op, ms);
  }

  lemma RightIffCharged(w: World, ms: Conversion)
    requires Truncates(ms) && ExactOnWholeMillis(ms) && Inv(w, ms) && WholeMeter(w.meter)
    ensures IsRight(w, ms) <==> Max0(Charged(w.meter)) == w.meter.active
    ensures ChargeFree(w.meter) ==> IsRight(w, ms)
  {
    ExactlyAt(w, ms);
  }

  lemma StepIsRightAt(w: World, op: Op, ms: Conversion)
    requires Truncates(ms) && ExactOnWholeMillis(ms) && Inv(w, ms) && WholeMeter(w.meter) && ChargeFree(w.meter)
    requires op.Tick? ==> op.micros % 1000 == 0
    ensures IsRight(Do(w, op, ms), ms)
       <==> Harmless(w.row, w.now, op, ms) || (op.ClearHitl? && ElapsedMs(w.row, w.now, ms) == 0)
  {
    var after := Do(w, op, ms);
    DoKeepsInv(w, op, ms);
    DoKeepsWhole(w, op, ms);
    RightIffCharged(w, ms);
    RightIffCharged(after, ms);
    StepIsChargeFreeIff(w, op, ms);
    StepErrors(w, op, ms);
  }

  /** Without rounding, every harmless run has its active time exactly right. */
  lemma HarmlessRunIsRight(begin: int, ops: seq<Op>, ms: Conversion)
    requires Truncates(ms) && ExactOnWholeMillis(ms) && WholeMillis(ops) && HarmlessRun(begin, ops, ms)
    ensures IsRight(Run(begin, ops, ms), ms)
  {
    RunKeepsInv(begin, ops, ms);
    RunIsWhole(begin, ops, ms);
    RunIsChargeFreeIff(begin, ops, ms);
    RightIffCharged(Run(begin, ops, ms), ms);
  }

  /** A call errs on one side only. */
  lemma StepErrors(w: World, op: Op, ms: Conversion)
    requires ChargeFree(w.meter)
    ensures var m := Do(w, op, ms).meter;
            && (!op.ClearHitl? ==> m.strayMs == 0)
            && (op.ClearHitl? ==> m.lost == 0 && m.gap == 0 && m.active == w.meter.active)
  {
  }

  // ---------------------------------------------------------- standing still

  /** `elapsed_ms` after some more operations. */
  function After(w: World, ops: seq<Op>, ms: Conversion): World {
    if |ops| == 0 then w else Do(After(w, ops[..|ops| - 1], ms), ops[|ops| - 1], ms)
  }

  predicate OnlyWaits(ops: seq<Op>) {
    forall i :: 0 <= i < |ops| ==> ops[i].Tick? || ops[i] == SetHitl(true)
  }

  /** During a pause time stands still, and asking again does not restart it. */
  lemma {:induction false} FrozenDuringPause(w: World, ops: seq<Op>, ms: Conversion)
    requires Paused(w.row) && OnlyWaits(ops)
    ensures After(w, ops, ms).row == w.row
    ensures ElapsedMs(After(w, ops, ms).row, After(w, ops, ms).now, ms) == ElapsedMs(w.row, w.now, ms)
  {
    if |ops| > 0 {
      FrozenDuringPause(w, ops[..|ops| - 1], ms);
    }
  }

  predicate NoneCompletes(ops: seq<Op>) {
    forall i :: 0 <= i < |ops| ==> !ops[i].Complete? && ops[i] != SetHitl(true)
  }

  /** After the end nothing moves `elapsed_ms`, but for a second completion and
      a pause opened after the end. */
  lemma {:induction false} FrozenAfterEnd(w: World, ops: seq<Op>, ms: Conversion)
    requires w.row.started.Some? && w.row.ended.Some? && !Paused(w.row) && NoneCompletes(ops)
    ensures After(w, ops, ms).row == w.row
    ensures ElapsedMs(After(w, ops, ms).row, After(w, ops, ms).now, ms) == ElapsedMs(w.row, w.now, ms)
  {
    if |ops| > 0 {
      FrozenAfterEnd(w, ops[..|ops| - 1], ms);
    }
  }

  /** Closing a pause moves `elapsed_ms` by truncation only. */
  lemma ResumingDoesNotJump(begin: int, ops: seq<Op>, ms: Conversion)
    requires Truncates(ms)
    ensures var w := Run(begin, ops, ms);
            Live(w.row) && Paused(w.row) ==>
              var before := ElapsedMs(w.row, w.now, ms);
              before - 1 <= ElapsedMs(Do(w, ClearHitl, ms).row, w.now, ms) <= before + 2
  {
    RunKeepsInv(begin, ops, ms);
    var w := Run(begin, ops, ms);
    if Live(w.row) && Paused(w.row) {
      var done, pause := w.row.pauseStarted.value - w.row.started.value, w.now - w.row.pauseStarted.value;
      assert done - 1000 <= 1000 * ms(done) <= done;
      assert pause - 1000 <= 1000 * ms(pause) <= pause;
      assert w.now - w.row.started.value == done + pause;
      assert done + pause - 1000 <= 1000 * ms(done + pause) <= done + pause;
    }
  }

  // --------------------------------------------------- pauses that are lost

  /** A pause ended by `set_hitl(None)`, by `mark_running` or by the end of the run
      is charged as if the run had worked through it ... */
  lemma PauseClosedWithoutClearIsCharged(w: World, us: nat, close: Op, ms: Conversion)
    requires Live(w.row) && !Paused(w.row)
    requires close in {SetHitl(false), MarkRunning, Complete, MarkRecoverable}
    ensures var paused := Do(Do(Do(w, SetHitl(true), ms), Tick(us), ms), close, ms);
            && paused.meter.active == w.meter.active
            && ElapsedMs(paused.row, paused.now, ms) == ElapsedMs(w.row, w.now + us, ms)
  {
    var begun := Do(w, SetHitl(true), ms);
    assert Do(begun, Tick(us), ms).row == begun.row;
  }

  /** ... and a pause before the start takes as much off a run that never paused. */
  lemma PauseBeforeStartIsCredited(us: nat, ms: Conversion)
    requires Truncates(ms) && ExactOnWholeMillis(ms)
    ensures var early := Do(Do(Do(World(0, NewRow, ZeroMeter), SetHitl(true), ms), Tick(1000 * us), ms), ClearHitl, ms);
            var w := Do(Do(early, MarkRunning, ms), Tick(1000 * us), ms);
            w.meter.active == 1000 * us && ElapsedMs(w.row, w.now, ms) == 0
  {
    EarlyPause(us, ms);
    StartedAfterCredit(us, us, ms);
  }

  lemma EarlyPause(us: nat, ms: Conversion)
    requires ExactOnWholeMillis(ms)
    ensures Do(Do(Do(World(0, NewRow, ZeroMeter), SetHitl(true), ms), Tick(1000 * us), ms), ClearHitl, ms)
         == World(1000 * us, NewRow.(pausedTotalMs := us), ZeroMeter.(strayMs := us))
  {
    var paused := World(0, NewRow.(pauseStarted := Some(0)), ZeroMeter);
    assert Do(World(0, NewRow, ZeroMeter), SetHitl(true), ms) == paused;
    var waited := World(1000 * us, NewRow.(pauseStarted := Some(0)), ZeroMeter);
    assert Do(paused, Tick(1000 * us), ms) == waited;
    ExactAt(1000 * us, ms);
  }

  lemma StartedAfterCredit(credit: nat, us: nat, ms: Conversion)
    requires ExactOnWholeMillis(ms) && us <= credit
    ensures var early := World(1000 * credit, NewRow.(pausedTotalMs := credit), ZeroMeter.(strayMs := credit));
            var w := Do(Do(early, MarkRunning, ms), Tick(1000 * us), ms);
            w.meter.active == 1000 * us && ElapsedMs(w.row, w.now, ms) == 0
  {
    ExactAt(1000 * us, ms);
  }
}
