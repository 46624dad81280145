/** Linear stream entitlement: floor arithmetic with exact error bounds, and stream drafts. */
module LinearEntitlement {
  import opened Text
  import opened Wrappers

  /** BigInt division, which truncates towards zero (section 6.1.6.2 of ECMA-262). */
  function BigIntDivide(x: int, y: int): int
    requires y != 0
  {
    var quotient := (if x < 0 then -x else x) / (if y < 0 then -y else y);
    if (x < 0) != (y < 0) then -quotient else quotient
  }

  datatype Refusal =
    | NonPositiveTotal | BadInterval | BadDate | EndBeforeStart | OutsideWindow | NothingAccrued
    | BadCommitment | AboveU128 | IntervalTooLong | EntitlementAboveTotal

  function Entitlement(total: int, start: int, end: int, checkpoint: int): Result<int, Refusal> {
    if end <= start then Err(EndBeforeStart)
    else if checkpoint < start || checkpoint > end then Err(OutsideWindow)
    else if checkpoint == start then Ok(0)
    else if checkpoint == end then Ok(total)
    else Ok(BigIntDivide(total * (checkpoint - start), end - start))
  }

  predicate InWindow(start: int, end: int, checkpoint: int) {
    start < end && start <= checkpoint <= end
  }

  /** The general formula, without the shortcut branches. */
  function Share(total: nat, start: int, end: int, checkpoint: int): int
    requires start < end
  {
    BigIntDivide(total * (checkpoint - start), end - start)
  }

  ghost predicate IsFloor(e: int, x: int, d: int) {
    e * d <= x < (e + 1) * d
  }

  lemma FloorBounds(x: nat, d: nat)
    requires d > 0
    ensures IsFloor(x / d, x, d)
  {
  }

  lemma MulLe(a: int, b: int, d: nat)
    requires a <= b
    ensures a * d <= b * d
  {
  }

  lemma FloorMonotone(e: int, x: int, e': int, x': int, d: nat)
    requires IsFloor(e, x, d) && IsFloor(e', x', d) && x <= x'
    ensures e <= e'
  {
    if e' + 1 <= e {
      MulLe(e' + 1, e, d);
    }
  }

  lemma BigIntDivideNat(x: nat, d: nat)
    requires d > 0
    ensures BigIntDivide(x, d) == x / d
  {
  }

  lemma FloorOfShare(total: nat, elapsed: nat, d: nat)
    requires elapsed <= d && d > 0
    ensures total * elapsed >= 0 && IsFloor(total * elapsed / d, total * elapsed, d)
    ensures 0 <= total * elapsed / d <= total
    ensures elapsed == 0 ==> total * elapsed / d == 0
    ensures elapsed == d ==> total * elapsed / d == total
  {
    MulLe(elapsed, d, total);
    MulLe(0, elapsed, total);
    var x := total * elapsed;
    FloorBounds(x, d);
    FloorMonotone(x / d, x, total, total * d, d);
    if elapsed == d {
      FloorMonotone(total, total * d, x / d, x, d);
    }
  }

  /** e * (end - start) <= total * (c - start) < (e + 1) * (end - start): the exact floor. The two
      shortcut branches are instances of the general formula. */
  lemma EntitlementIsFloor(total: nat, start: int, end: int, checkpoint: int)
    requires InWindow(start, end, checkpoint)
    ensures Entitlement(total, start, end, checkpoint) == Ok(Share(total, start, end, checkpoint))
    ensures IsFloor(Share(total, start, end, checkpoint), total * (checkpoint - start), end - start)
    ensures 0 <= Share(total, start, end, checkpoint) <= total
  {
    FloorOfShare(total, checkpoint - start, end - start);
    BigIntDivideNat(total * (checkpoint - start), end - start);
  }

  lemma ProductFloorsOrdered(total: nat, a: int, b: int, d: nat, e: int, e': int)
    requires a <= b && IsFloor(e, total * a, d) && IsFloor(e', total * b, d)
    ensures e <= e'
  {
    MulLe(a, b, total);
    FloorMonotone(e, total * a, e', total * b, d);
  }

  lemma ShareMonotone(total: nat, start: int, end: int, c: int, c': int)
    requires InWindow(start, end, c) && InWindow(start, end, c') && c <= c'
    ensures Share(total, start, end, c) <= Share(total, start, end, c')
  {
    EntitlementIsFloor(total, start, end, c);
    EntitlementIsFloor(total, start, end, c');
    ProductFloorsOrdered(total, c - start, c' - start, end - start, Share(total, start, end, c), Share(total, start, end, c'));
  }

  // ---- Checkpoint sequences ----

  ghost predicate Checkpoints(start: int, end: int, cs: seq<int>) {
    && start < end && |cs| > 0
    && (forall i | 0 <= i < |cs| :: start <= cs[i] <= end)
    && (forall i, j | 0 <= i <= j < |cs| :: cs[i] <= cs[j])
  }

  /** What each checkpoint after the first one newly pays. */
  function Increments(total: nat, start: int, end: int, cs: seq<int>): (incs: seq<int>)
    requires start < end
  {
    if |cs| < 2 then
      []
    else
      var paid := Share(total, start, end, cs[|cs| - 1]) - Share(total, start, end, cs[|cs| - 2]);
      Increments(total, start, end, cs[..|cs| - 1]) + [paid]
  }

  function Sum(s: seq<int>): int {
    if s == [] then 0 else Sum(s[..|s| - 1]) + s[|s| - 1]
  }

  lemma {:induction false} IncrementAt(total: nat, start: int, end: int, cs: seq<int>, i: nat)
    requires start < end && i + 1 < |cs|
    ensures |Increments(total, start, end, cs)| == |cs| - 1
    ensures Increments(total, start, end, cs)[i] == Share(total, start, end, cs[i + 1]) - Share(total, start, end, cs[i])
  {
    if |cs| > 2 {
      IncrementAt(total, start, end, cs[..|cs| - 1], if i + 2 < |cs| then i else 0);
    }
  }

  lemma {:induction false} Telescopes(total: nat, start: int, end: int, cs: seq<int>)
    requires start < end && |cs| > 0
    ensures Sum(Increments(total, start, end, cs)) == Share(total, start, end, cs[|cs| - 1]) - Share(total, start, end, cs[0])
  {
    if |cs| > 1 {
      var front := cs[..|cs| - 1];
      Telescopes(total, start, end, front);
      var incs := Increments(total, start, end, cs);
      assert incs[..|incs| - 1] == Increments(total, start, end, front);
    }
  }

  /** The paid amount differs by less than one unit from the exact share of the elapsed time. */
  ghost predicate WithinOneUnit(paid: int, exact: int, d: int) {
    (paid - 1) * d < exact < (paid + 1) * d
  }

  lemma FloorDifference(e: int, x: int, e': int, x': int, d: nat)
    requires IsFloor(e, x, d) && IsFloor(e', x', d)
    ensures WithinOneUnit(e' - e, x' - x, d)
  {
    assert (e' - e - 1) * d == e' * d - (e + 1) * d;
    assert (e' - e + 1) * d == (e' + 1) * d - e * d;
  }

  /** Between any two checkpoints, however many lie between them, what is paid never drifts by
      one atomic unit from its exact share. */
  lemma NoDrift(total: nat, start: int, end: int, c: int, c': int)
    requires InWindow(start, end, c) && InWindow(start, end, c') && c <= c'
    ensures var paid := Share(total, start, end, c') - Share(total, start, end, c);
            paid >= 0 && WithinOneUnit(paid, total * (c' - c), end - start)
  {
    ShareMonotone(total, start, end, c, c');
    EntitlementIsFloor(total, start, end, c);
    EntitlementIsFloor(total, start, end, c');
    FloorDifference(Share(total, start, end, c), total * (c - start),
                    Share(total, start, end, c'), total * (c' - start), end - start);
    ProductDifference(total, c' - start, c - start);
  }

  lemma ProductDifference(total: int, a: int, b: int)
    ensures total * a - total * b == total * (a - b)
  {
  }

  ghost predicate FairIncrement(total: nat, start: int, end: int, cs: seq<int>, i: nat)
    requires start < end && i + 1 < |cs| == |Increments(total, start, end, cs)| + 1
  {
    var paid := Increments(total, start, end, cs)[i];
    paid >= 0 && WithinOneUnit(paid, total * (cs[i + 1] - cs[i]), end - start)
  }

  lemma IncrementIsFair(total: nat, start: int, end: int, cs: seq<int>, i: nat)
    requires Checkpoints(start, end, cs) && i + 1 < |cs|
    ensures |Increments(total, start, end, cs)| == |cs| - 1
    ensures FairIncrement(total, start, end, cs, i)
  {
    IncrementAt(total, start, end, cs, i);
    NoDrift(total, start, end, cs[i], cs[i + 1]);
  }

  lemma ShareAtEnds(total: nat, start: int, end: int)
    requires start < end
    ensures Share(total, start, end, start) == 0 && Share(total, start, end, end) == total
  {
    EntitlementIsFloor(total, start, end, start);
    EntitlementIsFloor(total, start, end, end);
  }

  /** From start to end the increments are non-negative, sum exactly to the total, and each is
      within one atomic unit of its exact share. */
  lemma StreamConserved(total: nat, start: int, end: int, cs: seq<int>)
    requires Checkpoints(start, end, cs) && cs[0] == start && cs[|cs| - 1] == end
    ensures Sum(Increments(total, start, end, cs)) == total
    ensures |Increments(total, start, end, cs)| == |cs| - 1
    ensures forall i | 0 <= i < |cs| - 1 :: FairIncrement(total, start, end, cs, i)
  {
    Telescopes(total, start, end, cs);
    ShareAtEnds(total, start, end);
    IncrementAt(total, start, end, cs, 0);
    forall i | 0 <= i < |cs| - 1 ensures FairIncrement(total, start, end, cs, i) {
      IncrementIsFair(total, start, end, cs, i);
    }
  }

  // ---- Stream drafts ----

  const MAX_U128 := 0xFFFF_FFFF_FFFF_FFFF_FFFF_FFFF_FFFF_FFFF
  const MAX_CHECKPOINT_SECONDS := 31_536_000

  predicate IsCommitment(text: string) {
    |text| == 66 && text[0] == '0' && text[1] == 'x' && forall i | 2 <= i < 66 :: IsHexDigit(text[i])
  }

  /** Years 0000 to 9999, in milliseconds: outside them an ISO date is printed with a signed
      six-digit year, which the schema's date format does not admit. */
  const FIRST_ISO_MS := -62_167_219_200_000
  const LAST_ISO_MS := 253_402_300_799_999

  predicate FourDigitYear(ms: int) {
    FIRST_ISO_MS <= ms <= LAST_ISO_MS
  }

  datatype StreamPlan = StreamPlan(
    start: int, end: int, total: int, settled: int, minimumCheckpointSeconds: int, checkpoint: int, entitlement: int)

  /** The schema's checks of a stream plan without an earlier checkpoint. */
  function ParseStreamPlan(plan: StreamPlan): Result<StreamPlan, Refusal> {
    if plan.minimumCheckpointSeconds > MAX_CHECKPOINT_SECONDS then Err(IntervalTooLong)
    else if plan.total > MAX_U128 || plan.entitlement > MAX_U128 then Err(AboveU128)
    else if !FourDigitYear(plan.start) || !FourDigitYear(plan.end) || !FourDigitYear(plan.checkpoint) then Err(BadDate)
    else if !InWindow(plan.start, plan.end, plan.checkpoint) then Err(OutsideWindow)
    else if plan.settled > plan.total || plan.entitlement > plan.total then Err(EntitlementAboveTotal)
    else Ok(plan)
  }

  /** buildAdvancedPaymentPlanDraft for a checkpoint stream. Dates are already parsed to
      milliseconds, None being an invalid date; an interval that is not an integer is None. */
  function StreamDraft(total: int, minimumSeconds: Option<int>, start: Option<int>, end: Option<int>,
                       checkpoint: Option<int>, attestation: string): Result<StreamPlan, Refusal>
  {
    if total <= 0 then Err(NonPositiveTotal)
    else if minimumSeconds.None? || minimumSeconds.value <= 0 then Err(BadInterval)
    else if start.None? || end.None? || checkpoint.None? then Err(BadDate)
    else
      var entitlement :- Entitlement(total, start.value, end.value, checkpoint.value);
      if entitlement <= 0 then Err(NothingAccrued)
      else if !IsCommitment(attestation) then Err(BadCommitment)
      else
        ParseStreamPlan(StreamPlan(start.value, end.value, total, 0, minimumSeconds.value, checkpoint.value, entitlement))
  }

  /** Inside the window the entitlement guard passes exactly when a whole atomic unit has accrued:
      total * (c - start) >= end - start. */
  lemma AccruesExactly(total: int, start: int, end: int, checkpoint: int)
    requires total > 0 && InWindow(start, end, checkpoint)
    ensures Share(total, start, end, checkpoint) > 0 <==> total * (checkpoint - start) >= end - start
  {
    EntitlementIsFloor(total, start, end, checkpoint);
    var e := Share(total, start, end, checkpoint);
    if e >= 1 {
      MulLe(1, e, end - start);
    }
  }

  /** A stream draft is accepted exactly under these conditions, and what is accepted has the
      values it was given, nothing settled yet, and as entitlement the exact floor at its checkpoint;
      in particular the schema never refuses a draft for its entitlement. */
  lemma DraftAcceptedExactly(total: int, minimumSeconds: Option<int>, start: Option<int>, end: Option<int>,
                             checkpoint: Option<int>, attestation: string)
    ensures StreamDraft(total, minimumSeconds, start, end, checkpoint, attestation).Ok? <==>
            && 0 < total <= 340_282_366_920_938_463_463_374_607_431_768_211_455
            && minimumSeconds.Some? && 0 < minimumSeconds.value <= 31_536_000
            && start.Some? && end.Some? && checkpoint.Some?
            && -62_167_219_200_000 <= start.value && end.value <= 253_402_300_799_999
            && start.value < end.value && start.value <= checkpoint.value <= end.value
            && total * (checkpoint.value - start.value) >= end.value - start.value
            && |attestation| == 66 && attestation[0] == '0' && attestation[1] == 'x'
            && forall i | 2 <= i < 66 :: attestation[i] in "0123456789abcdefABCDEF"
    ensures var draft := StreamDraft(total, minimumSeconds, start, end, checkpoint, attestation);
            && draft != Err(EntitlementAboveTotal)
            && (draft.Ok? ==>
                  && draft.value.start == start.value && draft.value.end == end.value && draft.value.total == total
                  && draft.value.settled == 0 && draft.value.minimumCheckpointSeconds == minimumSeconds.value
                  && draft.value.checkpoint == checkpoint.value
                  && draft.value.entitlement * (end.value - start.value) <= total * (checkpoint.value - start.value)
                  && total * (checkpoint.value - start.value) < (draft.value.entitlement + 1) * (end.value - start.value))
  {
    if |attestation| == 66 {
      forall i | 2 <= i < 66 ensures IsHexDigit(attestation[i]) <==> attestation[i] in "0123456789abcdefABCDEF" {
        HexDigitsAre(attestation[i], "0123456789abcdefABCDEF");
      }
    }
    if total > 0 && start.Some? && end.Some? && checkpoint.Some? && InWindow(start.value, end.value, checkpoint.value) {
      AccruesExactly(total, start.value, end.value, checkpoint.value);
      EntitlementIsFloor(total, start.value, end.value, checkpoint.value);
    }
  }

  /** What each refusal says about the draft. */
  ghost predicate IsCause(refusal: Refusal, total: int, minimumSeconds: Option<int>, start: Option<int>,
                          end: Option<int>, checkpoint: Option<int>, attestation: string)
  {
    var dated := start.Some? && end.Some? && checkpoint.Some?;
    match refusal
    case NonPositiveTotal => total <= 0
    case BadInterval => minimumSeconds.None? || minimumSeconds.value <= 0
    case BadDate => !dated || start.value < -62_167_219_200_000 || end.value > 253_402_300_799_999
    case EndBeforeStart => dated && end.value <= start.value
    case OutsideWindow => dated && start.value < end.value && !(start.value <= checkpoint.value <= end.value)
    case NothingAccrued =>
      dated && start.value <= checkpoint.value <= end.value
      && total * (checkpoint.value - start.value) < end.value - start.value
    case BadCommitment => !IsCommitment(attestation)
    case AboveU128 => total > 340_282_366_920_938_463_463_374_607_431_768_211_455
    case IntervalTooLong => minimumSeconds.Some? && minimumSeconds.value > 31_536_000
    case EntitlementAboveTotal => false
  }

  /** A refused draft really has the fault it is refused for. */
  lemma RefusalNamesItsCause(total: int, minimumSeconds: Option<int>, start: Option<int>, end: Option<int>,
                             checkpoint: Option<int>, attestation: string)
    ensures var draft := StreamDraft(total, minimumSeconds, start, end, checkpoint, attestation);
            draft.Err? ==> IsCause(draft.error, total, minimumSeconds, start, end, checkpoint, attestation)
  {
    if total > 0 && start.Some? && end.Some? && checkpoint.Some? && InWindow(start.value, end.value, checkpoint.value) {
      AccruesExactly(total, start.value, end.value, checkpoint.value);
      EntitlementIsFloor(total, start.value, end.value, checkpoint.value);
    }
  }
}
