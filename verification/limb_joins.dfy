/** 128-bit limbs joined to one 256-bit value, in every layout the scripts accept. */
module LimbJoins {
  import opened Bits
  import opened ByteEncoders
  import opened Wrappers

  const LIMB_BITS := 128

  predicate IsLimb(n: nat) {
    n < Pow2(LIMB_BITS)
  }

  function Join(high: nat, low: nat): nat {
    BitOr(Shl(high, LIMB_BITS), low)
  }

  function Split(value: nat): (nat, nat) {
    (Shr(value, LIMB_BITS), BitAnd(value, Pow2(LIMB_BITS) - 1))
  }

  lemma SplitUndoesJoinAt(high: nat, low: nat, n: nat)
    requires low < Pow2(n)
    ensures BitOr(Shl(high, n), low) == high * Pow2(n) + low
    ensures Shr(high * Pow2(n) + low, n) == high && BitAnd(high * Pow2(n) + low, Pow2(n) - 1) == low
  {
    OrOfShiftedIsSum(high, low, n);
    AndMaskIsMod(high * Pow2(n) + low, n);
    QuotientRemainder(high * Pow2(n) + low, Pow2(n), high, low);
  }

  lemma JoinUndoesSplitAt(value: nat, n: nat)
    ensures BitAnd(value, Pow2(n) - 1) < Pow2(n)
    ensures BitOr(Shl(Shr(value, n), n), BitAnd(value, Pow2(n) - 1)) == value
  {
    AndMaskIsMod(value, n);
    DivisionIdentity(value, Pow2(n));
    RejoinAt(value, Shr(value, n), BitAnd(value, Pow2(n) - 1), n);
  }

  lemma RejoinAt(value: nat, high: nat, low: nat, n: nat)
    requires low < Pow2(n) && value == high * Pow2(n) + low
    ensures BitOr(Shl(high, n), low) == value
  {
    OrOfShiftedIsSum(high, low, n);
  }

  lemma HighLimbBound(value: nat, n: nat)
    requires value < Pow2(n + n)
    ensures Shr(value, n) < Pow2(n)
  {
    Pow2Add(n, n);
    QuotientBelow(value, Pow2(n), Pow2(n));
  }

  /** Joining in-range limbs is high * 2^128 + low, and splitting undoes it. */
  lemma SplitUndoesJoin(high: nat, low: nat)
    requires IsLimb(low)
    ensures Join(high, low) == high * Pow2(LIMB_BITS) + low
    ensures Split(Join(high, low)) == (high, low)
  {
    SplitUndoesJoinAt(high, low, LIMB_BITS);
  }

  lemma JoinUndoesSplit(value: nat)
    ensures IsLimb(Split(value).1) && Join(Split(value).0, Split(value).1) == value
  {
    JoinUndoesSplitAt(value, LIMB_BITS);
  }

  /** Splitting returns the limbs that were joined exactly when the low one is in range. */
  lemma SplitReturnsLimbsExactly(high: nat, low: nat)
    ensures Split(Join(high, low)) == (high, low) <==> IsLimb(low)
  {
    if IsLimb(low) {
      SplitUndoesJoin(high, low);
    } else {
      JoinUndoesSplit(Join(high, low));
    }
  }

  lemma SplitInRange(value: nat)
    requires value < Pow2(LIMB_BITS + LIMB_BITS)
    ensures IsLimb(Split(value).0)
  {
    HighLimbBound(value, LIMB_BITS);
  }

  lemma JoinInjective(high: nat, low: nat, high': nat, low': nat)
    requires IsLimb(low) && IsLimb(low') && Join(high, low) == Join(high', low')
    ensures high == high' && low == low'
  {
    SplitUndoesJoin(high, low);
    SplitUndoesJoin(high', low');
  }

  // ---- asU256: scalar, [low, high] and {low, high} ----

  datatype Layout =
    | Scalar(value: nat)
    | Items(items: seq<nat>)
    | Record(fields: map<string, nat>)
    | Unrecognised

  function AsU256(layout: Layout): Result<nat, string> {
    match layout
    case Scalar(value) => Ok(value)
    case Items(items) => if |items| == 2 then Ok(BitOr(items[0], Shl(items[1], LIMB_BITS))) else Err("Expected one u256 value")
    case Record(fields) =>
      if "low" in fields && "high" in fields then Ok(BitOr(fields["low"], Shl(fields["high"], LIMB_BITS)))
      else Err("Expected one u256 value")
    case Unrecognised => Err("Expected one u256 value")
  }

  /** All layouts of one value agree with the high and low join, and with the value itself. */
  lemma LayoutsAgree(high: nat, low: nat, fields: map<string, nat>)
    requires IsLimb(low) && "low" in fields && "high" in fields && fields["low"] == low && fields["high"] == high
    ensures AsU256(Items([low, high])) == AsU256(Record(fields)) == Ok(Join(high, low))
    ensures AsU256(Scalar(high * Pow2(LIMB_BITS) + low)) == Ok(Join(high, low))
  {
    OrCommutes(low, Shl(high, LIMB_BITS));
    SplitUndoesJoin(high, low);
  }

  /** Nothing but a scalar, a pair or a record with both limbs is taken for a value. */
  lemma LayoutAcceptedExactly(layout: Layout)
    ensures AsU256(layout).Ok? <==>
            || layout.Scalar?
            || (layout.Items? && |layout.items| == 2)
            || (layout.Record? && "low" in layout.fields && "high" in layout.fields)
  {
  }

  // ---- joinedRoot: the joined value as 64 lower-case hex digits ----

  const DIGITS := "0123456789abcdef"

  function HexText(n: nat): (text: string)
    ensures text != "" && IsHex(text)
  {
    if n < 16 then [DIGITS[n]] else HexText(n / 16) + [DIGITS[n % 16]]
  }

  lemma DigitValue(d: nat)
    requires d < 16
    ensures HexDigitValue(DIGITS[d]) == Some(d)
  {
  }

  lemma {:induction false} HexTextRoundTrip(n: nat)
    ensures HexNumber(HexText(n)) == n
  {
    DigitValue(n % 16);
    if n < 16 {
      assert HexText(n)[..0] == "";
    } else {
      HexTextRoundTrip(n / 16);
      assert HexText(n)[..|HexText(n)| - 1] == HexText(n / 16);
    }
  }

  lemma {:induction false} HexTextLength(n: nat, k: nat)
    requires k > 0 && n < Pow2(4 * k)
    ensures |HexText(n)| <= k
  {
    Pow2Of8();
    Pow2Add(4, 4 * (k - 1));
    if k > 1 && n >= 16 {
      HexTextLength(n / 16, k - 1);
    }
  }

  function JoinedRoot(high: nat, low: nat): string {
    "0x" + PadStart(HexText(Join(high, low)), 64)
  }

  /** The joined root has 64 digits whose 32 bytes are the high limb's 16 bytes followed by the
      low limb's, and whose number is the join. */
  lemma JoinedRootBytes(high: nat, low: nat)
    requires IsLimb(high) && IsLimb(low)
    ensures |JoinedRoot(high, low)| == 66
    ensures ByteArray(JoinedRoot(high, low)) == BigEndian(high, 16) + BigEndian(low, 16)
    ensures IsHex(JoinedRoot(high, low)[2..]) && HexNumber(JoinedRoot(high, low)[2..]) == Join(high, low)
  {
    JoinBelow256Bits(high, low);
    JoinedBytes(high, low);
    RootText(Join(high, low));
  }

  predicate LowerHex(text: string) {
    forall i | 0 <= i < |text| :: '0' <= text[i] <= '9' || 'a' <= text[i] <= 'f'
  }

  lemma {:induction false} HexTextIsLowerCase(n: nat)
    ensures LowerHex(HexText(n))
  {
    var d := DIGITS[n % 16];
    assert '0' <= d <= '9' || 'a' <= d <= 'f';
    if n >= 16 {
      HexTextIsLowerCase(n / 16);
    }
  }

  lemma {:induction false} PadStaysLowerCase(text: string, length: nat)
    requires LowerHex(text)
    ensures LowerHex(PadStart(text, length))
    decreases length - |text|
  {
    if |text| < length {
      PadStaysLowerCase(['0'] + text, length);
    }
  }

  /** After its 0x prefix the joined root is in lower case, whatever the limbs. */
  lemma JoinedRootIsLowerCase(high: nat, low: nat)
    ensures var text := JoinedRoot(high, low);
            |text| > 2 && text[0] == '0' && text[1] == 'x' && LowerHex(text[2..])
  {
    HexTextIsLowerCase(Join(high, low));
    PadStaysLowerCase(HexText(Join(high, low)), 64);
    PadKeepsNumber(HexText(Join(high, low)), 64);
    assert JoinedRoot(high, low)[2..] == PadStart(HexText(Join(high, low)), 64);
  }

  lemma LimbIsSixteenBytes()
    ensures Pow2(LIMB_BITS) == Pow256(16)
  {
  }

  lemma JoinedBytes(high: nat, low: nat)
    requires IsLimb(low)
    ensures BigEndian(Join(high, low), 32) == BigEndian(high, 16) + BigEndian(low, 16)
  {
    LimbIsSixteenBytes();
    SplitUndoesJoin(high, low);
    BigEndianSplit(high, low, 16, 16);
  }

  /** The printed text of any value below 2^256. */
  lemma RootText(joined: nat)
    requires joined < Pow256(32) == Pow2(4 * 64)
    ensures var text := "0x" + PadStart(HexText(joined), 64);
            && |text| == 66 && ByteArray(text) == BigEndian(joined, 32)
            && IsHex(text[2..]) && HexNumber(text[2..]) == joined
  {
    var digits := PadStart(HexText(joined), 64);
    HexTextRoundTrip(joined);
    HexTextLength(joined, 64);
    PadKeepsNumber(HexText(joined), 64);
    EncodersAgree(digits);
    SingleField(joined);
    assert ("0x" + digits)[2..] == digits;
  }

  lemma JoinBelow256Bits(high: nat, low: nat)
    requires IsLimb(high) && IsLimb(low)
    ensures Join(high, low) < Pow256(32) == Pow2(4 * 64)
  {
    SplitUndoesJoin(high, low);
    SumBelow(high, low, LIMB_BITS);
  }

  lemma SumBelow(high: nat, low: nat, n: nat)
    requires high < Pow2(n) && low < Pow2(n)
    ensures high * Pow2(n) + low < Pow2(n + n)
  {
    Pow2Add(n, n);
    MulMonotone(Pow2(n), high, Pow2(n));
  }

  lemma JoinedRootInjective(high: nat, low: nat, high': nat, low': nat)
    requires IsLimb(high) && IsLimb(low) && IsLimb(high') && IsLimb(low')
    ensures JoinedRoot(high, low) == JoinedRoot(high', low') ==> high == high' && low == low'
  {
    JoinedRootBytes(high, low);
    JoinedRootBytes(high', low');
    if JoinedRoot(high, low) == JoinedRoot(high', low') {
      JoinInjective(high, low, high', low');
    }
  }

  /** Out of range the or overlaps: a low limb of 2^128 joins like a high limb of one. */
  lemma OutOfRangeLimbsCollide()
    ensures Join(1, 0) == Join(0, Pow2(LIMB_BITS)) == Join(1, Pow2(LIMB_BITS))
    ensures JoinedRoot(1, 0) == JoinedRoot(0, Pow2(LIMB_BITS))
  {
    var p := Pow2(LIMB_BITS);
    OrZero(p);
    OrSelf(p);
  }

  lemma {:induction false} OrSelf(a: nat)
    ensures BitOr(a, a) == a
  {
    if a > 0 {
      OrSelf(a / 2);
    }
  }
}
