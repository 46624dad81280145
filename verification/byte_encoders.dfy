/** Two independent 32-byte encoders, against big-endian bytes as their common meaning. */
module ByteEncoders {
  import opened Bits
  import opened Wrappers

  type Byte = b: nat | b < 256

  // ---- Big-endian bytes as the common meaning ----

  function BigEndian(value: nat, n: nat): (bytes: seq<Byte>)
    ensures |bytes| == n
  {
    if n == 0 then [] else BigEndian(value / 256, n - 1) + [value % 256]
  }

  function FromBytes(bytes: seq<Byte>): nat {
    if bytes == [] then 0 else FromBytes(bytes[..|bytes| - 1]) * 256 + bytes[|bytes| - 1]
  }

  function Pow256(n: nat): nat {
    Pow2(8 * n)
  }

  lemma Pow256Step(n: nat)
    ensures Pow256(0) == 1 && Pow256(n + 1) == 256 * Pow256(n)
  {
    Pow2Of8();
    Pow2Add(8, 8 * n);
  }

  /** Below 256^n the n bytes represent the value. */
  lemma {:induction false} BigEndianRepresents(value: nat, n: nat)
    requires value < Pow256(n)
    ensures FromBytes(BigEndian(value, n)) == value
  {
    Pow256Step(if n == 0 then 0 else n - 1);
    if n > 0 {
      var bytes := BigEndian(value, n);
      assert bytes[..n - 1] == BigEndian(value / 256, n - 1);
      BigEndianRepresents(value / 256, n - 1);
    }
  }

  /** The n bytes that represent a value are unique. */
  lemma {:induction false} BigEndianUnique(bytes: seq<Byte>)
    ensures BigEndian(FromBytes(bytes), |bytes|) == bytes
    ensures FromBytes(bytes) < Pow256(|bytes|)
  {
    if bytes == [] {
      Pow256Step(0);
    } else {
      var n := |bytes| - 1;
      BigEndianUnique(bytes[..n]);
      Pow256Step(n);
      assert bytes == bytes[..n] + [bytes[n]];
    }
  }

  /** The bytes of a joined value are the bytes of the high part, then those of the low part. */
  lemma {:induction false} BigEndianSplit(high: nat, low: nat, m: nat, n: nat)
    requires low < Pow256(n)
    ensures BigEndian(high * Pow256(n) + low, m + n) == BigEndian(high, m) + BigEndian(low, n)
  {
    if n == 0 {
      Pow256Step(0);
    } else {
      Pow256Step(n - 1);
      var p := Pow256(n - 1);
      assert high * Pow256(n) == 256 * (high * p) by {
        assert high * (256 * p) == 256 * (high * p);
      }
      var joined := high * Pow256(n) + low;
      QuotientRemainder(joined, 256, high * p + low / 256, low % 256);
      BigEndianSplit(high, low / 256, m, n - 1);
    }
  }

  // ---- serializeFields: bytes written in place ----

  const FIELD_COUNT := 58

  predicate Canonical(value: int) {
    0 <= value < Pow256(32)
  }

  predicate AllCanonical(values: seq<int>) {
    forall i | 0 <= i < |values| :: Canonical(values[i])
  }

  function Fields(values: seq<int>): (bytes: seq<Byte>)
    requires AllCanonical(values)
    ensures |bytes| == 32 * |values|
  {
    if values == [] then [] else Fields(values[..|values| - 1]) + BigEndian(values[|values| - 1], 32)
  }

  /** The inner loop: one slot of 32 bytes, lowest byte last. */
  method WriteField(output: array<Byte>, index: nat, value: nat)
    requires index * 32 + 32 <= output.Length
    modifies output
    ensures output[index * 32..index * 32 + 32] == BigEndian(value, 32)
    ensures forall k | 0 <= k < output.Length && !(index * 32 <= k < index * 32 + 32) :: output[k] == old(output[k])
  {
    var remaining := value;
    var base := index * 32;
    var byte := 31;
    while byte >= 0
      invariant -1 <= byte <= 31
      invariant BigEndian(value, 32) == BigEndian(remaining, byte + 1) + output[base + byte + 1..base + 32]
      invariant forall k | 0 <= k < output.Length && !(base <= k < base + 32) :: output[k] == old(output[k])
    {
      Pow2Of8();
      AndMaskIsMod(remaining, 8);
      ghost var written := output[base + byte + 1..base + 32];
      output[base + byte] := BitAnd(remaining, 0xff);
      assert output[base + byte..base + 32] == [remaining % 256] + written;
      remaining := Shr(remaining, 8);
      byte := byte - 1;
    }
  }

  lemma FieldsStep(values: seq<int>, index: nat)
    requires index < |values| && AllCanonical(values[..index]) && Canonical(values[index])
    ensures AllCanonical(values[..index + 1])
    ensures Fields(values[..index + 1]) == Fields(values[..index]) + BigEndian(values[index], 32)
  {
    assert values[..index + 1][..index] == values[..index];
  }

  lemma NextSlot(before: seq<Byte>, after: seq<Byte>, index: nat)
    requires index * 32 + 32 <= |before| == |after|
    requires forall k | 0 <= k < index * 32 :: after[k] == before[k]
    ensures after[..32 * (index + 1)] == before[..32 * index] + after[index * 32..index * 32 + 32]
  {
  }

  /** Exactly the canonical lists of the expected length are written, each value into its slot. */
  method SerializeFields(values: seq<int>) returns (result: Result<array<Byte>, string>)
    ensures result.Ok? <==> |values| == 58 && forall i | 0 <= i < |values| :: 0 <= values[i] < Pow2(256)
    ensures result.Ok? ==> fresh(result.value) && result.value[..] == Fields(values)
  {
    if |values| != FIELD_COUNT {
      return Err("unexpected count");
    }
    var output := new Byte[|values| * 32](_ => 0);
    for index := 0 to |values|
      invariant AllCanonical(values[..index])
      invariant output[..32 * index] == Fields(values[..index])
    {
      if !Canonical(values[index]) {
        return Err("outside its canonical range");
      }
      ghost var before := output[..];
      WriteField(output, index, values[index]);
      FieldsStep(values, index);
      NextSlot(before, output[..], index);
    }
    assert values[..|values|] == values && output[..32 * |values|] == output[..];
    result := Ok(output);
  }

  /** Each slot represents its value, so the bytes determine the list. */
  lemma {:induction false} FieldAt(values: seq<int>, index: nat)
    requires index < |values| && AllCanonical(values)
    ensures FromBytes(Fields(values)[index * 32..index * 32 + 32]) == values[index]
  {
    var n := |values| - 1;
    if index == n {
      BigEndianRepresents(values[n], 32);
      assert Fields(values)[n * 32..n * 32 + 32] == BigEndian(values[n], 32);
    } else {
      FieldAt(values[..n], index);
      assert Fields(values)[index * 32..index * 32 + 32] == Fields(values[..n])[index * 32..index * 32 + 32];
    }
  }

  lemma FieldsInjective(v: seq<int>, w: seq<int>)
    requires AllCanonical(v) && AllCanonical(w) && Fields(v) == Fields(w)
    ensures v == w
  {
    forall i | 0 <= i < |v| ensures v[i] == w[i] {
      FieldAt(v, i);
      FieldAt(w, i);
    }
  }

  lemma HexDigitValues(d: nat)
    requires d < 16
    ensures HexDigitValue("0123456789abcdef"[d]) == HexDigitValue("0123456789ABCDEF"[d]) == Some(d)
  {
  }

  // ---- byteArray: hex text, padded, decoded pair by pair ----

  function HexDigitValue(c: char): Option<nat> {
    if '0' <= c <= '9' then Some(c as nat - '0' as nat)
    else if 'a' <= c <= 'f' then Some(c as nat - 'a' as nat + 10)
    else if 'A' <= c <= 'F' then Some(c as nat - 'A' as nat + 10)
    else None
  }

  predicate IsHex(text: string) {
    forall c | c in text :: HexDigitValue(c).Some?
  }

  function PadStart(text: string, length: nat): string
    decreases length - |text|
  {
    if |text| >= length then text else PadStart(['0'] + text, length)
  }

  /** Buffer.from(text, "hex"): pairs are decoded up to the first pair that is not two hex digits. */
  function DecodeHex(text: string): seq<Byte> {
    if |text| < 2 then []
    else
      var high, low := HexDigitValue(text[0]), HexDigitValue(text[1]);
      if high.Some? && low.Some? && high.value < 16 && low.value < 16
      then [high.value * 16 + low.value] + DecodeHex(text[2..]) else []
  }

  function ByteArray(hex: string): seq<Byte> {
    DecodeHex(PadStart(WithoutPrefix(hex), 64))
  }

  function WithoutPrefix(hex: string): string {
    if |hex| >= 2 && hex[0] == '0' && hex[1] == 'x' then hex[2..] else hex
  }

  function HexNumber(text: string): nat
    requires IsHex(text)
  {
    if text == "" then 0
    else HexNumber(text[..|text| - 1]) * 16 + HexDigitValue(text[|text| - 1]).value
  }

  lemma {:induction false} PadKeepsNumber(text: string, length: nat)
    requires IsHex(text)
    ensures IsHex(PadStart(text, length)) && HexNumber(PadStart(text, length)) == HexNumber(text)
    ensures |PadStart(text, length)| == if |text| >= length then |text| else length
    decreases length - |text|
  {
    if |text| < length {
      LeadingZero(text);
      PadKeepsNumber(['0'] + text, length);
    }
  }

  lemma {:induction false} LeadingZero(text: string)
    requires IsHex(text)
    ensures IsHex(['0'] + text) && HexNumber(['0'] + text) == HexNumber(text)
  {
    var padded := ['0'] + text;
    if text == "" {
      assert padded[..0] == "";
    } else {
      assert padded[..|padded| - 1] == ['0'] + text[..|text| - 1];
      LeadingZero(text[..|text| - 1]);
    }
  }

  lemma {:induction false} DecodeHexAppend(text: string, a: char, b: char)
    requires IsHex(text) && |text| % 2 == 0 && HexDigitValue(a).Some? && HexDigitValue(b).Some?
    ensures HexDigitValue(a).value < 16 && HexDigitValue(b).value < 16
    ensures DecodeHex(text + [a, b]) == DecodeHex(text) + [HexDigitValue(a).value * 16 + HexDigitValue(b).value]
  {
    var t := text + [a, b];
    if text == "" {
      assert t == [a, b] && t[2..] == "";
    } else {
      assert t[2..] == text[2..] + [a, b];
      DecodeHexAppend(text[2..], a, b);
    }
  }

  /** Decoding stops at the first pair that is not two hex digits, and at a digit left without a pair. */
  lemma {:induction false} DecodingStops(text: string, rest: string)
    requires IsHex(text) && |text| % 2 == 0
    requires |rest| >= 2 ==> HexDigitValue(rest[0]).None? || HexDigitValue(rest[1]).None?
    ensures DecodeHex(text + rest) == DecodeHex(text)
  {
    var t := text + rest;
    if text == "" {
      assert t == rest;
    } else {
      assert t[0] in text && text[1] in text && t[2..] == text[2..] + rest;
      DecodingStops(text[2..], rest);
    }
  }

  lemma HexNumberSnoc(front: string, c: char)
    requires IsHex(front) && HexDigitValue(c).Some?
    ensures IsHex(front + [c]) && HexNumber(front + [c]) == HexNumber(front) * 16 + HexDigitValue(c).value
  {
    var text := front + [c];
    assert text[..|text| - 1] == front && text[|text| - 1] == c;
  }

  lemma HexNumberAppend(front: string, a: char, b: char, last: nat)
    requires IsHex(front) && HexDigitValue(a).Some? && HexDigitValue(b).Some?
    requires last == HexDigitValue(a).value * 16 + HexDigitValue(b).value
    ensures IsHex(front + [a, b]) && HexNumber(front + [a, b]) == HexNumber(front) * 256 + last
  {
    HexNumberSnoc(front, a);
    HexNumberSnoc(front + [a], b);
    assert front + [a, b] == (front + [a]) + [b];
  }

  lemma BigEndianAppend(value: nat, last: nat, number: nat, n: nat)
    requires last < 256 && number == value * 256 + last
    ensures BigEndian(number, n + 1) == BigEndian(value, n) + [last]
  {
    QuotientRemainder(number, 256, value, last);
  }

  lemma DecodeHexPair(front: string, a: char, b: char, n: nat)
    requires IsHex(front) && |front| == 2 * n && HexDigitValue(a).Some? && HexDigitValue(b).Some?
    requires DecodeHex(front) == BigEndian(HexNumber(front), n)
    ensures IsHex(front + [a, b])
    ensures DecodeHex(front + [a, b]) == BigEndian(HexNumber(front + [a, b]), n + 1)
  {
    DecodeHexAppend(front, a, b);
    var last := HexDigitValue(a).value * 16 + HexDigitValue(b).value;
    HexNumberAppend(front, a, b, last);
    BigEndianAppend(HexNumber(front), last, HexNumber(front + [a, b]), n);
  }

  lemma {:induction false} DecodeHexIsBigEndian(text: string)
    requires IsHex(text) && |text| % 2 == 0
    ensures DecodeHex(text) == BigEndian(HexNumber(text), |text| / 2)
  {
    if text != "" {
      var n := |text| - 2;
      assert text == text[..n] + [text[n], text[n + 1]] && text[n] in text && text[n + 1] in text;
      DecodeHexIsBigEndian(text[..n]);
      DecodeHexPair(text[..n], text[n], text[n + 1], n / 2);
    }
  }

  lemma PrefixIsOptional(digits: string)
    requires IsHex(digits)
    ensures WithoutPrefix(digits) == WithoutPrefix("0x" + digits) == digits
  {
    if |digits| >= 2 {
      assert digits[1] in digits;
    }
  }

  lemma PaddedBytes(digits: string, n: nat)
    requires IsHex(digits) && |digits| <= 2 * n
    ensures DecodeHex(PadStart(digits, 2 * n)) == BigEndian(HexNumber(digits), n)
  {
    PadKeepsNumber(digits, 2 * n);
    DecodeHexIsBigEndian(PadStart(digits, 2 * n));
  }

  lemma {:induction false} HexNumberBound(text: string)
    requires IsHex(text)
    ensures HexNumber(text) < Pow2(4 * |text|)
  {
    if text != "" {
      var n := |text| - 1;
      HexNumberBound(text[..n]);
      Pow2Of8();
      Pow2Add(4, 4 * n);
      assert text[n] in text;
    }
  }

  /** Any hex text of at most 64 digits, prefixed or not, in any case, with any leading zeros, is
      encoded as the 32 bytes the field serializer writes for its value. */
  lemma EncodersAgree(digits: string)
    requires IsHex(digits) && |digits| <= 64
    ensures Canonical(HexNumber(digits))
    ensures ByteArray(digits) == ByteArray("0x" + digits) == Fields([HexNumber(digits)])
  {
    HexNumberBound(digits);
    Pow2Monotone(4 * |digits|, 8 * 32);
    PaddedBytes(digits, 32);
    PrefixIsOptional(digits);
    SingleField(HexNumber(digits));
  }

  lemma SingleField(value: int)
    requires Canonical(value)
    ensures Fields([value]) == BigEndian(value, 32)
  {
    assert [value][..0] == [];
  }
}
