/** A strict reader of what the witness printer must write, in TOML's and JSON's own code units. It
    accepts one text for each value: no spaces, no leading zeros, no needless or missing escape. */
module TomlDecoder {
  import opened TomlValue
  import opened Wrappers

  function DecodeDigits(t: Units, acc: nat): (r: (nat, Units))
    ensures |r.1| <= |t|
    ensures t != [] && IsDigitUnit(t[0]) ==> |r.1| < |t|
  {
    if t != [] && IsDigitUnit(t[0]) then DecodeDigits(t[1..], acc * 10 + (t[0] - 0x30)) else (acc, t)
  }

  /** Lower-case hexadecimal digits only. */
  function HexValue(u: CodeUnit): Option<nat> {
    if IsDigitUnit(u) then Some(u - 0x30) else if 0x61 <= u <= 0x66 then Some(u - 0x61 + 10) else None
  }

  /** What the letter after a backslash stands for: b, t, n, f, r, the quote and the backslash. */
  function ShortUnescape(letter: CodeUnit): Option<CodeUnit> {
    if letter == 0x62 then Some(8) else if letter == 0x74 then Some(9) else if letter == 0x6E then Some(10)
    else if letter == 0x66 then Some(12) else if letter == 0x72 then Some(13)
    else if letter == 0x22 || letter == 0x5C then Some(letter) else None
  }

  function FourHex(t: Units): (r: Option<CodeUnit>)
    requires |t| == 4
  {
    var a, b, c, d := HexValue(t[0]), HexValue(t[1]), HexValue(t[2]), HexValue(t[3]);
    if a.Some? && b.Some? && c.Some? && d.Some? && a.value < 16 && b.value < 16 && c.value < 16 && d.value < 16
    then Some(a.value * 0x1000 + b.value * 0x100 + c.value * 16 + d.value) else None
  }

  predicate IsLead(u: CodeUnit) {
    0xD800 <= u <= 0xDBFF
  }

  predicate IsTrail(u: CodeUnit) {
    0xDC00 <= u <= 0xDFFF
  }

  /** Control characters without a short escape, and surrogates, are all that \u may stand for. */
  predicate NeedsUnicodeEscape(u: CodeUnit) {
    (u < 0x20 && u !in {8, 9, 10, 12, 13}) || IsLead(u) || IsTrail(u)
  }

  /** The string up to its closing quote, and what follows it. Controls never stand raw, and
      surrogates only in pairs. */
  function DecodeText(t: Units): (r: Option<(Units, Units)>)
    ensures r.Some? ==> |r.value.1| < |t|
  {
    if t == [] then None
    else if t[0] == 0x22 then Some(([], t[1..]))
    else if t[0] == 0x5C then
      if |t| < 2 then None
      else if ShortUnescape(t[1]).Some? then Prepend(ShortUnescape(t[1]).value, DecodeText(t[2..]))
      else if t[1] == 0x75 && |t| >= 6 && FourHex(t[2..6]).Some? && NeedsUnicodeEscape(FourHex(t[2..6]).value)
      then PrependEscaped(FourHex(t[2..6]).value, DecodeText(t[6..]))
      else None
    else if t[0] < 0x20 || IsTrail(t[0]) then None
    else if IsLead(t[0]) then
      if |t| > 1 && IsTrail(t[1]) then Prepend(t[0], Prepend(t[1], DecodeText(t[2..]))) else None
    else Prepend(t[0], DecodeText(t[1..]))
  }

  function Prepend(u: CodeUnit, r: Option<(Units, Units)>): Option<(Units, Units)> {
    if r.Some? then Some(([u] + r.value.0, r.value.1)) else None
  }

  /** An escaped surrogate must be a lone one. */
  function PrependEscaped(u: CodeUnit, r: Option<(Units, Units)>): Option<(Units, Units)> {
    if r.Some? && IsLead(u) && r.value.0 != [] && IsTrail(r.value.0[0]) then None else Prepend(u, r)
  }

  /** The longest bare prefix, and what follows it. */
  function DecodeKey(t: Units): (r: (Units, Units))
    ensures |r.0| + |r.1| == |t|
  {
    if t != [] && IsBare(t[0]) then
      var (key, rest) := DecodeKey(t[1..]);
      ([t[0]] + key, rest)
    else ([], t)
  }

  /** `true`, `false`, "…", […], {…}, or a whole number without leading zeros. */
  function DecodeValue(t: Units): (r: Option<(Value, Units)>)
    ensures r.Some? ==> |r.value.1| < |t|
    decreases |t|, 0
  {
    if t == [] then None
    else if [0x74, 0x72, 0x75, 0x65] <= t then Some((Bool(true), t[4..]))
    else if [0x66, 0x61, 0x6C, 0x73, 0x65] <= t then Some((Bool(false), t[5..]))
    else if t[0] == 0x22 then
      var text := DecodeText(t[1..]);
      if text.Some? then Some((Text(text.value.0), text.value.1)) else None
    else if t[0] == 0x5B then
      if |t| > 1 && t[1] == 0x5D then Some((Array([]), t[2..]))
      else
        var items := DecodeItems(t[1..]);
        if items.Some? then Some((Array(items.value.0), items.value.1)) else None
    else if t[0] == 0x7B then
      if |t| > 1 && t[1] == 0x7D then Some((Table([]), t[2..]))
      else
        var entries := DecodeEntries(t[1..]);
        if entries.Some? then Some((Table(entries.value.0), entries.value.1)) else None
    else if IsDigitUnit(t[0]) then
      if t[0] == 0x30 && |t| > 1 && IsDigitUnit(t[1]) then None
      else
        var (n, rest) := DecodeDigits(t, 0);
        Some((Number(n), rest))
    else if t[0] == 0x2D && |t| > 1 && IsDigitUnit(t[1]) && t[1] != 0x30 then
      var (n, rest) := DecodeDigits(t[1..], 0);
      Some((Number(-(n as int)), rest))
    else None
  }

  function DecodeItems(t: Units): (r: Option<(seq<Value>, Units)>)
    ensures r.Some? ==> |r.value.1| < |t|
    decreases |t|, 1
  {
    var first := DecodeValue(t);
    if first.None? || first.value.1 == [] then None
    else
      var (value, rest) := first.value;
      if rest[0] == 0x5D then Some(([value], rest[1..]))
      else if rest[0] == 0x2C then
        var others := DecodeItems(rest[1..]);
        if others.Some? then Some(([value] + others.value.0, others.value.1)) else None
      else None
  }

  function DecodeEntries(t: Units): (r: Option<(seq<Entry>, Units)>)
    ensures r.Some? ==> |r.value.1| < |t|
    decreases |t|, 1
  {
    var (key, afterKey) := DecodeKey(t);
    if key == [] || afterKey == [] || afterKey[0] != 0x3D then None
    else
      var first := DecodeValue(afterKey[1..]);
      if first.None? || first.value.1 == [] then None
      else
        var (value, rest) := first.value;
        if rest[0] == 0x7D then Some(([Entry(key, value)], rest[1..]))
        else if rest[0] == 0x2C then
          var others := DecodeEntries(rest[1..]);
          if others.Some? then Some(([Entry(key, value)] + others.value.0, others.value.1)) else None
        else None
  }

  /** One line of the file: key, space, equals sign, space, value and nothing more. */
  function DecodeLine(line: Units): Option<Entry> {
    var (key, rest) := DecodeKey(line);
    if key == [] || !([0x20, 0x3D, 0x20] <= rest) then None
    else
      var value := DecodeValue(rest[3..]);
      if value.Some? && value.value.1 == [] then Some(Entry(key, value.value.0)) else None
  }

  function FirstLine(t: Units): (r: (Units, Units))
    ensures |r.0| + |r.1| == |t|
  {
    if t == [] || t[0] == 0x0A then ([], t)
    else
      var (line, rest) := FirstLine(t[1..]);
      ([t[0]] + line, rest)
  }

  /** Lines, each ended by a newline. */
  function DecodeLines(t: Units): Option<seq<Entry>>
    decreases |t|
  {
    if t == [] then Some([])
    else
      var (line, rest) := FirstLine(t);
      if rest == [] then None
      else
        var entry, others := DecodeLine(line), DecodeLines(rest[1..]);
        if entry.Some? && others.Some? then Some([entry.value] + others.value) else None
  }

  function DecodeFile(t: Units): Option<seq<Entry>> {
    if t == [0x0A] then Some([]) else DecodeLines(t)
  }
}
