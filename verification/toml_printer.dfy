/** The witness printer: a recursive TOML printer over UTF-16 text. */
module TomlPrinter {
  import opened TomlValue
  import opened Wrappers

  const LF: CodeUnit := 10
  const SPACE: CodeUnit := 0x20
  const QUOTE: CodeUnit := 0x22
  const COMMA: CodeUnit := 0x2C
  const MINUS: CodeUnit := 0x2D
  const ZERO: CodeUnit := 0x30
  const EQUALS: CodeUnit := 0x3D
  const OPEN: CodeUnit := 0x5B
  const BACKSLASH: CodeUnit := 0x5C
  const CLOSE: CodeUnit := 0x5D
  const OPEN_BRACE: CodeUnit := 0x7B
  const CLOSE_BRACE: CodeUnit := 0x7D
  const TRUE: Units := [0x74, 0x72, 0x75, 0x65]
  const FALSE: Units := [0x66, 0x61, 0x6C, 0x73, 0x65]
  const MAX_SAFE_INTEGER := 0x1F_FFFF_FFFF_FFFF

  // ---- Printing ----

  function Decimal(n: nat): (text: Units)
    ensures text != [] && forall u | u in text :: ZERO <= u <= 0x39
  {
    if n < 10 then [ZERO + n] else Decimal(n / 10) + [ZERO + n % 10]
  }

  function HexDigit(n: nat): CodeUnit
    requires n < 16
  {
    if n < 10 then ZERO + n else 0x61 + n - 10
  }

  predicate IsLeadSurrogate(u: CodeUnit) {
    0xD800 <= u <= 0xDBFF
  }

  predicate IsTrailSurrogate(u: CodeUnit) {
    0xDC00 <= u <= 0xDFFF
  }

  function UnicodeEscape(u: CodeUnit): Units {
    [BACKSLASH, 0x75, HexDigit(u / 0x1000), HexDigit(u / 0x100 % 16), HexDigit(u / 16 % 16), HexDigit(u % 16)]
  }

  /** The letter that follows the backslash in a short escape. */
  function ShortEscape(u: CodeUnit): Option<CodeUnit> {
    if u == 8 then Some(0x62) else if u == 9 then Some(0x74) else if u == 10 then Some(0x6E)
    else if u == 12 then Some(0x66) else if u == 13 then Some(0x72)
    else if u == QUOTE || u == BACKSLASH then Some(u) else None
  }

  function EscapeUnit(u: CodeUnit): Units {
    if ShortEscape(u).Some? then [BACKSLASH, ShortEscape(u).value]
    else if u < SPACE || IsLeadSurrogate(u) || IsTrailSurrogate(u) then UnicodeEscape(u)
    else [u]
  }

  /** JSON.stringify of a string, between the quotes: surrogate pairs stay, lone ones are escaped. */
  function Escaped(s: Units): Units {
    if s == [] then []
    else if |s| > 1 && IsLeadSurrogate(s[0]) && IsTrailSurrogate(s[1]) then [s[0], s[1]] + Escaped(s[2..])
    else EscapeUnit(s[0]) + Escaped(s[1..])
  }

  function Join(parts: seq<Units>, separator: CodeUnit): Units {
    if parts == [] then []
    else if |parts| == 1 then parts[0]
    else parts[0] + [separator] + Join(parts[1..], separator)
  }

  function Toml(value: Value): Result<Units, string>
    decreases value, 1
  {
    match value
    case Bool(b) => Ok(if b then TRUE else FALSE)
    case Number(n) =>
      if -MAX_SAFE_INTEGER <= n <= MAX_SAFE_INTEGER
      then Ok(if n < 0 then [MINUS] + Decimal(-n) else Decimal(n))
      else Err("Unsupported TOML value")
    case Text(s) => Ok([QUOTE] + Escaped(s) + [QUOTE])
    case Array(items) =>
      var parts :- TomlItems(items);
      Ok([OPEN] + Join(parts, COMMA) + [CLOSE])
    case Table(entries) =>
      var parts :- TomlEntries(entries, [EQUALS]);
      Ok([OPEN_BRACE] + Join(parts, COMMA) + [CLOSE_BRACE])
    case Unprintable => Err("Unsupported TOML value")
  }

  function TomlItems(items: seq<Value>): (r: Result<seq<Units>, string>)
    ensures r.Ok? ==> |r.value| == |items|
    decreases items, 0
  {
    if items == [] then Ok([])
    else
      var first :- Toml(items[0]);
      var rest :- TomlItems(items[1..]);
      Ok([first] + rest)
  }

  /** Each entry as key, `infix`, value: "=" inside a table, " = " on a line of the file. */
  function TomlEntries(entries: seq<Entry>, infix: Units): (r: Result<seq<Units>, string>)
    ensures r.Ok? ==> |r.value| == |entries|
    decreases entries, 0
  {
    if entries == [] then Ok([])
    else
      var first :- Toml(entries[0].value);
      var rest :- TomlEntries(entries[1..], infix);
      Ok([entries[0].key + infix + first] + rest)
  }

  const SPACED_EQUALS: Units := [SPACE, EQUALS, SPACE]

  function Serialize(prover: seq<Entry>): Result<Units, string> {
    var lines :- TomlEntries(prover, SPACED_EQUALS);
    Ok(Join(lines, LF) + [LF])
  }
}
