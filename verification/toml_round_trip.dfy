/** The printer is uniquely decodable, value by value and for the whole file. */
module TomlRoundTrip {
  import opened Wrappers
  import opened TomlDecoder
  import opened TomlPrinter
  import opened TomlValue

  // ---- Numbers ----

  lemma {:induction false} DigitsRoundTrip(n: nat, rest: Units)
    ensures DecodeDigits(Decimal(n) + rest, 0) == DecodeDigits(rest, n)
  {
    if n < 10 {
      assert (Decimal(n) + rest)[1..] == rest;
    } else {
      var digit: Units := [ZERO + n % 10];
      assert Decimal(n) + rest == Decimal(n / 10) + (digit + rest);
      DigitsRoundTrip(n / 10, digit + rest);
      assert (digit + rest)[1..] == rest;
    }
  }

  /** The next unit cannot continue a number: the end of the text or any delimiter. */
  predicate Delimited(rest: Units) {
    rest == [] || !IsDigitUnit(rest[0])
  }

  // ---- Strings ----

  lemma NibblesRecompose(u: nat)
    requires u < 0x1_0000
    ensures u / 0x1000 < 16
    ensures u / 0x1000 * 0x1000 + u / 0x100 % 16 * 0x100 + u / 16 % 16 * 16 + u % 16 == u
  {
    var a, b, c := u / 16, u / 0x100, u / 0x1000;
    assert b == a / 16 && c == b / 16;
  }

  lemma HexDigitRoundTrip(n: nat)
    requires n < 16
    ensures HexValue(HexDigit(n)) == Some(n) && HexDigit(n) != LF
  {
  }

  lemma HexRoundTrip(u: CodeUnit)
    ensures FourHex(UnicodeEscape(u)[2..]) == Some(u)
    ensures LF !in UnicodeEscape(u)
  {
    NibblesRecompose(u);
    HexDigitRoundTrip(u / 0x1000);
    HexDigitRoundTrip(u / 0x100 % 16);
    HexDigitRoundTrip(u / 16 % 16);
    HexDigitRoundTrip(u % 16);
  }

  lemma UnicodeEscapeRoundTrip(u: CodeUnit, tail: Units)
    requires NeedsUnicodeEscape(u)
    ensures DecodeText(UnicodeEscape(u) + tail) == PrependEscaped(u, DecodeText(tail))
  {
    HexRoundTrip(u);
    var escape := UnicodeEscape(u);
    SixUnits(escape, tail);
    DecodeUnicodeEscape(escape + tail, u);
  }

  lemma SixUnits(escape: Units, tail: Units)
    requires |escape| == 6
    ensures var t := escape + tail;
            t[0] == escape[0] && t[1] == escape[1] && t[2..6] == escape[2..] && t[6..] == tail
  {
  }

  lemma DecodeUnicodeEscape(t: Units, u: CodeUnit)
    requires |t| >= 6 && t[0] == 0x5C && t[1] == 0x75 && FourHex(t[2..6]) == Some(u) && NeedsUnicodeEscape(u)
    ensures DecodeText(t) == PrependEscaped(u, DecodeText(t[6..]))
  {
  }

  lemma ShortEscapeRoundTrip(u: CodeUnit, tail: Units)
    requires ShortEscape(u).Some?
    ensures DecodeText([BACKSLASH, ShortEscape(u).value] + tail) == Prepend(u, DecodeText(tail))
  {
    var t := [BACKSLASH, ShortEscape(u).value] + tail;
    assert t[2..] == tail;
    assert ShortUnescape(ShortEscape(u).value) == Some(u);
  }

  lemma PlainRoundTrip(u: CodeUnit, tail: Units)
    requires u >= 0x20 && u != 0x22 && u != 0x5C && !IsLead(u) && !IsTrail(u)
    ensures DecodeText([u] + tail) == Prepend(u, DecodeText(tail))
  {
    assert ([u] + tail)[1..] == tail;
  }

  lemma PairRoundTrip(lead: CodeUnit, trail: CodeUnit, tail: Units)
    requires IsLead(lead) && IsTrail(trail)
    ensures DecodeText([lead, trail] + tail) == Prepend(lead, Prepend(trail, DecodeText(tail)))
  {
    var t := [lead, trail] + tail;
    assert t[0] == lead && t[1] == trail && t[2..] == tail;
  }

  /** One unit that does not begin a surrogate pair, whatever it is escaped as. */
  lemma EscapeRoundTrip(u: CodeUnit, tail: Units, next: (Units, Units))
    requires DecodeText(tail) == Some(next) && !(IsLead(u) && next.0 != [] && IsTrail(next.0[0]))
    ensures DecodeText(EscapeUnit(u) + tail) == Some(([u] + next.0, next.1))
  {
    if ShortEscape(u).Some? {
      ShortEscapeRoundTrip(u, tail);
    } else if u < SPACE || IsLeadSurrogate(u) || IsTrailSurrogate(u) {
      UnicodeEscapeRoundTrip(u, tail);
    } else {
      PlainRoundTrip(u, tail);
    }
  }

  lemma {:induction false} TextRoundTrip(s: Units, rest: Units)
    ensures DecodeText(Escaped(s) + [QUOTE] + rest) == Some((s, rest))
  {
    var t := Escaped(s) + [QUOTE] + rest;
    if s == [] {
      assert t[1..] == rest;
    } else if |s| > 1 && IsLeadSurrogate(s[0]) && IsTrailSurrogate(s[1]) {
      TextRoundTrip(s[2..], rest);
      var tail := Escaped(s[2..]) + [QUOTE] + rest;
      assert t == [s[0], s[1]] + tail;
      PairRoundTrip(s[0], s[1], tail);
      assert [s[0]] + ([s[1]] + s[2..]) == s;
    } else {
      TextRoundTrip(s[1..], rest);
      var tail := Escaped(s[1..]) + [QUOTE] + rest;
      assert t == EscapeUnit(s[0]) + tail;
      EscapeRoundTrip(s[0], tail, (s[1..], rest));
      assert [s[0]] + s[1..] == s;
    }
  }

  lemma EscapeHasNoNewline(u: CodeUnit)
    ensures LF !in EscapeUnit(u)
  {
    HexRoundTrip(u);
  }

  lemma {:induction false} EscapedHasNoNewline(s: Units)
    ensures LF !in Escaped(s)
  {
    if |s| > 1 && IsLeadSurrogate(s[0]) && IsTrailSurrogate(s[1]) {
      EscapedHasNoNewline(s[2..]);
    } else if s != [] {
      EscapeHasNoNewline(s[0]);
      EscapedHasNoNewline(s[1..]);
    }
  }

  // ---- Keys ----

  lemma {:induction false} KeyRoundTrip(key: Units, rest: Units)
    requires forall u | u in key :: IsBare(u)
    requires rest == [] || !IsBare(rest[0])
    ensures DecodeKey(key + rest) == (key, rest)
  {
    if key == [] {
      assert key + rest == rest;
    } else {
      assert (key + rest)[1..] == key[1..] + rest && key == [key[0]] + key[1..];
      KeyRoundTrip(key[1..], rest);
    }
  }

  // ---- Values ----

  lemma FirstOfValue(value: Value)
    requires Toml(value).Ok?
    ensures Toml(value).value != []
    ensures Toml(value).value[0] !in {CLOSE, CLOSE_BRACE, COMMA, LF}
  {
    if value.Number? {
      assert value.n >= 0 ==> Decimal(value.n)[0] in Decimal(value.n);
    }
  }

  /** The decoder recovers every printed value from its text followed by any delimiter. */
  lemma {:induction false} ValueRoundTrip(value: Value, rest: Units)
    requires Toml(value).Ok? && BareKeys(value) && Delimited(rest)
    ensures DecodeValue(Toml(value).value + rest) == Some((value, rest))
    decreases value, 1
  {
    match value
    case Bool(b) => BoolRoundTrip(b, rest);
    case Number(n) => NumberRoundTrip(n, rest);
    case Text(s) =>
      var t := Toml(value).value + rest;
      assert t[0] == QUOTE && t[1..] == Escaped(s) + [QUOTE] + rest;
      TextRoundTrip(s, rest);
    case Array(items) => ArrayRoundTrip(items, rest);
    case Table(entries) => TableRoundTrip(entries, rest);
  }

  lemma BoolRoundTrip(b: bool, rest: Units)
    ensures DecodeValue(Toml(Bool(b)).value + rest) == Some((Bool(b), rest))
  {
    var text := if b then TRUE else FALSE;
    var t := text + rest;
    assert t[..|text|] == text && t[|text|..] == rest && t[0] == text[0];
  }

  lemma {:induction false} ArrayRoundTrip(items: seq<Value>, rest: Units)
    requires Toml(Array(items)).Ok? && forall v | v in items :: BareKeys(v)
    ensures DecodeValue(Toml(Array(items)).value + rest) == Some((Array(items), rest))
    decreases items, 1
  {
    var parts := TomlItems(items).value;
    var t := Toml(Array(items)).value + rest;
    assert t[0] == OPEN && t[1..] == Join(parts, COMMA) + [CLOSE] + rest;
    if items == [] {
      assert t[1] == CLOSE && t[2..] == rest;
    } else {
      ItemsRoundTrip(items, rest);
      ItemsHead(items);
      FirstOfValue(items[0]);
      assert t[1] == Join(parts, COMMA)[0] == parts[0][0];
    }
  }

  lemma JoinHead(parts: seq<Units>)
    requires parts != [] && parts[0] != []
    ensures Join(parts, COMMA) != [] && Join(parts, COMMA)[0] == parts[0][0]
  {
  }

  lemma DecodeTable(t: Units, entries: seq<Entry>, rest: Units)
    requires |t| > 1 && t[0] == OPEN_BRACE && t[1] != CLOSE_BRACE
    requires DecodeEntries(t[1..]) == Some((entries, rest))
    ensures DecodeValue(t) == Some((Table(entries), rest))
  {
  }

  lemma {:induction false} TableRoundTrip(entries: seq<Entry>, rest: Units)
    requires Toml(Table(entries)).Ok? && EntriesBare(entries)
    ensures DecodeValue(Toml(Table(entries)).value + rest) == Some((Table(entries), rest))
    decreases entries, 1
  {
    var parts := TomlEntries(entries, [EQUALS]).value;
    var t := Toml(Table(entries)).value + rest;
    assert t[0] == OPEN_BRACE && t[1..] == Join(parts, COMMA) + [CLOSE_BRACE] + rest;
    if entries == [] {
      assert t[1] == CLOSE_BRACE && t[2..] == rest;
    } else {
      EntriesRoundTrip(entries, rest);
      EntriesHead(entries, [EQUALS]);
      assert entries[0] in entries && entries[0].key[0] in entries[0].key;
      JoinHead(parts);
      DecodeTable(t, entries, rest);
    }
  }

  lemma ItemsHead(items: seq<Value>)
    requires items != [] && TomlItems(items).Ok?
    ensures Toml(items[0]).Ok? && TomlItems(items[1..]).Ok?
    ensures TomlItems(items).value == [Toml(items[0]).value] + TomlItems(items[1..]).value
  {
  }

  lemma EntriesHead(entries: seq<Entry>, infix: Units)
    requires entries != [] && TomlEntries(entries, infix).Ok?
    ensures Toml(entries[0].value).Ok? && TomlEntries(entries[1..], infix).Ok?
    ensures TomlEntries(entries, infix).value ==
            [entries[0].key + infix + Toml(entries[0].value).value] + TomlEntries(entries[1..], infix).value
  {
  }

  lemma {:induction false} NoLeadingZero(n: nat)
    ensures Decimal(n)[0] == 0x30 <==> n == 0
    ensures n == 0 ==> Decimal(n) == [0x30]
    decreases n
  {
    if n >= 10 {
      NoLeadingZero(n / 10);
    }
  }

  lemma NumberRoundTrip(n: int, rest: Units)
    requires Toml(Number(n)).Ok? && Delimited(rest)
    ensures DecodeValue(Toml(Number(n)).value + rest) == Some((Number(n), rest))
  {
    var t := Toml(Number(n)).value + rest;
    if n < 0 {
      assert t[1..] == Decimal(-n) + rest;
      NoLeadingZero(-n);
      DigitsRoundTrip(-n, rest);
      assert Decimal(-n)[0] in Decimal(-n);
    } else {
      DigitsRoundTrip(n, rest);
      NoLeadingZero(n);
      assert Decimal(n)[0] in Decimal(n);
    }
  }

  /** The text after the first part: the closing bracket, or a comma and the other parts. */
  function Remainder(parts: seq<Units>, close: CodeUnit, rest: Units): Units
    requires parts != []
  {
    if |parts| == 1 then [close] + rest else [COMMA] + (Join(parts[1..], COMMA) + [close] + rest)
  }

  lemma JoinSplit(parts: seq<Units>, close: CodeUnit, rest: Units)
    requires parts != []
    ensures Join(parts, COMMA) + [close] + rest == parts[0] + Remainder(parts, close, rest)
    ensures Remainder(parts, close, rest)[1..] ==
            if |parts| == 1 then rest else Join(parts[1..], COMMA) + [close] + rest
  {
    if |parts| == 1 {
      Associate(parts[0], [close], rest);
    } else {
      var others := Join(parts[1..], COMMA);
      Associate(parts[0] + [COMMA], others, [close]);
      Associate(parts[0] + [COMMA], others + [close], rest);
      Associate(parts[0], [COMMA], others + [close] + rest);
    }
  }

  lemma Associate(a: Units, b: Units, c: Units)
    ensures (a + b) + c == a + (b + c)
  {
  }

  /** How the item decoder puts one decoded value before the others. */
  lemma DecodeItemsCons(t: Units, v: Value, tail: Units)
    requires tail != [] && DecodeValue(t) == Some((v, tail))
    ensures tail[0] == CLOSE ==> DecodeItems(t) == Some(([v], tail[1..]))
    ensures tail[0] == COMMA && DecodeItems(tail[1..]).Some? ==>
              var others := DecodeItems(tail[1..]).value; DecodeItems(t) == Some(([v] + others.0, others.1))
  {
  }

  lemma {:induction false} ItemsRoundTrip(items: seq<Value>, rest: Units)
    requires items != [] && TomlItems(items).Ok? && forall v | v in items :: BareKeys(v)
    ensures DecodeItems(Join(TomlItems(items).value, COMMA) + [CLOSE] + rest) == Some((items, rest))
    decreases items, 0
  {
    var parts := TomlItems(items).value;
    var tail := Remainder(parts, CLOSE, rest);
    ItemsHead(items);
    JoinSplit(parts, CLOSE, rest);
    ValueRoundTrip(items[0], tail);
    DecodeItemsCons(parts[0] + tail, items[0], tail);
    if |items| == 1 {
      assert items == [items[0]];
    } else {
      ItemsRoundTrip(items[1..], rest);
      assert parts[1..] == TomlItems(items[1..]).value;
      assert items == [items[0]] + items[1..];
    }
  }

  /** One entry of a table, whatever follows its value. */
  lemma EntryText(e: Entry, text: Units, tail: Units)
    requires IsBareKey(e.key) && DecodeValue(text) == Some((e.value, tail))
    ensures DecodeKey(e.key + [EQUALS] + text) == (e.key, [EQUALS] + text)
    ensures DecodeValue(([EQUALS] + text)[1..]) == Some((e.value, tail))
  {
    assert e.key + [EQUALS] + text == e.key + ([EQUALS] + text);
    KeyRoundTrip(e.key, [EQUALS] + text);
    assert ([EQUALS] + text)[1..] == text;
  }

  /** How the entry decoder puts one decoded entry before the others. */
  lemma DecodeEntriesCons(t: Units, e: Entry, text: Units, tail: Units)
    requires e.key != [] && tail != [] && DecodeKey(t) == (e.key, [EQUALS] + text)
    requires DecodeValue(([EQUALS] + text)[1..]) == Some((e.value, tail))
    ensures tail[0] == CLOSE_BRACE ==> DecodeEntries(t) == Some(([e], tail[1..]))
    ensures tail[0] == COMMA && DecodeEntries(tail[1..]).Some? ==>
              var others := DecodeEntries(tail[1..]).value; DecodeEntries(t) == Some(([e] + others.0, others.1))
  {
  }

  lemma PrintedEntryCons(e: Entry, value: Units, tail: Units)
    requires IsBareKey(e.key) && tail != [] && DecodeValue(value + tail) == Some((e.value, tail))
    ensures var t := (e.key + [EQUALS] + value) + tail;
            && (tail[0] == CLOSE_BRACE ==> DecodeEntries(t) == Some(([e], tail[1..])))
            && (tail[0] == COMMA && DecodeEntries(tail[1..]).Some? ==>
                  var others := DecodeEntries(tail[1..]).value; DecodeEntries(t) == Some(([e] + others.0, others.1)))
  {
    Associate(e.key + [EQUALS], value, tail);
    EntryText(e, value + tail, tail);
    DecodeEntriesCons((e.key + [EQUALS] + value) + tail, e, value + tail, tail);
  }

  lemma {:induction false} EntriesRoundTrip(entries: seq<Entry>, rest: Units)
    requires entries != [] && TomlEntries(entries, [EQUALS]).Ok? && EntriesBare(entries)
    ensures DecodeEntries(Join(TomlEntries(entries, [EQUALS]).value, COMMA) + [CLOSE_BRACE] + rest) == Some((entries, rest))
    decreases entries, 0
  {
    var parts := TomlEntries(entries, [EQUALS]).value;
    var tail := Remainder(parts, CLOSE_BRACE, rest);
    var e := entries[0];
    assert e in entries;
    EntriesHead(entries, [EQUALS]);
    JoinSplit(parts, CLOSE_BRACE, rest);
    ValueRoundTrip(e.value, tail);
    PrintedEntryCons(e, Toml(e.value).value, tail);
    if |entries| == 1 {
      assert entries == [e];
    } else {
      EntriesRoundTrip(entries[1..], rest);
      assert parts[1..] == TomlEntries(entries[1..], [EQUALS]).value;
      assert entries == [e] + entries[1..];
    }
  }

  /** Two printable values with the same text are the same value. */
  lemma TomlInjective(v: Value, w: Value)
    requires Toml(v).Ok? && BareKeys(v) && BareKeys(w) && Toml(w) == Toml(v)
    ensures v == w
  {
    ValueRoundTrip(v, []);
    ValueRoundTrip(w, []);
  }

  // ---- Lines of the file ----

  lemma {:induction false} DecimalHasNoNewline(n: nat)
    ensures LF !in Decimal(n)
  {
    assert forall u | u in Decimal(n) :: IsDigitUnit(u);
  }

  lemma {:induction false} JoinHasNoNewline(parts: seq<Units>, separator: CodeUnit)
    requires separator != LF && forall p | p in parts :: LF !in p
    ensures LF !in Join(parts, separator)
  {
    if |parts| > 1 {
      JoinHasNoNewline(parts[1..], separator);
    }
  }

  /** No printed value contains a newline. */
  lemma {:induction false} NoNewline(value: Value)
    requires Toml(value).Ok? && BareKeys(value)
    ensures LF !in Toml(value).value
    decreases value, 1
  {
    match value
    case Bool(_) =>
    case Number(n) => DecimalHasNoNewline(if n < 0 then -n else n);
    case Text(s) => EscapedHasNoNewline(s);
    case Array(items) =>
      ItemsHaveNoNewline(items);
      JoinHasNoNewline(TomlItems(items).value, COMMA);
    case Table(entries) =>
      EntriesHaveNoNewline(entries, [EQUALS]);
      JoinHasNoNewline(TomlEntries(entries, [EQUALS]).value, COMMA);
  }

  lemma {:induction false} ItemsHaveNoNewline(items: seq<Value>)
    requires TomlItems(items).Ok? && forall v | v in items :: BareKeys(v)
    ensures forall p | p in TomlItems(items).value :: LF !in p
    decreases items, 0
  {
    if items != [] {
      assert items[0] in items;
      NoNewline(items[0]);
      ItemsHaveNoNewline(items[1..]);
    }
  }

  lemma {:induction false} EntriesHaveNoNewline(entries: seq<Entry>, infix: Units)
    requires TomlEntries(entries, infix).Ok? && EntriesBare(entries) && LF !in infix
    ensures forall p | p in TomlEntries(entries, infix).value :: LF !in p
    decreases entries, 0
  {
    if entries != [] {
      assert entries[0] in entries;
      NoNewline(entries[0].value);
      EntriesHaveNoNewline(entries[1..], infix);
    }
  }

  lemma LineRoundTrip(e: Entry)
    requires Toml(e.value).Ok? && IsBareKey(e.key) && BareKeys(e.value)
    ensures DecodeLine(e.key + SPACED_EQUALS + Toml(e.value).value) == Some(e)
  {
    var text := Toml(e.value).value;
    var rest := SPACED_EQUALS + text;
    assert e.key + SPACED_EQUALS + text == e.key + rest;
    KeyRoundTrip(e.key, rest);
    assert rest[3..] == text + [];
    ValueRoundTrip(e.value, []);
  }

  lemma {:induction false} FirstLineRoundTrip(line: Units, rest: Units)
    requires LF !in line
    ensures FirstLine(line + [LF] + rest) == (line, [LF] + rest)
  {
    if line == [] {
      assert line + [LF] + rest == [LF] + rest;
    } else {
      assert (line + [LF] + rest)[1..] == line[1..] + [LF] + rest && line == [line[0]] + line[1..];
      FirstLineRoundTrip(line[1..], rest);
    }
  }

  lemma DecodeLinesCons(line: Units, tail: Units)
    requires LF !in line && DecodeLine(line).Some? && DecodeLines(tail).Some?
    ensures DecodeLines(line + [LF] + tail) == Some([DecodeLine(line).value] + DecodeLines(tail).value)
  {
    FirstLineRoundTrip(line, tail);
    assert ([LF] + tail)[1..] == tail;
  }

  /** The text after the first line's newline. */
  function OtherLines(lines: seq<Units>): Units
    requires lines != []
  {
    if |lines| == 1 then [] else Join(lines[1..], LF) + [LF]
  }

  lemma LinesSplit(lines: seq<Units>)
    requires lines != []
    ensures Join(lines, LF) + [LF] == lines[0] + [LF] + OtherLines(lines)
  {
    if |lines| > 1 {
      Associate(lines[0] + [LF], Join(lines[1..], LF), [LF]);
    } else {
      assert lines[0] + [LF] + [] == lines[0] + [LF];
    }
  }

  lemma {:induction false} LinesRoundTrip(prover: seq<Entry>, lines: seq<Units>)
    requires prover != [] && TomlEntries(prover, SPACED_EQUALS) == Ok(lines) && EntriesBare(prover)
    ensures lines != [] && DecodeLines(Join(lines, LF) + [LF]) == Some(prover)
  {
    FirstLineOfFile(prover);
    if |prover| > 1 {
      LinesRoundTrip(prover[1..], lines[1..]);
    }
    LinesCons(prover, lines);
  }

  lemma LinesCons(prover: seq<Entry>, lines: seq<Units>)
    requires prover != [] && |lines| == |prover| && LF !in lines[0] && DecodeLine(lines[0]) == Some(prover[0])
    requires DecodeLines(OtherLines(lines)) == Some(prover[1..])
    ensures DecodeLines(Join(lines, LF) + [LF]) == Some(prover)
  {
    LinesSplit(lines);
    DecodeLinesCons(lines[0], OtherLines(lines));
    assert prover == [prover[0]] + prover[1..];
  }

  lemma FirstLineOfFile(prover: seq<Entry>)
    requires prover != [] && TomlEntries(prover, SPACED_EQUALS).Ok? && EntriesBare(prover)
    ensures var lines := TomlEntries(prover, SPACED_EQUALS).value;
            && LF !in lines[0] && DecodeLine(lines[0]) == Some(prover[0])
            && TomlEntries(prover[1..], SPACED_EQUALS) == Ok(lines[1..])
  {
    EntriesHead(prover, SPACED_EQUALS);
    assert prover[0] in prover;
    NoNewline(prover[0].value);
    LineRoundTrip(prover[0]);
  }

  /** The written file determines the ordered key and value list it was written from. */
  lemma FileRoundTrip(prover: seq<Entry>)
    requires Serialize(prover).Ok? && EntriesBare(prover)
    ensures DecodeFile(Serialize(prover).value) == Some(prover)
  {
    if prover != [] {
      LinesRoundTrip(prover, TomlEntries(prover, SPACED_EQUALS).value);
      assert prover[0] in prover;
      var lines := TomlEntries(prover, SPACED_EQUALS).value;
      assert Serialize(prover).value[0] == lines[0][0] == prover[0].key[0];
      assert prover[0].key[0] in prover[0].key;
    }
  }

  lemma FileInjective(p: seq<Entry>, q: seq<Entry>)
    requires Serialize(p).Ok? && EntriesBare(p) && EntriesBare(q) && Serialize(q) == Serialize(p)
    ensures p == q
  {
    FileRoundTrip(p);
    FileRoundTrip(q);
  }

  // ---- What the printer refuses, and where bare keys are needed ----

  predicate Printable(value: Value)
    decreases value, 1
  {
    match value
    case Number(n) => -9_007_199_254_740_991 <= n <= 9_007_199_254_740_991
    case Array(items) => forall v | v in items :: Printable(v)
    case Table(entries) => forall e | e in entries :: Printable(e.value)
    case Unprintable => false
    case _ => true
  }

  /** It throws exactly when some nested value is unsupported, however deep. */
  lemma {:induction false} PrintsExactlyPrintable(value: Value)
    ensures Toml(value).Ok? <==> Printable(value)
    decreases value, 1
  {
    match value
    case Array(items) => ItemsPrint(items);
    case Table(entries) => EntriesPrint(entries, [EQUALS]);
    case _ =>
  }

  lemma {:induction false} ItemsPrint(items: seq<Value>)
    ensures TomlItems(items).Ok? <==> forall v | v in items :: Printable(v)
    decreases items, 0
  {
    if items != [] {
      PrintsExactlyPrintable(items[0]);
      ItemsPrint(items[1..]);
      assert items == [items[0]] + items[1..];
    }
  }

  lemma {:induction false} EntriesPrint(entries: seq<Entry>, infix: Units)
    ensures TomlEntries(entries, infix).Ok? <==> forall e | e in entries :: Printable(e.value)
    decreases entries, 0
  {
    if entries != [] {
      PrintsExactlyPrintable(entries[0].value);
      EntriesPrint(entries[1..], infix);
      assert entries == [entries[0]] + entries[1..];
    }
  }

  /** Keys are printed raw, so without bare keys two different tables can print alike:
      {a=1,b=2} is the text of both {"a": 1, "b": 2} and {"a=1,b": 2}. */
  lemma RawKeysCollide() returns (v: Value, w: Value)
    ensures v != w && Toml(v).Ok? && Toml(w) == Toml(v)
  {
    v := Table([Entry([0x61], Number(1)), Entry([0x62], Number(2))]);
    w := Table([Entry([0x61, EQUALS, 0x31, COMMA, 0x62], Number(2))]);
    var one: Units, two: Units := [0x31], [0x32];
    assert Decimal(1) == one && Decimal(2) == two;
    EntriesText(v.entries[1..], [0x62], two);
    EntriesText(w.entries, [0x61, EQUALS, 0x31, COMMA, 0x62], two);
    EntriesHead(v.entries, [EQUALS]);
    assert [0x61] + [EQUALS] + one == [0x61, EQUALS, 0x31] && [0x62] + [EQUALS] + two == [0x62, EQUALS, 0x32];
    var parts: seq<Units> := [[0x61, EQUALS, 0x31], [0x62, EQUALS, 0x32]];
    assert TomlEntries(v.entries, [EQUALS]).value == parts;
    assert parts[1..] == [parts[1]];
    assert Join(parts, COMMA) == [0x61, EQUALS, 0x31, COMMA, 0x62] + [EQUALS] + two;
  }

  lemma EntriesText(entries: seq<Entry>, key: Units, text: Units)
    requires |entries| == 1 && entries[0].key == key && Toml(entries[0].value) == Ok(text)
    ensures TomlEntries(entries, [EQUALS]) == Ok([key + [EQUALS] + text])
  {
    assert entries[1..] == [];
    assert [key + [EQUALS] + text] + [] == [key + [EQUALS] + text];
  }
}
