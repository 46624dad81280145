/** The wallet API version order: dotted numbers, zero padded, with suffixes dropped. */
module Versions {
  import opened Text

  const MINIMUM_STRK20 := "0.10.3"

  /** The white space that parseInt skips. */
  predicate IsSpace(c: char) {
    || c in {' ', '\t', '\n', '\r', '\U{0B}', '\U{0C}', '\U{A0}', '\U{1680}', '\U{2028}', '\U{2029}'}
    || c in {'\U{202F}', '\U{205F}', '\U{3000}', '\U{FEFF}'} || '\U{2000}' <= c <= '\U{200A}'
  }

  function Before(text: string, stop: char): (head: string)
    ensures stop !in head && head <= text
    ensures head == text || text[|head|] == stop
  {
    if text == "" || text[0] == stop then "" else [text[0]] + Before(text[1..], stop)
  }

  function SplitDots(text: string): (parts: seq<string>)
    ensures parts != []
    decreases |text|
  {
    var head := Before(text, '.');
    if head == text then [text] else [head] + SplitDots(text[|head| + 1..])
  }

  function LeadingDigits(text: string, value: nat): nat {
    if text == "" || !IsDigit(text[0]) then value
    else LeadingDigits(text[1..], 10 * value + (text[0] as int - '0' as int))
  }

  /** `Number.parseInt(part, 10) || 0`: no digits at all is zero. */
  function ParsePart(part: string): int {
    if part == "" then 0
    else if IsSpace(part[0]) then ParsePart(part[1..])
    else if part[0] == '-' then 0 - LeadingDigits(part[1..], 0)
    else if part[0] == '+' then LeadingDigits(part[1..], 0)
    else LeadingDigits(part, 0)
  }

  function ParseParts(parts: seq<string>): (numbers: seq<int>)
    ensures |numbers| == |parts|
  {
    if parts == [] then [] else [ParsePart(parts[0])] + ParseParts(parts[1..])
  }

  function VersionParts(version: string): seq<int> {
    ParseParts(SplitDots(Before(version, '-')))
  }

  lemma {:induction false} PartWithoutDash(part: string)
    requires '-' !in part
    ensures ParsePart(part) >= 0
  {
    if part != "" && IsSpace(part[0]) {
      PartWithoutDash(part[1..]);
    }
  }

  lemma {:induction false} ParsedWithoutDash(parts: seq<string>)
    requires forall i | 0 <= i < |parts| :: '-' !in parts[i]
    ensures forall i | 0 <= i < |parts| :: ParseParts(parts)[i] >= 0
  {
    if parts != [] {
      PartWithoutDash(parts[0]);
      ParsedWithoutDash(parts[1..]);
    }
  }

  lemma {:induction false} SplitWithoutDash(text: string)
    requires '-' !in text
    ensures forall i | 0 <= i < |SplitDots(text)| :: '-' !in SplitDots(text)[i]
    decreases |text|
  {
    var head := Before(text, '.');
    if head != text {
      SplitWithoutDash(text[|head| + 1..]);
    }
  }

  /** The cut at the first '-' leaves no sign to parse, so no part is negative. */
  lemma PartsNeverNegative(version: string)
    ensures VersionParts(version) != []
    ensures forall i | 0 <= i < |VersionParts(version)| :: VersionParts(version)[i] >= 0
  {
    SplitWithoutDash(Before(version, '-'));
    ParsedWithoutDash(SplitDots(Before(version, '-')));
  }

  lemma {:induction false} BeforeIgnoresSuffix(version: string, suffix: string, stop: char)
    ensures Before(version + [stop] + suffix, stop) == Before(version, stop)
  {
    var whole := version + [stop] + suffix;
    if version == "" || version[0] == stop {
      assert whole[0] == stop;
    } else {
      assert whole[1..] == version[1..] + [stop] + suffix;
      BeforeIgnoresSuffix(version[1..], suffix, stop);
    }
  }

  // ---- Reading back a printed version ----

  function LastDigit(n: nat): (c: char)
    ensures IsDigit(c) && c as int - '0' as int == n % 10
  {
    ('0' as int + n % 10) as char
  }

  function Digits(n: nat): (text: string)
    ensures text != "" && forall i | 0 <= i < |text| :: IsDigit(text[i])
  {
    if n < 10 then [LastDigit(n)] else Digits(n / 10) + [LastDigit(n)]
  }

  function Dotted(numbers: seq<nat>): string
    requires numbers != []
  {
    if |numbers| == 1 then Digits(numbers[0]) else Digits(numbers[0]) + "." + Dotted(numbers[1..])
  }

  lemma LastDigitRead(n: nat, rest: string)
    ensures LeadingDigits([LastDigit(n)] + rest, n / 10) == LeadingDigits(rest, n)
  {
    var text := [LastDigit(n)] + rest;
    assert text[0] == LastDigit(n) && text[1..] == rest;
    assert 10 * (n / 10) + n % 10 == n;
  }

  lemma {:induction false} DigitsRead(n: nat, rest: string)
    ensures LeadingDigits(Digits(n) + rest, 0) == LeadingDigits(rest, n)
    decreases n
  {
    LastDigitRead(n, rest);
    if n >= 10 {
      var tail := [LastDigit(n)] + rest;
      assert Digits(n) + rest == Digits(n / 10) + tail;
      DigitsRead(n / 10, tail);
    }
  }

  lemma {:induction false} BeforeStops(head: string, stop: char, rest: string)
    requires stop !in head && (rest == "" || rest[0] == stop)
    ensures Before(head + rest, stop) == head
  {
    if head == "" {
      assert head + rest == rest;
    } else {
      assert (head + rest)[1..] == head[1..] + rest;
      BeforeStops(head[1..], stop, rest);
    }
  }

  lemma PartRead(n: nat)
    ensures ParsePart(Digits(n)) == n
  {
    DigitsRead(n, "");
    assert Digits(n) + "" == Digits(n);
    assert IsDigit(Digits(n)[0]);
  }

  lemma SplitWhole(head: string)
    requires '.' !in head
    ensures SplitDots(head) == [head]
  {
    BeforeStops(head, '.', "");
    assert head + "" == head;
  }

  lemma SplitHead(head: string, rest: string)
    requires '.' !in head
    ensures SplitDots(head + "." + rest) == [head] + SplitDots(rest)
  {
    var text := head + "." + rest;
    assert text == head + ("." + rest);
    BeforeStops(head, '.', "." + rest);
    assert text[|head| + 1..] == rest;
  }

  lemma {:induction false} DottedHasNoDash(numbers: seq<nat>)
    requires numbers != []
    ensures '-' !in Dotted(numbers)
    decreases |numbers|
  {
    if |numbers| > 1 {
      DottedHasNoDash(numbers[1..]);
    }
  }

  lemma ParsePartsCons(part: string, parts: seq<string>)
    ensures ParseParts([part] + parts) == [ParsePart(part)] + ParseParts(parts)
  {
    assert ([part] + parts)[1..] == parts;
  }

  lemma {:induction false} DottedRead(numbers: seq<nat>)
    requires numbers != []
    ensures ParseParts(SplitDots(Dotted(numbers))) == numbers
    decreases |numbers|
  {
    var first := Digits(numbers[0]);
    PartRead(numbers[0]);
    if |numbers| == 1 {
      SplitWhole(first);
      ParsePartsCons(first, []);
      assert [first] + [] == [first];
    } else {
      var rest := Dotted(numbers[1..]);
      DottedRead(numbers[1..]);
      SplitHead(first, rest);
      ParsePartsCons(first, SplitDots(rest));
    }
  }

  predicate WhiteSpaceCode(code: int) {
    || 0x9 <= code <= 0xD || code == 0x20 || code == 0xA0 || code == 0x1680 || 0x2000 <= code <= 0x200A
    || code == 0x2028 || code == 0x2029 || code == 0x202F || code == 0x205F || code == 0x3000 || code == 0xFEFF
  }

  /** A part is read past white space and a plus sign up to its first character that is no digit;
      a part that begins with no digit at all is zero. White space is that of sections 12.2 and 12.3
      of ECMA-262. */
  lemma {:induction false} PartReadThroughNoise(spaces: string, sign: string, n: nat, tail: string)
    requires (forall c | c in spaces :: WhiteSpaceCode(c as int)) && sign in {"", "+"}
    requires tail == "" || !('0' <= tail[0] <= '9')
    ensures ParsePart(spaces + (sign + (Digits(n) + tail))) == n
    ensures sign == "" && (tail == "" || !(WhiteSpaceCode(tail[0] as int) || tail[0] == '+' || tail[0] == '-')) ==>
              ParsePart(spaces + tail) == 0
  {
    var body := sign + (Digits(n) + tail);
    if spaces == "" {
      assert "" + body == body && "" + tail == tail;
      DigitsRead(n, tail);
      if sign == "+" {
        assert body[1..] == Digits(n) + tail;
      } else {
        assert body == Digits(n) + tail && IsDigit(Digits(n)[0]);
      }
    } else {
      assert spaces[0] in spaces && forall c | c in spaces[1..] :: c in spaces;
      assert (spaces + body)[1..] == spaces[1..] + body && (spaces + tail)[1..] == spaces[1..] + tail;
      PartReadThroughNoise(spaces[1..], sign, n, tail);
    }
  }

  /** The parser undoes printing: "0.10.3" really is read as 0, 10, 3. */
  lemma PartsOfPrinted(numbers: seq<nat>)
    requires numbers != []
    ensures VersionParts(Dotted(numbers)) == numbers
  {
    DottedRead(numbers);
    DottedHasNoDash(numbers);
    BeforeStops(Dotted(numbers), '-', "");
    assert Dotted(numbers) + "" == Dotted(numbers);
  }

  // ---- The comparison ----

  function At(parts: seq<int>, i: nat): int {
    if i < |parts| then parts[i] else 0
  }

  function Longest(left: seq<int>, right: seq<int>): nat {
    if |left| >= |right| then |left| else |right|
  }

  function CompareFrom(left: seq<int>, right: seq<int>, i: nat): int
    decreases Longest(left, right) - i
  {
    if i >= Longest(left, right) then 0
    else if At(left, i) != At(right, i) then At(left, i) - At(right, i)
    else CompareFrom(left, right, i + 1)
  }

  function Compare(left: string, right: string): int {
    CompareFrom(VersionParts(left), VersionParts(right), 0)
  }

  method CompareVersions(left: string, right: string) returns (difference: int)
    ensures difference == Compare(left, right)
  {
    var leftParts, rightParts := VersionParts(left), VersionParts(right);
    for index := 0 to Longest(leftParts, rightParts)
      invariant CompareFrom(leftParts, rightParts, index) == CompareFrom(leftParts, rightParts, 0)
    {
      var gap := At(leftParts, index) - At(rightParts, index);
      if gap != 0 {
        return gap;
      }
    }
    return 0;
  }

  ghost predicate AgreeBelow(left: seq<int>, right: seq<int>, from: nat, to: nat) {
    forall j | from <= j < to :: At(left, j) == At(right, j)
  }

  ghost predicate PaddedEqual(left: seq<int>, right: seq<int>) {
    forall j: nat :: At(left, j) == At(right, j)
  }

  /** The result is the difference at the first place where the padded lists differ. */
  lemma {:induction false} FirstDifference(left: seq<int>, right: seq<int>, i: nat) returns (k: nat)
    ensures i <= k && AgreeBelow(left, right, i, k)
    ensures CompareFrom(left, right, i) == At(left, k) - At(right, k)
    ensures CompareFrom(left, right, i) == 0 ==> k >= Longest(left, right)
    decreases Longest(left, right) - i
  {
    if i >= Longest(left, right) || At(left, i) != At(right, i) {
      k := i;
    } else {
      k := FirstDifference(left, right, i + 1);
    }
  }

  lemma {:induction false} Antisymmetric(left: seq<int>, right: seq<int>, i: nat)
    ensures CompareFrom(left, right, i) == -CompareFrom(right, left, i)
    decreases Longest(left, right) - i
  {
    if i < Longest(left, right) {
      Antisymmetric(left, right, i + 1);
    }
  }

  lemma ZeroExactlyWhenPaddedEqual(left: seq<int>, right: seq<int>)
    ensures CompareFrom(left, right, 0) == 0 <==> PaddedEqual(left, right)
  {
    var k := FirstDifference(left, right, 0);
  }

  lemma Transitive(a: seq<int>, b: seq<int>, c: seq<int>)
    requires CompareFrom(a, b, 0) <= 0 && CompareFrom(b, c, 0) <= 0
    ensures CompareFrom(a, c, 0) <= 0
    ensures CompareFrom(a, c, 0) == 0 ==> CompareFrom(a, b, 0) == 0 && CompareFrom(b, c, 0) == 0
  {
    var ab := FirstDifference(a, b, 0);
    var bc := FirstDifference(b, c, 0);
    var ac := FirstDifference(a, c, 0);
    var first := if ab <= bc then ab else bc;
    assert AgreeBelow(a, c, 0, first) by {
      forall j | 0 <= j < first ensures At(a, j) == At(c, j) {
        assert At(a, j) == At(b, j) && At(b, j) == At(c, j);
      }
    }
    if ac < first {
      assert At(a, ac) == At(c, ac);
      assert CompareFrom(a, c, 0) == 0;
      assert At(a, first) == At(c, first);
    } else if first < ac {
      assert At(a, first) == At(c, first);
      assert At(b, first) == (if first < ab then At(a, first) else At(b, first));
    }
  }

  /** On version strings: a total preorder. */
  lemma VersionOrder(a: string, b: string, c: string)
    ensures Compare(a, b) == -Compare(b, a)
    ensures Compare(a, b) <= 0 && Compare(b, c) <= 0 ==> Compare(a, c) <= 0
    ensures Compare(a, b) == 0 <==> PaddedEqual(VersionParts(a), VersionParts(b))
  {
    Antisymmetric(VersionParts(a), VersionParts(b), 0);
    if Compare(a, b) <= 0 && Compare(b, c) <= 0 {
      Transitive(VersionParts(a), VersionParts(b), VersionParts(c));
    }
    ZeroExactlyWhenPaddedEqual(VersionParts(a), VersionParts(b));
  }

  // ---- The latest version ----

  /** The last position holding a version that no other version exceeds. */
  function LatestIndex(versions: seq<string>): (latest: nat)
    requires versions != []
    ensures latest < |versions|
  {
    var last := |versions| - 1;
    if last == 0 then 0
    else
      var earlier := LatestIndex(versions[..last]);
      if Compare(versions[earlier], versions[last]) <= 0 then last else earlier
  }

  /** One index sorts before another: smaller version, or an equal one listed earlier. */
  predicate SortsBefore(versions: seq<string>, i: nat, j: nat)
    requires i < |versions| && j < |versions|
  {
    Compare(versions[i], versions[j]) < 0 || (Compare(versions[i], versions[j]) == 0 && i < j)
  }

  /** The result of a stable sort, as the order in which it lists the original positions. */
  ghost predicate IsStableSort(versions: seq<string>, order: seq<nat>) {
    && |order| == |versions|
    && (forall k | 0 <= k < |order| :: order[k] < |versions|)
    && (forall i | 0 <= i < |versions| :: i in order)
    && forall j, k | 0 <= j < k < |order| :: SortsBefore(versions, order[j], order[k])
  }

  lemma {:induction false} LatestIsMaximum(versions: seq<string>, i: nat)
    requires i < |versions|
    ensures var latest := LatestIndex(versions); i == latest || SortsBefore(versions, i, latest)
    decreases |versions|
  {
    var last := |versions| - 1;
    if last > 0 {
      var earlier := LatestIndex(versions[..last]);
      if i < last {
        LatestIsMaximum(versions[..last], i);
        assert i == earlier || SortsBefore(versions, i, earlier);
      }
      LastAgainstEarlier(versions, i, earlier);
    }
  }

  lemma LastAgainstEarlier(versions: seq<string>, i: nat, earlier: nat)
    requires i < |versions| && earlier < |versions| - 1
    requires i < |versions| - 1 ==> i == earlier || SortsBefore(versions, i, earlier)
    ensures var last := |versions| - 1;
            var latest := if Compare(versions[earlier], versions[last]) <= 0 then last else earlier;
            i == latest || SortsBefore(versions, i, latest)
  {
    var last := |versions| - 1;
    if i == last {
      Antisymmetric(VersionParts(versions[last]), VersionParts(versions[earlier]), 0);
    } else if Compare(versions[earlier], versions[last]) <= 0 {
      NewLastKeepsMaximum(versions, i, earlier);
    }
  }

  lemma NewLastKeepsMaximum(versions: seq<string>, i: nat, earlier: nat)
    requires i < |versions| - 1 && earlier < |versions| - 1
    requires i == earlier || SortsBefore(versions, i, earlier)
    requires Compare(versions[earlier], versions[|versions| - 1]) <= 0
    ensures SortsBefore(versions, i, |versions| - 1)
  {
    VersionOrder(versions[i], versions[earlier], versions[|versions| - 1]);
    StrictOnEitherSide(versions[i], versions[earlier], versions[|versions| - 1]);
  }

  lemma StrictOnEitherSide(a: string, b: string, c: string)
    requires Compare(a, b) <= 0 && Compare(b, c) <= 0
    ensures Compare(a, b) < 0 || Compare(b, c) < 0 ==> Compare(a, c) < 0
  {
    Transitive(VersionParts(a), VersionParts(b), VersionParts(c));
  }

  /** Whatever stable sort the engine uses, its last element is the last maximum. */
  lemma StableSortEndsWithLatest(versions: seq<string>, order: seq<nat>)
    requires versions != [] && IsStableSort(versions, order)
    ensures order[|order| - 1] == LatestIndex(versions)
    ensures LatestVersion(versions) == versions[order[|order| - 1]]
  {
    var latest, end := LatestIndex(versions), order[|order| - 1];
    assert latest in order;
    LatestIsMaximum(versions, end);
    VersionOrder(versions[end], versions[latest], versions[end]);
  }

  /** `[...versions].sort(compareVersions).at(-1) ?? ""` */
  function LatestVersion(versions: seq<string>): string {
    if versions == [] then "" else versions[LatestIndex(versions)]
  }

  predicate SupportsStrk20WalletApi(versions: seq<string>) {
    exists i :: 0 <= i < |versions| && Compare(versions[i], MINIMUM_STRK20) >= 0
  }

  lemma MinimumParts()
    ensures VersionParts(MINIMUM_STRK20) == [0, 10, 3]
  {
    var zero, ten, three := Digits(0), Digits(10), Digits(3);
    assert zero == "0" && three == "3" && ten == "10" by {
      assert Digits(1) == "1";
    }
    assert [0, 10, 3][1..] == [10, 3] && [10, 3][1..] == [3];
    assert Dotted([3]) == "3" && Dotted([10, 3]) == "10.3" && Dotted([0, 10, 3]) == "0.10.3";
    PartsOfPrinted([0, 10, 3]);
  }

  /** Asking whether some version is recent enough is asking it of the latest one. */
  lemma SupportIsLatestSupport(versions: seq<string>)
    ensures SupportsStrk20WalletApi(versions) <==>
            versions != [] && CompareFrom(VersionParts(LatestVersion(versions)), [0, 10, 3], 0) >= 0
  {
    MinimumParts();
    if i :| 0 <= i < |versions| && Compare(versions[i], MINIMUM_STRK20) >= 0 {
      var latest := LatestVersion(versions);
      LatestIsMaximum(versions, i);
      VersionOrder(MINIMUM_STRK20, versions[i], latest);
      VersionOrder(versions[i], MINIMUM_STRK20, latest);
      VersionOrder(MINIMUM_STRK20, latest, latest);
    }
  }

  // ---- Not the order of SemVer 2.0.0, section 11 ----

  /** Everything from the first '-' on is dropped, so a pre-release equals its release. */
  lemma SuffixIsIgnored(version: string, suffix: string, other: string)
    ensures Compare(version + "-" + suffix, version) == 0
    ensures Compare(version + "-" + suffix, other) == Compare(version, other)
  {
    BeforeIgnoresSuffix(version, suffix, '-');
    assert version + "-" + suffix == version + ['-'] + suffix;
    ZeroExactlyWhenPaddedEqual(VersionParts(version), VersionParts(version));
  }

  /** SemVer orders a pre-release below its release; here it already counts as supported. */
  lemma PreReleaseCountsAsSupported(suffix: string)
    ensures SupportsStrk20WalletApi([MINIMUM_STRK20 + "-" + suffix])
  {
    var version := MINIMUM_STRK20 + "-" + suffix;
    SuffixIsIgnored(MINIMUM_STRK20, suffix, MINIMUM_STRK20);
    assert Compare([version][0], MINIMUM_STRK20) >= 0;
  }

  // ---- A stable sort exists ----

  function Insert(versions: seq<string>, order: seq<nat>, x: nat): seq<nat>
    requires x < |versions| && forall k | 0 <= k < |order| :: order[k] < |versions|
  {
    if order == [] then [x]
    else
      var end := |order| - 1;
      if Compare(versions[order[end]], versions[x]) <= 0 then order + [x]
      else Insert(versions, order[..end], x) + [order[end]]
  }

  ghost predicate Ordered(versions: seq<string>, order: seq<nat>) {
    && (forall k | 0 <= k < |order| :: order[k] < |versions|)
    && forall j, k | 0 <= j < k < |order| :: SortsBefore(versions, order[j], order[k])
  }

  lemma AppendKeepsOrder(versions: seq<string>, order: seq<nat>, x: nat)
    requires x < |versions| && Ordered(versions, order)
    requires forall k | 0 <= k < |order| :: SortsBefore(versions, order[k], x)
    ensures Ordered(versions, order + [x])
  {
  }

  lemma PrefixStaysOrdered(versions: seq<string>, order: seq<nat>)
    requires Ordered(versions, order) && order != []
    ensures var end := |order| - 1;
            Ordered(versions, order[..end]) && forall y | y in order[..end] :: SortsBefore(versions, y, order[end])
  {
  }

  lemma AtMostLastSortsBefore(versions: seq<string>, order: seq<nat>, x: nat, k: nat)
    requires x < |versions| && Ordered(versions, order) && k < |order| && order[k] < x
    requires Compare(versions[order[|order| - 1]], versions[x]) <= 0
    ensures SortsBefore(versions, order[k], x)
  {
    var last := order[|order| - 1];
    assert k == |order| - 1 || SortsBefore(versions, order[k], last);
    VersionOrder(versions[order[k]], versions[last], versions[x]);
  }

  lemma {:induction false} InsertMembers(versions: seq<string>, order: seq<nat>, x: nat)
    requires x < |versions| && forall k | 0 <= k < |order| :: order[k] < |versions|
    ensures |Insert(versions, order, x)| == |order| + 1
    ensures forall y :: y in Insert(versions, order, x) <==> y == x || y in order
    decreases |order|
  {
    if order != [] {
      var end := |order| - 1;
      InsertMembers(versions, order[..end], x);
      assert order == order[..end] + [order[end]];
    }
  }

  lemma {:induction false} InsertKeepsOrder(versions: seq<string>, order: seq<nat>, x: nat)
    requires x < |versions| && Ordered(versions, order)
    requires forall k | 0 <= k < |order| :: order[k] < x
    ensures Ordered(versions, Insert(versions, order, x))
    decreases |order|
  {
    if order != [] {
      var end := |order| - 1;
      if Compare(versions[order[end]], versions[x]) <= 0 {
        forall k | 0 <= k < |order| ensures SortsBefore(versions, order[k], x) {
          AtMostLastSortsBefore(versions, order, x, k);
        }
        AppendKeepsOrder(versions, order, x);
      } else {
        PrefixStaysOrdered(versions, order);
        InsertKeepsOrder(versions, order[..end], x);
        InsertBelowLast(versions, order, x);
      }
    }
  }

  lemma InsertBelowLast(versions: seq<string>, order: seq<nat>, x: nat)
    requires x < |versions| && order != [] && Ordered(versions, order)
    requires Compare(versions[order[|order| - 1]], versions[x]) > 0
    requires Ordered(versions, Insert(versions, order[..|order| - 1], x))
    ensures Ordered(versions, Insert(versions, order[..|order| - 1], x) + [order[|order| - 1]])
  {
    var end := |order| - 1;
    var inserted := Insert(versions, order[..end], x);
    Antisymmetric(VersionParts(versions[order[end]]), VersionParts(versions[x]), 0);
    PrefixStaysOrdered(versions, order);
    InsertMembers(versions, order[..end], x);
    forall k | 0 <= k < |inserted| ensures SortsBefore(versions, inserted[k], order[end]) {
      assert inserted[k] in inserted;
    }
    AppendKeepsOrder(versions, inserted, order[end]);
  }

  lemma {:induction false} StableSortExists(versions: seq<string>, n: nat) returns (order: seq<nat>)
    requires n <= |versions|
    ensures |order| == n && Ordered(versions, order)
    ensures forall i: nat :: i in order <==> i < n
    ensures n == |versions| ==> IsStableSort(versions, order)
  {
    if n == 0 {
      order := [];
    } else {
      var shorter := StableSortExists(versions, n - 1);
      forall k | 0 <= k < |shorter| ensures shorter[k] < n - 1 {
        assert shorter[k] in shorter;
      }
      InsertKeepsOrder(versions, shorter, n - 1);
      InsertMembers(versions, shorter, n - 1);
      order := Insert(versions, shorter, n - 1);
    }
  }
}
