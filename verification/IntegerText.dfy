/**
 * Integers as models write them: plain, or with thousands grouped by points, commas,
 * spaces or apostrophes. Digits are ASCII: the pattern also matches other decimal
 * digits, but the 64-bit parser behind it rejects them.
 */
module IntegerText {
  import opened Options
  import opened Json
  import opened Text

  /** Spaces and apostrophes disappear before anything is matched. */
  predicate IsSpacing(c: char) {
    c == ' ' || c == '\'' || c == '\U{2019}'
  }

  predicate NotSpacing(c: char) {
    !IsSpacing(c)
  }

  predicate IsPoint(c: char) {
    c == '.' || c == ','
  }

  predicate NotPoint(c: char) {
    !IsPoint(c)
  }

  function DigitValue(c: char): nat
    requires IsDigit(c)
  {
    (c - '0') as nat
  }

  /** The number a string of digits denotes. */
  function Denoted(s: string): nat
    requires AllDigits(s)
  {
    if s == "" then 0 else 10 * Denoted(s[..|s| - 1]) + DigitValue(s[|s| - 1])
  }

  function WithSign(negative: bool, n: nat): int {
    if negative then 0 - n else n
  }

  /** `parse::<i64>` of an optional minus and digits. */
  function ParseI64(negative: bool, digits: string): Option<int>
    requires AllDigits(digits)
  {
    var n := WithSign(negative, Denoted(digits));
    if I64_MIN <= n <= I64_MAX then Some(n) else None
  }

  /** `(?:[.,]\d{3})*`: groups of a separator and three digits. */
  predicate Groups(s: string) {
    s == "" || (|s| >= 4 && IsPoint(s[0]) && AllDigits(s[1..4]) && Groups(s[4..]))
  }

  /** `\d{1,3}(?:[.,]\d{3})+`. */
  predicate Grouped(s: string) {
    exists h: nat :: h <= 3 && h < |s| && HeadAndGroups(s, h)
  }

  predicate HeadAndGroups(s: string, h: nat) {
    1 <= h <= |s| && AllDigits(s[..h]) && Groups(s[h..])
  }

  /** The characters that are matched. */
  function Cleaned(text: string): string {
    Keep(Trim(text), NotSpacing)
  }

  /** What follows an optional minus. */
  function Unsigned(cleaned: string): string {
    if "-" <= cleaned then cleaned[1..] else cleaned
  }

  function ParseBody(negative: bool, body: string): Option<int> {
    if body != "" && AllDigits(body) then ParseI64(negative, body)
    else if Grouped(body) then
      GroupedDigits(body);
      ParseI64(negative, Keep(body, NotPoint))
    else None
  }

  /** The string branch of `coerce_integer_value`. */
  function CoerceInteger(text: string): Option<int> {
    ParseBody("-" <= Cleaned(text), Unsigned(Cleaned(text)))
  }

  lemma {:induction false} GroupsDigits(s: string)
    requires Groups(s)
    ensures AllDigits(Keep(s, NotPoint))
  {
    if s != "" {
      GroupsDigits(s[4..]);
      KeepConcat(s[..4], s[4..], NotPoint);
      assert s == s[..4] + s[4..] && s[..4][1..] == s[1..4];
      KeepAll(s[1..4], NotPoint);
    }
  }

  /** Without its separators a grouped number is digits only. */
  lemma GroupedDigits(s: string)
    requires Grouped(s)
    ensures AllDigits(Keep(s, NotPoint))
  {
    var h: nat :| h <= 3 && h < |s| && HeadAndGroups(s, h);
    assert s == s[..h] + s[h..];
    KeepConcat(s[..h], s[h..], NotPoint);
    KeepAll(s[..h], NotPoint);
    GroupsDigits(s[h..]);
  }

  // ---------------------------------------------------------------- printing

  function Digit(n: nat): (c: char)
    requires n < 10
    ensures IsDigit(c) && DigitValue(c) == n
  {
    '0' + n as char
  }

  /** Without leading zeros. */
  function Decimal(n: nat): (s: string)
    ensures s != "" && AllDigits(s) && Denoted(s) == n
  {
    if n < 10 then [Digit(n)]
    else
      var s := Decimal(n / 10);
      assert (s + [Digit(n % 10)])[..|s|] == s;
      s + [Digit(n % 10)]
  }

  /** Exactly three digits. */
  function Three(n: nat): (s: string)
    requires n < 1000
    ensures |s| == 3 && AllDigits(s)
  {
    [Digit(n / 100), Digit(n / 10 % 10), Digit(n % 10)]
  }

  /** The separator of each group, from the left. */
  type Separators = nat -> char

  function Level(n: nat): nat {
    if n < 1000 then 0 else 1 + Level(n / 1000)
  }

  /** A number with its thousands separated. */
  function Printed(n: nat, sep: Separators): (s: string)
    ensures s != "" && IsDigit(s[0]) && IsDigit(s[|s| - 1])
  {
    if n < 1000 then Decimal(n) else Printed(n / 1000, sep) + [sep(Level(n))] + Three(n % 1000)
  }

  function PrintedInteger(n: int, sep: Separators): string {
    if n < 0 then "-" + Printed(-n, sep) else Printed(n, sep)
  }

  // ------------------------------------------------------------ main results

  lemma DenotedPush(a: string, d: nat)
    requires AllDigits(a) && d < 10
    ensures AllDigits(a + [Digit(d)]) && Denoted(a + [Digit(d)]) == 10 * Denoted(a) + d
  {
    assert (a + [Digit(d)])[..|a|] == a;
  }

  lemma DigitsOf(n: nat)
    requires n < 1000
    ensures n == 100 * (n / 100) + 10 * (n / 10 % 10) + n % 10
  {
  }

  lemma DenotedConcat(a: string, n: nat)
    requires AllDigits(a) && n < 1000
    ensures AllDigits(a + Three(n)) && Denoted(a + Three(n)) == 1000 * Denoted(a) + n
  {
    var x, y, z := n / 100, n / 10 % 10, n % 10;
    DenotedPush(a, x);
    DenotedPush(a + [Digit(x)], y);
    DenotedPush(a + [Digit(x)] + [Digit(y)], z);
    assert a + Three(n) == a + [Digit(x)] + [Digit(y)] + [Digit(z)];
    DigitsOf(n);
  }

  /** Dropping the separators of a printed number leaves digits that denote it. */
  lemma {:induction false} DroppedSeparators(n: nat, sep: Separators, keep: char -> bool)
    requires forall c :: IsDigit(c) ==> keep(c)
    requires forall i :: !keep(sep(i))
    ensures var s := Keep(Printed(n, sep), keep); s != "" && AllDigits(s) && Denoted(s) == n
  {
    if n < 1000 {
      KeepAll(Decimal(n), keep);
    } else {
      var head, mark, tail := Printed(n / 1000, sep), [sep(Level(n))], Three(n % 1000);
      DroppedSeparators(n / 1000, sep, keep);
      KeepConcat(head + mark, tail, keep);
      KeepConcat(head, mark, keep);
      KeepAll(tail, keep);
      assert Keep(mark, keep) == "" by { assert mark[1..] == ""; }
      assert Keep(head, keep) + "" + tail == Keep(head, keep) + tail;
      DenotedConcat(Keep(head, keep), n % 1000);
    }
  }

  lemma {:induction false} GroupsAppend(s: string, group: string)
    requires Groups(s) && Groups(group)
    ensures Groups(s + group)
  {
    if s == "" {
      assert s + group == group;
    } else {
      var t := s + group;
      assert t[1..4] == s[1..4] && t[4..] == s[4..] + group;
      GroupsAppend(s[4..], group);
    }
  }

  lemma SmallDecimal(n: nat)
    requires n < 1000
    ensures |Decimal(n)| <= 3
  {
    if n >= 10 {
      var tens := n / 10;
      assert |Decimal(n)| == |Decimal(tens)| + 1;
      if tens >= 10 { assert |Decimal(tens)| == |Decimal(tens / 10)| + 1; }
    }
  }

  lemma OneMoreGroup(head: string, h: nat, group: string)
    requires HeadAndGroups(head, h) && Groups(group)
    ensures HeadAndGroups(head + group, h)
  {
    GroupsAppend(head[h..], group);
    SplitAfter(head, h, group);
  }

  lemma SplitAfter(head: string, h: nat, group: string)
    requires h <= |head|
    ensures (head + group)[..h] == head[..h] && (head + group)[h..] == head[h..] + group
  {
  }

  lemma GroupOfThree(point: char, n: nat)
    requires IsPoint(point) && n < 1000
    ensures Groups([point] + Three(n))
  {
    var group := [point] + Three(n);
    assert group[1..4] == Three(n) && group[4..] == "";
  }

  /** A printed number is one to three digits and groups of three. */
  lemma {:induction false} PrintedIsGrouped(n: nat, sep: Separators) returns (h: nat)
    requires forall i :: IsPoint(sep(i))
    ensures h <= 3 && HeadAndGroups(Printed(n, sep), h) && (h < |Printed(n, sep)| <==> n >= 1000)
  {
    if n < 1000 {
      SmallDecimal(n);
      h := |Decimal(n)|;
      assert Decimal(n)[..h] == Decimal(n);
    } else {
      h := PrintedIsGrouped(n / 1000, sep);
      var head, point := Printed(n / 1000, sep), sep(Level(n));
      GroupOfThree(point, n % 1000);
      OneMoreGroup(head, h, [point] + Three(n % 1000));
      assert Printed(n, sep) == head + ([point] + Three(n % 1000));
    }
  }

  lemma {:induction false} PrintedCharacters(n: nat, sep: Separators, ok: char -> bool)
    requires forall c :: IsDigit(c) ==> ok(c)
    requires forall i :: ok(sep(i))
    ensures forall i :: 0 <= i < |Printed(n, sep)| ==> ok(Printed(n, sep)[i])
  {
    if n >= 1000 { PrintedCharacters(n / 1000, sep, ok); }
  }

  lemma GroupedIsNotPlain(s: string, h: nat)
    requires h < |s| && HeadAndGroups(s, h)
    ensures !AllDigits(s)
  {
    assert IsPoint(s[h..][0]) && s[h..][0] == s[h];
  }

  /** What a text that denotes `n` is read as: overflow is refused. */
  function Fitting(n: int): Option<int> {
    if n < -0x8000_0000_0000_0000 || n > 0x7fff_ffff_ffff_ffff then None else Some(n)
  }

  /** The printed magnitude reads back, whichever way it is grouped. */
  lemma BodyIsRead(m: nat, negative: bool, sep: Separators)
    requires forall i :: IsPoint(sep(i))
    ensures ParseBody(negative, Printed(m, sep)) == Fitting(WithSign(negative, m))
  {
    if m >= 1000 {
      var h := PrintedIsGrouped(m, sep);
      var body := Printed(m, sep);
      GroupedIsNotPlain(body, h);
      DroppedSeparators(m, sep, NotPoint);
    }
  }

  lemma SpacedBodyIsRead(m: nat, negative: bool, sep: Separators)
    requires forall i :: IsSpacing(sep(i))
    ensures ParseBody(negative, Keep(Printed(m, sep), NotSpacing)) == Fitting(WithSign(negative, m))
  {
    DroppedSeparators(m, sep, NotSpacing);
  }

  lemma CleanedPositive(body: string)
    requires body != "" && IsDigit(body[0]) && IsDigit(body[|body| - 1])
    ensures Cleaned(body) == Keep(body, NotSpacing) && !("-" <= Cleaned(body))
  {
    TrimNothing(body);
  }

  lemma CleanedNegative(body: string)
    requires body != "" && IsDigit(body[|body| - 1])
    ensures Cleaned("-" + body) == "-" + Keep(body, NotSpacing)
    ensures Unsigned(Cleaned("-" + body)) == Keep(body, NotSpacing)
  {
    TrimNothing("-" + body);
    assert ("-" + body)[1..] == body;
    assert ("-" + Keep(body, NotSpacing))[1..] == Keep(body, NotSpacing);
  }

  /**
   * Every integer is read from its grouped form, with points and commas or with spaces
   * and apostrophes: those of 64 bits come back, the others are refused.
   */
  lemma PrintedIntegersAreRead(n: int, sep: Separators)
    requires (forall i :: IsPoint(sep(i))) || (forall i :: IsSpacing(sep(i)))
    ensures CoerceInteger(PrintedInteger(n, sep)) == Fitting(n)
  {
    var m: nat := if n < 0 then -n else n;
    if n < 0 { CleanedNegative(Printed(m, sep)); } else { CleanedPositive(Printed(m, sep)); }
    if forall i :: IsPoint(sep(i)) {
      PrintedCharacters(m, sep, NotSpacing);
      KeepAll(Printed(m, sep), NotSpacing);
      BodyIsRead(m, n < 0, sep);
    } else {
      SpacedBodyIsRead(m, n < 0, sep);
    }
  }

  lemma {:induction false} PointsInGroups(s: string, i: nat)
    requires Groups(s) && i < |s|
    ensures |s| % 4 == 0 && (IsPoint(s[i]) <==> i % 4 == 0) && (IsDigit(s[i]) <==> i % 4 != 0)
  {
    if i >= 4 {
      PointsInGroups(s[4..], i - 4);
    } else {
      assert i > 0 ==> s[i] == s[1..4][i - 1];
      if |s| > 4 { PointsInGroups(s[4..], 0); }
    }
  }

  lemma DigitBefore(s: string, h: nat, i: nat)
    requires i < h <= |s| && AllDigits(s[..h])
    ensures IsDigit(s[i])
  {
    assert s[..h][i] == s[i];
  }

  lemma LastGroupHasThree(head: string, point: char, last: string, h: nat)
    requires IsPoint(point) && AllDigits(last) && HeadAndGroups(head + [point] + last, h)
    ensures |last| == 3
  {
    var body := head + [point] + last;
    var groups := body[h..];
    assert body[|head|] == point;
    if |head| < h { DigitBefore(body, h, |head|); }
    var i := |head| - h;
    assert groups[i] == point;
    PointsInGroups(groups, i);
    if |last| > 3 {
      assert groups[i + 4] == last[3];
      PointsInGroups(groups, i + 4);
    }
  }

  /** A point or comma must be followed by exactly three digits at the end: decimals are never read as integers. */
  lemma OtherLastGroupsAreRejected(text: string, head: string, point: char, last: string)
    requires Unsigned(Cleaned(text)) == head + [point] + last
    requires IsPoint(point) && AllDigits(last) && |last| != 3
    ensures CoerceInteger(text).None?
  {
    var body := head + [point] + last;
    assert body[|head|] == point;
    forall h: nat ensures !HeadAndGroups(body, h) {
      if HeadAndGroups(body, h) { LastGroupHasThree(head, point, last, h); }
    }
  }

  // -------------------------------------------------------- what is accepted

  /** Counted from the end every fourth character is a point or comma, all others are digits, the first included. */
  predicate ByPosition(s: string) {
    && |s| >= 5 && |s| % 4 != 0
    && forall i :: 0 <= i < |s| ==> if i % 4 == |s| % 4 then IsPoint(s[i]) else IsDigit(s[i])
  }

  lemma {:induction false} PlacedAreGroups(s: string)
    requires |s| % 4 == 0 && forall i :: 0 <= i < |s| ==> if i % 4 == 0 then IsPoint(s[i]) else IsDigit(s[i])
    ensures Groups(s)
  {
    if s != "" {
      forall i | 0 <= i < |s[4..]| ensures if i % 4 == 0 then IsPoint(s[4..][i]) else IsDigit(s[4..][i]) {
        assert s[4..][i] == s[i + 4] && (i + 4) % 4 == i % 4;
      }
      PlacedAreGroups(s[4..]);
      assert IsPoint(s[0]) && IsDigit(s[1]) && IsDigit(s[2]) && IsDigit(s[3]);
      assert s[1..4] == [s[1], s[2], s[3]];
    }
  }

  lemma GroupedIsPlaced(s: string, h: nat, i: nat)
    requires 1 <= h <= 3 && h < |s| && HeadAndGroups(s, h) && i < |s|
    ensures |s| % 4 == h && if i % 4 == |s| % 4 then IsPoint(s[i]) else IsDigit(s[i])
  {
    PointsInGroups(s[h..], 0);
    if i < h {
      DigitBefore(s, h, i);
    } else {
      PointsInGroups(s[h..], i - h);
    }
  }

  lemma PlacedIsGrouped(s: string)
    requires ByPosition(s)
    ensures HeadAndGroups(s, |s| % 4)
  {
    var h := |s| % 4;
    forall i | 0 <= i < |s[h..]| ensures if i % 4 == 0 then IsPoint(s[h..][i]) else IsDigit(s[h..][i]) {
      assert s[h..][i] == s[i + h] && ((i + h) % 4 == h <==> i % 4 == 0);
    }
    PlacedAreGroups(s[h..]);
    forall i | 0 <= i < h ensures IsDigit(s[i]) {
      assert i % 4 == i;
    }
  }

  lemma GroupedByPosition(s: string)
    ensures Grouped(s) <==> ByPosition(s)
  {
    if Grouped(s) {
      var h: nat :| h <= 3 && h < |s| && HeadAndGroups(s, h);
      forall i | 0 <= i < |s| ensures |s| % 4 == h && if i % 4 == |s| % 4 then IsPoint(s[i]) else IsDigit(s[i]) {
        GroupedIsPlaced(s, h, i);
      }
      GroupedIsPlaced(s, h, 0);
    }
    if ByPosition(s) { PlacedIsGrouped(s); }
  }

  /** Plain digits and digits in groups of three are read, in 64 bits, with an optional minus; nothing else is. */
  lemma AcceptedExactly(text: string)
    ensures var body, negative := Unsigned(Cleaned(text)), "-" <= Cleaned(text);
      if (body != "" && AllDigits(body)) || ByPosition(body)
      then AllDigits(Keep(body, NotPoint))
           && CoerceInteger(text) == Fitting(WithSign(negative, Denoted(Keep(body, NotPoint))))
      else CoerceInteger(text).None?
  {
    var body := Unsigned(Cleaned(text));
    GroupedByPosition(body);
    if AllDigits(body) {
      KeepAll(body, NotPoint);
    } else if Grouped(body) {
      GroupedDigits(body);
    }
  }
}
