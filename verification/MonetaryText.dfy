/**
 * Free-form amounts of money as models write them, and the one form the document
 * store accepts: an optional currency code, an optional minus, digits, a point and
 * two decimals.
 */
module MonetaryText {
  import opened Options
  import opened Text

  datatype Amount = Amount(currency: Option<string>, negative: bool, whole: string, fraction: string)

  /** The amount as it goes over the wire. */
  function Wire(a: Amount): string {
    Code(a.currency) + Signed(a.negative, a.whole, a.fraction)
  }

  function Code(currency: Option<string>): string {
    if currency.Some? then currency.value else ""
  }

  function Signed(negative: bool, whole: string, fraction: string): string {
    (if negative then "-" else "") + (whole + "." + fraction)
  }

  predicate AllUpper(s: string) {
    forall i :: 0 <= i < |s| ==> IsUpper(s[i])
  }

  predicate IsNumber(whole: string, fraction: string) {
    whole != "" && AllDigits(whole) && |fraction| == 2 && AllDigits(fraction)
  }

  /** The shape of the wire form: `[A-Z]{3}`, digits, two decimals. */
  predicate WellFormed(a: Amount) {
    && (a.currency.Some? ==> |a.currency.value| == 3 && AllUpper(a.currency.value))
    && IsNumber(a.whole, a.fraction)
  }

  // ----------------------------------------------------------------- parsing

  function LeadingLetters(s: string): (n: nat)
    ensures n <= |s| && forall i :: 0 <= i < n ==> IsAlphabetic(s[i])
  {
    if s != "" && IsAlphabetic(s[0]) then 1 + LeadingLetters(s[1..]) else 0
  }

  function TrailingLetters(s: string): (n: nat)
    ensures n <= |s| && forall i :: |s| - n <= i < |s| ==> IsAlphabetic(s[i])
  {
    if s != "" && IsAlphabetic(s[|s| - 1]) then 1 + TrailingLetters(s[..|s| - 1]) else 0
  }

  /** A currency code before or after the amount, and the rest of the text. */
  function SplitCurrency(rest: string): Option<(Option<string>, string)> {
    var prefix := LeadingLetters(rest);
    if prefix > 0 then
      if prefix != 3 then None else Some((Some(Upper(rest[..3])), TrimStart(rest[3..])))
    else
      var suffix := TrailingLetters(rest);
      if suffix == 3 then Some((Some(Upper(rest[|rest| - 3..])), TrimEnd(rest[..|rest| - 3])))
      else if suffix > 0 then None
      else Some((None, rest))
  }

  predicate IsSymbol(c: char) {
    c == '\U{20AC}' || c == '$' || c == '\U{00A3}'
  }

  function DropSymbolsBefore(s: string): string {
    if s != "" && IsSymbol(s[0]) then DropSymbolsBefore(s[1..]) else s
  }

  function DropSymbolsAfter(s: string): string {
    if s != "" && IsSymbol(s[|s| - 1]) then DropSymbolsAfter(s[..|s| - 1]) else s
  }

  function DropSymbols(s: string): string {
    Trim(DropSymbolsAfter(DropSymbolsBefore(s)))
  }

  /** Spaces and apostrophes only group thousands. */
  predicate IsNoGrouping(c: char) {
    c != '\'' && c != '\U{2019}' && c != ' '
  }

  predicate IsSeparator(c: char) {
    c == '.' || c == ','
  }

  function Occurrences(s: string, c: char): nat {
    if s == "" then 0 else Occurrences(s[..|s| - 1], c) + if s[|s| - 1] == c then 1 else 0
  }

  /** `rfind`. */
  function LastSeparator(s: string): (r: Option<nat>)
    ensures r.Some? ==> r.value < |s| && IsSeparator(s[r.value])
  {
    if s == "" then None
    else if IsSeparator(s[|s| - 1]) then Some(|s| - 1)
    else LastSeparator(s[..|s| - 1])
  }

  datatype Decimal = At(position: nat) | Whole | Unclear

  /** Where the decimal separator is: one kind of separator may also only group. */
  function DecimalAt(s: string): (d: Decimal)
    ensures d.At? ==> d.position < |s|
  {
    var dots, commas := Occurrences(s, '.'), Occurrences(s, ',');
    var last := LastSeparator(s);
    if last.None? then Whole
    else if dots > 0 && commas > 0 then At(last.value)
    else
      var after := |s| - last.value - 1;
      if dots + commas == 1 && 1 <= after <= 2 then At(last.value)
      else if after == 3 then Whole
      else Unclear
  }

  predicate OnlyDigitsAndSeparators(s: string) {
    forall i :: 0 <= i < |s| ==> IsDigit(s[i]) || IsSeparator(s[i])
  }

  /** The digits before and after the decimal separator, the latter padded to two. */
  function Digits(cleaned: string, d: Decimal): Option<(string, string)>
    requires d.At? ==> d.position < |cleaned|
  {
    if d.Unclear? then None
    else
      var whole := Keep(if d.At? then cleaned[..d.position] else cleaned, IsDigit);
      var fraction := if d.At? then cleaned[d.position + 1..] else "";
      if |fraction| > 2 || !AllDigits(fraction) || whole == "" then None else Some((whole, Padded(fraction)))
  }

  /** `{fraction:0<2}`. */
  function Padded(fraction: string): string {
    if fraction == "" then "00" else if |fraction| == 1 then fraction + "0" else fraction
  }

  function ParseNumber(cleaned: string): Option<(string, string)> {
    if cleaned == "" || !OnlyDigitsAndSeparators(cleaned) then None else Digits(cleaned, DecimalAt(cleaned))
  }

  /** The amount after the currency code has been taken off. */
  function ParseSigned(rest: string): Option<(bool, string, string)> {
    var bare := DropSymbols(rest);
    var negative := "-" <= bare;
    var number := ParseNumber(Keep(if negative then TrimStart(bare[1..]) else bare, IsNoGrouping));
    if number.None? then None else Some((negative, number.value.0, number.value.1))
  }

  /** `parse_monetary_text`. */
  function ParseMonetaryText(text: string): Option<Amount> {
    var split := SplitCurrency(Trim(text));
    if split.None? then None
    else
      var parsed := ParseSigned(split.value.1);
      if parsed.None? then None
      else Some(Amount(split.value.0, parsed.value.0, parsed.value.1, parsed.value.2))
  }

  // ------------------------------------------------------------ main results

  lemma UpperLetters(s: string)
    requires forall i :: 0 <= i < |s| ==> IsAlphabetic(s[i])
    ensures AllUpper(Upper(s))
  {
  }

  lemma DigitsAreNumber(cleaned: string, d: Decimal)
    requires d.At? ==> d.position < |cleaned|
    ensures Digits(cleaned, d).Some? ==> var (whole, fraction) := Digits(cleaned, d).value; IsNumber(whole, fraction)
  {
    KeptOnly(if d.At? then cleaned[..d.position] else cleaned, IsDigit);
  }

  lemma NumberIsNumber(cleaned: string)
    ensures ParseNumber(cleaned).Some? ==>
      var (whole, fraction) := ParseNumber(cleaned).value;
      IsNumber(whole, fraction)
  {
    DigitsAreNumber(cleaned, DecimalAt(cleaned));
  }

  lemma ParsedDigits(rest: string)
    ensures ParseSigned(rest).Some? ==>
      var (negative, whole, fraction) := ParseSigned(rest).value;
      IsNumber(whole, fraction)
  {
    var bare := DropSymbols(rest);
    NumberIsNumber(Keep(if "-" <= bare then TrimStart(bare[1..]) else bare, IsNoGrouping));
  }

  /** Whatever is accepted has the wire form. */
  lemma OnlyWireFormComesOut(text: string)
    ensures ParseMonetaryText(text).Some? ==> WellFormed(ParseMonetaryText(text).value)
  {
    var trimmed := Trim(text);
    var split := SplitCurrency(trimmed);
    if split.Some? {
      if LeadingLetters(trimmed) == 3 { UpperLetters(trimmed[..3]); }
      else if TrailingLetters(trimmed) == 3 { UpperLetters(trimmed[|trimmed| - 3..]); }
      ParsedDigits(split.value.1);
    }
  }

  predicate AllLetters(s: string) {
    forall i :: 0 <= i < |s| ==> IsAlphabetic(s[i])
  }

  lemma {:induction false} LeadingLettersOf(code: string, rest: string)
    requires AllLetters(code) && rest != "" && !IsAlphabetic(rest[0])
    ensures LeadingLetters(code + rest) == |code|
  {
    if code == "" {
      assert code + rest == rest;
    } else {
      assert (code + rest)[1..] == code[1..] + rest;
      LeadingLettersOf(code[1..], rest);
    }
  }

  lemma {:induction false} NoOccurrence(s: string, c: char)
    requires c !in s
    ensures Occurrences(s, c) == 0
  {
    if s != "" { NoOccurrence(s[..|s| - 1], c); }
  }

  lemma {:induction false} OccurrencesConcat(a: string, b: string, c: char)
    ensures Occurrences(a + b, c) == Occurrences(a, c) + Occurrences(b, c)
  {
    if b == "" {
      assert a + b == a;
    } else {
      assert (a + b)[..|a + b| - 1] == a + b[..|b| - 1];
      OccurrencesConcat(a, b[..|b| - 1], c);
    }
  }

  lemma {:induction false} LastSeparatorBefore(a: string, b: string)
    requires AllDigits(b)
    ensures LastSeparator(a + b) == LastSeparator(a)
  {
    if b == "" {
      assert a + b == a;
    } else {
      assert (a + b)[..|a + b| - 1] == a + b[..|b| - 1];
      LastSeparatorBefore(a, b[..|b| - 1]);
    }
  }

  lemma NumberIsRead(whole: string, fraction: string)
    requires whole != "" && AllDigits(whole) && AllDigits(fraction) && |fraction| == 2
    ensures ParseNumber(whole + "." + fraction) == Some((whole, fraction))
  {
    LoneSeparatorIsDecimal(whole, '.', fraction);
  }

  predicate IsBody(c: char) {
    IsDigit(c) || c == '-'
  }

  /** Text that starts and ends with a digit or a minus passes every clean-up step unchanged. */
  lemma NothingToDrop(text: string)
    requires text != "" && IsBody(text[0]) && IsBody(text[|text| - 1])
    ensures DropSymbols(text) == text && TrailingLetters(text) == 0
  {
    assert DropSymbolsBefore(text) == text && DropSymbolsAfter(text) == text;
    TrimNothing(text);
  }

  lemma SignIsSplit(sign: string, number: string)
    requires (sign == "" || sign == "-") && number != "" && IsDigit(number[0]) && IsDigit(number[|number| - 1])
    ensures var text := sign + number;
      && DropSymbols(text) == text && TrailingLetters(text) == 0 && ("-" <= text <==> sign == "-")
      && number == if sign == "-" then TrimStart(text[1..]) else text
  {
    var text := sign + number;
    NothingToDrop(text);
    if sign == "-" { assert text[1..] == number; } else { assert text == number; }
  }

  lemma NumberIsKept(whole: string, fraction: string)
    requires AllDigits(whole) && AllDigits(fraction)
    ensures Keep(whole + "." + fraction, IsNoGrouping) == whole + "." + fraction
  {
    KeepAll(whole + "." + fraction, IsNoGrouping);
  }

  lemma SignedIsRead(negative: bool, whole: string, fraction: string)
    requires IsNumber(whole, fraction)
    ensures var rest := Signed(negative, whole, fraction);
      && ParseSigned(rest) == Some((negative, whole, fraction)) && TrailingLetters(rest) == 0
      && rest != "" && IsBody(rest[0]) && IsBody(rest[|rest| - 1])
  {
    var number := whole + "." + fraction;
    assert number[0] == whole[0] && number[|number| - 1] == fraction[1];
    SignIsSplit(if negative then "-" else "", number);
    NumberIsKept(whole, fraction);
    NumberIsRead(whole, fraction);
  }

  lemma TrimCode(code: string, rest: string)
    requires |code| == 3 && AllUpper(code) && rest != "" && !IsWhite(rest[0]) && !IsWhite(rest[|rest| - 1])
    ensures Trim(code + rest) == code + rest && Upper(code) == code
    ensures (code + rest)[..3] == code && TrimStart((code + rest)[3..]) == rest
  {
    TrimNothing(code + rest);
    assert (code + rest)[3..] == rest;
  }

  lemma CurrencyIsSplit(currency: Option<string>, rest: string)
    requires currency.Some? ==> |currency.value| == 3 && AllUpper(currency.value)
    requires rest != "" && !IsAlphabetic(rest[0]) && !IsWhite(rest[0]) && !IsWhite(rest[|rest| - 1])
    requires TrailingLetters(rest) == 0
    ensures SplitCurrency(Trim(Code(currency) + rest)) == Some((currency, rest))
  {
    if currency.Some? {
      LeadingLettersOf(currency.value, rest);
      TrimCode(currency.value, rest);
    } else {
      LeadingLettersOf("", rest);
      assert "" + rest == rest;
      TrimNothing(rest);
    }
  }

  lemma SplitIsRead(text: string, currency: Option<string>, rest: string, signed: (bool, string, string))
    requires SplitCurrency(Trim(text)) == Some((currency, rest)) && ParseSigned(rest) == Some(signed)
    ensures ParseMonetaryText(text) == Some(Amount(currency, signed.0, signed.1, signed.2))
  {
  }

  lemma WireIsRead(currency: Option<string>, rest: string, signed: (bool, string, string))
    requires currency.Some? ==> |currency.value| == 3 && AllUpper(currency.value)
    requires rest != "" && IsBody(rest[0]) && IsBody(rest[|rest| - 1]) && TrailingLetters(rest) == 0
    requires ParseSigned(rest) == Some(signed)
    ensures ParseMonetaryText(Code(currency) + rest) == Some(Amount(currency, signed.0, signed.1, signed.2))
  {
    CurrencyIsSplit(currency, rest);
    SplitIsRead(Code(currency) + rest, currency, rest, signed);
  }

  /** The wire form is read as itself: coercion is a fixed point on its own output. */
  lemma WireFormIsFixed(a: Amount)
    requires WellFormed(a)
    ensures ParseMonetaryText(Wire(a)) == Some(a)
  {
    SignedIsRead(a.negative, a.whole, a.fraction);
    WireIsRead(a.currency, Signed(a.negative, a.whole, a.fraction), (a.negative, a.whole, a.fraction));
  }

  /** Coercing an accepted amount again changes nothing. */
  lemma CoercingAgain(text: string)
    requires ParseMonetaryText(text).Some?
    ensures ParseMonetaryText(Wire(ParseMonetaryText(text).value)) == ParseMonetaryText(text)
  {
    OnlyWireFormComesOut(text);
    WireFormIsFixed(ParseMonetaryText(text).value);
  }

  // ------------------------------------------------------- what is read

  lemma {:induction false} SomeOccurrence(s: string, c: char)
    requires c in s
    ensures Occurrences(s, c) > 0
  {
    var n := |s| - 1;
    if s[n] != c {
      assert s == s[..n] + [s[n]];
      SomeOccurrence(s[..n], c);
    }
  }

  lemma LastIsDecimal(whole: string, group: char, decimal: char, fraction: string)
    requires IsSeparator(group) && IsSeparator(decimal) && group != decimal && group in whole && AllDigits(fraction)
    ensures DecimalAt(whole + [decimal] + fraction) == At(|whole|)
  {
    var head := whole + [decimal];
    assert head[..|whole|] == whole;
    LastSeparatorBefore(head, fraction);
    SomeOccurrence(whole, group);
    OccurrencesConcat(whole, [decimal], group);
    OccurrencesConcat(head, fraction, group);
    OccurrencesConcat(head, fraction, decimal);
  }

  lemma DigitsAround(whole: string, decimal: char, fraction: string)
    requires Keep(whole, IsDigit) != "" && |fraction| <= 2 && AllDigits(fraction)
    ensures Digits(whole + [decimal] + fraction, At(|whole|)) == Some((Keep(whole, IsDigit), Padded(fraction)))
  {
    var s := whole + [decimal] + fraction;
    assert s[..|whole|] == whole && s[|whole| + 1..] == fraction;
  }

  lemma OnlyNumber(whole: string, decimal: char, fraction: string)
    requires OnlyDigitsAndSeparators(whole) && IsSeparator(decimal) && AllDigits(fraction)
    ensures OnlyDigitsAndSeparators(whole + [decimal] + fraction)
  {
  }

  lemma DecimalIsRead(whole: string, decimal: char, fraction: string)
    requires OnlyDigitsAndSeparators(whole) && IsSeparator(decimal) && Keep(whole, IsDigit) != ""
    requires |fraction| <= 2 && AllDigits(fraction) && DecimalAt(whole + [decimal] + fraction) == At(|whole|)
    ensures ParseNumber(whole + [decimal] + fraction) == Some((Keep(whole, IsDigit), Padded(fraction)))
  {
    OnlyNumber(whole, decimal, fraction);
    DigitsAround(whole, decimal, fraction);
  }

  /** Without a digit before the decimal separator or with more than two behind it nothing is read. */
  lemma DecimalIsRejected(whole: string, decimal: char, fraction: string)
    requires Keep(whole, IsDigit) == "" || |fraction| > 2
    requires DecimalAt(whole + [decimal] + fraction) == At(|whole|)
    ensures ParseNumber(whole + [decimal] + fraction) == None
  {
    var s := whole + [decimal] + fraction;
    assert s[..|whole|] == whole && s[|whole| + 1..] == fraction;
  }

  /**
   * With both separators the last one is decimal and all before it only group:
   * `1.250,00`, `1,250.0`, `1,250.`; more than two decimals or no whole digit is refused.
   */
  lemma MixedSeparatorsAreRead(whole: string, group: char, decimal: char, fraction: string)
    requires IsSeparator(group) && IsSeparator(decimal) && group != decimal
    requires group in whole && OnlyDigitsAndSeparators(whole) && AllDigits(fraction)
    ensures ParseNumber(whole + [decimal] + fraction)
         == if |fraction| <= 2 && Keep(whole, IsDigit) != ""
            then Some((Keep(whole, IsDigit), Padded(fraction)))
            else None
  {
    LastIsDecimal(whole, group, decimal, fraction);
    if |fraction| <= 2 && Keep(whole, IsDigit) != "" {
      DecimalIsRead(whole, decimal, fraction);
    } else {
      DecimalIsRejected(whole, decimal, fraction);
    }
  }

  lemma ThreeLastDigitsGroup(head: string, group: char, last: string)
    requires IsSeparator(group) && |last| == 3 && AllDigits(last)
    requires forall i :: 0 <= i < |head| ==> IsDigit(head[i]) || head[i] == group
    ensures DecimalAt(head + [group] + last) == Whole && OnlyDigitsAndSeparators(head + [group] + last)
  {
    var start := head + [group];
    var other := if group == '.' then ',' else '.';
    assert start[..|head|] == head;
    LastSeparatorBefore(start, last);
    NoOccurrence(start + last, other);
  }

  lemma DroppedAlone(c: char, keep: char -> bool)
    requires !keep(c)
    ensures Keep([c], keep) == ""
  {
    assert [c][1..] == "";
  }

  lemma DroppedBehind(head: string, c: char, keep: char -> bool)
    requires !keep(c)
    ensures Keep(head + [c], keep) == Keep(head, keep)
  {
    KeepConcat(head, [c], keep);
    DroppedAlone(c, keep);
  }

  lemma KeptAround(head: string, c: char, last: string, keep: char -> bool)
    requires !keep(c) && Keep(last, keep) == last
    ensures Keep(head + [c] + last, keep) == Keep(head, keep) + last
  {
    KeepConcat(head + [c], last, keep);
    DroppedBehind(head, c, keep);
  }

  lemma WholeIsRead(s: string)
    requires s != "" && OnlyDigitsAndSeparators(s)
    requires DecimalAt(s) == Whole && Keep(s, IsDigit) != ""
    ensures ParseNumber(s) == Some((Keep(s, IsDigit), "00"))
  {
  }

  /** One kind of separator before exactly three last digits only groups: `1.250` and `1.250.000`. */
  lemma GroupsOfThreeAreRead(head: string, group: char, last: string)
    requires IsSeparator(group) && |last| == 3 && AllDigits(last)
    requires forall i :: 0 <= i < |head| ==> IsDigit(head[i]) || head[i] == group
    ensures ParseNumber(head + [group] + last) == Some((Keep(head, IsDigit) + last, "00"))
  {
    ThreeLastDigitsGroup(head, group, last);
    KeepAll(last, IsDigit);
    KeptAround(head, group, last, IsDigit);
    var s := head + [group] + last;
    assert s != "" && Keep(s, IsDigit) != "";
    WholeIsRead(s);
  }

  lemma LoneIsDecimal(whole: string, decimal: char, fraction: string)
    requires IsSeparator(decimal) && AllDigits(whole) && 1 <= |fraction| <= 2 && AllDigits(fraction)
    ensures DecimalAt(whole + [decimal] + fraction) == At(|whole|)
  {
    var head := whole + [decimal];
    assert head[..|whole|] == whole;
    LastSeparatorBefore(head, fraction);
    NoOccurrence(whole, '.');
    NoOccurrence(whole, ',');
    NoOccurrence(fraction, '.');
    NoOccurrence(fraction, ',');
    OccurrencesConcat(head, fraction, '.');
    OccurrencesConcat(head, fraction, ',');
  }

  /** A lone separator before one or two last digits is decimal, whichever it is. */
  lemma LoneSeparatorIsDecimal(whole: string, decimal: char, fraction: string)
    requires IsSeparator(decimal) && whole != "" && AllDigits(whole) && 1 <= |fraction| <= 2 && AllDigits(fraction)
    ensures ParseNumber(whole + [decimal] + fraction) == Some((whole, Padded(fraction)))
  {
    LoneIsDecimal(whole, decimal, fraction);
    KeepAll(whole, IsDigit);
    DecimalIsRead(whole, decimal, fraction);
  }

  lemma {:induction false} TrailingLettersOf(rest: string, code: string)
    requires AllLetters(code) && rest != "" && !IsAlphabetic(rest[|rest| - 1])
    ensures TrailingLetters(rest + code) == |code|
  {
    if code == "" {
      assert rest + code == rest;
    } else {
      var n := |code| - 1;
      assert (rest + code)[..|rest| + n] == rest + code[..n];
      TrailingLettersOf(rest, code[..n]);
    }
  }

  predicate AllWhite(s: string) {
    forall i :: 0 <= i < |s| ==> IsWhite(s[i])
  }

  predicate IsSpaceOrLetter(c: char) {
    IsWhite(c) || IsAlphabetic(c)
  }

  /** The text of an amount without its currency: no space and no letter at either end. */
  predicate IsBare(body: string) {
    body != "" && !IsSpaceOrLetter(body[0]) && !IsSpaceOrLetter(body[|body| - 1])
  }

  lemma {:induction false} GapBefore(gap: string, body: string)
    requires AllWhite(gap) && IsBare(body)
    ensures TrimStart(gap + body) == body
  {
    if gap == "" {
      assert gap + body == body;
    } else {
      assert (gap + body)[1..] == gap[1..] + body;
      GapBefore(gap[1..], body);
    }
  }

  lemma {:induction false} GapAfter(body: string, gap: string)
    requires AllWhite(gap) && IsBare(body)
    ensures TrimEnd(body + gap) == body
  {
    if gap == "" {
      assert body + gap == body;
    } else {
      var n := |gap| - 1;
      assert (body + gap)[..|body| + n] == body + gap[..n];
      GapAfter(body, gap[..n]);
    }
  }

  lemma CodeInFront(code: string, gap: string, body: string)
    requires |code| == 3 && AllLetters(code) && AllWhite(gap) && IsBare(body)
    ensures SplitCurrency(Trim(code + (gap + body))) == Some((Some(Upper(code)), body))
  {
    var rest := gap + body;
    var text := code + rest;
    TrimNothing(text);
    LeadingLettersOf(code, rest);
    GapBefore(gap, body);
    assert text[..3] == code && text[3..] == rest;
  }

  lemma CodeBehind(body: string, gap: string, code: string)
    requires |code| == 3 && AllLetters(code) && AllWhite(gap) && IsBare(body)
    ensures SplitCurrency(Trim((body + gap) + code)) == Some((Some(Upper(code)), body))
  {
    var rest := body + gap;
    var text := rest + code;
    TrimNothing(text);
    TrailingLettersOf(rest, code);
    GapAfter(body, gap);
    assert text[|text| - 3..] == code && text[..|text| - 3] == rest;
  }

  /**
   * A currency code in any case may stand behind the amount as well as before it,
   * with or without space between them, and comes out in capitals.
   */
  lemma CodeMayFollow(body: string, gap: string, code: string)
    requires |code| == 3 && AllLetters(code) && AllWhite(gap) && IsBare(body)
    ensures ParseMonetaryText(body + gap + code) == ParseMonetaryText(code + (gap + body))
    ensures var parsed := ParseMonetaryText(body + gap + code);
      && (parsed.Some? <==> ParseSigned(body).Some?)
      && (parsed.Some? ==> parsed.value.currency == Some(Upper(code)))
  {
    CodeInFront(code, gap, body);
    CodeBehind(body, gap, code);
  }

  /** Any other ending after one kind of separator is refused: `1.2345`, `1.` and `1.2.34`. */
  lemma OtherEndingsAreRejected(head: string, sep: char, last: string)
    requires IsSeparator(sep) && AllDigits(last) && |last| != 3
    requires forall i :: 0 <= i < |head| ==> IsDigit(head[i]) || head[i] == sep
    requires sep in head || last == "" || |last| > 3
    ensures ParseNumber(head + [sep] + last) == None
  {
    var start := head + [sep];
    var other := if sep == '.' then ',' else '.';
    assert start[..|head|] == head;
    LastSeparatorBefore(start, last);
    NoOccurrence(start + last, other);
    if sep in head {
      SomeOccurrence(head, sep);
      OccurrencesConcat(start, last, sep);
    }
  }

  /** Letters before or behind an amount that are not three are no currency code, and refuse the text. */
  lemma OtherCodesAreRejected(text: string, code: string, rest: string)
    requires code != "" && |code| != 3 && forall i :: 0 <= i < |code| ==> IsAlphabetic(code[i])
    requires rest != "" && !IsAlphabetic(rest[0]) && !IsAlphabetic(rest[|rest| - 1])
    requires Trim(text) == code + rest || Trim(text) == rest + code
    ensures ParseMonetaryText(text).None?
  {
    if Trim(text) == code + rest {
      LeadingLettersOf(code, rest);
    } else {
      TrailingLettersOf(rest, code);
      assert LeadingLetters(rest + code) == 0;
    }
  }

  lemma {:induction false} SymbolBehind(s: string, c: char)
    requires IsSymbol(c)
    ensures DropSymbolsAfter(DropSymbolsBefore(s + [c])) == DropSymbolsAfter(DropSymbolsBefore(s))
  {
    if s == "" {
      assert [c][1..] == "" && s + [c] == [c];
    } else if IsSymbol(s[0]) {
      assert (s + [c])[1..] == s[1..] + [c];
      SymbolBehind(s[1..], c);
    } else {
      assert (s + [c])[..|s|] == s;
    }
  }

  /** Currency symbols before or behind an amount make no difference. */
  lemma SymbolsDoNotMatter(rest: string, c: char)
    requires IsSymbol(c)
    ensures ParseSigned([c] + rest) == ParseSigned(rest) && ParseSigned(rest + [c]) == ParseSigned(rest)
  {
    assert ([c] + rest)[1..] == rest;
    SymbolBehind(rest, c);
  }

  // ------------------------------------------------------- other characters

  /** Neither part of a number, nor a sign, symbol or letter, nor something that only groups. */
  predicate IsForeign(c: char) {
    && !IsDigit(c) && !IsSeparator(c) && c != '-' && !IsAlphabetic(c)
    && !IsSymbol(c) && IsNoGrouping(c) && !IsWhite(c)
  }

  lemma {:induction false} TrimStartKeeps(s: string, c: char)
    requires c in s && !IsWhite(c)
    ensures c in TrimStart(s)
  {
    if IsWhite(s[0]) { TrimStartKeeps(s[1..], c); }
  }

  lemma {:induction false} TrimEndKeeps(s: string, c: char)
    requires c in s && !IsWhite(c)
    ensures c in TrimEnd(s)
  {
    if IsWhite(s[|s| - 1]) { TrimEndKeeps(s[..|s| - 1], c); }
  }

  lemma {:induction false} SymbolsBeforeKeep(s: string, c: char)
    requires c in s && !IsSymbol(c)
    ensures c in DropSymbolsBefore(s)
  {
    if IsSymbol(s[0]) { SymbolsBeforeKeep(s[1..], c); }
  }

  lemma {:induction false} SymbolsAfterKeep(s: string, c: char)
    requires c in s && !IsSymbol(c)
    ensures c in DropSymbolsAfter(s)
  {
    if IsSymbol(s[|s| - 1]) { SymbolsAfterKeep(s[..|s| - 1], c); }
  }

  lemma {:induction false} KeepKeeps(s: string, keep: char -> bool, c: char)
    requires c in s && keep(c)
    ensures c in Keep(s, keep)
  {
    if s[0] != c { KeepKeeps(s[1..], keep, c); }
  }

  lemma ForeignStaysInNumber(rest: string, c: char)
    requires c in rest && IsForeign(c)
    ensures ParseSigned(rest).None?
  {
    SymbolsBeforeKeep(rest, c);
    SymbolsAfterKeep(DropSymbolsBefore(rest), c);
    TrimStartKeeps(DropSymbolsAfter(DropSymbolsBefore(rest)), c);
    TrimEndKeeps(TrimStart(DropSymbolsAfter(DropSymbolsBefore(rest))), c);
    var bare := DropSymbols(rest);
    if "-" <= bare { TrimStartKeeps(bare[1..], c); }
    KeepKeeps(if "-" <= bare then TrimStart(bare[1..]) else bare, IsNoGrouping, c);
  }

  lemma ForeignStaysInRest(text: string, c: char)
    requires c in text && IsForeign(c) && SplitCurrency(text).Some?
    ensures c in SplitCurrency(text).value.1
  {
    if LeadingLetters(text) == 3 {
      assert text == text[..3] + text[3..];
      TrimStartKeeps(text[3..], c);
    } else if TrailingLetters(text) == 3 {
      assert text == text[..|text| - 3] + text[|text| - 3..];
      TrimEndKeeps(text[..|text| - 3], c);
    }
  }

  /** A text with any other character in it is no amount. */
  lemma ForeignIsRejected(text: string, c: char)
    requires c in text && IsForeign(c)
    ensures ParseMonetaryText(text).None?
  {
    TrimStartKeeps(text, c);
    TrimEndKeeps(TrimStart(text), c);
    if SplitCurrency(Trim(text)).Some? {
      ForeignStaysInRest(Trim(text), c);
      ForeignStaysInNumber(SplitCurrency(Trim(text)).value.1, c);
    }
  }
}
