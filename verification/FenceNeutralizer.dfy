/**
 * Neutralisation of document fence delimiters: a zero-width space goes between
 * the `<` of every delimiter, in any ASCII case, and the rest of it.
 */
module FenceNeutralizer {
  import opened Text

  const ZERO_WIDTH_SPACE: char := '\U{200B}'
  const TAGS := ["</document>", "<document>"]

  /** The length of the delimiter at a position, or 0. */
  function Delimiter(s: string, i: int): nat {
    if i < 0 then 0
    else if At(Lower(s), i, TAGS[0]) then |TAGS[0]|
    else if At(Lower(s), i, TAGS[1]) then |TAGS[1]|
    else 0
  }

  /** Finds delimiters; `Delimiter` is the one in use. */
  type Detector = (string, int) -> nat

  /** What the loop emits from position `i` on. */
  function Neutral(d: Detector, s: string, i: nat): string
    decreases |s| - i
  {
    if i >= |s| then ""
    else if 0 < d(s, i) <= |s| - i then
      Broken(s, i, d(s, i)) + Neutral(d, s, i + d(s, i))
    else [s[i]] + Neutral(d, s, i + 1)
  }

  /** The delimiter of width `w` at `i` with the space in it. */
  function Broken(s: string, i: nat, w: nat): string
    requires 0 < w <= |s| - i
  {
    ['<', ZERO_WIDTH_SPACE] + s[i + 1..i + w]
  }

  function Neutralized(content: string): string {
    Neutral(Delimiter, content, 0)
  }

  // ----------------------------------------------------------------- the loop

  /** The loop has emitted `out` and stands at position `i`. */
  ghost predicate Emitted(d: Detector, s: string, out: string, i: nat) {
    Neutral(d, s, 0) == out + Neutral(d, s, i)
  }

  lemma EmitDelimiter(d: Detector, s: string, out: string, i: nat)
    requires i < |s| && 0 < d(s, i) <= |s| - i && Emitted(d, s, out, i)
    ensures Emitted(d, s, out + Broken(s, i, d(s, i)), i + d(s, i))
  {
    var broken, rest := Broken(s, i, d(s, i)), Neutral(d, s, i + d(s, i));
    assert out + (broken + rest) == out + broken + rest;
  }

  lemma EmitCharacter(d: Detector, s: string, out: string, i: nat)
    requires i < |s| && d(s, i) == 0 && Emitted(d, s, out, i)
    ensures Emitted(d, s, out + [s[i]], i + 1)
  {
    var rest := Neutral(d, s, i + 1);
    assert out + ([s[i]] + rest) == out + [s[i]] + rest;
  }

  /** `w` is the length of the first part that starts at `i`. */
  ghost predicate FirstPart(s: string, i: nat, parts: seq<string>, w: nat) {
    if w == 0 then forall k :: 0 <= k < |parts| ==> !At(s, i, parts[k])
    else exists k :: 0 <= k < |parts| && w == |parts[k]| && At(s, i, parts[k]) && NoneBefore(s, i, parts, k)
  }

  ghost predicate NoneBefore(s: string, i: nat, parts: seq<string>, k: nat)
    requires k <= |parts|
  {
    forall j :: 0 <= j < k ==> !At(s, i, parts[j])
  }

  /** The loop over the delimiters at one position. */
  method PartAt(s: string, i: nat, parts: seq<string>) returns (w: nat)
    requires forall k :: 0 <= k < |parts| ==> parts[k] != ""
    ensures FirstPart(s, i, parts, w) && (w > 0 ==> i + w <= |s|)
  {
    var t := 0;
    while t < |parts|
      invariant t <= |parts| && NoneBefore(s, i, parts, t)
    {
      if At(s, i, parts[t]) {
        return |parts[t]|;
      }
      t := t + 1;
    }
    return 0;
  }

  lemma DelimiterFound(s: string, i: nat, w: nat)
    requires FirstPart(Lower(s), i, TAGS, w)
    ensures w == Delimiter(s, i)
  {
    if w == 0 {
      assert !At(Lower(s), i, TAGS[0]) && !At(Lower(s), i, TAGS[1]);
    } else {
      var k :| 0 <= k < |TAGS| && w == |TAGS[k]| && At(Lower(s), i, TAGS[k]) && NoneBefore(Lower(s), i, TAGS, k);
    }
  }

  method DelimiterAt(content: string, lower: string, i: nat) returns (w: nat)
    requires lower == Lower(content) && i < |content|
    ensures w == Delimiter(content, i) && i + w <= |content|
  {
    w := PartAt(lower, i, TAGS);
  }

  /** One round of the loop: what is emitted for position `i`, and the next position. */
  method Emit(content: string, lower: string, i: nat, ghost out: string) returns (piece: string, next: nat)
    requires lower == Lower(content) && i < |content| && Emitted(Delimiter, content, out, i)
    ensures i < next <= |content| && Emitted(Delimiter, content, out + piece, next)
  {
    var w := DelimiterAt(content, lower, i);
    if w > 0 {
      EmitDelimiter(Delimiter, content, out, i);
      return Broken(content, i, w), i + w;
    }
    EmitCharacter(Delimiter, content, out, i);
    return [content[i]], i + 1;
  }

  /** `neutralize_fence_delimiters`. */
  method NeutralizeFenceDelimiters(content: string) returns (out: string)
    ensures out == Neutralized(content)
  {
    var lower := Lower(content);
    out := "";
    var i := 0;
    while i < |content|
      invariant i <= |content| && Emitted(Delimiter, content, out, i)
    {
      var piece;
      piece, i := Emit(content, lower, i, out);
      out := out + piece;
    }
    assert out + "" == out;
  }

  // ------------------------------------------------- what delimiters look like

  /** A `<`, then `/` or `d`, then no other `<`. */
  ghost predicate ShapedAt(s: string, i: nat, w: nat) {
    && 1 < w && i + w <= |s| && s[i] == '<'
    && (s[i + 1] == '/' || LowerChar(s[i + 1]) == 'd')
    && forall j :: i < j < i + w ==> s[j] != '<'
  }

  ghost predicate Shape(d: Detector, s: string, i: int) {
    0 <= i && d(s, i) > 0 ==> ShapedAt(s, i, d(s, i))
  }

  /** Whether a delimiter starts somewhere depends only on the characters there. */
  ghost predicate Local(d: Detector, s: string, i: nat, t: string, k: nat) {
    0 < d(s, i) <= |s| - i && k + d(s, i) <= |t| && s[i..i + d(s, i)] == t[k..k + d(s, i)] ==> d(t, k) > 0
  }

  ghost predicate Good(d: Detector) {
    && (forall s, i :: Shape(d, s, i))
    && (forall s, i, t, k :: Local(d, s, i, t, k))
  }

  lemma LowerAt(s: string, i: nat, part: string)
    ensures At(Lower(s), i, part)
       <==> i + |part| <= |s| && forall j :: 0 <= j < |part| ==> LowerChar(s[i + j]) == part[j]
  {
    if At(Lower(s), i, part) {
      forall j | 0 <= j < |part| ensures LowerChar(s[i + j]) == part[j] {
        assert Lower(s)[i..i + |part|][j] == part[j];
      }
    }
  }

  lemma DelimiterShape(s: string, i: nat)
    ensures Shape(Delimiter, s, i)
  {
    if Delimiter(s, i) > 0 {
      var part := if At(Lower(s), i, TAGS[0]) then TAGS[0] else TAGS[1];
      LowerAt(s, i, part);
      assert forall j :: 0 < j < |part| ==> part[j] != '<';
      forall j | i < j < i + |part| ensures s[j] != '<' {
        assert LowerChar(s[i + (j - i)]) == part[j - i];
      }
      assert LowerChar(s[i + 0]) == part[0] && LowerChar(s[i + 1]) == part[1];
    }
  }

  lemma DelimiterLocal(s: string, i: nat, t: string, k: nat)
    ensures Local(Delimiter, s, i, t, k)
  {
    var w := Delimiter(s, i);
    if w > 0 && i + w <= |s| && k + w <= |t| && s[i..i + w] == t[k..k + w] {
      var part := if At(Lower(s), i, TAGS[0]) then TAGS[0] else TAGS[1];
      LowerAt(s, i, part);
      LowerAt(t, k, part);
      forall j | 0 <= j < |part| ensures LowerChar(t[k + j]) == part[j] {
        assert s[i + j] == s[i..i + |part|][j] == t[k..k + |part|][j] == t[k + j];
      }
    }
  }

  lemma DelimiterIsGood()
    ensures Good(Delimiter)
  {
    forall s, i ensures Shape(Delimiter, s, i) { if 0 <= i { DelimiterShape(s, i); } }
    forall s, i: nat, t, k: nat ensures Local(Delimiter, s, i, t, k) { DelimiterLocal(s, i, t, k); }
  }

  // ------------------------------------------------------------ main results

  lemma CopiedHead(d: Detector, s: string, i: nat, out: string)
    requires i <= |s| && Good(d) && out == Neutral(d, s, i) && out != "" && out[0] != '<'
    ensures i < |s| && out == [s[i]] + Neutral(d, s, i + 1)
  {
    ShapeOf(d, s, i);
  }

  lemma TailWithoutOpener(c: char, rest: string, k: nat)
    requires 0 < k <= |rest| + 1 && forall j :: 0 < j < k ==> ([c] + rest)[j] != '<'
    ensures forall j :: 0 <= j < k - 1 ==> rest[j] != '<'
  {
    forall j | 0 <= j < k - 1 ensures rest[j] != '<' { assert ([c] + rest)[j + 1] == rest[j]; }
  }

  lemma HeadAndTail(s: string, i: nat, k: nat, rest: string)
    requires 0 < k && i + k <= |s| && k - 1 <= |rest| && s[i + 1..i + k] == rest[..k - 1]
    ensures s[i..i + k] == ([s[i]] + rest)[..k]
  {
    assert s[i..i + k] == [s[i]] + s[i + 1..i + k];
    assert ([s[i]] + rest)[..k] == [s[i]] + rest[..k - 1];
  }

  /** As long as no `<` is emitted, the output is the input. */
  lemma {:induction false} CopiedPrefix(d: Detector, s: string, i: nat, out: string, k: nat)
    requires i <= |s| && Good(d) && out == Neutral(d, s, i) && k <= |out|
    requires forall j :: 0 <= j < k ==> out[j] != '<'
    ensures i + k <= |s| && s[i..i + k] == out[..k]
    decreases k
  {
    if k > 0 {
      var rest := Neutral(d, s, i + 1);
      CopiedHead(d, s, i, out);
      TailWithoutOpener(s[i], rest, k);
      CopiedPrefix(d, s, i + 1, rest, k - 1);
      HeadAndTail(s, i, k, rest);
    }
  }

  /** A delimiter found after a prefix is a delimiter without the prefix. */
  lemma DropPrefix(d: Detector, head: string, rest: string, p: nat)
    requires Good(d) && |head| <= p && d(head + rest, p) > 0
    ensures d(rest, p - |head|) > 0
  {
    var out := head + rest;
    assert Shape(d, out, p) && Local(d, out, p, rest, p - |head|);
    assert out[p..p + d(out, p)] == rest[p - |head|..p - |head| + d(out, p)];
  }

  /** Behind its first character a delimiter has no `<`. */
  lemma WindowOpensOnce(c: char, rest: string, w: nat)
    requires ShapedAt([c] + rest, 0, w)
    ensures w > 0 && w - 1 <= |rest| && forall j :: 0 <= j < w - 1 ==> rest[j] != '<'
  {
    TailWithoutOpener(c, rest, w);
  }

  /** The start of the output up to a delimiter's end is copied. */
  lemma CopiedWindow(d: Detector, s: string, i: nat, rest: string, w: nat)
    requires Good(d) && i < |s| && rest == Neutral(d, s, i + 1) && ShapedAt([s[i]] + rest, 0, w)
    ensures i + w <= |s| && ([s[i]] + rest)[0..0 + w] == s[i..i + w]
  {
    WindowOpensOnce(s[i], rest, w);
    CopiedPrefix(d, s, i + 1, rest, w - 1);
    HeadAndTail(s, i, w, rest);
  }

  /** A delimiter is found wherever its text stands. */
  lemma FoundAgain(d: Detector, s: string, i: nat, t: string, k: nat, w: nat)
    requires Good(d) && w == d(s, i) && 0 < w && i + w <= |s| && k + w <= |t| && s[i..i + w] == t[k..k + w]
    ensures d(t, k) > 0
  {
    assert Local(d, s, i, t, k);
  }

  /** A delimiter that was copied to the start of the output was there in the input. */
  lemma CopiedDelimiter(d: Detector, s: string, i: nat, out: string, w: nat)
    requires Good(d) && i < |s| && out == [s[i]] + Neutral(d, s, i + 1) && w == d(out, 0) && w > 0
    ensures d(s, i) > 0
  {
    ShapeOf(d, out, 0);
    CopiedWindow(d, s, i, Neutral(d, s, i + 1), w);
    FoundAgain(d, out, 0, s, i, w);
  }

  /** In a broken delimiter no delimiter starts. */
  lemma BrokenStartsNothing(d: Detector, s: string, i: nat, rest: string, p: nat)
    requires Good(d) && ShapedAt(s, i, d(s, i)) && p <= d(s, i)
    ensures d(Broken(s, i, d(s, i)) + rest, p) == 0
  {
    var w := d(s, i);
    var out := Broken(s, i, w) + rest;
    assert Shape(d, out, p);
    if p > 1 { assert out[p] == s[i + p - 1]; }
  }

  /** Nothing emitted from position `i` on starts a delimiter at `p`. */
  lemma {:induction false} NothingStarts(d: Detector, s: string, i: nat, p: nat)
    requires i <= |s| && Good(d)
    ensures d(Neutral(d, s, i), p) == 0
    decreases |s| - i
  {
    assert Shape(d, s, i) && Shape(d, Neutral(d, s, i), p);
    if i < |s| && d(Neutral(d, s, i), p) > 0 {
      var w := d(s, i);
      var head := if w > 0 then Broken(s, i, w) else [s[i]];
      var next := if w > 0 then i + w else i + 1;
      var rest := Neutral(d, s, next);
      if p >= |head| {
        DropPrefix(d, head, rest, p);
        NothingStarts(d, s, next, p - |head|);
      } else if w > 0 {
        BrokenStartsNothing(d, s, i, rest, p);
      } else {
        CopiedDelimiter(d, s, i, head + rest, d(head + rest, p));
      }
    }
  }

  ghost predicate Clean(s: string) {
    forall i: nat :: Delimiter(s, i) == 0
  }

  /** At position `i` the string spells the tag, in any ASCII case. */
  predicate Spells(s: string, i: nat, tag: string) {
    i + |tag| <= |s| && forall j :: 0 <= j < |tag| ==> SameLetter(s[i + j], tag[j])
  }

  lemma DelimiterSpells(s: string, i: nat)
    ensures Delimiter(s, i) > 0 <==> Spells(s, i, "<document>") || Spells(s, i, "</document>")
  {
    forall tag | tag in TAGS ensures Spells(s, i, tag) <==> At(Lower(s), i, tag) {
      LowerAt(s, i, tag);
      forall j | 0 <= j < |tag| && i + |tag| <= |s|
        ensures SameLetter(s[i + j], tag[j]) <==> LowerChar(s[i + j]) == tag[j]
      {
        CaseMapping(s[i + j], tag[j]);
      }
    }
    assert TAGS[0] in TAGS && TAGS[1] in TAGS;
  }

  /** The output holds no fence delimiter in any ASCII case. */
  lemma OutputIsClean(s: string)
    ensures Clean(Neutralized(s))
    ensures forall p: nat :: !Spells(Neutralized(s), p, "<document>") && !Spells(Neutralized(s), p, "</document>")
  {
    DelimiterIsGood();
    forall p: nat ensures Delimiter(Neutralized(s), p) == 0 { NothingStarts(Delimiter, s, 0, p); }
    forall p: nat
      ensures !Spells(Neutralized(s), p, "<document>") && !Spells(Neutralized(s), p, "</document>")
    {
      DelimiterSpells(Neutralized(s), p);
    }
  }

  lemma {:induction false} NeverShorter(d: Detector, s: string, i: nat)
    requires i <= |s| && Good(d)
    ensures |Neutral(d, s, i)| >= |s| - i
    ensures forall k :: i <= k < |s| && d(s, k) > 0 ==> |Neutral(d, s, i)| > |s| - i
    decreases |s| - i
  {
    if i < |s| {
      assert Shape(d, s, i);
      NeverShorter(d, s, if d(s, i) > 0 then i + d(s, i) else i + 1);
    }
  }

  lemma {:induction false} UnchangedWithout(d: Detector, s: string, i: nat)
    requires i <= |s| && forall k :: i <= k < |s| ==> d(s, k) == 0
    ensures Neutral(d, s, i) == s[i..]
    decreases |s| - i
  {
    if i < |s| {
      UnchangedWithout(d, s, i + 1);
      assert s[i..] == [s[i]] + s[i + 1..];
    }
  }

  /** Text is left alone exactly when it holds no delimiter. */
  lemma CleanIsUnchanged(s: string)
    ensures Neutralized(s) == s <==> Clean(s)
  {
    DelimiterIsGood();
    NeverShorter(Delimiter, s, 0);
    if Clean(s) {
      UnchangedWithout(Delimiter, s, 0);
      assert s[0..] == s;
    } else {
      var k: nat :| Delimiter(s, k) != 0;
      assert Shape(Delimiter, s, k);
    }
  }

  /** Neutralising twice is neutralising once. */
  lemma NeutralizingAgain(s: string)
    ensures Neutralized(Neutralized(s)) == Neutralized(s)
  {
    OutputIsClean(s);
    CleanIsUnchanged(Neutralized(s));
  }

  /** The text without zero-width spaces. */
  function Erase(s: string): string {
    if s == "" then "" else (if s[0] == ZERO_WIDTH_SPACE then "" else [s[0]]) + Erase(s[1..])
  }

  lemma {:induction false} EraseConcat(a: string, b: string)
    ensures Erase(a + b) == Erase(a) + Erase(b)
  {
    if a == "" {
      assert a + b == b;
    } else {
      assert (a + b)[1..] == a[1..] + b;
      EraseConcat(a[1..], b);
    }
  }

  lemma EraseBroken(s: string, i: nat, w: nat)
    requires ShapedAt(s, i, w)
    ensures Erase(Broken(s, i, w)) == Erase(s[i..i + w])
  {
    var tail := s[i + 1..i + w];
    var broken := Broken(s, i, w);
    assert broken[1..][1..] == tail && broken[1..][0] == ZERO_WIDTH_SPACE;
    assert s[i..i + w][1..] == tail;
  }

  lemma SplitAt(s: string, i: nat, k: nat)
    requires i <= k <= |s|
    ensures s[i..] == s[i..k] + s[k..]
  {
  }

  /** Erasing distributes over two pairs of parts that erase alike. */
  lemma EraseBoth(head: string, rest: string, first: string, second: string)
    requires Erase(head) == Erase(first) && Erase(rest) == Erase(second)
    ensures Erase(head + rest) == Erase(first + second)
  {
    EraseConcat(head, rest);
    EraseConcat(first, second);
  }

  lemma EraseStep(s: string, i: nat, k: nat, head: string, rest: string)
    requires i <= k <= |s| && Erase(head) == Erase(s[i..k]) && Erase(rest) == Erase(s[k..])
    ensures Erase(head + rest) == Erase(s[i..])
  {
    SplitAt(s, i, k);
    EraseBoth(head, rest, s[i..k], s[k..]);
  }

  lemma ShapeOf(d: Detector, s: string, i: nat)
    requires Good(d)
    ensures d(s, i) > 0 ==> ShapedAt(s, i, d(s, i))
  {
    assert Shape(d, s, i);
  }

  lemma NeutralAt(d: Detector, s: string, i: nat, w: nat)
    requires i < |s| && w == d(s, i) && 0 < w <= |s| - i
    ensures Neutral(d, s, i) == Broken(s, i, w) + Neutral(d, s, i + w)
  {
  }

  lemma EraseDelimiterStep(d: Detector, s: string, i: nat, w: nat)
    requires i < |s| && w == d(s, i) && ShapedAt(s, i, w) && Erase(Neutral(d, s, i + w)) == Erase(s[i + w..])
    ensures Erase(Neutral(d, s, i)) == Erase(s[i..])
  {
    EraseBroken(s, i, w);
    NeutralAt(d, s, i, w);
    EraseStep(s, i, i + w, Broken(s, i, w), Neutral(d, s, i + w));
  }

  lemma EraseCharacterStep(d: Detector, s: string, i: nat)
    requires i < |s| && d(s, i) == 0
    requires Erase(Neutral(d, s, i + 1)) == Erase(s[i + 1..])
    ensures Erase(Neutral(d, s, i)) == Erase(s[i..])
  {
    EraseStep(s, i, i + 1, s[i..i + 1], Neutral(d, s, i + 1));
    assert s[i..i + 1] == [s[i]];
  }

  lemma {:induction false} OnlySpacesAreAdded(d: Detector, s: string, i: nat)
    requires i <= |s| && Good(d)
    ensures Erase(Neutral(d, s, i)) == Erase(s[i..])
    decreases |s| - i
  {
    if i < |s| {
      ShapeOf(d, s, i);
      if d(s, i) > 0 {
        OnlySpacesAreAdded(d, s, i + d(s, i));
        EraseDelimiterStep(d, s, i, d(s, i));
      } else {
        OnlySpacesAreAdded(d, s, i + 1);
        EraseCharacterStep(d, s, i);
      }
    }
  }

  /** The text is preserved up to zero-width spaces. */
  lemma TextIsPreserved(s: string)
    ensures Erase(Neutralized(s)) == Erase(s)
  {
    DelimiterIsGood();
    OnlySpacesAreAdded(Delimiter, s, 0);
    assert s[0..] == s;
  }
}
