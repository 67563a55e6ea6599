/**
 * Removal of inline reasoning blocks. The loop jumps from tag to tag; the
 * reference reads the text as tokens and keeps a nesting depth per tag family.
 */
module ThinkStrip {
  import opened Options
  import opened Text

  const U32_MAX := 0xffff_ffff

  datatype Family = Think | Minimax

  datatype Tag = Tag(family: Family, opens: bool)

  const TAGS := [Tag(Think, true), Tag(Minimax, true), Tag(Think, false), Tag(Minimax, false)]
  const SPELLINGS := ["<think>", "<mm:think>", "</think>", "</mm:think>"]

  /** The number of characters of a tag. */
  function Width(t: Tag): nat {
    match t.family
    case Think => if t.opens then 7 else 8
    case Minimax => if t.opens then 10 else 11
  }

  // ------------------------------------------------------------ the reference

  datatype Token = Char(c: char) | Mark(tag: Tag)

  /** The tag that starts at a position, if any. */
  type Scanner = int -> Option<Tag>

  function TagsOf(s: string): Scanner {
    i =>
      if i < 0 then None
      else if At(s, i, "<think>") then Some(Tag(Think, true))
      else if At(s, i, "<mm:think>") then Some(Tag(Minimax, true))
      else if At(s, i, "</think>") then Some(Tag(Think, false))
      else if At(s, i, "</mm:think>") then Some(Tag(Minimax, false))
      else None
  }

  /** The tokens of the text from position `i` on. */
  function Tokens(s: string, tags: Scanner, i: nat): seq<Token>
    decreases |s| - i
  {
    if i >= |s| then []
    else
      match tags(i)
      case Some(t) => [Mark(t)] + Tokens(s, tags, i + Width(t))
      case None => [Char(s[i])] + Tokens(s, tags, i + 1)
  }

  /** A nesting depth; `most` is where the counter saturates, if it does. */
  function Count(d: nat, opens: bool, most: Option<nat>): nat {
    if !opens then (if d == 0 then 0 else d - 1)
    else if most == Some(d) then d
    else d + 1
  }

  /** Nesting depth of a family after the tokens. */
  function Depth(ts: seq<Token>, f: Family, most: Option<nat>): nat {
    if ts == [] then 0
    else
      var d := Depth(ts[..|ts| - 1], f, most);
      match ts[|ts| - 1]
      case Char(_) => d
      case Mark(t) => if t.family == f then Count(d, t.opens, most) else d
  }

  predicate Outside(ts: seq<Token>, most: Option<nat>) {
    Depth(ts, Think, most) == 0 && Depth(ts, Minimax, most) == 0
  }

  /** The characters met while both depths are zero. */
  function Visible(ts: seq<Token>, most: Option<nat>): string {
    if ts == [] then ""
    else
      var before, last := ts[..|ts| - 1], ts[|ts| - 1];
      Visible(before, most) + if last.Char? && Outside(before, most) then [last.c] else ""
  }

  function Stripped(text: string, most: Option<nat>): string {
    Visible(Tokens(text, TagsOf(text), 0), most)
  }

  // --------------------------------------------------------- the leftmost tag

  /** `r` is the first occurrence of a part. */
  ghost predicate FirstAt(s: string, from: nat, part: string, r: Option<nat>) {
    match r
    case Some(n) => from <= n && At(s, n, part) && forall i :: from <= i < n ==> !At(s, i, part)
    case None => forall i :: from <= i <= |s| ==> !At(s, i, part)
  }

  /** `str::find`. */
  method Find(s: string, from: nat, part: string) returns (r: Option<nat>)
    requires from <= |s|
    ensures FirstAt(s, from, part, r)
  {
    var i := from;
    while i <= |s|
      invariant from <= i <= |s| + 1
      invariant forall j :: from <= j < i ==> !At(s, j, part)
    {
      if At(s, i, part) {
        return Some(i);
      }
      i := i + 1;
    }
    return None;
  }

  /** None of the first `n` parts starts in the range. */
  ghost predicate NoneOf(s: string, parts: seq<string>, from: nat, limit: nat, n: nat)
    requires n <= |parts|
  {
    forall i, k :: from <= i < limit && 0 <= k < n ==> !At(s, i, parts[k])
  }

  /** The leftmost occurrence and its part, as `min_by_key` over the searches finds it. */
  method Leftmost(s: string, from: nat, parts: seq<string>) returns (found: Option<(nat, nat)>)
    requires from <= |s| && forall k :: 0 <= k < |parts| ==> parts[k] != ""
    ensures found.Some? ==> from <= found.value.0 < |s| && found.value.1 < |parts|
    ensures found.Some? ==> At(s, found.value.0, parts[found.value.1])
    ensures NoneOf(s, parts, from, if found.Some? then found.value.0 else |s|, |parts|)
  {
    found := None;
    var k := 0;
    while k < |parts|
      invariant k <= |parts|
      invariant found.Some? ==> from <= found.value.0 < |s| && found.value.1 < |parts|
      invariant found.Some? ==> At(s, found.value.0, parts[found.value.1])
      invariant NoneOf(s, parts, from, if found.Some? then found.value.0 else |s|, k)
    {
      var offset := Find(s, from, parts[k]);
      if offset.Some? && (found.None? || offset.value < found.value.0) {
        found := Some((offset.value, k));
      }
      k := k + 1;
    }
  }

  ghost predicate NoTag(tags: Scanner, from: nat, limit: nat) {
    forall i :: from <= i < limit ==> tags(i).None?
  }

  lemma NoSpellingNoTag(s: string, from: nat, limit: nat)
    requires NoneOf(s, SPELLINGS, from, limit, |SPELLINGS|)
    ensures NoTag(TagsOf(s), from, limit)
  {
    forall i | from <= i < limit ensures TagsOf(s)(i).None? {
      assert forall k :: 0 <= k < |SPELLINGS| ==> !At(s, i, SPELLINGS[k]);
      assert SPELLINGS[0] == "<think>" && SPELLINGS[1] == "<mm:think>";
      assert SPELLINGS[2] == "</think>" && SPELLINGS[3] == "</mm:think>";
    }
  }

  /** The third character after the start tells a closer of one family from the other. */
  lemma Distinguished(s: string, i: nat, part: string)
    requires At(s, i, part) && |part| > 2
    ensures s[i + 1] == part[1] && s[i + 2] == part[2]
  {
    assert s[i..i + |part|][1] == part[1] && s[i..i + |part|][2] == part[2];
  }

  /** No tag is a prefix of another: at most one starts at a position. */
  lemma SpelledTag(s: string, i: nat, k: nat)
    requires k < |TAGS| && At(s, i, SPELLINGS[k])
    ensures TagsOf(s)(i) == Some(TAGS[k]) && Width(TAGS[k]) == |SPELLINGS[k]|
  {
    Distinguished(s, i, SPELLINGS[k]);
    if At(s, i, "<think>") { Distinguished(s, i, "<think>"); }
    if At(s, i, "<mm:think>") { Distinguished(s, i, "<mm:think>"); }
    if At(s, i, "</think>") { Distinguished(s, i, "</think>"); }
    if At(s, i, "</mm:think>") { Distinguished(s, i, "</mm:think>"); }
  }

  method LeftmostTag(s: string, from: nat) returns (found: Option<(nat, Tag)>)
    requires from <= |s|
    ensures found.Some? ==> from <= found.value.0 && found.value.0 + Width(found.value.1) <= |s|
    ensures found.Some? ==> TagsOf(s)(found.value.0) == Some(found.value.1)
    ensures NoTag(TagsOf(s), from, if found.Some? then found.value.0 else |s|)
  {
    var hit := Leftmost(s, from, SPELLINGS);
    NoSpellingNoTag(s, from, if hit.Some? then hit.value.0 else |s|);
    if hit.None? {
      return None;
    }
    SpelledTag(s, hit.value.0, hit.value.1);
    return Some((hit.value.0, TAGS[hit.value.1]));
  }

  // ----------------------------------------------------------------- the loop

  lemma Push(ts: seq<Token>, t: Token)
    ensures (ts + [t])[..|ts|] == ts && (ts + [t])[|ts|] == t
  {
  }

  /** Text between two tags as tokens. */
  function Chars(s: string): seq<Token> {
    if s == "" then [] else [Char(s[0])] + Chars(s[1..])
  }

  lemma FirstOfText(s: string, from: nat, limit: nat, tail: seq<Token>)
    requires from < limit <= |s|
    ensures Chars(s[from..limit]) + tail == [Char(s[from])] + (Chars(s[from + 1..limit]) + tail)
  {
    assert s[from..limit][1..] == s[from + 1..limit];
    var head, rest := [Char(s[from])], Chars(s[from + 1..limit]);
    assert head + rest + tail == head + (rest + tail);
  }

  lemma {:induction false} TokensOfText(s: string, tags: Scanner, from: nat, limit: nat)
    requires from <= limit <= |s| && NoTag(tags, from, limit)
    ensures Tokens(s, tags, from) == Chars(s[from..limit]) + Tokens(s, tags, limit)
    decreases limit - from
  {
    if from < limit {
      TokensOfText(s, tags, from + 1, limit);
      FirstOfText(s, from, limit, Tokens(s, tags, limit));
    }
  }

  lemma PassChar(done: seq<Token>, c: char, f: Family, most: Option<nat>)
    ensures Depth(done + [Char(c)], f, most) == Depth(done, f, most)
    ensures Visible(done + [Char(c)], most) == Visible(done, most) + if Outside(done, most) then [c] else ""
  {
    Push(done, Char(c));
  }

  lemma NothingBehind(done: seq<Token>)
    ensures done + Chars("") == done
  {
  }

  lemma FirstBehind(done: seq<Token>, s: string)
    requires s != ""
    ensures done + Chars(s) == done + [Char(s[0])] + Chars(s[1..])
  {
    var first, rest := [Char(s[0])], Chars(s[1..]);
    assert done + (first + rest) == done + first + rest;
  }

  /** Characters change no depth. */
  lemma {:induction false} CharsKeepDepth(done: seq<Token>, s: string, f: Family, most: Option<nat>)
    ensures Depth(done + Chars(s), f, most) == Depth(done, f, most)
    decreases |s|
  {
    if s == "" {
      NothingBehind(done);
    } else {
      PassChar(done, s[0], f, most);
      CharsKeepDepth(done + [Char(s[0])], s[1..], f, most);
      FirstBehind(done, s);
    }
  }

  lemma ShownBehind(shown: string, s: string, outside: bool)
    requires s != ""
    ensures shown + (if outside then [s[0]] else "") + (if outside then s[1..] else "")
         == shown + if outside then s else ""
  {
    assert s == [s[0]] + s[1..];
  }

  /** Characters show while both depths are zero. */
  lemma {:induction false} CharsShow(done: seq<Token>, s: string, most: Option<nat>)
    ensures Visible(done + Chars(s), most) == Visible(done, most) + if Outside(done, most) then s else ""
    decreases |s|
  {
    if s == "" {
      NothingBehind(done);
    } else {
      PassChar(done, s[0], Think, most);
      PassChar(done, s[0], Minimax, most);
      CharsShow(done + [Char(s[0])], s[1..], most);
      FirstBehind(done, s);
      ShownBehind(Visible(done, most), s, Outside(done, most));
    }
  }

  lemma PassText(done: seq<Token>, s: string, most: Option<nat>)
    ensures Depth(done + Chars(s), Think, most) == Depth(done, Think, most)
    ensures Depth(done + Chars(s), Minimax, most) == Depth(done, Minimax, most)
    ensures Visible(done + Chars(s), most) == Visible(done, most) + if Outside(done, most) then s else ""
  {
    CharsKeepDepth(done, s, Think, most);
    CharsKeepDepth(done, s, Minimax, most);
    CharsShow(done, s, most);
  }

  /** The loop has read the tokens `done`, up to position `at`. */
  ghost predicate ReadUpTo(text: string, tags: Scanner, done: seq<Token>, at: nat) {
    Tokens(text, tags, 0) == done + Tokens(text, tags, at)
  }

  lemma ReadText(text: string, tags: Scanner, done: seq<Token>, from: nat, limit: nat)
    requires from <= limit <= |text| && NoTag(tags, from, limit) && ReadUpTo(text, tags, done, from)
    ensures ReadUpTo(text, tags, done + Chars(text[from..limit]), limit)
  {
    TokensOfText(text, tags, from, limit);
    var chars, tail := Chars(text[from..limit]), Tokens(text, tags, limit);
    assert done + (chars + tail) == done + chars + tail;
  }

  lemma ReadTag(text: string, tags: Scanner, done: seq<Token>, at: nat, t: Tag)
    requires at < |text| && tags(at) == Some(t) && ReadUpTo(text, tags, done, at)
    ensures ReadUpTo(text, tags, done + [Mark(t)], at + Width(t))
  {
    var tail := Tokens(text, tags, at + Width(t));
    assert done + ([Mark(t)] + tail) == done + [Mark(t)] + tail;
  }

  lemma PassTag(done: seq<Token>, t: Tag, most: Option<nat>)
    ensures Visible(done + [Mark(t)], most) == Visible(done, most)
    ensures forall f :: Depth(done + [Mark(t)], f, most)
                     == if t.family == f then Count(Depth(done, f, most), t.opens, most) else Depth(done, f, most)
  {
    Push(done, Mark(t));
  }

  /** What the loop keeps: the tokens read, the position, the output and the two counters. */
  ghost predicate Scanned(text: string, done: seq<Token>, at: nat, output: string, think: nat, minimax: nat) {
    && ReadUpTo(text, TagsOf(text), done, at)
    && output == Visible(done, Some(U32_MAX))
    && think == Depth(done, Think, Some(U32_MAX)) && minimax == Depth(done, Minimax, Some(U32_MAX))
  }

  lemma ScanText(text: string, done: seq<Token>, from: nat, limit: nat, output: string, think: nat, minimax: nat)
    requires from <= limit <= |text| && NoTag(TagsOf(text), from, limit)
    requires Scanned(text, done, from, output, think, minimax)
    ensures Scanned(text, done + Chars(text[from..limit]), limit,
                    if think == 0 && minimax == 0 then output + text[from..limit] else output, think, minimax)
  {
    ReadText(text, TagsOf(text), done, from, limit);
    PassText(done, text[from..limit], Some(U32_MAX));
  }

  lemma ScanTag(text: string, done: seq<Token>, at: nat, t: Tag, output: string, think: nat, minimax: nat)
    requires at < |text| && TagsOf(text)(at) == Some(t)
    requires Scanned(text, done, at, output, think, minimax)
    ensures Scanned(text, done + [Mark(t)], at + Width(t), output,
                    if t.family == Think then Count(think, t.opens, Some(U32_MAX)) else think,
                    if t.family == Minimax then Count(minimax, t.opens, Some(U32_MAX)) else minimax)
  {
    ReadTag(text, TagsOf(text), done, at, t);
    PassTag(done, t, Some(U32_MAX));
  }

  /** Asks `Kept` for the tokens. */
  predicate Unfolded(done: seq<Token>) {
    true
  }

  /** `Scanned`, which the loop carries along without looking into it. */
  ghost predicate Kept(text: string, done: seq<Token>, at: nat, output: string, think: nat, minimax: nat) {
    forall ts {:trigger Unfolded(ts)} :: ts == done ==> Scanned(text, ts, at, output, think, minimax)
  }

  lemma KeptScanned(text: string, done: seq<Token>, at: nat, output: string, think: nat, minimax: nat)
    ensures Kept(text, done, at, output, think, minimax) <==> Scanned(text, done, at, output, think, minimax)
  {
    assert Unfolded(done);
  }

  lemma ScannedAll(text: string, done: seq<Token>, output: string, think: nat, minimax: nat)
    requires Scanned(text, done, |text|, output, think, minimax)
    ensures output == Stripped(text, Some(U32_MAX))
  {
    assert done + [] == done;
  }

  lemma ScanStart(text: string)
    ensures Kept(text, [], 0, "", 0, 0)
  {
    KeptScanned(text, [], 0, "", 0, 0);
  }

  /** The text up to a tag, and the tag. */
  lemma ScanRound(text: string, done: seq<Token>, from: nat, at: nat, t: Tag, output: string, think: nat, minimax: nat)
    returns (read: seq<Token>)
    requires from <= at < |text| && NoTag(TagsOf(text), from, at) && TagsOf(text)(at) == Some(t)
    requires Kept(text, done, from, output, think, minimax)
    ensures Kept(text, read, at + Width(t),
                 if think == 0 && minimax == 0 then output + text[from..at] else output,
                 if t.family == Think then Count(think, t.opens, Some(U32_MAX)) else think,
                 if t.family == Minimax then Count(minimax, t.opens, Some(U32_MAX)) else minimax)
  {
    var shown := if think == 0 && minimax == 0 then output + text[from..at] else output;
    KeptScanned(text, done, from, output, think, minimax);
    ScanText(text, done, from, at, output, think, minimax);
    ScanTag(text, done + Chars(text[from..at]), at, t, shown, think, minimax);
    read := done + Chars(text[from..at]) + [Mark(t)];
    KeptScanned(text, read, at + Width(t), shown,
                if t.family == Think then Count(think, t.opens, Some(U32_MAX)) else think,
                if t.family == Minimax then Count(minimax, t.opens, Some(U32_MAX)) else minimax);
  }

  lemma ScanRest(text: string, done: seq<Token>, from: nat, output: string, think: nat, minimax: nat)
    requires from <= |text| && NoTag(TagsOf(text), from, |text|)
    requires Kept(text, done, from, output, think, minimax)
    ensures (if think == 0 && minimax == 0 then output + text[from..] else output) == Stripped(text, Some(U32_MAX))
  {
    assert text[from..] == text[from..|text|];
    KeptScanned(text, done, from, output, think, minimax);
    ScanText(text, done, from, |text|, output, think, minimax);
    ScannedAll(text, done + Chars(text[from..|text|]),
               if think == 0 && minimax == 0 then output + text[from..|text|] else output, think, minimax);
  }

  /** `strip_think_blocks`. */
  method StripThinkBlocks(text: string) returns (output: string)
    ensures output == Stripped(text, Some(U32_MAX))
  {
    output := "";
    var rest, think, minimax := 0, 0, 0;
    ghost var done: seq<Token> := [];
    ScanStart(text);
    while true
      invariant rest <= |text| && Kept(text, done, rest, output, think, minimax)
      decreases |text| - rest
    {
      var next := LeftmostTag(text, rest);
      if next.None? {
        ScanRest(text, done, rest, output, think, minimax);
        if think == 0 && minimax == 0 { output := output + text[rest..]; }
        return;
      }
      var (end, tag) := next.value;
      done := ScanRound(text, done, rest, end, tag, output, think, minimax);
      if think == 0 && minimax == 0 { output := output + text[rest..end]; }
      match tag.family {
        case Think => think := Count(think, tag.opens, Some(U32_MAX));
        case Minimax => minimax := Count(minimax, tag.opens, Some(U32_MAX));
      }
      rest := end + Width(tag);
    }
  }

  // ------------------------------------------------------------ main results

  /** Openers minus closers of a family. */
  function Net(ts: seq<Token>, f: Family): int {
    if ts == [] then 0
    else
      Net(ts[..|ts| - 1], f) +
      match ts[|ts| - 1]
      case Char(_) => 0
      case Mark(t) => if t.family != f then 0 else if t.opens then 1 else -1
  }

  /** The unbounded depth is the largest excess of openers over closers of the family in any last stretch of tokens. */
  lemma {:induction false} DepthIsLargestExcess(ts: seq<Token>, f: Family) returns (j: nat)
    ensures j <= |ts| && Net(ts[j..], f) == Depth(ts, f, None)
    ensures forall i :: 0 <= i <= |ts| ==> Net(ts[i..], f) <= Depth(ts, f, None)
  {
    if ts == [] {
      j := 0;
    } else {
      var n := |ts| - 1;
      var before := ts[..n];
      var k := DepthIsLargestExcess(before, f);
      forall i | 0 <= i <= n
        ensures Net(ts[i..], f) == Net(before[i..], f) + Net(ts[n..], f)
      {
        assert ts[i..][..n - i] == before[i..];
        assert ts[n..][..0] == [] && ts[n..][0] == ts[n];
      }
      assert ts[|ts|..] == [];
      j := if Depth(ts, f, None) == 0 then |ts| else k;
    }
  }

  /** No stretch of tokens up to the end opens a family more often than it closes it. */
  ghost predicate Balanced(ts: seq<Token>) {
    forall f, i :: 0 <= i <= |ts| ==> Net(ts[i..], f) <= 0
  }

  lemma OutsideIsBalanced(ts: seq<Token>)
    ensures Outside(ts, None) <==> Balanced(ts)
  {
    var j := DepthIsLargestExcess(ts, Think);
    var k := DepthIsLargestExcess(ts, Minimax);
  }

  /** A character shows exactly when the tokens before it are balanced in both families. */
  lemma ShownExactly(before: seq<Token>, c: char)
    ensures Visible(before + [Char(c)], None) == Visible(before, None) + if Balanced(before) then [c] else ""
  {
    Push(before, Char(c));
    OutsideIsBalanced(before);
  }

  ghost predicate Closes(ts: seq<Token>, f: Family) {
    Mark(Tag(f, false)) in ts
  }

  lemma LastBehind(a: seq<Token>, b: seq<Token>)
    requires b != []
    ensures a + b[..|b| - 1] + [b[|b| - 1]] == a + b
  {
  }

  lemma StaysInside(ts: seq<Token>, t: Token, f: Family)
    requires Depth(ts, f, Some(U32_MAX)) > 0 && t != Mark(Tag(f, false))
    ensures Visible(ts + [t], Some(U32_MAX)) == Visible(ts, Some(U32_MAX)) && Depth(ts + [t], f, Some(U32_MAX)) > 0
  {
    Push(ts, t);
  }

  /** An opener that its own family never closes hides everything after it, whatever the other family does. */
  lemma {:induction false} UnterminatedHidesTail(a: seq<Token>, f: Family, b: seq<Token>)
    requires !Closes(b, f)
    ensures var ts := a + [Mark(Tag(f, true))] + b;
      Visible(ts, Some(U32_MAX)) == Visible(a, Some(U32_MAX)) && Depth(ts, f, Some(U32_MAX)) > 0
  {
    var inside := a + [Mark(Tag(f, true))];
    if b == [] {
      Push(a, Mark(Tag(f, true)));
      assert inside + b == inside;
    } else {
      var n := |b| - 1;
      assert !Closes(b[..n], f) && b[n] in b;
      UnterminatedHidesTail(a, f, b[..n]);
      StaysInside(inside + b[..n], b[n], f);
      LastBehind(inside, b);
    }
  }

  function Spelling(t: Tag): string {
    SPELLINGS[if t.family == Think then if t.opens then 0 else 2 else if t.opens then 1 else 3]
  }

  /** The text of the tokens, for a spelling of the tags. */
  function Spelled(ts: seq<Token>, spell: Tag -> string): string {
    if ts == [] then ""
    else (match ts[0] case Char(c) => [c] case Mark(t) => spell(t)) + Spelled(ts[1..], spell)
  }

  ghost predicate Faithful(s: string, tags: Scanner, spell: Tag -> string, i: nat) {
    tags(i).Some? ==>
      var t := tags(i).value;
      i + Width(t) <= |s| && s[i..i + Width(t)] == spell(t)
  }

  lemma ScannerIsFaithful(s: string, i: nat)
    ensures Faithful(s, TagsOf(s), Spelling, i)
  {
  }

  lemma SpelledStep(t: Token, ts: seq<Token>, spell: Tag -> string)
    ensures Spelled([t] + ts, spell) == (match t case Char(c) => [c] case Mark(m) => spell(m)) + Spelled(ts, spell)
  {
    assert ([t] + ts)[1..] == ts;
  }

  lemma {:induction false} FaithfulTokensSpell(s: string, tags: Scanner, spell: Tag -> string, i: nat)
    requires i <= |s| && forall k: nat :: Faithful(s, tags, spell, k)
    ensures Spelled(Tokens(s, tags, i), spell) == s[i..]
    decreases |s| - i
  {
    if i < |s| {
      assert Faithful(s, tags, spell, i);
      var t := tags(i);
      var next := if t.Some? then i + Width(t.value) else i + 1;
      FaithfulTokensSpell(s, tags, spell, next);
      SpelledStep(if t.Some? then Mark(t.value) else Char(s[i]), Tokens(s, tags, next), spell);
      assert s[i..] == s[i..next] + s[next..];
    }
  }

  /** The tokens are the text, cut into tags and single characters from left to right. */
  lemma TokensSpellTheText(text: string)
    ensures Spelled(Tokens(text, TagsOf(text), 0), Spelling) == text
  {
    forall k: nat ensures Faithful(text, TagsOf(text), Spelling, k) { ScannerIsFaithful(text, k); }
    FaithfulTokensSpell(text, TagsOf(text), Spelling, 0);
    assert text[0..] == text;
  }

  /** Text without any tag is returned as it is. */
  lemma TagFreeUnchanged(text: string)
    requires NoTag(TagsOf(text), 0, |text|)
    ensures Stripped(text, Some(U32_MAX)) == text
  {
    TokensOfText(text, TagsOf(text), 0, |text|);
    PassText([], text, Some(U32_MAX));
    assert text[0..|text|] == text && [] + Chars(text) == Chars(text) == Chars(text) + [];
  }

  lemma {:induction false} SaturatedAtMost(ts: seq<Token>, f: Family)
    ensures Depth(ts, f, Some(U32_MAX)) <= U32_MAX
  {
    if ts != [] { SaturatedAtMost(ts[..|ts| - 1], f); }
  }

  ghost predicate NeverDeep(ts: seq<Token>, f: Family) {
    forall k :: 0 <= k <= |ts| ==> Depth(ts[..k], f, None) <= U32_MAX
  }

  ghost predicate SameDepths(ts: seq<Token>, f: Family) {
    forall k :: 0 <= k <= |ts| ==> Depth(ts[..k], f, Some(U32_MAX)) == Depth(ts[..k], f, None)
  }

  /** The 32-bit counters agree with unbounded ones exactly as long as no family nests deeper than they count. */
  lemma {:induction false} CountersAreExact(ts: seq<Token>, f: Family)
    ensures SameDepths(ts, f) <==> NeverDeep(ts, f)
  {
    if SameDepths(ts, f) {
      forall k | 0 <= k <= |ts| ensures Depth(ts[..k], f, None) <= U32_MAX { SaturatedAtMost(ts[..k], f); }
    } else if NeverDeep(ts, f) {
      forall k | 0 <= k <= |ts| ensures Depth(ts[..k], f, Some(U32_MAX)) == Depth(ts[..k], f, None) {
        CountersAgree(ts, f, k);
      }
    }
  }

  lemma {:induction false} CountersAgree(ts: seq<Token>, f: Family, k: nat)
    requires k <= |ts| && NeverDeep(ts, f)
    ensures Depth(ts[..k], f, Some(U32_MAX)) == Depth(ts[..k], f, None)
  {
    if k > 0 {
      CountersAgree(ts, f, k - 1);
      assert ts[..k][..k - 1] == ts[..k - 1];
      assert Depth(ts[..k], f, None) <= U32_MAX;
    }
  }
}
