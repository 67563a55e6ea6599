/**
 * What happens to a provider response before it is stored: credentials and document
 * content are masked and U+0000 is replaced, while the token counters stay readable.
 * A JSON tree is a value here, so an in-place rewrite is a function of the tree.
 */
module ArtifactRedaction {
  import opened Options
  import opened Json
  import opened Text
  import ReviewMerge

  const NUL: char := '\U{0000}'
  const REPLACEMENT: char := '\U{FFFD}'

  // ------------------------------------------------------------- rewriting

  /** Which member values are masked, and by what; everything else is visited. */
  datatype Policy = Policy(hide: (string, Value) -> bool, mask: Value -> Value)

  function Rewrite(p: Policy, v: Value): Value
    decreases v
  {
    match v
    case Obj(entries) => Obj(RewriteEntries(p, entries))
    case Arr(items) => Arr(RewriteItems(p, items))
    case _ => v
  }

  function RewriteItems(p: Policy, items: seq<Value>): (r: seq<Value>)
    ensures |r| == |items|
    decreases items
  {
    if items == [] then [] else [Rewrite(p, items[0])] + RewriteItems(p, items[1..])
  }

  function RewriteEntries(p: Policy, entries: seq<Entry>): (r: seq<Entry>)
    ensures |r| == |entries|
    decreases entries
  {
    if entries == [] then []
    else
      var e := entries[0];
      [Entry(e.key, if p.hide(e.key, e.value) then p.mask(e.value) else Rewrite(p, e.value))]
      + RewriteEntries(p, entries[1..])
  }

  // ------------------------------------------------------- replacing U+0000

  function ReplaceNul(s: string): (r: string)
    ensures |r| == |s| && forall i :: 0 <= i < |s| ==> r[i] == if s[i] == NUL then REPLACEMENT else s[i]
  {
    seq(|s|, i requires 0 <= i < |s| => if s[i] == NUL then REPLACEMENT else s[i])
  }

  /** Inserting into an ordered map: a value already under the key is replaced. */
  function Put(entries: seq<Entry>, e: Entry): seq<Entry> {
    if entries == [] then [e]
    else if entries[0].key == e.key then [e] + entries[1..]
    else if ReviewMerge.AtMost(e.key, entries[0].key) then [e] + entries
    else [entries[0]] + Put(entries[1..], e)
  }

  /** Collecting entries into a map under their cleaned keys; the last of two equal keys wins. */
  function Collect(entries: seq<Entry>): seq<Entry> {
    if entries == [] then []
    else
      var last := entries[|entries| - 1];
      Put(Collect(entries[..|entries| - 1]), Entry(ReplaceNul(last.key), last.value))
  }

  /** `replace_nul_in_json`; values are cleaned before the keys, which gives the same map. */
  function CleanNul(v: Value): Value
    decreases v
  {
    match v
    case Str(s) => Str(ReplaceNul(s))
    case Arr(items) => Arr(CleanItems(items))
    case Obj(entries) =>
      var clean := CleanEntries(entries);
      Obj(if exists i :: 0 <= i < |entries| && NUL in entries[i].key then Collect(clean) else clean)
    case _ => v
  }

  function CleanItems(items: seq<Value>): (r: seq<Value>)
    ensures |r| == |items|
    decreases items
  {
    if items == [] then [] else [CleanNul(items[0])] + CleanItems(items[1..])
  }

  function CleanEntries(entries: seq<Entry>): (r: seq<Entry>)
    ensures |r| == |entries| && forall i :: 0 <= i < |r| ==> r[i].key == entries[i].key
    decreases entries
  {
    if entries == [] then []
    else [Entry(entries[0].key, CleanNul(entries[0].value))] + CleanEntries(entries[1..])
  }

  // --------------------------------------------------------------- counters

  /** 64-bit addition as a release build computes it. */
  function Add(a: int, b: int): int {
    (a + b - I64_MIN) % 0x1_0000_0000_0000_0000 + I64_MIN
  }

  /** The nested `counter`: a non-negative integer under the path, else 0. */
  function Counter(v: Value, path: seq<string>): int
    decreases |path|
  {
    if path == [] then
      var n := AsI64(v);
      if n.Some? && n.value >= 0 then n.value else 0
    else
      var next := Get(v, path[0]);
      if next.Some? then Counter(next.value, path[1..]) else 0
  }

  function Tokens(v: Value): (int, int) {
    (Add(Add(Counter(v, ["usage", "prompt_tokens"]), Counter(v, ["usage", "input_tokens"])),
         Counter(v, ["prompt_eval_count"])),
     Add(Add(Counter(v, ["usage", "completion_tokens"]), Counter(v, ["usage", "output_tokens"])),
         Counter(v, ["eval_count"])))
  }

  function AddPages(total: (int, int), pages: seq<Value>): (int, int)
    decreases |pages|
  {
    if pages == [] then total
    else
      var page := Tokens(pages[0]);
      AddPages((Add(total.0, page.0), Add(total.1, page.1)), pages[1..])
  }

  function Usage(response: Option<Value>): (int, int) {
    if response.None? then (0, 0)
    else
      var v := response.value;
      var pages := Get(v, "pages");
      if Get(v, "usage").None? && pages.Some? && pages.value.Arr? then AddPages(Tokens(v), pages.value.items)
      else Tokens(v)
  }

  /** `ai_response_token_usage`. */
  method AiResponseTokenUsage(response: Option<Value>) returns (input: int, output: int)
    ensures (input, output) == Usage(response)
  {
    if response.None? {
      return 0, 0;
    }
    var v := response.value;
    var total := Tokens(v);
    input, output := total.0, total.1;
    var pages := Get(v, "pages");
    if Get(v, "usage").None? && pages.Some? && pages.value.Arr? {
      var items := pages.value.items;
      var i := 0;
      while i < |items|
        invariant i <= |items| && AddPages((input, output), items[i..]) == AddPages(total, items)
      {
        var page := Tokens(items[i]);
        assert items[i..][1..] == items[i + 1..];
        input, output := Add(input, page.0), Add(output, page.1);
        i := i + 1;
      }
    }
  }

  // ------------------------------------------------------------ the policies

  predicate Contains(s: string, needle: string) {
    exists i :: 0 <= i <= |s| && At(s, i, needle)
  }

  predicate ContainsAny(s: string, needles: seq<string>) {
    exists k :: 0 <= k < |needles| && Contains(s, needles[k])
  }

  /** One of the needles stands somewhere in the string. */
  lemma ContainsAnyExactly(s: string, needles: seq<string>)
    ensures ContainsAny(s, needles)
      <==> exists needle, before, after :: needle in needles && before + needle + after == s
  {
    if ContainsAny(s, needles) {
      var k :| 0 <= k < |needles| && Contains(s, needles[k]);
      var i :| 0 <= i <= |s| && At(s, i, needles[k]);
      assert s[..i] + needles[k] + s[i + |needles[k]|..] == s;
    }
    forall needle, before, after | needle in needles && before + needle + after == s
      ensures ContainsAny(s, needles)
    {
      assert At(s, |before|, needle);
      assert Contains(s, needle);
    }
  }

  const SENSITIVE_SUBSTRING := ["authorization", "api_key", "apikey", "token", "secret", "password", "paperless_token"]

  const SECRET_EXACT := ["authorization", "api_key", "apikey", "token", "secret", "password", "paperless_token",
    "client_secret", "access_token", "refresh_token", "id_token"]

  const CONTENT_KEYS := ["content", "text", "prompt", "system_prompt", "user_prompt", "response", "images", "image",
    "bytes", "b64_json", "base64"]

  const REDACTED := "[REDACTED]"

  predicate IsScalar(v: Value) {
    v.Num? || v.Bool?
  }

  /** `redact_sensitive_json` with its two key lists. */
  function Sensitive(exact: seq<string>, part: seq<string>): Policy {
    Policy(
      (key, v) => Lower(key) in exact || (ContainsAny(Lower(key), part) && !IsScalar(v)),
      _ => Str(REDACTED))
  }


  /** `ai_artifact_redaction_summary`; `hash` stands for the short digest. */
  function Summary(v: Value, hash: Value -> string): Value {
    match v
    case Str(s) =>
      Obj([Entry("chars", Num(Int(|s|))), Entry("kind", Str("text")), Entry("redacted", Bool(true)),
           Entry("sha256", Str(hash(v)))])
    case Arr(items) =>
      Obj([Entry("items", Num(Int(|items|))), Entry("kind", Str("array")), Entry("redacted", Bool(true))])
    case Obj(entries) =>
      Obj([Entry("keys", Num(Int(|entries|))), Entry("kind", Str("object")), Entry("redacted", Bool(true))])
    case Null => Null
    case _ =>
      Obj([Entry("kind", Str("scalar")), Entry("redacted", Bool(true)), Entry("sha256", Str(hash(v)))])
  }

  /** `redact_ai_artifact_content`. */
  function Content(part: seq<string>, hash: Value -> string): Policy {
    Policy((key, v) => ContainsAny(Lower(key), part) && !IsScalar(v), v => Summary(v, hash))
  }

  // ---------------------------------------------------- counters survive masking

  ghost predicate Shown(p: Policy, key: string) {
    forall v :: !p.hide(key, v)
  }

  ghost predicate NumbersShown(p: Policy, key: string) {
    forall n :: !p.hide(key, Num(n))
  }

  ghost predicate MasksAreNotNumbers(p: Policy) {
    forall v :: !p.mask(v).Num?
  }

  /** The policy never hides a counter or the way to it. */
  ghost predicate Transparent(p: Policy) {
    && Shown(p, "usage") && Shown(p, "pages") && MasksAreNotNumbers(p)
    && NumbersShown(p, "prompt_tokens") && NumbersShown(p, "input_tokens") && NumbersShown(p, "prompt_eval_count")
    && NumbersShown(p, "completion_tokens") && NumbersShown(p, "output_tokens") && NumbersShown(p, "eval_count")
  }

  lemma {:induction false} FindRewritten(p: Policy, entries: seq<Entry>, key: string)
    ensures var before := Find(entries, key);
      Find(RewriteEntries(p, entries), key) ==
        if before.None? then None
        else Some(if p.hide(key, before.value) then p.mask(before.value) else Rewrite(p, before.value))
    decreases |entries|
  {
    if entries != [] {
      assert RewriteEntries(p, entries)[1..] == RewriteEntries(p, entries[1..]);
      FindRewritten(p, entries[1..], key);
    }
  }

  lemma GetRewritten(p: Policy, v: Value, key: string)
    ensures var before := Get(v, key);
      Get(Rewrite(p, v), key) ==
        if before.None? then None
        else Some(if p.hide(key, before.value) then p.mask(before.value) else Rewrite(p, before.value))
  {
    if v.Obj? { FindRewritten(p, v.entries, key); }
  }

  lemma CounterShown(p: Policy, v: Value, key: string)
    requires NumbersShown(p, key) && MasksAreNotNumbers(p)
    ensures Counter(Rewrite(p, v), [key]) == Counter(v, [key])
  {
    GetRewritten(p, v, key);
    assert [key][1..] == [];
    var before := Get(v, key);
    if before.Some? {
      assert !p.mask(before.value).Num?;
      if before.value.Num? { assert !p.hide(key, Num(before.value.n)); }
    }
  }

  lemma CounterUnder(p: Policy, v: Value, outer: string, key: string)
    requires Shown(p, outer) && NumbersShown(p, key) && MasksAreNotNumbers(p)
    ensures Counter(Rewrite(p, v), [outer, key]) == Counter(v, [outer, key])
  {
    GetRewritten(p, v, outer);
    assert [outer, key][1..] == [key];
    var before := Get(v, outer);
    if before.Some? {
      assert !p.hide(outer, before.value);
      CounterShown(p, before.value, key);
    }
  }

  lemma TokensSurvive(p: Policy, v: Value)
    requires Transparent(p)
    ensures Tokens(Rewrite(p, v)) == Tokens(v)
  {
    CounterUnder(p, v, "usage", "prompt_tokens");
    CounterUnder(p, v, "usage", "input_tokens");
    CounterShown(p, v, "prompt_eval_count");
    CounterUnder(p, v, "usage", "completion_tokens");
    CounterUnder(p, v, "usage", "output_tokens");
    CounterShown(p, v, "eval_count");
  }

  lemma {:induction false} PagesSurvive(p: Policy, total: (int, int), pages: seq<Value>)
    requires Transparent(p)
    ensures AddPages(total, RewriteItems(p, pages)) == AddPages(total, pages)
    decreases |pages|
  {
    if pages != [] {
      TokensSurvive(p, pages[0]);
      assert RewriteItems(p, pages)[1..] == RewriteItems(p, pages[1..]);
      var page := Tokens(pages[0]);
      PagesSurvive(p, (Add(total.0, page.0), Add(total.1, page.1)), pages[1..]);
    }
  }

  /** A transparent policy leaves the token usage of every response as it was. */
  lemma UsageSurvives(p: Policy, v: Value)
    requires Transparent(p)
    ensures Usage(Some(Rewrite(p, v))) == Usage(Some(v))
  {
    TokensSurvive(p, v);
    GetRewritten(p, v, "usage");
    GetRewritten(p, v, "pages");
    var pages := Get(v, "pages");
    if pages.Some? {
      assert !p.hide("pages", pages.value);
      if pages.value.Arr? { PagesSurvive(p, Tokens(v), pages.value.items); }
    }
  }

  // --------------------------------------------- counters survive cleaned keys

  ghost predicate DistinctKeys(entries: seq<Entry>) {
    forall i, j :: 0 <= i < j < |entries| ==> entries[i].key != entries[j].key
  }

  /** An object is a map: no key occurs twice, at any depth. */
  ghost predicate IsMap(v: Value)
    decreases v
  {
    match v
    case Obj(entries) => DistinctKeys(entries) && forall i :: 0 <= i < |entries| ==> IsMap(entries[i].value)
    case Arr(items) => forall i :: 0 <= i < |items| ==> IsMap(items[i])
    case _ => true
  }

  predicate PlainKey(key: string) {
    NUL !in key && REPLACEMENT !in key
  }

  lemma {:induction false} FindPut(entries: seq<Entry>, e: Entry, key: string)
    ensures Find(Put(entries, e), key) == if key == e.key then Some(e.value) else Find(entries, key)
    decreases |entries|
  {
    if entries != [] && entries[0].key != e.key && !ReviewMerge.AtMost(e.key, entries[0].key) {
      FindPut(entries[1..], e, key);
      assert Put(entries, e)[1..] == Put(entries[1..], e);
    } else if entries != [] {
      assert ([e] + entries[1..])[1..] == entries[1..] && ([e] + entries)[1..] == entries;
    }
  }

  lemma PlainKeyIsKept(key: string, other: string)
    requires PlainKey(key)
    ensures ReplaceNul(other) == key <==> other == key
  {
    assert forall i :: 0 <= i < |key| ==> key[i] in key;
    if ReplaceNul(other) == key {
      assert forall i :: 0 <= i < |key| ==> other[i] == key[i];
    }
    if other == key {
      assert forall i :: 0 <= i < |key| ==> ReplaceNul(key)[i] == key[i];
    }
  }

  lemma {:induction false} FindLast(entries: seq<Entry>, key: string)
    requires entries != [] && DistinctKeys(entries)
    ensures var n := |entries| - 1;
      Find(entries, key) == if entries[n].key == key then Some(entries[n].value) else Find(entries[..n], key)
    decreases |entries|
  {
    var n := |entries| - 1;
    if n > 0 {
      assert entries[..n][1..] == entries[1..][..n - 1];
      FindLast(entries[1..], key);
    }
  }

  /** Renaming keys never makes or loses a plain key. */
  lemma {:induction false} FindCollected(entries: seq<Entry>, key: string)
    requires DistinctKeys(entries) && PlainKey(key)
    ensures Find(Collect(entries), key) == Find(entries, key)
    decreases |entries|
  {
    if entries != [] {
      var n := |entries| - 1;
      var last := entries[n];
      FindCollected(entries[..n], key);
      FindPut(Collect(entries[..n]), Entry(ReplaceNul(last.key), last.value), key);
      PlainKeyIsKept(key, last.key);
      FindLast(entries, key);
    }
  }

  lemma {:induction false} FindCleaned(entries: seq<Entry>, key: string)
    ensures Find(CleanEntries(entries), key) ==
      if Find(entries, key).None? then None else Some(CleanNul(Find(entries, key).value))
    decreases |entries|
  {
    if entries != [] {
      assert CleanEntries(entries)[1..] == CleanEntries(entries[1..]);
      FindCleaned(entries[1..], key);
    }
  }

  lemma {:induction false} FoundIsMap(entries: seq<Entry>, key: string)
    requires forall i :: 0 <= i < |entries| ==> IsMap(entries[i].value)
    ensures Find(entries, key).Some? ==> IsMap(Find(entries, key).value)
    decreases |entries|
  {
    if entries != [] { FoundIsMap(entries[1..], key); }
  }

  lemma GetCleaned(v: Value, key: string)
    requires IsMap(v) && PlainKey(key)
    ensures Get(CleanNul(v), key) == if Get(v, key).None? then None else Some(CleanNul(Get(v, key).value))
    ensures Get(v, key).Some? ==> IsMap(Get(v, key).value)
  {
    if v.Obj? {
      FindCleaned(v.entries, key);
      FindCollected(CleanEntries(v.entries), key);
      FoundIsMap(v.entries, key);
    }
  }

  ghost predicate PlainPath(path: seq<string>) {
    forall i :: 0 <= i < |path| ==> PlainKey(path[i])
  }

  lemma {:induction false} CounterCleaned(v: Value, path: seq<string>)
    requires IsMap(v) && PlainPath(path)
    ensures Counter(CleanNul(v), path) == Counter(v, path)
    decreases |path|
  {
    if path != [] {
      GetCleaned(v, path[0]);
      var next := Get(v, path[0]);
      if next.Some? { CounterCleaned(next.value, path[1..]); }
    }
  }

  lemma CounterCleanedUnder(v: Value, outer: string, key: string)
    requires IsMap(v) && PlainKey(outer) && PlainKey(key)
    ensures Counter(CleanNul(v), [outer, key]) == Counter(v, [outer, key])
    ensures Counter(CleanNul(v), [key]) == Counter(v, [key])
  {
    CounterCleaned(v, [outer, key]);
    CounterCleaned(v, [key]);
  }

  predicate IsWord(key: string) {
    forall i :: 0 <= i < |key| ==> IsLower(key[i]) || key[i] == '_'
  }

  lemma WordIsPlain(key: string)
    requires IsWord(key)
    ensures PlainKey(key)
  {
  }

  lemma CountersArePlain()
    ensures PlainKey("usage") && PlainKey("pages")
    ensures PlainKey("prompt_tokens") && PlainKey("input_tokens") && PlainKey("prompt_eval_count")
    ensures PlainKey("completion_tokens") && PlainKey("output_tokens") && PlainKey("eval_count")
  {
    WordIsPlain("usage");
    WordIsPlain("pages");
    WordIsPlain("prompt_tokens");
    WordIsPlain("input_tokens");
    WordIsPlain("prompt_eval_count");
    WordIsPlain("completion_tokens");
    WordIsPlain("output_tokens");
    WordIsPlain("eval_count");
  }

  lemma TokensCleaned(v: Value)
    requires IsMap(v)
    ensures Tokens(CleanNul(v)) == Tokens(v)
  {
    CountersArePlain();
    CounterCleanedUnder(v, "usage", "prompt_tokens");
    CounterCleanedUnder(v, "usage", "input_tokens");
    CounterCleanedUnder(v, "usage", "prompt_eval_count");
    CounterCleanedUnder(v, "usage", "completion_tokens");
    CounterCleanedUnder(v, "usage", "output_tokens");
    CounterCleanedUnder(v, "usage", "eval_count");
  }

  lemma {:induction false} PagesCleaned(total: (int, int), pages: seq<Value>)
    requires forall i :: 0 <= i < |pages| ==> IsMap(pages[i])
    ensures AddPages(total, CleanItems(pages)) == AddPages(total, pages)
    decreases |pages|
  {
    if pages != [] {
      TokensCleaned(pages[0]);
      assert CleanItems(pages)[1..] == CleanItems(pages[1..]);
      var page := Tokens(pages[0]);
      PagesCleaned((Add(total.0, page.0), Add(total.1, page.1)), pages[1..]);
    }
  }

  /** Replacing U+0000 leaves the token usage of every response as it was, even where it merges keys. */
  lemma UsageCleaned(v: Value)
    requires IsMap(v)
    ensures Usage(Some(CleanNul(v))) == Usage(Some(v))
  {
    TokensCleaned(v);
    CountersArePlain();
    GetCleaned(v, "usage");
    GetCleaned(v, "pages");
    var pages := Get(v, "pages");
    if pages.Some? && pages.value.Arr? { PagesCleaned(Tokens(v), pages.value.items); }
  }

  // --------------------------------------------------- the policies in use

  lemma LowerIsSame(word: string)
    requires IsWord(word)
    ensures Lower(word) == word
  {
  }

  lemma ContainedLetters(word: string, needle: string, j: nat)
    requires j < |needle| && Contains(word, needle)
    ensures needle[j] in word
  {
    var i :| 0 <= i <= |word| && At(word, i, needle);
    assert word[i..i + |needle|][j] == word[i + j];
  }

  /** Every needle has a letter that does not occur in the word. */
  lemma NoneContained(word: string, needles: seq<string>, letters: seq<nat>)
    requires |letters| == |needles|
    requires forall k :: 0 <= k < |needles| ==> letters[k] < |needles[k]| && needles[k][letters[k]] !in word
    ensures !ContainsAny(word, needles)
  {
    forall k | 0 <= k < |needles| ensures !Contains(word, needles[k]) {
      if Contains(word, needles[k]) { ContainedLetters(word, needles[k], letters[k]); }
    }
  }

  lemma PathIsNotSensitive()
    ensures !ContainsAny("usage", SENSITIVE_SUBSTRING) && !ContainsAny("pages", SENSITIVE_SUBSTRING)
  {
    var letters := [2, 3, 3, 0, 5, 4, 4];
    NoneContained("usage", SENSITIVE_SUBSTRING, letters);
    NoneContained("pages", SENSITIVE_SUBSTRING, letters);
  }

  lemma PathIsNotContent()
    ensures !ContainsAny("usage", CONTENT_KEYS) && !ContainsAny("pages", CONTENT_KEYS)
  {
    var letters := [3, 0, 1, 3, 3, 0, 0, 0, 1, 1, 4];
    NoneContained("usage", CONTENT_KEYS, letters);
    NoneContained("pages", CONTENT_KEYS, letters);
  }

  lemma PathIsNotSecret()
    ensures "usage" !in SECRET_EXACT && "pages" !in SECRET_EXACT
  {
    assert forall k :: 0 <= k < |SECRET_EXACT| ==> |SECRET_EXACT[k]| == 5 ==> SECRET_EXACT[k][0] == 't';
  }

  lemma CountersAreNotSecret()
    ensures "prompt_tokens" !in SECRET_EXACT && "input_tokens" !in SECRET_EXACT && "prompt_eval_count" !in SECRET_EXACT
    ensures "completion_tokens" !in SECRET_EXACT && "output_tokens" !in SECRET_EXACT && "eval_count" !in SECRET_EXACT
  {
    assert forall k :: 0 <= k < |SECRET_EXACT| ==> |SECRET_EXACT[k]| <= 15;
    assert forall k :: 0 <= k < |SECRET_EXACT| && |SECRET_EXACT[k]| == 13 ==> SECRET_EXACT[k][3] in "her";
  }

  const SENSITIVE_KEYS := Sensitive(SECRET_EXACT, SENSITIVE_SUBSTRING)

  lemma PathIsShown(p: Policy)
    requires p == SENSITIVE_KEYS || exists hash :: p == Content(CONTENT_KEYS, hash)
    ensures Shown(p, "usage") && Shown(p, "pages")
  {
    PathIsNotSensitive();
    PathIsNotSecret();
    PathIsNotContent();
    LowerIsSame("usage");
    LowerIsSame("pages");
  }

  lemma SensitiveShowsNumbers(exact: seq<string>, part: seq<string>, key: string)
    requires IsWord(key) && key !in exact
    ensures NumbersShown(Sensitive(exact, part), key)
  {
    LowerIsSame(key);
  }

  lemma SensitiveShowsCounters(exact: seq<string>, part: seq<string>)
    requires "prompt_tokens" !in exact && "input_tokens" !in exact && "prompt_eval_count" !in exact
    requires "completion_tokens" !in exact && "output_tokens" !in exact && "eval_count" !in exact
    requires Shown(Sensitive(exact, part), "usage") && Shown(Sensitive(exact, part), "pages")
    ensures Transparent(Sensitive(exact, part))
  {
    SensitiveShowsNumbers(exact, part, "prompt_tokens");
    SensitiveShowsNumbers(exact, part, "input_tokens");
    SensitiveShowsNumbers(exact, part, "prompt_eval_count");
    SensitiveShowsNumbers(exact, part, "completion_tokens");
    SensitiveShowsNumbers(exact, part, "output_tokens");
    SensitiveShowsNumbers(exact, part, "eval_count");
  }

  lemma SensitiveIsTransparent()
    ensures Transparent(SENSITIVE_KEYS)
  {
    PathIsShown(SENSITIVE_KEYS);
    CountersAreNotSecret();
    SensitiveShowsCounters(SECRET_EXACT, SENSITIVE_SUBSTRING);
  }

  lemma ContentMasksAreNotNumbers(hash: Value -> string)
    ensures MasksAreNotNumbers(Content(CONTENT_KEYS, hash))
  {
  }

  lemma ContentShowsNumbers(part: seq<string>, hash: Value -> string, key: string)
    ensures NumbersShown(Content(part, hash), key)
  {
  }

  lemma ContentIsTransparent(hash: Value -> string)
    ensures Transparent(Content(CONTENT_KEYS, hash))
  {
    PathIsShown(Content(CONTENT_KEYS, hash));
    ContentMasksAreNotNumbers(hash);
    ContentShowsNumbers(CONTENT_KEYS, hash, "prompt_tokens");
    ContentShowsNumbers(CONTENT_KEYS, hash, "input_tokens");
    ContentShowsNumbers(CONTENT_KEYS, hash, "prompt_eval_count");
    ContentShowsNumbers(CONTENT_KEYS, hash, "completion_tokens");
    ContentShowsNumbers(CONTENT_KEYS, hash, "output_tokens");
    ContentShowsNumbers(CONTENT_KEYS, hash, "eval_count");
  }

  // ------------------------------------------------------------ main results

  datatype Mode = Full | Redacted

  /** `prepare_ai_artifact_value` for the modes that keep the tree. */
  function Prepare(v: Value, mode: Mode, hash: Value -> string): Value {
    var clean := CleanNul(Rewrite(SENSITIVE_KEYS, v));
    if mode.Full? then clean else Rewrite(Content(CONTENT_KEYS, hash), clean)
  }

  lemma {:induction false} EntriesRewritten(p: Policy, entries: seq<Entry>)
    ensures var r := RewriteEntries(p, entries);
      forall i :: 0 <= i < |r| ==>
        var e := entries[i];
        r[i] == Entry(e.key, if p.hide(e.key, e.value) then p.mask(e.value) else Rewrite(p, e.value))
    decreases |entries|
  {
    if entries != [] { EntriesRewritten(p, entries[1..]); }
  }

  lemma {:induction false} ItemsRewritten(p: Policy, items: seq<Value>)
    ensures forall i :: 0 <= i < |items| ==> RewriteItems(p, items)[i] == Rewrite(p, items[i])
    decreases |items|
  {
    if items != [] { ItemsRewritten(p, items[1..]); }
  }

  lemma {:induction false} RewriteIsMap(p: Policy, v: Value)
    requires IsMap(v) && forall x :: IsMap(p.mask(x))
    ensures IsMap(Rewrite(p, v))
    decreases v
  {
    match v {
      case Obj(entries) =>
        EntriesRewritten(p, entries);
        forall i | 0 <= i < |entries| ensures IsMap(RewriteEntries(p, entries)[i].value) {
          if p.hide(entries[i].key, entries[i].value) {
            assert IsMap(p.mask(entries[i].value));
          } else {
            RewriteIsMap(p, entries[i].value);
          }
        }
      case Arr(items) =>
        ItemsRewritten(p, items);
        forall i | 0 <= i < |items| ensures IsMap(RewriteItems(p, items)[i]) { RewriteIsMap(p, items[i]); }
      case _ =>
    }
  }

  /** The counters read off the raw response are those of the stored one. */
  lemma PreparedKeepsUsage(v: Value, mode: Mode, hash: Value -> string)
    requires IsMap(v)
    ensures Usage(Some(Prepare(v, mode, hash))) == Usage(Some(v))
  {
    var redacted := Rewrite(SENSITIVE_KEYS, v);
    SensitiveIsTransparent();
    UsageSurvives(SENSITIVE_KEYS, v);
    RewriteIsMap(SENSITIVE_KEYS, v);
    UsageCleaned(redacted);
    ContentIsTransparent(hash);
    UsageSurvives(Content(CONTENT_KEYS, hash), CleanNul(redacted));
  }

  /** Every string in the value is the mark of a redaction. */
  ghost predicate OnlyMarks(v: Value)
    decreases v
  {
    match v
    case Str(s) => s == REDACTED
    case Arr(items) => forall i :: 0 <= i < |items| ==> OnlyMarks(items[i])
    case Obj(entries) => forall i :: 0 <= i < |entries| ==> OnlyMarks(entries[i].value)
    case _ => true
  }

  predicate IsSensitive(key: string) {
    Lower(key) in SECRET_EXACT || ContainsAny(Lower(key), SENSITIVE_SUBSTRING)
  }

  /** At any depth, no string is left under a sensitive key. */
  ghost predicate Sealed(v: Value)
    decreases v
  {
    match v
    case Arr(items) => forall i :: 0 <= i < |items| ==> Sealed(items[i])
    case Obj(entries) => forall i :: 0 <= i < |entries| ==> SealedEntry(entries[i])
    case _ => true
  }

  ghost predicate SealedEntry(e: Entry)
    decreases e
  {
    (IsSensitive(e.key) ==> OnlyMarks(e.value)) && Sealed(e.value)
  }

  lemma RedactedEntry(e: Entry, redacted: Value)
    requires redacted ==
      if SENSITIVE_KEYS.hide(e.key, e.value) then SENSITIVE_KEYS.mask(e.value) else Rewrite(SENSITIVE_KEYS, e.value)
    ensures IsSensitive(e.key) ==> redacted == Str(REDACTED) || (IsScalar(redacted) && redacted == e.value)
  {
  }

  /** After `redact_sensitive_json` no string survives under a sensitive key. */
  lemma {:induction false} RedactionSeals(v: Value)
    ensures Sealed(Rewrite(SENSITIVE_KEYS, v))
    decreases v
  {
    var p := SENSITIVE_KEYS;
    match v {
      case Obj(entries) =>
        EntriesRewritten(p, entries);
        forall i | 0 <= i < |entries| ensures SealedEntry(RewriteEntries(p, entries)[i]) {
          RedactedEntry(entries[i], RewriteEntries(p, entries)[i].value);
          if !p.hide(entries[i].key, entries[i].value) { RedactionSeals(entries[i].value); }
        }
      case Arr(items) =>
        ItemsRewritten(p, items);
        forall i | 0 <= i < |items| ensures Sealed(RewriteItems(p, items)[i]) { RedactionSeals(items[i]); }
      case _ =>
    }
  }

  datatype Step = Member(key: string) | Item(index: nat)

  /** The value a path of members and items leads to. */
  function Follow(v: Value, path: seq<Step>): Option<Value>
    decreases |path|
  {
    if path == [] then Some(v)
    else
      var next := match path[0]
                  case Member(key) => Get(v, key)
                  case Item(i) => if v.Arr? && i < |v.items| then Some(v.items[i]) else None;
      if next.Some? then Follow(next.value, path[1..]) else None
  }

  ghost predicate NowhereSensitive(path: seq<Step>) {
    forall i :: 0 <= i < |path| && path[i].Member? ==> !IsSensitive(path[i].key)
  }

  /** Redaction touches nothing else: what no sensitive key leads to is found where it was. */
  lemma {:induction false} ElsewhereIsKept(v: Value, path: seq<Step>)
    requires NowhereSensitive(path)
    ensures var before := Follow(v, path);
      Follow(Rewrite(SENSITIVE_KEYS, v), path) ==
        if before.None? then None else Some(Rewrite(SENSITIVE_KEYS, before.value))
    decreases |path|
  {
    if path != [] {
      match path[0] {
        case Member(key) =>
          GetRewritten(SENSITIVE_KEYS, v, key);
          if Get(v, key).Some? { ElsewhereIsKept(Get(v, key).value, path[1..]); }
        case Item(i) =>
          if v.Arr? && i < |v.items| {
            ItemsRewritten(SENSITIVE_KEYS, v.items);
            ElsewhereIsKept(v.items[i], path[1..]);
          }
      }
    }
  }

  /** A policy that looks at the key and at whether the value is a scalar, and leaves its own masks alone. */
  ghost predicate Stable(p: Policy) {
    && (forall k, v :: MaskStays(p, k, v))
    && (forall k, v, w :: IsScalar(v) == IsScalar(w) ==> p.hide(k, v) == p.hide(k, w))
  }

  ghost predicate MaskStays(p: Policy, key: string, v: Value) {
    p.hide(key, v) ==> p.hide(key, p.mask(v)) && p.mask(p.mask(v)) == p.mask(v)
  }

  lemma SensitiveIsStable(exact: seq<string>, part: seq<string>)
    ensures Stable(Sensitive(exact, part))
  {
    var p := Sensitive(exact, part);
    forall k, v ensures MaskStays(p, k, v) {
      assert p.mask(v) == Str(REDACTED);
    }
    forall k, v, w | IsScalar(v) == IsScalar(w) ensures p.hide(k, v) == p.hide(k, w) {
    }
  }

  lemma {:induction false} RewritingAgain(p: Policy, v: Value)
    requires Stable(p)
    ensures Rewrite(p, Rewrite(p, v)) == Rewrite(p, v)
    decreases v
  {
    match v {
      case Obj(entries) =>
        var once := RewriteEntries(p, entries);
        EntriesRewritten(p, entries);
        EntriesRewritten(p, once);
        forall i | 0 <= i < |once| ensures RewriteEntries(p, once)[i] == once[i] {
          var key, value := entries[i].key, entries[i].value;
          assert MaskStays(p, key, value);
          if !p.hide(key, value) {
            RewritingAgain(p, value);
            assert IsScalar(Rewrite(p, value)) == IsScalar(value);
          }
        }
        assert RewriteEntries(p, once) == once;
      case Arr(items) =>
        var once := RewriteItems(p, items);
        ItemsRewritten(p, items);
        ItemsRewritten(p, once);
        forall i | 0 <= i < |once| ensures RewriteItems(p, once)[i] == once[i] { RewritingAgain(p, items[i]); }
        assert RewriteItems(p, once) == once;
      case _ =>
    }
  }

  /** Redacting twice is redacting once. */
  lemma RedactingAgain(v: Value)
    ensures Rewrite(SENSITIVE_KEYS, Rewrite(SENSITIVE_KEYS, v)) == Rewrite(SENSITIVE_KEYS, v)
  {
    SensitiveIsStable(SECRET_EXACT, SENSITIVE_SUBSTRING);
    RewritingAgain(SENSITIVE_KEYS, v);
  }

  // ----------------------------------------------- what PostgreSQL can store

  /** No string and no key holds U+0000. */
  ghost predicate NulFree(v: Value)
    decreases v
  {
    match v
    case Str(s) => NUL !in s
    case Arr(items) => forall i :: 0 <= i < |items| ==> NulFree(items[i])
    case Obj(entries) => forall i :: 0 <= i < |entries| ==> NUL !in entries[i].key && NulFree(entries[i].value)
    case _ => true
  }

  lemma {:induction false} PutHolds(entries: seq<Entry>, e: Entry)
    ensures forall x :: x in Put(entries, e) ==> x == e || x in entries
    decreases |entries|
  {
    if entries != [] { PutHolds(entries[1..], e); }
  }

  /** Every collected entry is one of the entries under its cleaned key. */
  ghost predicate FromOne(x: Entry, entries: seq<Entry>) {
    exists i :: 0 <= i < |entries| && x == Entry(ReplaceNul(entries[i].key), entries[i].value)
  }

  lemma {:induction false} CollectedFrom(entries: seq<Entry>)
    ensures forall x :: x in Collect(entries) ==> FromOne(x, entries)
    decreases |entries|
  {
    if entries != [] {
      var n := |entries| - 1;
      CollectedFrom(entries[..n]);
      PutHolds(Collect(entries[..n]), Entry(ReplaceNul(entries[n].key), entries[n].value));
      forall x | x in Collect(entries) ensures FromOne(x, entries) {
        if x in Collect(entries[..n]) {
          var i :| 0 <= i < n && x == Entry(ReplaceNul(entries[..n][i].key), entries[..n][i].value);
          assert entries[i] == entries[..n][i];
        }
      }
    }
  }

  lemma {:induction false} EntriesCleaned(entries: seq<Entry>)
    ensures forall i :: 0 <= i < |entries| ==>
      CleanEntries(entries)[i] == Entry(entries[i].key, CleanNul(entries[i].value))
    decreases |entries|
  {
    if entries != [] {
      EntriesCleaned(entries[1..]);
      forall i | 0 < i < |entries|
        ensures CleanEntries(entries)[i] == Entry(entries[i].key, CleanNul(entries[i].value))
      {
        assert entries[i] == entries[1..][i - 1] && CleanEntries(entries)[i] == CleanEntries(entries[1..])[i - 1];
      }
    }
  }

  lemma {:induction false} ItemsCleaned(items: seq<Value>)
    ensures forall i :: 0 <= i < |items| ==> CleanItems(items)[i] == CleanNul(items[i])
    decreases |items|
  {
    if items != [] { ItemsCleaned(items[1..]); }
  }

  /** The entries of a cleaned object: each is an entry of the object with key and value cleaned. */
  lemma CleanedEntry(entries: seq<Entry>, i: nat) returns (k: nat)
    requires i < |CleanNul(Obj(entries)).entries|
    ensures k < |entries|
    ensures CleanNul(Obj(entries)).entries[i] == Entry(ReplaceNul(entries[k].key), CleanNul(entries[k].value))
  {
    var clean := CleanEntries(entries);
    EntriesCleaned(entries);
    if exists j :: 0 <= j < |entries| && NUL in entries[j].key {
      CollectedFrom(clean);
      var x := Collect(clean)[i];
      assert x in Collect(clean);
      k :| 0 <= k < |clean| && x == Entry(ReplaceNul(clean[k].key), clean[k].value);
    } else {
      k := i;
      assert NUL !in entries[k].key;
      assert ReplaceNul(entries[k].key) == entries[k].key;
    }
  }

  lemma {:induction false} CleanedIsNulFree(v: Value)
    ensures NulFree(CleanNul(v))
    decreases v
  {
    match v {
      case Obj(entries) =>
        var clean := CleanNul(v).entries;
        forall i | 0 <= i < |clean| ensures NUL !in clean[i].key && NulFree(clean[i].value) {
          var k := CleanedEntry(entries, i);
          CleanedIsNulFree(entries[k].value);
        }
      case Arr(items) =>
        ItemsCleaned(items);
        forall i | 0 <= i < |items| ensures NulFree(CleanItems(items)[i]) { CleanedIsNulFree(items[i]); }
      case _ =>
    }
  }

  /** A value without U+0000 is not touched. */
  lemma {:induction false} NulFreeIsUnchanged(v: Value)
    requires NulFree(v)
    ensures CleanNul(v) == v
    decreases v
  {
    match v {
      case Str(s) => assert ReplaceNul(s) == s;
      case Obj(entries) =>
        EntriesCleaned(entries);
        forall i | 0 <= i < |entries| ensures CleanEntries(entries)[i] == entries[i] {
          NulFreeIsUnchanged(entries[i].value);
        }
        assert CleanEntries(entries) == entries;
      case Arr(items) =>
        ItemsCleaned(items);
        forall i | 0 <= i < |items| ensures CleanItems(items)[i] == items[i] { NulFreeIsUnchanged(items[i]); }
        assert CleanItems(items) == items;
      case _ =>
    }
  }

  lemma {:induction false} RewriteKeepsNulFree(p: Policy, v: Value)
    requires NulFree(v) && forall x :: NulFree(p.mask(x))
    ensures NulFree(Rewrite(p, v))
    decreases v
  {
    match v {
      case Obj(entries) =>
        EntriesRewritten(p, entries);
        forall i | 0 <= i < |entries| ensures NulFree(RewriteEntries(p, entries)[i].value) {
          if p.hide(entries[i].key, entries[i].value) {
            assert NulFree(p.mask(entries[i].value));
          } else {
            RewriteKeepsNulFree(p, entries[i].value);
          }
        }
      case Arr(items) =>
        ItemsRewritten(p, items);
        forall i | 0 <= i < |items| ensures NulFree(RewriteItems(p, items)[i]) { RewriteKeepsNulFree(p, items[i]); }
      case _ =>
    }
  }

  ghost predicate NulFreeEntries(entries: seq<Entry>) {
    forall i :: 0 <= i < |entries| ==> NUL !in entries[i].key && NulFree(entries[i].value)
  }

  lemma SummaryIsNulFree(v: Value, hash: Value -> string)
    requires NUL !in hash(v)
    ensures NulFree(Summary(v, hash))
  {
    WordIsPlain("text");
    WordIsPlain("scalar");
    WordIsPlain("array");
    WordIsPlain("object");
    var s := Summary(v, hash);
    if s.Obj? {
      WordIsPlain("chars");
      WordIsPlain("items");
      WordIsPlain("keys");
      WordIsPlain("kind");
      WordIsPlain("redacted");
      assert NUL !in "sha256";
      assert NulFreeEntries(s.entries);
    }
  }

  /** Whatever the response holds, the prepared value can be stored as `jsonb`. */
  lemma PreparedIsNulFree(v: Value, mode: Mode, hash: Value -> string)
    requires forall x :: NUL !in hash(x)
    ensures NulFree(Prepare(v, mode, hash))
  {
    var clean := CleanNul(Rewrite(SENSITIVE_KEYS, v));
    CleanedIsNulFree(Rewrite(SENSITIVE_KEYS, v));
    forall x ensures NulFree(Content(CONTENT_KEYS, hash).mask(x)) { SummaryIsNulFree(x, hash); }
    RewriteKeepsNulFree(Content(CONTENT_KEYS, hash), clean);
  }

  // ----------------------------------------- cleaning keys opens no redaction

  lemma CleanedCharacter(s: string, i: nat, c: char)
    requires i < |s| && c != NUL && c != REPLACEMENT
    ensures Lower(ReplaceNul(s))[i] == c <==> Lower(s)[i] == c
  {
  }

  lemma CleanedWindow(s: string, i: nat, needle: string)
    requires PlainKey(needle)
    ensures At(Lower(ReplaceNul(s)), i, needle) <==> At(Lower(s), i, needle)
  {
    var x, y := Lower(ReplaceNul(s)), Lower(s);
    if i + |needle| <= |s| {
      forall j | 0 <= j < |needle| ensures x[i..i + |needle|][j] == needle[j] <==> y[i..i + |needle|][j] == needle[j] {
        assert needle[j] in needle;
        CleanedCharacter(s, i + j, needle[j]);
      }
    }
  }

  lemma CleanedContains(s: string, needle: string)
    requires PlainKey(needle)
    ensures Contains(Lower(ReplaceNul(s)), needle) <==> Contains(Lower(s), needle)
  {
    forall i: nat ensures At(Lower(ReplaceNul(s)), i, needle) <==> At(Lower(s), i, needle) {
      CleanedWindow(s, i, needle);
    }
  }

  lemma CleanedIs(s: string, word: string)
    requires PlainKey(word)
    ensures Lower(ReplaceNul(s)) == word <==> Lower(s) == word
  {
    CleanedWindow(s, 0, word);
    assert Lower(s)[0..|s|] == Lower(s) && Lower(ReplaceNul(s))[0..|s|] == Lower(ReplaceNul(s));
  }

  ghost predicate AllPlain(words: seq<string>) {
    forall k :: 0 <= k < |words| ==> PlainKey(words[k])
  }

  lemma WordsArePlain()
    ensures AllPlain(SECRET_EXACT) && AllPlain(SENSITIVE_SUBSTRING)
  {
    forall k | 0 <= k < |SECRET_EXACT| ensures PlainKey(SECRET_EXACT[k]) { WordIsPlain(SECRET_EXACT[k]); }
    forall k | 0 <= k < |SENSITIVE_SUBSTRING| ensures PlainKey(SENSITIVE_SUBSTRING[k]) {
      WordIsPlain(SENSITIVE_SUBSTRING[k]);
    }
  }

  lemma CleanedIn(s: string, words: seq<string>)
    requires AllPlain(words)
    ensures Lower(ReplaceNul(s)) in words <==> Lower(s) in words
    ensures ContainsAny(Lower(ReplaceNul(s)), words) <==> ContainsAny(Lower(s), words)
  {
    forall k | 0 <= k < |words|
      ensures Lower(ReplaceNul(s)) == words[k] <==> Lower(s) == words[k]
      ensures Contains(Lower(ReplaceNul(s)), words[k]) <==> Contains(Lower(s), words[k])
    {
      CleanedIs(s, words[k]);
      CleanedContains(s, words[k]);
    }
  }

  lemma CleanedKeyIsSensitive(key: string)
    ensures IsSensitive(ReplaceNul(key)) <==> IsSensitive(key)
  {
    WordsArePlain();
    CleanedIn(key, SECRET_EXACT);
    CleanedIn(key, SENSITIVE_SUBSTRING);
  }

  lemma {:induction false} CleanedMarks(v: Value)
    requires OnlyMarks(v)
    ensures OnlyMarks(CleanNul(v))
    decreases v
  {
    match v {
      case Str(s) => assert NUL !in REDACTED; assert ReplaceNul(s) == s;
      case Obj(entries) =>
        var clean := CleanNul(v).entries;
        forall i | 0 <= i < |clean| ensures OnlyMarks(clean[i].value) {
          var k := CleanedEntry(entries, i);
          CleanedMarks(entries[k].value);
        }
      case Arr(items) =>
        ItemsCleaned(items);
        forall i | 0 <= i < |items| ensures OnlyMarks(CleanItems(items)[i]) { CleanedMarks(items[i]); }
      case _ =>
    }
  }

  lemma {:induction false} CleanedIsSealed(v: Value)
    requires Sealed(v)
    ensures Sealed(CleanNul(v))
    decreases v
  {
    match v {
      case Obj(entries) =>
        var clean := CleanNul(v).entries;
        forall i | 0 <= i < |clean| ensures SealedEntry(clean[i]) {
          var k := CleanedEntry(entries, i);
          assert SealedEntry(entries[k]);
          CleanedKeyIsSensitive(entries[k].key);
          if IsSensitive(entries[k].key) { CleanedMarks(entries[k].value); }
          CleanedIsSealed(entries[k].value);
        }
      case Arr(items) =>
        ItemsCleaned(items);
        forall i | 0 <= i < |items| ensures Sealed(CleanItems(items)[i]) { CleanedIsSealed(items[i]); }
      case _ =>
    }
  }

  /** A response stored in full holds no string under a sensitive key, although keys are cleaned after redaction. */
  lemma FullIsSealed(v: Value, hash: Value -> string)
    ensures Sealed(Prepare(v, Full, hash))
  {
    RedactionSeals(v);
    CleanedIsSealed(Rewrite(SENSITIVE_KEYS, v));
  }

  // ------------------------------------------------- content in redacted mode

  predicate IsContent(key: string) {
    ContainsAny(Lower(key), CONTENT_KEYS)
  }

  predicate IsKind(s: string) {
    s == "text" || s == "array" || s == "object" || s == "scalar"
  }

  /** What may stand for content: sizes, flags, a kind and the digest of something, or null. */
  ghost predicate IsDigest(v: Value, hash: Value -> string) {
    v.Null? || (v.Obj? && Get(v, "redacted") == Some(Bool(true)) && forall i :: 0 <= i < |v.entries| ==>
      var x := v.entries[i].value;
      IsScalar(x) || (x.Str? && (IsKind(x.s) || exists w :: x.s == hash(w))))
  }

  /** At any depth, nothing but scalars and digests is left under a content key. */
  ghost predicate ContentSealed(v: Value, hash: Value -> string)
    decreases v
  {
    match v
    case Arr(items) => forall i :: 0 <= i < |items| ==> ContentSealed(items[i], hash)
    case Obj(entries) => forall i :: 0 <= i < |entries| ==> ContentSealedEntry(entries[i], hash)
    case _ => true
  }

  ghost predicate ContentSealedEntry(e: Entry, hash: Value -> string)
    decreases e
  {
    if IsContent(e.key) then IsScalar(e.value) || IsDigest(e.value, hash) else ContentSealed(e.value, hash)
  }

  lemma SummaryIsDigest(v: Value, hash: Value -> string)
    ensures IsDigest(Summary(v, hash), hash)
  {
    var entries := if Summary(v, hash).Obj? then Summary(v, hash).entries else [];
    if entries != [] {
      assert entries[1].key == "redacted" || (entries[1].key == "kind" && entries[2].key == "redacted");
      assert Find(entries[1..], "redacted") == Find(entries, "redacted");
      assert entries[1..][0] == entries[1] && entries[1..][1..] == entries[2..];
      assert Find(entries[1..], "redacted") == Some(Bool(true));
    }
    forall i | 0 <= i < |entries| && entries[i].key == "sha256" ensures entries[i].value == Str(hash(v)) {
    }
  }

  lemma {:induction false} ContentRedactionSeals(v: Value, hash: Value -> string)
    ensures ContentSealed(Rewrite(Content(CONTENT_KEYS, hash), v), hash)
    decreases v
  {
    var p := Content(CONTENT_KEYS, hash);
    match v {
      case Obj(entries) =>
        EntriesRewritten(p, entries);
        forall i | 0 <= i < |entries| ensures ContentSealedEntry(RewriteEntries(p, entries)[i], hash) {
          if p.hide(entries[i].key, entries[i].value) {
            SummaryIsDigest(entries[i].value, hash);
          } else {
            ContentRedactionSeals(entries[i].value, hash);
          }
        }
      case Arr(items) =>
        ItemsRewritten(p, items);
        forall i | 0 <= i < |items| ensures ContentSealed(RewriteItems(p, items)[i], hash) {
          ContentRedactionSeals(items[i], hash);
        }
      case _ =>
    }
  }

  /** A response stored in redacted mode holds no document content: no string under a content key, at any depth. */
  lemma RedactedHasNoContent(v: Value, hash: Value -> string)
    ensures ContentSealed(Prepare(v, Redacted, hash), hash)
  {
    ContentRedactionSeals(CleanNul(Rewrite(SENSITIVE_KEYS, v)), hash);
  }

  // ------------------------------------------------- where the counters are

  predicate IsCount(n: int) {
    0 <= n < 0x8000_0000_0000_0000
  }

  /** The member is a counter with value `n`; an absent one counts 0. */
  predicate Counts(v: Value, key: string, n: int) {
    Get(v, key) == (if n == 0 then None else Some(Num(Int(n))))
  }

  lemma CountRead(v: Value, key: string, n: int)
    requires Counts(v, key, n) && IsCount(n)
    ensures Counter(v, [key]) == n
  {
    assert [key][1..] == [];
  }

  lemma CountBelow(v: Value, usage: Value, key: string, n: int)
    requires Get(v, "usage") == Some(usage) && Counts(usage, key, n) && IsCount(n)
    ensures Counter(v, ["usage", key]) == n
  {
    assert ["usage", key][1..] == [key];
    CountRead(usage, key, n);
  }

  lemma NoUsage(v: Value, key: string)
    requires Get(v, "usage").None?
    ensures Counter(v, ["usage", key]) == 0
  {
  }

  lemma SmallSum(a: int, b: int)
    requires IsCount(a) && b >= 0 && IsCount(a + b)
    ensures Add(a, b) == a + b
  {
  }

  /** A usage object: prompt and input tokens are input, completion and output tokens are output. */
  lemma UsageObjectIsRead(v: Value, usage: Value, prompt: int, input: int, completion: int, output: int)
    requires Get(v, "usage") == Some(usage) && Counts(v, "prompt_eval_count", 0) && Counts(v, "eval_count", 0)
    requires Counts(usage, "prompt_tokens", prompt) && Counts(usage, "input_tokens", input)
    requires Counts(usage, "completion_tokens", completion) && Counts(usage, "output_tokens", output)
    requires prompt >= 0 && input >= 0 && completion >= 0 && output >= 0
    requires IsCount(prompt + input) && IsCount(completion + output)
    ensures Usage(Some(v)) == (prompt + input, completion + output)
  {
    CountBelow(v, usage, "prompt_tokens", prompt);
    CountBelow(v, usage, "input_tokens", input);
    CountBelow(v, usage, "completion_tokens", completion);
    CountBelow(v, usage, "output_tokens", output);
    CountRead(v, "prompt_eval_count", 0);
    CountRead(v, "eval_count", 0);
    SmallSum(prompt, input);
    SmallSum(completion, output);
    SmallSum(prompt + input, 0);
    SmallSum(completion + output, 0);
  }

  /** A response without a usage object counts at its top: evaluated prompt tokens are input, generated ones output. */
  lemma EvalCountsAreRead(v: Value, input: int, output: int)
    requires Get(v, "usage").None? && IsCount(input) && IsCount(output)
    requires Counts(v, "prompt_eval_count", input) && Counts(v, "eval_count", output)
    ensures Tokens(v) == (input, output)
    ensures Get(v, "pages").None? ==> Usage(Some(v)) == (input, output)
  {
    NoUsage(v, "prompt_tokens");
    NoUsage(v, "input_tokens");
    NoUsage(v, "completion_tokens");
    NoUsage(v, "output_tokens");
    CountRead(v, "prompt_eval_count", input);
    CountRead(v, "eval_count", output);
    SmallSum(0, 0);
    SmallSum(0, input);
    SmallSum(0, output);
  }

  /** No page counts below zero. */
  ghost predicate Countable(pages: seq<Value>) {
    forall i :: 0 <= i < |pages| ==> Tokens(pages[i]).0 >= 0 && Tokens(pages[i]).1 >= 0
  }

  /** The plain sums over pages. */
  function Sums(pages: seq<Value>): (int, int) {
    if pages == [] then (0, 0)
    else
      var page, rest := Tokens(pages[0]), Sums(pages[1..]);
      (page.0 + rest.0, page.1 + rest.1)
  }

  lemma {:induction false} TokensAreCounts(pages: seq<Value>, total: (int, int))
    requires Countable(pages)
    requires total.0 >= 0 && total.1 >= 0
    requires IsCount(total.0 + Sums(pages).0) && IsCount(total.1 + Sums(pages).1)
    ensures AddPages(total, pages) == (total.0 + Sums(pages).0, total.1 + Sums(pages).1)
    ensures Sums(pages).0 >= 0 && Sums(pages).1 >= 0
    decreases |pages|
  {
    if pages != [] {
      var page := Tokens(pages[0]);
      SumsAreCounts(pages[1..]);
      SmallSum(total.0, page.0);
      SmallSum(total.1, page.1);
      TokensAreCounts(pages[1..], (total.0 + page.0, total.1 + page.1));
    }
  }

  lemma {:induction false} SumsAreCounts(pages: seq<Value>)
    requires Countable(pages)
    ensures Sums(pages).0 >= 0 && Sums(pages).1 >= 0
  {
    if pages != [] { SumsAreCounts(pages[1..]); }
  }

  lemma UsageOfPages(v: Value, pages: seq<Value>)
    requires Get(v, "pages") == Some(Arr(pages))
    ensures Usage(Some(v)) == if Get(v, "usage").None? then AddPages(Tokens(v), pages) else Tokens(v)
  {
  }

  /** Only without a top-level usage member are the pages counted, and then all of them. */
  lemma PagesAreSummed(v: Value, pages: seq<Value>)
    requires Get(v, "pages") == Some(Arr(pages)) && Countable([v] + pages)
    requires IsCount(Tokens(v).0 + Sums(pages).0) && IsCount(Tokens(v).1 + Sums(pages).1)
    ensures var top, all := Tokens(v), Sums(pages);
      Usage(Some(v)) == if Get(v, "usage").None? then (top.0 + all.0, top.1 + all.1) else top
  {
    assert forall i :: 0 <= i < |pages| ==> ([v] + pages)[i + 1] == pages[i];
    assert ([v] + pages)[0] == v;
    UsageOfPages(v, pages);
    TokensAreCounts(pages, Tokens(v));
  }
}
