/**
 * Resolving a reviewed patch against the latest document: optimistic concurrency
 * on every field but the tags, which are merged three ways. The SHA-256
 * fingerprint and the JSON printer are parameters, of which nothing is assumed.
 */
module ReviewMerge {
  import opened Options
  import opened Patches
  import opened Json

  datatype Field = Content | Title | Tags | Correspondent | DocumentType | Created | CustomFields

  datatype TagOperations = TagOperations(additions: seq<I32>, removals: seq<I32>)

  datatype Codec = Codec(fingerprint: Value -> string, show: Value -> string)

  function OfText(x: Option<string>): Value {
    if x.Some? then Str(x.value) else Null
  }

  function OfRef(x: Option<I32>): Value {
    if x.Some? then Num(Int(x.value)) else Null
  }

  // ------------------------------------------------------------------- tags

  predicate Ascending(ts: seq<I32>) {
    forall i, j :: 0 <= i < j < |ts| ==> ts[i] < ts[j]
  }

  predicate IsLeast(m: I32, s: set<I32>) {
    m in s && forall x :: x in s ==> m <= x
  }

  lemma {:induction false} Least(s: set<I32>) returns (m: I32)
    requires s != {}
    ensures IsLeast(m, s)
  {
    m := Element(s);
    var others := s - {m};
    assert s == others + {m};
    if others != {} {
      var n := Least(others);
      if n < m { m := n; }
    }
  }

  lemma LeastExists(s: set<I32>)
    requires s != {}
    ensures exists m :: IsLeast(m, s)
  {
    var m := Least(s);
  }

  lemma TagSetConcat(a: seq<I32>, b: seq<I32>)
    ensures TagSet(a + b) == TagSet(a) + TagSet(b)
  {
    assert forall t :: t in a + b <==> t in a || t in b;
  }

  lemma SortedStep(s: set<I32>, m: I32, rest: seq<I32>)
    requires IsLeast(m, s) && Ascending(rest) && TagSet(rest) == s - {m}
    ensures Ascending([m] + rest) && TagSet([m] + rest) == s
  {
    forall i | 0 <= i < |rest| ensures m < rest[i] {
      assert rest[i] in TagSet(rest);
    }
    TagSetConcat([m], rest);
  }

  /** The elements of a set in ascending order, as a `BTreeSet` iterates. */
  function Sorted(s: set<I32>): (r: seq<I32>)
    ensures Ascending(r) && TagSet(r) == s
  {
    if s == {} then []
    else
      LeastExists(s);
      var m :| IsLeast(m, s);
      var rest := Sorted(s - {m});
      SortedStep(s, m, rest);
      [m] + rest
  }

  lemma {:induction false} AscendingUnique(a: seq<I32>, b: seq<I32>)
    requires Ascending(a) && Ascending(b) && TagSet(a) == TagSet(b)
    ensures a == b
  {
    assert forall i :: 0 <= i < |a| ==> a[i] in TagSet(a);
    assert forall i :: 0 <= i < |b| ==> b[i] in TagSet(b);
    if a != [] && b != [] {
      assert a[0] == b[0];
      assert TagSet(a[1..]) == TagSet(a) - {a[0]};
      assert TagSet(b[1..]) == TagSet(b) - {b[0]};
      AscendingUnique(a[1..], b[1..]);
    }
  }

  function NormalizedTags(tags: seq<I32>): seq<I32> {
    Sorted(TagSet(tags))
  }

  function TagsValue(ts: seq<I32>): Value {
    Arr(seq(|ts|, i requires 0 <= i < |ts| => Num(Int(ts[i]))))
  }

  /** Decoding a JSON value as a list of 32-bit integers. */
  function ReadTags(v: Value): Option<seq<I32>> {
    if v.Arr? then ReadItems(v.items) else None
  }

  function ReadItems(items: seq<Value>): Option<seq<I32>> {
    if items == [] then Some([])
    else if items[0].Num? && items[0].n.Int? && -0x8000_0000 <= items[0].n.i < 0x8000_0000 then
      var rest := ReadItems(items[1..]);
      if rest.Some? then Some([items[0].n.i as I32] + rest.value) else None
    else None
  }

  lemma {:induction false} ReadTagsValue(ts: seq<I32>)
    ensures ReadTags(TagsValue(ts)) == Some(ts)
  {
    if ts != [] {
      ReadTagsValue(ts[1..]);
      assert TagsValue(ts).items[1..] == TagsValue(ts[1..]).items;
      assert ts == [ts[0]] + ts[1..];
    }
  }

  // ---------------------------------------------------------- custom fields

  predicate HasKey(item: Value) {
    Get(item, "field").Some? || Get(item, "id").Some?
  }

  function SortKey(item: Value, show: Value -> string): string {
    var field, id := Get(item, "field"), Get(item, "id");
    if field.Some? then show(field.value) else if id.Some? then show(id.value) else ""
  }

  /** Strings compare character by character, a proper prefix first. */
  predicate AtMost(a: string, b: string) {
    a == "" || (b != "" && (a[0] < b[0] || (a[0] == b[0] && AtMost(a[1..], b[1..]))))
  }

  function Insert(x: Value, xs: seq<Value>, show: Value -> string): seq<Value> {
    if xs == [] || AtMost(SortKey(x, show), SortKey(xs[0], show)) then [x] + xs
    else [xs[0]] + Insert(x, xs[1..], show)
  }

  /** A stable sort by key. */
  function SortByKey(xs: seq<Value>, show: Value -> string): seq<Value> {
    if xs == [] then [] else Insert(xs[0], SortByKey(xs[1..], show), show)
  }

  /** `canonical_custom_fields`: object keys are already in order, keyed lists are sorted. */
  function Canonical(v: Value, show: Value -> string): Value {
    if v.Arr? && forall i :: 0 <= i < |v.items| ==> HasKey(v.items[i])
    then Arr(SortByKey(v.items, show))
    else v
  }

  // ------------------------------------------------------ baseline and merge

  /** `review_apply_baseline`. */
  function Baseline(d: Document, c: Codec): Value {
    Obj([
      Entry("content", Str(c.fingerprint(OfText(d.content)))),
      Entry("correspondent", OfRef(d.correspondent)),
      Entry("created", Str(c.fingerprint(OfText(d.created)))),
      Entry("custom_fields", Str(c.fingerprint(Canonical(d.customFields, c.show)))),
      Entry("document_type", OfRef(d.documentType)),
      Entry("tags", TagsValue(NormalizedTags(d.tags))),
      Entry("title", Str(c.fingerprint(OfText(d.title))))
    ])
  }

  function BaselineTags(baseline: Value): Option<seq<I32>> {
    var tags := Get(baseline, "tags");
    if tags.Some? then ReadTags(tags.value) else None
  }

  /** A set text field is neither as desired nor as the baseline has it. */
  predicate TextConflict(baseline: Value, name: string, desired: Option<string>, current: Option<string>, c: Codec) {
    desired.Some? && current != desired && Get(baseline, name) != Some(Str(c.fingerprint(OfText(current))))
  }

  predicate RefConflict(baseline: Value, name: string, desired: Option<Option<I32>>, current: Option<I32>) {
    desired.Some? && current != desired.value && Get(baseline, name) != Some(OfRef(current))
  }

  predicate CustomConflict(baseline: Value, desired: Option<Value>, current: Value, c: Codec) {
    && desired.Some? && Canonical(desired.value, c.show) != Canonical(current, c.show)
    && Get(baseline, "custom_fields") != Some(Str(c.fingerprint(Canonical(current, c.show))))
  }

  predicate Conflict(f: Field, baseline: Value, desired: Patch, current: Document, c: Codec) {
    match f
    case Content => TextConflict(baseline, "content", desired.content, current.content, c)
    case Title => TextConflict(baseline, "title", desired.title, current.title, c)
    case Created => TextConflict(baseline, "created", desired.created, current.created, c)
    case Correspondent => RefConflict(baseline, "correspondent", desired.correspondent, current.correspondent)
    case DocumentType => RefConflict(baseline, "document_type", desired.documentType, current.documentType)
    case CustomFields => CustomConflict(baseline, desired.customFields, current.customFields, c)
    case Tags => BaselineTags(baseline).None?
  }

  /** The tag set the merge asks for: the decided changes and the operations on top of the current tags. */
  function MergedTags(base: set<I32>, desired: set<I32>, current: set<I32>, ops: TagOperations): set<I32> {
    current + (desired - base) + TagSet(ops.additions) - (base - desired) - TagSet(ops.removals)
  }

  /** The tag set decided on; an unset field means the baseline. */
  function DesiredTags(base: set<I32>, desired: Patch): set<I32> {
    if desired.tags.Some? then TagSet(desired.tags.value) else base
  }

  /** What is left to send: the fields that still differ. */
  function Merged(base: set<I32>, desired: Patch, current: Document, ops: TagOperations, c: Codec): Patch {
    var tags := MergedTags(base, DesiredTags(base, desired), TagSet(current.tags), ops);
    Patch(
      if desired.content == current.content then None else desired.content,
      if desired.title == current.title then None else desired.title,
      if tags == TagSet(current.tags) then None else Some(Sorted(tags)),
      if desired.correspondent == Some(current.correspondent) then None else desired.correspondent,
      if desired.documentType == Some(current.documentType) then None else desired.documentType,
      if desired.created == current.created then None else desired.created,
      if desired.customFields.Some?
         && Canonical(desired.customFields.value, c.show) == Canonical(current.customFields, c.show)
      then None else desired.customFields)
  }

  /** The three-way merge on a mutable set: add, then remove one by one. */
  method MergeTags(base: set<I32>, wanted: set<I32>, current: set<I32>, ops: TagOperations) returns (merged: set<I32>)
    ensures merged == MergedTags(base, wanted, current, ops)
  {
    merged := current + (wanted - base) + TagSet(ops.additions);
    var removals := Sorted(base - wanted) + ops.removals;
    ghost var before := merged;
    for i := 0 to |removals|
      invariant merged == before - TagSet(removals[..i])
    {
      merged := merged - {removals[i]};
      TagSetConcat(removals[..i], [removals[i]]);
      assert removals[..i + 1] == removals[..i] + [removals[i]];
    }
    assert removals[..|removals|] == removals;
  }

  function Noted(fields: set<Field>, f: Field, conflict: bool): (r: set<Field>)
    ensures forall g :: g in r <==> g in fields || (g == f && conflict)
  {
    if conflict then fields + {f} else fields
  }

  /** The checks in turn; sorting and deduplicating the names is what collecting a set stands for. */
  method Conflicts(baseline: Value, desired: Patch, current: Document, c: Codec) returns (fields: set<Field>)
    ensures forall f: Field :: f in fields <==> Conflict(f, baseline, desired, current, c)
  {
    fields := {};
    fields := Noted(fields, Content, TextConflict(baseline, "content", desired.content, current.content, c));
    fields := Noted(fields, Title, TextConflict(baseline, "title", desired.title, current.title, c));
    fields := Noted(fields, Correspondent,
                    RefConflict(baseline, "correspondent", desired.correspondent, current.correspondent));
    fields := Noted(fields, DocumentType,
                    RefConflict(baseline, "document_type", desired.documentType, current.documentType));
    fields := Noted(fields, Created, TextConflict(baseline, "created", desired.created, current.created, c));
    fields := Noted(fields, CustomFields, CustomConflict(baseline, desired.customFields, current.customFields, c));
    fields := Noted(fields, Tags, BaselineTags(baseline).None?);
  }

  /** Fields that already have the desired value are not sent. */
  method Prune(desired: Patch, current: Document, c: Codec) returns (patch: Patch)
    ensures forall base, ops :: patch == Merged(base, desired, current, ops, c).(tags := desired.tags)
  {
    patch := desired;
    if patch.content == current.content { patch := patch.(content := None); }
    if patch.title == current.title { patch := patch.(title := None); }
    if patch.correspondent == Some(current.correspondent) { patch := patch.(correspondent := None); }
    if patch.documentType == Some(current.documentType) { patch := patch.(documentType := None); }
    if patch.created == current.created { patch := patch.(created := None); }
    if patch.customFields.Some?
       && Canonical(patch.customFields.value, c.show) == Canonical(current.customFields, c.show) {
      patch := patch.(customFields := None);
    }
  }

  /** `resolve_review_patch`. */
  method ResolveReviewPatch(baseline: Value, desired: Patch, current: Document, ops: TagOperations, c: Codec)
    returns (r: Result<Patch, set<Field>>)
    ensures r.Err? <==> exists f: Field :: Conflict(f, baseline, desired, current, c)
    ensures r.Err? ==> forall f: Field :: f in r.error <==> Conflict(f, baseline, desired, current, c)
    ensures r.Ok? ==> BaselineTags(baseline).Some?
                      && r.value == Merged(TagSet(BaselineTags(baseline).value), desired, current, ops, c)
  {
    var conflicts := Conflicts(baseline, desired, current, c);
    if conflicts != {} {
      return Err(conflicts);
    }
    assert !Conflict(Tags, baseline, desired, current, c);
    var base := TagSet(BaselineTags(baseline).value);
    var patch := Prune(desired, current, c);
    var wanted := if patch.tags.Some? then TagSet(patch.tags.value) else base;
    var merged := MergeTags(base, wanted, TagSet(current.tags), ops);
    assert Sorted(merged) == NormalizedTags(current.tags) <==> merged == TagSet(current.tags);
    var tags := if Sorted(merged) != NormalizedTags(current.tags) then Some(Sorted(merged)) else None;
    r := Ok(patch.(tags := tags));
  }

  // ------------------------------------------------------------ main results

  predicate DistinctKeys(entries: seq<Entry>) {
    forall i, j :: 0 <= i < j < |entries| ==> entries[i].key != entries[j].key
  }

  lemma {:induction false} FindAt(entries: seq<Entry>, i: nat)
    requires i < |entries| && DistinctKeys(entries)
    ensures Get(Obj(entries), entries[i].key) == Some(entries[i].value)
  {
    if i > 0 { FindAt(entries[1..], i - 1); }
  }

  lemma BaselineKeys(d: Document, c: Codec)
    ensures DistinctKeys(Baseline(d, c).entries)
  {
  }

  lemma BaselineEntries(d: Document, c: Codec)
    ensures var b := Baseline(d, c);
      && Get(b, "content") == Some(Str(c.fingerprint(OfText(d.content))))
      && Get(b, "correspondent") == Some(OfRef(d.correspondent))
      && Get(b, "created") == Some(Str(c.fingerprint(OfText(d.created))))
      && Get(b, "custom_fields") == Some(Str(c.fingerprint(Canonical(d.customFields, c.show))))
      && Get(b, "document_type") == Some(OfRef(d.documentType))
      && Get(b, "title") == Some(Str(c.fingerprint(OfText(d.title))))
      && BaselineTags(b) == Some(NormalizedTags(d.tags))
  {
    var e := Baseline(d, c).entries;
    BaselineKeys(d, c);
    FindAt(e, 0);
    FindAt(e, 1);
    FindAt(e, 2);
    FindAt(e, 3);
    FindAt(e, 4);
    FindAt(e, 5);
    FindAt(e, 6);
    ReadTagsValue(NormalizedTags(d.tags));
  }

  /** A document never conflicts with the baseline taken from it. */
  lemma OwnBaselineNeverConflicts(d: Document, desired: Patch, c: Codec, f: Field)
    ensures !Conflict(f, Baseline(d, c), desired, d, c)
  {
    BaselineEntries(d, c);
  }

  /** A set field of `current` has neither the desired value nor the one of `seen`, the document reviewed. */
  predicate ChangedUnderReview(f: Field, seen: Document, desired: Patch, current: Document, show: Value -> string) {
    match f
    case Content => desired.content.Some? && current.content != desired.content && current.content != seen.content
    case Title => desired.title.Some? && current.title != desired.title && current.title != seen.title
    case Created => desired.created.Some? && current.created != desired.created && current.created != seen.created
    case Correspondent =>
      desired.correspondent.Some?
      && current.correspondent != desired.correspondent.value && current.correspondent != seen.correspondent
    case DocumentType =>
      desired.documentType.Some?
      && current.documentType != desired.documentType.value && current.documentType != seen.documentType
    case CustomFields =>
      desired.customFields.Some?
      && Canonical(current.customFields, show) != Canonical(desired.customFields.value, show)
      && Canonical(current.customFields, show) != Canonical(seen.customFields, show)
    case Tags => false
  }

  /** Two different values have one fingerprint. */
  predicate Collide(c: Codec, v: Value, w: Value) {
    v != w && c.fingerprint(v) == c.fingerprint(w)
  }

  /** The fingerprint of the field's value now is that of another value, the one reviewed. */
  predicate Mistaken(f: Field, seen: Document, current: Document, c: Codec) {
    match f
    case Content => Collide(c, OfText(current.content), OfText(seen.content))
    case Title => Collide(c, OfText(current.title), OfText(seen.title))
    case Created => Collide(c, OfText(current.created), OfText(seen.created))
    case CustomFields => Collide(c, Canonical(current.customFields, c.show), Canonical(seen.customFields, c.show))
    case Correspondent | DocumentType | Tags => false
  }

  lemma OfTextTells(a: Option<string>, b: Option<string>)
    ensures OfText(a) == OfText(b) <==> a == b
  {
  }

  lemma OfRefTells(a: Option<I32>, b: Option<I32>)
    ensures OfRef(a) == OfRef(b) <==> a == b
  {
  }

  /**
   * Against the baseline of the reviewed document exactly the fields changed under the
   * review conflict, unless the fingerprint mistakes the value now for the one reviewed.
   */
  lemma ConflictIsExact(seen: Document, desired: Patch, current: Document, c: Codec, f: Field)
    ensures Conflict(f, Baseline(seen, c), desired, current, c)
       <==> ChangedUnderReview(f, seen, desired, current, c.show) && !Mistaken(f, seen, current, c)
  {
    BaselineEntries(seen, c);
    match f
    case Content => OfTextTells(current.content, seen.content);
    case Title => OfTextTells(current.title, seen.title);
    case Created => OfTextTells(current.created, seen.created);
    case Correspondent => OfRefTells(current.correspondent, seen.correspondent);
    case DocumentType => OfRefTells(current.documentType, seen.documentType);
    case CustomFields =>
    case Tags =>
  }

  /** Sending the resolved body achieves every decided field and leaves the undecided ones alone. */
  lemma ResolutionAchievesDecision(base: set<I32>, desired: Patch, current: Document, ops: TagOperations, c: Codec)
    ensures var after := Land(current, Merged(base, desired, current, ops, c));
      && after.content == (if desired.content.Some? then desired.content else current.content)
      && after.title == (if desired.title.Some? then desired.title else current.title)
      && after.created == (if desired.created.Some? then desired.created else current.created)
      && after.correspondent
         == (if desired.correspondent.Some? then desired.correspondent.value else current.correspondent)
      && after.documentType == (if desired.documentType.Some? then desired.documentType.value else current.documentType)
      && Canonical(after.customFields, c.show)
         == Canonical(if desired.customFields.Some? then desired.customFields.value else current.customFields, c.show)
      && TagSet(after.tags) == MergedTags(base, DesiredTags(base, desired), TagSet(current.tags), ops)
  {
  }

  /** A tag neither the decision nor an operation touched stays as Paperless has it now; the others end as decided. */
  lemma TagsMergeThreeWays(base: set<I32>, desired: Patch, current: Document, ops: TagOperations, c: Codec, t: I32)
    ensures var after := TagSet(Land(current, Merged(base, desired, current, ops, c)).tags);
      var wanted := DesiredTags(base, desired);
      t in after <==>
        if t in ops.removals || (t in base && t !in wanted) then false
        else t in current.tags || t in ops.additions || (t in wanted && t !in base)
  {
  }

  /** Resolving again after the resolved body landed leaves nothing to send. */
  lemma ResolvingAgainIsEmpty(base: set<I32>, desired: Patch, current: Document, ops: TagOperations, c: Codec)
    ensures Merged(base, desired, Land(current, Merged(base, desired, current, ops, c)), ops, c) == EMPTY
  {
    var wanted := DesiredTags(base, desired);
    var tags := MergedTags(base, wanted, TagSet(current.tags), ops);
    assert MergedTags(base, wanted, tags, ops) == tags;
  }

  /** ... and cannot conflict: every decided field has its value. */
  lemma ResolvingAgainNeverConflicts(
      baseline: Value, desired: Patch, current: Document, ops: TagOperations, c: Codec, f: Field)
    requires BaselineTags(baseline).Some?
    ensures var r := Merged(TagSet(BaselineTags(baseline).value), desired, current, ops, c);
      !Conflict(f, baseline, desired, Land(current, r), c)
  {
  }
}
