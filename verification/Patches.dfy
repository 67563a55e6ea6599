/**
 * The Paperless document, the PATCH body and the test that decides whether a
 * document already carries a body.
 */
module Patches {
  import opened Options
  import Json

  type I32 = x: int | -0x8000_0000 <= x < 0x8000_0000

  /**
   * A PATCH body. An outer `None` leaves the field alone; the reference fields
   * also know `Some(None)`, which clears them.
   */
  datatype Patch = Patch(
    content: Option<string>,
    title: Option<string>,
    tags: Option<seq<I32>>,
    correspondent: Option<Option<I32>>,
    documentType: Option<Option<I32>>,
    created: Option<string>,
    customFields: Option<Json.Value>)

  datatype Document = Document(
    content: Option<string>,
    title: Option<string>,
    tags: seq<I32>,
    correspondent: Option<I32>,
    documentType: Option<I32>,
    created: Option<string>,
    customFields: Json.Value)

  const EMPTY := Patch(None, None, None, None, None, None, None)

  /** The set of tags of a list, which is what sorting and deduplicating compares. */
  function TagSet(tags: seq<I32>): set<I32> {
    set t | t in tags
  }

  /** `document_matches_patch`: every requested field already has its value. */
  predicate Matches(d: Document, p: Patch) {
    && (p.content.Some? ==> d.content == p.content)
    && (p.title.Some? ==> d.title == p.title)
    && (p.tags.Some? ==> TagSet(d.tags) == TagSet(p.tags.value))
    && (p.correspondent.Some? ==> d.correspondent == p.correspondent.value)
    && (p.documentType.Some? ==> d.documentType == p.documentType.value)
    && (p.created.Some? ==> d.created == p.created)
    && (p.customFields.Some? ==> d.customFields == p.customFields.value)
  }

  /** What Paperless does with an accepted body: overwrite the requested fields. */
  function Land(d: Document, p: Patch): Document {
    Document(
      if p.content.Some? then p.content else d.content,
      if p.title.Some? then p.title else d.title,
      if p.tags.Some? then p.tags.value else d.tags,
      if p.correspondent.Some? then p.correspondent.value else d.correspondent,
      if p.documentType.Some? then p.documentType.value else d.documentType,
      if p.created.Some? then p.created else d.created,
      if p.customFields.Some? then p.customFields.value else d.customFields)
  }

  /** The documents agree; the order and repetition of tags does not count. */
  predicate SameContents(a: Document, b: Document) {
    && a.content == b.content && a.title == b.title && TagSet(a.tags) == TagSet(b.tags)
    && a.correspondent == b.correspondent && a.documentType == b.documentType
    && a.created == b.created && a.customFields == b.customFields
  }

  /** A document matches a body exactly when landing the body would change nothing in it. */
  lemma MatchesExactly(d: Document, p: Patch)
    ensures Matches(d, p) <==> SameContents(Land(d, p), d)
  {
  }
}
