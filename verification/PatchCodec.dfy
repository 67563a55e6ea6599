/**
 * The persisted form of a PATCH body. An unset field is absent; a reference field
 * that is present with null clears the reference, so its decoder must not treat
 * null as absent the way an ordinary optional field does.
 */
module PatchCodec {
  import opened Options
  import opened Patches
  import opened Json

  datatype Slot = Slot(key: string, value: Option<Value>)

  /** The present slots as object entries. */
  function Entries(slots: seq<Slot>): seq<Entry> {
    if slots == [] then []
    else (if slots[0].value.Some? then [Entry(slots[0].key, slots[0].value.value)] else []) + Entries(slots[1..])
  }

  function TextSlot(x: Option<string>): Option<Value> {
    if x.Some? then Some(Str(x.value)) else None
  }

  function RefSlot(x: Option<Option<I32>>): Option<Value> {
    if x.None? then None else Some(if x.value.None? then Null else Num(Int(x.value.value)))
  }

  function TagsSlot(x: Option<seq<I32>>): Option<Value> {
    if x.None? then None else Some(Arr(seq(|x.value|, i requires 0 <= i < |x.value| => Num(Int(x.value[i])))))
  }

  function Slots(p: Patch): seq<Slot> {
    [Slot("content", TextSlot(p.content)),
     Slot("correspondent", RefSlot(p.correspondent)),
     Slot("created", TextSlot(p.created)),
     Slot("custom_fields", p.customFields),
     Slot("document_type", RefSlot(p.documentType)),
     Slot("tags", TagsSlot(p.tags)),
     Slot("title", TextSlot(p.title))]
  }

  function Encode(p: Patch): Value {
    Obj(Entries(Slots(p)))
  }

  // ----------------------------------------------------------------- decoder

  /** `Ok(None)` is an absent field; `Err` a value of the wrong type. */
  type Decoded<T> = Result<Option<T>, ()>

  function DecodeText(v: Option<Value>): Decoded<string> {
    if v.None? || v.value.Null? then Ok(None)
    else if v.value.Str? then Ok(Some(v.value.s))
    else Err(())
  }

  function DecodeInt(v: Value): Option<I32> {
    if v.Num? && v.n.Int? && -0x8000_0000 <= v.n.i < 0x8000_0000 then Some(v.n.i as I32) else None
  }

  /** `deserialize_patch_reference`: null present means clear. */
  function DecodeRef(v: Option<Value>): Decoded<Option<I32>> {
    if v.None? then Ok(None)
    else if v.value.Null? then Ok(Some(None))
    else if DecodeInt(v.value).Some? then Ok(Some(DecodeInt(v.value)))
    else Err(())
  }

  function DecodeInts(items: seq<Value>): Option<seq<I32>> {
    if items == [] then Some([])
    else
      var first, rest := DecodeInt(items[0]), DecodeInts(items[1..]);
      if first.Some? && rest.Some? then Some([first.value] + rest.value) else None
  }

  function DecodeTags(v: Option<Value>): Decoded<seq<I32>> {
    if v.None? || v.value.Null? then Ok(None)
    else if v.value.Arr? && DecodeInts(v.value.items).Some? then Ok(DecodeInts(v.value.items))
    else Err(())
  }

  /** An optional arbitrary value cannot tell null from absent. */
  function DecodeAny(v: Option<Value>): Option<Value> {
    if v == Some(Null) then None else v
  }

  function Decode(v: Value): Result<Patch, ()> {
    var content, title := DecodeText(Get(v, "content")), DecodeText(Get(v, "title"));
    var created, tags := DecodeText(Get(v, "created")), DecodeTags(Get(v, "tags"));
    var correspondent, documentType := DecodeRef(Get(v, "correspondent")), DecodeRef(Get(v, "document_type"));
    if v.Obj? && content.Ok? && title.Ok? && created.Ok? && tags.Ok? && correspondent.Ok? && documentType.Ok?
    then Ok(Patch(content.value, title.value, tags.value, correspondent.value, documentType.value, created.value,
                  DecodeAny(Get(v, "custom_fields"))))
    else Err(())
  }

  // ------------------------------------------------------------------ lemmas

  lemma SplitEntries(slots: seq<Slot>)
    requires slots != []
    ensures var e := Entries(slots);
      if slots[0].value.Some?
      then e != [] && e[0] == Entry(slots[0].key, slots[0].value.value) && e[1..] == Entries(slots[1..])
      else e == Entries(slots[1..])
  {
  }

  lemma {:induction false} FindOther(slots: seq<Slot>, key: string)
    requires forall j :: 0 <= j < |slots| ==> slots[j].key != key
    ensures Find(Entries(slots), key) == None
  {
    if slots != [] {
      FindOther(slots[1..], key);
      SplitEntries(slots);
    }
  }

  lemma {:induction false} FindSlot(slots: seq<Slot>, i: nat)
    requires i < |slots|
    requires forall j :: 0 <= j < |slots| && j != i ==> slots[j].key != slots[i].key
    ensures Find(Entries(slots), slots[i].key) == slots[i].value
  {
    SplitEntries(slots);
    if i > 0 {
      FindSlot(slots[1..], i - 1);
    } else {
      FindOther(slots[1..], slots[0].key);
    }
  }

  lemma SlotsFound(p: Patch, i: nat)
    requires i < 7
    ensures var s := Slots(p)[i]; Get(Encode(p), s.key) == s.value
  {
    FindSlot(Slots(p), i);
  }

  lemma {:induction false} DecodeIntsInverts(ts: seq<I32>)
    ensures DecodeInts(seq(|ts|, i requires 0 <= i < |ts| => Num(Int(ts[i])))) == Some(ts)
  {
    var items := seq(|ts|, i requires 0 <= i < |ts| => Num(Int(ts[i])));
    if ts != [] {
      DecodeIntsInverts(ts[1..]);
      assert items[1..] == seq(|ts[1..]|, i requires 0 <= i < |ts[1..]| => Num(Int(ts[1..][i])));
      assert ts == [ts[0]] + ts[1..];
    }
  }

  lemma FieldsFound(p: Patch)
    ensures var v := Encode(p);
      && Get(v, "content") == TextSlot(p.content) && Get(v, "title") == TextSlot(p.title)
      && Get(v, "created") == TextSlot(p.created) && Get(v, "tags") == TagsSlot(p.tags)
      && Get(v, "correspondent") == RefSlot(p.correspondent) && Get(v, "document_type") == RefSlot(p.documentType)
      && Get(v, "custom_fields") == p.customFields
  {
    SlotsFound(p, 0);
    SlotsFound(p, 1);
    SlotsFound(p, 2);
    SlotsFound(p, 3);
    SlotsFound(p, 4);
    SlotsFound(p, 5);
    SlotsFound(p, 6);
  }

  /** Each decoder inverts its encoder, whatever the value. */
  lemma TextInverts(x: Option<string>)
    ensures DecodeText(TextSlot(x)) == Ok(x)
  {
  }

  lemma RefInverts(x: Option<Option<I32>>)
    ensures DecodeRef(RefSlot(x)) == Ok(x)
  {
  }

  lemma TagsInvert(x: Option<seq<I32>>)
    ensures DecodeTags(TagsSlot(x)) == Ok(x)
  {
    if x.Some? { DecodeIntsInverts(x.value); }
  }

  /** Every body decodes; only a custom-field value of null comes back as absent. */
  lemma DecodeEncode(p: Patch)
    ensures Decode(Encode(p)) == Ok(p.(customFields := DecodeAny(p.customFields)))
  {
    FieldsFound(p);
    TextInverts(p.content);
    TextInverts(p.title);
    TextInverts(p.created);
    RefInverts(p.correspondent);
    RefInverts(p.documentType);
    TagsInvert(p.tags);
  }

  /** The persisted body is recovered unchanged exactly when it does not set custom fields to null. */
  lemma RoundTripExactly(p: Patch)
    ensures Decode(Encode(p)) == Ok(p) <==> p.customFields != Some(Null)
  {
    DecodeEncode(p);
  }

  /** Different bodies have different encodings, so a row names its body. */
  lemma EncodeInjective(p: Patch, q: Patch)
    requires Encode(p) == Encode(q)
    ensures p == q
  {
    DecodeEncode(p);
    DecodeEncode(q);
    SlotsFound(p, 3);
    SlotsFound(q, 3);
    assert Slots(p)[3] == Slot("custom_fields", p.customFields);
    assert Slots(q)[3] == Slot("custom_fields", q.customFields);
  }

  /** The body a persisted row yields. */
  function Recovered(p: Patch): Patch {
    p.(customFields := DecodeAny(p.customFields))
  }

  /** It is what decoding the encoded body gives, and decoding once more changes nothing. */
  lemma RecoveredIsDecoded(p: Patch)
    ensures Decode(Encode(p)) == Ok(Recovered(p)) && Decode(Encode(Recovered(p))) == Ok(Recovered(p))
    ensures Recovered(p) == p <==> p.customFields != Some(Null)
  {
    DecodeEncode(p);
    DecodeEncode(Recovered(p));
  }
}
