/**
  Decoding and encoding of the entry JSON: modelled keys go into the record, all others
  are kept and written back. An object is a map, so its text syntax is not modelled.
  */
module EntryJson {
  import opened Prelude
  import opened EntryData

  type Object = map<string, Json>

  const INT_MIN := -0x8000_0000_0000_0000
  const INT_MAX := 0x7FFF_FFFF_FFFF_FFFF

  // --- Keys -------------------------------------------------------------------------

  function TextKeys(): set<string> {
    {"username", "password", "totp_secret", "notes", "sign_in_with", "issuer", "algorithm",
     "card_number", "holder_name", "expiry_month", "expiry_year", "cvv",
     "bank_name", "iban", "bic", "account_number", "account_type",
     "title", "first_name", "last_name", "company", "email", "phone", "street", "city", "state", "postal_code",
      "country",
     "product_name", "license_key", "purchase_email", "purchase_date", "expires_at"}
  }

  const PERIOD := "period"
  const DIGITS := "digits"
  const FIELDS := "custom_fields"
  const TAGS := "tags"

  function Known(): set<string> {
    TextKeys() + {PERIOD, DIGITS, FIELDS, TAGS}
  }

  lemma KeysAreDistinct()
    ensures PERIOD !in TextKeys() && DIGITS !in TextKeys() && FIELDS !in TextKeys() && TAGS !in TextKeys()
    ensures PERIOD != DIGITS && PERIOD != FIELDS && PERIOD != TAGS
    ensures DIGITS != FIELDS && DIGITS != TAGS && FIELDS != TAGS
    ensures TextKeys() <= Known() && PERIOD in Known() && DIGITS in Known() && FIELDS in Known() && TAGS in Known()
  {
  }

  function FieldKeys(): set<string> {
    {"label", "value", "type", "filename", "mime_type"}
  }

  // --- Values -----------------------------------------------------------------------

  /** A missing key decodes like null. */
  function At(m: Object, key: string): Json {
    if key in m then m[key] else JNull
  }

  predicate IsTextValue(j: Json) {
    j.JNull? || j.JString?
  }

  function TextOf(j: Json): string {
    if j.JString? then j.s else ""
  }

  predicate IsIntValue(j: Json) {
    j.JNull? || (j.JInt? && INT_MIN <= j.n <= INT_MAX)
  }

  function IntOf(j: Json): int {
    if j.JInt? then j.n else 0
  }

  // --- Custom fields ------------------------------------------------------------------

  predicate IsFieldValue(j: Json) {
    j.JNull? || (j.JObject? && forall k :: k in FieldKeys() ==> IsTextValue(At(j.members, k)))
  }

  function FieldMembers(j: Json): Object {
    if j.JObject? then j.members else map[]
  }

  function DecodedField(j: Json): CustomField {
    var m := FieldMembers(j);
    CustomField(
      TextOf(At(m, "label")), TextOf(At(m, "value")), TextOf(At(m, "type")),
      TextOf(At(m, "filename")), TextOf(At(m, "mime_type")), m - FieldKeys())
  }

  /** The value, or nothing if it is empty. */
  function Optional(key: string, value: string): Object {
    if value == "" then map[] else map[key := JString(value)]
  }

  function WithExtra(plain: Object, extra: Object, known: set<string>): Object {
    plain + (extra - known)
  }

  function EncodedField(f: CustomField): Object {
    WithExtra(
      map["label" := JString(f.name), "value" := JString(f.value)]
        + Optional("type", f.kind) + Optional("filename", f.filename) + Optional("mime_type", f.mimeType),
      f.extra, FieldKeys())
  }

  predicate IsField(f: CustomField) {
    f.extra.Keys !! FieldKeys()
  }

  lemma EncodedFieldExtra(f: CustomField)
    requires IsField(f)
    ensures EncodedField(f) - FieldKeys() == f.extra
  {
  }

  lemma FieldRoundTrip(f: CustomField)
    requires IsField(f)
    ensures IsFieldValue(JObject(EncodedField(f))) && DecodedField(JObject(EncodedField(f))) == f
  {
    EncodedFieldExtra(f);
    hide EncodedField, IsField;
  }

  /** The members with empty optional values dropped, and label and value always there. */
  function PrunedField(j: Json): Object {
    var m := FieldMembers(j);
    (map k | k in m && (k in FieldKeys() ==> TextOf(m[k]) != "") :: m[k])
      + map["label" := JString(TextOf(At(m, "label"))), "value" := JString(TextOf(At(m, "value")))]
  }

  lemma FieldKnownAt(j: Json, k: string)
    requires IsFieldValue(j) && k in FieldKeys()
    ensures
      var text := TextOf(At(FieldMembers(j), k));
      var expected := if text == "" && k != "label" && k != "value" then JNull else JString(text);
      At(EncodedField(DecodedField(j)), k) == expected && At(PrunedField(j), k) == expected
    ensures k in EncodedField(DecodedField(j)) <==> At(EncodedField(DecodedField(j)), k) != JNull
    ensures k in PrunedField(j) <==> At(PrunedField(j), k) != JNull
  {
    assert j.JObject? ==> IsTextValue(At(j.members, k));
  }

  lemma FieldExtraAt(j: Json, k: string)
    requires IsFieldValue(j) && k !in FieldKeys()
    ensures
      var e, p, m := EncodedField(DecodedField(j)), PrunedField(j), FieldMembers(j);
      (k in e <==> k in m) && (k in p <==> k in m) && At(e, k) == At(m, k) == At(p, k)
  {
  }

  lemma EncodeDecodedField(j: Json)
    requires IsFieldValue(j)
    ensures EncodedField(DecodedField(j)) == PrunedField(j)
  {
    hide *;
    var e, p := EncodedField(DecodedField(j)), PrunedField(j);
    forall k ensures (k in e <==> k in p) && At(e, k) == At(p, k) {
      if k in FieldKeys() {
        FieldKnownAt(j, k);
      } else {
        FieldExtraAt(j, k);
      }
    }
    SameObjects(e, p);
  }

  lemma SameObjects(a: Object, b: Object)
    requires forall k :: (k in a <==> k in b) && At(a, k) == At(b, k)
    ensures a == b
  {
    assert forall k :: k in a ==> a[k] == At(a, k) && At(b, k) == b[k];
  }

  // --- The record ---------------------------------------------------------------------

  function Items(j: Json): seq<Json> {
    if j.JArray? then j.items else []
  }

  predicate IsListOf(element: Json -> bool, j: Json) {
    j.JNull? || (j.JArray? && forall k :: 0 <= k < |j.items| ==> element(j.items[k]))
  }

  function DecodedFields(items: seq<Json>): (fields: seq<CustomField>)
    ensures |fields| == |items| && forall k :: 0 <= k < |items| ==> fields[k] == DecodedField(items[k])
  {
    seq(|items|, k requires 0 <= k < |items| => DecodedField(items[k]))
  }

  function DecodedTags(items: seq<Json>): (tags: seq<string>)
    ensures |tags| == |items| && forall k :: 0 <= k < |items| ==> tags[k] == TextOf(items[k])
  {
    seq(|items|, k requires 0 <= k < |items| => TextOf(items[k]))
  }

  function EncodedFields(fields: seq<CustomField>): (items: seq<Json>)
    ensures |items| == |fields| && forall k :: 0 <= k < |items| ==> items[k] == JObject(EncodedField(fields[k]))
  {
    seq(|fields|, k requires 0 <= k < |fields| => JObject(EncodedField(fields[k])))
  }

  function EncodedTags(tags: seq<string>): (items: seq<Json>)
    ensures |items| == |tags| && forall k :: 0 <= k < |items| ==> items[k] == JString(tags[k])
  {
    seq(|tags|, k requires 0 <= k < |tags| => JString(tags[k]))
  }

  /** Every modelled key holds a value of its type, or null. */
  predicate IsWellTyped(m: Object) {
    && (forall k :: k in TextKeys() ==> IsTextValue(At(m, k)))
    && IsIntValue(At(m, PERIOD)) && IsIntValue(At(m, DIGITS))
    && IsListOf(IsFieldValue, At(m, FIELDS)) && IsListOf(IsTextValue, At(m, TAGS))
  }

  function TextsOf(m: Object): (t: Text)
    ensures IsText(t) && t.Keys <= TextKeys()
    ensures forall k :: k in TextKeys() ==> Get(t, k) == TextOf(At(m, k))
  {
    map k | k in m && k in TextKeys() && TextOf(m[k]) != "" :: TextOf(m[k])
  }

  function Decoded(m: Object): EntryData {
    EntryData(TextsOf(m), IntOf(At(m, PERIOD)), IntOf(At(m, DIGITS)),
              DecodedFields(Items(At(m, FIELDS))), DecodedTags(Items(At(m, TAGS))), m - Known())
  }

  function EncodedText(t: Text): Object {
    map k | k in t && t[k] != "" :: JString(t[k])
  }

  function OptionalInt(key: string, n: int): Object {
    if n == 0 then map[] else map[key := JInt(n)]
  }

  function List(items: seq<Json>): Json {
    if items == [] then JNull else JArray(items)
  }

  function OptionalList(key: string, items: seq<Json>): Object {
    if items == [] then map[] else map[key := JArray(items)]
  }

  function Plain(d: EntryData): Object {
    EncodedText(d.text) + OptionalInt(PERIOD, d.period) + OptionalInt(DIGITS, d.digits)
      + OptionalList(FIELDS, EncodedFields(d.customFields)) + OptionalList(TAGS, EncodedTags(d.tags))
  }

  function Encoded(d: EntryData): Object {
    WithExtra(Plain(d), d.extra, Known())
  }

  /** What the decoder produces, and every edit keeps. */
  predicate IsEntry(d: EntryData) {
    && IsText(d.text) && d.text.Keys <= TextKeys()
    && INT_MIN <= d.period <= INT_MAX && INT_MIN <= d.digits <= INT_MAX
    && (forall k :: 0 <= k < |d.customFields| ==> IsField(d.customFields[k]))
    && d.extra.Keys !! Known()
  }

  lemma PlainTextAt(d: EntryData, k: string)
    requires d.text.Keys <= TextKeys() && k in TextKeys()
    ensures At(Plain(d), k) == if Get(d.text, k) == "" then JNull else JString(Get(d.text, k))
  {
    KeysAreDistinct();
    hide TextKeys, EncodedFields, EncodedTags;
  }

  lemma PlainOthersAt(d: EntryData)
    requires d.text.Keys <= TextKeys()
    ensures At(Plain(d), PERIOD) == if d.period == 0 then JNull else JInt(d.period)
    ensures At(Plain(d), DIGITS) == if d.digits == 0 then JNull else JInt(d.digits)
    ensures At(Plain(d), FIELDS) == List(EncodedFields(d.customFields))
    ensures At(Plain(d), TAGS) == List(EncodedTags(d.tags))
  {
    KeysAreDistinct();
    PlainAsSum(d, PERIOD);
    PlainAsSum(d, DIGITS);
    PlainAsSum(d, FIELDS);
    PlainAsSum(d, TAGS);
    hide TextKeys, EncodedFields, EncodedTags, Plain;
  }

  lemma PlainAsSum(d: EntryData, k: string)
    ensures At(Plain(d), k) ==
      if k in OptionalList(TAGS, EncodedTags(d.tags)) then OptionalList(TAGS, EncodedTags(d.tags))[k]
      else if k in OptionalList(FIELDS, EncodedFields(d.customFields)) then
        OptionalList(FIELDS, EncodedFields(d.customFields))[k]
      else if k in OptionalInt(DIGITS, d.digits) then OptionalInt(DIGITS, d.digits)[k]
      else if k in OptionalInt(PERIOD, d.period) then OptionalInt(PERIOD, d.period)[k]
      else At(EncodedText(d.text), k)
    ensures k in Plain(d) <==>
      || k in EncodedText(d.text) || k in OptionalInt(PERIOD, d.period) || k in OptionalInt(DIGITS, d.digits)
      || k in OptionalList(FIELDS, EncodedFields(d.customFields)) || k in OptionalList(TAGS, EncodedTags(d.tags))
  {
    hide OptionalList, OptionalInt, EncodedText;
    var a, b, c, e := EncodedText(d.text), OptionalInt(PERIOD, d.period), OptionalInt(DIGITS, d.digits),
                      OptionalList(FIELDS, EncodedFields(d.customFields));
  }

  lemma PlainKeys(d: EntryData, k: string)
    requires d.text.Keys <= TextKeys()
    ensures k in Plain(d) ==> k in Known() && At(Plain(d), k) != JNull
  {
    KeysAreDistinct();
    PlainAsSum(d, k);
    hide TextKeys, EncodedFields, EncodedTags, Plain;
  }

  /** The modelled part, key by key. */
  lemma PlainAt(d: EntryData, k: string)
    requires d.text.Keys <= TextKeys()
    ensures k in TextKeys() ==> At(Plain(d), k) == if Get(d.text, k) == "" then JNull else JString(Get(d.text, k))
    ensures At(Plain(d), PERIOD) == if d.period == 0 then JNull else JInt(d.period)
    ensures At(Plain(d), DIGITS) == if d.digits == 0 then JNull else JInt(d.digits)
    ensures At(Plain(d), FIELDS) == List(EncodedFields(d.customFields))
    ensures At(Plain(d), TAGS) == List(EncodedTags(d.tags))
    ensures k in Plain(d) ==> k in Known() && At(Plain(d), k) != JNull
  {
    hide *;
    PlainOthersAt(d);
    PlainKeys(d, k);
    if k in TextKeys() {
      PlainTextAt(d, k);
    }
  }

  lemma KnownAt(d: EntryData, k: string)
    requires IsEntry(d) && k in Known()
    ensures (k in Encoded(d) <==> k in Plain(d)) && At(Encoded(d), k) == At(Plain(d), k)
  {
    hide Plain, Known, TextKeys, IsField;
  }

  /** Where the values of a custom field are written. */
  lemma FieldLayout(f: CustomField)
    requires IsField(f)
    ensures var m := EncodedField(f);
      && At(m, "label") == JString(f.name) && At(m, "value") == JString(f.value)
      && At(m, "type") == (if f.kind == "" then JNull else JString(f.kind))
      && At(m, "filename") == (if f.filename == "" then JNull else JString(f.filename))
      && At(m, "mime_type") == (if f.mimeType == "" then JNull else JString(f.mimeType))
      && forall k :: k !in {"label", "value", "type", "filename", "mime_type"} ==> At(m, k) == At(f.extra, k)
  {
  }

  lemma EncodedTextAt(d: EntryData, k: string)
    requires IsEntry(d) && k in TextKeys()
    ensures At(Encoded(d), k) == if Get(d.text, k) == "" then JNull else JString(Get(d.text, k))
    ensures k in Encoded(d) ==> At(Encoded(d), k) != JNull
  {
    KeysAreDistinct();
    PlainAt(d, k);
    hide Plain, Known, TextKeys, Encoded;
    KnownAt(d, k);
  }

  lemma EncodedOthersAt(d: EntryData)
    requires IsEntry(d)
    ensures At(Encoded(d), PERIOD) == if d.period == 0 then JNull else JInt(d.period)
    ensures At(Encoded(d), DIGITS) == if d.digits == 0 then JNull else JInt(d.digits)
    ensures At(Encoded(d), FIELDS) == List(EncodedFields(d.customFields))
    ensures At(Encoded(d), TAGS) == List(EncodedTags(d.tags))
    ensures forall k :: k in {PERIOD, DIGITS, FIELDS, TAGS} && k in Encoded(d) ==> At(Encoded(d), k) != JNull
  {
    KeysAreDistinct();
    hide Plain, Known, TextKeys, Encoded;
    forall k | k in {PERIOD, DIGITS, FIELDS, TAGS} ensures (k in Encoded(d) ==> At(Encoded(d), k) != JNull) {
      KnownAt(d, k);
      PlainAt(d, k);
    }
    KnownAt(d, PERIOD);
    KnownAt(d, DIGITS);
    KnownAt(d, FIELDS);
    KnownAt(d, TAGS);
    PlainAt(d, PERIOD);
  }

  /** What other readers of an entry find beside its texts. Numbers and lists are left out when
    empty. */
  lemma EntryLayout(d: EntryData)
    requires IsEntry(d)
    ensures var m := Encoded(d);
      && ("period" in m <==> d.period != 0) && ("digits" in m <==> d.digits != 0)
      && ("custom_fields" in m <==> d.customFields != []) && ("tags" in m <==> d.tags != [])
      && ("period" in m ==> m["period"] == JInt(d.period)) && ("digits" in m ==> m["digits"] == JInt(d.digits))
      && ("custom_fields" in m ==> m["custom_fields"] == JArray(EncodedFields(d.customFields)))
      && ("tags" in m ==> m["tags"] == JArray(EncodedTags(d.tags)))
  {
    EncodedOthersAt(d);
    hide Encoded;
  }

  /** Of the numbers exactly those that fit 64 bits can be read. */
  lemma NumbersFitExactly(m: Object, key: string, n: int)
    requires IsWellTyped(m) && (key == "period" || key == "digits")
    ensures IsWellTyped(m[key := JInt(n)]) <==> -9223372036854775808 <= n <= 9223372036854775807
  {
    KeysAreDistinct();
    hide TextKeys, IsFieldValue;
    var m' := m[key := JInt(n)];
    assert forall k :: k in TextKeys() ==> At(m', k) == At(m, k);
    assert At(m', FIELDS) == At(m, FIELDS) && At(m', TAGS) == At(m, TAGS);
  }

  lemma EncodedExtraAt(d: EntryData, k: string)
    requires IsEntry(d) && k !in Known()
    ensures (k in Encoded(d) <==> k in d.extra) && At(Encoded(d), k) == At(d.extra, k)
  {
    PlainAt(d, k);
    hide Plain, Known, TextKeys, IsField;
  }

  lemma KnownKeys(k: string)
    ensures k in Known() <==> k in TextKeys() || k in {PERIOD, DIGITS, FIELDS, TAGS}
  {
    hide TextKeys;
  }

  lemma EncodedFieldsAreTyped(fields: seq<CustomField>)
    requires forall k :: 0 <= k < |fields| ==> IsField(fields[k])
    ensures IsListOf(IsFieldValue, List(EncodedFields(fields)))
  {
    hide EncodedField, IsFieldValue, IsField;
    forall i | 0 <= i < |fields| ensures IsFieldValue(EncodedFields(fields)[i]) {
      FieldRoundTrip(fields[i]);
    }
  }

  lemma EncodedTagsAreTyped(tags: seq<string>)
    ensures IsListOf(IsTextValue, List(EncodedTags(tags)))
  {
  }

  lemma EncodedIsWellTyped(d: EntryData)
    requires IsEntry(d)
    ensures IsWellTyped(Encoded(d))
  {
    hide TextKeys, Known, Encoded, EncodedField, IsFieldValue, IsField, IsListOf, List;
    forall k | k in TextKeys() ensures IsTextValue(At(Encoded(d), k)) {
      EncodedTextAt(d, k);
    }
    EncodedOthersAt(d);
    EncodedFieldsAreTyped(d.customFields);
    EncodedTagsAreTyped(d.tags);
  }

  lemma FieldsRoundTrip(fields: seq<CustomField>)
    requires forall k :: 0 <= k < |fields| ==> IsField(fields[k])
    ensures DecodedFields(EncodedFields(fields)) == fields
  {
    hide DecodedField, EncodedField, IsField;
    forall i | 0 <= i < |fields| ensures DecodedFields(EncodedFields(fields))[i] == fields[i] {
      FieldRoundTrip(fields[i]);
    }
  }

  lemma TagsRoundTrip(tags: seq<string>)
    ensures DecodedTags(EncodedTags(tags)) == tags
  {
  }

  lemma ExtraRoundTrip(d: EntryData)
    requires IsEntry(d)
    ensures Encoded(d) - Known() == d.extra
  {
    hide TextKeys, Known, Encoded;
    forall k | k !in Known() ensures (k in Encoded(d) <==> k in d.extra) && At(Encoded(d), k) == At(d.extra, k) {
      EncodedExtraAt(d, k);
    }
    SameObjects(Encoded(d) - Known(), d.extra);
  }

  lemma TextRoundTrip(d: EntryData)
    requires IsEntry(d)
    ensures TextsOf(Encoded(d)) == d.text
  {
    hide TextKeys, Known, Encoded, TextsOf;
    var t := TextsOf(Encoded(d));
    forall k ensures Get(t, k) == Get(d.text, k) {
      if k in TextKeys() {
        EncodedTextAt(d, k);
      }
    }
    TextExtensional(t, d.text);
  }

  /** Encoding and decoding gives the record back. */
  lemma DecodeEncoded(d: EntryData)
    requires IsEntry(d)
    ensures IsWellTyped(Encoded(d)) && Decoded(Encoded(d)) == d
  {
    EncodedIsWellTyped(d);
    TextRoundTrip(d);
    EncodedOthersAt(d);
    FieldsRoundTrip(d.customFields);
    TagsRoundTrip(d.tags);
    ExtraRoundTrip(d);
    hide TextKeys, Known, Encoded, TextsOf, DecodedFields, DecodedTags, EncodedFields, EncodedTags, IsWellTyped;
    if d.customFields == [] {
      assert DecodedFields([]) == [];
    }
    if d.tags == [] {
      assert DecodedTags([]) == [];
    }
  }

  // --- Decoding, then encoding --------------------------------------------------------------

  predicate IsEmptyValue(j: Json) {
    j in {JNull, JString(""), JInt(0), JArray([])}
  }

  function PrunedItems(items: seq<Json>): (r: seq<Json>)
    ensures |r| == |items| && forall k :: 0 <= k < |items| ==> r[k] == JObject(PrunedField(items[k]))
  {
    seq(|items|, k requires 0 <= k < |items| => JObject(PrunedField(items[k])))
  }

  function PrunedTags(items: seq<Json>): (r: seq<Json>)
    ensures |r| == |items| && forall k :: 0 <= k < |items| ==> r[k] == JString(TextOf(items[k]))
  {
    seq(|items|, k requires 0 <= k < |items| => JString(TextOf(items[k])))
  }

  /** The object with empty modelled values dropped, also inside the custom fields. */
  function Pruned(m: Object): Object {
    map k | k in m && (k in Known() ==> !IsEmptyValue(m[k])) ::
      if k == FIELDS then JArray(PrunedItems(Items(m[k])))
      else if k == TAGS then JArray(PrunedTags(Items(m[k])))
      else m[k]
  }

  lemma DecodedIsEntry(m: Object)
    requires IsWellTyped(m)
    ensures IsEntry(Decoded(m))
  {
    hide TextKeys;
    assert forall k :: 0 <= k < |Items(At(m, FIELDS))| ==> IsField(Decoded(m).customFields[k]);
  }

  /** Decoding and encoding gives the object back, up to dropped empty modelled values. */
  lemma EncodeDecoded(m: Object)
    requires IsWellTyped(m)
    ensures Encoded(Decoded(m)) == Pruned(m)
  {
    var d := Decoded(m);
    DecodedIsEntry(m);
    hide Encoded, Pruned, TextKeys, Known, IsWellTyped, IsEntry;
    EncodedOthersAt(d);
    forall k ensures (k in Encoded(d) <==> k in Pruned(m)) && At(Encoded(d), k) == At(Pruned(m), k) {
      KnownKeys(k);
      PrunedAt(m, k);
      if k in TextKeys() {
        EncodedTextAt(d, k);
      } else if k !in Known() {
        EncodedExtraAt(d, k);
      }
    }
    SameObjects(Encoded(d), Pruned(m));
  }

  lemma PrunedAt(m: Object, k: string)
    requires IsWellTyped(m)
    ensures k in TextKeys() ==> At(Pruned(m), k) == if TextOf(At(m, k)) == "" then JNull else JString(TextOf(At(m, k)))
    ensures k in {PERIOD, DIGITS} ==> At(Pruned(m), k) == if IntOf(At(m, k)) == 0 then JNull else JInt(IntOf(At(m, k)))
    ensures k == FIELDS ==> At(Pruned(m), k) == List(EncodedFields(DecodedFields(Items(At(m, k)))))
    ensures k == TAGS ==> At(Pruned(m), k) == List(EncodedTags(DecodedTags(Items(At(m, k)))))
    ensures k in Pruned(m) && k in Known() ==> At(Pruned(m), k) != JNull
    ensures k !in Known() ==> (k in Pruned(m) <==> k in m) && At(Pruned(m), k) == At(m, k)
  {
    KeysAreDistinct();
    hide TextKeys;
    var items := Items(At(m, k));
    if k == FIELDS {
      forall i | 0 <= i < |items| ensures PrunedItems(items)[i] == EncodedFields(DecodedFields(items))[i] {
        EncodeDecodedField(items[i]);
      }
      assert PrunedItems(items) == EncodedFields(DecodedFields(items));
    } else if k == TAGS {
      assert PrunedTags(items) == EncodedTags(DecodedTags(items));
    }
  }

  /** A custom field as the encoder writes it. */
  predicate IsCanonicalField(j: Json) {
    && j.JObject?
    && At(j.members, "label").JString? && At(j.members, "value").JString?
    && forall k :: k in FieldKeys() && k in j.members && k != "label" && k != "value" ==> TextOf(j.members[k]) != ""
  }

  lemma FieldUnchangedExactly(j: Json)
    ensures JObject(PrunedField(j)) == j <==> IsCanonicalField(j)
  {
    if IsCanonicalField(j) {
      SameObjects(PrunedField(j), j.members);
    }
  }

  predicate IsCanonical(m: Object) {
    && (forall k :: k in m && k in Known() ==> !IsEmptyValue(m[k]))
    && (forall i :: 0 <= i < |Items(At(m, FIELDS))| ==> IsCanonicalField(Items(At(m, FIELDS))[i]))
    && (forall i :: 0 <= i < |Items(At(m, TAGS))| ==> Items(At(m, TAGS))[i].JString?)
  }

  lemma ItemsUnchangedExactly(items: seq<Json>)
    ensures PrunedItems(items) == items <==> forall i :: 0 <= i < |items| ==> IsCanonicalField(items[i])
  {
    hide PrunedField, IsCanonicalField;
    forall i | 0 <= i < |items| ensures PrunedItems(items)[i] == items[i] <==> IsCanonicalField(items[i]) {
      FieldUnchangedExactly(items[i]);
    }
  }

  /** Decoding and encoding changes nothing exactly if the object holds no empty modelled value
    and its fields and tags are written the encoder's way. */
  lemma UnchangedExactly(m: Object)
    requires IsWellTyped(m)
    ensures Encoded(Decoded(m)) == m <==> IsCanonical(m)
  {
    EncodeDecoded(m);
    hide Encoded, Decoded, PrunedItems, PrunedTags, TextKeys, IsCanonicalField;
    KeysAreDistinct();
    ItemsUnchangedExactly(Items(At(m, FIELDS)));
    PrunedUnchangedExactly(m);
  }

  lemma PrunedUnchangedExactly(m: Object)
    requires IsWellTyped(m)
    ensures Pruned(m) == m <==>
      && (forall k :: k in m && k in Known() ==> !IsEmptyValue(m[k]))
      && PrunedItems(Items(At(m, FIELDS))) == Items(At(m, FIELDS))
      && PrunedTags(Items(At(m, TAGS))) == Items(At(m, TAGS))
  {
    hide PrunedItems, PrunedTags, TextKeys, IsFieldValue;
    KeysAreDistinct();
    var noEmpty := forall k :: k in m && k in Known() ==> !IsEmptyValue(m[k]);
    if noEmpty {
      assert Pruned(m).Keys == m.Keys;
      assert FIELDS in m ==> m[FIELDS].JArray? && Pruned(m)[FIELDS] == JArray(PrunedItems(Items(m[FIELDS])));
      assert TAGS in m ==> m[TAGS].JArray? && Pruned(m)[TAGS] == JArray(PrunedTags(Items(m[TAGS])));
      assert forall k :: k in m && k != FIELDS && k != TAGS ==> Pruned(m)[k] == m[k];
    } else {
      var k :| k in m && k in Known() && IsEmptyValue(m[k]);
      assert k !in Pruned(m);
    }
  }

  // --- Edits -----------------------------------------------------------------------------

  datatype Edit =
    | SetText(key: string, text: string)
    | SetPeriod(period: int)
    | SetDigits(digits: int)
    | SetTags(tags: seq<string>)
    | SetField(i: nat, name: string, value: string, kind: string, filename: string, mimeType: string)
    | AddField(name: string, value: string)
    | RemoveField(i: nat)

  predicate CanApply(d: EntryData, e: Edit) {
    match e
    case SetText(key, _) => key in TextKeys()
    case SetPeriod(n) => INT_MIN <= n <= INT_MAX
    case SetDigits(n) => INT_MIN <= n <= INT_MAX
    case SetTags(_) => true
    case SetField(i, _, _, _, _, _) => i < |d.customFields|
    case AddField(_, _) => true
    case RemoveField(i) => i < |d.customFields|
  }

  function Applied(d: EntryData, e: Edit): EntryData
    requires CanApply(d, e)
  {
    match e
    case SetText(key, text) => d.(text := Set(d.text, key, text))
    case SetPeriod(n) => d.(period := n)
    case SetDigits(n) => d.(digits := n)
    case SetTags(tags) => d.(tags := tags)
    case SetField(i, name, value, kind, filename, mimeType) =>
      var field := CustomField(name, value, kind, filename, mimeType, d.customFields[i].extra);
      d.(customFields := d.customFields[i := field])
    case AddField(name, value) => d.(customFields := d.customFields + [CustomField(name, value, "", "", "", map[])])
    case RemoveField(i) => d.(customFields := d.customFields[..i] + d.customFields[i + 1..])
  }

  predicate CanRun(d: EntryData, edits: seq<Edit>)
    decreases |edits|
  {
    edits == [] || (CanApply(d, edits[0]) && CanRun(Applied(d, edits[0]), edits[1..]))
  }

  function Run(d: EntryData, edits: seq<Edit>): EntryData
    requires CanRun(d, edits)
    decreases |edits|
  {
    if edits == [] then d else Run(Applied(d, edits[0]), edits[1..])
  }

  /** Which field of the original list each field comes from. */
  type Origins = seq<Option<nat>>

  function Moved(origins: Origins, e: Edit): Origins {
    match e
    case AddField(_, _) => origins + [None]
    case RemoveField(i) => if i < |origins| then origins[..i] + origins[i + 1..] else origins
    case _ => origins
  }

  function MovedBy(origins: Origins, edits: seq<Edit>): Origins
    decreases |edits|
  {
    if edits == [] then origins else MovedBy(Moved(origins, edits[0]), edits[1..])
  }

  /** Each field that comes from an original one has the unknown members of that one. */
  predicate KeepsExtras(before: seq<CustomField>, now: seq<CustomField>, origins: Origins) {
    && |origins| == |now|
    && forall k :: 0 <= k < |now| && origins[k].Some? ==>
                     origins[k].value < |before| && now[k].extra == before[origins[k].value].extra
  }

  /** What an edit changes, and that it changes nothing else. */
  lemma EditExactly(d: EntryData, e: Edit, key: string)
    requires CanApply(d, e)
    ensures var t := Applied(d, e);
      && t.extra == d.extra
      && Get(t.text, key) == (if e.SetText? && e.key == key then e.text else Get(d.text, key))
      && t.period == (if e.SetPeriod? then e.period else d.period)
      && t.digits == (if e.SetDigits? then e.digits else d.digits)
      && t.tags == (if e.SetTags? then e.tags else d.tags)
      && (!e.SetField? && !e.AddField? && !e.RemoveField? ==> t.customFields == d.customFields)
      && (e.SetField? ==> t.customFields == d.customFields[e.i :=
        CustomField(e.name, e.value, e.kind, e.filename, e.mimeType, d.customFields[e.i].extra)])
      && (e.AddField? ==> t.customFields == d.customFields + [CustomField(e.name, e.value, "", "", "", map[])])
      && (e.RemoveField? ==>
        && |t.customFields| == |d.customFields| - 1
        && forall k :: 0 <= k < |t.customFields| ==> t.customFields[k] == d.customFields[if k < e.i then k else k + 1])
  {
    hide Get, Set;
  }

  lemma EditKeepsEntry(d: EntryData, e: Edit)
    requires IsEntry(d) && CanApply(d, e)
    ensures IsEntry(Applied(d, e)) && Applied(d, e).extra == d.extra
  {
    hide TextKeys, Known;
  }

  lemma EditKeepsExtras(before: seq<CustomField>, d: EntryData, e: Edit, origins: Origins)
    requires CanApply(d, e) && KeepsExtras(before, d.customFields, origins)
    ensures KeepsExtras(before, Applied(d, e).customFields, Moved(origins, e))
  {
    hide TextKeys;
  }

  lemma {:induction false} RunKeepsUnknown(before: seq<CustomField>, d: EntryData, edits: seq<Edit>, origins: Origins)
    requires IsEntry(d) && CanRun(d, edits) && KeepsExtras(before, d.customFields, origins)
    ensures IsEntry(Run(d, edits)) && Run(d, edits).extra == d.extra
    ensures KeepsExtras(before, Run(d, edits).customFields, MovedBy(origins, edits))
    decreases |edits|
  {
    hide IsEntry, CanApply, Applied, KeepsExtras, Moved;
    if edits != [] {
      EditKeepsEntry(d, edits[0]);
      EditKeepsExtras(before, d, edits[0], origins);
      RunKeepsUnknown(before, Applied(d, edits[0]), edits[1..], Moved(origins, edits[0]));
    }
  }

  function InOrder(n: nat): (origins: Origins)
    ensures |origins| == n && forall k :: 0 <= k < n ==> origins[k] == Some(k)
  {
    seq(n, k => Some(k))
  }

  /** Decode, any edits, encode: every unknown key of the object keeps its value and none
    appears, and so for each custom field that is left. The result decodes to the edited record. */
  lemma EditsKeepUnknownKeys(m: Object, edits: seq<Edit>, k: string)
    requires IsWellTyped(m) && CanRun(Decoded(m), edits)
    ensures IsWellTyped(Encoded(Run(Decoded(m), edits)))
    ensures Decoded(Encoded(Run(Decoded(m), edits))) == Run(Decoded(m), edits)
    ensures k !in Known() ==>
      && (k in Encoded(Run(Decoded(m), edits)) <==> k in m)
      && At(Encoded(Run(Decoded(m), edits)), k) == At(m, k)
  {
    var d := Decoded(m);
    DecodedIsEntry(m);
    assert KeepsExtras(d.customFields, d.customFields, InOrder(|d.customFields|));
    RunKeepsUnknown(d.customFields, d, edits, InOrder(|d.customFields|));
    DecodeEncoded(Run(d, edits));
    if k !in Known() {
      EncodedExtraAt(Run(d, edits), k);
    }
    hide Encoded, IsEntry, IsWellTyped, TextKeys, Known, Run, KeepsExtras;
  }

  lemma EditsKeepUnknownKeysOfFields(m: Object, edits: seq<Edit>, i: nat, k: string)
    requires IsWellTyped(m) && CanRun(Decoded(m), edits) && k !in FieldKeys()
    ensures
      var before, after := Items(At(m, FIELDS)), Items(At(Encoded(Run(Decoded(m), edits)), FIELDS));
      var origins := MovedBy(InOrder(|before|), edits);
      && |after| == |origins|
      && (i < |after| && origins[i].Some? ==>
            && origins[i].value < |before|
            && (k in FieldMembers(after[i]) <==> k in FieldMembers(before[origins[i].value]))
            && At(FieldMembers(after[i]), k) == At(FieldMembers(before[origins[i].value]), k))
  {
    var d := Decoded(m);
    var before := Items(At(m, FIELDS));
    DecodedIsEntry(m);
    assert KeepsExtras(d.customFields, d.customFields, InOrder(|before|));
    RunKeepsUnknown(d.customFields, d, edits, InOrder(|before|));
    var e := Run(d, edits);
    EncodedOthersAt(e);
    assert Items(At(Encoded(e), FIELDS)) == EncodedFields(e.customFields);
    hide Encoded, IsEntry, IsWellTyped, TextKeys, Known, Run, DecodedField, EncodedField;
    var origins := MovedBy(InOrder(|before|), edits);
    if i < |origins| && origins[i].Some? {
      FieldExtraKept(before[origins[i].value], e.customFields[i], k);
    }
  }

  lemma FieldExtraKept(j: Json, f: CustomField, k: string)
    requires f.extra == DecodedField(j).extra && k !in FieldKeys()
    ensures k in EncodedField(f) <==> k in FieldMembers(j)
    ensures At(EncodedField(f), k) == At(FieldMembers(j), k)
  {
  }

  // --- The code ------------------------------------------------------------------------------

  /** The known keys are moved out of the object; what stays is extra. */
  method DecodeKnown(raw: Object, known: set<string>) returns (modelled: Object, extra: Object)
    ensures modelled == map k | k in raw && k in known :: raw[k]
    ensures extra == raw - known
  {
    modelled, extra := map[], raw;
    var keys := raw.Keys;
    while keys != {}
      invariant keys <= raw.Keys
      invariant modelled == map k | k in raw - keys && k in known :: raw[k]
      invariant extra == raw - (known - keys)
      decreases |keys|
    {
      var k :| k in keys;
      DeleteStep(raw, known, keys, k);
      if k in known {
        modelled := modelled[k := raw[k]];
        extra := extra - {k};
      }
      keys := keys - {k};
    }
  }

  lemma DeleteStep(raw: Object, known: set<string>, keys: set<string>, k: string)
    requires keys <= raw.Keys && k in keys
    ensures (raw - (known - (keys - {k}))) == if k in known then raw - (known - keys) - {k} else raw - (known - keys)
  {
  }

  /** What is merged when these keys are left. */
  function Merging(plain: Object, extra: Object, known: set<string>, keys: set<string>): Object {
    plain + (extra - known - keys)
  }

  lemma MergeStep(plain: Object, extra: Object, known: set<string>, keys: set<string>, k: string)
    requires keys <= extra.Keys && k in keys
    ensures Merging(plain, extra, known, keys - {k}) ==
      if k in known then Merging(plain, extra, known, keys) else Merging(plain, extra, known, keys)[k := extra[k]]
  {
  }

  lemma MergeEnds(plain: Object, extra: Object, known: set<string>)
    ensures Merging(plain, extra, known, extra.Keys) == plain
    ensures Merging(plain, extra, known, {}) == WithExtra(plain, extra, known)
  {
  }

  method EncodeWithExtra(plain: Object, extra: Object, known: set<string>) returns (merged: Object)
    ensures merged == WithExtra(plain, extra, known)
  {
    hide Merging, WithExtra;
    MergeEnds(plain, extra, known);
    merged := plain;
    if |extra| == 0 {
      return;
    }
    var keys := extra.Keys;
    while keys != {}
      invariant keys <= extra.Keys
      invariant merged == Merging(plain, extra, known, keys)
      decreases |keys|
    {
      var k :| k in keys;
      MergeStep(plain, extra, known, keys, k);
      if k !in known {
        merged := merged[k := extra[k]];
      }
      keys := keys - {k};
    }
  }

  /** null leaves the record alone; an object is decoded exactly if it is well typed; nothing
    else is. */
  method UnmarshalEntry(j: Json, before: EntryData) returns (r: Result<EntryData, ()>)
    ensures j.JNull? ==> r == Ok(before)
    ensures j.JObject? ==> r == if IsWellTyped(j.members) then Ok(Decoded(j.members)) else Err(())
    ensures !j.JNull? && !j.JObject? ==> r.Err?
  {
    if j.JNull? {
      return Ok(before);
    } else if !j.JObject? {
      return Err(());
    }
    var modelled, extra := DecodeKnown(j.members, Known());
    ModelledPart(j.members, modelled);
    if !IsWellTyped(modelled) {
      return Err(());
    }
    r := Ok(Decoded(modelled).(extra := extra));
  }

  lemma ModelledPart(m: Object, modelled: Object)
    requires modelled == map k | k in m && k in Known() :: m[k]
    ensures IsWellTyped(modelled) <==> IsWellTyped(m)
    ensures Decoded(modelled).(extra := m - Known()) == Decoded(m)
  {
    KeysAreDistinct();
    hide TextKeys, Known, IsFieldValue, DecodedField;
    assert forall k :: k in Known() ==> At(modelled, k) == At(m, k);
    assert TextsOf(modelled) == TextsOf(m);
  }

  method MarshalEntry(d: EntryData) returns (j: Json)
    ensures j == JObject(Encoded(d))
  {
    var merged := EncodeWithExtra(Plain(d), d.extra, Known());
    j := JObject(merged);
  }
}
