/**
  The decrypted entry, as the command line keeps it, and the JSON values it is made from.

  The string fields of the source's struct are one map from JSON key to value, where an
  absent key stands for the empty string. A change of a field puts or removes a key.
  */
module EntryData {

  datatype Json =
    | JNull
    | JBool(b: bool)
    | JInt(n: int)
    | JFraction(text: string)
    | JString(s: string)
    | JArray(items: seq<Json>)
    | JObject(members: map<string, Json>)

  type Text = map<string, string>

  /** No key maps to the empty string. */
  predicate IsText(t: Text) {
    forall k :: k in t ==> t[k] != ""
  }

  function Get(t: Text, key: string): string {
    if key in t then t[key] else ""
  }

  function Set(t: Text, key: string, value: string): (r: Text)
    ensures IsText(t) ==> IsText(r)
    ensures Get(r, key) == value
    ensures forall k :: k != key ==> Get(r, k) == Get(t, k)
  {
    if value == "" then t - {key} else t[key := value]
  }

  /** Two texts with the same values are the same. */
  lemma TextExtensional(a: Text, b: Text)
    requires IsText(a) && IsText(b) && forall k :: Get(a, k) == Get(b, k)
    ensures a == b
  {
    assert forall k :: k in a <==> Get(a, k) != "";
    assert forall k :: k in b <==> Get(b, k) != "";
    assert forall k :: k in a ==> a[k] == Get(a, k) && b[k] == Get(b, k);
  }

  /** name is the label. */
  datatype CustomField = CustomField(
    name: string, value: string, kind: string, filename: string, mimeType: string,
    extra: map<string, Json>)

  datatype EntryData = EntryData(
    text: Text, period: int, digits: int,
    customFields: seq<CustomField>, tags: seq<string>,
    extra: map<string, Json>)
}
