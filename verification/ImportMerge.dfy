/**
  The merging overwrite of the import: what a record of a file changes in an entry that
  is already there.
  */
module ImportMerge {
  import opened Prelude
  import opened EntryData
  import opened TotpSecret

  // --- Custom fields: the specification by rank -------------------------------------

  type Fields = seq<CustomField>

  function Count(fs: Fields, name: string): nat {
    if fs == [] then 0 else
      var n := |fs| - 1;
      Count(fs[..n], name) + if fs[n].name == name then 1 else 0
  }

  /** The how-manieth field of its label fs[i] is, from 0. */
  function Rank(fs: Fields, i: nat): nat
    requires i < |fs|
  {
    Count(fs[..i], fs[i].name)
  }

  /** The r-th field of a name, from 0. */
  function Nth(fs: Fields, name: string, r: nat): (f: Option<CustomField>)
    ensures f.Some? ==> f.value.name == name
  {
    if fs == [] then None else
      var n := |fs| - 1;
      if fs[n].name == name && Count(fs[..n], name) == r then Some(fs[n]) else Nth(fs[..n], name, r)
  }

  /** A field of the file replaces value and kind; file name and MIME type come with them,
    unknown keys stay. An empty value changes nothing. */
  function Updated(f: CustomField, source: Option<CustomField>): (r: CustomField)
    ensures r.name == f.name && r.extra == f.extra
    ensures source.Some? && source.value.value != "" ==>
      && r.value == source.value.value && r.kind == source.value.kind
      && r.filename == source.value.filename && r.mimeType == source.value.mimeType
    ensures source.None? || source.value.value == "" ==> r == f
  {
    if source.None? || source.value.value == "" then f
    else f.(value := source.value.value, kind := source.value.kind,
      filename := source.value.filename, mimeType := source.value.mimeType)
  }

  /** The existing fields, each updated by the imported field of its label and rank. */
  function Kept(existing: Fields, imported: Fields): (r: Fields)
    ensures |r| == |existing|
    ensures forall i :: 0 <= i < |existing| ==>
      r[i] == Updated(existing[i], Nth(imported, existing[i].name, Rank(existing, i)))
  {
    seq(|existing|, i requires 0 <= i < |existing| =>
      Updated(existing[i], Nth(imported, existing[i].name, Rank(existing, i))))
  }

  /** The imported fields whose rank no existing field of the label has, in order. */
  function Surplus(existing: Fields, imported: Fields): Fields {
    if imported == [] then [] else
      var n := |imported| - 1;
      Surplus(existing, imported[..n]) +
        if Rank(imported, n) >= Count(existing, imported[n].name) then [imported[n]] else []
  }

  function Merged(existing: Fields, imported: Fields): Fields {
    Kept(existing, imported) + Surplus(existing, imported)
  }

  // --- What the specification means ---------------------------------------------------

  lemma {:induction false} NthExactly(fs: Fields, name: string, r: nat)
    ensures Nth(fs, name, r).Some? <==> r < Count(fs, name)
  {
    if fs != [] {
      NthExactly(fs[..|fs| - 1], name, r);
    }
  }

  lemma {:induction false} NthOfRank(fs: Fields, i: nat)
    requires i < |fs|
    ensures Nth(fs, fs[i].name, Rank(fs, i)) == Some(fs[i])
    ensures Rank(fs, i) < Count(fs, fs[i].name)
  {
    var n := |fs| - 1;
    if i < n {
      assert fs[..n][..i] == fs[..i];
      NthOfRank(fs[..n], i);
      NthExactly(fs[..n], fs[i].name, Rank(fs, i));
    }
  }

  lemma {:induction false} CountConcat(a: Fields, b: Fields, name: string)
    ensures Count(a + b, name) == Count(a, name) + Count(b, name)
  {
    if b == [] {
      assert a + b == a;
    } else {
      var n := |b| - 1;
      CountConcat(a, b[..n], name);
      assert (a + b)[..|a| + n] == a + b[..n];
    }
  }

  lemma {:induction false} NthConcat(a: Fields, b: Fields, name: string, r: nat)
    ensures Nth(a + b, name, r) ==
      if r < Count(a, name) then Nth(a, name, r) else Nth(b, name, r - Count(a, name))
  {
    if b == [] {
      assert a + b == a;
      NthExactly(a, name, r);
    } else {
      var n := |b| - 1;
      NthConcat(a, b[..n], name, r);
      CountConcat(a, b[..n], name);
      assert (a + b)[..|a| + n] == a + b[..n];
    }
  }

  lemma {:induction false} SameLabelsSameCount(a: Fields, b: Fields, name: string)
    requires |a| == |b| && forall i :: 0 <= i < |a| ==> a[i].name == b[i].name
    ensures Count(a, name) == Count(b, name)
  {
    if a != [] {
      SameLabelsSameCount(a[..|a| - 1], b[..|b| - 1], name);
    }
  }

  lemma {:induction false} SurplusByRank(existing: Fields, imported: Fields, name: string, r: nat)
    ensures Count(Surplus(existing, imported), name)
         == if Count(imported, name) > Count(existing, name) then Count(imported, name) - Count(existing, name) else 0
    ensures Nth(Surplus(existing, imported), name, r) == Nth(imported, name, Count(existing, name) + r)
  {
    if imported != [] {
      var n := |imported| - 1;
      var front, last := Surplus(existing, imported[..n]), imported[n];
      SurplusByRank(existing, imported[..n], name, r);
      if Rank(imported, n) >= Count(existing, last.name) {
        assert Surplus(existing, imported) == front + [last];
        assert (front + [last])[..|front|] == front;
      } else {
        assert Surplus(existing, imported) == front;
        NthExactly(imported[..n], name, Count(existing, name) + r);
      }
    }
  }

  /** Label by label: the k-th imported field updates the k-th existing one, and the ones
    beyond follow as they are. So each label has as many fields as the side with more. */
  lemma MergedByRank(existing: Fields, imported: Fields, name: string, r: nat)
    ensures Count(Merged(existing, imported), name)
         == if Count(imported, name) > Count(existing, name) then Count(imported, name) else Count(existing, name)
    ensures Nth(Merged(existing, imported), name, r) ==
      if r < Count(existing, name) then Some(Updated(NthOrSelf(existing, name, r), Nth(imported, name, r)))
      else Nth(imported, name, r)
  {
    hide Updated, Count, Nth, Rank, Surplus;
    var kept, surplus := Kept(existing, imported), Surplus(existing, imported);
    SameLabelsSameCount(kept, existing, name);
    CountConcat(kept, surplus, name);
    SurplusByRank(existing, imported, name, 0);
    NthConcat(kept, surplus, name, r);
    if r < Count(existing, name) {
      KeptByRank(existing, imported, name, r);
    } else {
      SurplusByRank(existing, imported, name, r - Count(existing, name));
    }
  }

  function NthOrSelf(fs: Fields, name: string, r: nat): CustomField
    requires r < Count(fs, name)
  {
    NthExactly(fs, name, r);
    Nth(fs, name, r).value
  }

  lemma KeptByRank(existing: Fields, imported: Fields, name: string, r: nat)
    requires r < Count(existing, name)
    ensures Nth(Kept(existing, imported), name, r) ==
      Some(Updated(NthOrSelf(existing, name, r), Nth(imported, name, r)))
  {
    var kept := Kept(existing, imported);
    var i := NthIndex(existing, name, r);
    forall k | 0 <= k < |kept| ensures Rank(kept, k) == Rank(existing, k) {
      SameLabelsSameCount(kept[..k], existing[..k], existing[k].name);
    }
    NthOfRank(kept, i);
    NthOfRank(existing, i);
  }

  lemma {:induction false} NthIndex(fs: Fields, name: string, r: nat) returns (i: nat)
    requires r < Count(fs, name)
    ensures i < |fs| && fs[i].name == name && Rank(fs, i) == r
  {
    var n := |fs| - 1;
    if fs[n].name == name && Count(fs[..n], name) == r {
      i := n;
    } else {
      i := NthIndex(fs[..n], name, r);
      assert fs[..n][..i] == fs[..i];
    }
  }

  /** Merging the same fields again changes nothing. */
  lemma MergingFieldsAgain(existing: Fields, imported: Fields)
    ensures Merged(Merged(existing, imported), imported) == Merged(existing, imported)
  {
    var m := Merged(existing, imported);
    NothingLeftOver(m, existing, imported);
    forall i | 0 <= i < |m| ensures Updated(m[i], Nth(imported, m[i].name, Rank(m, i))) == m[i] {
      var name, r := m[i].name, Rank(m, i);
      NthOfRank(m, i);
      MergedByRank(existing, imported, name, r);
    }
    assert Kept(m, imported) == m;
  }

  lemma NothingLeftOver(m: Fields, existing: Fields, imported: Fields)
    requires m == Merged(existing, imported)
    ensures Surplus(m, imported) == []
  {
    forall name ensures Count(m, name) >= Count(imported, name) {
      MergedByRank(existing, imported, name, 0);
    }
    SurplusEmpty(m, imported);
  }

  lemma {:induction false} SurplusEmpty(m: Fields, imported: Fields)
    requires forall name :: Count(m, name) >= Count(imported, name)
    ensures Surplus(m, imported) == []
  {
    if imported != [] {
      var n := |imported| - 1;
      forall name ensures Count(m, name) >= Count(imported[..n], name) {
        assert Count(m, name) >= Count(imported, name);
      }
      SurplusEmpty(m, imported[..n]);
      NthOfRank(imported, n);
    }
  }

  // --- The greedy loop ------------------------------------------------------------------

  /** The slots the loop has used up after these imported fields: the appended ones, and
    of each label as many existing ones as there were imported fields. */
  ghost predicate IsPaired(existing: Fields, imported: Fields, merged: Fields, paired: set<nat>) {
    && |merged| >= |existing|
    && forall i :: 0 <= i < |merged| ==>
        (i in paired <==> i >= |existing| || Rank(existing, i) < Count(imported, existing[i].name))
  }

  lemma {:induction false} RankIsMonotone(fs: Fields, i: nat, j: nat)
    requires i <= j < |fs| && fs[i].name == fs[j].name
    ensures Rank(fs, i) <= Rank(fs, j) && (i < j ==> Rank(fs, i) < Rank(fs, j))
  {
    if i < j {
      assert fs[..j][..i] == fs[..i];
      NthOfRank(fs[..j], i);
    }
  }

  /** The first free slot of a label is the one whose rank is the field's. */
  lemma FirstFreeSlot(existing: Fields, imported: Fields, merged: Fields, paired: set<nat>, slot: nat, name: string)
    requires IsPaired(existing, imported, merged, paired) && merged == Merged(existing, imported)
    requires slot < |merged| && slot !in paired && merged[slot].name == name
    requires forall i :: 0 <= i < slot ==> i in paired || merged[i].name != name
    ensures slot < |existing| && Rank(existing, slot) == Count(imported, name) < Count(existing, name)
  {
    NthOfRank(existing, slot);
    var i := NthIndex(existing, name, Count(imported, name));
    assert merged[i].name == existing[i].name && i !in paired;
    RankIsMonotone(existing, slot, i);
  }

  lemma NoFreeSlot(existing: Fields, imported: Fields, merged: Fields, paired: set<nat>, name: string)
    requires IsPaired(existing, imported, merged, paired) && merged == Merged(existing, imported)
    requires forall i :: 0 <= i < |merged| ==> i in paired || merged[i].name != name
    ensures Count(imported, name) >= Count(existing, name)
  {
    if Count(imported, name) < Count(existing, name) {
      var i := NthIndex(existing, name, Count(imported, name));
      assert false;
    }
  }

  lemma NthAppend(imported: Fields, field: CustomField, name: string, r: nat)
    ensures Nth(imported + [field], name, r) ==
      if field.name == name && Count(imported, name) == r then Some(field) else Nth(imported, name, r)
  {
    assert (imported + [field])[..|imported|] == imported;
  }

  lemma AppendsField(existing: Fields, imported: Fields, field: CustomField)
    requires Count(imported, field.name) >= Count(existing, field.name)
    ensures Merged(existing, imported + [field]) == Merged(existing, imported) + [field]
  {
    forall i | 0 <= i < |existing| ensures Kept(existing, imported + [field])[i] == Kept(existing, imported)[i] {
      NthOfRank(existing, i);
      NthAppend(imported, field, existing[i].name, Rank(existing, i));
    }
    hide Count, Rank, Nth, Updated, Surplus;
    assert Kept(existing, imported + [field]) == Kept(existing, imported);
  }

  lemma UpdatesSlot(existing: Fields, imported: Fields, field: CustomField, slot: nat)
    requires slot < |existing| && existing[slot].name == field.name
    requires Rank(existing, slot) == Count(imported, field.name)
    ensures Merged(existing, imported)[slot] == existing[slot]
    ensures Merged(existing, imported + [field]) ==
      Merged(existing, imported)[slot := Updated(existing[slot], Some(field))]
  {
    NthExactly(imported, field.name, Count(imported, field.name));
    NthOfRank(existing, slot);
    forall i | 0 <= i < |existing|
      ensures Kept(existing, imported + [field])[i] ==
        if i == slot then Updated(existing[slot], Some(field)) else Kept(existing, imported)[i]
    {
      NthAppend(imported, field, existing[i].name, Rank(existing, i));
      if i != slot && existing[i].name == field.name {
        RankIsMonotone(existing, if i < slot then i else slot, if i < slot then slot else i);
      }
    }
    assert Kept(existing, imported)[slot] == existing[slot];
    hide Count, Rank, Nth, Updated, Surplus, Kept;
    OneUpdated(Kept(existing, imported), Kept(existing, imported + [field]), Surplus(existing, imported), slot);
  }

  lemma OneUpdated(a: Fields, b: Fields, rest: Fields, slot: nat)
    requires slot < |a| == |b| && forall i :: 0 <= i < |a| && i != slot ==> b[i] == a[i]
    ensures b + rest == (a + rest)[slot := b[slot]] && (a + rest)[slot] == a[slot]
  {
  }

  method MergeCustomFields(existing: Fields, imported: Fields) returns (merged: Fields)
    ensures merged == Merged(existing, imported)
  {
    hide Count, Rank, Nth, Kept, Surplus, Merged, Updated;
    merged := existing;
    var paired: set<nat> := {};
    MergedNothing(existing);
    for k := 0 to |imported|
      invariant merged == Merged(existing, imported[..k]) && |merged| >= |existing|
      invariant IsPaired(existing, imported[..k], merged, paired)
    {
      var field := imported[k];
      assert imported[..k + 1] == imported[..k] + [field];
      var slot := 0;
      while slot < |merged| && (slot in paired || merged[slot].name != field.name)
        invariant 0 <= slot <= |merged|
        invariant forall i :: 0 <= i < slot ==> i in paired || merged[i].name != field.name
      {
        slot := slot + 1;
      }
      if slot == |merged| {
        NoFreeSlot(existing, imported[..k], merged, paired, field.name);
        AppendsField(existing, imported[..k], field);
        PairedOneMore(existing, imported[..k], field, merged, merged + [field], paired, slot);
        merged := merged + [field];
        paired := paired + {|merged| - 1};
        continue;
      }
      FirstFreeSlot(existing, imported[..k], merged, paired, slot, field.name);
      assert existing[slot].name == field.name by { NamesKept(existing, imported[..k]); }
      UpdatesSlot(existing, imported[..k], field, slot);
      var was := merged[slot];
      var now := if field.value == "" then was
        else was.(value := field.value, kind := field.kind, filename := field.filename, mimeType := field.mimeType);
      assert now == Updated(existing[slot], Some(field)) by { UpdatedSteps(existing[slot], field); }
      PairedOneMore(existing, imported[..k], field, merged, merged[slot := now], paired, slot);
      paired := paired + {slot};
      merged := merged[slot := now];
    }
    assert imported[..|imported|] == imported;
  }

  lemma UpdatedSteps(f: CustomField, field: CustomField)
    ensures Updated(f, Some(field)) == if field.value == "" then f
      else f.(value := field.value, kind := field.kind, filename := field.filename, mimeType := field.mimeType)
  {
  }

  lemma NamesKept(existing: Fields, imported: Fields)
    ensures |Merged(existing, imported)| >= |existing|
    ensures forall i :: 0 <= i < |existing| ==> Merged(existing, imported)[i].name == existing[i].name
  {
  }

  lemma MergedNothing(existing: Fields)
    ensures Merged(existing, []) == existing && IsPaired(existing, [], existing, {})
  {
    assert Kept(existing, []) == existing;
  }

  lemma PairedOneMore(existing: Fields, imported: Fields, field: CustomField, merged: Fields, after: Fields,
      paired: set<nat>, slot: nat)
    requires IsPaired(existing, imported, merged, paired) && |merged| <= |after| <= |merged| + 1
    requires |after| > |merged| ==> slot == |merged|
    requires if slot < |existing|
      then
        existing[slot].name == field.name && Rank(existing, slot) == Count(imported, field.name) &&
        |after| == |merged|
      else |after| == |merged| + 1 && Count(imported, field.name) >= Count(existing, field.name)
    ensures IsPaired(existing, imported + [field], after, paired + {slot})
  {
    assert (imported + [field])[..|imported|] == imported;
    forall i | 0 <= i < |existing| && i != slot && existing[i].name == field.name
      ensures Rank(existing, i) != Count(imported, field.name)
    {
      NthOfRank(existing, i);
      if slot < |existing| {
        RankIsMonotone(existing, if i < slot then i else slot, if i < slot then slot else i);
      }
    }
  }

  // --- The merged entry ---------------------------------------------------------------------

  /** The string fields a file can speak to. */
  const MERGED_KEYS: seq<string> := [
    "username", "password", "totp_secret", "notes",
    "card_number", "holder_name", "expiry_month", "expiry_year", "cvv",
    "title", "first_name", "last_name", "company", "email", "phone",
    "street", "city", "state", "postal_code", "country",
    "license_key", "product_name"]

  function MergedText(keys: seq<string>, existing: Text, imported: Text): Text {
    if keys == [] then existing else
      var n := |keys| - 1;
      var r := MergedText(keys[..n], existing, imported);
      if Get(imported, keys[n]) != "" then Set(r, keys[n], Get(imported, keys[n])) else r
  }

  function MergedData(upper: char -> char, existing: EntryData, imported: EntryData): EntryData {
    var secret := Get(imported.text, "totp_secret");
    var replaced := secret != "" && !SameSecret(upper, secret, Get(existing.text, "totp_secret"));
    // A replaced secret takes all three code options from the file; the algorithm is a string field.
    var text := MergedText(MERGED_KEYS, existing.text, imported.text);
    existing.(
      text := if replaced then Set(text, "algorithm", Get(imported.text, "algorithm")) else text,
      period := if replaced then imported.period else existing.period,
      digits := if replaced then imported.digits else existing.digits,
      customFields := Merged(existing.customFields, imported.customFields),
      tags := if |imported.tags| > 0 then imported.tags else existing.tags)
  }

  method MergeImportedData(upper: char -> char, existing: EntryData, imported: EntryData) returns (merged: EntryData)
    ensures merged == MergedData(upper, existing, imported)
  {
    hide MergedText, Merged, SameSecret;
    merged := existing;
    assert MergedText(MERGED_KEYS[..0], existing.text, imported.text) == existing.text by {
      MergedNoText(existing.text, imported.text);
    }
    for k := 0 to |MERGED_KEYS|
      invariant merged == existing.(text := MergedText(MERGED_KEYS[..k], existing.text, imported.text))
    {
      var key := MERGED_KEYS[k];
      MergedTextOneMore(MERGED_KEYS, k, existing.text, imported.text);
      if Get(imported.text, key) != "" {
        merged := merged.(text := Set(merged.text, key, Get(imported.text, key)));
      }
    }
    assert MERGED_KEYS[..|MERGED_KEYS|] == MERGED_KEYS;
    var secret := Get(imported.text, "totp_secret");
    if secret != "" && !SameSecret(upper, secret, Get(existing.text, "totp_secret")) {
      merged := merged.(period := imported.period, digits := imported.digits,
        text := Set(merged.text, "algorithm", Get(imported.text, "algorithm")));
    }
    var fields := MergeCustomFields(existing.customFields, imported.customFields);
    merged := merged.(customFields := fields);
    if |imported.tags| > 0 {
      merged := merged.(tags := imported.tags);
    }
  }

  lemma MergedNoText(existing: Text, imported: Text)
    ensures MergedText(MERGED_KEYS[..0], existing, imported) == existing
  {
  }

  lemma MergedTextOneMore(keys: seq<string>, k: nat, existing: Text, imported: Text)
    requires k < |keys|
    ensures MergedText(keys[..k + 1], existing, imported) ==
      var r := MergedText(keys[..k], existing, imported);
      if Get(imported, keys[k]) != "" then Set(r, keys[k], Get(imported, keys[k])) else r
  {
    assert keys[..k + 1][..k] == keys[..k];
  }

  /** A non-empty value of the file wins, an empty one leaves the entry's alone. */
  lemma {:induction false} MergedTextByKey(keys: seq<string>, existing: Text, imported: Text, key: string)
    ensures Get(MergedText(keys, existing, imported), key) ==
      if key in keys && Get(imported, key) != "" then Get(imported, key) else Get(existing, key)
    ensures IsText(existing) ==> IsText(MergedText(keys, existing, imported))
  {
    if keys != [] {
      var n := |keys| - 1;
      MergedTextByKey(keys[..n], existing, imported, key);
      assert keys == keys[..n] + [keys[n]];
    }
  }

  /** The fields a file can express. */
  lemma MergedKeysExactly(key: string)
    ensures key in MERGED_KEYS <==> key in {
      "username", "password", "totp_secret", "notes", "card_number", "holder_name", "expiry_month", "expiry_year",
      "cvv", "title", "first_name", "last_name", "company", "email", "phone", "street", "city", "state",
      "postal_code", "country", "license_key", "product_name"}
  {
  }

  /** Whatever the file leaves empty or cannot express stays: every other field, unknown
    keys, tags without tags in the file. */
  lemma MergeKeepsTheRest(upper: char -> char, existing: EntryData, imported: EntryData, key: string)
    ensures var m := MergedData(upper, existing, imported);
      && m.extra == existing.extra
      && (key !in MERGED_KEYS && key != "algorithm" ==> Get(m.text, key) == Get(existing.text, key))
      && (Get(imported.text, key) == "" && key != "algorithm" ==> Get(m.text, key) == Get(existing.text, key))
      && m.tags == (if imported.tags == [] then existing.tags else imported.tags)
      && (imported.customFields == [] ==> m.customFields == existing.customFields)
  {
    hide MergedText;
    MergedTextByKey(MERGED_KEYS, existing.text, imported.text, key);
    MergedNothing(existing.customFields);
  }

  /** The code options stay with their secret: the stored ones while the secret is the
    same up to spelling, the file's when it is another. */
  lemma CodeOptionsFollowTheSecret(upper: char -> char, existing: EntryData, imported: EntryData)
    ensures var m, secret := MergedData(upper, existing, imported), Get(imported.text, "totp_secret");
      var from :=
        if secret == "" || SameSecret(upper, secret, Get(existing.text, "totp_secret")) then existing else imported;
      && m.period == from.period && m.digits == from.digits && Get(m.text, "algorithm") == Get(from.text, "algorithm")
      && (secret != "" ==> Get(m.text, "totp_secret") == secret)
  {
    hide MergedText;
    MergedTextByKey(MERGED_KEYS, existing.text, imported.text, "algorithm");
    MergedTextByKey(MERGED_KEYS, existing.text, imported.text, "totp_secret");
    assert MERGED_KEYS[2] == "totp_secret";
    assert "algorithm" !in MERGED_KEYS;
  }

  /** Importing the same record again changes nothing. */
  lemma MergingAgain(upper: char -> char, existing: EntryData, imported: EntryData)
    requires IsText(existing.text)
    ensures var m := MergedData(upper, existing, imported); MergedData(upper, m, imported) == m
  {
    hide MergedText, Merged, SameSecret, CleanSecret;
    var m := MergedData(upper, existing, imported);
    var again := MergedData(upper, m, imported);
    MergingFieldsAgain(existing.customFields, imported.customFields);
    CodeOptionsFollowTheSecret(upper, existing, imported);
    var secret := Get(imported.text, "totp_secret");
    assert secret != "" ==> SameSecret(upper, secret, Get(m.text, "totp_secret")) by {
      SameSecretAsItself(upper, secret);
    }
    forall key ensures Get(MergedText(MERGED_KEYS, m.text, imported.text), key) == Get(m.text, key) {
      MergedTextByKey(MERGED_KEYS, existing.text, imported.text, key);
      MergedTextByKey(MERGED_KEYS, m.text, imported.text, key);
      assert "algorithm" !in MERGED_KEYS;
    }
    MergedTextByKey(MERGED_KEYS, existing.text, imported.text, "");
    MergedTextByKey(MERGED_KEYS, m.text, imported.text, "");
    TextExtensional(MergedText(MERGED_KEYS, m.text, imported.text), m.text);
  }

}
