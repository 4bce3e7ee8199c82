/**
  The Bitwarden export followed by the Bitwarden import: what a record holds comes back, in
  its own field or as a custom field. The JSON text between the two is not modelled.
  */
module Bitwarden {
  import opened Prelude
  import opened DataUris
  import opened EntryData

  datatype Field = Field(name: string, value: string, kind: string, filename: string, mimeType: string)

  datatype UnknownField = UnknownField(key: string, value: string)

  /** text holds the string fields under the key each has in the entry JSON. */
  datatype Record = Record(
    name: string, kind: string, notes: string, text: Text, period: int, digits: int,
    customFields: seq<Field>, unknown: seq<UnknownField>, tags: seq<string>)

  datatype ItemField = ItemField(name: string, value: string, hidden: bool)

  datatype Login = Login(uris: seq<string>, username: string, password: string, totp: string)

  datatype Card = Card(holder: string, number: string, expMonth: string, expYear: string, code: string)

  datatype Identity = Identity(
    title: string, firstName: string, lastName: string, company: string, email: string, phone: string,
    address1: string, city: string, state: string, postalCode: string, country: string)

  datatype Item = Item(
    kind: int, name: string, notes: string, fields: seq<ItemField>,
    login: Option<Login>, card: Option<Card>, identity: Option<Identity>)

  datatype ExportOptions = ExportOptions(includeFiles: bool, filesAsBase64: bool)

  const TAGS_FIELD := "passbubble_tags"

  // --- Keyed fields ---------------------------------------------------------------------

  function LoginKeys(): seq<string> { ["url", "username", "password", "totp_secret"] }

  function CodeKeys(): seq<string> { ["sign_in_with", "issuer", "period", "digits", "algorithm"] }

  function CardKeys(): seq<string> { ["card_number", "holder_name", "expiry_month", "expiry_year", "cvv"] }

  function BankKeys(): seq<string> { ["bank_name", "iban", "bic", "account_number", "account_type"] }

  function IdentityKeys(): seq<string> {
    ["title", "first_name", "last_name", "company", "email", "phone", "street", "city", "state", "postal_code",
      "country"]
  }

  function LicenseKeys(): seq<string> {
    ["product_name", "license_key", "purchase_email", "purchase_date", "expires_at"]
  }

  function Keys(): seq<string> {
    LoginKeys() + CodeKeys() + CardKeys() + BankKeys() + IdentityKeys() + LicenseKeys()
  }

  predicate IsApart(a: seq<string>, b: seq<string>) {
    forall k :: k in a ==> k !in b
  }

  lemma GroupsAreDistinct()
    ensures IsDistinct(LoginKeys()) && IsDistinct(CodeKeys()) && IsDistinct(CardKeys()) && IsDistinct(BankKeys())
    ensures IsDistinct(IdentityKeys()) && IsDistinct(LicenseKeys())
  {
  }

  lemma GroupsAreApart()
    ensures IsApart(LoginKeys(), CodeKeys())
    ensures IsApart(LoginKeys() + CodeKeys(), CardKeys())
    ensures IsApart(LoginKeys() + CodeKeys() + CardKeys(), BankKeys())
  {
  }

  lemma IdentityIsApart()
    ensures IsApart(LoginKeys() + CodeKeys(), IdentityKeys())
    ensures IsApart(CardKeys() + BankKeys(), IdentityKeys())
  {
  }

  lemma LicenseIsApart()
    ensures IsApart(LoginKeys() + CodeKeys() + CardKeys() + BankKeys() + IdentityKeys(), LicenseKeys())
  {
  }

  lemma DistinctSum(a: seq<string>, b: seq<string>)
    requires IsDistinct(a) && IsDistinct(b) && IsApart(a, b)
    ensures IsDistinct(a + b)
  {
    forall i, j | 0 <= i < j < |a + b| ensures (a + b)[i] != (a + b)[j] {
      if i < |a| <= j {
        assert a[i] in a && b[j - |a|] in b;
      }
    }
  }

  lemma KeysAreOrdinary(key: string)
    requires key in Keys()
    ensures key != "" && key != TAGS_FIELD
  {
  }

  lemma KeysAreDistinct()
    ensures IsDistinct(Keys())
  {
    GroupsAreDistinct();
    GroupsAreApart();
    IdentityIsApart();
    LicenseIsApart();
    hide LoginKeys, CodeKeys, CardKeys, BankKeys, IdentityKeys, LicenseKeys, IsDistinct, IsApart;
    DistinctSum(LoginKeys(), CodeKeys());
    DistinctSum(LoginKeys() + CodeKeys(), CardKeys());
    DistinctSum(LoginKeys() + CodeKeys() + CardKeys(), BankKeys());
    Regroup(LoginKeys() + CodeKeys(), CardKeys(), BankKeys());
    DistinctSum(LoginKeys() + CodeKeys() + CardKeys() + BankKeys(), IdentityKeys());
    DistinctSum(LoginKeys() + CodeKeys() + CardKeys() + BankKeys() + IdentityKeys(), LicenseKeys());
  }

  predicate IsSecret(key: string) {
    key in {"password", "totp_secret", "card_number", "cvv", "iban", "account_number", "license_key"}
  }

  /** strconv.Itoa. */
  function Decimal(n: int): (s: string)
    ensures s != ""
  {
    if n < 0 then "-" + Digits(-n) else Digits(n)
  }

  function Number(n: int): string {
    if n == 0 then "" else Decimal(n)
  }

  function Value(rec: Record, key: string): string {
    if key == "period" then Number(rec.period) else if key == "digits" then Number(rec.digits) else Get(rec.text, key)
  }

  function KeyField(rec: Record, key: string): ItemField {
    ItemField(key, Value(rec, key), IsSecret(key))
  }

  /** Those of the keys that have a value and no place. */
  function OutsideOf(rec: Record, keys: seq<string>, placed: seq<string>): seq<ItemField> {
    if keys == [] then [] else
      var n := |keys| - 1;
      OutsideOf(rec, keys[..n], placed)
        + if Value(rec, keys[n]) != "" && keys[n] !in placed then [KeyField(rec, keys[n])] else []
  }

  /** A field is emitted exactly if its key has a value and no place. */
  lemma {:induction false} OutsideExactly(rec: Record, keys: seq<string>, placed: seq<string>, f: ItemField)
    ensures f in OutsideOf(rec, keys, placed) <==>
      f.name in keys && f.name !in placed && Value(rec, f.name) != "" && f == KeyField(rec, f.name)
  {
    hide Value, KeyField;
    if keys != [] {
      var n := |keys| - 1;
      OutsideExactly(rec, keys[..n], placed, f);
      assert KeyField(rec, keys[n]).name == keys[n] by { NameOfKeyField(rec, keys[n]); }
      assert f.name in keys <==> f.name in keys[..n] || f.name == keys[n];
    }
  }

  lemma NameOfKeyField(rec: Record, key: string)
    ensures KeyField(rec, key).name == key
  {
  }

  predicate NamesDistinct(fields: seq<ItemField>) {
    forall i, j :: 0 <= i < j < |fields| ==> fields[i].name != fields[j].name
  }

  /** No keyed field is emitted twice. */
  lemma {:induction false} OutsideOnce(rec: Record, keys: seq<string>, placed: seq<string>)
    requires IsDistinct(keys)
    ensures NamesDistinct(OutsideOf(rec, keys, placed))
  {
    if keys != [] {
      var n := |keys| - 1;
      var front := OutsideOf(rec, keys[..n], placed);
      OutsideOnce(rec, keys[..n], placed);
      forall i | 0 <= i < |front| ensures front[i].name != keys[n] {
        OutsideExactly(rec, keys[..n], placed, front[i]);
        assert front[i].name in keys[..n];
      }
    }
  }

  /** Exactly these values are masked when they are put outside. */
  lemma SecretsAreMaskedExactly(rec: Record, keys: seq<string>, placed: seq<string>, f: ItemField)
    requires f in OutsideOf(rec, keys, placed)
    ensures f.hidden <==>
      f.name in {"password", "totp_secret", "card_number", "cvv", "iban", "account_number", "license_key"}
    ensures f.value == Value(rec, f.name) && f.value != ""
  {
  }

  /** The numbers of a record are written in decimal, zero as nothing. */
  lemma NumbersExactly(rec: Record)
    requires rec.period >= 0 && rec.digits >= 0
    ensures rec.period == 0 <==> Value(rec, "period") == ""
    ensures rec.digits == 0 <==> Value(rec, "digits") == ""
    ensures Numeral(Value(rec, "period")) == rec.period && Numeral(Value(rec, "digits")) == rec.digits
  {
    DigitsAreTheNumber(rec.period);
    DigitsAreTheNumber(rec.digits);
  }

  // --- Tags -------------------------------------------------------------------------------

  /** The pieces between the commas, empty ones included. */
  function Pieces(s: string): (pieces: seq<string>)
    ensures pieces != []
  {
    if s == "" then [""] else
      var n := |s| - 1;
      var front := Pieces(s[..n]);
      if s[n] == ',' then front + [""] else front[..|front| - 1] + [front[|front| - 1] + [s[n]]]
  }

  /** strings.FieldsFunc for the comma. */
  function NonEmpty(pieces: seq<string>): seq<string> {
    if pieces == [] then [] else
      var n := |pieces| - 1;
      NonEmpty(pieces[..n]) + if pieces[n] == "" then [] else [pieces[n]]
  }

  function Trimmed(pieces: seq<string>): seq<string> {
    if pieces == [] then [] else
      var n := |pieces| - 1;
      Trimmed(pieces[..n]) + if TrimSpace(pieces[n]) == "" then [] else [TrimSpace(pieces[n])]
  }

  function Split(s: string): seq<string> {
    Trimmed(NonEmpty(Pieces(s)))
  }

  /** A tag that survives the list: trimmed, not empty, without a comma. */
  predicate IsPlainTag(tag: string) {
    tag != "" && TrimSpace(tag) == tag && ',' !in tag
  }

  predicate ArePlainTags(tags: seq<string>) {
    forall k :: 0 <= k < |tags| ==> IsPlainTag(tags[k])
  }

  lemma {:induction false} EmptyPiecesDropOut(pieces: seq<string>)
    ensures Trimmed(NonEmpty(pieces)) == Trimmed(pieces)
  {
    hide TrimSpace;
    if pieces != [] {
      var n := |pieces| - 1;
      EmptyPiecesDropOut(pieces[..n]);
      TrimmedNext(NonEmpty(pieces[..n]), pieces[n]);
      if pieces[n] == "" {
        TrimNothing();
        assert NonEmpty(pieces[..n]) + [] == NonEmpty(pieces[..n]) && Trimmed(pieces[..n]) + [] == Trimmed(pieces[..n]);
      }
    }
  }

  lemma TrimNothing()
    ensures TrimSpace("") == ""
  {
  }

  lemma TrimmedNext(pieces: seq<string>, piece: string)
    ensures Trimmed(pieces + [piece]) == Trimmed(pieces) + if TrimSpace(piece) == "" then [] else [TrimSpace(piece)]
  {
    hide TrimSpace;
    assert (pieces + [piece])[..|pieces|] == pieces;
  }

  lemma {:induction false} PiecesAppend(s: string, piece: string)
    requires ',' !in piece
    ensures Pieces(s + "," + piece) == Pieces(s) + [piece]
  {
    var n, whole := |piece| - 1, s + "," + piece;
    if piece == "" {
      assert whole[..|s|] == s;
    } else {
      PiecesAppend(s, piece[..n]);
      assert whole[..|whole| - 1] == s + "," + piece[..n];
      assert piece[..n] + [piece[n]] == piece;
    }
  }

  lemma {:induction false} PiecesOfPiece(piece: string)
    requires ',' !in piece
    ensures Pieces(piece) == [piece]
  {
    if piece != "" {
      var n := |piece| - 1;
      PiecesOfPiece(piece[..n]);
      assert piece[..n] + [piece[n]] == piece;
    }
  }

  lemma {:induction false} PiecesHaveNoComma(s: string, k: nat)
    requires k < |Pieces(s)|
    ensures ',' !in Pieces(s)[k]
  {
    if s != "" {
      var n := |s| - 1;
      var front := Pieces(s[..n]);
      if k < |front| {
        PiecesHaveNoComma(s[..n], k);
      }
    }
  }

  lemma TrimLeadingSpace(tag: string)
    requires tag != "" && TrimSpace(tag) == tag
    ensures TrimSpace(" " + tag) == tag
  {
    assert (" " + tag)[1..] == tag;
  }

  lemma TrimTwice(s: string)
    ensures TrimSpace(TrimSpace(s)) == TrimSpace(s)
  {
    var t := TrimSpace(s);
    if t != "" {
      assert t[0] == TrimStart(s)[0];
      assert TrimStart(t) == t;
    }
  }

  lemma TrimKeepsOut(s: string, c: char)
    requires c !in s
    ensures c !in TrimSpace(s)
  {
  }

  lemma {:induction false} SplitJoinedTags(tags: seq<string>)
    requires tags != [] && ArePlainTags(tags)
    ensures Trimmed(Pieces(Join(tags, ", "))) == tags
  {
    hide TrimSpace, Pieces, Trimmed;
    var n := |tags| - 1;
    var tag := tags[n];
    assert IsPlainTag(tag);
    TrimmedNothing();
    if n == 0 {
      PiecesOfPiece(tag);
      TrimmedNext([], tag);
      assert [] + [tag] == [tag] == tags;
    } else {
      SplitJoinedTags(tags[..n]);
      TrimLeadingSpace(tag);
      PiecesAppend(Join(tags[..n], ", "), " " + tag);
      assert Join(tags[..n], ", ") + ", " + tag == Join(tags[..n], ", ") + "," + (" " + tag);
      TrimmedNext(Pieces(Join(tags[..n], ", ")), " " + tag);
      assert tags == tags[..n] + [tag];
    }
  }

  lemma TrimmedNothing()
    ensures Trimmed([]) == []
  {
  }

  lemma {:induction false} TrimmedArePlain(pieces: seq<string>)
    requires forall k :: 0 <= k < |pieces| ==> ',' !in pieces[k]
    ensures ArePlainTags(Trimmed(pieces))
  {
    hide TrimSpace;
    if pieces != [] {
      var n := |pieces| - 1;
      TrimmedArePlain(pieces[..n]);
      TrimTwice(pieces[n]);
      TrimKeepsOut(pieces[n], ',');
    }
  }

  /** Tags come back exactly if each is trimmed, not empty and without a comma. */
  lemma TagsExactly(tags: seq<string>)
    requires tags != []
    ensures Split(Join(tags, ", ")) == tags <==> ArePlainTags(tags)
  {
    hide Trimmed, NonEmpty, Pieces, Join, IsPlainTag;
    var pieces := Pieces(Join(tags, ", "));
    EmptyPiecesDropOut(pieces);
    if ArePlainTags(tags) {
      SplitJoinedTags(tags);
    }
    forall k | 0 <= k < |pieces| ensures ',' !in pieces[k] {
      PiecesHaveNoComma(Join(tags, ", "), k);
    }
    TrimmedArePlain(pieces);
  }

  // --- Export -----------------------------------------------------------------------------

  predicate IsPlainKind(kind: string) {
    kind in {"text", "url", "email", "phone", "note"}
  }

  /** The item fields a custom field becomes: one, or none for a file that is left out. */
  function CustomOut(f: Field, opts: ExportOptions): seq<ItemField> {
    if f.kind == "file" then
      if opts.includeFiles && opts.filesAsBase64 then
        var mime := if f.mimeType == "" then "application/octet-stream" else f.mimeType;
        [ItemField(if f.filename == "" then f.name else f.filename, DATA + mime + BASE64 + f.value, true)]
      else []
    else [ItemField(f.name, f.value, !IsPlainKind(if f.kind == "" then "text" else f.kind))]
  }

  function CustomsOut(fields: seq<Field>, opts: ExportOptions): seq<ItemField> {
    if fields == [] then [] else CustomsOut(fields[..|fields| - 1], opts) + CustomOut(fields[|fields| - 1], opts)
  }

  function Placed(kind: string): seq<string> {
    if kind == "note" then [] else if kind == "credit-card" then CardKeys()
    else if kind == "identity" then IdentityKeys() else LoginKeys()
  }

  function ItemKind(kind: string): int {
    if kind == "note" then 2 else if kind == "credit-card" then 3 else if kind == "identity" then 4 else 1
  }

  function TypeOut(kind: string): seq<ItemField> {
    if ItemKind(kind) == 1 && kind != "" && kind != "password" && kind != "totp"
    then [ItemField("type", kind, false)] else []
  }

  function UnknownOut(unknown: seq<UnknownField>): (out: seq<ItemField>)
    ensures |out| == |unknown|
    ensures forall k :: 0 <= k < |out| ==> out[k] == ItemField(unknown[k].key, unknown[k].value, true)
  {
    if unknown == [] then [] else
      var n := |unknown| - 1;
      UnknownOut(unknown[..n]) + [ItemField(unknown[n].key, unknown[n].value, true)]
  }

  function TagsOut(tags: seq<string>): seq<ItemField> {
    if tags == [] then [] else [ItemField(TAGS_FIELD, Join(tags, ", "), false)]
  }

  function FieldsOut(rec: Record, opts: ExportOptions): seq<ItemField> {
    CustomsOut(rec.customFields, opts) + OutsideOf(rec, Keys(), Placed(rec.kind))
      + TypeOut(rec.kind) + UnknownOut(rec.unknown) + TagsOut(rec.tags)
  }

  function LoginOf(t: Text): Login {
    Login(if Get(t, "url") == "" then [] else [Get(t, "url")],
          Get(t, "username"), Get(t, "password"), Get(t, "totp_secret"))
  }

  function CardOf(t: Text): Card {
    Card(Get(t, "holder_name"), Get(t, "card_number"), Get(t, "expiry_month"), Get(t, "expiry_year"), Get(t, "cvv"))
  }

  function IdentityOf(t: Text): Identity {
    Identity(Get(t, "title"), Get(t, "first_name"), Get(t, "last_name"), Get(t, "company"), Get(t, "email"),
             Get(t, "phone"), Get(t, "street"), Get(t, "city"), Get(t, "state"), Get(t, "postal_code"),
             Get(t, "country"))
  }

  function Exported(rec: Record, opts: ExportOptions): Item {
    var kind := ItemKind(rec.kind);
    Item(kind, rec.name, rec.notes, FieldsOut(rec, opts),
         if kind == 1 then Some(LoginOf(rec.text)) else None,
         if kind == 3 then Some(CardOf(rec.text)) else None,
         if kind == 4 then Some(IdentityOf(rec.text)) else None)
  }

  method FieldsOutside(rec: Record, placed: seq<string>) returns (out: seq<ItemField>)
    ensures out == OutsideOf(rec, Keys(), placed)
  {
    hide Keys, Value, IsSecret;
    var keys := Keys();
    out := [];
    for i := 0 to |keys|
      invariant out == OutsideOf(rec, keys[..i], placed)
    {
      assert keys[..i + 1][..i] == keys[..i];
      if Value(rec, keys[i]) != "" && keys[i] !in placed {
        out := out + [KeyField(rec, keys[i])];
      }
    }
    assert keys[..|keys|] == keys;
  }

  method ExportCustomFields(fields: seq<Field>, opts: ExportOptions) returns (out: seq<ItemField>)
    ensures out == CustomsOut(fields, opts)
  {
    out := [];
    for i := 0 to |fields|
      invariant out == CustomsOut(fields[..i], opts)
    {
      var f := fields[i];
      assert fields[..i + 1][..i] == fields[..i];
      var kind := if f.kind == "" then "text" else f.kind;
      if kind == "file" {
        if !opts.includeFiles {
          continue;
        }
        if opts.filesAsBase64 {
          var mime := if f.mimeType == "" then "application/octet-stream" else f.mimeType;
          var name := if f.filename == "" then f.name else f.filename;
          out := out + [ItemField(name, DATA + mime + BASE64 + f.value, true)];
        }
        continue;
      }
      out := out + [ItemField(f.name, f.value, !IsPlainKind(kind))];
    }
    assert fields[..|fields|] == fields;
  }

  method ExportUnknown(unknown: seq<UnknownField>) returns (out: seq<ItemField>)
    ensures out == UnknownOut(unknown)
  {
    out := [];
    for i := 0 to |unknown|
      invariant out == UnknownOut(unknown[..i])
    {
      assert unknown[..i + 1][..i] == unknown[..i];
      out := out + [ItemField(unknown[i].key, unknown[i].value, true)];
    }
    assert unknown[..|unknown|] == unknown;
  }

  method ExportRecord(rec: Record, opts: ExportOptions) returns (item: Item)
    ensures item == Exported(rec, opts)
  {
    hide OutsideOf, CustomsOut, Keys, LoginKeys, CardKeys, IdentityKeys,
      LoginOf, CardOf, IdentityOf, Join, UnknownOut;
    var fields := ExportCustomFields(rec.customFields, opts);
    item := Item(1, rec.name, rec.notes, [], None, None, None);
    var placed := LoginKeys();
    match rec.kind {
      case "note" => item, placed := item.(kind := 2), [];
      case "credit-card" => item, placed := item.(kind := 3, card := Some(CardOf(rec.text))), CardKeys();
      case "identity" => item, placed := item.(kind := 4, identity := Some(IdentityOf(rec.text))), IdentityKeys();
      case _ => item := item.(login := Some(LoginOf(rec.text)));
    }
    var outside := FieldsOutside(rec, placed);
    fields := fields + outside;
    if item.kind == 1 && rec.kind != "" && rec.kind != "password" && rec.kind != "totp" {
      fields := fields + [ItemField("type", rec.kind, false)];
    }
    var unknown := ExportUnknown(rec.unknown);
    fields := fields + unknown;
    if |rec.tags| > 0 {
      fields := fields + [ItemField(TAGS_FIELD, Join(rec.tags, ", "), false)];
    }
    item := item.(fields := fields);
  }

  /** Where the texts of a record go. */
  lemma ExportedExactly(rec: Record, opts: ExportOptions)
    ensures var item, t := Exported(rec, opts), rec.text;
      && item.name == rec.name && item.notes == rec.notes
      && (item.kind == 2 <==> rec.kind == "note") && (item.kind == 3 <==> rec.kind == "credit-card")
      && (item.kind == 4 <==> rec.kind == "identity") && 1 <= item.kind <= 4
      && (item.login.Some? <==> item.kind == 1) && (item.card.Some? <==> item.kind == 3)
      && (item.identity.Some? <==> item.kind == 4)
      && (item.kind == 1 ==> var l := item.login.value;
          && l.username == Get(t, "username") && l.password == Get(t, "password") && l.totp == Get(t, "totp_secret")
          && (Get(t, "url") == "" ==> l.uris == []) && (Get(t, "url") != "" ==> l.uris == [Get(t, "url")]))
      && (item.kind == 3 ==> var c := item.card.value;
          && c.holder == Get(t, "holder_name") && c.number == Get(t, "card_number") && c.code == Get(t, "cvv")
          && c.expMonth == Get(t, "expiry_month") && c.expYear == Get(t, "expiry_year"))
      && (item.kind == 4 ==> var i := item.identity.value;
          && i.title == Get(t, "title") && i.firstName == Get(t, "first_name") && i.lastName == Get(t, "last_name")
          && i.company == Get(t, "company") && i.email == Get(t, "email") && i.phone == Get(t, "phone")
          && i.address1 == Get(t, "street") && i.city == Get(t, "city") && i.state == Get(t, "state")
          && i.postalCode == Get(t, "postal_code") && i.country == Get(t, "country"))
  {
    hide FieldsOut;
  }

  /** The tags travel last, as one plain field. */
  lemma TagsFieldExactly(rec: Record, opts: ExportOptions)
    ensures var fields := Exported(rec, opts).fields;
      rec.tags != [] ==>
        && fields != [] && fields[|fields| - 1].name == "passbubble_tags"
        && !fields[|fields| - 1].hidden && fields[|fields| - 1].value == Join(rec.tags, ", ")
  {
  }

  // --- Import -----------------------------------------------------------------------------

  /** The record an import makes. */
  datatype Imported = Imported(
    name: string, kind: string, notes: string, text: Text, customFields: seq<Field>, tags: seq<string>)

  function CustomField(f: ItemField): Field {
    if !f.hidden then Field(f.name, f.value, "", "", "") else
      match SplitDataUri(f.value)
      case Some(uri) => Field(f.name, uri.content, "file", f.name, uri.mime)
      case None => Field(f.name, f.value, "password", "", "")
  }

  function CustomsIn(fields: seq<ItemField>): seq<Field> {
    if fields == [] then [] else
      var n := |fields| - 1;
      CustomsIn(fields[..n])
        + if fields[n].name == TAGS_FIELD || fields[n].name == "" then [] else [CustomField(fields[n])]
  }

  function TagsIn(fields: seq<ItemField>): seq<string> {
    if fields == [] then [] else
      var n := |fields| - 1;
      TagsIn(fields[..n]) + if fields[n].name == TAGS_FIELD then Split(fields[n].value) else []
  }

  function LoginText(l: Login): Text {
    Set(Set(Set(Set(map[], "username", l.username), "password", l.password), "totp_secret", l.totp),
        "url", if l.uris != [] then l.uris[0] else "")
  }

  function CardText(c: Card): Text {
    Set(Set(Set(Set(Set(map[], "card_number", c.number), "holder_name", c.holder), "expiry_month", c.expMonth),
            "expiry_year", c.expYear), "cvv", c.code)
  }

  function IdentityText(i: Identity): Text {
    var person := Set(Set(Set(
      Set(Set(Set(map[], "title", i.title), "first_name", i.firstName), "last_name", i.lastName),
                              "company", i.company), "email", i.email), "phone", i.phone);
    Set(Set(Set(Set(Set(person, "street", i.address1), "city", i.city), "state", i.state),
            "postal_code", i.postalCode), "country", i.country)
  }

  function SettledLoginType(t: Text): string {
    if Get(t, "totp_secret") != "" && Get(t, "password") == "" then "totp" else "password"
  }

  /** The record without its custom fields and tags; nothing for an unknown kind or an entry
    without any name. */
  function Converted(item: Item): Option<Imported> {
    if !(1 <= item.kind <= 4) then None else
      var text :=
        if item.kind == 1 && item.login.Some? then LoginText(item.login.value)
        else if item.kind == 3 && item.card.Some? then CardText(item.card.value)
        else if item.kind == 4 && item.identity.Some? then IdentityText(item.identity.value)
        else map[];
      var kind :=
        if item.kind == 1 then SettledLoginType(text) else if item.kind == 2 then "note"
        else if item.kind == 3 then "credit-card" else "identity";
      var name := if item.name != "" then item.name else TrimSpace(Get(text, "username") + " " + Get(text, "url"));
      if name == "" then None else Some(Imported(name, kind, item.notes, text, [], []))
  }

  function ImportedOf(item: Item): Option<Imported> {
    match Converted(item)
    case None => None
    case Some(rec) => Some(rec.(customFields := CustomsIn(item.fields), tags := TagsIn(item.fields)))
  }

  method SplitTags(s: string) returns (tags: seq<string>)
    ensures tags == Split(s)
  {
    hide TrimSpace;
    var parts := NonEmpty(Pieces(s));
    tags := [];
    for i := 0 to |parts|
      invariant tags == Trimmed(parts[..i])
    {
      assert parts[..i + 1][..i] == parts[..i];
      var part := TrimSpace(parts[i]);
      if part != "" {
        tags := tags + [part];
      }
    }
    assert parts[..|parts|] == parts;
  }

  method ImportItem(item: Item) returns (rec: Option<Imported>)
    ensures rec == ImportedOf(item)
  {
    hide Converted, Split, CustomField;
    rec := Converted(item);
    if rec.None? {
      return;
    }
    var customFields, tags := [], [];
    for i := 0 to |item.fields|
      invariant customFields == CustomsIn(item.fields[..i]) && tags == TagsIn(item.fields[..i])
    {
      var f := item.fields[i];
      assert item.fields[..i + 1][..i] == item.fields[..i];
      if f.name == TAGS_FIELD {
        var more := SplitTags(f.value);
        tags := tags + more;
        continue;
      }
      if f.name != "" {
        customFields := customFields + [CustomField(f)];
      }
    }
    assert item.fields[..|item.fields|] == item.fields;
    rec := Some(rec.value.(customFields := customFields, tags := tags));
  }

  /** What a masked field becomes: a file if it reads like a data URI, otherwise a password. */
  lemma FieldKindExactly(f: ItemField)
    ensures var g := CustomField(f);
      && (g.kind == "" <==> !f.hidden)
      && (g.kind == "file" <==> f.hidden && SplitDataUri(f.value).Some?)
      && (g.kind == "password" <==> f.hidden && SplitDataUri(f.value).None?)
      && (g.kind == "file" ==> g.filename == f.name && f.value == "data:" + g.mimeType + ";base64," + g.value)
      && (g.kind != "file" ==> g.filename == "" && g.mimeType == "")
  {
    if SplitDataUri(f.value).Some? {
      SplitParts(f.value);
    }
    hide SplitDataUri;
  }

  lemma SplitParts(value: string)
    requires SplitDataUri(value).Some?
    ensures value == DATA + SplitDataUri(value).value.mime + BASE64 + SplitDataUri(value).value.content
  {
    var rest := value[|DATA|..];
    var i := IndexOf(rest, BASE64).value;
    assert rest == rest[..i] + BASE64 + rest[i + |BASE64|..];
    assert value == DATA + rest;
  }

  /** A login is typed by what it holds: a secret without a password makes a TOTP entry. */
  lemma LoginTypeExactly(item: Item)
    requires item.kind == 1 && ImportedOf(item).Some?
    ensures ImportedOf(item).value.kind in {"totp", "password"}
    ensures ImportedOf(item).value.kind == "totp" <==>
      item.login.Some? && item.login.value.totp != "" && item.login.value.password == ""
  {
    hide CustomsIn, TagsIn;
  }

  /** What an item is imported as, and that only unknown kinds and items without any name are
    skipped. */
  lemma ImportedExactly(item: Item)
    ensures
      var login := if item.kind == 1 && item.login.Some? then item.login.value else Login([], "", "", "");
      var name := if item.name != "" then item.name
                  else TrimSpace(login.username + " " + if login.uris == [] then "" else login.uris[0]);
      var r := ImportedOf(item);
      && (r.None? <==> item.kind !in {1, 2, 3, 4} || name == "")
      && (r.Some? ==>
        && r.value.name == name && r.value.notes == item.notes
        && (r.value.kind == "note" <==> item.kind == 2)
        && (r.value.kind == "credit-card" <==> item.kind == 3)
        && (r.value.kind == "identity" <==> item.kind == 4))
  {
    NoOtherNames(item);
    hide CustomsIn, TagsIn, TrimSpace, LoginText, CardText, IdentityText, Set, Get;
  }

  /** The user name and the address a name can be made of. */
  lemma NoOtherNames(item: Item)
    ensures Get(map[], "username") == "" && Get(map[], "url") == ""
    ensures item.login.Some? ==>
      var l := item.login.value;
      Get(LoginText(l), "username") == l.username && Get(LoginText(l), "url") == if l.uris == [] then "" else l.uris[0]
    ensures item.card.Some? ==>
      Get(CardText(item.card.value), "username") == "" && Get(CardText(item.card.value), "url") == ""
    ensures item.identity.Some? ==>
      Get(IdentityText(item.identity.value), "username") == "" && Get(IdentityText(item.identity.value), "url") == ""
  {
    hide Set;
  }

  /** Where the values of an item go. */
  lemma ImportedTextExactly(item: Item)
    requires ImportedOf(item).Some?
    ensures item.kind == 1 && item.login.Some? ==>
      var t, l := ImportedOf(item).value.text, item.login.value;
      && Get(t, "username") == l.username && Get(t, "password") == l.password && Get(t, "totp_secret") == l.totp
      && Get(t, "url") == (if l.uris == [] then "" else l.uris[0])
      && forall k :: k !in {"username", "password", "totp_secret", "url"} ==> Get(t, k) == ""
    ensures item.kind == 3 && item.card.Some? ==>
      var t, c := ImportedOf(item).value.text, item.card.value;
      && Get(t, "card_number") == c.number && Get(t, "holder_name") == c.holder && Get(t, "cvv") == c.code
      && Get(t, "expiry_month") == c.expMonth && Get(t, "expiry_year") == c.expYear
      && forall k :: k !in {"card_number", "holder_name", "cvv", "expiry_month", "expiry_year"} ==> Get(t, k) == ""
  {
    hide CustomsIn, TagsIn, TrimSpace, Set;
  }

  lemma IdentityTextExactly(i: Identity, k: string)
    ensures var t := IdentityText(i);
      && Get(t, "title") == i.title && Get(t, "first_name") == i.firstName && Get(t, "last_name") == i.lastName
      && Get(t, "company") == i.company && Get(t, "email") == i.email && Get(t, "phone") == i.phone
      && Get(t, "street") == i.address1 && Get(t, "city") == i.city && Get(t, "state") == i.state
      && Get(t, "postal_code") == i.postalCode && Get(t, "country") == i.country
    ensures k !in IdentityKeys() ==> Get(IdentityText(i), k) == ""
  {
    hide Set;
  }

  /** Exactly the fields with a name, but for the tags, become custom fields. */
  lemma {:induction false} CustomsInExactly(fields: seq<ItemField>, g: Field)
    ensures g in CustomsIn(fields) <==>
      exists f :: f in fields && f.name != "" && f.name != "passbubble_tags" && CustomField(f) == g
  {
    hide CustomField;
    if fields != [] {
      var n := |fields| - 1;
      CustomsInExactly(fields[..n], g);
      assert fields == fields[..n] + [fields[n]];
    }
  }

  // --- There and back -----------------------------------------------------------------------

  lemma {:induction false} CustomsInConcat(a: seq<ItemField>, b: seq<ItemField>)
    ensures CustomsIn(a + b) == CustomsIn(a) + CustomsIn(b)
  {
    hide CustomField;
    if b == [] {
      assert a + b == a;
    } else {
      var n := |b| - 1;
      CustomsInConcat(a, b[..n]);
      assert (a + b)[..|a + b| - 1] == a + b[..n];
    }
  }

  lemma {:induction false} TagsInConcat(a: seq<ItemField>, b: seq<ItemField>)
    ensures TagsIn(a + b) == TagsIn(a) + TagsIn(b)
  {
    hide Split;
    if b == [] {
      assert a + b == a;
    } else {
      var n := |b| - 1;
      TagsInConcat(a, b[..n]);
      assert (a + b)[..|a + b| - 1] == a + b[..n];
    }
  }

  predicate IsOrdinary(f: ItemField) {
    f.name != "" && f.name != TAGS_FIELD
  }

  function Returned(fields: seq<ItemField>): (r: seq<Field>)
    ensures |r| == |fields| && forall k :: 0 <= k < |fields| ==> r[k] == CustomField(fields[k])
  {
    seq(|fields|, k requires 0 <= k < |fields| => CustomField(fields[k]))
  }

  lemma {:induction false} OrdinaryFieldsReturn(fields: seq<ItemField>)
    requires forall k :: 0 <= k < |fields| ==> IsOrdinary(fields[k])
    ensures CustomsIn(fields) == Returned(fields) && TagsIn(fields) == []
  {
    hide CustomField, Split;
    if fields != [] {
      var n := |fields| - 1;
      OrdinaryFieldsReturn(fields[..n]);
      assert IsOrdinary(fields[n]);
    }
  }

  lemma OutsideIsOrdinary(rec: Record, placed: seq<string>)
    ensures forall k :: 0 <= k < |OutsideOf(rec, Keys(), placed)| ==> IsOrdinary(OutsideOf(rec, Keys(), placed)[k])
  {
    hide Keys, OutsideOf, KeyField, Value;
    var out := OutsideOf(rec, Keys(), placed);
    forall k | 0 <= k < |out| ensures IsOrdinary(out[k]) {
      OutsideExactly(rec, Keys(), placed, out[k]);
      KeysAreOrdinary(out[k].name);
    }
  }

  /** What the item holds apart from the tags field, as the importer takes it. */
  lemma FieldsReturn(rec: Record, opts: ExportOptions)
    ensures CustomsIn(FieldsOut(rec, opts)) ==
      CustomsIn(CustomsOut(rec.customFields, opts)) + Returned(OutsideOf(rec, Keys(), Placed(rec.kind)))
        + Returned(TypeOut(rec.kind)) + CustomsIn(UnknownOut(rec.unknown))
    ensures TagsIn(FieldsOut(rec, opts)) ==
      TagsIn(CustomsOut(rec.customFields, opts)) + TagsIn(UnknownOut(rec.unknown))
        + if rec.tags == [] then [] else Split(Join(rec.tags, ", "))
  {
    hide *;
    var a, b, c, d := CustomsOut(rec.customFields, opts), OutsideOf(rec, Keys(), Placed(rec.kind)),
                      TypeOut(rec.kind), UnknownOut(rec.unknown);
    var e := TagsOut(rec.tags);
    TagsFieldReturns(rec.tags);
    OutsideIsOrdinary(rec, Placed(rec.kind));
    OrdinaryFieldsReturn(b);
    TypeIsOrdinary(rec.kind);
    OrdinaryFieldsReturn(c);
    SumReturns(a, b);
    SumReturns(a + b, c);
    SumReturns(a + b + c, d);
    SumReturns(a + b + c + d, e);
    FieldsOutIsSum(rec, opts);
    assert TagsIn(a) + [] + [] == TagsIn(a);
    assert CustomsIn(a + b + c + d) + [] == CustomsIn(a + b + c + d);
  }

  lemma TypeIsOrdinary(kind: string)
    ensures forall k :: 0 <= k < |TypeOut(kind)| ==> IsOrdinary(TypeOut(kind)[k])
  {
  }

  lemma FieldsOutIsSum(rec: Record, opts: ExportOptions)
    ensures FieldsOut(rec, opts) ==
      CustomsOut(rec.customFields, opts) + OutsideOf(rec, Keys(), Placed(rec.kind))
        + TypeOut(rec.kind) + UnknownOut(rec.unknown) + TagsOut(rec.tags)
  {
  }

  lemma SumReturns(a: seq<ItemField>, b: seq<ItemField>)
    ensures CustomsIn(a + b) == CustomsIn(a) + CustomsIn(b) && TagsIn(a + b) == TagsIn(a) + TagsIn(b)
  {
    CustomsInConcat(a, b);
    TagsInConcat(a, b);
  }

  lemma TagsFieldReturns(tags: seq<string>)
    ensures CustomsIn(TagsOut(tags)) == []
    ensures TagsIn(TagsOut(tags)) == if tags == [] then [] else Split(Join(tags, ", "))
  {
    hide Split, Join;
    if tags != [] {
      assert [ItemField(TAGS_FIELD, Join(tags, ", "), false)][..0] == [];
    }
  }

  lemma LoginReturns(t: Text, key: string)
    ensures Get(LoginText(LoginOf(t)), key) == if key in LoginKeys() then Get(t, key) else ""
  {
    hide Get, Set;
    assert Get(map[], key) == "" by { NothingThere(key); }
  }

  lemma NothingThere(key: string)
    ensures Get(map[], key) == ""
  {
  }

  lemma CardReturns(t: Text, key: string)
    ensures Get(CardText(CardOf(t)), key) == if key in CardKeys() then Get(t, key) else ""
  {
    hide Get, Set;
    assert Get(map[], key) == "" by { NothingThere(key); }
  }

  lemma IdentityReturns(t: Text, key: string)
    ensures Get(IdentityText(IdentityOf(t)), key) == if key in IdentityKeys() then Get(t, key) else ""
  {
    hide Get, Set;
    assert Get(map[], key) == "" by { NothingThere(key); }
  }

  function ExportedText(item: Item): Text {
    if item.login.Some? then LoginText(item.login.value) else if item.card.Some? then CardText(item.card.value)
    else if item.identity.Some? then IdentityText(item.identity.value) else map[]
  }

  lemma TextReturns(rec: Record, opts: ExportOptions, key: string)
    ensures Get(ExportedText(Exported(rec, opts)), key) == if key in Placed(rec.kind) then Get(rec.text, key) else ""
  {
    hide LoginOf, CardOf, IdentityOf, LoginText, CardText, IdentityText, LoginKeys, CardKeys, IdentityKeys, FieldsOut;
    LoginReturns(rec.text, key);
    CardReturns(rec.text, key);
    IdentityReturns(rec.text, key);
  }

  /** A named record comes back, whatever its type: each part of it in one equation. */
  lemma RecordReturns(rec: Record, opts: ExportOptions)
    requires rec.name != ""
    ensures ImportedOf(Exported(rec, opts)) == Some(Imported(
      rec.name,
      if ItemKind(rec.kind) == 1 then SettledLoginType(rec.text) else rec.kind,
      rec.notes,
      ExportedText(Exported(rec, opts)),
      CustomsIn(CustomsOut(rec.customFields, opts)) + Returned(OutsideOf(rec, Keys(), Placed(rec.kind)))
        + Returned(TypeOut(rec.kind)) + CustomsIn(UnknownOut(rec.unknown)),
      TagsIn(CustomsOut(rec.customFields, opts)) + TagsIn(UnknownOut(rec.unknown))
        + if rec.tags == [] then [] else Split(Join(rec.tags, ", "))))
  {
    FieldsReturn(rec, opts);
    LoginReturns(rec.text, "totp_secret");
    LoginReturns(rec.text, "password");
    hide LoginOf, CardOf, IdentityOf, LoginText, CardText, IdentityText, FieldsOut, CustomsIn, TagsIn, Split, Join,
      CustomsOut, OutsideOf, UnknownOut, Returned, TypeOut, Keys;
  }

  /** A field comes back under its name, with its value exactly if it is not masked or is no
    base64 data URI. */
  lemma FieldReturnsExactly(f: ItemField)
    ensures CustomField(f).name == f.name
    ensures CustomField(f).value == f.value <==> !f.hidden || SplitDataUri(f.value).None?
  {
    if SplitDataUri(f.value).Some? {
      ContentIsShorter(f.value);
    }
    hide SplitDataUri;
  }

  lemma ContentIsShorter(value: string)
    requires SplitDataUri(value).Some?
    ensures |SplitDataUri(value).value.content| < |value|
  {
    hide IsBase64, IndexOf;
  }

  /** What a keyed value becomes outside: a custom field under its key, with the value exactly
    if it is not secret or is no base64 data URI. */
  predicate IsReturnOf(rec: Record, key: string, g: Field) {
    && g.name == key
    && (g.value == Value(rec, key) <==> !IsSecret(key) || SplitDataUri(Value(rec, key)).None?)
  }

  /** Every keyed value comes back: in its own field if the kind of item has one, otherwise as
    a custom field under its key, unchanged unless it is a secret that reads like a data URI. */
  lemma KeyedValueReturns(rec: Record, opts: ExportOptions, key: string)
    requires rec.name != "" && key in Keys() && Value(rec, key) != ""
    ensures
      var r := ImportedOf(Exported(rec, opts));
      && r.Some?
      && (key in Placed(rec.kind) ==> Get(r.value.text, key) == Get(rec.text, key))
      && (key !in Placed(rec.kind) ==> exists g :: g in r.value.customFields && IsReturnOf(rec, key, g))
  {
    RecordReturns(rec, opts);
    TextReturns(rec, opts, key);
    OutsideExactly(rec, Keys(), Placed(rec.kind), KeyField(rec, key));
    FieldReturnsExactly(KeyField(rec, key));
    var out := OutsideOf(rec, Keys(), Placed(rec.kind));
    assert key !in Placed(rec.kind) ==>
      KeyField(rec, key) in out && IsReturnOf(rec, key, CustomField(KeyField(rec, key)));
    hide Exported, ImportedOf, Keys, Value, IsSecret, Placed, OutsideOf, CustomField, CustomsIn, TagsIn, CustomsOut,
      UnknownOut, TypeOut, ExportedText, Split, Join, IsReturnOf, KeyField;
    if key !in Placed(rec.kind) {
      var k :| 0 <= k < |out| && out[k] == KeyField(rec, key);
      assert Returned(out)[k] == CustomField(out[k]);
    }
  }

  lemma LicenseKeyIsOutside()
    ensures "license_key" in Keys() && "license_key" !in Placed("license")
  {
    assert LicenseKeys()[1] == "license_key";
    var others := LoginKeys() + CodeKeys() + CardKeys() + BankKeys() + IdentityKeys();
    assert Keys() == others + LicenseKeys() && (others + LicenseKeys())[|others| + 1] == "license_key";
  }

  /** A licence key that reads like an empty data URI comes back as an empty file. */
  lemma SecretKeyBecomesFile(opts: ExportOptions)
    ensures
      var rec := Record("n", "license", "", map["license_key" := "data:;base64,"], 0, 0, [], [], []);
      var r := ImportedOf(Exported(rec, opts));
      r.Some? && Field("license_key", "", "file", "license_key", "") in r.value.customFields
  {
    var rec := Record("n", "license", "", map["license_key" := "data:;base64,"], 0, 0, [], [], []);
    var f := ItemField("license_key", "data:;base64,", true);
    var out := OutsideOf(rec, Keys(), Placed(rec.kind));
    RecordReturns(rec, opts);
    LicenseKeyIsOutside();
    assert KeyField(rec, "license_key") == f;
    OutsideExactly(rec, Keys(), Placed(rec.kind), f);
    DataUriBecomesFile("license_key");
    hide *;
    var k :| 0 <= k < |out| && out[k] == f;
    assert Returned(out)[k] == CustomField(out[k]);
  }

  /** No two fields outside carry the same key. */
  lemma KeyedOnce(rec: Record)
    ensures NamesDistinct(OutsideOf(rec, Keys(), Placed(rec.kind)))
  {
    KeysAreDistinct();
    OutsideOnce(rec, Keys(), Placed(rec.kind));
  }

  /** A labelled value comes back unchanged exactly if it is not masked or is no base64 data
    URI; a masked one comes back as a password. */
  lemma LabelledValueReturnsExactly(f: Field, opts: ExportOptions)
    requires f.kind != "file" && f.name != "" && f.name != TAGS_FIELD
    ensures |CustomsIn(CustomOut(f, opts))| == 1
    ensures
      var g := CustomsIn(CustomOut(f, opts))[0];
      var masked := !IsPlainKind(if f.kind == "" then "text" else f.kind);
      && g.name == f.name
      && (g.value == f.value <==> !masked || SplitDataUri(f.value).None?)
      && (g.value == f.value ==> g.kind == if masked then "password" else "")
  {
    var out := CustomOut(f, opts);
    assert out[..0] == [];
    assert CustomsIn(out) == [CustomField(out[0])];
    FieldReturnsExactly(out[0]);
    hide SplitDataUri;
  }

  /** An exported file comes back exactly if its content is base64 and its MIME type does not
    hold the separator of data URIs. */
  lemma FileReturnsExactly(f: Field, opts: ExportOptions)
    requires f.kind == "file" && opts.includeFiles && opts.filesAsBase64
    requires IsOrdinary(CustomOut(f, opts)[0])
    ensures
      var name := if f.filename == "" then f.name else f.filename;
      var mime := if f.mimeType == "" then "application/octet-stream" else f.mimeType;
      CustomsIn(CustomOut(f, opts)) == [Field(name, f.value, "file", name, mime)] <==>
        IsBase64(f.value) && IndexOf(mime, BASE64).None?
  {
    var out := CustomOut(f, opts);
    var mime := if f.mimeType == "" then "application/octet-stream" else f.mimeType;
    assert out[..0] == [];
    assert CustomsIn(out) == [CustomField(out[0])];
    DataUriExactly(mime, f.value);
    hide SplitDataUri, IsBase64, IndexOf;
  }

  /** Nothing in the custom fields and unknown keys is called like the tags field. */
  predicate HasNoTagsName(rec: Record) {
    && (forall k :: 0 <= k < |rec.customFields| ==>
      rec.customFields[k].name != TAGS_FIELD && rec.customFields[k].filename != TAGS_FIELD)
    && (forall k :: 0 <= k < |rec.unknown| ==> rec.unknown[k].key != TAGS_FIELD)
  }

  lemma {:induction false} NoTagsWithoutName(fields: seq<ItemField>)
    requires forall k :: 0 <= k < |fields| ==> fields[k].name != TAGS_FIELD
    ensures TagsIn(fields) == []
  {
    hide Split;
    if fields != [] {
      NoTagsWithoutName(fields[..|fields| - 1]);
    }
  }

  lemma {:induction false} CustomsOutHaveNoTagsName(fields: seq<Field>, opts: ExportOptions)
    requires forall k :: 0 <= k < |fields| ==> fields[k].name != TAGS_FIELD && fields[k].filename != TAGS_FIELD
    ensures forall k :: 0 <= k < |CustomsOut(fields, opts)| ==> CustomsOut(fields, opts)[k].name != TAGS_FIELD
  {
    if fields != [] {
      CustomsOutHaveNoTagsName(fields[..|fields| - 1], opts);
    }
  }

  /** The tags come back exactly if each is trimmed, not empty and without a comma. */
  lemma TagsReturnExactly(rec: Record, opts: ExportOptions)
    requires rec.name != "" && HasNoTagsName(rec)
    ensures
      var r := ImportedOf(Exported(rec, opts));
      r.Some? && (r.value.tags == rec.tags <==> ArePlainTags(rec.tags))
  {
    RecordReturns(rec, opts);
    CustomsOutHaveNoTagsName(rec.customFields, opts);
    NoTagsWithoutName(CustomsOut(rec.customFields, opts));
    NoTagsWithoutName(UnknownOut(rec.unknown));
    if rec.tags != [] {
      TagsExactly(rec.tags);
    }
    hide *;
    var split := if rec.tags == [] then [] else Split(Join(rec.tags, ", "));
    assert [] + [] + split == split;
  }

  /** A login type comes back exactly if it is the one its secrets suggest; another type is
    kept in a custom field of that name. */
  lemma TypeReturnsExactly(rec: Record, opts: ExportOptions)
    requires rec.name != ""
    ensures
      var r := ImportedOf(Exported(rec, opts));
      && r.Some?
      && (r.value.kind == rec.kind <==>
        || rec.kind in {"note", "credit-card", "identity"}
        || (rec.kind == "totp" && Get(rec.text, "totp_secret") != "" && Get(rec.text, "password") == "")
        || (rec.kind == "password" && (Get(rec.text, "totp_secret") == "" || Get(rec.text, "password") != "")))
      && (r.value.kind != rec.kind ==>
        rec.kind in {"", "password", "totp"} || Field("type", rec.kind, "", "", "") in r.value.customFields)
  {
    RecordReturns(rec, opts);
    var types := TypeOut(rec.kind);
    assert types != [] ==>
      types == [ItemField("type", rec.kind, false)] && Returned(types)[0] == Field("type", rec.kind, "", "", "");
    hide Exported, ImportedOf, CustomsIn, CustomsOut, TagsIn, OutsideOf, UnknownOut, Keys, Placed, ExportedText,
      Returned, Split, Join;
  }

  /** A masked value that reads like an empty data URI comes back as an empty file. */
  lemma DataUriBecomesFile(name: string)
    ensures CustomField(ItemField(name, "data:;base64,", true)) == Field(name, "", "file", name, "")
  {
    var value := "data:;base64,";
    assert value == DATA + "" + BASE64 + "";
    assert IndexOf("", BASE64).None?;
    assert WithoutNewlines("") == "" && IsBase64("");
    DataUriExactly("", "");
    hide SplitDataUri;
  }

  // --- The fields of a record, in order ---------------------------------------------------------

  predicate IsExported(f: Field, opts: ExportOptions) {
    f.kind == "file" ==> opts.includeFiles && opts.filesAsBase64
  }

  /** The custom fields the options keep, in order. */
  function KeptFields(fields: seq<Field>, opts: ExportOptions): seq<Field> {
    if fields == [] then [] else
      var n := |fields| - 1;
      KeptFields(fields[..n], opts) + if IsExported(fields[n], opts) then [fields[n]] else []
  }

  function OutName(f: Field): string {
    if f.kind == "file" && f.filename != "" then f.filename else f.name
  }

  function OutMime(f: Field): string {
    if f.mimeType == "" then "application/octet-stream" else f.mimeType
  }

  /** The value survives: a file as base64 with a type without the separator, a masked value
    that is no data URI, any plain value. */
  predicate Survives(f: Field) {
    if f.kind == "file" then IsBase64(f.value) && IndexOf(OutMime(f), BASE64).None?
    else IsPlainKind(if f.kind == "" then "text" else f.kind) || SplitDataUri(f.value).None?
  }

  /** g is under the name f is exported with, and has its value exactly if that survives. */
  predicate ComesBackAs(f: Field, g: Field) {
    g.name == OutName(f) && (g.value == f.value <==> Survives(f))
  }

  lemma FieldComesBack(f: Field, opts: ExportOptions)
    requires IsExported(f, opts)
    ensures |CustomOut(f, opts)| == 1 && CustomOut(f, opts)[0].name == OutName(f)
    ensures ComesBackAs(f, CustomField(CustomOut(f, opts)[0]))
  {
    FieldReturnsExactly(CustomOut(f, opts)[0]);
    if f.kind == "file" {
      DataUriExactly(OutMime(f), f.value);
      OtherContentDiffers(OutMime(f), f.value);
    }
    hide SplitDataUri, IsBase64, IndexOf;
  }

  /** What is cut out of a file's data URI is the content or something longer. */
  lemma OtherContentDiffers(mime: string, content: string)
    ensures
      var uri := SplitDataUri(DATA + mime + BASE64 + content);
      uri.Some? && uri.value != DataUri(mime, content) ==> uri.value.content != content
  {
    hide IsBase64;
    var value, rest := DATA + mime + BASE64 + content, mime + BASE64 + content;
    IndexOfAppended(mime, content);
    Regroup(DATA, mime, BASE64 + content);
    Regroup(DATA + mime, BASE64, content);
    Regroup(mime, BASE64, content);
    assert value[|DATA|..] == rest;
    if IndexOf(mime, BASE64).Some? {
      var i := IndexOf(rest, BASE64).value;
      assert |rest[i + |BASE64|..]| > |content|;
    }
  }

  lemma {:induction false} KeptFieldsOut(fields: seq<Field>, opts: ExportOptions)
    ensures |CustomsOut(fields, opts)| == |KeptFields(fields, opts)|
    ensures forall k :: 0 <= k < |KeptFields(fields, opts)| ==>
      && IsExported(KeptFields(fields, opts)[k], opts)
      && CustomOut(KeptFields(fields, opts)[k], opts) == [CustomsOut(fields, opts)[k]]
  {
    if fields != [] {
      var n := |fields| - 1;
      KeptFieldsOut(fields[..n], opts);
      if IsExported(fields[n], opts) {
        FieldComesBack(fields[n], opts);
      }
      hide ComesBackAs;
    }
  }

  predicate IsOrdinaryName(name: string) {
    name != "" && name != TAGS_FIELD
  }

  lemma CustomsComeBack(fields: seq<Field>, opts: ExportOptions)
    requires forall k :: 0 <= k < |KeptFields(fields, opts)| ==> IsOrdinaryName(OutName(KeptFields(fields, opts)[k]))
    ensures
      var kept, back := KeptFields(fields, opts), CustomsIn(CustomsOut(fields, opts));
      |back| == |kept| && forall k :: 0 <= k < |kept| ==> ComesBackAs(kept[k], back[k])
  {
    hide CustomsIn, CustomOut, CustomsOut, KeptFields, ComesBackAs, CustomField, OutName;
    var kept, out := KeptFields(fields, opts), CustomsOut(fields, opts);
    KeptFieldsOut(fields, opts);
    forall k | 0 <= k < |kept| ensures IsOrdinary(out[k]) && ComesBackAs(kept[k], CustomField(out[k])) {
      assert CustomOut(kept[k], opts) == [out[k]];
      FieldComesBack(kept[k], opts);
      assert IsOrdinaryName(OutName(kept[k]));
    }
    OrdinaryFieldsReturn(out);
  }

  lemma UnknownComeBack(unknown: seq<UnknownField>)
    requires forall k :: 0 <= k < |unknown| ==> IsOrdinaryName(unknown[k].key)
    ensures
      var back := CustomsIn(UnknownOut(unknown));
      |back| == |unknown| && forall k :: 0 <= k < |unknown| ==> IsUnknownBack(unknown[k], back[k])
  {
    hide CustomsIn, CustomField, SplitDataUri;
    var out := UnknownOut(unknown);
    OrdinaryFieldsReturn(out);
    forall k | 0 <= k < |unknown| ensures IsUnknownBack(unknown[k], CustomField(out[k])) {
      FieldReturnsExactly(out[k]);
    }
  }

  predicate IsUnknownBack(u: UnknownField, g: Field) {
    g.name == u.key && (g.value == u.value <==> SplitDataUri(u.value).None?)
  }

  /** The custom fields of a record come back first and its unknown keys last, in order, each
    under its name and with its value exactly if that survives. */
  lemma RecordFieldsComeBack(rec: Record, opts: ExportOptions)
    requires rec.name != ""
    requires forall k :: 0 <= k < |KeptFields(rec.customFields, opts)| ==>
      IsOrdinaryName(OutName(KeptFields(rec.customFields, opts)[k]))
    requires forall k :: 0 <= k < |rec.unknown| ==> IsOrdinaryName(rec.unknown[k].key)
    ensures ImportedOf(Exported(rec, opts)).Some?
    ensures
      var kept, back := KeptFields(rec.customFields, opts), ImportedOf(Exported(rec, opts)).value.customFields;
      var first := |back| - |rec.unknown|;
      && |back| == |kept| + |OutsideOf(rec, Keys(), Placed(rec.kind))| + |TypeOut(rec.kind)| + |rec.unknown|
      && (forall k :: 0 <= k < |kept| ==> ComesBackAs(kept[k], back[k]))
      && (forall k :: 0 <= k < |rec.unknown| ==> IsUnknownBack(rec.unknown[k], back[first + k]))
  {
    hide *;
    RecordReturns(rec, opts);
    CustomsComeBack(rec.customFields, opts);
    UnknownComeBack(rec.unknown);
    var a, d := CustomsIn(CustomsOut(rec.customFields, opts)), CustomsIn(UnknownOut(rec.unknown));
    var b, c := Returned(OutsideOf(rec, Keys(), Placed(rec.kind))), Returned(TypeOut(rec.kind));
    var back := a + b + c + d;
    assert ImportedOf(Exported(rec, opts)).value.customFields == back;
    assert forall k :: 0 <= k < |a| ==> back[k] == a[k];
    assert forall k :: 0 <= k < |d| ==> back[|back| - |d| + k] == d[k];
  }

  // --- Whole files ----------------------------------------------------------------------------

  method ExportAll(records: seq<Record>, opts: ExportOptions) returns (items: seq<Item>)
    ensures |items| == |records|
    ensures forall k :: 0 <= k < |records| ==> items[k] == Exported(records[k], opts)
  {
    hide Exported;
    items := [];
    for i := 0 to |records|
      invariant |items| == i
      invariant forall k :: 0 <= k < i ==> items[k] == Exported(records[k], opts)
    {
      var item := ExportRecord(records[i], opts);
      items := items + [item];
    }
  }

  function AllImported(items: seq<Item>): seq<Imported> {
    if items == [] then [] else
      var last := ImportedOf(items[|items| - 1]);
      AllImported(items[..|items| - 1]) + if last.Some? then [last.value] else []
  }

  /** Every item is imported or counted as skipped. */
  method ParseAll(items: seq<Item>) returns (records: seq<Imported>, skipped: nat)
    ensures records == AllImported(items) && |records| + skipped == |items|
  {
    hide ImportedOf;
    records, skipped := [], 0;
    for i := 0 to |items|
      invariant records == AllImported(items[..i]) && |records| + skipped == i
    {
      assert items[..i + 1][..i] == items[..i];
      var rec := ImportItem(items[i]);
      if rec.None? {
        skipped := skipped + 1;
        continue;
      }
      records := records + [rec.value];
    }
    assert items[..|items|] == items;
  }

  /** Of an export of named records nothing is skipped, and the order stays. */
  lemma {:induction false} NamedRecordsAllReturn(records: seq<Record>, opts: ExportOptions, items: seq<Item>)
    requires |items| == |records|
    requires forall k :: 0 <= k < |records| ==> records[k].name != "" && items[k] == Exported(records[k], opts)
    ensures |AllImported(items)| == |records|
    ensures forall k :: 0 <= k < |records| ==> Some(AllImported(items)[k]) == ImportedOf(items[k])
  {
    hide Exported, ImportedOf;
    if records != [] {
      var n := |records| - 1;
      NamedRecordsAllReturn(records[..n], opts, items[..n]);
      NamedRecordReturns(records[n], opts);
    }
  }

  lemma NamedRecordReturns(rec: Record, opts: ExportOptions)
    requires rec.name != ""
    ensures ImportedOf(Exported(rec, opts)).Some?
  {
    RecordReturns(rec, opts);
    hide *;
  }
}
