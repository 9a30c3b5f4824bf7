/** The reader of the sync response: encrypted records pass through verbatim. */
module SyncParser {
  import opened Wrappers
  import opened Json
  import opened CipherItem

  datatype LoginData = LoginData(username: string, password: string, totp: string, uris: seq<string>)

  const NO_LOGIN := LoginData("", "", "", [])

  datatype Field = Field(name: string, value: string, kind: int)

  datatype Cipher = Cipher(
    id: string,
    kind: CipherType,
    folderId: string,
    organizationId: string,
    favorite: bool,
    key: string,
    name: string,
    notes: string,
    login: LoginData,
    fields: seq<Field>,
    cardFields: seq<Field>,
    identityFields: seq<Field>,
    raw: Object)

  datatype Organization = Organization(id: string, name: string, key: string)
  datatype Folder = Folder(id: string, name: string)

  datatype SyncData = SyncData(
    profileKey: string,
    profilePrivateKey: string,
    organizations: seq<Organization>,
    ciphers: seq<Cipher>,
    folders: seq<Folder>)

  const NO_DATA := SyncData("", "", [], [], [])

  const CARD_KEYS := ["cardholderName", "brand", "number", "expMonth", "expYear", "code"]
  const IDENTITY_KEYS := ["title", "firstName", "middleName", "lastName",
                          "address1", "address2", "address3", "city",
                          "state", "postalCode", "country", "company",
                          "email", "phone", "ssn", "username",
                          "passportNumber", "licenseNumber"]

  function KindOf(n: int): Option<CipherType> {
    if n == 1 then Some(Login) else if n == 2 then Some(SecureNote)
    else if n == 3 then Some(Card) else if n == 4 then Some(Identity) else None
  }

  // ----- one cipher -----

  /** The URIs that are present, in order. */
  function UriList(items: seq<Json>): seq<string> {
    if items == [] then []
    else
      var uri := TextOf(AsObject(items[0]), "uri");
      (if uri == "" then [] else [uri]) + UriList(items[1..])
  }

  /** The parts of a card or identity that are present, under their key. */
  function PartList(o: Object, keys: seq<string>): seq<Field> {
    if keys == [] then []
    else
      var value := TextOf(o, keys[0]);
      (if value == "" then [] else [Field(keys[0], value, 0)]) + PartList(o, keys[1..])
  }

  function CustomField(j: Json): Field {
    var o := AsObject(j);
    Field(TextOf(o, "name"), TextOf(o, "value"), AsInt(ValueOf(o, "type")))
  }

  function FieldList(items: seq<Json>): seq<Field> {
    if items == [] then []
    else
      var f := CustomField(items[0]);
      (if f.name == "" && f.value == "" then [] else [f]) + FieldList(items[1..])
  }

  function LoginOf(j: Json): LoginData {
    if !j.Obj? then NO_LOGIN
    else LoginData(TextOf(j.fields, "username"), TextOf(j.fields, "password"), TextOf(j.fields, "totp"),
                   UriList(AsArray(ValueOf(j.fields, "uris"))))
  }

  function ParsedCipher(o: Object): Option<Cipher> {
    var id := AsString(ValueOf(o, "id"));
    var kind := KindOf(AsInt(ValueOf(o, "type")));
    if id == "" || kind.None? || TextOf(o, "name") == "" then None
    else Some(Cipher(
      id, kind.value,
      TextOf(o, "folderId"), TextOf(o, "organizationId"), AsBool(ValueOf(o, "favorite")),
      TextOf(o, "key"), TextOf(o, "name"), TextOf(o, "notes"),
      if kind.value.Login? then LoginOf(ValueOf(o, "login")) else NO_LOGIN,
      FieldList(AsArray(ValueOf(o, "fields"))),
      if kind.value.Card? then PartList(AsObject(ValueOf(o, "card")), CARD_KEYS) else [],
      if kind.value.Identity? then PartList(AsObject(ValueOf(o, "identity")), IDENTITY_KEYS) else [],
      o))
  }

  /** appendField for each key in turn. */
  method ReadParts(o: Object, keys: seq<string>) returns (out: seq<Field>)
    ensures out == PartList(o, keys)
  {
    hide TextOf, PartList;
    out := [];
    var i := 0;
    assert keys[0..] == keys && [] + PartList(o, keys) == PartList(o, keys);
    while i < |keys|
      invariant 0 <= i <= |keys|
      invariant PartList(o, keys) == out + PartList(o, keys[i..])
    {
      var value := TextOf(o, keys[i]);
      PartStep(o, keys[i..]);
      assert keys[i..][1..] == keys[i + 1..];
      if value != "" {
        out := out + [Field(keys[i], value, 0)];
      }
      i := i + 1;
    }
    PartEnd(o, keys[i..]);
    assert out + [] == out;
  }

  lemma PartEnd(o: Object, keys: seq<string>)
    ensures keys == [] ==> PartList(o, keys) == []
  {
    hide TextOf;
  }

  lemma PartStep(o: Object, keys: seq<string>)
    requires keys != []
    ensures TextOf(o, keys[0]) == "" ==> PartList(o, keys) == PartList(o, keys[1..])
    ensures TextOf(o, keys[0]) != "" ==>
              PartList(o, keys) == [Field(keys[0], TextOf(o, keys[0]), 0)] + PartList(o, keys[1..])
  {
  }

  method ReadUris(items: seq<Json>) returns (uris: seq<string>)
    ensures uris == UriList(items)
  {
    hide TextOf, UriList;
    uris := [];
    var i := 0;
    assert items[0..] == items && [] + UriList(items) == UriList(items);
    while i < |items|
      invariant 0 <= i <= |items|
      invariant UriList(items) == uris + UriList(items[i..])
    {
      var uri := TextOf(AsObject(items[i]), "uri");
      UriStep(items[i..]);
      assert items[i..][1..] == items[i + 1..];
      if uri != "" {
        uris := uris + [uri];
      }
      i := i + 1;
    }
    UriEnd(items[i..]);
    assert uris + [] == uris;
  }

  lemma UriStep(items: seq<Json>)
    requires items != []
    ensures var uri := TextOf(AsObject(items[0]), "uri");
            UriList(items) == (if uri == "" then [] else [uri]) + UriList(items[1..])
  {
    hide TextOf;
  }

  lemma UriEnd(items: seq<Json>)
    ensures items == [] ==> UriList(items) == []
  {
    hide TextOf;
  }

  method ReadFields(items: seq<Json>) returns (out: seq<Field>)
    ensures out == FieldList(items)
  {
    hide CustomField, FieldList;
    out := [];
    var i := 0;
    assert items[0..] == items && [] + FieldList(items) == FieldList(items);
    while i < |items|
      invariant 0 <= i <= |items|
      invariant FieldList(items) == out + FieldList(items[i..])
    {
      var field := CustomField(items[i]);
      FieldStep(items[i..]);
      assert items[i..][1..] == items[i + 1..];
      if field.name != "" || field.value != "" {
        out := out + [field];
      }
      i := i + 1;
    }
    FieldEnd(items[i..]);
    assert out + [] == out;
  }

  lemma FieldStep(items: seq<Json>)
    requires items != []
    ensures var f := CustomField(items[0]);
            FieldList(items) == (if f.name == "" && f.value == "" then [] else [f]) + FieldList(items[1..])
  {
    hide CustomField;
  }

  lemma FieldEnd(items: seq<Json>)
    ensures items == [] ==> FieldList(items) == []
  {
    hide CustomField;
  }

  method ParseCipher(o: Object) returns (r: Option<Cipher>)
    ensures r == ParsedCipher(o)
  {
    var id := AsString(ValueOf(o, "id"));
    var n := AsInt(ValueOf(o, "type"));
    if id == "" || n < 1 || n > 4 {
      return None;
    }
    var kind := KindOf(n).value;
    var name := TextOf(o, "name");
    if name == "" {
      return None;
    }
    var login := NO_LOGIN;
    var loginValue := ValueOf(o, "login");
    if kind.Login? && loginValue.Obj? {
      var uris := ValueOf(loginValue.fields, "uris");
      var list: seq<string> := [];
      if uris.Arr? {
        list := ReadUris(uris.items);
      }
      login := LoginData(TextOf(loginValue.fields, "username"), TextOf(loginValue.fields, "password"),
                         TextOf(loginValue.fields, "totp"), list);
    }
    var cardFields: seq<Field> := [];
    if kind.Card? {
      cardFields := ReadParts(AsObject(ValueOf(o, "card")), CARD_KEYS);
    }
    var identityFields: seq<Field> := [];
    if kind.Identity? {
      identityFields := ReadParts(AsObject(ValueOf(o, "identity")), IDENTITY_KEYS);
    }
    var fields := ReadFields(AsArray(ValueOf(o, "fields")));
    r := Some(Cipher(id, kind, TextOf(o, "folderId"), TextOf(o, "organizationId"), AsBool(ValueOf(o, "favorite")),
                     TextOf(o, "key"), name, TextOf(o, "notes"), login, fields, cardFields, identityFields, o));
  }

  // ----- the whole response -----

  /** A soft-deleted entry: deletedDate is a non-empty string. */
  predicate InTrash(j: Json) {
    j.Obj? && TextOf(j.fields, "deletedDate") != ""
  }

  function Kept(j: Json): Option<Cipher> {
    if j.Obj? && !InTrash(j) then ParsedCipher(j.fields) else None
  }

  function KeptCiphers(items: seq<Json>): seq<Cipher> {
    if items == [] then []
    else
      var n := |items| - 1;
      KeptCiphers(items[..n]) + (if Kept(items[n]).Some? then [Kept(items[n]).value] else [])
  }

  /** Entries that are neither kept nor in the trash. */
  function SkippedCount(items: seq<Json>): nat {
    if items == [] then 0
    else
      var n := |items| - 1;
      SkippedCount(items[..n]) + (if Kept(items[n]).None? && !InTrash(items[n]) then 1 else 0)
  }

  function TrashCount(items: seq<Json>): nat {
    if items == [] then 0
    else
      var n := |items| - 1;
      TrashCount(items[..n]) + (if InTrash(items[n]) then 1 else 0)
  }

  function OrganizationList(items: seq<Json>): seq<Organization> {
    if items == [] then []
    else
      var n := |items| - 1;
      var o := AsObject(items[n]);
      var org := Organization(TextOf(o, "id"), TextOf(o, "name"), TextOf(o, "key"));
      OrganizationList(items[..n]) + (if org.id != "" && org.key != "" then [org] else [])
  }

  function FolderList(items: seq<Json>): seq<Folder> {
    if items == [] then []
    else
      var n := |items| - 1;
      var o := AsObject(items[n]);
      var folder := Folder(TextOf(o, "id"), TextOf(o, "name"));
      FolderList(items[..n]) + (if folder.id != "" && folder.name != "" then [folder] else [])
  }

  /** parseSyncJson, without the count. None: not a JSON object. */
  function ParsedSync(doc: Option<Object>): Result<SyncData> {
    if doc.None? then Err("sync: invalid JSON")
    else
      var profile := ValueOf(doc.value, "profile");
      if !profile.Obj? then Err("sync: missing profile")
      else if TextOf(profile.fields, "key") == "" then Err("sync: profile has no protected key")
      else Ok(SyncData(
        TextOf(profile.fields, "key"), TextOf(profile.fields, "privateKey"),
        OrganizationList(AsArray(ValueOf(profile.fields, "organizations"))),
        KeptCiphers(AsArray(ValueOf(doc.value, "ciphers"))),
        FolderList(AsArray(ValueOf(doc.value, "folders")))))
  }

  method ReadCiphers(items: seq<Json>) returns (ciphers: seq<Cipher>, skipped: nat)
    ensures ciphers == KeptCiphers(items) && skipped == SkippedCount(items)
  {
    ciphers, skipped := [], 0;
    var i := 0;
    while i < |items|
      invariant 0 <= i <= |items|
      invariant ciphers == KeptCiphers(items[..i]) && skipped == SkippedCount(items[..i])
    {
      hide ParsedCipher;
      var entry := items[i];
      assert items[..i + 1][..i] == items[..i];
      i := i + 1;
      if !entry.Obj? {
        skipped := skipped + 1;
        continue;
      }
      var deleted := ValueOf(entry.fields, "deletedDate");
      if deleted.Str? && deleted.s != "" {
        continue;
      }
      var cipher := ParseCipher(entry.fields);
      if cipher.Some? {
        ciphers := ciphers + [cipher.value];
      } else {
        skipped := skipped + 1;
      }
    }
    assert items[..i] == items;
  }

  method ReadOrganizations(items: seq<Json>) returns (out: seq<Organization>)
    ensures out == OrganizationList(items)
  {
    out := [];
    var i := 0;
    while i < |items|
      invariant 0 <= i <= |items| && out == OrganizationList(items[..i])
    {
      assert items[..i + 1][..i] == items[..i];
      var o := AsObject(items[i]);
      var org := Organization(TextOf(o, "id"), TextOf(o, "name"), TextOf(o, "key"));
      if org.id != "" && org.key != "" {
        out := out + [org];
      }
      i := i + 1;
    }
    assert items[..i] == items;
  }

  method ReadFolders(items: seq<Json>) returns (out: seq<Folder>)
    ensures out == FolderList(items)
  {
    out := [];
    var i := 0;
    while i < |items|
      invariant 0 <= i <= |items| && out == FolderList(items[..i])
    {
      assert items[..i + 1][..i] == items[..i];
      var o := AsObject(items[i]);
      var folder := Folder(TextOf(o, "id"), TextOf(o, "name"));
      if folder.id != "" && folder.name != "" {
        out := out + [folder];
      }
      i := i + 1;
    }
    assert items[..i] == items;
  }

  method ParseSync(doc: Option<Object>) returns (r: Result<SyncData>, skipped: nat)
    ensures r == ParsedSync(doc)
    ensures r.Ok? ==> skipped == SkippedCount(AsArray(ValueOf(doc.value, "ciphers")))
  {
    skipped := 0;
    if doc.None? {
      return Err("sync: invalid JSON"), 0;
    }
    var profile := ValueOf(doc.value, "profile");
    if !profile.Obj? {
      return Err("sync: missing profile"), 0;
    }
    var profileKey := TextOf(profile.fields, "key");
    var profilePrivateKey := TextOf(profile.fields, "privateKey");
    if profileKey == "" {
      return Err("sync: profile has no protected key"), 0;
    }
    var organizations := ReadOrganizations(AsArray(ValueOf(profile.fields, "organizations")));
    var ciphers, n := ReadCiphers(AsArray(ValueOf(doc.value, "ciphers")));
    var folders := ReadFolders(AsArray(ValueOf(doc.value, "folders")));
    return Ok(SyncData(profileKey, profilePrivateKey, organizations, ciphers, folders)), n;
  }

  /** Every entry is kept, counted as skipped, or in the trash: exactly one of these. */
  lemma {:induction false} EveryEntryCounted(items: seq<Json>)
    ensures |KeptCiphers(items)| + SkippedCount(items) + TrashCount(items) == |items|
  {
    if items != [] {
      EveryEntryCounted(items[..|items| - 1]);
    }
  }

  /** A cipher is what its own raw object parses to. */
  ghost predicate Faithful(cipher: Cipher) {
    ParsedCipher(cipher.raw) == Some(cipher)
  }

  lemma {:induction false} KeptAreFaithful(items: seq<Json>)
    ensures forall x :: x in KeptCiphers(items) ==> Faithful(x)
  {
    if items != [] {
      KeptAreFaithful(items[..|items| - 1]);
    }
  }

  lemma ParsedAreFaithful(doc: Option<Object>)
    requires ParsedSync(doc).Ok?
    ensures forall x :: x in ParsedSync(doc).value.ciphers ==> Faithful(x)
    ensures ParsedSync(doc).value.profileKey != ""
  {
    KeptAreFaithful(AsArray(ValueOf(doc.value, "ciphers")));
  }

  // ----- key spelling -----

  /** A key as the readers ask for it: it starts with a small letter. */
  predicate IsCamel(k: string) {
    k != "" && Upper(k[0]) != k[0]
  }

  /** The same values under every camelCase key, at any depth, however the keys are
      spelled in either. */
  ghost predicate ReadAlike(j: Json, k: Json)
    decreases j
  {
    if j.Obj? then
      k.Obj? && forall key: string ::
        IsCamel(key) ==>
          var a, b := ValueOf(j.fields, key), ValueOf(k.fields, key);
          if a == Undefined then b == Undefined else ReadAlike(a, b)
    else if j.Arr? then
      k.Arr? && |j.items| == |k.items| && forall i :: 0 <= i < |j.items| ==> ReadAlike(j.items[i], k.items[i])
    else j == k
  }

  lemma AlikeUnder(o: Object, p: Object, key: string)
    requires ReadAlike(Obj(o), Obj(p)) && IsCamel(key)
    ensures ReadAlike(ValueOf(o, key), ValueOf(p, key))
  {
  }

  lemma TextAlike(o: Object, p: Object, key: string)
    requires ReadAlike(Obj(o), Obj(p)) && IsCamel(key)
    ensures TextOf(o, key) == TextOf(p, key)
    ensures AsBool(ValueOf(o, key)) == AsBool(ValueOf(p, key)) && AsInt(ValueOf(o, key)) == AsInt(ValueOf(p, key))
  {
    hide ValueOf;
    AlikeUnder(o, p, key);
  }

  ghost predicate AllAlike(a: seq<Json>, b: seq<Json>) {
    |a| == |b| && forall i :: 0 <= i < |a| ==> ReadAlike(a[i], b[i])
  }

  lemma ArraysAlike(o: Object, p: Object, key: string)
    requires ReadAlike(Obj(o), Obj(p)) && IsCamel(key)
    ensures AllAlike(AsArray(ValueOf(o, key)), AsArray(ValueOf(p, key)))
  {
    hide ValueOf;
    AlikeUnder(o, p, key);
  }

  lemma EmptyAlike()
    ensures ReadAlike(Obj(map[]), Obj(map[]))
  {
  }

  lemma ObjectsAlike(j: Json, k: Json)
    requires ReadAlike(j, k)
    ensures ReadAlike(Obj(AsObject(j)), Obj(AsObject(k))) && (j.Obj? <==> k.Obj?)
  {
    EmptyAlike();
  }

  lemma {:induction false} UrisAlike(a: seq<Json>, b: seq<Json>)
    requires AllAlike(a, b)
    ensures UriList(a) == UriList(b)
  {
    hide ReadAlike, TextOf, AsObject;
    if a != [] {
      ObjectsAlike(a[0], b[0]);
      assert IsCamel("uri");
      TextAlike(AsObject(a[0]), AsObject(b[0]), "uri");
      UrisAlike(a[1..], b[1..]);
    }
  }

  lemma CustomAlike(j: Json, k: Json)
    requires ReadAlike(j, k)
    ensures CustomField(j) == CustomField(k)
  {
    hide ReadAlike, ValueOf;
    ObjectsAlike(j, k);
    assert IsCamel("name") && IsCamel("value") && IsCamel("type");
    TextAlike(AsObject(j), AsObject(k), "name");
    TextAlike(AsObject(j), AsObject(k), "value");
    TextAlike(AsObject(j), AsObject(k), "type");
  }

  lemma {:induction false} FieldsAlike(a: seq<Json>, b: seq<Json>)
    requires AllAlike(a, b)
    ensures FieldList(a) == FieldList(b)
  {
    hide ReadAlike, CustomField;
    if a != [] {
      CustomAlike(a[0], b[0]);
      FieldsAlike(a[1..], b[1..]);
    }
  }

  lemma {:induction false} PartsAlike(o: Object, p: Object, keys: seq<string>)
    requires ReadAlike(Obj(o), Obj(p)) && forall k :: k in keys ==> IsCamel(k)
    ensures PartList(o, keys) == PartList(p, keys)
  {
    hide ReadAlike, TextOf;
    if keys != [] {
      TextAlike(o, p, keys[0]);
      PartsAlike(o, p, keys[1..]);
    }
  }

  lemma LoginAlike(j: Json, k: Json)
    requires ReadAlike(j, k)
    ensures LoginOf(j) == LoginOf(k)
  {
    hide ReadAlike, TextOf, ValueOf, UriList;
    ObjectsAlike(j, k);
    if j.Obj? {
      assert IsCamel("username") && IsCamel("password") && IsCamel("totp") && IsCamel("uris");
      TextAlike(j.fields, k.fields, "username");
      TextAlike(j.fields, k.fields, "password");
      TextAlike(j.fields, k.fields, "totp");
      ArraysAlike(j.fields, k.fields, "uris");
      UrisAlike(AsArray(ValueOf(j.fields, "uris")), AsArray(ValueOf(k.fields, "uris")));
    }
  }

  lemma CipherTextsAlike(o: Object, p: Object)
    requires ReadAlike(Obj(o), Obj(p))
    ensures TextOf(o, "id") == TextOf(p, "id") && AsInt(ValueOf(o, "type")) == AsInt(ValueOf(p, "type"))
    ensures TextOf(o, "name") == TextOf(p, "name") && TextOf(o, "notes") == TextOf(p, "notes")
    ensures TextOf(o, "folderId") == TextOf(p, "folderId") && TextOf(o, "key") == TextOf(p, "key")
    ensures TextOf(o, "organizationId") == TextOf(p, "organizationId")
    ensures AsBool(ValueOf(o, "favorite")) == AsBool(ValueOf(p, "favorite"))
  {
    hide ReadAlike, TextOf, ValueOf;
    assert IsCamel("id") && IsCamel("type") && IsCamel("name") && IsCamel("notes");
    assert IsCamel("folderId") && IsCamel("key") && IsCamel("organizationId") && IsCamel("favorite");
    TextAlike(o, p, "id");
    TextAlike(o, p, "type");
    TextAlike(o, p, "name");
    TextAlike(o, p, "notes");
    TextAlike(o, p, "folderId");
    TextAlike(o, p, "key");
    TextAlike(o, p, "organizationId");
    TextAlike(o, p, "favorite");
  }

  lemma CipherPartsAlike(o: Object, p: Object)
    requires ReadAlike(Obj(o), Obj(p))
    ensures LoginOf(ValueOf(o, "login")) == LoginOf(ValueOf(p, "login"))
    ensures FieldList(AsArray(ValueOf(o, "fields"))) == FieldList(AsArray(ValueOf(p, "fields")))
    ensures PartList(AsObject(ValueOf(o, "card")), CARD_KEYS) == PartList(AsObject(ValueOf(p, "card")), CARD_KEYS)
    ensures PartList(AsObject(ValueOf(o, "identity")), IDENTITY_KEYS)
            == PartList(AsObject(ValueOf(p, "identity")), IDENTITY_KEYS)
  {
    hide ReadAlike, ValueOf, LoginOf, FieldList, PartList, AsArray, AsObject;
    assert IsCamel("login") && IsCamel("fields") && IsCamel("card") && IsCamel("identity");
    AlikeUnder(o, p, "login");
    LoginAlike(ValueOf(o, "login"), ValueOf(p, "login"));
    ArraysAlike(o, p, "fields");
    FieldsAlike(AsArray(ValueOf(o, "fields")), AsArray(ValueOf(p, "fields")));
    PartKeysAreCamel();
    AlikeUnder(o, p, "card");
    ObjectsAlike(ValueOf(o, "card"), ValueOf(p, "card"));
    PartsAlike(AsObject(ValueOf(o, "card")), AsObject(ValueOf(p, "card")), CARD_KEYS);
    AlikeUnder(o, p, "identity");
    ObjectsAlike(ValueOf(o, "identity"), ValueOf(p, "identity"));
    PartsAlike(AsObject(ValueOf(o, "identity")), AsObject(ValueOf(p, "identity")), IDENTITY_KEYS);
  }

  lemma PartKeysAreCamel()
    ensures forall k :: k in CARD_KEYS ==> IsCamel(k)
    ensures forall k :: k in IDENTITY_KEYS ==> IsCamel(k)
  {
  }

  lemma CipherAlike(o: Object, p: Object)
    requires ReadAlike(Obj(o), Obj(p))
    ensures ParsedCipher(o).Some? <==> ParsedCipher(p).Some?
    ensures ParsedCipher(o).Some? ==> ParsedCipher(p).value == ParsedCipher(o).value.(raw := p)
  {
    hide ReadAlike, ValueOf, LoginOf, FieldList, PartList;
    CipherTextsAlike(o, p);
    CipherPartsAlike(o, p);
  }

  /** Equal apart from the objects they were read from. */
  ghost predicate SameCiphers(a: seq<Cipher>, b: seq<Cipher>) {
    |a| == |b| && forall i :: 0 <= i < |a| ==> b[i] == a[i].(raw := b[i].raw)
  }

  lemma KeptAlike(j: Json, k: Json)
    requires ReadAlike(j, k)
    ensures Kept(j).Some? <==> Kept(k).Some?
    ensures Kept(j).Some? ==> Kept(k).value == Kept(j).value.(raw := Kept(k).value.raw)
  {
    hide ReadAlike, TextOf, ParsedCipher;
    ObjectsAlike(j, k);
    if j.Obj? {
      assert IsCamel("deletedDate");
      TextAlike(j.fields, k.fields, "deletedDate");
      CipherAlike(j.fields, k.fields);
    }
  }

  lemma {:induction false} CiphersAlike(a: seq<Json>, b: seq<Json>)
    requires AllAlike(a, b)
    ensures SameCiphers(KeptCiphers(a), KeptCiphers(b))
  {
    hide ReadAlike, Kept;
    if a != [] {
      var n := |a| - 1;
      CiphersAlike(a[..n], b[..n]);
      KeptAlike(a[n], b[n]);
    }
  }

  lemma {:induction false} OrganizationsAlike(a: seq<Json>, b: seq<Json>)
    requires AllAlike(a, b)
    ensures OrganizationList(a) == OrganizationList(b)
  {
    hide ReadAlike, TextOf, AsObject;
    if a != [] {
      var n := |a| - 1;
      OrganizationsAlike(a[..n], b[..n]);
      ObjectsAlike(a[n], b[n]);
      assert IsCamel("id") && IsCamel("name") && IsCamel("key");
      TextAlike(AsObject(a[n]), AsObject(b[n]), "id");
      TextAlike(AsObject(a[n]), AsObject(b[n]), "name");
      TextAlike(AsObject(a[n]), AsObject(b[n]), "key");
    }
  }

  lemma {:induction false} FoldersAlike(a: seq<Json>, b: seq<Json>)
    requires AllAlike(a, b)
    ensures FolderList(a) == FolderList(b)
  {
    hide ReadAlike, TextOf, AsObject;
    if a != [] {
      var n := |a| - 1;
      FoldersAlike(a[..n], b[..n]);
      ObjectsAlike(a[n], b[n]);
      assert IsCamel("id") && IsCamel("name");
      TextAlike(AsObject(a[n]), AsObject(b[n]), "id");
      TextAlike(AsObject(a[n]), AsObject(b[n]), "name");
    }
  }

  /** Equal apart from the objects the ciphers were read from. */
  ghost predicate SameSync(a: Result<SyncData>, b: Result<SyncData>) {
    match a
    case Err(_) => b == a
    case Ok(x) => b.Ok? && b.value == x.(ciphers := b.value.ciphers) && SameCiphers(x.ciphers, b.value.ciphers)
  }

  /** The whole response, with its nested objects in whatever mix of spellings: alike
      values read alike, errors included. */
  lemma SpellingDoesNotMatter(o: Object, p: Object)
    requires ReadAlike(Obj(o), Obj(p))
    ensures SameSync(ParsedSync(Some(o)), ParsedSync(Some(p)))
  {
    hide ReadAlike, ValueOf, TextOf, AsArray, SameCiphers, KeptCiphers, OrganizationList, FolderList;
    assert IsCamel("profile") && IsCamel("key") && IsCamel("privateKey");
    assert IsCamel("organizations") && IsCamel("ciphers") && IsCamel("folders");
    AlikeUnder(o, p, "profile");
    var j, k := ValueOf(o, "profile"), ValueOf(p, "profile");
    ObjectsAlike(j, k);
    ArraysAlike(o, p, "ciphers");
    CiphersAlike(AsArray(ValueOf(o, "ciphers")), AsArray(ValueOf(p, "ciphers")));
    ArraysAlike(o, p, "folders");
    FoldersAlike(AsArray(ValueOf(o, "folders")), AsArray(ValueOf(p, "folders")));
    if j.Obj? {
      TextAlike(j.fields, k.fields, "key");
      TextAlike(j.fields, k.fields, "privateKey");
      ArraysAlike(j.fields, k.fields, "organizations");
      OrganizationsAlike(AsArray(ValueOf(j.fields, "organizations")), AsArray(ValueOf(k.fields, "organizations")));
    }
  }

  lemma {:induction false} AlikeItself(j: Json)
    ensures ReadAlike(j, j)
    decreases j
  {
    if j.Obj? {
      forall key: string | IsCamel(key) && ValueOf(j.fields, key) != Undefined
        ensures ReadAlike(ValueOf(j.fields, key), ValueOf(j.fields, key))
      {
        AlikeItself(ValueOf(j.fields, key));
      }
    } else if j.Arr? {
      forall i | 0 <= i < |j.items| ensures ReadAlike(j.items[i], j.items[i]) {
        AlikeItself(j.items[i]);
      }
    }
  }

  /** Capitalising one key gives an alike object. */
  lemma OneKeyCapitalised(o: Object, k: string)
    requires IsCamel(k) && k in o && Pascal(k) !in o
    ensures ReadAlike(Obj(o), Obj((o - {k})[Pascal(k) := o[k]]))
  {
    var p := (o - {k})[Pascal(k) := o[k]];
    forall key: string | IsCamel(key) ensures ValueOf(o, key) == ValueOf(p, key) {
      if key != k {
        PascalsDiffer(key, k);
        CamelIsNotPascal(key, k);
      } else {
        CamelIsNotPascal(k, k);
      }
    }
    forall key: string | IsCamel(key) ensures ReadAlike(ValueOf(o, key), ValueOf(p, key)) {
      AlikeItself(ValueOf(o, key));
    }
  }

  lemma PascalsDiffer(a: string, b: string)
    requires IsCamel(a) && IsCamel(b) && a != b
    ensures Pascal(a) != Pascal(b)
  {
    assert a == [a[0]] + a[1..] && b == [b[0]] + b[1..];
    assert Pascal(a)[0] == Upper(a[0]) && Pascal(b)[0] == Upper(b[0]);
    assert Pascal(a)[1..] == a[1..] && Pascal(b)[1..] == b[1..];
  }

  lemma CamelIsNotPascal(a: string, b: string)
    requires IsCamel(a) && IsCamel(b)
    ensures a != Pascal(b)
  {
    assert Pascal(b)[0] == Upper(b[0]);
  }
}
