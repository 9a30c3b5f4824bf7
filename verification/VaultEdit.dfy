/** The request bodies for creating and updating an item: a patch of the item's
    original JSON that must be the inverse of the reader on the edited fields and
    change nothing else. */
module VaultEdit {
  import opened Words
  import opened Wrappers
  import opened Json
  import opened CipherItem
  import opened SyncParser
  import opened CryptoSuite
  import opened VaultSpec
  import opened VaultRuns
  import EncString

  /** The entered values; an absent key of the QVariantMap reads as "" or false. */
  datatype Entered = Entered(
    name: string, notes: string, folderId: string, favorite: bool,
    username: string, password: string, totp: string, uri: string)

  /** The random iv of each encryption. */
  datatype Ivs = Ivs(name: bytes, notes: bytes, username: bytes, password: bytes, totp: bytes, uri: bytes)

  predicate Fresh16(v: Ivs) {
    |v.name| == 16 && |v.notes| == 16 && |v.username| == 16 && |v.password| == 16 && |v.totp| == 16 && |v.uri| == 16
  }

  /** encryptField: nothing for an empty plaintext. */
  ghost function EncryptedField(c: Suite, plain: string, key: Key, iv: bytes): Result<string> {
    if plain == "" then Ok("") else EncString.Sealed(c, c.toUtf8(plain), key, iv)
  }

  function OrNull(text: string): Json {
    if text == "" then Null else Str(text)
  }

  /** What a stored field means to the user: nothing stored is the empty text. */
  ghost function ReadField(c: Suite, text: string, key: Key): Result<string> {
    if text == "" then Ok("") else Reveal(c, text, key)
  }

  // ----- the patches, as maps -----

  /** The first URI entry with the new URI; `match` is defaulted if absent. */
  function PatchedEntry(entry: Object, uri: string): Object {
    var e := entry["uri" := Str(uri)];
    if "match" in e then e else e["match" := Null]
  }

  function UriPatch(existing: Object, entered: string, uri: string): Object {
    var uris := AsArray(ValueOf(existing, "uris"));
    if entered != "" then
      if uris == [] then map["uris" := Arr([Obj(PatchedEntry(map[], uri))])]
      else map["uris" := Arr([Obj(PatchedEntry(AsObject(uris[0]), uri))] + uris[1..])]
    else if |uris| <= 1 then map["uris" := Null]
    else map[]
  }

  ghost function PatchedLogin(c: Suite, f: Entered, existing: Object, key: Key, v: Ivs): Result<Object> {
    var username :- EncryptedField(c, f.username, key, v.username);
    var password :- EncryptedField(c, f.password, key, v.password);
    var totp :- EncryptedField(c, f.totp, key, v.totp);
    var uri :- EncryptedField(c, f.uri, key, v.uri);
    Ok(existing
       + map["username" := OrNull(username), "password" := OrNull(password), "totp" := OrNull(totp)]
       + UriPatch(existing, f.uri, uri))
  }

  const RESPONSE_ONLY := ["object", "id", "revisionDate", "creationDate", "deletedDate",
                          "edit", "viewPassword", "permissions", "collectionIds",
                          "organizationUseTotp"]

  /** Each of them in either spelling. */
  function Dropped(): set<string> {
    FirstDropped() + MiddleDropped() + LastDropped()
  }

  function FirstDropped(): set<string> {
    {} + {"object", "Object"} + {"id", "Id"} + {"revisionDate", "RevisionDate"} + {"creationDate", "CreationDate"}
  }

  function MiddleDropped(): set<string> {
    {"deletedDate", "DeletedDate"} + {"edit", "Edit"} + {"viewPassword", "ViewPassword"}
  }

  function LastDropped(): set<string> {
    {"permissions", "Permissions"} + {"collectionIds", "CollectionIds"}
    + {"organizationUseTotp", "OrganizationUseTotp"}
  }

  /** The fields every kind of item has. */
  ghost function CommonPatch(c: Suite, f: Entered, key: Key, v: Ivs): Result<Object> {
    var name :- EncryptedField(c, f.name, key, v.name);
    var notes :- EncryptedField(c, f.notes, key, v.notes);
    Ok(map["name" := Str(name), "notes" := OrNull(notes), "favorite" := Bool(f.favorite),
           "folderId" := OrNull(f.folderId)])
  }

  function RevisionPatch(raw: Object): Object {
    var revision := TextOf(raw, "revisionDate");
    if revision == "" then map[] else map["lastKnownRevisionDate" := Str(revision)]
  }

  ghost function UpdateBody(c: Suite, cipher: Cipher, f: Entered, key: Key, v: Ivs): Result<Object> {
    var raw := cipher.raw;
    var common :- CommonPatch(c, f, key, v);
    var body := (raw - Dropped()) + common;
    if cipher.kind.Login? then
      var login :- PatchedLogin(c, f, AsObject(ValueOf(body, "login")), key, v);
      Ok((body - {"Login"}) + map["login" := Obj(login)] + RevisionPatch(raw))
    else Ok(body + RevisionPatch(raw))
  }

  ghost function CreateBody(c: Suite, kind: CipherType, f: Entered, key: Key, v: Ivs): Result<Object> {
    var common :- CommonPatch(c, f, key, v);
    var body := common + map["type" := Num(if kind.Login? then 1.0 else 2.0), "organizationId" := Null];
    match kind
    case Login =>
      var login :- PatchedLogin(c, f, map[], key, v);
      Ok(body + map["login" := Obj(login)])
    case SecureNote => Ok(body + map["secureNote" := Obj(map["type" := Num(0.0)])])
    case _ => Err("unsupported item type")
  }

  function FindCipher(ciphers: seq<Cipher>, id: string): (r: Option<Cipher>)
    ensures r.Some? ==> r.value in ciphers && r.value.id == id
    ensures r.None? ==> forall x :: x in ciphers ==> x.id != id
  {
    if ciphers == [] then None
    else if ciphers[0].id == id then Some(ciphers[0])
    else FindCipher(ciphers[1..], id)
  }

  /** buildUpdateBody. */
  ghost function BuiltUpdate(c: Suite, s: State, itemId: string, f: Entered, v: Ivs): Result<Object> {
    if s.locked then Err("vault is locked")
    else if FindCipher(s.data.ciphers, itemId).None? then Err("item not found")
    else if f.name == "" then Err("name is required")
    else
      var cipher := FindCipher(s.data.ciphers, itemId).value;
      var key :- CipherKey(c, cipher, s.userKey, s.orgKeys);
      UpdateBody(c, cipher, f, key, v)
  }

  /** buildCreateBody. */
  ghost function BuiltCreate(c: Suite, s: State, kind: CipherType, f: Entered, v: Ivs): Result<Object> {
    if s.locked then Err("vault is locked")
    else if f.name == "" then Err("name is required")
    else CreateBody(c, kind, f, s.userKey, v)
  }

  // ----- fields through the reader -----

  /** An encrypted field, read back. */
  lemma FieldRoundTrip(c: Suite, plain: string, key: Key, iv: bytes)
    requires Lawful(c) && Sized(key) && |iv| == 16
    ensures EncryptedField(c, plain, key, iv).Ok?
    ensures var text := EncryptedField(c, plain, key, iv).value;
            (text == "" <==> plain == "") && ReadField(c, text, key) == Ok(plain)
  {
    hide EncString.Sealed, EncString.Opened;
    if plain != "" {
      EncString.OpenSealed(c, c.toUtf8(plain), key, iv);
    }
  }

  /** The primary URI that a login shows. */
  ghost function PrimaryUri(c: Suite, login: LoginData, key: Key): Result<string> {
    if login.uris == [] then Ok("") else Reveal(c, login.uris[0], key)
  }

  /** The single entry the editor could not clear: blank URI, two or more entries
      stored, and one of them with a URI. */
  predicate KeepsOldUri(f: Entered, existing: Object) {
    f.uri == "" && |AsArray(ValueOf(existing, "uris"))| >= 2 && UriList(AsArray(ValueOf(existing, "uris"))) != []
  }

  lemma LoginKeys()
    ensures "username" != "password" && "username" != "totp" && "password" != "totp"
    ensures "username" != "uris" && "password" != "uris" && "totp" != "uris"
    ensures "uri" != "match" && Pascal("uris") == "Uris"
    ensures "Uris" != "username" && "Uris" != "password" && "Uris" != "totp" && "Uris" != "uris"
  {
    assert "username"[0] == 'u' && "password"[0] == 'p' && "totp"[0] == 't';
    assert |"uris"| == 4 && |"totp"| == 4 && "uris"[0] == 'u' && "Uris"[0] == 'U';
  }

  /** Reading a patched login gives the entered values; the primary URI too, except
      exactly when the old URIs had to stay, which are then unchanged. */
  lemma LoginRoundTrip(c: Suite, f: Entered, existing: Object, key: Key, v: Ivs)
    requires Lawful(c) && Sized(key) && Fresh16(v)
    ensures PatchedLogin(c, f, existing, key, v).Ok?
    ensures var login := LoginOf(Obj(PatchedLogin(c, f, existing, key, v).value));
            && ReadField(c, login.username, key) == Ok(f.username)
            && ReadField(c, login.password, key) == Ok(f.password)
            && ReadField(c, login.totp, key) == Ok(f.totp)
            && (login.username == "" <==> f.username == "") && (login.password == "" <==> f.password == "")
            && (login.totp == "" <==> f.totp == "") && EncryptedField(c, f.totp, key, v.totp) == Ok(login.totp)
            && (!KeepsOldUri(f, existing) ==> PrimaryUri(c, login, key) == Ok(f.uri))
            && (KeepsOldUri(f, existing) ==>
                  login.uris == UriList(AsArray(ValueOf(existing, "uris"))) && f.uri == "" && login.uris != [])
  {
    hide ReadField, EncryptedField, Reveal, UriList, PatchedLogin, UriPatch, ValueOf, TextOf;
    FieldRoundTrip(c, f.username, key, v.username);
    FieldRoundTrip(c, f.password, key, v.password);
    FieldRoundTrip(c, f.totp, key, v.totp);
    FieldRoundTrip(c, f.uri, key, v.uri);
    var username, password := EncryptedField(c, f.username, key, v.username), EncryptedField(c, f.password, key, v.password);
    var totp, uri := EncryptedField(c, f.totp, key, v.totp), EncryptedField(c, f.uri, key, v.uri);
    PatchedIs(c, f, existing, key, v);
    PatchKeys(existing, f.uri, uri.value);
    LayerReads(existing, username.value, password.value, totp.value, UriPatch(existing, f.uri, uri.value));
    PatchedUris(c, f, existing, uri.value, key, PatchedLogin(c, f, existing, key, v).value);
  }

  /** The login object as layers over the existing one. */
  function LoginLayers(existing: Object, username: string, password: string, totp: string, uris: Object): Object {
    existing + map["username" := OrNull(username), "password" := OrNull(password), "totp" := OrNull(totp)] + uris
  }

  lemma PatchedIs(c: Suite, f: Entered, existing: Object, key: Key, v: Ivs)
    requires EncryptedField(c, f.username, key, v.username).Ok? && EncryptedField(c, f.password, key, v.password).Ok?
    requires EncryptedField(c, f.totp, key, v.totp).Ok? && EncryptedField(c, f.uri, key, v.uri).Ok?
    ensures PatchedLogin(c, f, existing, key, v)
            == Ok(LoginLayers(existing, EncryptedField(c, f.username, key, v.username).value,
                              EncryptedField(c, f.password, key, v.password).value,
                              EncryptedField(c, f.totp, key, v.totp).value,
                              UriPatch(existing, f.uri, EncryptedField(c, f.uri, key, v.uri).value)))
  {
    hide EncryptedField, UriPatch;
  }

  lemma PatchKeys(existing: Object, entered: string, uri: string)
    ensures forall k :: k in UriPatch(existing, entered, uri) ==> k == "uris"
  {
    hide PatchedEntry, ValueOf;
  }

  lemma LayerReads(existing: Object, username: string, password: string, totp: string, uris: Object)
    requires forall k :: k in uris ==> k == "uris"
    ensures var o := LoginLayers(existing, username, password, totp, uris);
            && TextOf(o, "username") == username && TextOf(o, "password") == password && TextOf(o, "totp") == totp
            && ValueOf(o, "uris") == ValueOf(existing + uris, "uris")
  {
    LoginKeys();
  }

  /** The exception is real: two stored entries and a blank entry show the old URI. */
  lemma BlankUriStays(c: Suite, f: Entered, stored: string, key: Key, iv: bytes, v: Ivs)
    requires Lawful(c) && Sized(key) && Fresh16(v) && |iv| == 16 && f.uri == ""
    ensures EncString.Sealed(c, c.toUtf8(stored), key, iv).Ok?
    ensures var entry := Obj(map["uri" := Str(EncString.Sealed(c, c.toUtf8(stored), key, iv).value)]);
            var login := PatchedLogin(c, f, map["uris" := Arr([entry, entry])], key, v);
            login.Ok? && PrimaryUri(c, LoginOf(Obj(login.value)), key) == Ok(stored)
  {
    hide EncString.Sealed, EncString.Opened, EncString.Parsed, PatchedLogin, LoginOf;
    EncString.OpenSealed(c, c.toUtf8(stored), key, iv);
    var text := EncString.Sealed(c, c.toUtf8(stored), key, iv).value;
    var entry := Obj(map["uri" := Str(text)]);
    var existing: Object := map["uris" := Arr([entry, entry])];
    TwoUris(text);
    LoginRoundTrip(c, f, existing, key, v);
  }

  lemma TwoUris(text: string)
    requires text != ""
    ensures var entry := Obj(map["uri" := Str(text)]);
            UriList(AsArray(ValueOf(map["uris" := Arr([entry, entry])], "uris"))) == [text, text]
  {
    var entry := Obj(map["uri" := Str(text)]);
    assert TextOf(entry.fields, "uri") == text;
    assert [entry, entry][1..] == [entry] && [entry][1..] == [];
    assert UriList([entry]) == [text] + UriList([]);
  }

  lemma PatchedUris(c: Suite, f: Entered, existing: Object, uri: string, key: Key, login: Object)
    requires uri == "" <==> f.uri == ""
    requires ReadField(c, uri, key) == Ok(f.uri)
    requires ValueOf(login, "uris") == ValueOf(existing + UriPatch(existing, f.uri, uri), "uris")
    ensures var uris := UriList(AsArray(ValueOf(login, "uris")));
            && (!KeepsOldUri(f, existing) ==>
                  (if uris == [] then Ok("") else Reveal(c, uris[0], key)) == Ok(f.uri))
            && (KeepsOldUri(f, existing) ==> uris == UriList(AsArray(ValueOf(existing, "uris"))))
  {
    hide Reveal;
    var uris := AsArray(ValueOf(existing, "uris"));
    var patched := existing + UriPatch(existing, f.uri, uri);
    if f.uri != "" {
      assert "uris" in patched;
      var entry := PatchedEntry(if uris == [] then map[] else AsObject(uris[0]), uri);
      assert TextOf(entry, "uri") == uri;
      assert AsArray(ValueOf(patched, "uris"))[0] == Obj(entry);
    } else if |uris| <= 1 {
      assert ValueOf(patched, "uris") == Null;
    } else {
      assert patched == existing;
    }
  }

  // ----- updating an item -----

  /** The keys of a cipher that the editor never touches. */
  predicate Kept(k: string) {
    k == "type" || k == "organizationId" || k == "key" || k == "card" || k == "identity" || k == "fields"
  }

  function Capital(k: string): string
    requires Kept(k)
  {
    if k == "type" then "Type" else if k == "organizationId" then "OrganizationId"
    else if k == "key" then "Key" else if k == "card" then "Card"
    else if k == "identity" then "Identity" else "Fields"
  }

  lemma CapitalIs(k: string)
    requires Kept(k)
    ensures Pascal(k) == Capital(k)
  {
    hide Kept, Capital;
    CapitalTail(k);
  }

  lemma CapitalTail(k: string)
    requires Kept(k)
    ensures k != "" && Capital(k) == [Upper(k[0])] + k[1..]
  {
    if k == "type" || k == "key" || k == "card" {
      ShortCapital(k);
    } else {
      LongCapital(k);
    }
  }

  lemma ShortCapital(k: string)
    requires k == "type" || k == "key" || k == "card"
    ensures k != "" && Capital(k) == [Upper(k[0])] + k[1..]
  {
    if k == "type" {
      assert k[1..] == "ype";
    } else if k == "key" {
      assert k[1..] == "ey";
    } else {
      assert k[1..] == "ard";
    }
  }

  lemma LongCapital(k: string)
    requires k == "organizationId" || k == "identity" || k == "fields"
    ensures k != "" && Capital(k) == [Upper(k[0])] + k[1..]
  {
    if k == "organizationId" {
      assert k[1..] == "rganizationId";
    } else if k == "identity" {
      assert k[1..] == "dentity";
    } else {
      assert k[1..] == "ields";
    }
  }

  /** The keys an update writes. */
  predicate Written(k: string) {
    k == "name" || k == "notes" || k == "favorite" || k == "folderId"
    || k == "login" || k == "Login" || k == "lastKnownRevisionDate"
  }

  lemma KeptIsUnwritten(k: string)
    requires Kept(k)
    ensures !Written(k) && k != "id"
  {
  }

  lemma CapitalIsUnwritten(k: string)
    requires Kept(k)
    ensures !Written(Capital(k)) && Capital(k) != "id"
  {
  }

  /** Lengths, and second letters where lengths agree, tell the dropped keys from
      all others that the body uses. */
  predicate Apart(k: string) {
    || |k| == 3 || |k| == 5 || |k| == 8 || |k| == 14 || |k| == 21
    || (|k| == 4 && k[1] != 'd') || (|k| == 6 && k[1] != 'b')
  }

  lemma FirstIsNotApart(d: string)
    requires d in FirstDropped()
    ensures !Apart(d)
  {
  }

  lemma MiddleIsNotApart(d: string)
    requires d in MiddleDropped()
    ensures !Apart(d)
  {
  }

  lemma LastIsNotApart(d: string)
    requires d in LastDropped()
    ensures !Apart(d)
  {
  }

  lemma DroppedIsNotApart(d: string)
    requires d in Dropped()
    ensures !Apart(d)
  {
    hide Apart, FirstDropped, MiddleDropped, LastDropped;
    if d in FirstDropped() {
      FirstIsNotApart(d);
    } else if d in MiddleDropped() {
      MiddleIsNotApart(d);
    } else {
      LastIsNotApart(d);
    }
  }

  lemma ApartIsKept(k: string)
    requires Apart(k)
    ensures k !in Dropped() && k != "id"
  {
    hide Dropped;
    if k in Dropped() {
      DroppedIsNotApart(k);
    }
  }

  lemma KeptIsApartFromDropped(k: string)
    requires Kept(k)
    ensures Apart(k) && Apart(Capital(k))
  {
  }

  lemma KeptIsApart(k: string)
    requires Kept(k)
    ensures !Written(k) && k !in Dropped() && k != "id"
    ensures !Written(Pascal(k)) && Pascal(k) !in Dropped() && Pascal(k) != "id"
  {
    hide Kept, Capital, Pascal, Written, Apart, Dropped;
    CapitalIs(k);
    KeptIsUnwritten(k);
    CapitalIsUnwritten(k);
    KeptIsApartFromDropped(k);
    ApartIsKept(k);
    ApartIsKept(Capital(k));
  }

  lemma WrittenIsApart(k: string)
    requires Written(k)
    ensures k !in Dropped() && k != "id"
  {
    hide Dropped, Written, Apart;
    WrittenApart(k);
    ApartIsKept(k);
  }

  lemma WrittenApart(k: string)
    requires Written(k)
    ensures Apart(k)
  {
  }

  /** Every key of the body, compared with the original object. */
  lemma UpdateFrame(c: Suite, cipher: Cipher, f: Entered, key: Key, v: Ivs, k: string)
    requires UpdateBody(c, cipher, f, key, v).Ok?
    ensures var body := UpdateBody(c, cipher, f, key, v).value;
            && (k in Dropped() ==> k !in body)
            && (k !in Dropped() && !Written(k) ==> Get(body, k) == Get(cipher.raw, k) && (k in body <==> k in cipher.raw))
            && (!cipher.kind.Login? && (k == "login" || k == "Login") ==>
                  Get(body, k) == Get(cipher.raw, k) && (k in body <==> k in cipher.raw))
            && (k == "lastKnownRevisionDate" && TextOf(cipher.raw, "revisionDate") == "" ==>
                  Get(body, k) == Get(cipher.raw, k))
            && (k == "lastKnownRevisionDate" && TextOf(cipher.raw, "revisionDate") != "" ==>
                  Get(body, k) == Str(TextOf(cipher.raw, "revisionDate")))
  {
    hide PatchedLogin, CommonPatch, TextOf, ValueOf, Dropped, Written;
    if Written(k) {
      WrittenIsApart(k);
    }
    BodyKeys(k);
    CommonKeys(c, f, key, v, k);
    var common := CommonPatch(c, f, key, v).value;
    if cipher.kind.Login? {
      var login := PatchedLogin(c, f, AsObject(ValueOf((cipher.raw - Dropped()) + common, "login")), key, v).value;
      Layers(cipher.raw, Dropped(), common, {"Login"}, map["login" := Obj(login)], RevisionPatch(cipher.raw), k);
    } else {
      Layers(cipher.raw, Dropped(), common, {}, map[], RevisionPatch(cipher.raw), k);
      assert ((cipher.raw - Dropped()) + common) - {} + map[] == (cipher.raw - Dropped()) + common;
    }
  }

  lemma BodyKeys(k: string)
    ensures !Written(k) ==> k != "login" && k != "Login" && k != "lastKnownRevisionDate"
    ensures k == "login" || k == "Login" || k == "lastKnownRevisionDate" ==> Written(k)
    ensures "login" != "lastKnownRevisionDate" && "Login" != "lastKnownRevisionDate"
  {
  }

  /** A body, layer by layer, at one key. */
  lemma Layers(raw: Object, dropped: set<string>, common: Object, removed: set<string>, login: Object,
               revision: Object, k: string)
    ensures var body := ((raw - dropped) + common) - removed + login + revision;
            && (k !in common && k !in login && k !in revision && k in dropped ==> k !in body)
            && (k !in common && k !in login && k !in revision && k !in dropped && k !in removed ==>
                  Get(body, k) == Get(raw, k) && (k in body <==> k in raw))
            && (k in revision ==> Get(body, k) == revision[k])
  {
  }

  lemma KeptLookup(c: Suite, cipher: Cipher, f: Entered, key: Key, v: Ivs, id: string, k: string)
    requires UpdateBody(c, cipher, f, key, v).Ok? && Kept(k)
    ensures ValueOf(UpdateBody(c, cipher, f, key, v).value["id" := Str(id)], k) == ValueOf(cipher.raw, k)
  {
    hide UpdateBody, Kept, Written, Pascal, Dropped;
    KeptIsApart(k);
    UpdateFrame(c, cipher, f, key, v, k);
    UpdateFrame(c, cipher, f, key, v, Pascal(k));
  }

  /** The four fields of every item, under keys that nothing else in the body uses. */
  lemma CommonKeys(c: Suite, f: Entered, key: Key, v: Ivs, k: string)
    requires CommonPatch(c, f, key, v).Ok?
    ensures k in CommonPatch(c, f, key, v).value ==> Written(k) && k != "login" && k != "Login"
                                                      && k != "lastKnownRevisionDate" && k !in Dropped() && k != "id"
  {
    hide EncryptedField, Dropped;
    if Written(k) {
      WrittenIsApart(k);
    }
  }

  /** A patched key that nothing later overwrites or removes. */
  lemma PatchWins(base: Object, patch: Object, removed: string, login: Object, revision: Object, id: Object, k: string)
    requires k in patch && k != removed && k !in login && k !in revision && k !in id
    ensures ValueOf(base + patch + revision + id, k) == patch[k]
    ensures ValueOf((base + patch) - {removed} + login + revision + id, k) == patch[k]
  {
  }

  lemma CommonLookup(c: Suite, cipher: Cipher, f: Entered, key: Key, v: Ivs, id: string, k: string)
    requires UpdateBody(c, cipher, f, key, v).Ok?
    requires CommonPatch(c, f, key, v).Ok? && k in CommonPatch(c, f, key, v).value
    ensures ValueOf(UpdateBody(c, cipher, f, key, v).value["id" := Str(id)], k) == CommonPatch(c, f, key, v).value[k]
  {
    hide CommonPatch, PatchedLogin, ValueOf, Written, RevisionPatch;
    CommonKeys(c, f, key, v, k);
    RevisionKeys(cipher.raw, k);
    var body := UpdateBody(c, cipher, f, key, v).value;
    var common := CommonPatch(c, f, key, v).value;
    var existing := AsObject(ValueOf((cipher.raw - Dropped()) + common, "login"));
    assert body["id" := Str(id)] == body + map["id" := Str(id)];
    if cipher.kind.Login? {
      PatchWins(cipher.raw - Dropped(), common, "Login",
                map["login" := Obj(PatchedLogin(c, f, existing, key, v).value)], RevisionPatch(cipher.raw),
                map["id" := Str(id)], k);
    } else {
      PatchWins(cipher.raw - Dropped(), common, "Login", map[], RevisionPatch(cipher.raw), map["id" := Str(id)], k);
    }
  }

  lemma Untouched(raw: Object, dropped: set<string>, patch: Object, k: string)
    requires k !in dropped && Pascal(k) !in dropped && k !in patch && Pascal(k) !in patch
    ensures ValueOf((raw - dropped) + patch, k) == ValueOf(raw, k)
  {
    hide Pascal;
  }

  lemma PascalLogin()
    ensures Pascal("login") == "Login"
  {
  }

  lemma ExistingLogin(c: Suite, raw: Object, f: Entered, key: Key, v: Ivs)
    requires CommonPatch(c, f, key, v).Ok?
    ensures ValueOf((raw - Dropped()) + CommonPatch(c, f, key, v).value, "login") == ValueOf(raw, "login")
  {
    hide CommonPatch, Written, Pascal, Dropped;
    CommonKeys(c, f, key, v, "login");
    CommonKeys(c, f, key, v, "Login");
    BodyKeys("login");
    BodyKeys("Login");
    WrittenIsApart("login");
    WrittenIsApart("Login");
    PascalLogin();
    Untouched(raw, Dropped(), CommonPatch(c, f, key, v).value, "login");
  }

  lemma LoginWins(body: Object, login: Json, revision: Object, id: string)
    requires "login" !in revision
    ensures ValueOf((body + map["login" := login] + revision)["id" := Str(id)], "login") == login
  {
    assert "login" != "id";
  }

  lemma RevisionKeys(raw: Object, k: string)
    ensures k != "lastKnownRevisionDate" ==> k !in RevisionPatch(raw)
  {
    hide TextOf;
  }

  lemma LoginLookup(c: Suite, cipher: Cipher, f: Entered, key: Key, v: Ivs, id: string)
    requires UpdateBody(c, cipher, f, key, v).Ok? && cipher.kind.Login?
    ensures var j := ValueOf(UpdateBody(c, cipher, f, key, v).value["id" := Str(id)], "login");
            j.Obj? && PatchedLogin(c, f, AsObject(ValueOf(cipher.raw, "login")), key, v) == Ok(j.fields)
  {
    var common := CommonPatch(c, f, key, v);
    hide CommonPatch, PatchedLogin, RevisionPatch, ValueOf;
    if common.Ok? {
      ExistingLogin(c, cipher.raw, f, key, v);
      var login := PatchedLogin(c, f, AsObject(ValueOf(cipher.raw, "login")), key, v);
      assert "login" != "lastKnownRevisionDate";
      RevisionKeys(cipher.raw, "login");
      if login.Ok? {
        LoginWins((cipher.raw - Dropped()) + common.value - {"Login"}, Obj(login.value), RevisionPatch(cipher.raw), id);
      }
    }
  }

  lemma WrittenLookup(c: Suite, cipher: Cipher, f: Entered, key: Key, v: Ivs, id: string)
    requires UpdateBody(c, cipher, f, key, v).Ok?
    ensures var b := UpdateBody(c, cipher, f, key, v).value["id" := Str(id)];
            && ValueOf(b, "id") == Str(id)
            && EncryptedField(c, f.name, key, v.name) == Ok(TextOf(b, "name"))
            && ValueOf(b, "name").Str?
            && EncryptedField(c, f.notes, key, v.notes) == Ok(TextOf(b, "notes"))
            && ValueOf(b, "favorite") == Bool(f.favorite)
            && TextOf(b, "folderId") == f.folderId
  {
    hide EncryptedField, UpdateBody, CommonPatch, ValueOf;
    UpdateHasCommon(c, cipher, f, key, v, id);
    CommonValues(c, f, key, v);
    CommonLookup(c, cipher, f, key, v, id, "name");
    CommonLookup(c, cipher, f, key, v, id, "notes");
    CommonLookup(c, cipher, f, key, v, id, "favorite");
    CommonLookup(c, cipher, f, key, v, id, "folderId");
  }

  lemma UpdateHasCommon(c: Suite, cipher: Cipher, f: Entered, key: Key, v: Ivs, id: string)
    requires UpdateBody(c, cipher, f, key, v).Ok?
    ensures CommonPatch(c, f, key, v).Ok?
    ensures ValueOf(UpdateBody(c, cipher, f, key, v).value["id" := Str(id)], "id") == Str(id)
  {
    hide CommonPatch, PatchedLogin, RevisionPatch, Dropped;
  }

  lemma CommonValues(c: Suite, f: Entered, key: Key, v: Ivs)
    requires CommonPatch(c, f, key, v).Ok?
    ensures var p := CommonPatch(c, f, key, v).value;
            && "name" in p && EncryptedField(c, f.name, key, v.name) == Ok(AsString(p["name"])) && p["name"].Str?
            && "notes" in p && EncryptedField(c, f.notes, key, v.notes) == Ok(AsString(p["notes"]))
            && "favorite" in p && p["favorite"] == Bool(f.favorite)
            && "folderId" in p && AsString(p["folderId"]) == f.folderId
  {
    hide EncryptedField;
    assert "name"[0] == 'n' && "notes"[0] == 'n' && |"name"| == 4 && |"notes"| == 5;
    assert "favorite"[1] == 'a' && "folderId"[1] == 'o';
  }

  /** What is read back equals what was entered, under the same key. */
  ghost predicate ReadsBack(c: Suite, s: State, cipher: Cipher, back: Cipher, key: Key, f: Entered) {
    && CipherKey(c, back, s.userKey, s.orgKeys) == Ok(key)
    && ReadField(c, back.name, key) == Ok(f.name)
    && ReadField(c, back.notes, key) == Ok(f.notes) && (back.notes == "" <==> f.notes == "")
    && back.favorite == f.favorite && back.folderId == f.folderId
    && (cipher.kind.Login? ==>
          && ReadField(c, back.login.username, key) == Ok(f.username) && (back.login.username == "" <==> f.username == "")
          && ReadField(c, back.login.password, key) == Ok(f.password) && (back.login.password == "" <==> f.password == "")
          && ReadField(c, back.login.totp, key) == Ok(f.totp) && (back.login.totp == "" <==> f.totp == "")
          && (!KeepsOldUri(f, AsObject(ValueOf(cipher.raw, "login"))) ==>
                PrimaryUri(c, back.login, key) == Ok(f.uri))
          && (KeepsOldUri(f, AsObject(ValueOf(cipher.raw, "login"))) ==>
                back.login.uris == cipher.login.uris))
  }

  /** Everything the editor does not offer is the same after the edit. */
  predicate SameElsewhere(cipher: Cipher, back: Cipher) {
    && back.id == cipher.id && back.kind == cipher.kind
    && back.organizationId == cipher.organizationId && back.key == cipher.key
    && back.fields == cipher.fields && back.cardFields == cipher.cardFields
    && back.identityFields == cipher.identityFields
  }

  /** Reading an object that keeps the untouched keys of a cipher's original. */
  lemma BackParses(cipher: Cipher, b: Object, name: string)
    requires Faithful(cipher) && name != ""
    requires ValueOf(b, "id") == Str(cipher.id) && ValueOf(b, "name") == Str(name)
    requires forall k :: Kept(k) ==> ValueOf(b, k) == ValueOf(cipher.raw, k)
    ensures ParsedCipher(b).Some?
    ensures var back := ParsedCipher(b).value;
            && SameElsewhere(cipher, back)
            && back.name == name && back.notes == TextOf(b, "notes")
            && back.favorite == AsBool(ValueOf(b, "favorite")) && back.folderId == TextOf(b, "folderId")
            && (cipher.kind.Login? ==> back.login == LoginOf(ValueOf(b, "login")))
  {
    hide ParsedCipher, ValueOf, TextOf, Kept, LoginOf, AsBool;
    KeptKeys();
    BackEntered(cipher, b, name);
    BackParts(cipher, b);
  }

  lemma BackEntered(cipher: Cipher, b: Object, name: string)
    requires Faithful(cipher) && name != ""
    requires ValueOf(b, "id") == Str(cipher.id) && ValueOf(b, "name") == Str(name)
    requires ValueOf(b, "type") == ValueOf(cipher.raw, "type")
    ensures ParsedCipher(b).Some?
    ensures var back := ParsedCipher(b).value;
            && back.id == cipher.id && back.kind == cipher.kind
            && back.name == name && back.notes == TextOf(b, "notes")
            && back.favorite == AsBool(ValueOf(b, "favorite")) && back.folderId == TextOf(b, "folderId")
            && (cipher.kind.Login? ==> back.login == LoginOf(ValueOf(b, "login")))
  {
    hide ValueOf, LoginOf, FieldList, PartList;
  }

  lemma BackParts(cipher: Cipher, b: Object)
    requires Faithful(cipher) && ParsedCipher(b).Some? && ParsedCipher(b).value.kind == cipher.kind
    requires ValueOf(b, "organizationId") == ValueOf(cipher.raw, "organizationId")
    requires ValueOf(b, "key") == ValueOf(cipher.raw, "key")
    requires ValueOf(b, "card") == ValueOf(cipher.raw, "card")
    requires ValueOf(b, "identity") == ValueOf(cipher.raw, "identity")
    requires ValueOf(b, "fields") == ValueOf(cipher.raw, "fields")
    ensures var back := ParsedCipher(b).value;
            && back.organizationId == cipher.organizationId && back.key == cipher.key
            && back.fields == cipher.fields && back.cardFields == cipher.cardFields
            && back.identityFields == cipher.identityFields
  {
    hide ValueOf, LoginOf, FieldList, PartList, AsArray, AsObject, AsBool, AsInt, AsString;
  }

  lemma KeptKeys()
    ensures Kept("type") && Kept("organizationId") && Kept("key")
    ensures Kept("card") && Kept("identity") && Kept("fields")
  {
  }

  lemma SameKey(c: Suite, s: State, cipher: Cipher, back: Cipher)
    requires SameElsewhere(cipher, back)
    ensures CipherKey(c, back, s.userKey, s.orgKeys) == CipherKey(c, cipher, s.userKey, s.orgKeys)
  {
    hide EncString.Opened;
  }

  lemma UpdateRoundTrip(c: Suite, s: State, cipher: Cipher, f: Entered, key: Key, v: Ivs)
    requires Lawful(c) && Sized(key) && Fresh16(v) && f.name != "" && Faithful(cipher)
    requires CipherKey(c, cipher, s.userKey, s.orgKeys) == Ok(key)
    ensures UpdateBody(c, cipher, f, key, v).Ok?
    ensures var b := UpdateBody(c, cipher, f, key, v).value["id" := Str(cipher.id)];
            && ParsedCipher(b).Some?
            && SameElsewhere(cipher, ParsedCipher(b).value)
            && ReadsBack(c, s, cipher, ParsedCipher(b).value, key, f)
            && (cipher.kind.Login? ==> EncryptedField(c, f.totp, key, v.totp) == Ok(ParsedCipher(b).value.login.totp))
  {
    assert cipher.kind.Login? ==> cipher.login == LoginOf(ValueOf(cipher.raw, "login"));
    hide PatchedLogin, EncryptedField, ReadField, Reveal, PrimaryUri, ValueOf, UpdateBody, CipherKey, ParsedCipher,
         LoginOf, Faithful, SameElsewhere, KeepsOldUri;
    FieldRoundTrip(c, f.name, key, v.name);
    FieldRoundTrip(c, f.notes, key, v.notes);
    UpdateBuilds(c, cipher, f, key, v);
    WrittenLookup(c, cipher, f, key, v, cipher.id);
    if cipher.kind.Login? {
      LoginLookup(c, cipher, f, key, v, cipher.id);
    }
    var b := UpdateBody(c, cipher, f, key, v).value["id" := Str(cipher.id)];
    forall k | Kept(k) ensures ValueOf(b, k) == ValueOf(cipher.raw, k) {
      KeptLookup(c, cipher, f, key, v, cipher.id, k);
    }
    BackParses(cipher, b, EncryptedField(c, f.name, key, v.name).value);
    SameKey(c, s, cipher, ParsedCipher(b).value);
    if cipher.kind.Login? {
      LoginRoundTrip(c, f, AsObject(ValueOf(cipher.raw, "login")), key, v);
      OldUris(cipher, f);
    }
  }

  lemma OldUris(cipher: Cipher, f: Entered)
    requires cipher.login == LoginOf(ValueOf(cipher.raw, "login"))
    ensures var existing := AsObject(ValueOf(cipher.raw, "login"));
            KeepsOldUri(f, existing) ==> cipher.login.uris == UriList(AsArray(ValueOf(existing, "uris")))
  {
  }

  lemma UpdateBuilds(c: Suite, cipher: Cipher, f: Entered, key: Key, v: Ivs)
    requires Lawful(c) && Sized(key) && Fresh16(v)
    ensures UpdateBody(c, cipher, f, key, v).Ok?
  {
    hide PatchedLogin, EncryptedField;
    FieldRoundTrip(c, f.name, key, v.name);
    FieldRoundTrip(c, f.notes, key, v.notes);
    var existing := AsObject(ValueOf(cipher.raw, "login"));
    assert cipher.kind.Login? ==>
        forall e: Object :: PatchedLogin(c, f, e, key, v).Ok? by {
      forall e: Object ensures PatchedLogin(c, f, e, key, v).Ok? {
        LoginRoundTrip(c, f, e, key, v);
      }
    }
  }

  /** The edit path of an unlocked vault: for every item whose key resolves and every
      entry with a name, sending the body and reading it back (the server puts the id
      back) gives what was entered, and nothing else has changed. */
  lemma EditRoundTrip(c: Suite, s: State, itemId: string, f: Entered, v: Ivs)
    requires Lawful(c) && Fresh16(v) && Inv(c, s) && !s.locked && f.name != ""
    requires FindCipher(s.data.ciphers, itemId).Some?
    requires CipherKey(c, FindCipher(s.data.ciphers, itemId).value, s.userKey, s.orgKeys).Ok?
    ensures BuiltUpdate(c, s, itemId, f, v).Ok?
    ensures var cipher := FindCipher(s.data.ciphers, itemId).value;
            var key := CipherKey(c, cipher, s.userKey, s.orgKeys).value;
            var b := BuiltUpdate(c, s, itemId, f, v).value["id" := Str(itemId)];
            && ParsedCipher(b).Some?
            && SameElsewhere(cipher, ParsedCipher(b).value)
            && ReadsBack(c, s, cipher, ParsedCipher(b).value, key, f)
            && (cipher.kind.Login? ==> EncryptedField(c, f.totp, key, v.totp) == Ok(ParsedCipher(b).value.login.totp))
  {
    hide UpdateBody, CipherKey, ReadsBack, SameElsewhere, ParsedCipher;
    var cipher := FindCipher(s.data.ciphers, itemId).value;
    ResolvedKeysSized(c, s, cipher);
    UpdateRoundTrip(c, s, cipher, f, CipherKey(c, cipher, s.userKey, s.orgKeys).value, v);
  }

  /** A body is built exactly for an entry with a name, in an unlocked vault, for an item
      that exists and whose key can be had; the first of these that fails is reported. */
  lemma UpdateExactly(c: Suite, s: State, itemId: string, f: Entered, v: Ivs)
    requires Lawful(c) && Fresh16(v) && Inv(c, s)
    ensures var r, found := BuiltUpdate(c, s, itemId, f, v), exists x :: x in s.data.ciphers && x.id == itemId;
            && (s.locked ==> r == Err("vault is locked"))
            && (!s.locked && !found ==> r == Err("item not found"))
            && (!s.locked && found && f.name == "" ==> r == Err("name is required"))
            && (!s.locked && found && f.name != "" ==>
                  (r.Ok? <==> CipherKey(c, FindCipher(s.data.ciphers, itemId).value, s.userKey, s.orgKeys).Ok?))
  {
    hide UpdateBody, CipherKey, Inv, Faithful, FindCipher;
    var cipher := FindCipher(s.data.ciphers, itemId);
    if !s.locked && cipher.Some? && CipherKey(c, cipher.value, s.userKey, s.orgKeys).Ok? {
      ResolvedKeysSized(c, s, cipher.value);
      UpdateBuilds(c, cipher.value, f, CipherKey(c, cipher.value, s.userKey, s.orgKeys).value, v);
    }
  }

  // ----- the login object, key by key -----

  /** Apart from the four edited keys the login object is unchanged; every URI entry
      after the first is unchanged; the first differs in `uri` and a `match` that was
      missing. */
  lemma LoginFrame(c: Suite, f: Entered, existing: Object, key: Key, v: Ivs, k: string)
    requires PatchedLogin(c, f, existing, key, v).Ok?
    ensures var login := PatchedLogin(c, f, existing, key, v).value;
            var before, after := AsArray(ValueOf(existing, "uris")), AsArray(ValueOf(login, "uris"));
            && (k != "username" && k != "password" && k != "totp" && k != "uris" ==>
                  (k in login <==> k in existing) && Get(login, k) == Get(existing, k))
            && (f.uri == "" && |before| >= 2 ==> after == before)
            && (f.uri == "" && |before| <= 1 ==> after == [])
            && (f.uri != "" ==>
                  && |after| == (if before == [] then 1 else |before|)
                  && after[1..] == (if before == [] then [] else before[1..])
                  && after[0].Obj?
                  && (k != "uri" && k != "match" && before != [] ==>
                        Get(after[0].fields, k) == Get(AsObject(before[0]), k))
                  && (before != [] && "match" in AsObject(before[0]) ==>
                        Get(after[0].fields, "match") == Get(AsObject(before[0]), "match"))
                  && (before != [] && "match" !in AsObject(before[0]) ==> Get(after[0].fields, "match") == Null))
  {
    hide EncryptedField, UriPatch, ValueOf, Get;
    var uri := EncryptedField(c, f.uri, key, v.uri).value;
    var patch := UriPatch(existing, f.uri, uri);
    PatchedIs(c, f, existing, key, v);
    PatchKeys(existing, f.uri, uri);
    LayerReads(existing, EncryptedField(c, f.username, key, v.username).value,
               EncryptedField(c, f.password, key, v.password).value, EncryptedField(c, f.totp, key, v.totp).value, patch);
    LayerFrame(existing, EncryptedField(c, f.username, key, v.username).value,
               EncryptedField(c, f.password, key, v.password).value, EncryptedField(c, f.totp, key, v.totp).value, patch, k);
    UriFrame(existing, f.uri, uri, k);
  }

  lemma LayerFrame(existing: Object, username: string, password: string, totp: string, uris: Object, k: string)
    requires forall j :: j in uris ==> j == "uris"
    ensures var o := LoginLayers(existing, username, password, totp, uris);
            k != "username" && k != "password" && k != "totp" && k != "uris" ==>
              (k in o <==> k in existing) && Get(o, k) == Get(existing, k)
  {
  }

  /** The URI list before and after. */
  lemma UriFrame(existing: Object, entered: string, uri: string, k: string)
    ensures var before := AsArray(ValueOf(existing, "uris"));
            var after := AsArray(ValueOf(existing + UriPatch(existing, entered, uri), "uris"));
            && (entered == "" && |before| >= 2 ==> after == before)
            && (entered == "" && |before| <= 1 ==> after == [])
            && (entered != "" ==>
                  && |after| == (if before == [] then 1 else |before|)
                  && after[1..] == (if before == [] then [] else before[1..])
                  && after[0].Obj?
                  && (k != "uri" && k != "match" && before != [] ==>
                        Get(after[0].fields, k) == Get(AsObject(before[0]), k))
                  && (before != [] && "match" in AsObject(before[0]) ==>
                        Get(after[0].fields, "match") == Get(AsObject(before[0]), "match"))
                  && (before != [] && "match" !in AsObject(before[0]) ==> Get(after[0].fields, "match") == Null))
  {
    hide PatchedEntry;
    var before := AsArray(ValueOf(existing, "uris"));
    if entered != "" {
      assert "uris" in existing + UriPatch(existing, entered, uri);
      EntryFrame(if before == [] then map[] else AsObject(before[0]), uri, k);
    } else if |before| >= 2 {
      assert existing + map[] == existing;
    }
  }

  lemma EntryFrame(entry: Object, uri: string, k: string)
    ensures var e := PatchedEntry(entry, uri);
            && (k != "uri" && k != "match" ==> Get(e, k) == Get(entry, k))
            && Get(e, "match") == (if "match" in entry then Get(entry, "match") else Null)
  {
    assert "uri" != "match";
  }

  /** The editor promises to keep the match setting of the URI it patches. It does,
      except exactly when that setting is spelled `Match`: the defaulted `match` then
      hides it from the reader. */
  lemma MatchKeptExactly(entry: Object, uri: string)
    ensures var after := ValueOf(PatchedEntry(entry, uri), "match");
            (after == ValueOf(entry, "match") || (after == Null && ValueOf(entry, "match") == Undefined))
            <==> "match" in entry || "Match" !in entry || entry["Match"] == Null || entry["Match"] == Undefined
  {
    assert Pascal("match") == "Match";
  }

  /** Such an entry loses its setting for the reader. */
  lemma MatchHidden(stored: string, uri: string)
    ensures var entry: Object := map["Uri" := Str(stored), "Match" := Num(0.0)];
            ValueOf(entry, "match") == Num(0.0) && ValueOf(PatchedEntry(entry, uri), "match") == Null
  {
    var entry: Object := map["Uri" := Str(stored), "Match" := Num(0.0)];
    assert Pascal("match") == "Match" && "Match"[0] == 'M' && "match"[0] == 'm';
    assert |"uri"| == 3 && |"Uri"| == 3;
    assert "match" !in entry;
  }

  // ----- creating an item -----

  lemma CreateBuilds(c: Suite, s: State, kind: CipherType, f: Entered, v: Ivs)
    requires Lawful(c) && Fresh16(v) && Sized(s.userKey) && !s.locked
    ensures BuiltCreate(c, s, kind, f, v).Ok? <==> f.name != "" && (kind.Login? || kind.SecureNote?)
  {
    hide PatchedLogin, EncryptedField, ReadField, Reveal, PrimaryUri, LoginOf;
    FieldRoundTrip(c, f.name, s.userKey, v.name);
    FieldRoundTrip(c, f.notes, s.userKey, v.notes);
    LoginRoundTrip(c, f, map[], s.userKey, v);
  }

  /** Reading an object under the keys a creation writes. */
  lemma NewParses(b: Object, id: string, kind: CipherType, name: string)
    requires id != "" && name != "" && (kind.Login? || kind.SecureNote?)
    requires ValueOf(b, "id") == Str(id) && ValueOf(b, "name") == Str(name)
    requires ValueOf(b, "type") == Num(if kind.Login? then 1.0 else 2.0)
    requires ValueOf(b, "organizationId") == Null && ValueOf(b, "key") == Undefined
    ensures ParsedCipher(b).Some?
    ensures var back := ParsedCipher(b).value;
            && back.kind == kind && back.id == id && back.name == name
            && back.organizationId == "" && back.key == ""
            && back.notes == TextOf(b, "notes") && back.favorite == AsBool(ValueOf(b, "favorite"))
            && back.folderId == TextOf(b, "folderId")
            && (kind.Login? ==> back.login == LoginOf(ValueOf(b, "login")))
  {
    hide ValueOf, LoginOf, FieldList, PartList;
  }

  /** A created item, once the server has given it an id, reads back as entered. */
  lemma CreateRoundTrip(c: Suite, s: State, kind: CipherType, f: Entered, v: Ivs, id: string)
    requires Lawful(c) && Fresh16(v) && Inv(c, s) && !s.locked && id != ""
    ensures BuiltCreate(c, s, kind, f, v).Ok? <==> f.name != "" && (kind.Login? || kind.SecureNote?)
    ensures BuiltCreate(c, s, kind, f, v).Ok? ==>
              var b := BuiltCreate(c, s, kind, f, v).value["id" := Str(id)];
              && ParsedCipher(b).Some?
              && ParsedCipher(b).value.kind == kind && ParsedCipher(b).value.id == id
              && CreatedReadsBack(c, s, kind, ParsedCipher(b).value, f)
  {
    hide PatchedLogin, EncryptedField, ReadField, Reveal, CipherKey, Inv, PrimaryUri, BuiltCreate, ValueOf, ParsedCipher,
         LoginOf;
    OwnKeySized(c, s);
    CreateBuilds(c, s, kind, f, v);
    FieldRoundTrip(c, f.name, s.userKey, v.name);
    FieldRoundTrip(c, f.notes, s.userKey, v.notes);
    LoginRoundTrip(c, f, map[], s.userKey, v);
    if BuiltCreate(c, s, kind, f, v).Ok? {
      CreatedCommon(c, s, kind, f, v, id);
      CreatedRest(c, s, kind, f, v, id);
      NewParses(BuiltCreate(c, s, kind, f, v).value["id" := Str(id)], id, kind,
                EncryptedField(c, f.name, s.userKey, v.name).value);
      NoOldUris(f);
    }
  }

  lemma NoOldUris(f: Entered)
    ensures !KeepsOldUri(f, map[])
  {
  }

  lemma OwnKeySized(c: Suite, s: State)
    requires Lawful(c) && Inv(c, s) && !s.locked
    ensures Sized(s.userKey)
  {
    hide EncString.Opened, Rebuilt;
    ResolvedKeysSized(c, s, Cipher("", Login, "", "", false, "", "", "", NO_LOGIN, [], [], [], map[]));
  }

  ghost predicate CreatedReadsBack(c: Suite, s: State, kind: CipherType, back: Cipher, f: Entered) {
    && back.organizationId == "" && back.key == ""
    && ReadField(c, back.name, s.userKey) == Ok(f.name)
    && ReadField(c, back.notes, s.userKey) == Ok(f.notes) && (back.notes == "" <==> f.notes == "")
    && back.favorite == f.favorite && back.folderId == f.folderId
    && (kind.Login? ==>
          && ReadField(c, back.login.username, s.userKey) == Ok(f.username) && (back.login.username == "" <==> f.username == "")
          && ReadField(c, back.login.password, s.userKey) == Ok(f.password) && (back.login.password == "" <==> f.password == "")
          && ReadField(c, back.login.totp, s.userKey) == Ok(f.totp) && (back.login.totp == "" <==> f.totp == "")
          && PrimaryUri(c, back.login, s.userKey) == Ok(f.uri))
  }

  /** What a creation adds to the common fields. */
  function NewRest(kind: CipherType, login: Object): Object
    requires kind.Login? || kind.SecureNote?
  {
    map["type" := Num(if kind.Login? then 1.0 else 2.0), "organizationId" := Null]
    + (if kind.Login? then map["login" := Obj(login)] else map["secureNote" := Obj(map["type" := Num(0.0)])])
  }

  lemma CreatedIs(c: Suite, s: State, kind: CipherType, f: Entered, v: Ivs)
    requires BuiltCreate(c, s, kind, f, v).Ok?
    ensures CommonPatch(c, f, s.userKey, v).Ok? && (kind.Login? || kind.SecureNote?)
    ensures kind.Login? ==> PatchedLogin(c, f, map[], s.userKey, v).Ok?
    ensures var login := if kind.Login? then PatchedLogin(c, f, map[], s.userKey, v).value else map[];
            BuiltCreate(c, s, kind, f, v).value == CommonPatch(c, f, s.userKey, v).value + NewRest(kind, login)
  {
    hide PatchedLogin, CommonPatch;
  }

  lemma NewKeys(kind: CipherType, login: Object, k: string)
    requires (kind.Login? || kind.SecureNote?) && k in NewRest(kind, login)
    ensures !(k == "name" || k == "notes" || k == "favorite" || k == "folderId") && k != "id"
  {
  }

  lemma FourCommon(c: Suite, f: Entered, key: Key, v: Ivs, k: string)
    requires CommonPatch(c, f, key, v).Ok?
    ensures k in CommonPatch(c, f, key, v).value <==> k == "name" || k == "notes" || k == "favorite" || k == "folderId"
  {
    hide EncryptedField;
  }

  lemma CommonStays(common: Object, rest: Object, id: Object, k: string)
    requires k in common && k !in rest && k !in id
    ensures ValueOf(common + rest + id, k) == common[k]
  {
  }

  lemma NewLookup(c: Suite, s: State, kind: CipherType, f: Entered, v: Ivs, id: string, k: string)
    requires BuiltCreate(c, s, kind, f, v).Ok?
    requires CommonPatch(c, f, s.userKey, v).Ok? && k in CommonPatch(c, f, s.userKey, v).value
    ensures ValueOf(BuiltCreate(c, s, kind, f, v).value["id" := Str(id)], k)
            == CommonPatch(c, f, s.userKey, v).value[k]
  {
    hide BuiltCreate, CommonPatch, PatchedLogin, ValueOf, NewRest;
    CreatedIs(c, s, kind, f, v);
    var login := if kind.Login? then PatchedLogin(c, f, map[], s.userKey, v).value else map[];
    var b := BuiltCreate(c, s, kind, f, v).value;
    FourCommon(c, f, s.userKey, v, k);
    if k in NewRest(kind, login) {
      NewKeys(kind, login, k);
    }
    IdIsApart(k);
    assert b["id" := Str(id)] == b + map["id" := Str(id)];
    CommonStays(CommonPatch(c, f, s.userKey, v).value, NewRest(kind, login), map["id" := Str(id)], k);
  }

  lemma IdIsApart(k: string)
    ensures k == "name" || k == "notes" || k == "favorite" || k == "folderId" ==> k != "id"
  {
  }

  lemma CreatedCommon(c: Suite, s: State, kind: CipherType, f: Entered, v: Ivs, id: string)
    requires BuiltCreate(c, s, kind, f, v).Ok?
    ensures var b := BuiltCreate(c, s, kind, f, v).value["id" := Str(id)];
            && ValueOf(b, "id") == Str(id)
            && EncryptedField(c, f.name, s.userKey, v.name) == Ok(TextOf(b, "name"))
            && ValueOf(b, "name").Str?
            && EncryptedField(c, f.notes, s.userKey, v.notes) == Ok(TextOf(b, "notes"))
            && ValueOf(b, "favorite") == Bool(f.favorite)
            && TextOf(b, "folderId") == f.folderId
  {
    hide EncryptedField, BuiltCreate, CommonPatch, PatchedLogin, ValueOf;
    CreatedIs(c, s, kind, f, v);
    CommonValues(c, f, s.userKey, v);
    IdReads(BuiltCreate(c, s, kind, f, v).value, id);
    NewLookup(c, s, kind, f, v, id, "name");
    NewLookup(c, s, kind, f, v, id, "notes");
    NewLookup(c, s, kind, f, v, id, "favorite");
    NewLookup(c, s, kind, f, v, id, "folderId");
  }

  lemma IdReads(o: Object, id: string)
    ensures ValueOf(o["id" := Str(id)], "id") == Str(id)
  {
  }

  lemma RestReads(common: Object, kind: CipherType, login: Object, id: string)
    requires kind.Login? || kind.SecureNote?
    requires "key" !in common && "Key" !in common
    ensures var b := (common + NewRest(kind, login))["id" := Str(id)];
            && ValueOf(b, "type") == Num(if kind.Login? then 1.0 else 2.0)
            && ValueOf(b, "organizationId") == Null
            && ValueOf(b, "key") == Undefined
            && (kind.Login? ==> ValueOf(b, "login") == Obj(login))
  {
    assert "type"[0] == 't' && "organizationId"[0] == 'o' && "login"[0] == 'l' && "secureNote"[0] == 's';
    assert "id"[0] == 'i' && "key"[0] == 'k' && "Key"[0] == 'K' && Pascal("key") == "Key";
  }

  lemma CreatedRest(c: Suite, s: State, kind: CipherType, f: Entered, v: Ivs, id: string)
    requires BuiltCreate(c, s, kind, f, v).Ok?
    ensures var b := BuiltCreate(c, s, kind, f, v).value["id" := Str(id)];
            && ValueOf(b, "type") == Num(if kind.Login? then 1.0 else 2.0)
            && ValueOf(b, "organizationId") == Null
            && ValueOf(b, "key") == Undefined
            && (kind.Login? ==> var j := ValueOf(b, "login");
                                j.Obj? && PatchedLogin(c, f, map[], s.userKey, v) == Ok(j.fields))
  {
    hide BuiltCreate, CommonPatch, PatchedLogin, ValueOf, NewRest;
    CreatedIs(c, s, kind, f, v);
    FourCommon(c, f, s.userKey, v, "key");
    FourCommon(c, f, s.userKey, v, "Key");
    KeyIsNew();
    RestReads(CommonPatch(c, f, s.userKey, v).value, kind,
              if kind.Login? then PatchedLogin(c, f, map[], s.userKey, v).value else map[], id);
  }

  lemma KeyIsNew()
    ensures !("key" == "name" || "key" == "notes" || "key" == "favorite" || "key" == "folderId")
    ensures !("Key" == "name" || "Key" == "notes" || "Key" == "favorite" || "Key" == "folderId")
  {
  }
}
