/** What the reader takes from where, key by key. */
module SyncReads {
  import opened Wrappers
  import opened Json
  import opened CipherItem
  import opened StableSort
  import opened SyncParser

  // ----- values under keys -----

  /** A non-empty text stands under the key. */
  predicate Given(o: Object, k: string) {
    ValueOf(o, k).Str? && ValueOf(o, k).s != ""
  }

  /** The text under the key; nothing or anything else there reads as no text. */
  predicate Holds(o: Object, k: string, t: string) {
    if t == "" then !Given(o, k) else ValueOf(o, k) == Str(t)
  }

  lemma HoldsText(o: Object, k: string, t: string)
    ensures TextOf(o, k) == t <==> Holds(o, k, t)
  {
  }

  // ----- which objects are ciphers -----

  function TypeNumber(kind: CipherType): real {
    match kind
    case Login => 1.0
    case SecureNote => 2.0
    case Card => 3.0
    case Identity => 4.0
  }

  /** An object is a cipher if and only if it has an id, a name and one of the four type
      numbers, and is then of that type. */
  lemma TypeExactly(o: Object, kind: CipherType)
    ensures ParsedCipher(o).Some? && ParsedCipher(o).value.kind == kind <==>
            Given(o, "id") && Given(o, "name") && ValueOf(o, "type") == Num(TypeNumber(kind))
  {
    hide ValueOf, LoginOf, FieldList, PartList;
    WholeNumber(ValueOf(o, "type"), kind);
  }

  lemma WholeNumber(j: Json, kind: CipherType)
    ensures KindOf(AsInt(j)) == Some(kind) <==> j == Num(TypeNumber(kind))
  {
    assert 1.0.Floor == 1 && 2.0.Floor == 2 && 3.0.Floor == 3 && 4.0.Floor == 4;
  }

  // ----- the parts of a cipher -----

  /** Each text of a cipher stands under its own key. */
  lemma TextsRead(o: Object)
    requires ParsedCipher(o).Some?
    ensures var x := ParsedCipher(o).value;
            && ValueOf(o, "id") == Str(x.id) && ValueOf(o, "name") == Str(x.name) && x.id != "" && x.name != ""
            && Holds(o, "key", x.key) && Holds(o, "notes", x.notes)
            && Holds(o, "folderId", x.folderId) && Holds(o, "organizationId", x.organizationId)
            && (x.favorite <==> ValueOf(o, "favorite") == Bool(true)) && x.raw == o
  {
    hide ValueOf, LoginOf, FieldList, PartList, KindOf;
  }

  lemma {:induction false} UriMembers(items: seq<Json>, uri: string)
    ensures uri in UriList(items) <==> uri != "" && exists j :: j in items && Holds(AsObject(j), "uri", uri)
  {
    hide ValueOf, AsObject;
    if items != [] {
      UriMembers(items[1..], uri);
      assert items == [items[0]] + items[1..];
      HoldsText(AsObject(items[0]), "uri", uri);
    }
  }

  /** Lists are read entry by entry, in order. */
  lemma {:induction false} UrisInOrder(a: seq<Json>, b: seq<Json>)
    ensures UriList(a + b) == UriList(a) + UriList(b)
  {
    hide TextOf;
    if a == [] {
      assert a + b == b;
    } else {
      assert (a + b)[1..] == a[1..] + b;
      UrisInOrder(a[1..], b);
    }
  }

  /** Only a login has login data, and each of its parts stands under its own key. */
  lemma LoginReads(o: Object)
    requires ParsedCipher(o).Some?
    ensures var x, j := ParsedCipher(o).value, ValueOf(o, "login");
            && (!x.kind.Login? || !j.Obj? ==>
                  x.login.username == "" && x.login.password == "" && x.login.totp == "" && x.login.uris == [])
            && (x.kind.Login? && j.Obj? ==>
                  && Holds(j.fields, "username", x.login.username) && Holds(j.fields, "password", x.login.password)
                  && Holds(j.fields, "totp", x.login.totp)
                  && (!ValueOf(j.fields, "uris").Arr? ==> x.login.uris == [])
                  && forall uri :: uri in x.login.uris <==>
                       uri != "" && ValueOf(j.fields, "uris").Arr?
                       && exists e :: e in ValueOf(j.fields, "uris").items && Holds(AsObject(e), "uri", uri))
  {
    var j := ValueOf(o, "login");
    LoginIs(o);
    hide ValueOf, FieldList, PartList, ParsedCipher, UriList, Holds;
    if j.Obj? {
      LoginTexts(j);
      forall uri
        ensures uri in UriList(AsArray(ValueOf(j.fields, "uris"))) <==>
                uri != "" && exists e :: e in AsArray(ValueOf(j.fields, "uris")) && Holds(AsObject(e), "uri", uri)
      {
        UriMembers(AsArray(ValueOf(j.fields, "uris")), uri);
      }
      UriEnd([]);
    }
  }

  lemma LoginIs(o: Object)
    requires ParsedCipher(o).Some?
    ensures var x := ParsedCipher(o).value;
            x.login == if x.kind.Login? then LoginOf(ValueOf(o, "login")) else NO_LOGIN
  {
    hide ValueOf, LoginOf, FieldList, PartList, KindOf;
  }

  lemma LoginTexts(j: Json)
    requires j.Obj?
    ensures var login := LoginOf(j);
            && Holds(j.fields, "username", login.username) && Holds(j.fields, "password", login.password)
            && Holds(j.fields, "totp", login.totp) && login.uris == UriList(AsArray(ValueOf(j.fields, "uris")))
  {
    hide ValueOf, UriList;
  }

  // ----- card and identity -----

  function Names(fields: seq<Field>): seq<string> {
    seq(|fields|, i requires 0 <= i < |fields| => fields[i].name)
  }

  /** The fields read from an object: one for each of the keys that has a text, in the
      order of the keys, under that key with that text. */
  ghost predicate PartsOf(o: Object, keys: seq<string>, fields: seq<Field>) {
    && Names(fields) == Filter(keys, k => Given(o, k))
    && forall f :: f in fields ==> ValueOf(o, f.name) == Str(f.value) && f.value != "" && f.kind == 0
  }

  lemma NamesFirst(f: Field, rest: seq<Field>)
    ensures Names([f] + rest) == [f.name] + Names(rest)
  {
  }

  lemma TextGiven(o: Object, k: string)
    ensures TextOf(o, k) != "" <==> Given(o, k)
    ensures Given(o, k) ==> ValueOf(o, k) == Str(TextOf(o, k))
  {
  }

  lemma {:induction false} PartsRead(o: Object, keys: seq<string>)
    ensures PartsOf(o, keys, PartList(o, keys))
  {
    hide ValueOf, TextOf, Given, Names;
    if keys == [] {
      assert Names([]) == [] by { NoNames(); }
    } else {
      PartsRead(o, keys[1..]);
      PartStep(o, keys);
      TextGiven(o, keys[0]);
      NamesFirst(Field(keys[0], TextOf(o, keys[0]), 0), PartList(o, keys[1..]));
    }
  }

  lemma NoNames()
    ensures Names([]) == []
  {
  }

  lemma {:induction false} PartMembers(o: Object, keys: seq<string>, k: string, v: string)
    ensures Field(k, v, 0) in PartList(o, keys) <==> k in keys && v != "" && ValueOf(o, k) == Str(v)
  {
    hide ValueOf;
    if keys != [] {
      PartMembers(o, keys[1..], k, v);
      PartStep(o, keys);
      assert keys == [keys[0]] + keys[1..];
    }
  }

  /** A card has the card's six parts and an identity its eighteen; no other item has
      any of them. */
  lemma DetailsRead(o: Object)
    requires ParsedCipher(o).Some?
    ensures var x := ParsedCipher(o).value;
            && (x.kind.Card? ==>
                  PartsOf(AsObject(ValueOf(o, "card")),
                          ["cardholderName", "brand", "number", "expMonth", "expYear", "code"], x.cardFields))
            && (x.kind.Identity? ==>
                  PartsOf(AsObject(ValueOf(o, "identity")),
                          ["title", "firstName", "middleName", "lastName", "address1", "address2", "address3", "city",
                           "state", "postalCode", "country", "company", "email", "phone", "ssn", "username",
                           "passportNumber", "licenseNumber"], x.identityFields))
            && (!x.kind.Card? ==> x.cardFields == []) && (!x.kind.Identity? ==> x.identityFields == [])
  {
    DetailsAre(o);
    hide ParsedCipher, ValueOf, PartList, PartsOf, AsObject;
    PartsRead(AsObject(ValueOf(o, "card")), CARD_KEYS);
    PartsRead(AsObject(ValueOf(o, "identity")), IDENTITY_KEYS);
  }

  lemma DetailsAre(o: Object)
    requires ParsedCipher(o).Some?
    ensures var x := ParsedCipher(o).value;
            && x.cardFields == (if x.kind.Card? then PartList(AsObject(ValueOf(o, "card")), CARD_KEYS) else [])
            && x.identityFields
               == (if x.kind.Identity? then PartList(AsObject(ValueOf(o, "identity")), IDENTITY_KEYS) else [])
            && x.fields == FieldList(AsArray(ValueOf(o, "fields")))
  {
    hide ValueOf, LoginOf, FieldList, PartList, KindOf;
  }

  /** From an object of type 3 with a card, and of type 4 with an identity: exactly the
      parts of that kind of item, each under its key. */
  lemma CardAndIdentity(o: Object, part: Object, k: string, v: string)
    requires Given(o, "id") && Given(o, "name")
    ensures ValueOf(o, "type") == Num(3.0) && ValueOf(o, "card") == Obj(part) ==>
              ParsedCipher(o).Some? && ParsedCipher(o).value.identityFields == []
              && (Field(k, v, 0) in ParsedCipher(o).value.cardFields <==>
                  k in ["cardholderName", "brand", "number", "expMonth", "expYear", "code"]
                  && v != "" && ValueOf(part, k) == Str(v))
    ensures ValueOf(o, "type") == Num(4.0) && ValueOf(o, "identity") == Obj(part) ==>
              ParsedCipher(o).Some? && ParsedCipher(o).value.cardFields == []
              && (Field(k, v, 0) in ParsedCipher(o).value.identityFields <==>
                  k in ["title", "firstName", "middleName", "lastName", "address1", "address2", "address3", "city",
                        "state", "postalCode", "country", "company", "email", "phone", "ssn", "username",
                        "passportNumber", "licenseNumber"]
                  && v != "" && ValueOf(part, k) == Str(v))
  {
    hide ParsedCipher, ValueOf, PartList, Given;
    TypeExactly(o, Card);
    TypeExactly(o, Identity);
    if ParsedCipher(o).Some? {
      DetailsAre(o);
    }
    PartMembers(part, CARD_KEYS, k, v);
    PartMembers(part, IDENTITY_KEYS, k, v);
  }

  // ----- custom fields -----

  predicate IsInt(j: Json, n: int) {
    -0x8000_0000 <= n < 0x8000_0000 && j == Num(n as real)
  }

  /** The number under the key, if it is a whole one that fits an int, and else 0. */
  ghost predicate HoldsInt(o: Object, k: string, n: int) {
    IsInt(ValueOf(o, k), n) || (n == 0 && forall m :: !IsInt(ValueOf(o, k), m))
  }

  lemma HoldsIntIs(o: Object, k: string, n: int)
    ensures AsInt(ValueOf(o, k)) == n <==> HoldsInt(o, k, n)
  {
    hide ValueOf;
    var j := ValueOf(o, k);
    forall m ensures IsInt(j, m) ==> AsInt(j) == m {
      assert (m as real).Floor == m;
    }
    if j.Num? && j.n == j.n.Floor as real && -0x8000_0000 <= j.n.Floor < 0x8000_0000 {
      assert IsInt(j, j.n.Floor);
    }
  }

  /** A field of the entry: its name from "name", its value from "value", its kind from
      "type". */
  ghost predicate FieldIn(j: Json, f: Field) {
    Holds(AsObject(j), "name", f.name) && Holds(AsObject(j), "value", f.value) && HoldsInt(AsObject(j), "type", f.kind)
  }

  lemma FieldInIs(j: Json, f: Field)
    ensures CustomField(j) == f <==> FieldIn(j, f)
  {
    hide ValueOf, Holds, HoldsInt, AsInt, TextOf;
    HoldsText(AsObject(j), "name", f.name);
    HoldsText(AsObject(j), "value", f.value);
    HoldsIntIs(AsObject(j), "type", f.kind);
  }

  lemma {:induction false} FieldMembers(items: seq<Json>, f: Field)
    ensures f in FieldList(items) <==> (f.name != "" || f.value != "") && exists j :: j in items && FieldIn(j, f)
  {
    hide CustomField, FieldIn;
    if items != [] {
      FieldMembers(items[1..], f);
      FieldStep(items);
      assert items == [items[0]] + items[1..];
      FieldInIs(items[0], f);
    }
  }

  lemma {:induction false} FieldsInOrder(a: seq<Json>, b: seq<Json>)
    ensures FieldList(a + b) == FieldList(a) + FieldList(b)
  {
    hide CustomField, FieldList;
    if a == [] {
      FieldEnd(a);
      assert a + b == b;
    } else {
      assert (a + b)[1..] == a[1..] + b;
      FieldsInOrder(a[1..], b);
      FieldStep(a + b);
      FieldStep(a);
    }
  }

  /** The custom fields are those of the entries that have a name or a value. */
  lemma CustomReads(o: Object, f: Field)
    requires ParsedCipher(o).Some?
    ensures f in ParsedCipher(o).value.fields <==>
            && (f.name != "" || f.value != "")
            && ValueOf(o, "fields").Arr? && exists j :: j in ValueOf(o, "fields").items && FieldIn(j, f)
  {
    DetailsAre(o);
    hide ParsedCipher, ValueOf, FieldIn, FieldList, PartList;
    FieldMembers(AsArray(ValueOf(o, "fields")), f);
  }

  // ----- the response -----

  /** An entry in the trash: it has a deletion date. */
  predicate Deleted(j: Json) {
    j.Obj? && Given(j.fields, "deletedDate")
  }

  lemma {:induction false} CipherMembers(items: seq<Json>, x: Cipher)
    ensures x in KeptCiphers(items) <==>
            exists j :: j in items && j.Obj? && !Deleted(j) && ParsedCipher(j.fields) == Some(x)
  {
    hide ParsedCipher, ValueOf;
    if items != [] {
      var n := |items| - 1;
      CipherMembers(items[..n], x);
      assert items == items[..n] + [items[n]];
    }
  }

  lemma {:induction false} CiphersInOrder(a: seq<Json>, b: seq<Json>)
    ensures KeptCiphers(a + b) == KeptCiphers(a) + KeptCiphers(b)
  {
    hide Kept;
    if b == [] {
      assert a + b == a;
    } else {
      var n := |b| - 1;
      assert (a + b)[..|a| + n] == a + b[..n];
      CiphersInOrder(a, b[..n]);
    }
  }

  predicate OrganizationIn(j: Json, org: Organization) {
    Holds(AsObject(j), "id", org.id) && Holds(AsObject(j), "name", org.name) && Holds(AsObject(j), "key", org.key)
  }

  lemma OrganizationInIs(j: Json, org: Organization)
    ensures org == Organization(TextOf(AsObject(j), "id"), TextOf(AsObject(j), "name"), TextOf(AsObject(j), "key")) <==>
            OrganizationIn(j, org)
  {
    hide Holds, TextOf;
    HoldsText(AsObject(j), "id", org.id);
    HoldsText(AsObject(j), "name", org.name);
    HoldsText(AsObject(j), "key", org.key);
  }

  lemma {:induction false} OrganizationMembers(items: seq<Json>, org: Organization)
    ensures org in OrganizationList(items) <==>
            org.id != "" && org.key != "" && exists j :: j in items && OrganizationIn(j, org)
  {
    hide TextOf, OrganizationIn;
    if items != [] {
      var n := |items| - 1;
      OrganizationMembers(items[..n], org);
      OrganizationInIs(items[n], org);
      assert items == items[..n] + [items[n]];
    }
  }

  predicate FolderIn(j: Json, folder: Folder) {
    Holds(AsObject(j), "id", folder.id) && Holds(AsObject(j), "name", folder.name)
  }

  lemma FolderInIs(j: Json, folder: Folder)
    ensures folder == Folder(TextOf(AsObject(j), "id"), TextOf(AsObject(j), "name")) <==> FolderIn(j, folder)
  {
    hide Holds, TextOf;
    HoldsText(AsObject(j), "id", folder.id);
    HoldsText(AsObject(j), "name", folder.name);
  }

  lemma {:induction false} FolderMembers(items: seq<Json>, folder: Folder)
    ensures folder in FolderList(items) <==>
            folder.id != "" && folder.name != "" && exists j :: j in items && FolderIn(j, folder)
  {
    hide TextOf, FolderIn;
    if items != [] {
      var n := |items| - 1;
      FolderMembers(items[..n], folder);
      FolderInIs(items[n], folder);
      assert items == items[..n] + [items[n]];
    }
  }

  predicate InArray(o: Object, k: string, j: Json) {
    ValueOf(o, k).Arr? && j in ValueOf(o, k).items
  }

  /** A response is read if and only if it is an object whose profile is an object with a
      key; then the profile's texts, its organizations, the ciphers outside the trash and
      the folders are those of the entries under their keys. */
  lemma ResponseExactly(doc: Option<Object>)
    ensures ParsedSync(doc).Ok? <==>
            doc.Some? && ValueOf(doc.value, "profile").Obj? && Given(ValueOf(doc.value, "profile").fields, "key")
    ensures ParsedSync(doc).Ok? ==>
              var data, profile := ParsedSync(doc).value, ValueOf(doc.value, "profile").fields;
              && ValueOf(profile, "key") == Str(data.profileKey) && Holds(profile, "privateKey", data.profilePrivateKey)
              && (forall org :: org in data.organizations <==>
                    org.id != "" && org.key != ""
                    && exists j :: InArray(profile, "organizations", j) && OrganizationIn(j, org))
              && (forall x :: x in data.ciphers <==>
                    exists j :: InArray(doc.value, "ciphers", j) && j.Obj? && !Deleted(j)
                                && ParsedCipher(j.fields) == Some(x))
              && (forall folder :: folder in data.folders <==>
                    folder.id != "" && folder.name != ""
                    && exists j :: InArray(doc.value, "folders", j) && FolderIn(j, folder))
  {
    hide OrganizationList, KeptCiphers, FolderList, ValueOf, OrganizationIn, FolderIn, Deleted, ParsedCipher;
    if ParsedSync(doc).Ok? {
      var data, profile := ParsedSync(doc).value, ValueOf(doc.value, "profile").fields;
      forall org
        ensures org in data.organizations <==>
                org.id != "" && org.key != ""
                && exists j :: InArray(profile, "organizations", j) && OrganizationIn(j, org)
      {
        OrganizationMembers(AsArray(ValueOf(profile, "organizations")), org);
        assert forall j :: InArray(profile, "organizations", j) <==> j in AsArray(ValueOf(profile, "organizations"));
      }
      forall x
        ensures x in data.ciphers <==>
                exists j :: InArray(doc.value, "ciphers", j) && j.Obj? && !Deleted(j) && ParsedCipher(j.fields) == Some(x)
      {
        CipherMembers(AsArray(ValueOf(doc.value, "ciphers")), x);
        assert forall j :: InArray(doc.value, "ciphers", j) <==> j in AsArray(ValueOf(doc.value, "ciphers"));
      }
      forall folder
        ensures folder in data.folders <==>
                folder.id != "" && folder.name != ""
                && exists j :: InArray(doc.value, "folders", j) && FolderIn(j, folder)
      {
        FolderMembers(AsArray(ValueOf(doc.value, "folders")), folder);
        assert forall j :: InArray(doc.value, "folders", j) <==> j in AsArray(ValueOf(doc.value, "folders"));
      }
    }
  }
}
