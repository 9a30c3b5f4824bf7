/** Small accounts as the server would send them: inputs on which the vault's promises
    and their exceptions can be seen. They work for every lawful suite. */
module Accounts {
  import opened Words
  import opened Wrappers
  import opened Json
  import opened CipherItem
  import opened SyncParser
  import opened CryptoSuite
  import opened VaultSpec
  import opened VaultRuns
  import EncString

  // ----- the documents -----

  function ProfileOf(key: string, privateKey: string): Object {
    if privateKey == "" then map["key" := Str(key)]
    else map["key" := Str(key), "privateKey" := Str(privateKey)]
  }

  /** A sync response with a protected key, perhaps a private key, and ciphers. */
  function AccountDoc(key: string, privateKey: string, ciphers: seq<Json>): Object {
    map["profile" := Obj(ProfileOf(key, privateKey)), "ciphers" := Arr(ciphers)]
  }

  lemma ProfileReads(key: string, privateKey: string)
    ensures var p := ProfileOf(key, privateKey);
            && TextOf(p, "key") == key && TextOf(p, "privateKey") == privateKey
            && ValueOf(p, "organizations") == Undefined
  {
    assert |"key"| == 3 && |"privateKey"| == 10 && |"organizations"| == 13;
  }

  lemma DocReads(key: string, privateKey: string, ciphers: seq<Json>)
    ensures var o := AccountDoc(key, privateKey, ciphers);
            && ValueOf(o, "profile") == Obj(ProfileOf(key, privateKey))
            && ValueOf(o, "ciphers") == Arr(ciphers) && ValueOf(o, "folders") == Undefined
  {
    assert "profile"[0] == 'p' && "ciphers"[0] == 'c' && "folders"[0] == 'f' && "Folders"[0] == 'F';
  }

  lemma DocParses(key: string, privateKey: string, ciphers: seq<Json>)
    requires key != ""
    ensures ParsedSync(Some(AccountDoc(key, privateKey, ciphers)))
            == Ok(SyncData(key, privateKey, [], KeptCiphers(ciphers), []))
  {
    hide ValueOf, KeptCiphers, AccountDoc, ProfileOf;
    DocReads(key, privateKey, ciphers);
    ProfileReads(key, privateKey);
  }

  // ----- opening them -----

  /** An account's secrets: a user key sealed under a master key. */
  datatype Account = Account(masterKey: bytes, userKey: bytes, iv: bytes) {
    predicate Valid() {
      |masterKey| == 32 && |userKey| == 64 && |iv| == 16
    }

    function Key(): (k: Key)
      requires Valid()
      ensures Sized(k)
    {
      CryptoSuite.Key(userKey[..32], userKey[32..])
    }

    ghost function ProtectedKey(c: Suite): string
      requires Lawful(c) && Valid()
    {
      EncString.OpenSealed(c, userKey, StretchMasterKey(c, masterKey).value, iv);
      EncString.Sealed(c, userKey, StretchMasterKey(c, masterKey).value, iv).value
    }
  }

  lemma ProtectedKeyOpens(c: Suite, a: Account)
    requires Lawful(c) && a.Valid()
    ensures a.ProtectedKey(c) != "" && UserKeyOf(c, a.ProtectedKey(c), a.masterKey) == Ok(a.Key())
  {
    hide EncString.Sealed, EncString.Opened, EncString.Parsed;
    EncString.OpenSealed(c, a.userKey, StretchMasterKey(c, a.masterKey).value, a.iv);
  }

  /** The vault after a document has been loaded and opened with the master key. */
  ghost function Opening(c: Suite, s: State, a: Account, doc: Object): (State, Result<()>) {
    Unlock(c, LoadSync(s, Some(doc)).0, a.masterKey)
  }

  /** An account without folders or organizations opens exactly when its private key and
      its items decrypt. */
  lemma OpensExactly(c: Suite, s: State, a: Account, privateKey: string, ciphers: seq<Json>)
    requires Lawful(c) && a.Valid()
    ensures var held := if privateKey == "" then Ok([]) else EncString.Opened(c, privateKey, a.Key());
            && (Opening(c, s, a, AccountDoc(a.ProtectedKey(c), privateKey, ciphers)).1.Ok? <==>
                held.Ok? && forall x :: x in KeptCiphers(ciphers) ==> Displayable(c, x, a.Key(), map[]))
  {
    hide Unlock, UserKeyOf, Displayable, KeptCiphers, ParsedSync, AccountDoc, EncString.Opened, Reveal;
    ProtectedKeyOpens(c, a);
    DocParses(a.ProtectedKey(c), privateKey, ciphers);
    var t := LoadSync(s, Some(AccountDoc(a.ProtectedKey(c), privateKey, ciphers))).0;
    UnlockExactly(c, t, a.masterKey);
    NoOrganizations(c, t.data);
  }

  lemma NoOrganizations(c: Suite, data: SyncData)
    requires data.organizations == []
    ensures forall privateKey :: OrgKeysFor(c, data, privateKey) == map[]
  {
  }

  /** An open account without ciphers holds the account's key and the private key. */
  lemma OpenedHolds(c: Suite, s: State, a: Account, privateKey: string)
    requires Lawful(c) && a.Valid()
    requires Opening(c, s, a, AccountDoc(a.ProtectedKey(c), privateKey, [])).1.Ok?
    ensures var t := Opening(c, s, a, AccountDoc(a.ProtectedKey(c), privateKey, [])).0;
            && !t.locked && t.userKey == a.Key() && t.data == SyncData(a.ProtectedKey(c), privateKey, [], [], [])
            && (if privateKey == "" then t.privateKey == []
                else EncString.Opened(c, privateKey, a.Key()) == Ok(t.privateKey))
  {
    hide UserKeyOf, ParsedSync, AccountDoc, EncString.Opened, Items, FolderNames, StretchMasterKey;
    ProtectedKeyOpens(c, a);
    DocParses(a.ProtectedKey(c), privateKey, []);
  }

  lemma EmptyOpens(c: Suite, s: State, a: Account)
    requires Lawful(c) && a.Valid()
    ensures var t := Opening(c, s, a, AccountDoc(a.ProtectedKey(c), "", []));
            t.1.Ok? && !t.0.locked && t.0.privateKey == []
  {
    hide Opening, AccountDoc;
    OpensExactly(c, s, a, "", []);
    OpenedHolds(c, s, a, "");
  }

  // ----- one bad item -----

  const BAD_ITEM := Obj(map["id" := Str("1"), "type" := Num(2.0), "name" := Str("x")])

  lemma BadItemReads()
    ensures var o := BAD_ITEM.fields;
            && ValueOf(o, "id") == Str("1") && ValueOf(o, "type") == Num(2.0) && ValueOf(o, "name") == Str("x")
            && ValueOf(o, "organizationId") == Undefined && ValueOf(o, "key") == Undefined
            && ValueOf(o, "deletedDate") == Undefined
  {
    assert |"id"| == 2 && |"type"| == 4 && |"name"| == 4 && |"key"| == 3 && |"Key"| == 3;
    assert |"organizationId"| == 14 && |"deletedDate"| == 11 && "type"[0] == 't' && "name"[0] == 'n';
  }

  lemma BadItemKept()
    ensures |KeptCiphers([BAD_ITEM])| == 1
    ensures var x := KeptCiphers([BAD_ITEM])[0];
            x.name == "x" && x.organizationId == "" && x.key == ""
  {
    hide ValueOf, LoginOf, FieldList, PartList;
    BadItemReads();
    assert [BAD_ITEM][..0] == [];
  }

  lemma NotAnEncString()
    ensures EncString.Parsed("x").Err?
  {
  }

  lemma BadItemFails(c: Suite, x: Cipher, userKey: Key, orgKeys: map<string, Key>)
    requires x.name == "x" && x.organizationId == "" && x.key == ""
    ensures !Displayable(c, x, userKey, orgKeys)
  {
    hide EncString.Parsed;
    NotAnEncString();
  }

  /** One item whose name does not decrypt: the document parses, the same account
      without it opens, and with it the right master password opens nothing. */
  lemma OneBadItem(c: Suite, s: State, a: Account)
    requires Lawful(c) && a.Valid()
    ensures var key := a.ProtectedKey(c);
            && ParsedSync(Some(AccountDoc(key, "", [BAD_ITEM]))).Ok?
            && Opening(c, s, a, AccountDoc(key, "", [])).1.Ok?
            && Opening(c, s, a, AccountDoc(key, "", [BAD_ITEM])).1.Err?
  {
    hide Opening, AccountDoc, Displayable, ParsedSync, KeptCiphers, EncString.Opened;
    ProtectedKeyOpens(c, a);
    DocParses(a.ProtectedKey(c), "", [BAD_ITEM]);
    EmptyOpens(c, s, a);
    OpensExactly(c, s, a, "", [BAD_ITEM]);
    BadItemKept();
    var x := KeptCiphers([BAD_ITEM])[0];
    BadItemFails(c, x, a.Key(), map[]);
    assert x in KeptCiphers([BAD_ITEM]);
  }

  // ----- a private key that disappears -----

  /** An open account with a private key reloads a document without one: the reload
      succeeds and the old key stays, where loading and unlocking leaves none. */
  lemma StalePrivateKey(c: Suite, a: Account, der: bytes, iv: bytes)
    requires Lawful(c) && a.Valid() && der != [] && |iv| == 16
    ensures EncString.Sealed(c, der, a.Key(), iv).Ok?
    ensures var key := a.ProtectedKey(c);
            var s := Opening(c, INITIAL, a, AccountDoc(key, EncString.Sealed(c, der, a.Key(), iv).value, [])).0;
            var next := AccountDoc(key, "", []);
            && !s.locked
            && ReloadSync(c, s, Some(next)).1.Ok? && ReloadSync(c, s, Some(next)).0.privateKey == der
            && Opening(c, s, a, next).1.Ok? && Opening(c, s, a, next).0.privateKey == []
  {
    hide Opening, AccountDoc, EncString.Sealed, EncString.Opened, EncString.Parsed, ReloadSync, KeptCiphers, Displayable;
    EncString.OpenSealed(c, der, a.Key(), iv);
    var privateKey := EncString.Sealed(c, der, a.Key(), iv).value;
    assert KeptCiphers([]) == [] by { NothingKept(); }
    OpensExactly(c, INITIAL, a, privateKey, []);
    OpenedHolds(c, INITIAL, a, privateKey);
    var s := Opening(c, INITIAL, a, AccountDoc(a.ProtectedKey(c), privateKey, [])).0;
    EmptyOpens(c, s, a);
    ReloadKeepsKey(c, s, a);
  }

  lemma NothingKept()
    ensures KeptCiphers([]) == []
  {
  }

  lemma ReloadKeepsKey(c: Suite, s: State, a: Account)
    requires Lawful(c) && a.Valid() && !s.locked && s.data.profileKey == a.ProtectedKey(c)
    ensures var r := ReloadSync(c, s, Some(AccountDoc(a.ProtectedKey(c), "", [])));
            r.1.Ok? && r.0.privateKey == s.privateKey
  {
    hide ParsedSync, AccountDoc, KeptCiphers;
    ProtectedKeyOpens(c, a);
    DocParses(a.ProtectedKey(c), "", []);
    NothingKept();
  }
}
