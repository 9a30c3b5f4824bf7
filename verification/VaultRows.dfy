/** What an open vault holds and shows: which key an item is read with, and what its row,
    the organization keys and the folder names say, part by part. */
module VaultRows {
  import opened Words
  import opened Wrappers
  import opened CipherItem
  import opened StableSort
  import opened SyncParser
  import opened CryptoSuite
  import opened VaultSpec
  import opened VaultRuns
  import EncString

  // ----- keys -----

  /** The halves of 64 bytes. */
  predicate Halves(raw: bytes, k: Key) {
    |raw| == 64 && k.encKey == raw[..32] && k.macKey == raw[32..]
  }

  /** The account's user key: what the protected key opens to under the two expansions of
      the master key. */
  ghost predicate UserKeyIs(c: Suite, protectedKey: string, masterKey: bytes, k: Key) {
    && |masterKey| == 32
    && var stretched := Key(c.hkdfExpand(masterKey, "enc"), c.hkdfExpand(masterKey, "mac"));
       EncString.Opened(c, protectedKey, stretched).Ok? && Halves(EncString.Opened(c, protectedKey, stretched).value, k)
  }

  lemma UserKeyExactly(c: Suite, protectedKey: string, masterKey: bytes, k: Key)
    ensures UserKeyOf(c, protectedKey, masterKey) == Ok(k) <==> UserKeyIs(c, protectedKey, masterKey, k)
  {
    hide EncString.Opened;
  }

  /** The owner of an item is the user or its organization. */
  predicate OwnerIs(s: State, x: Cipher, k: Key) {
    if x.organizationId == "" then k == s.userKey
    else x.organizationId in s.orgKeys && k == s.orgKeys[x.organizationId]
  }

  /** An item is read with its own key if it has one, sealed under its owner's, and else
      with its owner's. */
  ghost predicate KeyIs(c: Suite, s: State, x: Cipher, k: Key) {
    exists owner :: OwnerIs(s, x, owner) && ItemKeyIs(c, x.key, owner, k)
  }

  ghost predicate ItemKeyIs(c: Suite, text: string, owner: Key, k: Key) {
    if text == "" then k == owner
    else EncString.Opened(c, text, owner).Ok? && Halves(EncString.Opened(c, text, owner).value, k)
  }

  lemma KeyExactly(c: Suite, s: State, x: Cipher, k: Key)
    ensures CipherKey(c, x, s.userKey, s.orgKeys) == Ok(k) <==> KeyIs(c, s, x, k)
  {
    hide EncString.Opened;
    if x.organizationId == "" {
      assert OwnerIs(s, x, s.userKey);
    } else if x.organizationId in s.orgKeys {
      assert OwnerIs(s, x, s.orgKeys[x.organizationId]);
    }
  }

  /** The item's key can be had. */
  ghost predicate HasKey(c: Suite, s: State, x: Cipher) {
    exists k :: KeyIs(c, s, x, k)
  }

  lemma HasKeyExactly(c: Suite, s: State, x: Cipher)
    ensures CipherKey(c, x, s.userKey, s.orgKeys).Ok? <==> HasKey(c, s, x)
  {
    hide CipherKey, KeyIs;
    var r := CipherKey(c, x, s.userKey, s.orgKeys);
    if r.Ok? {
      KeyExactly(c, s, x, r.value);
    }
    if HasKey(c, s, x) {
      var k :| KeyIs(c, s, x, k);
      KeyExactly(c, s, x, k);
    }
  }

  /** A wrapped organization key: type 4, and 64 bytes behind the private key. */
  ghost predicate Unwraps(c: Suite, wrapped: string, privateKey: bytes, k: Key) {
    && EncString.Parsed(wrapped).Ok? && EncString.Parsed(wrapped).value.kind == 4
    && var raw := c.rsaDecrypt(privateKey, EncString.Parsed(wrapped).value.ciphertext); raw.Ok? && Halves(raw.value, k)
  }

  ghost predicate Unwrappable(c: Suite, wrapped: string, privateKey: bytes) {
    exists k :: Unwraps(c, wrapped, privateKey, k)
  }

  lemma UnwrapsExactly(c: Suite, wrapped: string, privateKey: bytes, k: Key)
    ensures OrganizationKey(c, wrapped, privateKey) == Ok(k) <==> Unwraps(c, wrapped, privateKey, k)
  {
    hide EncString.Parsed;
  }

  lemma UnwrappableExactly(c: Suite, wrapped: string, privateKey: bytes)
    ensures OrganizationKey(c, wrapped, privateKey).Ok? <==> Unwrappable(c, wrapped, privateKey)
  {
    hide OrganizationKey, Unwraps;
    if OrganizationKey(c, wrapped, privateKey).Ok? {
      UnwrapsExactly(c, wrapped, privateKey, OrganizationKey(c, wrapped, privateKey).value);
    }
    if Unwrappable(c, wrapped, privateKey) {
      var k :| Unwraps(c, wrapped, privateKey, k);
      UnwrapsExactly(c, wrapped, privateKey, k);
    }
  }

  /** Entry i is the first of its organization whose key unwraps. */
  ghost predicate FirstOf(c: Suite, orgs: seq<Organization>, privateKey: bytes, id: string, i: int) {
    && 0 <= i < |orgs| && orgs[i].id == id && Unwrappable(c, orgs[i].key, privateKey)
    && forall j :: 0 <= j < i ==> orgs[j].id != id || !Unwrappable(c, orgs[j].key, privateKey)
  }

  ghost predicate OrganizationKeyIs(c: Suite, orgs: seq<Organization>, privateKey: bytes, id: string, k: Key) {
    privateKey != [] &&
    exists i :: FirstOf(c, orgs, privateKey, id, i) && UnwrapsAt(c, orgs, privateKey, i, k)
  }

  /** One entry more: earlier firsts stay, and it is the first if there was none. */
  lemma FirstLast(c: Suite, orgs: seq<Organization>, privateKey: bytes, id: string)
    requires orgs != []
    ensures var n := |orgs| - 1;
            && (forall i :: i != n ==> (FirstOf(c, orgs[..n], privateKey, id, i) <==> FirstOf(c, orgs, privateKey, id, i)))
            && (FirstOf(c, orgs, privateKey, id, n) <==>
                orgs[n].id == id && Unwrappable(c, orgs[n].key, privateKey)
                && forall i :: !FirstOf(c, orgs[..n], privateKey, id, i))
  {
    hide Unwrappable;
    var n := |orgs| - 1;
    forall i | i != n ensures FirstOf(c, orgs[..n], privateKey, id, i) <==> FirstOf(c, orgs, privateKey, id, i) {
      assert forall j :: 0 <= j < i < n ==> orgs[..n][j] == orgs[j];
    }
    if forall i :: !FirstOf(c, orgs[..n], privateKey, id, i) {
      forall j | 0 <= j < n ensures orgs[j].id != id || !Unwrappable(c, orgs[j].key, privateKey) {
        NoneBefore(c, orgs[..n], privateKey, id, j);
      }
    }
  }

  /** Without a first entry no key of the organization unwraps. */
  lemma {:induction false} NoneBefore(c: Suite, orgs: seq<Organization>, privateKey: bytes, id: string, j: nat)
    requires j < |orgs| && forall i :: !FirstOf(c, orgs, privateKey, id, i)
    ensures orgs[j].id != id || !Unwrappable(c, orgs[j].key, privateKey)
    decreases j
  {
    hide Unwrappable;
    forall i: nat | i < j ensures orgs[i].id != id || !Unwrappable(c, orgs[i].key, privateKey) {
      NoneBefore(c, orgs, privateKey, id, i);
    }
    assert !FirstOf(c, orgs, privateKey, id, j);
  }

  lemma {:induction false} OrganizationKeysAre(c: Suite, orgs: seq<Organization>, privateKey: bytes, id: string, k: Key)
    ensures id in OrganizationKeys(c, orgs, privateKey) <==> exists i :: FirstOf(c, orgs, privateKey, id, i)
    ensures (id in OrganizationKeys(c, orgs, privateKey) && OrganizationKeys(c, orgs, privateKey)[id] == k)
            <==> exists i :: FirstOf(c, orgs, privateKey, id, i) && UnwrapsAt(c, orgs, privateKey, i, k)
  {
    hide OrganizationKey, Unwraps, Unwrappable, FirstOf;
    if orgs == [] {
      NoFirst(c, privateKey, id);
    } else {
      var n := |orgs| - 1;
      OrganizationKeysAre(c, orgs[..n], privateKey, id, k);
      UnwrapsExactly(c, orgs[n].key, privateKey, k);
      UnwrappableExactly(c, orgs[n].key, privateKey);
      FirstLast(c, orgs, privateKey, id);
      OneFirst(c, orgs, privateKey, id);
      OneFirst(c, orgs[..n], privateKey, id);
      assert forall i :: 0 <= i < n ==> (UnwrapsAt(c, orgs[..n], privateKey, i, k) <==> UnwrapsAt(c, orgs, privateKey, i, k));
      if OrganizationKeys(c, orgs[..n], privateKey) != OrganizationKeys(c, orgs, privateKey) && orgs[n].id == id {
        assert FirstOf(c, orgs, privateKey, id, n);
        assert UnwrapsAt(c, orgs, privateKey, n, k) <==> Unwraps(c, orgs[n].key, privateKey, k);
      }
    }
  }

  ghost predicate UnwrapsAt(c: Suite, orgs: seq<Organization>, privateKey: bytes, i: int, k: Key) {
    0 <= i < |orgs| && Unwraps(c, orgs[i].key, privateKey, k)
  }

  lemma NoFirst(c: Suite, privateKey: bytes, id: string)
    ensures forall i :: !FirstOf(c, [], privateKey, id, i)
  {
  }

  lemma OneFirst(c: Suite, orgs: seq<Organization>, privateKey: bytes, id: string)
    ensures forall i, j :: FirstOf(c, orgs, privateKey, id, i) && FirstOf(c, orgs, privateKey, id, j) ==> i == j
    ensures forall i :: FirstOf(c, orgs, privateKey, id, i) ==> 0 <= i < |orgs|
  {
    hide Unwrappable;
    forall i, j | FirstOf(c, orgs, privateKey, id, i) && FirstOf(c, orgs, privateKey, id, j) ensures i == j {
      assert !(i < j) && !(j < i);
    }
  }

  // ----- rows -----

  /** The stored text opens to the plain one. */
  ghost predicate Opens(c: Suite, text: string, k: Key, plain: string) {
    EncString.Opened(c, text, k).Ok? && plain == c.fromUtf8(EncString.Opened(c, text, k).value)
  }

  /** A part that may be missing. */
  ghost predicate OpensIfAny(c: Suite, text: string, k: Key, plain: string) {
    if text == "" then plain == "" else Opens(c, text, k, plain)
  }

  /** The row of an item read with a key. */
  ghost predicate RowOf(c: Suite, x: Cipher, k: Key, item: Item) {
    && item.id == x.id && item.kind == x.kind && item.favorite == x.favorite
    && item.folderId == x.folderId && item.organizationId == x.organizationId
    && Opens(c, x.name, k, item.name)
    && (if x.kind.Login? then
          && OpensIfAny(c, x.login.username, k, item.username)
          && (if x.login.uris == [] then item.primaryUri == "" else Opens(c, x.login.uris[0], k, item.primaryUri))
          && (item.hasPassword <==> x.login.password != "")
          && (item.hasTotp <==> x.login.totp != "")
        else item.username == "" && item.primaryUri == "" && !item.hasPassword && !item.hasTotp)
    && (item.hasNotes <==> x.notes != "")
    && (item.hasDetails <==> x.fields != [] || x.cardFields != [] || x.identityFields != [])
  }

  lemma RowExactly(c: Suite, x: Cipher, k: Key, item: Item)
    ensures ItemOf(c, x, k) == Ok(item) <==> RowOf(c, x, k, item)
  {
    hide EncString.Opened;
  }

  ghost predicate RowAt(c: Suite, s: State, x: Cipher, item: Item) {
    exists k :: KeyIs(c, s, x, k) && RowOf(c, x, k, item)
  }

  lemma RowAtExactly(c: Suite, s: State, x: Cipher, item: Item)
    ensures (CipherKey(c, x, s.userKey, s.orgKeys).Ok?
             && ItemOf(c, x, CipherKey(c, x, s.userKey, s.orgKeys).value) == Ok(item)) <==> RowAt(c, s, x, item)
  {
    hide CipherKey, ItemOf, KeyIs, RowOf;
    var r := CipherKey(c, x, s.userKey, s.orgKeys);
    if r.Ok? {
      KeyExactly(c, s, x, r.value);
      RowExactly(c, x, r.value, item);
    }
    if RowAt(c, s, x, item) {
      var k :| KeyIs(c, s, x, k) && RowOf(c, x, k, item);
      KeyExactly(c, s, x, k);
      RowExactly(c, x, k, item);
    }
  }

  ghost function Keyed(c: Suite, s: State): Cipher -> bool {
    (x: Cipher) => HasKey(c, s, x)
  }

  /** The rows, one for each item whose key can be had, in the items' order. */
  ghost predicate RowsOf(c: Suite, s: State, ciphers: seq<Cipher>, items: seq<Item>) {
    && |items| == |Filter(ciphers, Keyed(c, s))|
    && forall i :: 0 <= i < |items| ==> RowAt(c, s, Filter(ciphers, Keyed(c, s))[i], items[i])
  }

  lemma {:induction false} FilterLast<T(!new)>(a: seq<T>, x: T, p: T -> bool)
    ensures Filter(a + [x], p) == Filter(a, p) + (if p(x) then [x] else [])
  {
    if a == [] {
      assert a + [x] == [x];
    } else {
      assert (a + [x])[1..] == a[1..] + [x];
      FilterLast(a[1..], x, p);
    }
  }

  lemma {:induction false} ItemsAre(c: Suite, s: State, ciphers: seq<Cipher>)
    requires Items(c, ciphers, s.userKey, s.orgKeys).Ok?
    ensures RowsOf(c, s, ciphers, Items(c, ciphers, s.userKey, s.orgKeys).value)
  {
    hide CipherKey, ItemOf, RowAt, HasKey, Filter;
    if ciphers == [] {
      NoneKept(Keyed(c, s));
    } else {
      var n := |ciphers| - 1;
      ItemsAre(c, s, ciphers[..n]);
      assert ciphers == ciphers[..n] + [ciphers[n]];
      FilterLast(ciphers[..n], ciphers[n], Keyed(c, s));
      HasKeyExactly(c, s, ciphers[n]);
      if HasKey(c, s, ciphers[n]) {
        RowAtExactly(c, s, ciphers[n],
                     ItemOf(c, ciphers[n], CipherKey(c, ciphers[n], s.userKey, s.orgKeys).value).value);
      }
    }
  }

  lemma NoneKept<T(!new)>(p: T -> bool)
    ensures Filter([], p) == []
  {
  }

  // ----- folder names -----

  /** The last entry of a repeated folder id names it. */
  ghost predicate FolderNameIs(c: Suite, folders: seq<Folder>, userKey: Key, id: string, name: string) {
    exists i :: LastOf(folders, id, i) && 0 <= i < |folders| && Opens(c, folders[i].name, userKey, name)
  }

  predicate LastOf(folders: seq<Folder>, id: string, i: int) {
    0 <= i < |folders| && folders[i].id == id && forall j :: i < j < |folders| ==> folders[j].id != id
  }

  lemma RevealIs(c: Suite, text: string, k: Key, plain: string)
    ensures Reveal(c, text, k) == Ok(plain) <==> Opens(c, text, k, plain)
  {
    hide EncString.Opened;
  }

  lemma LastLast(folders: seq<Folder>, id: string)
    requires folders != []
    ensures var n := |folders| - 1;
            && (forall i :: LastOf(folders, id, i) <==>
                  if folders[n].id == id then i == n else LastOf(folders[..n], id, i))
            && (forall i :: LastOf(folders[..n], id, i) ==> 0 <= i < n)
  {
    var n := |folders| - 1;
    assert forall j :: 0 <= j < n ==> folders[..n][j] == folders[j];
  }

  lemma {:induction false} FolderNamesAre(c: Suite, folders: seq<Folder>, userKey: Key, id: string, name: string)
    requires FolderNames(c, folders, userKey).Ok?
    ensures var names := FolderNames(c, folders, userKey).value;
            (id in names && names[id] == name) <==> FolderNameIs(c, folders, userKey, id, name)
  {
    hide Reveal, Opens, LastOf;
    if folders == [] {
      NoLast(id);
    } else {
      var n := |folders| - 1;
      FolderNamesAre(c, folders[..n], userKey, id, name);
      RevealIs(c, folders[n].name, userKey, name);
      LastLast(folders, id);
    }
  }

  lemma NoLast(id: string)
    ensures forall i :: !LastOf([], id, i)
  {
  }

  // ----- an open vault -----

  /** Keys, folder names and rows of an open vault are those of its data: the user key
      behind the protected key, the private key if the data has one, the organization keys
      behind it, and everything shown read with them. */
  ghost predicate Contents(c: Suite, s: State) {
    && (exists masterKey :: UserKeyIs(c, s.data.profileKey, masterKey, s.userKey))
    && (s.data.profilePrivateKey != "" ==> EncString.Opened(c, s.data.profilePrivateKey, s.userKey) == Ok(s.privateKey))
    && (forall id, k :: (id in s.orgKeys && s.orgKeys[id] == k)
                        <==> OrganizationKeyIs(c, s.data.organizations, s.privateKey, id, k))
    && (forall id, name :: (id in s.folderNames && s.folderNames[id] == name)
                           <==> FolderNameIs(c, s.data.folders, s.userKey, id, name))
    && RowsOf(c, s, s.data.ciphers, s.items)
  }

  lemma CurrentContents(c: Suite, s: State)
    requires Current(c, s)
    ensures Contents(c, s)
  {
    hide EncString.Opened, UserKeyOf, UserKeyIs, OrganizationKeys, FolderNames, Items, RowsOf, OrganizationKeyIs,
         FolderNameIs;
    var masterKey :| UserKeyOf(c, s.data.profileKey, masterKey) == Ok(s.userKey);
    UserKeyExactly(c, s.data.profileKey, masterKey, s.userKey);
    forall id, k
      ensures (id in s.orgKeys && s.orgKeys[id] == k)
              <==> OrganizationKeyIs(c, s.data.organizations, s.privateKey, id, k)
    {
      OrgKeysAre(c, s.data, s.privateKey, id, k);
    }
    forall id, name
      ensures (id in s.folderNames && s.folderNames[id] == name)
              <==> FolderNameIs(c, s.data.folders, s.userKey, id, name)
    {
      FolderNamesAre(c, s.data.folders, s.userKey, id, name);
    }
    ItemsAre(c, s, s.data.ciphers);
  }

  lemma OrgKeysAre(c: Suite, data: SyncData, privateKey: bytes, id: string, k: Key)
    ensures var keys := OrgKeysFor(c, data, privateKey);
            (id in keys && keys[id] == k) <==> OrganizationKeyIs(c, data.organizations, privateKey, id, k)
  {
    hide OrganizationKeys, FirstOf, UnwrapsAt;
    OrganizationKeysAre(c, data.organizations, privateKey, id, k);
  }

  /** After every run of the vault's operations: locked and without any of it, or open
      with exactly the contents of its data. */
  lemma ContentsOverRuns(c: Suite, ops: seq<Op>)
    ensures var s := Run(c, INITIAL, ops); if s.locked then Wiped(s) else Contents(c, s)
  {
    hide Contents, Run, Current;
    Lifecycle(c, ops);
    var s := Run(c, INITIAL, ops);
    if !s.locked {
      CurrentContents(c, s);
    }
  }

  // ----- sealed parts -----

  /** The text seals the plain one under the key, with any iv. */
  ghost predicate Seals(c: Suite, text: string, k: Key, plain: string) {
    exists iv: bytes :: |iv| == 16 && EncString.Sealed(c, c.toUtf8(plain), k, iv) == Ok(text)
  }

  lemma SealsOpens(c: Suite, text: string, k: Key, plain: string, shown: string)
    requires Lawful(c) && Sized(k) && Seals(c, text, k, plain)
    ensures text != "" && (Opens(c, text, k, shown) <==> shown == plain)
  {
    hide EncString.Sealed, EncString.Opened;
    var iv: bytes :| |iv| == 16 && EncString.Sealed(c, c.toUtf8(plain), k, iv) == Ok(text);
    EncString.OpenSealed(c, c.toUtf8(plain), k, iv);
  }

  /** The row that an open vault shows for a login whose parts are sealed under its key:
      each of the texts in its place, and marks for the parts that are stored. */
  lemma SealedRow(c: Suite, s: State, x: Cipher, k: Key, name: string, username: string, uri: string)
    requires Lawful(c) && Inv(c, s) && !s.locked && x in s.data.ciphers && KeyIs(c, s, x, k)
    requires x.kind.Login? && Seals(c, x.name, k, name)
    requires Seals(c, x.login.username, k, username) && x.login.uris != [] && Seals(c, x.login.uris[0], k, uri)
    ensures exists item :: item in s.items && item.id == x.id
              && item.name == name && item.username == username && item.primaryUri == uri
              && (item.hasPassword <==> x.login.password != "") && (item.hasTotp <==> x.login.totp != "")
              && (item.hasNotes <==> x.notes != "")
              && (item.hasDetails <==> x.fields != [] || x.cardFields != [] || x.identityFields != [])
  {
    hide Inv, CipherKey, KeyIs, Opens, Seals;
    KeyIsSized(c, s, x, k);
    var item := ShownRow(c, s, x, k);
    SealsOpens(c, x.name, k, name, item.name);
    SealsOpens(c, x.login.username, k, username, item.username);
    SealsOpens(c, x.login.uris[0], k, uri, item.primaryUri);
  }

  lemma KeyIsSized(c: Suite, s: State, x: Cipher, k: Key)
    requires Inv(c, s) && !s.locked && KeyIs(c, s, x, k)
    ensures Sized(k)
  {
    hide Inv, CipherKey, KeyIs;
    KeyExactly(c, s, x, k);
    ResolvedKeysSized(c, s, x);
  }

  /** Every item with a key has a row. */
  lemma ShownRow(c: Suite, s: State, x: Cipher, k: Key) returns (item: Item)
    requires Inv(c, s) && !s.locked && x in s.data.ciphers && KeyIs(c, s, x, k)
    ensures item in s.items && RowOf(c, x, k, item)
  {
    hide Current, RowOf, Contents, RowsOf, CipherKey;
    CurrentContents(c, s);
    RowsOfVault(c, s);
    KeyExactly(c, s, x, k);
    item := RowFor(c, s, x);
    var j :| KeyIs(c, s, x, j) && RowOf(c, x, j, item);
    KeyExactly(c, s, x, j);
  }

  lemma RowsOfVault(c: Suite, s: State)
    requires Contents(c, s)
    ensures RowsOf(c, s, s.data.ciphers, s.items)
  {
  }

  lemma RowFor(c: Suite, s: State, x: Cipher) returns (item: Item)
    requires RowsOf(c, s, s.data.ciphers, s.items) && x in s.data.ciphers && HasKey(c, s, x)
    ensures item in s.items && RowAt(c, s, x, item)
  {
    hide HasKey, RowAt;
    var shown := Filter(s.data.ciphers, Keyed(c, s));
    assert x in shown;
    var i :| 0 <= i < |shown| && shown[i] == x;
    item := s.items[i];
  }
}
