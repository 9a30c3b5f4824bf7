/** An account with an organization, as the server would send it: which key each of its
    items is read with. It works for every lawful suite, all keys and all names. */
module OrganizationAccount {
  import opened Words
  import opened Wrappers
  import opened Json
  import opened CipherItem
  import opened SyncParser
  import opened CryptoSuite
  import opened VaultSpec
  import opened VaultRuns
  import opened VaultRows
  import opened EditedRows
  import opened Accounts
  import EncString
  import Base64
  import Splitting

  // ----- the documents -----

  function NoteObject(id: string, organizationId: string, key: string, name: string): Object {
    map["id" := Str(id), "type" := Num(2.0), "name" := Str(name), "organizationId" := Str(organizationId),
        "key" := Str(key)]
  }

  /** A note as it is read: nothing but its name. */
  function NoteOf(id: string, organizationId: string, key: string, name: string): Cipher {
    Cipher(id, SecureNote, "", organizationId, false, key, name, "", NO_LOGIN, [], [], [],
           NoteObject(id, organizationId, key, name))
  }

  lemma NoteReads(id: string, organizationId: string, key: string, name: string)
    ensures var o := NoteObject(id, organizationId, key, name);
            && ValueOf(o, "id") == Str(id) && ValueOf(o, "type") == Num(2.0) && ValueOf(o, "name") == Str(name)
            && ValueOf(o, "organizationId") == Str(organizationId) && ValueOf(o, "key") == Str(key)
  {
    assert |"id"| == 2 && |"type"| == 4 && |"name"| == 4 && |"organizationId"| == 14 && |"key"| == 3;
    assert "type"[0] == 't' && "name"[0] == 'n';
  }

  lemma NoteLacks(id: string, organizationId: string, key: string, name: string, k: string)
    requires |k| != 2 && |k| != 3 && |k| != 4 && |k| != 14
    ensures ValueOf(NoteObject(id, organizationId, key, name), k) == Undefined
  {
    assert |"id"| == 2 && |"type"| == 4 && |"name"| == 4 && |"organizationId"| == 14 && |"key"| == 3;
    assert |Pascal(k)| == |k|;
  }

  lemma NoteHasNoMore(id: string, organizationId: string, key: string, name: string)
    ensures var o := NoteObject(id, organizationId, key, name);
            && ValueOf(o, "folderId") == Undefined && ValueOf(o, "favorite") == Undefined
            && ValueOf(o, "notes") == Undefined && ValueOf(o, "fields") == Undefined
            && ValueOf(o, "deletedDate") == Undefined
  {
    hide ValueOf, NoteObject;
    NoteLacks(id, organizationId, key, name, "folderId");
    NoteLacks(id, organizationId, key, name, "favorite");
    NoteLacks(id, organizationId, key, name, "notes");
    NoteLacks(id, organizationId, key, name, "fields");
    NoteLacks(id, organizationId, key, name, "deletedDate");
  }

  lemma NoteParses(id: string, organizationId: string, key: string, name: string)
    requires id != "" && name != ""
    ensures Kept(Obj(NoteObject(id, organizationId, key, name))) == Some(NoteOf(id, organizationId, key, name))
  {
    hide ValueOf, LoginOf, FieldList, PartList, NoteObject;
    NoteReads(id, organizationId, key, name);
    NoteHasNoMore(id, organizationId, key, name);
    FieldEnd([]);
  }

  function ProfileWith(key: string, privateKey: string, organizations: seq<Json>): Object {
    map["key" := Str(key), "privateKey" := Str(privateKey), "organizations" := Arr(organizations)]
  }

  function OrganizationObject(id: string, key: string): Object {
    map["id" := Str(id), "key" := Str(key)]
  }

  /** A sync response with one organization. */
  function SharedDoc(key: string, privateKey: string, wrapped: string, ciphers: seq<Json>): Object {
    map["profile" := Obj(ProfileWith(key, privateKey, [Obj(OrganizationObject("o", wrapped))])),
        "ciphers" := Arr(ciphers)]
  }

  lemma ProfileWithReads(key: string, privateKey: string, organizations: seq<Json>)
    ensures var p := ProfileWith(key, privateKey, organizations);
            && TextOf(p, "key") == key && TextOf(p, "privateKey") == privateKey
            && ValueOf(p, "organizations") == Arr(organizations)
  {
    assert |"key"| == 3 && |"privateKey"| == 10 && |"organizations"| == 13;
  }

  lemma OrganizationReads(id: string, key: string)
    requires id != "" && key != ""
    ensures OrganizationList([Obj(OrganizationObject(id, key))]) == [Organization(id, "", key)]
  {
    var o := OrganizationObject(id, key);
    assert |"id"| == 2 && |"key"| == 3 && |"name"| == 4 && |"Name"| == 4;
    assert TextOf(o, "id") == id && TextOf(o, "key") == key && TextOf(o, "name") == "";
    var one, none: seq<Json> := [Obj(o)], [];
    assert one[..|one| - 1] == none && OrganizationList(none) == [];
    assert [] + [Organization(id, "", key)] == [Organization(id, "", key)];
  }

  lemma SharedDocReads(key: string, privateKey: string, wrapped: string, ciphers: seq<Json>)
    ensures var o := SharedDoc(key, privateKey, wrapped, ciphers);
            && ValueOf(o, "profile") == Obj(ProfileWith(key, privateKey, [Obj(OrganizationObject("o", wrapped))]))
            && ValueOf(o, "ciphers") == Arr(ciphers) && ValueOf(o, "folders") == Undefined
  {
    assert "profile"[0] == 'p' && "ciphers"[0] == 'c' && "folders"[0] == 'f' && "Folders"[0] == 'F';
  }

  lemma SharedDocParses(key: string, privateKey: string, wrapped: string, ciphers: seq<Json>)
    requires key != "" && wrapped != ""
    ensures ParsedSync(Some(SharedDoc(key, privateKey, wrapped, ciphers)))
            == Ok(SyncData(key, privateKey, [Organization("o", "", wrapped)], KeptCiphers(ciphers), []))
  {
    hide ValueOf, KeptCiphers, SharedDoc, ProfileWith, OrganizationList;
    SharedDocReads(key, privateKey, wrapped, ciphers);
    ProfileWithReads(key, privateKey, [Obj(OrganizationObject("o", wrapped))]);
    OrganizationReads("o", wrapped);
  }

  function Objects(ciphers: seq<Cipher>): (r: seq<Json>)
    ensures |r| == |ciphers|
  {
    seq(|ciphers|, i requires 0 <= i < |ciphers| => Obj(ciphers[i].raw))
  }

  lemma {:induction false} AllKept(items: seq<Json>, ciphers: seq<Cipher>)
    requires |items| == |ciphers| && forall i :: 0 <= i < |items| ==> Kept(items[i]) == Some(ciphers[i])
    ensures KeptCiphers(items) == ciphers
  {
    hide Kept;
    if items != [] {
      var n := |items| - 1;
      AllKept(items[..n], ciphers[..n]);
      assert ciphers == ciphers[..n] + [ciphers[n]];
    }
  }

  // ----- keys and names -----

  /** The organization's side: the private key, the wrapped key and what is behind it. */
  datatype Shared = Shared(privateKey: bytes, wrapped: bytes, raw: bytes, itemRaw: bytes) {
    ghost predicate Valid(c: Suite) {
      privateKey != [] && wrapped != [] && |raw| == 64 && |itemRaw| == 64 && c.rsaDecrypt(privateKey, wrapped) == Ok(raw)
    }

    function OrgKey(): (k: Key)
      requires |raw| == 64
      ensures Sized(k)
    {
      Key(raw[..32], raw[32..])
    }

    function ItemKey(): (k: Key)
      requires |itemRaw| == 64
      ensures Sized(k)
    {
      Key(itemRaw[..32], itemRaw[32..])
    }

    /** The organization's key as it is stored. */
    ghost function Text(): string {
      "4." + Base64.Text(wrapped)
    }
  }

  lemma WrappedUnwraps(c: Suite, h: Shared)
    requires h.Valid(c)
    ensures Unwraps(c, h.Text(), h.privateKey, h.OrgKey()) && h.Text() != ""
  {
    hide EncString.Parsed, Base64.Parsed, Base64.Text, EncString.ParsedType2, Splitting.Split;
    var a := Base64.Text(h.wrapped);
    Base64.RoundTrip(h.wrapped);
    EncString.AcceptedIsFree(a, '|');
    EncString.TwoDigits("4", 4);
    EncString.ParsedAt("4", a);
    Splitting.SplitJoin([a], '|');
    assert "4" + "." + a == h.Text();
  }

  lemma KeysAre(c: Suite, data: SyncData, h: Shared)
    requires h.Valid(c) && data.organizations == [Organization("o", "", h.Text())]
    ensures OrgKeysFor(c, data, h.privateKey) == map["o" := h.OrgKey()]
  {
    hide OrganizationKey, Unwraps;
    WrappedUnwraps(c, h);
    UnwrapsExactly(c, h.Text(), h.privateKey, h.OrgKey());
    var orgs, none: seq<Organization> := data.organizations, [];
    assert orgs[..|orgs| - 1] == none && OrganizationKeys(c, none, h.privateKey) == map[];
  }

  /** A row that shows nothing but a name. */
  function NoteRow(id: string, organizationId: string, name: string): Item {
    Item(id, SecureNote, "", organizationId, false, name, "", "", false, false, false, false)
  }

  lemma NoteShows(c: Suite, s: State, id: string, organizationId: string, key: string, text: string, k: Key, name: string)
    requires Lawful(c) && Sized(k) && KeyIs(c, s, NoteOf(id, organizationId, key, text), k) && Seals(c, text, k, name)
    ensures Items(c, [NoteOf(id, organizationId, key, text)], s.userKey, s.orgKeys)
            == Ok([NoteRow(id, organizationId, name)])
  {
    hide KeyIs, Opens, Seals, NoteObject;
    SealsOpens(c, text, k, name, name);
    OneItem(c, s, NoteOf(id, organizationId, key, text), k, NoteRow(id, organizationId, name));
  }

  /** An item whose key cannot be had is not shown. */
  lemma NotShown(c: Suite, s: State, x: Cipher)
    requires x.organizationId != "" && x.organizationId !in s.orgKeys
    ensures Items(c, [x], s.userKey, s.orgKeys) == Ok([])
  {
    var one, none: seq<Cipher> := [x], [];
    assert one[..|one| - 1] == none && Items(c, none, s.userKey, s.orgKeys) == Ok([]);
  }

  /** The four items: of the organization; of the organization with an own key; the
      user's; and of an organization without a key. */
  ghost predicate FourNotes(c: Suite, a: Account, h: Shared, ciphers: seq<Cipher>, names: seq<string>)
    requires a.Valid() && h.Valid(c) && |ciphers| == 4 && |names| == 3
  {
    && (exists text :: ciphers[0] == NoteOf("1", "o", "", text) && Seals(c, text, h.OrgKey(), names[0]))
    && (exists key, text :: ciphers[1] == NoteOf("2", "o", key, text)
                            && SealsBytes(c, key, h.OrgKey(), h.itemRaw) && Seals(c, text, h.ItemKey(), names[1]))
    && (exists text :: ciphers[2] == NoteOf("3", "", "", text) && Seals(c, text, a.Key(), names[2]))
    && (exists text :: ciphers[3] == NoteOf("4", "p", "", text) && text != "")
  }

  ghost predicate SealsBytes(c: Suite, text: string, k: Key, raw: bytes) {
    exists iv: bytes :: |iv| == 16 && EncString.Sealed(c, raw, k, iv) == Ok(text)
  }

  lemma SealsBytesOpens(c: Suite, text: string, k: Key, raw: bytes)
    requires Lawful(c) && Sized(k) && SealsBytes(c, text, k, raw)
    ensures text != "" && EncString.Opened(c, text, k) == Ok(raw)
  {
    hide EncString.Sealed, EncString.Opened;
    var iv: bytes :| |iv| == 16 && EncString.Sealed(c, raw, k, iv) == Ok(text);
    EncString.OpenSealed(c, raw, k, iv);
  }

  lemma KeysOfNotes(c: Suite, s: State, h: Shared, key: string, text1: string, text2: string, text3: string)
    requires Lawful(c) && h.Valid(c) && s.orgKeys == map["o" := h.OrgKey()] && SealsBytes(c, key, h.OrgKey(), h.itemRaw)
    ensures KeyIs(c, s, NoteOf("1", "o", "", text1), h.OrgKey())
    ensures KeyIs(c, s, NoteOf("2", "o", key, text2), h.ItemKey())
    ensures KeyIs(c, s, NoteOf("3", "", "", text3), s.userKey)
  {
    hide EncString.Opened, SealsBytes, NoteObject;
    SealsBytesOpens(c, key, h.OrgKey(), h.itemRaw);
    assert OwnerIs(s, NoteOf("1", "o", "", text1), h.OrgKey());
    assert OwnerIs(s, NoteOf("2", "o", key, text2), h.OrgKey());
    assert OwnerIs(s, NoteOf("3", "", "", text3), s.userKey);
  }

  lemma FourShow(c: Suite, s: State, a: Account, h: Shared, ciphers: seq<Cipher>, names: seq<string>)
    requires Lawful(c) && a.Valid() && h.Valid(c)
    requires |ciphers| == 4 && |names| == 3 && FourNotes(c, a, h, ciphers, names)
    requires s.userKey == a.Key() && s.orgKeys == map["o" := h.OrgKey()]
    ensures Items(c, ciphers, s.userKey, s.orgKeys)
            == Ok([NoteRow("1", "o", names[0]), NoteRow("2", "o", names[1]), NoteRow("3", "", names[2])])
  {
    hide Items, KeyIs, Seals, SealsBytes, NoteOf;
    var text1 :| ciphers[0] == NoteOf("1", "o", "", text1) && Seals(c, text1, h.OrgKey(), names[0]);
    var key, text2 :| ciphers[1] == NoteOf("2", "o", key, text2)
                      && SealsBytes(c, key, h.OrgKey(), h.itemRaw) && Seals(c, text2, h.ItemKey(), names[1]);
    var text3 :| ciphers[2] == NoteOf("3", "", "", text3) && Seals(c, text3, a.Key(), names[2]);
    var text4 :| ciphers[3] == NoteOf("4", "p", "", text4) && text4 != "";
    KeysOfNotes(c, s, h, key, text1, text2, text3);
    NoteShows(c, s, "1", "o", "", text1, h.OrgKey(), names[0]);
    NoteShows(c, s, "2", "o", key, text2, h.ItemKey(), names[1]);
    NoteShows(c, s, "3", "", "", text3, a.Key(), names[2]);
    OtherOrganization("4", text4);
    NotShown(c, s, ciphers[3]);
    Joined(c, s, ciphers);
    Flat(NoteRow("1", "o", names[0]), NoteRow("2", "o", names[1]), NoteRow("3", "", names[2]));
  }

  lemma Flat(x: Item, y: Item, z: Item)
    ensures [x] + [y] + [z] + [] == [x, y, z]
  {
  }

  lemma OtherOrganization(id: string, text: string)
    ensures NoteOf(id, "p", "", text).organizationId == "p" && "p" != "o"
  {
    assert "p"[0] == 'p' && "o"[0] == 'o';
  }

  lemma Joined(c: Suite, s: State, ciphers: seq<Cipher>)
    requires |ciphers| == 4 && forall i :: 0 <= i < 4 ==> Items(c, [ciphers[i]], s.userKey, s.orgKeys).Ok?
    ensures Items(c, ciphers, s.userKey, s.orgKeys)
            == Ok(Items(c, [ciphers[0]], s.userKey, s.orgKeys).value + Items(c, [ciphers[1]], s.userKey, s.orgKeys).value
                  + Items(c, [ciphers[2]], s.userKey, s.orgKeys).value
                  + Items(c, [ciphers[3]], s.userKey, s.orgKeys).value)
  {
    hide Items;
    assert ciphers == [ciphers[0]] + [ciphers[1]] + [ciphers[2]] + [ciphers[3]];
    ItemsSplit(c, [ciphers[0]], [ciphers[1]], s.userKey, s.orgKeys);
    ItemsSplit(c, [ciphers[0]] + [ciphers[1]], [ciphers[2]], s.userKey, s.orgKeys);
    ItemsSplit(c, [ciphers[0]] + [ciphers[1]] + [ciphers[2]], [ciphers[3]], s.userKey, s.orgKeys);
  }

  /** The account opens with its master key, and shows the organization's item as sealed
      under the organization's key, the item with an own key as sealed under that, the
      user's as sealed under the user key, and not the one without a key. */
  lemma SharedAccountOpens(c: Suite, s: State, a: Account, h: Shared, sealed: string, ciphers: seq<Cipher>,
                           names: seq<string>)
    requires Lawful(c) && a.Valid() && h.Valid(c) && SealsBytes(c, sealed, a.Key(), h.privateKey)
    requires |ciphers| == 4 && |names| == 3 && FourNotes(c, a, h, ciphers, names)
    ensures var (t, r) := Opening(c, s, a, SharedDoc(a.ProtectedKey(c), sealed, h.Text(), Objects(ciphers)));
            && r.Ok? && !t.locked
            && t.items == [NoteRow("1", "o", names[0]), NoteRow("2", "o", names[1]), NoteRow("3", "", names[2])]
  {
    hide EncString.Sealed, EncString.Opened, EncString.Parsed, SharedDoc, FourNotes, Items, OrgKeysFor, StretchMasterKey,
         KeyFromBytes, ParsedSync, SealsBytes, IsNote, Objects, KeptCiphers;
    SealsBytesOpens(c, sealed, a.Key(), h.privateKey);
    ProtectedKeyOpens(c, a);
    WrappedUnwraps(c, h);
    SharedDocParses(a.ProtectedKey(c), sealed, h.Text(), Objects(ciphers));
    FourAreNotes(c, a, h, ciphers, names);
    NotesKept(ciphers);
    var data := SyncData(a.ProtectedKey(c), sealed, [Organization("o", "", h.Text())], ciphers, []);
    KeysAre(c, data, h);
    FourShow(c, s.(userKey := a.Key(), orgKeys := map["o" := h.OrgKey()]), a, h, ciphers, names);
    OpensWith(c, LoadSync(s, Some(SharedDoc(a.ProtectedKey(c), sealed, h.Text(), Objects(ciphers)))).0, a, h.privateKey,
              map["o" := h.OrgKey()],
              [NoteRow("1", "o", names[0]), NoteRow("2", "o", names[1]), NoteRow("3", "", names[2])]);
  }

  predicate IsNote(x: Cipher) {
    x == NoteOf(x.id, x.organizationId, x.key, x.name) && x.id != "" && x.name != ""
  }

  lemma AnyNote(id: string, organizationId: string, key: string, name: string)
    requires id != "" && name != ""
    ensures IsNote(NoteOf(id, organizationId, key, name))
  {
    hide NoteObject;
  }

  lemma FourAreNotes(c: Suite, a: Account, h: Shared, ciphers: seq<Cipher>, names: seq<string>)
    requires Lawful(c) && a.Valid() && h.Valid(c)
    requires |ciphers| == 4 && |names| == 3 && FourNotes(c, a, h, ciphers, names)
    ensures forall i :: 0 <= i < 4 ==> IsNote(ciphers[i])
  {
    hide Seals, SealsBytes, NoteOf, IsNote;
    var text1 :| ciphers[0] == NoteOf("1", "o", "", text1) && Seals(c, text1, h.OrgKey(), names[0]);
    var key, text2 :| ciphers[1] == NoteOf("2", "o", key, text2)
                      && SealsBytes(c, key, h.OrgKey(), h.itemRaw) && Seals(c, text2, h.ItemKey(), names[1]);
    var text3 :| ciphers[2] == NoteOf("3", "", "", text3) && Seals(c, text3, a.Key(), names[2]);
    SealsOpens(c, text1, h.OrgKey(), names[0], "");
    SealsOpens(c, text2, h.ItemKey(), names[1], "");
    var text4 :| ciphers[3] == NoteOf("4", "p", "", text4) && text4 != "";
    SealsOpens(c, text3, a.Key(), names[2], "");
    AnyNote("1", "o", "", text1);
    AnyNote("2", "o", key, text2);
    AnyNote("3", "", "", text3);
    AnyNote("4", "p", "", text4);
  }

  lemma NotesKept(ciphers: seq<Cipher>)
    requires forall i :: 0 <= i < |ciphers| ==> IsNote(ciphers[i])
    ensures KeptCiphers(Objects(ciphers)) == ciphers
  {
    hide Kept, NoteObject, KeptCiphers;
    forall i | 0 <= i < |ciphers| ensures Kept(Objects(ciphers)[i]) == Some(ciphers[i]) {
      var x := ciphers[i];
      NoteParses(x.id, x.organizationId, x.key, x.name);
    }
    AllKept(Objects(ciphers), ciphers);
  }

  lemma OpensWith(c: Suite, t: State, a: Account, privateKey: bytes, orgKeys: map<string, Key>, items: seq<Item>)
    requires Lawful(c) && a.Valid() && t.data.profileKey == a.ProtectedKey(c) && t.data.folders == []
    requires t.data.profilePrivateKey != "" && EncString.Opened(c, t.data.profilePrivateKey, a.Key()) == Ok(privateKey)
    requires OrgKeysFor(c, t.data, privateKey) == orgKeys && Items(c, t.data.ciphers, a.Key(), orgKeys) == Ok(items)
    ensures var (u, r) := Unlock(c, t, a.masterKey); r.Ok? && !u.locked && u.items == items
  {
    hide EncString.Opened, OrgKeysFor, Items, StretchMasterKey, UserKeyOf;
    ProtectedKeyOpens(c, a);
    UserKeyOpens(c, t.data.profileKey, a.masterKey);
  }
}
