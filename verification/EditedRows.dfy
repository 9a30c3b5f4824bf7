/** What the vault shows after an item was saved or created and the server has sent it
    back: the entered values in its row, and every other row as before. */
module EditedRows {
  import opened Words
  import opened Wrappers
  import opened Json
  import opened CipherItem
  import opened SyncParser
  import opened CryptoSuite
  import opened VaultSpec
  import opened VaultRuns
  import opened VaultRows
  import opened VaultEdit
  import EncString

  // ----- the rows of a changed list of items -----

  lemma {:induction false} ItemsSplit(c: Suite, a: seq<Cipher>, b: seq<Cipher>, userKey: Key, orgKeys: map<string, Key>)
    ensures var x, y, z := Items(c, a, userKey, orgKeys), Items(c, b, userKey, orgKeys), Items(c, a + b, userKey, orgKeys);
            (z.Ok? <==> x.Ok? && y.Ok?) && (z.Ok? ==> z.value == x.value + y.value)
  {
    hide CipherKey, ItemOf;
    if b == [] {
      assert a + b == a;
    } else {
      var n := |b| - 1;
      assert (a + b)[..|a| + n] == a + b[..n];
      ItemsSplit(c, a, b[..n], userKey, orgKeys);
    }
  }

  lemma OneItem(c: Suite, s: State, x: Cipher, k: Key, item: Item)
    requires KeyIs(c, s, x, k) && RowOf(c, x, k, item)
    ensures Items(c, [x], s.userKey, s.orgKeys) == Ok([item])
  {
    hide CipherKey, ItemOf, KeyIs, RowOf;
    KeyExactly(c, s, x, k);
    RowExactly(c, x, k, item);
    JustOne(c, s, x);
  }

  lemma JustOne(c: Suite, s: State, x: Cipher)
    requires CipherKey(c, x, s.userKey, s.orgKeys).Ok?
    ensures var r := ItemOf(c, x, CipherKey(c, x, s.userKey, s.orgKeys).value);
            Items(c, [x], s.userKey, s.orgKeys) == if r.Ok? then Ok([r.value]) else Err(r.error)
  {
    hide CipherKey, ItemOf;
    var one, none: seq<Cipher> := [x], [];
    assert one[..|one| - 1] == none && one[|one| - 1] == x;
    assert Items(c, none, s.userKey, s.orgKeys) == Ok([]);
    assert Items(c, one[..|one| - 1], s.userKey, s.orgKeys) == Ok([]);
    var r := ItemOf(c, x, CipherKey(c, x, s.userKey, s.orgKeys).value);
    if r.Ok? {
      assert [] + [r.value] == [r.value];
    }
  }

  lemma Cut(ciphers: seq<Cipher>, i: nat, y: Cipher)
    requires i < |ciphers|
    ensures ciphers == ciphers[..i] + ([ciphers[i]] + ciphers[i + 1..])
    ensures ciphers[i := y] == ciphers[..i] + ([y] + ciphers[i + 1..])
  {
  }

  lemma Replaced(a: seq<Item>, x: Item, b: seq<Item>, y: Item)
    ensures (a + ([x] + b))[|a|] == x && (a + ([x] + b))[|a| := y] == a + ([y] + b)
  {
  }

  /** One item replaced: its row is, and no other. */
  lemma ItemsReplaced(c: Suite, s: State, i: nat, k: Key, y: Cipher, j: Key, item: Item) returns (row: nat)
    requires i < |s.data.ciphers| && Items(c, s.data.ciphers, s.userKey, s.orgKeys).Ok?
    requires KeyIs(c, s, s.data.ciphers[i], k) && KeyIs(c, s, y, j) && RowOf(c, y, j, item)
    ensures var rows := Items(c, s.data.ciphers, s.userKey, s.orgKeys).value;
            && row < |rows| && RowOf(c, s.data.ciphers[i], k, rows[row])
            && Items(c, s.data.ciphers[i := y], s.userKey, s.orgKeys) == Ok(rows[row := item])
  {
    hide CipherKey, ItemOf, Items, KeyIs, RowOf;
    var a, x, b := s.data.ciphers[..i], s.data.ciphers[i], s.data.ciphers[i + 1..];
    Cut(s.data.ciphers, i, y);
    ItemsSplit(c, a, [x] + b, s.userKey, s.orgKeys);
    ItemsSplit(c, [x], b, s.userKey, s.orgKeys);
    ItemsSplit(c, a, [y] + b, s.userKey, s.orgKeys);
    ItemsSplit(c, [y], b, s.userKey, s.orgKeys);
    OneItem(c, s, y, j, item);
    var before := TheItem(c, s, x, k);
    var rows, rest := Items(c, a, s.userKey, s.orgKeys).value, Items(c, b, s.userKey, s.orgKeys).value;
    row := |rows|;
    Replaced(rows, before, rest, item);
  }

  lemma TheItem(c: Suite, s: State, x: Cipher, k: Key) returns (item: Item)
    requires KeyIs(c, s, x, k) && Items(c, [x], s.userKey, s.orgKeys).Ok?
    ensures Items(c, [x], s.userKey, s.orgKeys) == Ok([item]) && RowOf(c, x, k, item)
  {
    hide CipherKey, ItemOf, KeyIs, RowOf;
    KeyExactly(c, s, x, k);
    JustOne(c, s, x);
    item := ItemOf(c, x, k).value;
    RowExactly(c, x, k, item);
  }

  /** New items under the same keys and folders: the reload succeeds exactly when the
      items do, and shows them. */
  lemma ReloadItems(c: Suite, s: State, doc: Option<Object>, ciphers: seq<Cipher>)
    requires Inv(c, s) && !s.locked && ParsedSync(doc) == Ok(s.data.(ciphers := ciphers))
    ensures var items := Items(c, ciphers, s.userKey, s.orgKeys);
            && Items(c, s.data.ciphers, s.userKey, s.orgKeys) == Ok(s.items)
            && (items.Ok? ==> ReloadSync(c, s, doc)
                              == (s.(data := s.data.(ciphers := ciphers), items := items.value), Ok(())))
  {
    hide ParsedSync, Items, FolderNames, OrganizationKeys, EncString.Opened, UserKeyOf, Faithful;
  }

  // ----- saving an item -----

  /** What the row of an edited item says, and the old row for what the editor does not
      offer. */
  ghost predicate ShowsEntered(f: Entered, x: Cipher, before: Item, item: Item) {
    && item.id == before.id && item.kind == before.kind && item.organizationId == before.organizationId
    && item.name == f.name && item.favorite == f.favorite && item.folderId == f.folderId
    && (item.hasNotes <==> f.notes != "") && item.hasDetails == before.hasDetails
    && (if x.kind.Login? then
          && item.username == f.username
          && item.primaryUri == (if KeepsOldUri(f, AsObject(ValueOf(x.raw, "login"))) then before.primaryUri else f.uri)
          && (item.hasPassword <==> f.password != "") && (item.hasTotp <==> f.totp != "")
        else item.username == "" && item.primaryUri == "" && !item.hasPassword && !item.hasTotp)
  }

  /** The row of a cipher that reads back as entered. */
  lemma EditedRow(c: Suite, s: State, x: Cipher, back: Cipher, k: Key, f: Entered, before: Item) returns (item: Item)
    requires SameElsewhere(x, back) && ReadsBack(c, s, x, back, k, f) && f.name != ""
    requires RowOf(c, x, k, before)
    ensures RowOf(c, back, k, item) && ShowsEntered(f, x, before, item)
  {
    hide EncString.Opened, CipherKey, ValueOf;
    assert Opens(c, back.name, k, f.name);
    var keeps := KeepsOldUri(f, AsObject(ValueOf(x.raw, "login")));
    item := if x.kind.Login? then
              before.(name := f.name, favorite := f.favorite, folderId := f.folderId, hasNotes := f.notes != "",
                      username := f.username, primaryUri := if keeps then before.primaryUri else f.uri,
                      hasPassword := f.password != "", hasTotp := f.totp != "")
            else
              before.(name := f.name, favorite := f.favorite, folderId := f.folderId, hasNotes := f.notes != "");
  }

  lemma FirstFound(ciphers: seq<Cipher>, id: string, i: nat)
    requires i < |ciphers| && ciphers[i].id == id && forall j :: 0 <= j < i ==> ciphers[j].id != id
    ensures FindCipher(ciphers, id) == Some(ciphers[i])
  {
    if i > 0 {
      FirstFound(ciphers[1..], id, i - 1);
    }
  }

  /** Saving an entry with a name over the first item with an id, and reloading the
      response in which the server has put the saved item in its place: the written name
      opens under the item's own key, the reload succeeds, the item's row shows what was
      entered, and no other row, key or folder name has changed. */
  lemma EditThenSync(c: Suite, s: State, i: nat, f: Entered, v: Ivs, k: Key, doc: Option<Object>)
    requires Lawful(c) && Fresh16(v) && Inv(c, s) && !s.locked && f.name != ""
    requires i < |s.data.ciphers| && forall j :: 0 <= j < i ==> s.data.ciphers[j].id != s.data.ciphers[i].id
    requires KeyIs(c, s, s.data.ciphers[i], k)
    ensures BuiltUpdate(c, s, s.data.ciphers[i].id, f, v).Ok?
    ensures var x := s.data.ciphers[i];
            var b := BuiltUpdate(c, s, x.id, f, v).value["id" := Str(x.id)];
            && ParsedCipher(b).Some? && KeyIs(c, s, ParsedCipher(b).value, k)
            && Opens(c, ParsedCipher(b).value.name, k, f.name)
            && (ParsedSync(doc) == Ok(s.data.(ciphers := s.data.ciphers[i := ParsedCipher(b).value])) ==>
                  var (t, r) := ReloadSync(c, s, doc);
                  && r.Ok? && t == s.(data := t.data, items := t.items)
                  && exists row, item :: 0 <= row < |s.items| && t.items == s.items[row := item]
                                         && ShowsEntered(f, x, s.items[row], item))
  {
    hide Inv, KeyIs, CipherKey, ParsedSync, ParsedCipher, BuiltUpdate, ReloadSync, ShowsEntered, SameElsewhere, Items,
         RowOf, Opens;
    var x := s.data.ciphers[i];
    FirstFound(s.data.ciphers, x.id, i);
    KeyExactly(c, s, x, k);
    EditRoundTrip(c, s, x.id, f, v);
    var back := ParsedCipher(BuiltUpdate(c, s, x.id, f, v).value["id" := Str(x.id)]).value;
    BackUnderKey(c, s, x, back, k, f);
    if ParsedSync(doc) == Ok(s.data.(ciphers := s.data.ciphers[i := back])) {
      ReloadItems(c, s, doc, s.data.ciphers[i := back]);
      var before := ShownRow(c, s, x, k);
      var item := EditedRow(c, s, x, back, k, f, before);
      var row := ItemsReplaced(c, s, i, k, back, k, item);
      SameRow(c, x, k, before, s.items[row]);
    }
  }

  lemma BackUnderKey(c: Suite, s: State, x: Cipher, back: Cipher, k: Key, f: Entered)
    requires ReadsBack(c, s, x, back, k, f) && f.name != ""
    ensures KeyIs(c, s, back, k) && Opens(c, back.name, k, f.name)
  {
    hide CipherKey, KeyIs, EncString.Opened, ValueOf;
    KeyExactly(c, s, back, k);
  }

  lemma SameRow(c: Suite, x: Cipher, k: Key, a: Item, b: Item)
    requires RowOf(c, x, k, a) && RowOf(c, x, k, b)
    ensures a == b
  {
    hide ItemOf, RowOf;
    RowExactly(c, x, k, a);
    RowExactly(c, x, k, b);
  }

  // ----- creating an item -----

  /** Creating an item and reloading the response that ends with it: one more row, with
      what was entered, and every other row as before. */
  lemma CreateThenSync(c: Suite, s: State, kind: CipherType, f: Entered, v: Ivs, id: string, doc: Option<Object>)
    requires Lawful(c) && Fresh16(v) && Inv(c, s) && !s.locked && id != ""
    requires f.name != "" && (kind.Login? || kind.SecureNote?)
    ensures BuiltCreate(c, s, kind, f, v).Ok?
    ensures var b := BuiltCreate(c, s, kind, f, v).value["id" := Str(id)];
            && ParsedCipher(b).Some?
            && Opens(c, ParsedCipher(b).value.name, s.userKey, f.name)
            && (ParsedSync(doc) == Ok(s.data.(ciphers := s.data.ciphers + [ParsedCipher(b).value])) ==>
                  var (t, r) := ReloadSync(c, s, doc);
                  && r.Ok? && t == s.(data := t.data, items := t.items)
                  && |t.items| == |s.items| + 1 && t.items[..|s.items|] == s.items
                  && var item := t.items[|s.items|];
                     && item.id == id && item.kind == kind && item.organizationId == ""
                     && item.name == f.name && item.favorite == f.favorite && item.folderId == f.folderId
                     && (item.hasNotes <==> f.notes != "")
                     && (kind.Login? ==>
                           && item.username == f.username && item.primaryUri == f.uri
                           && (item.hasPassword <==> f.password != "") && (item.hasTotp <==> f.totp != "")))
  {
    hide Inv, KeyIs, CipherKey, ParsedSync, ParsedCipher, BuiltCreate, ReloadSync, Items, RowOf, Opens, CreatedReadsBack;
    CreateRoundTrip(c, s, kind, f, v, id);
    var back := ParsedCipher(BuiltCreate(c, s, kind, f, v).value["id" := Str(id)]).value;
    OwnKey(c, s, kind, back, f);
    if ParsedSync(doc) == Ok(s.data.(ciphers := s.data.ciphers + [back])) {
      ReloadItems(c, s, doc, s.data.ciphers + [back]);
      ItemsSplit(c, s.data.ciphers, [back], s.userKey, s.orgKeys);
      var item := CreatedRow(c, s, kind, back, f);
      OneItem(c, s, back, s.userKey, item);
    }
  }

  lemma OwnKey(c: Suite, s: State, kind: CipherType, back: Cipher, f: Entered)
    requires CreatedReadsBack(c, s, kind, back, f) && f.name != ""
    ensures KeyIs(c, s, back, s.userKey) && Opens(c, back.name, s.userKey, f.name)
  {
    hide EncString.Opened;
    assert OwnerIs(s, back, s.userKey);
  }

  lemma CreatedRow(c: Suite, s: State, kind: CipherType, back: Cipher, f: Entered) returns (item: Item)
    requires CreatedReadsBack(c, s, kind, back, f) && back.kind == kind && f.name != ""
    ensures RowOf(c, back, s.userKey, item)
    ensures item.id == back.id && item.kind == kind && item.organizationId == ""
    ensures item.name == f.name && item.favorite == f.favorite && item.folderId == f.folderId
    ensures item.hasNotes <==> f.notes != ""
    ensures kind.Login? ==> item.username == f.username && item.primaryUri == f.uri
                            && (item.hasPassword <==> f.password != "") && (item.hasTotp <==> f.totp != "")
  {
    hide EncString.Opened;
    assert Opens(c, back.name, s.userKey, f.name);
    var login := kind.Login?;
    item := Item(back.id, kind, f.folderId, "", f.favorite, f.name,
                 if login then f.username else "", if login then f.uri else "",
                 login && f.totp != "", login && f.password != "", f.notes != "",
                 back.fields != [] || back.cardFields != [] || back.identityFields != []);
  }
}
