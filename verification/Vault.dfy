/** The vault object: keys and display data changed in place, proved against the
    functions of VaultSpec and VaultEdit. */
module Vault {
  import opened Words
  import opened Wrappers
  import opened Json
  import opened CipherItem
  import opened SyncParser
  import opened CryptoSuite
  import Spec = VaultSpec
  import Edit = VaultEdit
  import EncString
  import Base32
  import Totp
  import TotpSecret
  import Codes = VaultTotp

  class Vault {
    const c: Suite
    var data: SyncData
    var locked: bool
    var userKey: Key
    var privateKey: bytes
    var orgKeys: map<string, Key>
    var items: seq<Item>
    var folderNames: map<string, string>
    var interval: nat
    var timer: Option<nat>
    ghost var idle: nat
    var emitted: seq<Spec.LockedChanged>   // the signals sent so far, oldest first

    ghost function Now(): Spec.State
      reads this
    {
      Spec.State(data, locked, userKey, privateKey, orgKeys, items, folderNames, interval, timer, idle, emitted)
    }

    constructor (c: Suite)
      ensures this.c == c && Now() == Spec.INITIAL
    {
      this.c := c;
      data, locked, userKey, privateKey := NO_DATA, true, NO_KEY, [];
      orgKeys, items, folderNames := map[], [], map[];
      interval, timer, idle, emitted := 0, None, 0, [];
    }

    method Lock()
      modifies this
      ensures Now() == Spec.Locked(old(Now()))
    {
      var wasLocked := locked;
      timer := None;
      userKey := NO_KEY;
      privateKey := [];
      orgKeys := map[];
      items := [];
      folderNames := map[];
      locked := true;
      if !wasLocked {
        emitted := emitted + [Spec.LockedChanged(true, items)];
      }
    }

    method StartTimer()
      modifies this`timer, this`idle
      ensures interval > 0 ==> timer == Some(interval)
      ensures interval == 0 ==> timer == old(timer)
      ensures idle == 0
    {
      if interval > 0 {
        timer := Some(interval);
      }
      idle := 0;
    }

    method LoadSync(doc: Option<Object>) returns (r: Result<()>)
      modifies this
      ensures (Now(), r) == Spec.LoadSync(old(Now()), doc)
    {
      hide ParsedSync;
      var parsed, skipped := ParseSync(doc);
      if parsed.Err? {
        return Err(parsed.error);
      }
      Lock();
      data := parsed.value;
      r := Ok(());
    }

    /** decryptToString. */
    method Reveal(text: string, key: Key) returns (r: Result<string>)
      requires Lawful(c)
      ensures r == Spec.Reveal(c, text, key)
    {
      hide EncString.Opened;
      var plain := EncString.Open(c, text, key);
      if plain.Err? {
        return Err(plain.error);
      }
      r := Ok(c.fromUtf8(plain.value));
    }

    method CipherKey(cipher: Cipher) returns (r: Result<Key>)
      requires Lawful(c)
      ensures r == Spec.CipherKey(c, cipher, userKey, orgKeys)
    {
      hide EncString.Opened;
      var owner := userKey;
      if cipher.organizationId != "" {
        if cipher.organizationId !in orgKeys {
          return Err(Spec.NO_ORGANIZATION_KEY);
        }
        owner := orgKeys[cipher.organizationId];
      }
      if cipher.key == "" {
        return Ok(owner);
      }
      var raw := EncString.Open(c, cipher.key, owner);
      if raw.Err? {
        return Err("item key unwrap failed: " + raw.error);
      }
      var key := KeyFromBytes(raw.value);
      if key.Err? {
        return Err("item key unwrap failed: " + key.error);
      }
      r := key;
    }

    method OrganizationKey(wrapped: string) returns (r: Result<Key>)
      requires Lawful(c)
      ensures r == Spec.OrganizationKey(c, wrapped, privateKey)
    {
      hide EncString.Parsed;
      var e := EncString.Parse(wrapped);
      if e.Err? {
        return Err(e.error);
      }
      if e.value.kind != 4 {
        return Err("decryptRsaOaepSha1: not a type 4 EncString");
      }
      var raw := c.rsaDecrypt(privateKey, e.value.ciphertext);
      if raw.Err? {
        return Err(raw.error);
      }
      r := KeyFromBytes(raw.value);
    }

    /** The loop over organizations: a broken key is skipped. */
    method ReadOrganizationKeys()
      requires Lawful(c) && orgKeys == map[]
      modifies this`orgKeys
      ensures orgKeys == Spec.OrgKeysFor(c, data, privateKey)
    {
      hide Spec.OrganizationKey;
      var orgs := data.organizations;
      var i := 0;
      while i < |orgs|
        invariant 0 <= i <= |orgs|
        invariant orgKeys == if privateKey == [] then map[] else Spec.OrganizationKeys(c, orgs[..i], privateKey)
      {
        if privateKey == [] {
          break;
        }
        assert orgs[..i + 1][..i] == orgs[..i];
        var key := OrganizationKey(orgs[i].key);
        if key.Ok? && orgs[i].id !in orgKeys {
          orgKeys := orgKeys[orgs[i].id := key.value];
        }
        i := i + 1;
      }
      assert orgs[..|orgs|] == orgs;
    }

    method ReadFolderNames() returns (r: Result<()>)
      requires Lawful(c) && folderNames == map[]
      modifies this`folderNames
      ensures match Spec.FolderNames(c, data.folders, userKey)
              case Ok(names) => r.Ok? && folderNames == names
              case Err(e) => r == Err(e)
    {
      hide Spec.Reveal;
      var folders := data.folders;
      var i := 0;
      while i < |folders|
        invariant 0 <= i <= |folders|
        invariant Spec.FolderNames(c, folders[..i], userKey) == Ok(folderNames)
      {
        assert folders[..i + 1][..i] == folders[..i];
        var name := Reveal(folders[i].name, userKey);
        if name.Err? {
          FolderFails(c, folders, userKey, i);
          return Err(name.error);
        }
        folderNames := folderNames[folders[i].id := name.value];
        i := i + 1;
      }
      assert folders[..i] == folders;
      r := Ok(());
    }

    /** One row of the display list. */
    method DecryptItem(cipher: Cipher, key: Key) returns (r: Result<Item>)
      requires Lawful(c)
      ensures r == Spec.ItemOf(c, cipher, key)
    {
      hide Spec.Reveal, EncString.Opened;
      var name := Reveal(cipher.name, key);
      if name.Err? {
        return Err(name.error);
      }
      var username, uri: Result<string> := Ok(""), Ok("");
      if cipher.kind.Login? {
        if cipher.login.username != "" {
          username := Reveal(cipher.login.username, key);
          if username.Err? {
            return Err(username.error);
          }
        }
        if cipher.login.uris != [] {
          uri := Reveal(cipher.login.uris[0], key);
          if uri.Err? {
            return Err(uri.error);
          }
        }
      }
      r := Ok(Item(cipher.id, cipher.kind, cipher.folderId, cipher.organizationId, cipher.favorite, name.value,
                   username.value, uri.value,
                   cipher.kind.Login? && cipher.login.totp != "", cipher.kind.Login? && cipher.login.password != "",
                   cipher.notes != "", cipher.fields != [] || cipher.cardFields != [] || cipher.identityFields != []));
    }

    method ReadItems() returns (r: Result<()>)
      requires Lawful(c) && items == []
      modifies this`items
      ensures match Spec.Items(c, data.ciphers, userKey, orgKeys)
              case Ok(all) => r.Ok? && items == all
              case Err(e) => r == Err(e)
    {
      hide Spec.CipherKey, Spec.ItemOf;
      var ciphers := data.ciphers;
      var i := 0;
      while i < |ciphers|
        invariant 0 <= i <= |ciphers|
        invariant Spec.Items(c, ciphers[..i], userKey, orgKeys) == Ok(items)
      {
        assert ciphers[..i + 1][..i] == ciphers[..i];
        var key := CipherKey(ciphers[i]);
        if key.Err? {
          i := i + 1;
          continue; // not shown
        }
        var item := DecryptItem(ciphers[i], key.value);
        if item.Err? {
          ItemFails(c, ciphers, userKey, orgKeys, i);
          return Err(item.error);
        }
        items := items + [item.value];
        i := i + 1;
      }
      assert ciphers[..i] == ciphers;
      r := Ok(());
    }

    method RebuildDisplayData() returns (r: Result<()>)
      requires Lawful(c) && orgKeys == map[] && items == [] && folderNames == map[]
      modifies this`privateKey, this`orgKeys, this`items, this`folderNames
      ensures match Spec.Rebuilt(c, data, userKey, old(privateKey))
              case Ok(d) => r.Ok? && d == Spec.Display(privateKey, orgKeys, items, folderNames)
              case Err(e) => r == Err(e)
    {
      hide EncString.Opened, Spec.Items, Spec.FolderNames, Spec.OrgKeysFor;
      if data.profilePrivateKey != "" {
        var der := EncString.Open(c, data.profilePrivateKey, userKey);
        if der.Err? {
          return Err(der.error);
        }
        privateKey := der.value;
      }
      ReadOrganizationKeys();
      r := ReadFolderNames();
      if r.Err? {
        return;
      }
      r := ReadItems();
    }

    method UnlockWithMasterKey(masterKey: bytes) returns (r: Result<()>)
      requires Lawful(c)
      modifies this
      ensures (Now(), r) == Spec.Unlock(c, old(Now()), masterKey)
    {
      hide EncString.Opened, Spec.OpenedWith, StretchMasterKey, KeyFromBytes;
      if data.profileKey == "" {
        return Err("no vault data loaded");
      }
      Lock();
      var stretched := StretchMasterKey(c, masterKey);
      if stretched.Err? {
        Lock();
        return Err("unlock failed: " + stretched.error);
      }
      var userKeyRaw := EncString.Open(c, data.profileKey, stretched.value);
      if userKeyRaw.Err? {
        return Err("wrong master password");
      }
      var key := KeyFromBytes(userKeyRaw.value);
      if key.Err? {
        Lock();
        return Err("unlock failed: " + key.error);
      }
      r := OpenWith(key.value);
    }

    /** The rest of unlockWithMasterKey: a wiped vault and the user key. */
    method OpenWith(key: Key) returns (r: Result<()>)
      requires Lawful(c) && Spec.Locked(Now()) == Now()
      modifies this
      ensures (Now(), r) == Spec.OpenedWith(c, old(Now()), key)
    {
      hide Spec.Rebuilt;
      userKey := key;
      var rebuilt := RebuildDisplayData();
      if rebuilt.Err? {
        Lock();
        return Err("unlock failed: " + rebuilt.error);
      }
      locked := false;
      StartTimer();
      emitted := emitted + [Spec.LockedChanged(false, items)];
      r := Ok(());
    }

    method VerifyMasterKey(masterKey: bytes) returns (ok: bool)
      requires Lawful(c)
      ensures ok <==> Spec.VerifiesMasterKey(c, Now(), masterKey)
    {
      hide EncString.Opened;
      if data.profileKey == "" {
        return false;
      }
      var stretched := StretchMasterKey(c, masterKey);
      if stretched.Err? {
        return false;
      }
      var raw := EncString.Open(c, data.profileKey, stretched.value);
      ok := raw.Ok?;
    }

    method ReloadSync(doc: Option<Object>) returns (r: Result<()>)
      requires Lawful(c)
      modifies this
      ensures (Now(), r) == Spec.ReloadSync(c, old(Now()), doc)
    {
      hide ParsedSync, Spec.Retaken;
      if locked {
        return Err("vault is locked");
      }
      var parsed, skipped := ParseSync(doc);
      if parsed.Err? {
        return Err(parsed.error);
      }
      if parsed.value.profileKey != data.profileKey {
        Lock();
        return Err("account keys changed — please unlock again");
      }
      r := Retake(parsed.value);
    }

    /** The rest of reloadSync: the data is replaced and everything shown rebuilt. */
    method Retake(newData: SyncData) returns (r: Result<()>)
      requires Lawful(c)
      modifies this
      ensures (Now(), r) == Spec.Retaken(c, old(Now()), newData)
    {
      hide Spec.Rebuilt;
      data := newData;
      orgKeys := map[];
      items := [];
      folderNames := map[];
      var rebuilt := RebuildDisplayData();
      if rebuilt.Err? {
        Lock();
        return Err("re-sync failed: " + rebuilt.error);
      }
      r := Ok(());
    }

    method TotpCode(hmac: Totp.Hmac, itemId: string, unixTime: uint64) returns (r: Result<(string, int)>)
      requires Lawful(c)
      ensures Codes.SetupOf(c, Now(), itemId).Err? ==> r == Err(Codes.SetupOf(c, Now(), itemId).error)
      ensures var u := Codes.SetupOf(c, Now(), itemId);
              u.Ok? ==> u.value.spec.period > 0 && Codes.Answers(hmac, u.value, unixTime, r)
    {
      hide Spec.CipherKey, EncString.Opened, TotpSecret.Parsed, Base32.Parsed, Totp.IsCode, Totp.DynamicTruncation,
           Totp.CounterBytes, Codes.ByteText, Totp.Step, Totp.SecondsRemaining;
      if locked {
        return Err("vault is locked");
      }
      var cipher := Edit.FindCipher(data.ciphers, itemId);
      if cipher.None? || cipher.value.login.totp == "" {
        return Err("no TOTP secret on this item");
      }
      var key :- CipherKey(cipher.value);
      var rawSecret :- EncString.Open(c, cipher.value.login.totp, key);
      var spec :- TotpSecret.ParseTotpSecret(Codes.ByteText(rawSecret));
      var totpKey :- Base32.Decode(spec.base32Secret);
      Codes.Usable(c, Now(), itemId);
      var code :- Totp.TotpCode(hmac, totpKey, unixTime, spec.period, spec.digits, spec.algorithm);
      r := Ok((code, Totp.SecondsRemaining(unixTime, spec.period)));
    }

    method SetAutoLockSeconds(seconds: int)
      modifies this
      ensures Now() == Spec.SetAutoLock(old(Now()), seconds)
    {
      if seconds <= 0 {
        timer := None;
        interval := 0;
        return;
      }
      interval := seconds * 1000;
      if !locked {
        StartTimer();
      }
    }

    method NoteActivity()
      modifies this
      ensures Now() == Spec.NoteActivity(old(Now()))
    {
      if !locked {
        StartTimer();
      }
    }

    /** The event loop lets time pass; the single-shot timer fires lock(). */
    method TimePasses(ms: nat)
      modifies this
      ensures Now() == Spec.Advance(old(Now()), ms)
    {
      if timer.Some? {
        if ms < timer.value {
          timer := Some(timer.value - ms);
        } else {
          Lock();
        }
      }
      idle := idle + ms;
    }

    // ----- request bodies -----

    method EncryptField(plain: string, key: Key, iv: bytes) returns (r: Result<string>)
      ensures r == Edit.EncryptedField(c, plain, key, iv)
    {
      if plain == "" {
        return Ok("");
      }
      r := EncString.Seal(c, c.toUtf8(plain), key, iv);
    }

    method BuildLoginObject(f: Edit.Entered, existing: Object, key: Key, v: Edit.Ivs) returns (r: Result<Object>)
      ensures r == Edit.PatchedLogin(c, f, existing, key, v)
    {
      hide Edit.EncryptedField;
      var login := existing;
      var username :- EncryptField(f.username, key, v.username);
      login := login["username" := Edit.OrNull(username)];
      var password :- EncryptField(f.password, key, v.password);
      login := login["password" := Edit.OrNull(password)];
      var totp :- EncryptField(f.totp, key, v.totp);
      login := login["totp" := Edit.OrNull(totp)];
      ghost var three :=
        existing + map["username" := Edit.OrNull(username), "password" := Edit.OrNull(password), "totp" := Edit.OrNull(totp)];
      assert login == three by { Edit.LoginKeys(); }

      var uris := AsArray(ValueOf(existing, "uris"));
      var uri :- EncryptField(f.uri, key, v.uri);
      if f.uri != "" {
        var first: Object := if uris == [] then map[] else AsObject(uris[0]);
        first := first["uri" := Str(uri)];
        if "match" !in first {
          first := first["match" := Null];
        }
        if uris == [] {
          uris := [Obj(first)];
        } else {
          assert uris[0 := Obj(first)] == [Obj(first)] + uris[1..];
          uris := uris[0 := Obj(first)];
        }
        login := login["uris" := Arr(uris)];
        assert Edit.UriPatch(existing, f.uri, uri) == map["uris" := Arr(uris)];
      } else if |uris| <= 1 {
        login := login["uris" := Null];
        assert Edit.UriPatch(existing, f.uri, uri) == map["uris" := Null];
      } else {
        assert Edit.UriPatch(existing, f.uri, uri) == map[];
      }
      assert login == three + Edit.UriPatch(existing, f.uri, uri);
      r := Ok(login);
    }

    /** The fields every body carries, inserted one by one. */
    method InsertCommon(body: Object, f: Edit.Entered, key: Key, v: Edit.Ivs) returns (r: Result<Object>)
      ensures r == InsertedCommon(c, body, f, key, v)
    {
      hide Edit.EncryptedField;
      var b := body;
      var name :- EncryptField(f.name, key, v.name);
      b := b["name" := Str(name)];
      var notes :- EncryptField(f.notes, key, v.notes);
      b := b["notes" := Edit.OrNull(notes)];
      b := b["favorite" := Bool(f.favorite)];
      b := b["folderId" := Edit.OrNull(f.folderId)];
      r := Ok(b);
    }

    method BuildUpdateBody(itemId: string, f: Edit.Entered, v: Edit.Ivs) returns (r: Result<Object>)
      requires Lawful(c)
      ensures r == Edit.BuiltUpdate(c, Now(), itemId, f, v)
    {
      hide Spec.CipherKey, Edit.UpdateBody, Edit.FindCipher;
      if locked {
        return Err("vault is locked");
      }
      var cipher := Edit.FindCipher(data.ciphers, itemId);
      if cipher.None? {
        return Err("item not found");
      }
      if f.name == "" {
        return Err("name is required");
      }
      var key :- CipherKey(cipher.value);
      r := PatchedBody(cipher.value, f, key, v);
    }

    /** The body from the item's original object on. */
    method PatchedBody(cipher: Cipher, f: Edit.Entered, key: Key, v: Edit.Ivs) returns (r: Result<Object>)
      ensures r == Edit.UpdateBody(c, cipher, f, key, v)
    {
      hide Edit.PatchedLogin, Edit.CommonPatch, InsertedCommon, Edit.RevisionPatch, ValueOf;
      var raw := cipher.raw;
      var revision := TextOf(raw, "revisionDate");
      var body := DropResponseOnly(raw);
      CommonIs(c, body, f, key, v);
      body :- InsertCommon(body, f, key, v);
      if cipher.kind.Login? {
        body :- PatchLogin(body, f, key, v);
      }
      WithRevision(body, raw);
      if revision != "" {
        body := body["lastKnownRevisionDate" := Str(revision)];
      }
      r := Ok(body);
    }

    /** The login object of a body, in its camelCase place. */
    method PatchLogin(body: Object, f: Edit.Entered, key: Key, v: Edit.Ivs) returns (r: Result<Object>)
      ensures var login := Edit.PatchedLogin(c, f, AsObject(ValueOf(body, "login")), key, v);
              r == (if login.Err? then Err(login.error) else Ok((body - {"Login"}) + map["login" := Obj(login.value)]))
    {
      hide Edit.PatchedLogin, ValueOf;
      var existing := AsObject(ValueOf(body, "login"));
      var login :- BuildLoginObject(f, existing, key, v);
      var rest := body - {"Login"};
      PutIsPlus(rest, "login", Obj(login));
      r := Ok(rest["login" := Obj(login)]);
    }

    method BuildCreateBody(kind: CipherType, f: Edit.Entered, v: Edit.Ivs) returns (r: Result<Object>)
      ensures r == Edit.BuiltCreate(c, Now(), kind, f, v)
    {
      hide Edit.PatchedLogin, Edit.EncryptedField;
      if locked {
        return Err("vault is locked");
      }
      if f.name == "" {
        return Err("name is required");
      }
      CreateOrder(c, kind, f, userKey, v);
      var body: Object := map["type" := Num(if kind.Login? then 1.0 else 2.0)];
      body :- InsertCommon(body, f, userKey, v);
      body := body["organizationId" := Null];
      match kind
      case Login =>
        var login :- BuildLoginObject(f, map[], userKey, v);
        assert body["login" := Obj(login)] == body + map["login" := Obj(login)];
        body := body["login" := Obj(login)];
        r := Ok(body);
      case SecureNote =>
        assert body["secureNote" := Obj(map["type" := Num(0.0)])]
               == body + map["secureNote" := Obj(map["type" := Num(0.0)])];
        body := body["secureNote" := Obj(map["type" := Num(0.0)])];
        r := Ok(body);
      case _ =>
        r := Err("unsupported item type");
    }
  }

  lemma PutIsPlus(o: Object, k: string, j: Json)
    ensures o[k := j] == o + map[k := j]
  {
  }

  lemma WithRevision(body: Object, raw: Object)
    ensures body + Edit.RevisionPatch(raw) ==
            if TextOf(raw, "revisionDate") == "" then body
            else body["lastKnownRevisionDate" := Str(TextOf(raw, "revisionDate"))]
  {
    hide TextOf;
    assert body + map[] == body;
  }

  lemma {:induction false} FolderFails(c: Suite, folders: seq<Folder>, userKey: Key, i: nat)
    requires i < |folders| && Spec.FolderNames(c, folders[..i], userKey).Ok?
    requires Spec.Reveal(c, folders[i].name, userKey).Err?
    ensures Spec.FolderNames(c, folders, userKey) == Err(Spec.Reveal(c, folders[i].name, userKey).error)
    decreases |folders|
  {
    hide Spec.Reveal;
    var n := |folders| - 1;
    if i < n {
      assert folders[..n][..i] == folders[..i];
      FolderFails(c, folders[..n], userKey, i);
    }
  }

  lemma {:induction false} ItemFails(c: Suite, ciphers: seq<Cipher>, userKey: Key, orgKeys: map<string, Key>, i: nat)
    requires i < |ciphers| && Spec.Items(c, ciphers[..i], userKey, orgKeys).Ok?
    requires Spec.CipherKey(c, ciphers[i], userKey, orgKeys).Ok?
    requires Spec.ItemOf(c, ciphers[i], Spec.CipherKey(c, ciphers[i], userKey, orgKeys).value).Err?
    ensures Spec.Items(c, ciphers, userKey, orgKeys)
            == Err(Spec.ItemOf(c, ciphers[i], Spec.CipherKey(c, ciphers[i], userKey, orgKeys).value).error)
    decreases |ciphers|
  {
    hide Spec.CipherKey, Spec.ItemOf;
    var n := |ciphers| - 1;
    if i < n {
      assert ciphers[..n][..i] == ciphers[..i];
      ItemFails(c, ciphers[..n], userKey, orgKeys, i);
    }
  }

  ghost function InsertedCommon(c: Suite, body: Object, f: Edit.Entered, key: Key, v: Edit.Ivs): Result<Object> {
    var name :- Edit.EncryptedField(c, f.name, key, v.name);
    var notes :- Edit.EncryptedField(c, f.notes, key, v.notes);
    Ok(body["name" := Str(name)]["notes" := Edit.OrNull(notes)]["favorite" := Bool(f.favorite)]
           ["folderId" := Edit.OrNull(f.folderId)])
  }

  lemma CommonIs(c: Suite, body: Object, f: Edit.Entered, key: Key, v: Edit.Ivs)
    ensures InsertedCommon(c, body, f, key, v).Err? <==> Edit.CommonPatch(c, f, key, v).Err?
    ensures Edit.CommonPatch(c, f, key, v).Err? ==>
              InsertedCommon(c, body, f, key, v).error == Edit.CommonPatch(c, f, key, v).error
    ensures Edit.CommonPatch(c, f, key, v).Ok? ==>
              InsertedCommon(c, body, f, key, v) == Ok(body + Edit.CommonPatch(c, f, key, v).value)
  {
    hide Edit.EncryptedField;
    if Edit.CommonPatch(c, f, key, v).Ok? {
      assert InsertedCommon(c, body, f, key, v).value == body + Edit.CommonPatch(c, f, key, v).value;
    }
  }

  lemma CreateOrder(c: Suite, kind: CipherType, f: Edit.Entered, key: Key, v: Edit.Ivs)
    ensures var t: Object := map["type" := Num(if kind.Login? then 1.0 else 2.0)];
            && (Edit.CommonPatch(c, f, key, v).Err? ==>
                  InsertedCommon(c, t, f, key, v) == Err(Edit.CommonPatch(c, f, key, v).error))
            && (Edit.CommonPatch(c, f, key, v).Ok? ==>
                  InsertedCommon(c, t, f, key, v).Ok?
                  && InsertedCommon(c, t, f, key, v).value["organizationId" := Null]
                     == Edit.CommonPatch(c, f, key, v).value
                        + map["type" := Num(if kind.Login? then 1.0 else 2.0), "organizationId" := Null])
  {
    hide Edit.EncryptedField;
    CommonIs(c, map["type" := Num(if kind.Login? then 1.0 else 2.0)], f, key, v);
  }

  /** The loop that removes each response-only key in both spellings. */
  method DropResponseOnly(raw: Object) returns (body: Object)
    ensures body == raw - Edit.Dropped()
  {
    hide Pascal, DroppedUpTo;
    body := raw;
    var i := 0;
    NoneDropped();
    while i < |Edit.RESPONSE_ONLY|
      invariant 0 <= i <= |Edit.RESPONSE_ONLY|
      invariant body == raw - DroppedUpTo(i)
    {
      var camel := Edit.RESPONSE_ONLY[i];
      body := body - {camel};
      body := body - {Pascal(camel)};
      DropNext(i);
      i := i + 1;
    }
    AllDropped();
  }

  /** One response-only key in both spellings. */
  function Pair(i: nat): set<string>
    requires i < |Edit.RESPONSE_ONLY|
  {
    {Edit.RESPONSE_ONLY[i], Pascal(Edit.RESPONSE_ONLY[i])}
  }

  function DroppedUpTo(i: nat): set<string>
    requires i <= |Edit.RESPONSE_ONLY|
  {
    if i == 0 then {} else DroppedUpTo(i - 1) + Pair(i - 1)
  }

  lemma FirstPairs()
    ensures Pair(0) == {"object", "Object"}
    ensures Pair(1) == {"id", "Id"}
    ensures Pair(2) == {"revisionDate", "RevisionDate"}
    ensures Pair(3) == {"creationDate", "CreationDate"}
  {
    assert Edit.RESPONSE_ONLY[0] == "object" && Pascal("object") == "Object";
    assert Edit.RESPONSE_ONLY[1] == "id" && Pascal("id") == "Id";
    assert Edit.RESPONSE_ONLY[2] == "revisionDate" && Pascal("revisionDate") == "RevisionDate";
    assert Edit.RESPONSE_ONLY[3] == "creationDate" && Pascal("creationDate") == "CreationDate";
  }

  lemma MiddlePairs()
    ensures Pair(4) == {"deletedDate", "DeletedDate"}
    ensures Pair(5) == {"edit", "Edit"}
    ensures Pair(6) == {"viewPassword", "ViewPassword"}
  {
    assert Edit.RESPONSE_ONLY[4] == "deletedDate" && Pascal("deletedDate") == "DeletedDate";
    assert Edit.RESPONSE_ONLY[5] == "edit" && Pascal("edit") == "Edit";
    assert Edit.RESPONSE_ONLY[6] == "viewPassword" && Pascal("viewPassword") == "ViewPassword";
  }

  lemma LastPair()
    ensures Pair(9) == {"organizationUseTotp", "OrganizationUseTotp"}
  {
    assert Edit.RESPONSE_ONLY[9] == "organizationUseTotp" && Pascal("organizationUseTotp") == "OrganizationUseTotp";
  }

  lemma LastPairs()
    ensures Pair(7) == {"permissions", "Permissions"}
    ensures Pair(8) == {"collectionIds", "CollectionIds"}
  {
    assert Edit.RESPONSE_ONLY[7] == "permissions" && Pascal("permissions") == "Permissions";
    assert Edit.RESPONSE_ONLY[8] == "collectionIds" && Pascal("collectionIds") == "CollectionIds";
  }

  lemma NoneDropped()
    ensures DroppedUpTo(0) == {}
  {
  }

  lemma DropNext(i: nat)
    requires i < |Edit.RESPONSE_ONLY|
    ensures DroppedUpTo(i + 1) == DroppedUpTo(i) + Pair(i)
  {
  }

  lemma Regrouped(x: set<string>, a: set<string>, b: set<string>, c: set<string>)
    ensures x + a + b + c == x + (a + b + c)
  {
  }

  lemma AllDropped()
    ensures DroppedUpTo(|Edit.RESPONSE_ONLY|) == Edit.Dropped()
  {
    hide DroppedUpTo, Pair, Pascal;
    NoneDropped();
    FirstPairs();
    MiddlePairs();
    LastPairs();
    LastPair();
    DropNext(0);
    DropNext(1);
    DropNext(2);
    DropNext(3);
    DropNext(4);
    DropNext(5);
    DropNext(6);
    DropNext(7);
    DropNext(8);
    DropNext(9);
    Regrouped(DroppedUpTo(4), Pair(4), Pair(5), Pair(6));
    Regrouped(DroppedUpTo(7), Pair(7), Pair(8), Pair(9));
  }
}
