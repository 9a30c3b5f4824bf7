/** What holds of the vault over every run, and what reloading refines. */
module VaultRuns {
  import opened Words
  import opened Wrappers
  import opened Json
  import opened CipherItem
  import opened SyncParser
  import opened CryptoSuite
  import opened VaultSpec
  import EncString

  // ----- lifecycle invariant -----

  /** Nothing decrypted and no key remains. */
  predicate Wiped(s: State) {
    s.userKey == NO_KEY && s.privateKey == [] && s.orgKeys == map[] && s.items == [] && s.folderNames == map[]
  }

  /** The keys come from the protected key, and the display data is what a rebuild
      from the data and the keys in memory gives now. */
  ghost predicate Current(c: Suite, s: State) {
    && s.data.profileKey != ""
    && (exists masterKey :: UserKeyOf(c, s.data.profileKey, masterKey) == Ok(s.userKey))
    && Rebuilt(c, s.data, s.userKey, s.privateKey) == Ok(Display(s.privateKey, s.orgKeys, s.items, s.folderNames))
  }

  /** The auto-lock timer runs exactly when the vault is unlocked and an interval
      is set, and fires when the idle time reaches the interval. */
  predicate Timed(s: State) {
    && (s.timer.Some? <==> !s.locked && s.interval > 0)
    && (s.timer.Some? ==> s.timer.value > 0 && s.idle + s.timer.value == s.interval)
  }

  ghost predicate Inv(c: Suite, s: State) {
    && (s.locked ==> Wiped(s))
    && (!s.locked ==> Current(c, s))
    && Timed(s)
    && forall x :: x in s.data.ciphers ==> Faithful(x)
  }

  lemma RebuiltAgain(c: Suite, data: SyncData, userKey: Key, held: bytes)
    requires Rebuilt(c, data, userKey, held).Ok?
    ensures var d := Rebuilt(c, data, userKey, held).value;
            Rebuilt(c, data, userKey, d.privateKey) == Ok(d)
  {
  }

  lemma StepKeepsInv(c: Suite, s: State, op: Op)
    requires Inv(c, s)
    ensures Inv(c, Step(c, s, op))
  {
    hide Inv, LoadSync, Unlock, ReloadSync, Locked, SetAutoLock, NoteActivity, Advance;
    match op
    case DoLoad(doc) => LoadKeepsInv(c, s, doc);
    case DoUnlock(masterKey) => UnlockKeepsInv(c, s, masterKey);
    case DoReload(doc) => ReloadKeepsInv(c, s, doc);
    case DoLock => LockKeepsInv(c, s);
    case DoSetAutoLock(seconds) => TimerKeepsInv(c, s, seconds, 0);
    case DoActivity => TimerKeepsInv(c, s, 0, 0);
    case DoAdvance(ms) => TimerKeepsInv(c, s, 0, ms);
  }

  lemma LockKeepsInv(c: Suite, s: State)
    requires Inv(c, s)
    ensures Inv(c, Locked(s))
  {
    hide Current, Faithful;
  }

  lemma LoadKeepsInv(c: Suite, s: State, doc: Option<Object>)
    requires Inv(c, s)
    ensures Inv(c, LoadSync(s, doc).0)
  {
    hide Current, Faithful, ParsedSync;
    if ParsedSync(doc).Ok? {
      ParsedAreFaithful(doc);
    }
  }

  lemma UnlockKeepsInv(c: Suite, s: State, masterKey: bytes)
    requires Inv(c, s)
    ensures Inv(c, Unlock(c, s, masterKey).0)
  {
    hide Inv, OpenedWith, Locked, EncString.Opened, UserKeyOf;
    LockKeepsInv(c, s);
    SameData(s);
    var userKey := UserKeyOf(c, s.data.profileKey, masterKey);
    if userKey.Ok? && s.data.profileKey != "" {
      OpenKeepsInv(c, Locked(s), userKey.value, masterKey);
    }
  }

  lemma SameData(s: State)
    ensures Locked(s).data == s.data && Locked(s).locked
  {
  }

  lemma OpenKeepsInv(c: Suite, t: State, userKey: Key, masterKey: bytes)
    requires Inv(c, t) && t.locked && t.data.profileKey != "" && UserKeyOf(c, t.data.profileKey, masterKey) == Ok(userKey)
    ensures Inv(c, OpenedWith(c, t, userKey).0)
  {
    hide Rebuilt, UserKeyOf, Faithful;
    if Rebuilt(c, t.data, userKey, []).Ok? {
      RebuiltAgain(c, t.data, userKey, []);
    }
  }

  lemma ReloadKeepsInv(c: Suite, s: State, doc: Option<Object>)
    requires Inv(c, s)
    ensures Inv(c, ReloadSync(c, s, doc).0)
  {
    hide Inv, Retaken, Locked, ParsedSync;
    LockKeepsInv(c, s);
    if ParsedSync(doc).Ok? {
      var data := ParsedSync(doc).value;
      ParsedAreFaithful(doc);
      if !s.locked && data.profileKey == s.data.profileKey {
        RetakenKeepsInv(c, s, data);
      }
    }
  }

  lemma RetakenKeepsInv(c: Suite, s: State, data: SyncData)
    requires Inv(c, s) && !s.locked && data.profileKey == s.data.profileKey
    requires forall x :: x in data.ciphers ==> Faithful(x)
    ensures Inv(c, Retaken(c, s, data).0)
  {
    hide Rebuilt, UserKeyOf, Faithful;
    if Rebuilt(c, data, s.userKey, s.privateKey).Ok? {
      RebuiltAgain(c, data, s.userKey, s.privateKey);
    }
  }

  lemma TimerKeepsInv(c: Suite, s: State, seconds: int, ms: nat)
    requires Inv(c, s)
    ensures Inv(c, SetAutoLock(s, seconds)) && Inv(c, NoteActivity(s)) && Inv(c, Advance(s, ms))
  {
    hide Rebuilt, UserKeyOf, Faithful;
  }

  lemma {:induction false} RunKeepsInv(c: Suite, s: State, ops: seq<Op>)
    requires Inv(c, s)
    ensures Inv(c, Run(c, s, ops))
    decreases |ops|
  {
    if ops != [] {
      StepKeepsInv(c, s, ops[0]);
      RunKeepsInv(c, Step(c, s, ops[0]), ops[1..]);
    }
  }

  lemma InitialInv(c: Suite)
    ensures Inv(c, INITIAL)
  {
  }

  /** After any run: a locked vault holds no secret, an unlocked one is current, and
      an unlocked one with an interval has been idle for less than it. */
  lemma Lifecycle(c: Suite, ops: seq<Op>)
    ensures var s := Run(c, INITIAL, ops);
            && (s.locked ==> Wiped(s))
            && (!s.locked ==> Current(c, s))
            && (!s.locked && s.interval > 0 ==> s.idle < s.interval)
            && (s.timer.Some? <==> !s.locked && s.interval > 0)
  {
    InitialInv(c);
    RunKeepsInv(c, INITIAL, ops);
  }

  // ----- sizes of the keys in memory -----

  lemma {:induction false} OrganizationKeysSized(c: Suite, organizations: seq<Organization>, privateKey: bytes)
    ensures forall id :: id in OrganizationKeys(c, organizations, privateKey)
                         ==> Sized(OrganizationKeys(c, organizations, privateKey)[id])
  {
    hide EncString.Parsed;
    if organizations != [] {
      OrganizationKeysSized(c, organizations[..|organizations| - 1], privateKey);
    }
  }

  /** Every key that resolves in an unlocked vault has both its halves. */
  lemma ResolvedKeysSized(c: Suite, s: State, cipher: Cipher)
    requires Inv(c, s) && !s.locked
    ensures Sized(s.userKey)
    ensures CipherKey(c, cipher, s.userKey, s.orgKeys).Ok? ==> Sized(CipherKey(c, cipher, s.userKey, s.orgKeys).value)
  {
    hide EncString.Opened, EncString.Parsed, Items, FolderNames;
    var masterKey :| UserKeyOf(c, s.data.profileKey, masterKey) == Ok(s.userKey);
    OrganizationKeysSized(c, s.data.organizations, s.privateKey);
  }

  // ----- when does a rebuild succeed -----

  /** An item whose key does not resolve is skipped; one whose key does must decrypt. */
  ghost predicate Displayable(c: Suite, cipher: Cipher, userKey: Key, orgKeys: map<string, Key>) {
    var key := CipherKey(c, cipher, userKey, orgKeys);
    key.Ok? ==> ItemOf(c, cipher, key.value).Ok?
  }

  lemma {:induction false} ItemsExactly(c: Suite, ciphers: seq<Cipher>, userKey: Key, orgKeys: map<string, Key>)
    ensures Items(c, ciphers, userKey, orgKeys).Ok? <==>
            forall x :: x in ciphers ==> Displayable(c, x, userKey, orgKeys)
  {
    hide CipherKey, ItemOf;
    if ciphers != [] {
      var n := |ciphers| - 1;
      ItemsExactly(c, ciphers[..n], userKey, orgKeys);
      assert ciphers == ciphers[..n] + [ciphers[n]];
      assert Displayable(c, ciphers[n], userKey, orgKeys) <==>
             (CipherKey(c, ciphers[n], userKey, orgKeys).Err?
              || ItemOf(c, ciphers[n], CipherKey(c, ciphers[n], userKey, orgKeys).value).Ok?);
      assert ciphers[n] in ciphers && forall x :: x in ciphers[..n] ==> x in ciphers;
    }
  }

  lemma {:induction false} FolderNamesExactly(c: Suite, folders: seq<Folder>, userKey: Key)
    ensures FolderNames(c, folders, userKey).Ok? <==> forall f :: f in folders ==> Reveal(c, f.name, userKey).Ok?
  {
    hide Reveal;
    if folders != [] {
      var n := |folders| - 1;
      FolderNamesExactly(c, folders[..n], userKey);
      assert folders == folders[..n] + [folders[n]];
    }
  }

  /** The header of src/vault/syncparser.h:27-28 wants one bad item not to make the
      whole vault unreadable. That holds of items that do not parse and of items
      without a key; but the rebuild, and with it unlocking, succeeds only if every
      folder name and every display field of every item with a key decrypts. */
  lemma RebuildExactly(c: Suite, data: SyncData, userKey: Key, held: bytes)
    ensures Rebuilt(c, data, userKey, held).Ok? <==>
            && PrivateKeyOf(c, data, userKey, held).Ok?
            && (forall f :: f in data.folders ==> Reveal(c, f.name, userKey).Ok?)
            && (forall x :: x in data.ciphers ==>
                  Displayable(c, x, userKey, OrgKeysFor(c, data, PrivateKeyOf(c, data, userKey, held).value)))
  {
    hide Items, FolderNames, Reveal, Displayable, OrganizationKeys;
    FolderNamesExactly(c, data.folders, userKey);
    if PrivateKeyOf(c, data, userKey, held).Ok? {
      ItemsExactly(c, data.ciphers, userKey, OrgKeysFor(c, data, PrivateKeyOf(c, data, userKey, held).value));
    }
  }

  /** The master password opens the vault exactly when it opens the protected key and
      everything that is displayed then decrypts. */
  lemma UnlockExactly(c: Suite, s: State, masterKey: bytes)
    ensures Unlock(c, s, masterKey).1.Ok? <==>
            && s.data.profileKey != ""
            && UserKeyOf(c, s.data.profileKey, masterKey).Ok?
            && (var userKey := UserKeyOf(c, s.data.profileKey, masterKey).value;
                && PrivateKeyOf(c, s.data, userKey, []).Ok?
                && (forall f :: f in s.data.folders ==> Reveal(c, f.name, userKey).Ok?)
                && (forall x :: x in s.data.ciphers ==>
                      Displayable(c, x, userKey, OrgKeysFor(c, s.data, PrivateKeyOf(c, s.data, userKey, []).value))))
  {
    hide Rebuilt, Reveal, Displayable, OrganizationKeys, EncString.Opened, StretchMasterKey, KeyFromBytes, PrivateKeyOf,
         OrgKeysFor;
    if UserKeyOf(c, s.data.profileKey, masterKey).Ok? {
      RebuildExactly(c, s.data, UserKeyOf(c, s.data.profileKey, masterKey).value, []);
    }
  }

  /** A user key sealed under a master key is what that master key recovers, so an
      account with nothing in it always opens, and is then the new user key's. */
  lemma SealedKeyUnlocks(c: Suite, s: State, masterKey: bytes, raw: bytes, iv: bytes)
    requires Lawful(c) && |masterKey| == 32 && |raw| == 64 && |iv| == 16
    requires EncString.Sealed(c, raw, StretchMasterKey(c, masterKey).value, iv) == Ok(s.data.profileKey)
    ensures UserKeyOf(c, s.data.profileKey, masterKey) == Ok(Key(raw[..32], raw[32..]))
    ensures s.data.profilePrivateKey == "" && s.data.folders == [] && s.data.ciphers == []
            ==> Unlock(c, s, masterKey).1.Ok? && Unlock(c, s, masterKey).0.userKey == Key(raw[..32], raw[32..])
  {
    hide EncString.Sealed, EncString.Opened, EncString.Parsed, Rebuilt, Unlock, OrganizationKeys, Reveal, Displayable;
    EncString.OpenSealed(c, raw, StretchMasterKey(c, masterKey).value, iv);
    assert UserKeyOf(c, s.data.profileKey, masterKey) == Ok(Key(raw[..32], raw[32..]));
    if s.data.profilePrivateKey == "" && s.data.folders == [] && s.data.ciphers == [] {
      UnlockExactly(c, s, masterKey);
      UnlockedKey(c, s, masterKey);
    }
  }

  lemma UnlockedKey(c: Suite, s: State, masterKey: bytes)
    requires Unlock(c, s, masterKey).1.Ok?
    ensures UserKeyOf(c, s.data.profileKey, masterKey) == Ok(Unlock(c, s, masterKey).0.userKey)
  {
    hide EncString.Opened, Rebuilt, StretchMasterKey, KeyFromBytes;
  }

  // ----- reloading refines loading and unlocking -----

  /** Same lock state, data, keys and display data. */
  predicate SameVault(s: State, t: State) {
    && s.locked == t.locked && s.data == t.data
    && s.userKey == t.userKey && s.privateKey == t.privateKey && s.orgKeys == t.orgKeys
    && s.items == t.items && s.folderNames == t.folderNames
    && s.interval == t.interval && (s.timer.Some? <==> t.timer.Some?)
  }

  /** More organization keys cannot repair a rebuild that fails without any. */
  lemma FewerKeysFailLess(c: Suite, data: SyncData, userKey: Key, held: bytes)
    requires data.profilePrivateKey == "" && Rebuilt(c, data, userKey, []).Err?
    ensures Rebuilt(c, data, userKey, held).Err?
  {
    RebuildExactly(c, data, userKey, []);
    RebuildExactly(c, data, userKey, held);
    hide Rebuilt, Reveal, ItemOf, OrganizationKeys, EncString.Opened;
    if forall f :: f in data.folders ==> Reveal(c, f.name, userKey).Ok? {
      var x :| x in data.ciphers && !Displayable(c, x, userKey, map[]);
      assert x.organizationId == "";
      assert !Displayable(c, x, userKey, OrgKeysFor(c, data, held));
    }
  }

  /** Reloading a blob with an unchanged protected key against loading it and unlocking
      it with the master key that unlocked the vault. The two agree exactly unless the
      blob has no private key while one is held: then reloading keeps the old one. */
  lemma ReloadRefines(c: Suite, s: State, doc: Option<Object>, masterKey: bytes)
    requires Inv(c, s) && !s.locked
    requires UserKeyOf(c, s.data.profileKey, masterKey) == Ok(s.userKey)
    requires ParsedSync(doc).Ok? && ParsedSync(doc).value.profileKey == s.data.profileKey
    ensures var r := ReloadSync(c, s, doc);
            var f := Unlock(c, LoadSync(s, doc).0, masterKey);
            && (f.1.Ok? ==> (SameVault(r.0, f.0) <==>
                             ParsedSync(doc).value.profilePrivateKey != "" || s.privateKey == []))
            && (f.1.Err? ==> r.1.Err? && SameVault(r.0, f.0))
            && (f.1.Ok? && SameVault(r.0, f.0) ==> r.1.Ok?)
  {
    hide ParsedSync, UserKeyOf, EncString.Opened, Rebuilt, StretchMasterKey;
    var data := ParsedSync(doc).value;
    UserKeyOpens(c, s.data.profileKey, masterKey);
    if data.profilePrivateKey != "" {
      SamePrivateKey(c, data, s.userKey, s.privateKey);
    } else if Rebuilt(c, data, s.userKey, []).Err? {
      FewerKeysFailLess(c, data, s.userKey, s.privateKey);
    } else {
      HeldPrivateKey(c, data, s.userKey, []);
      if Rebuilt(c, data, s.userKey, s.privateKey).Ok? {
        HeldPrivateKey(c, data, s.userKey, s.privateKey);
      }
    }
  }

  lemma UserKeyOpens(c: Suite, profileKey: string, masterKey: bytes)
    requires UserKeyOf(c, profileKey, masterKey).Ok?
    ensures StretchMasterKey(c, masterKey).Ok?
    ensures EncString.Opened(c, profileKey, StretchMasterKey(c, masterKey).value).Ok?
  {
    hide EncString.Opened;
  }

  lemma SamePrivateKey(c: Suite, data: SyncData, userKey: Key, held: bytes)
    requires data.profilePrivateKey != ""
    ensures Rebuilt(c, data, userKey, held) == Rebuilt(c, data, userKey, [])
  {
    hide EncString.Opened, Items, FolderNames;
  }

  lemma HeldPrivateKey(c: Suite, data: SyncData, userKey: Key, held: bytes)
    requires data.profilePrivateKey == "" && Rebuilt(c, data, userKey, held).Ok?
    ensures Rebuilt(c, data, userKey, held).value.privateKey == held
  {
    hide EncString.Opened, Items, FolderNames;
  }
}
