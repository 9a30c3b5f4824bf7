/** The ways into a closed vault, from asking to the open page: the master password, and a
    PIN from enabling it to losing it. */
module ControllerPin {
  import opened Words
  import opened Wrappers
  import opened CryptoSuite
  import V = VaultSpec
  import VR = VaultRuns
  import L = ListModel
  import PinWrap
  import opened ControllerSpec
  import opened ControllerRuns
  import opened ControllerPages
  import opened ControllerLosses
  import opened ControllerVault
  import opened ControllerSignOut

  // ----- a wrong PIN -----

  /** The first and the second wrong PIN in a row only count; the third deletes the wrapped
      key. Nothing else changes. */
  lemma WrongPinExactly(c: Suite, s: State, e: Event, loc: L.Locale)
    requires Inv(c, s, loc) && WrongDelivered(c, s, e)
    ensures Next(c, s, e, loc)
            == s.(work := s.work.(pin := None), busy := false,
                  disk := if s.disk.pinFailures < 2 then s.disk.(pinFailures := s.disk.pinFailures + 1)
                          else s.disk.(pinText := None, pinFailures := 0))
  {
    hide Inv, Next, PinWrap.Unwrapped, WrapResult, TryUnlock;
    PinEvents(c, s, "", e.salt, e.iv, loc);
    InvCounts(c, s, loc);
  }

  /** The steps that lose a stored wrapped key: forgetting it, signing out, finding it
      unreadable, the third wrong PIN, and a right PIN whose key no longer fits. */
  ghost predicate LosesKey(c: Suite, s: State, e: Event) {
    || e.DisablePin? || e.SignOut?
    || (e.UnlockWithPin? && s.disk.blob.Some? && s.disk.pinText.Some? && PinWrap.Parsed(s.disk.pinText.value).Err?)
    || (WrongDelivered(c, s, e) && s.disk.pinFailures == 2)
    || (e.PinDone? && KeyTried(c, s, e).Some? && V.Unlock(c, s.vault, KeyTried(c, s, e).value).1.Err?)
  }

  lemma KeyLostExactly(c: Suite, s: State, e: Event, loc: L.Locale)
    requires Inv(c, s, loc) && s.disk.pinText.Some?
    ensures Next(c, s, e, loc).disk.pinText.None? <==> LosesKey(c, s, e)
  {
    hide Inv, Next, OnPinDone, OnUnlockWithPin, PinWrap.Parsed, V.Unlock, KeyTried, WrongDelivered;
    NextKeeps(c, s, e, loc);
    OnlyPinDone(c, s, e);
    if e.PinDone? {
      PinEvents(c, s, "", e.salt, e.iv, loc);
      PinDoneLoses(c, s, e.salt, e.iv, loc);
    } else if e.UnlockWithPin? {
      PinEvents(c, s, e.pin, [], [], loc);
      UnreadableLost(s, e.pin);
    } else if e.DisablePin? || e.SignOut? {
      Forgets(c, s, loc);
    }
  }

  lemma OnlyPinDone(c: Suite, s: State, e: Event)
    ensures WrongDelivered(c, s, e) ==> e.PinDone?
  {
    hide PinWrap.Unwrapped;
  }

  lemma UnreadableLost(s: State, pin: string)
    requires s.disk.pinText.Some?
    ensures OnUnlockWithPin(s, pin).disk.pinText.None? <==>
            s.disk.blob.Some? && PinWrap.Parsed(s.disk.pinText.value).Err?
  {
    hide PinWrap.Parsed;
  }

  lemma PinDoneLoses(c: Suite, s: State, salt: bytes, iv: bytes, loc: L.Locale)
    requires Inv(c, s, loc) && s.disk.pinText.Some?
    ensures var e := PinDone(salt, iv);
            OnPinDone(c, s, salt, iv, loc).disk.pinText.None? <==>
              || (WrongDelivered(c, s, e) && s.disk.pinFailures == 2)
              || (KeyTried(c, s, e).Some? && V.Unlock(c, s.vault, KeyTried(c, s, e).value).1.Err?)
  {
    hide Inv, TryUnlock, WrapResult, PinWrap.Unwrapped, V.Unlock;
    InvCounts(c, s, loc);
    if s.work.pin.Some? && s.work.pin.value.UnwrapJob? {
      var r := PinWrap.Unwrapped(c, s.work.pin.value.wrapped, c.toUtf8(s.work.pin.value.pin));
      if r.Ok? {
        TryUnlockIs(c, s.(work := s.work.(pin := None), busy := false), r.value, loc);
      }
    }
  }

  // ----- the master password -----

  lemma AskedUnlock(s: State)
    requires s.disk.kdfIterations != 0 && s.work.derive.None? && (s.vault.locked ==> s.disk.blob.Some?)
    ensures OnRequest(s, Unlock) == s.(busy := true, work := s.work.(derive := Some(ForUnlock)))
  {
  }

  /** Asking to unlock and the derived key: a key that opens the vault shows the unlocked
      page with the vault's items; any other leaves a closed vault closed and the page,
      list and settings as they were. */
  lemma PasswordUnlocks(c: Suite, s: State, masterKey: bytes, loc: L.Locale)
    requires Inv(c, s, loc) && s.vault.locked && s.disk.blob.Some? && s.disk.kdfIterations != 0 && s.work.derive.None?
    ensures var t := Next(c, Next(c, s, Asked(Unlock), loc), DeriveDone(Ok(masterKey)), loc);
            if V.Unlock(c, s.vault, masterKey).1.Ok? then
              t.phase == Unlocked && !t.vault.locked && t.vault == V.Unlock(c, s.vault, masterKey).0
              && t.list.source == t.vault.items && t.disk == s.disk
            else t.vault.locked && t.phase == s.phase && t.disk == s.disk
  {
    hide Inv, Next, OnRequest, OnDeriveDone, V.Unlock, KeyTried;
    var u := Next(c, s, Asked(Unlock), loc);
    Arms(c, s, Unlock, Prelogin, Failed, Ok(masterKey), loc);
    Arms(c, u, Unlock, Prelogin, Failed, Ok(masterKey), loc);
    AskedUnlock(s);
    NextKeeps(c, s, Asked(Unlock), loc);
    DerivedUnlock(c, u, masterKey, loc);
    var w := u.(work := u.work.(derive := None), busy := false);
    QuietKeeps(c, u, w, loc);
    TryUnlockIs(c, w, masterKey, loc);
    UnlockLocks(c, s.vault, masterKey);
    TryUnlockKeeps(c, w, masterKey, loc);
    InvIsSafe(c, TryUnlock(c, w, masterKey, loc).0, loc);
    if V.Unlock(c, s.vault, masterKey).1.Err? {
      FailedPage(c, w, masterKey, loc);
    }
  }

  lemma DerivedUnlock(c: Suite, s: State, masterKey: bytes, loc: L.Locale)
    requires s.work.derive == Some(ForUnlock)
    ensures OnDeriveDone(c, s, Ok(masterKey), loc)
            == TryUnlock(c, s.(work := s.work.(derive := None), busy := false), masterKey, loc).0
  {
    hide TryUnlock;
  }

  /** A failed unlock of a closed vault announces nothing. */
  lemma FailedPage(c: Suite, s: State, masterKey: bytes, loc: L.Locale)
    requires s.vault.locked && V.Unlock(c, s.vault, masterKey).1.Err?
    ensures TryUnlock(c, s, masterKey, loc).0.phase == s.phase
  {
    hide WithVault, V.UserKeyOf, V.Rebuilt;
    var v := V.Unlock(c, s.vault, masterKey).0;
    assert v.emitted == s.vault.emitted;
    QuietSignals(s, v, loc);
  }

  // ----- enabling a PIN -----

  /** Asking for a PIN, the derived master key, and the wrapping: a PIN of at least four
      characters and a key that opens the protected key store the wrapped key and clear
      the counter; without either nothing is stored. Page, vault and list do not change. */
  lemma PinEnables(c: Suite, s: State, masterKey: bytes, pin: string, salt: bytes, iv: bytes, loc: L.Locale)
    requires s.disk.blob.Some? && s.disk.kdfIterations != 0 && s.work == NO_WORK
    requires WrapResult(c, masterKey, pin, salt, iv).Ok?
    ensures var t := Run(c, s, [Asked(EnablePin(pin)), DeriveDone(Ok(masterKey)), PinDone(salt, iv)], loc);
            && t.work == NO_WORK && t.vault == s.vault && t.list == s.list && t.phase == s.phase
            && t.disk == (if |pin| >= 4 && V.VerifiesMasterKey(c, s.vault, masterKey) then
                            s.disk.(pinText := Some(WrapResult(c, masterKey, pin, salt, iv).value), pinFailures := 0)
                          else s.disk)
  {
    hide Run, Next, OnRequest, OnDeriveDone, OnPinDone, V.VerifiesMasterKey, WrapResult;
    var s1 := Next(c, s, Asked(EnablePin(pin)), loc);
    var s2 := Next(c, s1, DeriveDone(Ok(masterKey)), loc);
    ThreeSteps(c, s, Asked(EnablePin(pin)), DeriveDone(Ok(masterKey)), PinDone(salt, iv), loc);
    Arms(c, s, EnablePin(pin), Prelogin, Failed, Ok(masterKey), loc);
    Arms(c, s1, EnablePin(pin), Prelogin, Failed, Ok(masterKey), loc);
    PinEvents(c, s2, pin, salt, iv, loc);
    EnableStates(c, s, masterKey, pin, salt, iv, loc);
  }

  lemma EnableStates(c: Suite, s: State, masterKey: bytes, pin: string, salt: bytes, iv: bytes, loc: L.Locale)
    requires s.disk.blob.Some? && s.disk.kdfIterations != 0 && s.work == NO_WORK
    requires WrapResult(c, masterKey, pin, salt, iv).Ok?
    ensures var s1 := OnRequest(s, EnablePin(pin));
            var s2 := OnDeriveDone(c, s1, Ok(masterKey), loc);
            var t := OnPinDone(c, s2, salt, iv, loc);
            && t.work == NO_WORK && t.vault == s.vault && t.list == s.list && t.phase == s.phase
            && t.disk == (if |pin| >= 4 && V.VerifiesMasterKey(c, s.vault, masterKey) then
                            s.disk.(pinText := Some(WrapResult(c, masterKey, pin, salt, iv).value), pinFailures := 0)
                          else s.disk)
  {
    hide V.VerifiesMasterKey, WrapResult, TryUnlock, PinWrap.Unwrapped;
  }

  // ----- the whole life of a PIN -----

  /** The rebuild gives the items that are shown: the key opens the data, and the private
      key is the data's. */
  predicate OwnPrivateKey(v: V.State) {
    v.data.profilePrivateKey != "" || v.privateKey == []
  }

  lemma LockedUnlocks(c: Suite, v: V.State, masterKey: bytes)
    requires VR.Inv(c, v) && !v.locked && OwnPrivateKey(v)
    requires V.UserKeyOf(c, v.data.profileKey, masterKey) == Ok(v.userKey)
    ensures var (w, r) := V.Unlock(c, V.Locked(v), masterKey);
            r.Ok? && w.items == v.items && w.userKey == v.userKey && w.folderNames == v.folderNames
    ensures V.VerifiesMasterKey(c, v, masterKey)
  {
    hide V.UserKeyOf, V.Rebuilt, StretchMasterKey;
    VR.UserKeyOpens(c, v.data.profileKey, masterKey);
    if v.data.profilePrivateKey != "" {
      VR.SamePrivateKey(c, v.data, v.userKey, v.privateKey);
    }
  }

  /** An open vault, a PIN enabled with its master key, locking, and the PIN: the same items
      are shown again, however often this is repeated. */
  lemma PinSession(c: Suite, s: State, masterKey: bytes, pin: string, salt: bytes, iv: bytes, loc: L.Locale)
    requires Lawful(c) && |salt| == PinWrap.SALT_LENGTH && |iv| == 16 && |pin| >= 4
    requires Inv(c, s, loc) && !s.vault.locked && OwnPrivateKey(s.vault)
    requires s.disk.blob.Some? && s.disk.kdfIterations != 0 && s.work == NO_WORK
    requires V.UserKeyOf(c, s.vault.data.profileKey, masterKey) == Ok(s.vault.userKey)
    requires WrapResult(c, masterKey, pin, salt, iv).Ok?
    ensures var t := Run(c, s, [Asked(EnablePin(pin)), DeriveDone(Ok(masterKey)), PinDone(salt, iv)], loc);
            var u := Next(c, t, Lock, loc);
            var w := Next(c, Next(c, u, UnlockWithPin(pin), loc), PinDone([], []), loc);
            && u.phase == Locked && u.vault.locked && u.list.filtered == []
            && w.phase == Unlocked && !w.vault.locked && w.vault.items == s.vault.items && w.list.source == s.vault.items
  {
    hide Run, Next, Inv, WrapResult, V.UserKeyOf, V.Unlock, V.VerifiesMasterKey, VR.Inv, VR.Wiped, KeyTried;
    var t := Run(c, s, [Asked(EnablePin(pin)), DeriveDone(Ok(masterKey)), PinDone(salt, iv)], loc);
    InvVault(c, s, loc);
    LockedUnlocks(c, s.vault, masterKey);
    PinEnables(c, s, masterKey, pin, salt, iv, loc);
    RunKeeps(c, s, [Asked(EnablePin(pin)), DeriveDone(Ok(masterKey)), PinDone(salt, iv)], loc);
    LockExactly(c, t, loc);
    var u := Next(c, t, Lock, loc);
    NextKeeps(c, t, Lock, loc);
    NextVault(c, t, Lock, loc);
    PinUnlocks(c, u, masterKey, pin, salt, iv, loc);
    PinVaultIs(c, u, masterKey, pin, salt, iv, loc);
  }

  /** The vault that a right PIN leaves. */
  lemma PinVaultIs(c: Suite, s: State, masterKey: bytes, pin: string, salt: bytes, iv: bytes, loc: L.Locale)
    requires Lawful(c) && |salt| == PinWrap.SALT_LENGTH && |iv| == 16
    requires s.work.pin.None? && s.disk.blob.Some? && WrapResult(c, masterKey, pin, salt, iv).Ok?
    requires s.disk.pinText == Some(WrapResult(c, masterKey, pin, salt, iv).value)
    ensures Next(c, Next(c, s, UnlockWithPin(pin), loc), PinDone([], []), loc).vault == V.Unlock(c, s.vault, masterKey).0
  {
    hide Next, Lawful, PinWrap.Wrapped, PinWrap.Unwrapped, PinWrap.Parsed, V.Unlock, OnPinDone, VaultDelivered, V.Locked,
         V.NoteActivity, V.SetAutoLock, V.Advance, Started, BodyExists, Delivers;
    var w := PinWrap.Wrapped(c, masterKey, c.toUtf8(pin), salt, iv).value;
    EnabledPinOpens(c, w, masterKey, pin, salt, iv);
    PinEvents(c, s, pin, [], [], loc);
    var t := Next(c, s, UnlockWithPin(pin), loc);
    assert t == s.(busy := true, work := s.work.(pin := Some(UnwrapJob(w, pin))));
    NextVault(c, t, PinDone([], []), loc);
  }
}
