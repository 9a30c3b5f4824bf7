/** What holds of the controller over every interleaving of its events. */
module ControllerRuns {
  import opened Words
  import opened Wrappers
  import opened CryptoSuite
  import V = VaultSpec
  import VR = VaultRuns
  import L = ListModel
  import LR = ListModelRuns
  import PinWrap
  import opened ControllerSpec

  // ----- the invariant -----

  /** The vault is sound; the list shows the vault's items; the user interface is
      unlocked only while the vault is; the PIN counter is in range. */
  ghost predicate Inv(c: Suite, s: State, loc: L.Locale) {
    && VR.Inv(c, s.vault)
    && s.list.source == s.vault.items
    && LR.InStep(s.list, loc)
    && (s.phase == Unlocked ==> !s.vault.locked)
    && 0 <= s.disk.pinFailures < MAX_PIN_FAILURES
  }

  /** v follows u: its new signals end with its items, or nothing was announced and
      the items stayed; and it announced locking if it went from unlocked to locked. */
  ghost predicate Announced(u: V.State, v: V.State) {
    && u.emitted <= v.emitted
    && (if u.emitted == v.emitted then v.items == u.items && (v.locked ==> u.locked)
        else
          var x := v.emitted[|v.emitted| - 1];
          x.items == v.items && x.locked == v.locked
          && forall i :: |u.emitted| <= i < |v.emitted| - 1 ==> v.emitted[i].locked)
  }

  /** The stored PIN and its counter stay. */
  predicate SamePin(s: State, t: State) {
    t.disk.pinText == s.disk.pinText && t.disk.pinFailures == s.disk.pinFailures
  }

  /** Vault, list and PIN stay, and the interface is not newly unlocked. */
  predicate Quiet(s: State, t: State) {
    t.vault == s.vault && t.list == s.list && (t.phase == s.phase || t.phase != Unlocked) && SamePin(s, t)
  }

  lemma QuietKeeps(c: Suite, s: State, t: State, loc: L.Locale)
    requires Inv(c, s, loc) && Quiet(s, t)
    ensures Inv(c, t, loc)
  {
    hide VR.Inv, LR.InStep;
  }

  /** The vault, the list and the phase may have changed, and nothing else. */
  predicate Moved(s: State, t: State) {
    t == s.(vault := t.vault, list := t.list, phase := t.phase)
  }

  // ----- the vault moves -----

  lemma {:induction false} NotifiedKeeps(s: State, signals: seq<V.LockedChanged>, loc: L.Locale)
    requires LR.InStep(s.list, loc)
    ensures var t := Notified(s, signals, loc);
            && LR.InStep(t.list, loc)
            && Moved(s, t) && t.vault == s.vault
            && t.list.source == (if signals == [] then s.list.source else signals[|signals| - 1].items)
            && (t.phase == Unlocked ==> s.phase == Unlocked && forall x :: x in signals ==> !x.locked)
    decreases |signals|
  {
    hide LR.InStep, OnLockedChanged;
    if signals != [] {
      var u := OnLockedChanged(s, signals[0], loc);
      OneSignal(s, signals[0], loc);
      NotifiedKeeps(u, signals[1..], loc);
      assert signals == [signals[0]] + signals[1..];
    }
  }

  lemma OneSignal(s: State, x: V.LockedChanged, loc: L.Locale)
    requires LR.InStep(s.list, loc)
    ensures LR.InStep(OnLockedChanged(s, x, loc).list, loc)
    ensures OnLockedChanged(s, x, loc).list.source == x.items
    ensures Moved(s, OnLockedChanged(s, x, loc)) && OnLockedChanged(s, x, loc).vault == s.vault
    ensures OnLockedChanged(s, x, loc).phase == Unlocked ==> s.phase == Unlocked && !x.locked
  {
    hide LR.InStep, L.Filtered;
    LR.StepInStep(s.list, L.Refreshed(x.items), loc);
  }

  /** What the controller keeps when its vault moves. */
  lemma VaultMoves(c: Suite, s: State, v: V.State, loc: L.Locale)
    requires Inv(c, s, loc) && VR.Inv(c, v) && Announced(s.vault, v)
    ensures Inv(c, WithVault(s, v, loc), loc)
    ensures Moved(s, WithVault(s, v, loc)) && WithVault(s, v, loc).vault == v
  {
    hide VR.Inv, LR.InStep, Notified;
    var signals := Since(v.emitted, |s.vault.emitted|);
    NotifiedKeeps(s.(vault := v), signals, loc);
    if signals != [] {
      assert signals[|signals| - 1] == v.emitted[|v.emitted| - 1];
      assert signals[|signals| - 1] in signals;
    }
  }

  lemma LockAnnounced(c: Suite, u: V.State)
    requires VR.Inv(c, u)
    ensures Announced(u, V.Locked(u)) && VR.Inv(c, V.Locked(u)) && V.Locked(u).locked
  {
    hide VR.Current;
    VR.StepKeepsInv(c, u, V.DoLock);
  }

  lemma UnlockAnnounced(c: Suite, u: V.State, masterKey: bytes)
    requires VR.Inv(c, u)
    ensures var (v, r) := V.Unlock(c, u, masterKey);
            Announced(u, v) && VR.Inv(c, v) && (r.Ok? ==> !v.locked)
  {
    hide V.Unlock, VR.Inv, Announced;
    UnlockSignals(c, u, masterKey);
    VR.StepKeepsInv(c, u, V.DoUnlock(masterKey));
  }

  lemma UnlockedSignals(c: Suite, u: V.State, t: V.State, userKey: Key, d: V.Display)
    requires Announced(u, t) && t.locked
    ensures Announced(u, V.Unlocked(c, t, userKey, d)) && !V.Unlocked(c, t, userKey, d).locked
  {
  }

  lemma NothingAnnounced(u: V.State)
    ensures Announced(u, u)
  {
  }

  lemma UnlockSignals(c: Suite, u: V.State, masterKey: bytes)
    requires VR.Inv(c, u)
    ensures var (v, r) := V.Unlock(c, u, masterKey); Announced(u, v) && (r.Ok? ==> !v.locked)
  {
    hide VR.Inv, V.OpenedWith, V.UserKeyOf, V.Locked, Announced;
    LockAnnounced(c, u);
    NothingAnnounced(u);
    var userKey := V.UserKeyOf(c, u.data.profileKey, masterKey);
    if userKey.Ok? {
      OpenedSignals(c, u, V.Locked(u), userKey.value);
    }
  }

  lemma OpenedSignals(c: Suite, u: V.State, t: V.State, userKey: Key)
    requires Announced(u, t) && t.locked
    ensures var (v, r) := V.OpenedWith(c, t, userKey); Announced(u, v) && (r.Ok? ==> !v.locked)
  {
    hide V.Rebuilt, V.Unlocked, Announced;
    var d := V.Rebuilt(c, t.data, userKey, []);
    if d.Ok? {
      UnlockedSignals(c, u, t, userKey, d.value);
    }
  }

  lemma LoadAnnounced(c: Suite, u: V.State, doc: Blob)
    requires VR.Inv(c, u)
    ensures Announced(u, V.LoadSync(u, doc).0) && VR.Inv(c, V.LoadSync(u, doc).0)
  {
    hide VR.Current;
    VR.StepKeepsInv(c, u, V.DoLoad(doc));
    LockAnnounced(c, u);
  }

  lemma AdvanceAnnounced(c: Suite, u: V.State, ms: nat)
    requires VR.Inv(c, u)
    ensures Announced(u, V.Advance(u, ms)) && VR.Inv(c, V.Advance(u, ms))
  {
    hide VR.Inv, V.Locked;
    VR.StepKeepsInv(c, u, V.DoAdvance(ms));
    LockAnnounced(c, u);
  }

  /** A failed reload either left the vault alone or announced locking; a successful
      one announced nothing and left it unlocked, and the caller refreshes the list. */
  lemma ReloadOutcome(c: Suite, u: V.State, doc: Blob)
    requires VR.Inv(c, u)
    ensures var (v, r) := V.ReloadSync(c, u, doc);
            && VR.Inv(c, v)
            && (r.Err? ==> Announced(u, v))
            && (r.Ok? ==> v.emitted == u.emitted && !v.locked && !u.locked)
  {
    hide V.ReloadSync, VR.Inv, Announced;
    ReloadSignals(c, u, doc);
    VR.StepKeepsInv(c, u, V.DoReload(doc));
  }

  lemma ReloadSignals(c: Suite, u: V.State, doc: Blob)
    requires VR.Inv(c, u)
    ensures var (v, r) := V.ReloadSync(c, u, doc);
            if r.Err? then Announced(u, v) else v.emitted == u.emitted && !v.locked && !u.locked
  {
    hide VR.Inv, V.Rebuilt;
    LockAnnounced(c, u);
  }

  lemma RefreshKeeps(c: Suite, s: State, loc: L.Locale)
    requires VR.Inv(c, s.vault) && LR.InStep(s.list, loc)
    requires s.phase == Unlocked ==> !s.vault.locked
    requires 0 <= s.disk.pinFailures < MAX_PIN_FAILURES
    ensures Inv(c, RefreshList(s, loc), loc)
    ensures Moved(s, RefreshList(s, loc)) && RefreshList(s, loc).vault == s.vault
  {
    hide VR.Inv, LR.InStep, L.Filtered;
    LR.StepInStep(s.list, L.Refreshed(s.vault.items), loc);
  }

  lemma TryUnlockKeeps(c: Suite, s: State, masterKey: bytes, loc: L.Locale)
    requires Inv(c, s, loc)
    ensures var (t, ok) := TryUnlock(c, s, masterKey, loc);
            Inv(c, t, loc) && (ok ==> t.phase == Unlocked) && Moved(s, t)
  {
    hide VR.Inv, LR.InStep, WithVault, V.Unlock, RefreshList;
    UnlockAnnounced(c, s.vault, masterKey);
    var (v, r) := V.Unlock(c, s.vault, masterKey);
    VaultMoves(c, s, v, loc);
    var t := WithVault(s, v, loc);
    if r.Ok? {
      RefreshKeeps(c, t, loc);
      var u := RefreshList(t, loc);
      UnlockedKeeps(c, u, loc);
    }
  }

  lemma UnlockedKeeps(c: Suite, u: State, loc: L.Locale)
    requires Inv(c, u, loc) && !u.vault.locked
    ensures Inv(c, u.(phase := Unlocked), loc)
  {
    hide VR.Inv, LR.InStep;
  }

  lemma QuietSignals(s: State, v: V.State, loc: L.Locale)
    requires v.emitted == s.vault.emitted
    ensures WithVault(s, v, loc) == s.(vault := v)
  {
  }

  lemma RefreshMoves(s: State, loc: L.Locale)
    ensures Moved(s, RefreshList(s, loc)) && RefreshList(s, loc).vault == s.vault
    ensures RefreshList(s, loc).phase == s.phase
  {
    hide L.Step;
  }

  lemma ReloadKeeps(c: Suite, s: State, doc: Blob, loc: L.Locale)
    requires Inv(c, s, loc)
    ensures Inv(c, Reload(c, s, doc, loc), loc) && Moved(s, Reload(c, s, doc, loc))
  {
    hide VR.Inv, LR.InStep, V.ReloadSync, WithVault, RefreshList, Announced;
    ReloadOutcome(c, s.vault, doc);
    var (v, r) := V.ReloadSync(c, s.vault, doc);
    var t := WithVault(s, v, loc);
    if r.Ok? {
      QuietSignals(s, v, loc);
      RefreshKeeps(c, t, loc);
    } else {
      VaultMoves(c, s, v, loc);
      QuietKeeps(c, t, t.(phase := Locked), loc);
    }
  }

  // ----- every step keeps the invariant -----

  lemma FreshLoginKeeps(c: Suite, t: State, freshLogin: bool, loc: L.Locale)
    requires Inv(c, t, loc)
    ensures var u := FinishFreshLogin(c, t, freshLogin, loc); Inv(c, u, loc) && SamePin(t, u)
  {
    hide Inv, TryUnlock;
    if freshLogin && t.pendingSecrets.Some? {
      var u := t.(pendingSecrets := None);
      QuietKeeps(c, t, u, loc);
      TryUnlockKeeps(c, u, t.pendingSecrets.value, loc);
      var w := TryUnlock(c, u, t.pendingSecrets.value, loc).0;
      QuietKeeps(c, w, w.(phase := Locked), loc);
    } else {
      QuietKeeps(c, t, t.(phase := Locked), loc);
    }
  }

  lemma LoadKeeps(c: Suite, s: State, doc: Blob, loc: L.Locale)
    requires Inv(c, s, loc)
    ensures var u := WithVault(s, V.LoadSync(s.vault, doc).0, loc); Inv(c, u, loc) && SamePin(s, u)
  {
    hide VR.Inv, LR.InStep, WithVault, V.LoadSync;
    LoadAnnounced(c, s.vault, doc);
    VaultMoves(c, s, V.LoadSync(s.vault, doc).0, loc);
  }

  lemma ApplySyncBlobKeeps(c: Suite, s: State, doc: Blob, freshLogin: bool, loc: L.Locale)
    requires Inv(c, s, loc)
    ensures var u := ApplySyncBlob(c, s, doc, freshLogin, loc); Inv(c, u, loc) && SamePin(s, u)
  {
    hide Inv, Reload, LoadBlob;
    var t := Stored(s, doc);
    QuietKeeps(c, s, t, loc);
    var u := ApplySyncBlob(c, s, doc, freshLogin, loc);
    if t.vault.locked {
      LoadBlobKeeps(c, t, doc, freshLogin, loc);
      QuietKeeps(c, LoadBlob(c, t, doc, freshLogin, loc), u, loc);
    } else {
      ReloadKeeps(c, t, doc, loc);
      QuietKeeps(c, Reload(c, t, doc, loc), u, loc);
    }
  }

  lemma LoadBlobKeeps(c: Suite, s: State, doc: Blob, freshLogin: bool, loc: L.Locale)
    requires Inv(c, s, loc)
    ensures var u := LoadBlob(c, s, doc, freshLogin, loc); Inv(c, u, loc) && SamePin(s, u)
  {
    hide Inv, WithVault, V.LoadSync, FinishFreshLogin;
    LoadKeeps(c, s, doc, loc);
    FreshLoginKeeps(c, WithVault(s, V.LoadSync(s.vault, doc).0, loc), freshLogin, loc);
  }

  lemma ApplyWriteSyncKeeps(c: Suite, s: State, doc: Blob, loc: L.Locale)
    requires Inv(c, s, loc)
    ensures var u := ApplyWriteSync(c, s, doc, loc); Inv(c, u, loc) && SamePin(s, u)
  {
    hide Inv, Reload;
    QuietKeeps(c, s, Stored(s, doc), loc);
    ReloadKeeps(c, Stored(s, doc), doc, loc);
  }

  lemma LockNowKeeps(c: Suite, s: State, loc: L.Locale)
    requires Inv(c, s, loc)
    ensures Inv(c, LockNow(s, loc), loc) && SamePin(s, LockNow(s, loc))
    ensures Inv(c, SignedOut(s, loc), loc)
  {
    hide VR.Inv, LR.InStep, WithVault, V.Locked;
    LockAnnounced(c, s.vault);
    VaultMoves(c, s, V.Locked(s.vault), loc);
    var t := WithVault(s, V.Locked(s.vault), loc);
    QuietKeeps(c, t, LockNow(s, loc), loc);
  }

  lemma TimeKeeps(c: Suite, s: State, ms: nat, loc: L.Locale)
    requires Inv(c, s, loc)
    ensures Inv(c, OnTime(s, ms, loc), loc) && SamePin(s, OnTime(s, ms, loc))
  {
    hide VR.Inv, LR.InStep, V.Advance, WithVault;
    AdvanceAnnounced(c, s.vault, ms);
    VaultMoves(c, s, V.Advance(s.vault, ms), loc);
  }

  lemma PlainReplyQuiet(t: State, job: NetJob, outcome: Outcome)
    ensures Quiet(t, OnPlainReply(t, job, outcome))
  {
  }

  lemma BlobReplyKeeps(c: Suite, t: State, job: NetJob, outcome: Outcome, loc: L.Locale)
    requires Inv(c, t, loc)
    ensures var u := OnBlobReply(c, t, job, outcome, loc); Inv(c, u, loc) && SamePin(t, u)
  {
    hide Inv, ApplySyncBlob, ApplyWriteSync;
    if outcome.GotBlob? {
      QuietKeeps(c, t, t.(busy := false), loc);
      ApplySyncBlobKeeps(c, t, outcome.doc, job.SyncAfterLogin?, loc);
      ApplyWriteSyncKeeps(c, t.(busy := false), outcome.doc, loc);
    } else {
      QuietKeeps(c, t, OnBlobReply(c, t, job, outcome, loc), loc);
    }
  }

  lemma NetDoneKeeps(c: Suite, s: State, job: NetJob, outcome: Outcome, loc: L.Locale)
    requires Inv(c, s, loc)
    ensures var u := OnNetDone(c, s, job, outcome, loc); Inv(c, u, loc) && SamePin(s, u)
  {
    hide Inv, OnBlobReply, OnPlainReply;
    if job in s.work.net {
      var t := s.(work := s.work.(net := s.work.net - multiset{job}));
      QuietKeeps(c, s, t, loc);
      if CarriesBlob(job) {
        BlobReplyKeeps(c, t, job, outcome, loc);
      } else {
        PlainReplyQuiet(t, job, outcome);
        QuietKeeps(c, t, OnPlainReply(t, job, outcome), loc);
      }
    }
  }

  lemma DeriveDoneKeeps(c: Suite, s: State, result: Result<bytes>, loc: L.Locale)
    requires Inv(c, s, loc)
    ensures var u := OnDeriveDone(c, s, result, loc); Inv(c, u, loc) && SamePin(s, u)
  {
    hide Inv, TryUnlock, V.VerifiesMasterKey;
    if s.work.derive.Some? {
      if s.work.derive.value.ForUnlock? && result.Ok? {
        var t := s.(work := s.work.(derive := None), busy := false);
        QuietKeeps(c, s, t, loc);
        TryUnlockKeeps(c, t, result.value, loc);
      } else {
        QuietKeeps(c, s, OnDeriveDone(c, s, result, loc), loc);
      }
    }
  }

  lemma PinSettingsKeep(c: Suite, t: State, loc: L.Locale)
    requires Inv(c, t, loc)
    ensures Inv(c, WrongPin(t), loc) && Inv(c, PinForgotten(t), loc) && Inv(c, WithPinFailures(t, 0), loc)
  {
    hide VR.Inv, LR.InStep;
  }

  lemma WrappedKeeps(c: Suite, t: State, r: Result<string>, loc: L.Locale)
    requires Inv(c, t, loc)
    ensures Inv(c, OnWrapped(t, r), loc)
  {
    hide VR.Inv, LR.InStep;
  }

  lemma UnwrappedKeeps(c: Suite, t: State, r: Result<bytes>, loc: L.Locale)
    requires Inv(c, t, loc)
    ensures Inv(c, OnUnwrapped(c, t, r, loc), loc)
  {
    hide Inv, TryUnlock, WrongPin, PinForgotten, WithPinFailures;
    PinSettingsKeep(c, t, loc);
    if r.Ok? {
      TryUnlockKeeps(c, t, r.value, loc);
      PinSettingsKeep(c, TryUnlock(c, t, r.value, loc).0, loc);
    }
  }

  lemma PinDoneKeeps(c: Suite, s: State, salt: bytes, iv: bytes, loc: L.Locale)
    requires Inv(c, s, loc)
    ensures Inv(c, OnPinDone(c, s, salt, iv, loc), loc)
  {
    hide Inv, OnWrapped, OnUnwrapped, WrapResult, PinWrap.Unwrapped;
    var t := s.(work := s.work.(pin := None), busy := false);
    QuietKeeps(c, s, t, loc);
    if s.work.pin.Some? {
      match s.work.pin.value
      case WrapJob(masterKey, pin) => WrappedKeeps(c, t, WrapResult(c, masterKey, pin, salt, iv), loc);
      case UnwrapJob(w, pin) => UnwrappedKeeps(c, t, PinWrap.Unwrapped(c, w, c.toUtf8(pin)), loc);
    }
  }

  lemma StartedKeeps(c: Suite, disk: Disk, loc: L.Locale)
    requires 0 <= disk.pinFailures < MAX_PIN_FAILURES
    ensures Inv(c, Started(disk), loc) && Started(disk).disk == disk
  {
    hide VR.Current, LR.InStep;
    VR.InitialInv(c);
    LR.InitialInStep(loc);
    var v := V.SetAutoLock(V.INITIAL, disk.autoLockMinutes * 60);
    VR.StepKeepsInv(c, V.INITIAL, V.DoSetAutoLock(disk.autoLockMinutes * 60));
    if disk.blob.Some? {
      LoadAnnounced(c, v, disk.blob.value);
    }
  }

  lemma RestartKeeps(c: Suite, s: State, loc: L.Locale)
    requires Inv(c, s, loc)
    ensures Inv(c, Started(s.disk), loc) && SamePin(s, Started(s.disk))
  {
    hide Started;
    StartedKeeps(c, s.disk, loc);
  }

  lemma QuietVaultKeeps(c: Suite, s: State, v: V.State, loc: L.Locale)
    requires Inv(c, s, loc) && VR.Inv(c, v) && v.items == s.vault.items && v.locked == s.vault.locked
    ensures Inv(c, s.(vault := v), loc)
  {
    hide VR.Inv, LR.InStep;
  }

  lemma SettingsKeepItems(v: V.State, seconds: int)
    ensures V.NoteActivity(v).items == v.items && V.NoteActivity(v).locked == v.locked
    ensures V.SetAutoLock(v, seconds).items == v.items && V.SetAutoLock(v, seconds).locked == v.locked
  {
  }

  lemma ActivityKeeps(c: Suite, s: State, loc: L.Locale)
    requires Inv(c, s, loc)
    ensures Inv(c, OnActivity(s), loc)
  {
    hide VR.Inv, V.NoteActivity, LR.InStep;
    VR.StepKeepsInv(c, s.vault, V.DoActivity);
    SettingsKeepItems(s.vault, 0);
    QuietVaultKeeps(c, s, V.NoteActivity(s.vault), loc);
  }

  lemma SetAutoLockKeeps(c: Suite, s: State, minutes: int, loc: L.Locale)
    requires Inv(c, s, loc)
    ensures Inv(c, OnSetAutoLock(s, minutes), loc)
  {
    hide VR.Inv, V.SetAutoLock, LR.InStep;
    VR.StepKeepsInv(c, s.vault, V.DoSetAutoLock(minutes * 60));
    SettingsKeepItems(s.vault, minutes * 60);
    var t := s.(vault := V.SetAutoLock(s.vault, minutes * 60));
    QuietVaultKeeps(c, s, V.SetAutoLock(s.vault, minutes * 60), loc);
    QuietKeeps(c, t, OnSetAutoLock(s, minutes), loc);
  }

  lemma FilterKeeps(c: Suite, s: State, e: L.Event, loc: L.Locale)
    requires Inv(c, s, loc) && !e.Refreshed?
    ensures Inv(c, OnFilter(s, e, loc), loc)
  {
    hide VR.Inv, LR.InStep, L.Step;
    LR.StepInStep(s.list, e, loc);
    FilterKeepsSource(s.list, e, loc);
  }

  lemma FilterKeepsSource(s: L.State, e: L.Event, loc: L.Locale)
    requires !e.Refreshed?
    ensures L.Step(s, e, loc).source == s.source
  {
    hide L.Filtered;
  }

  lemma WriteKeeps(c: Suite, s: State, write: Write, loc: L.Locale)
    requires Inv(c, s, loc)
    ensures Inv(c, OnWrite(c, s, write), loc) && SamePin(s, OnWrite(c, s, write))
  {
    hide Inv, BodyExists, V.NoteActivity, WriteAndResync;
    ActivityKeeps(c, s, loc);
    var t := OnActivity(s);
    WriteQuiet(t);
    QuietKeeps(c, t, WriteAndResync(t.(busy := true)), loc);
  }

  lemma WriteQuiet(t: State)
    ensures Quiet(t, WriteAndResync(t.(busy := true)))
  {
  }

  lemma RequestQuiet(s: State, request: Request)
    ensures Quiet(s, OnRequest(s, request))
  {
  }

  lemma RequestKeeps(c: Suite, s: State, request: Request, loc: L.Locale)
    requires Inv(c, s, loc)
    ensures Inv(c, OnRequest(s, request), loc) && SamePin(s, OnRequest(s, request))
  {
    hide Inv, OnRequest;
    RequestQuiet(s, request);
    QuietKeeps(c, s, OnRequest(s, request), loc);
  }

  lemma UnlockWithPinKeeps(c: Suite, s: State, pin: string, loc: L.Locale)
    requires Inv(c, s, loc)
    ensures Inv(c, OnUnlockWithPin(s, pin), loc)
  {
    hide Inv, PinWrap.Parsed, PinForgotten;
    PinSettingsKeep(c, s, loc);
    if s.disk.pinText.Some? && s.disk.blob.Some? && PinWrap.Parsed(s.disk.pinText.value).Ok? {
      QuietKeeps(c, s, OnUnlockWithPin(s, pin), loc);
    }
  }

  /** The events that may change the stored PIN. */
  predicate TouchesPin(e: Event) {
    e.UnlockWithPin? || e.DisablePin? || e.SignOut? || e.PinDone?
  }

  lemma NextKeeps(c: Suite, s: State, e: Event, loc: L.Locale)
    requires Inv(c, s, loc)
    ensures Inv(c, Next(c, s, e, loc), loc)
    ensures !TouchesPin(e) ==> SamePin(s, Next(c, s, e, loc))
  {
    hide Inv, OnRequest, OnUnlockWithPin, PinForgotten, SignedOut, LockNow, OnTime, OnWrite, OnDeriveDone, OnPinDone,
         OnNetDone, Started, L.Step, V.NoteActivity, V.SetAutoLock;
    match e
    case Asked(request) => RequestKeeps(c, s, request, loc);
    case UnlockWithPin(pin) => UnlockWithPinKeeps(c, s, pin, loc);
    case DisablePin => PinSettingsKeep(c, s, loc);
    case SignOut => LockNowKeeps(c, s, loc);
    case Lock => LockNowKeeps(c, s, loc);
    case Minimised => LockNowKeeps(c, s, loc);
    case Activity => ActivityKeeps(c, s, loc);
    case SetAutoLock(minutes) => SetAutoLockKeeps(c, s, minutes, loc);
    case TimePasses(ms) => TimeKeeps(c, s, ms, loc);
    case SetSearch(query) => FilterKeeps(c, s, L.Searched(query), loc);
    case SetFolder(folder) => FilterKeeps(c, s, L.Foldered(folder), loc);
    case WriteItem(write) => WriteKeeps(c, s, write, loc);
    case DeriveDone(result) => DeriveDoneKeeps(c, s, result, loc);
    case PinDone(salt, iv) => PinDoneKeeps(c, s, salt, iv, loc);
    case NetDone(job, outcome) => NetDoneKeeps(c, s, job, outcome, loc);
    case Restart => RestartKeeps(c, s, loc);
  }

  lemma {:induction false} RunKeeps(c: Suite, s: State, events: seq<Event>, loc: L.Locale)
    requires Inv(c, s, loc)
    ensures Inv(c, Run(c, s, events, loc), loc)
    decreases |events|
  {
    hide Inv, Next;
    if events != [] {
      NextKeeps(c, s, events[0], loc);
      RunKeeps(c, Next(c, s, events[0], loc), events[1..], loc);
    }
  }

  /** What the invariant says to a reader. */
  ghost predicate Safe(s: State) {
    && (s.phase == Unlocked ==> !s.vault.locked)
    && s.list.source == s.vault.items
    && (s.vault.locked ==> VR.Wiped(s.vault) && s.list.filtered == [])
    && (!s.vault.locked && s.vault.interval > 0 ==> s.vault.idle < s.vault.interval)
  }

  lemma InvIsSafe(c: Suite, s: State, loc: L.Locale)
    requires Inv(c, s, loc)
    ensures Safe(s)
  {
    hide VR.Current;
    if s.vault.locked {
      assert L.Filtered([], s.list.query, s.list.folder, loc) == [];
    }
  }

  /** Over every interleaving: the interface says unlocked only while the vault is,
      the list always shows the vault's items and so nothing once it is locked, and
      an unlocked vault with auto-lock has been idle for less than the interval. */
  lemma SessionSafety(c: Suite, events: seq<Event>, loc: L.Locale)
    ensures Safe(Run(c, FirstStart(), events, loc))
  {
    hide Inv, Started, Safe;
    StartedKeeps(c, EMPTY_DISK, loc);
    RunKeeps(c, FirstStart(), events, loc);
    InvIsSafe(c, Run(c, FirstStart(), events, loc), loc);
  }

  lemma OneStep(c: Suite, s: State, e: Event, rest: seq<Event>, loc: L.Locale)
    ensures Run(c, s, [e] + rest, loc) == Run(c, Next(c, s, e, loc), rest, loc)
  {
    hide Next;
    assert ([e] + rest)[1..] == rest;
  }

  lemma NoStep(c: Suite, s: State, loc: L.Locale)
    ensures Run(c, s, [], loc) == s
  {
    hide Next;
  }

  lemma {:induction false} RunOn(c: Suite, s: State, a: seq<Event>, b: seq<Event>, loc: L.Locale)
    ensures Run(c, s, a + b, loc) == Run(c, Run(c, s, a, loc), b, loc)
    decreases |a|
  {
    hide Next;
    if a == [] {
      assert a + b == b;
    } else {
      assert (a + b)[1..] == a[1..] + b;
      RunOn(c, Next(c, s, a[0], loc), a[1..], b, loc);
    }
  }

  lemma InvCounts(c: Suite, s: State, loc: L.Locale)
    requires Inv(c, s, loc)
    ensures 0 <= s.disk.pinFailures < MAX_PIN_FAILURES
  {
  }

  lemma RestartIs(c: Suite, s: State, loc: L.Locale)
    ensures Next(c, s, Restart, loc) == Started(s.disk)
  {
    hide OnRequest, OnUnlockWithPin, SignedOut, LockNow, OnMinimised, OnActivity, OnSetAutoLock, OnTime, OnFilter,
         OnWrite, OnDeriveDone, OnPinDone, OnNetDone, Started, PinForgotten;
  }

  // ----- PIN attempts -----

  /** A wrong result is delivered while a wrapped key is stored. */
  ghost predicate WrongDelivered(c: Suite, s: State, e: Event) {
    && e.PinDone? && s.work.pin.Some? && s.work.pin.value.UnwrapJob?
    && PinWrap.Unwrapped(c, s.work.pin.value.wrapped, c.toUtf8(s.work.pin.value.pin)).Err?
    && s.disk.pinText.Some?
  }

  /** The PIN is enabled, used successfully, or forgotten (by the user, by signing
      out, or because it is unreadable or stale). */
  ghost predicate Resets(c: Suite, s: State, e: Event) {
    match e
    case DisablePin => true
    case SignOut => true
    case UnlockWithPin(_) =>
      s.disk.pinText.Some? && s.disk.blob.Some? && PinWrap.Parsed(s.disk.pinText.value).Err?
    case PinDone(salt, iv) =>
      s.work.pin.Some? &&
      (match s.work.pin.value
       case WrapJob(masterKey, pin) => WrapResult(c, masterKey, pin, salt, iv).Ok?
       case UnwrapJob(w, pin) => PinWrap.Unwrapped(c, w, c.toUtf8(pin)).Ok?)
    case _ => false
  }

  /** The number of wrong results since the last reset, after one more event. */
  ghost function Counted(c: Suite, s: State, e: Event, n: nat): nat {
    if Resets(c, s, e) then 0 else if WrongDelivered(c, s, e) then n + 1 else n
  }

  ghost function WrongSince(c: Suite, s: State, events: seq<Event>, n: nat, loc: L.Locale): nat
    decreases |events|
  {
    if events == [] then n
    else WrongSince(c, Next(c, s, events[0], loc), events[1..], Counted(c, s, events[0], n), loc)
  }

  /** The count is the stored counter while a wrapped key exists, and reaches three only
      by deleting it. */
  predicate Bounded(s: State, n: nat) {
    && n <= MAX_PIN_FAILURES
    && (s.disk.pinText.Some? ==> n == s.disk.pinFailures)
    && (n == MAX_PIN_FAILURES ==> s.disk.pinText.None?)
  }

  lemma UnwrappedBounded(c: Suite, t: State, r: Result<bytes>, n: nat, loc: L.Locale)
    requires Inv(c, t, loc) && Bounded(t, n)
    ensures var m := if r.Ok? then 0 else if t.disk.pinText.Some? then n + 1 else n;
            Bounded(OnUnwrapped(c, t, r, loc), m)
  {
    hide VR.Inv, LR.InStep, TryUnlock;
    if r.Ok? {
      TryUnlockKeeps(c, t, r.value, loc);
    }
  }

  lemma PinDoneBounded(c: Suite, s: State, salt: bytes, iv: bytes, n: nat, loc: L.Locale)
    requires Inv(c, s, loc) && Bounded(s, n)
    ensures Bounded(OnPinDone(c, s, salt, iv, loc), Counted(c, s, PinDone(salt, iv), n))
  {
    hide Inv, OnUnwrapped, WrapResult, PinWrap.Unwrapped;
    var t := s.(work := s.work.(pin := None), busy := false);
    QuietKeeps(c, s, t, loc);
    if s.work.pin.Some? && s.work.pin.value.UnwrapJob? {
      UnwrappedBounded(c, t, PinWrap.Unwrapped(c, s.work.pin.value.wrapped, c.toUtf8(s.work.pin.value.pin)), n, loc);
    }
  }

  lemma ForgettingBounded(c: Suite, s: State, e: Event, n: nat, loc: L.Locale)
    requires Bounded(s, n) && (e.UnlockWithPin? || e.DisablePin? || e.SignOut?)
    ensures Bounded(Next(c, s, e, loc), Counted(c, s, e, n))
  {
    hide WithVault, V.Locked, PinWrap.Parsed, OnRequest, LockNow, OnMinimised, OnActivity, OnSetAutoLock, OnTime,
         OnFilter, OnWrite, OnDeriveDone, OnPinDone, OnNetDone, Started, WrapResult;
  }

  lemma PinEvents(c: Suite, s: State, pin: string, salt: bytes, iv: bytes, loc: L.Locale)
    ensures Next(c, s, PinDone(salt, iv), loc) == OnPinDone(c, s, salt, iv, loc)
    ensures Next(c, s, UnlockWithPin(pin), loc) == OnUnlockWithPin(s, pin)
  {
    hide OnPinDone, OnUnlockWithPin, OnRequest, SignedOut, LockNow, OnMinimised, OnActivity, OnSetAutoLock, OnTime,
         OnFilter, OnWrite, OnDeriveDone, OnNetDone, Started, PinForgotten;
  }

  lemma UntouchedBounded(c: Suite, s: State, t: State, e: Event, n: nat)
    requires Bounded(s, n) && SamePin(s, t) && !TouchesPin(e)
    ensures Bounded(t, Counted(c, s, e, n))
  {
  }

  lemma BoundedStep(c: Suite, s: State, e: Event, n: nat, loc: L.Locale)
    requires Inv(c, s, loc) && Bounded(s, n)
    ensures Bounded(Next(c, s, e, loc), Counted(c, s, e, n))
  {
    hide Inv, Next, Bounded, Counted, OnPinDone;
    NextKeeps(c, s, e, loc);
    if e.PinDone? {
      PinEvents(c, s, "", e.salt, e.iv, loc);
      PinDoneBounded(c, s, e.salt, e.iv, n, loc);
    } else if TouchesPin(e) {
      ForgettingBounded(c, s, e, n, loc);
    } else {
      UntouchedBounded(c, s, Next(c, s, e, loc), e, n);
    }
  }

  lemma {:induction false} RunBounded(c: Suite, s: State, events: seq<Event>, n: nat, loc: L.Locale)
    requires Inv(c, s, loc) && Bounded(s, n)
    ensures Bounded(Run(c, s, events, loc), WrongSince(c, s, events, n, loc))
    decreases |events|
  {
    hide Inv, Next, Bounded, Counted;
    if events != [] {
      NextKeeps(c, s, events[0], loc);
      BoundedStep(c, s, events[0], n, loc);
      RunBounded(c, Next(c, s, events[0], loc), events[1..], Counted(c, s, events[0], n), loc);
    }
  }

  /** Restarts included, at most three wrong PINs are answered between two resets; the
      third one deletes the wrapped key, and while there is one the stored counter is the
      number of wrong PINs, 0..2. */
  lemma PinAttemptBound(c: Suite, events: seq<Event>, loc: L.Locale)
    ensures var s := Run(c, FirstStart(), events, loc);
            var wrong := WrongSince(c, FirstStart(), events, 0, loc);
            && wrong <= 3 && (wrong == 3 ==> s.disk.pinText.None?)
            && (s.disk.pinText.Some? ==> s.disk.pinFailures == wrong)
            && 0 <= s.disk.pinFailures <= 2
  {
    hide Started, Run, WrongSince, VR.Inv, LR.InStep;
    StartedKeeps(c, EMPTY_DISK, loc);
    RunKeeps(c, FirstStart(), events, loc);
    RunBounded(c, FirstStart(), events, 0, loc);
  }

  // ----- the PIN works -----

  /** A PIN that was enabled opens the vault as long as its text is stored and the
      loaded data still belongs to the wrapped master key: asking for it and
      delivering the result unlocks vault, list and interface and clears the counter. */
  lemma PinUnlocks(c: Suite, s: State, masterKey: bytes, pin: string, salt: bytes, iv: bytes, loc: L.Locale)
    requires Lawful(c) && |salt| == PinWrap.SALT_LENGTH && |iv| == 16
    requires Inv(c, s, loc) && s.work.pin.None? && s.disk.blob.Some?
    requires WrapResult(c, masterKey, pin, salt, iv).Ok?
    requires s.disk.pinText == Some(WrapResult(c, masterKey, pin, salt, iv).value)
    requires V.Unlock(c, s.vault, masterKey).1.Ok?
    ensures var t := Next(c, Next(c, s, UnlockWithPin(pin), loc), PinDone([], []), loc);
            && t.phase == Unlocked && !t.vault.locked && t.list.source == t.vault.items
            && t.disk == s.disk.(pinFailures := 0)
  {
    hide Inv, Next, Lawful, PinWrap.Wrapped, PinWrap.Unwrapped, PinWrap.Parsed, V.Unlock, OnPinDone, OnUnlockWithPin;
    var w := PinWrap.Wrapped(c, masterKey, c.toUtf8(pin), salt, iv).value;
    EnabledPinOpens(c, w, masterKey, pin, salt, iv);
    PinEvents(c, s, pin, [], [], loc);
    PinEvents(c, OnUnlockWithPin(s, pin), pin, [], [], loc);
    UnlocksFrom(c, s, w, masterKey, pin, loc);
  }

  lemma EnabledPinOpens(c: Suite, w: PinWrap.PinWrappedKey, masterKey: bytes, pin: string, salt: bytes, iv: bytes)
    requires Lawful(c) && |salt| == PinWrap.SALT_LENGTH && |iv| == 16
    requires PinWrap.Wrapped(c, masterKey, c.toUtf8(pin), salt, iv) == Ok(w)
    ensures PinWrap.Parsed(PinWrap.Text(w)) == Ok(w) && PinWrap.Unwrapped(c, w, c.toUtf8(pin)) == Ok(masterKey)
  {
    PinWrap.EndToEnd(c, masterKey, c.toUtf8(pin), salt, iv);
  }

  lemma UnlocksFrom(c: Suite, s: State, w: PinWrap.PinWrappedKey, masterKey: bytes, pin: string, loc: L.Locale)
    requires Inv(c, s, loc) && s.work.pin.None? && s.disk.blob.Some? && s.disk.pinText.Some?
    requires PinWrap.Parsed(s.disk.pinText.value) == Ok(w) && PinWrap.Unwrapped(c, w, c.toUtf8(pin)) == Ok(masterKey)
    requires V.Unlock(c, s.vault, masterKey).1.Ok?
    ensures var t := OnPinDone(c, OnUnlockWithPin(s, pin), [], [], loc);
            && t.phase == Unlocked && !t.vault.locked && t.list.source == t.vault.items
            && t.disk == s.disk.(pinFailures := 0)
  {
    hide Inv, PinWrap.Parsed, PinWrap.Unwrapped, TryUnlock, V.Unlock;
    var t := s.(busy := false);
    QuietKeeps(c, s, t, loc);
    TryUnlockKeeps(c, t, masterKey, loc);
    UnlockSucceeds(c, t, masterKey, loc);
    assert OnUnlockWithPin(s, pin) == s.(busy := true, work := s.work.(pin := Some(UnwrapJob(w, pin))));
    assert OnPinDone(c, OnUnlockWithPin(s, pin), [], [], loc) == OnUnwrapped(c, t, Ok(masterKey), loc);
    InvIsSafe(c, TryUnlock(c, t, masterKey, loc).0, loc);
  }

  lemma UnlockSucceeds(c: Suite, s: State, masterKey: bytes, loc: L.Locale)
    requires V.Unlock(c, s.vault, masterKey).1.Ok?
    ensures TryUnlock(c, s, masterKey, loc).1
  {
    hide V.Unlock;
  }
}
