/** What the controller does to the vault: exactly which steps open it and which close
    it, and when it closes by itself. */
module ControllerVault {
  import opened Words
  import opened Wrappers
  import opened CryptoSuite
  import SyncParser
  import V = VaultSpec
  import VR = VaultRuns
  import L = ListModel
  import PinWrap
  import opened ControllerSpec
  import opened ControllerRuns
  import opened ControllerPages
  import opened ControllerLosses

  // ----- the vault after a step -----

  /** An outstanding sync call delivers a document. */
  predicate Delivers(s: State, e: Event) {
    e.NetDone? && e.job in s.work.net && CarriesBlob(e.job) && e.outcome.GotBlob?
  }

  /** The master key with which a step tries the vault as it is. */
  ghost function KeyTried(c: Suite, s: State, e: Event): Option<bytes> {
    if e.DeriveDone? && s.work.derive == Some(ForUnlock) && e.result.Ok? then Some(e.result.value)
    else if e.PinDone? && s.work.pin.Some? && s.work.pin.value.UnwrapJob? then
      match PinWrap.Unwrapped(c, s.work.pin.value.wrapped, c.toUtf8(s.work.pin.value.pin))
      case Ok(masterKey) => Some(masterKey)
      case Err(_) => None
    else None
  }

  /** A document for a vault: a closed one loads it, and opens if a login is pending; an
      open one reloads it. A write's document is only ever reloaded. */
  ghost function VaultDelivered(c: Suite, s: State, job: NetJob, doc: Blob): V.State {
    if !s.vault.locked || job.SyncAfterWrite? then V.ReloadSync(c, s.vault, doc).0
    else
      var (v, r) := V.LoadSync(s.vault, doc);
      if r.Ok? && job.SyncAfterLogin? && s.pendingSecrets.Some? then V.Unlock(c, v, s.pendingSecrets.value).0 else v
  }

  ghost function VaultAfter(c: Suite, s: State, e: Event): V.State {
    match e
    case SignOut => V.Locked(s.vault)
    case Lock => V.Locked(s.vault)
    case Minimised => if s.disk.lockOnMinimize && !s.vault.locked then V.Locked(s.vault) else s.vault
    case Activity => V.NoteActivity(s.vault)
    case SetAutoLock(minutes) => V.SetAutoLock(s.vault, minutes * 60)
    case TimePasses(ms) => V.Advance(s.vault, ms)
    case WriteItem(write) =>
      if s.phase == Unlocked && BodyExists(c, s, write) then V.NoteActivity(s.vault) else s.vault
    case DeriveDone(_) =>
      if KeyTried(c, s, e).Some? then V.Unlock(c, s.vault, KeyTried(c, s, e).value).0 else s.vault
    case PinDone(_, _) =>
      if KeyTried(c, s, e).Some? then V.Unlock(c, s.vault, KeyTried(c, s, e).value).0 else s.vault
    case NetDone(job, outcome) => if Delivers(s, e) then VaultDelivered(c, s, job, outcome.doc) else s.vault
    case Restart => Started(s.disk).vault
    case _ => s.vault
  }

  lemma {:induction false} NotifiedVault(s: State, signals: seq<V.LockedChanged>, loc: L.Locale)
    ensures Notified(s, signals, loc).vault == s.vault && Moved(s, Notified(s, signals, loc))
    decreases |signals|
  {
    hide L.Step;
    if signals != [] {
      NotifiedVault(OnLockedChanged(s, signals[0], loc), signals[1..], loc);
    }
  }

  lemma WithVaultIs(s: State, v: V.State, loc: L.Locale)
    ensures WithVault(s, v, loc).vault == v && Moved(s, WithVault(s, v, loc))
  {
    hide Notified;
    NotifiedVault(s.(vault := v), Since(v.emitted, |s.vault.emitted|), loc);
  }

  lemma TryUnlockIs(c: Suite, s: State, masterKey: bytes, loc: L.Locale)
    ensures var (t, ok) := TryUnlock(c, s, masterKey, loc);
            && t.vault == V.Unlock(c, s.vault, masterKey).0 && Moved(s, t)
            && (ok <==> V.Unlock(c, s.vault, masterKey).1.Ok?) && (ok ==> t.phase == Unlocked)
  {
    hide WithVault, V.Unlock, L.Step;
    WithVaultIs(s, V.Unlock(c, s.vault, masterKey).0, loc);
  }

  lemma ReloadIs(c: Suite, s: State, doc: Blob, loc: L.Locale)
    ensures Reload(c, s, doc, loc).vault == V.ReloadSync(c, s.vault, doc).0
  {
    hide WithVault, V.ReloadSync, L.Step;
    WithVaultIs(s, V.ReloadSync(c, s.vault, doc).0, loc);
  }

  lemma LoadBlobIs(c: Suite, s: State, doc: Blob, freshLogin: bool, loc: L.Locale)
    ensures var (v, r) := V.LoadSync(s.vault, doc);
            LoadBlob(c, s, doc, freshLogin, loc).vault
            == if r.Ok? && freshLogin && s.pendingSecrets.Some? then V.Unlock(c, v, s.pendingSecrets.value).0 else v
  {
    hide WithVault, TryUnlock, V.LoadSync, V.Unlock;
    WithVaultIs(s, V.LoadSync(s.vault, doc).0, loc);
    var t := WithVault(s, V.LoadSync(s.vault, doc).0, loc);
    if t.pendingSecrets.Some? {
      TryUnlockIs(c, t.(pendingSecrets := None), t.pendingSecrets.value, loc);
    }
  }

  lemma ApplySyncIs(c: Suite, s: State, job: NetJob, doc: Blob, loc: L.Locale)
    requires !job.SyncAfterWrite?
    ensures ApplySyncBlob(c, s, doc, job.SyncAfterLogin?, loc).vault == VaultDelivered(c, s, job, doc)
  {
    hide LoadBlob, Reload, V.ReloadSync, V.LoadSync, V.Unlock;
    LoadBlobIs(c, Stored(s, doc), doc, job.SyncAfterLogin?, loc);
    ReloadIs(c, Stored(s, doc), doc, loc);
  }

  lemma BlobReplyIs(c: Suite, s: State, job: NetJob, outcome: Outcome, loc: L.Locale)
    requires CarriesBlob(job)
    ensures OnBlobReply(c, s, job, outcome, loc).vault
            == if outcome.GotBlob? then VaultDelivered(c, s, job, outcome.doc) else s.vault
  {
    hide ApplySyncBlob, Reload, V.ReloadSync, V.LoadSync, V.Unlock;
    if outcome.GotBlob? {
      if job.SyncAfterWrite? {
        ReloadIs(c, Stored(s.(busy := false), outcome.doc), outcome.doc, loc);
      } else {
        ApplySyncIs(c, s, job, outcome.doc, loc);
      }
    }
  }

  lemma SameDelivered(c: Suite, s: State, t: State, job: NetJob, outcome: Outcome)
    requires t.vault == s.vault && t.pendingSecrets == s.pendingSecrets && outcome.GotBlob?
    ensures VaultDelivered(c, t, job, outcome.doc) == VaultDelivered(c, s, job, outcome.doc)
  {
    hide V.ReloadSync, V.LoadSync, V.Unlock;
  }

  lemma NetVault(c: Suite, s: State, job: NetJob, outcome: Outcome, loc: L.Locale)
    ensures OnNetDone(c, s, job, outcome, loc).vault == VaultAfter(c, s, NetDone(job, outcome))
  {
    hide OnBlobReply, OnPlainReply, VaultDelivered, V.Unlock, V.Locked, V.NoteActivity, V.SetAutoLock, V.Advance, Started,
         BodyExists, KeyTried;
    if job in s.work.net {
      var t := s.(work := s.work.(net := s.work.net - multiset{job}));
      if CarriesBlob(job) {
        BlobReplyIs(c, t, job, outcome, loc);
        if outcome.GotBlob? {
          SameDelivered(c, s, t, job, outcome);
        }
      } else {
        PlainReplyPage(t, job, outcome);
      }
    }
  }

  lemma DeriveVault(c: Suite, s: State, result: Result<bytes>, loc: L.Locale)
    ensures OnDeriveDone(c, s, result, loc).vault == VaultAfter(c, s, DeriveDone(result))
  {
    hide TryUnlock, V.VerifiesMasterKey, V.Unlock, V.Locked, V.NoteActivity, V.SetAutoLock, V.Advance, Started,
         BodyExists, VaultDelivered, PinWrap.Unwrapped;
    if s.work.derive.Some? && result.Ok? {
      TryUnlockIs(c, s.(work := s.work.(derive := None), busy := false), result.value, loc);
    }
  }

  lemma PinVault(c: Suite, s: State, salt: bytes, iv: bytes, loc: L.Locale)
    ensures OnPinDone(c, s, salt, iv, loc).vault == VaultAfter(c, s, PinDone(salt, iv))
  {
    hide TryUnlock, WrapResult, PinWrap.Unwrapped, V.Unlock, V.Locked, V.NoteActivity, V.SetAutoLock, V.Advance, Started,
         BodyExists, VaultDelivered;
    if s.work.pin.Some? && s.work.pin.value.UnwrapJob? {
      var r := PinWrap.Unwrapped(c, s.work.pin.value.wrapped, c.toUtf8(s.work.pin.value.pin));
      if r.Ok? {
        TryUnlockIs(c, s.(work := s.work.(pin := None), busy := false), r.value, loc);
      }
    }
  }

  lemma RequestVault(s: State, request: Request)
    ensures OnRequest(s, request).vault == s.vault
  {
  }

  lemma PinKeepsVault(s: State, pin: string)
    ensures OnUnlockWithPin(s, pin).vault == s.vault && PinForgotten(s).vault == s.vault
  {
    hide PinWrap.Parsed;
  }

  lemma LockVault(c: Suite, s: State, loc: L.Locale)
    ensures LockNow(s, loc).vault == V.Locked(s.vault) && SignedOut(s, loc).vault == V.Locked(s.vault)
  {
    hide WithVault, V.Locked;
    WithVaultIs(s, V.Locked(s.vault), loc);
  }

  lemma ChangeVault(c: Suite, s: State, minutes: int, ms: nat, write: Write, loc: L.Locale)
    ensures OnTime(s, ms, loc).vault == V.Advance(s.vault, ms)
    ensures OnWrite(c, s, write).vault == VaultAfter(c, s, WriteItem(write))
  {
    hide WithVault, V.Advance, V.NoteActivity, BodyExists;
    WithVaultIs(s, V.Advance(s.vault, ms), loc);
  }

  /** The vault after every event. */
  lemma NextVault(c: Suite, s: State, e: Event, loc: L.Locale)
    ensures Next(c, s, e, loc).vault == VaultAfter(c, s, e)
  {
    hide OnRequest, OnUnlockWithPin, PinForgotten, SignedOut, LockNow, OnTime, OnWrite, OnDeriveDone, OnPinDone,
         OnNetDone, Started, BodyExists, KeyTried, VaultDelivered, V.Locked, V.NoteActivity, V.SetAutoLock, V.Advance,
         V.Unlock, L.Step;
    match e
    case Asked(request) => RequestVault(s, request);
    case UnlockWithPin(pin) => PinKeepsVault(s, pin);
    case DisablePin => PinKeepsVault(s, "");
    case SignOut => LockVault(c, s, loc);
    case Lock => LockVault(c, s, loc);
    case Minimised => LockVault(c, s, loc);
    case TimePasses(ms) => ChangeVault(c, s, 0, ms, Delete, loc);
    case WriteItem(write) => ChangeVault(c, s, 0, 0, write, loc);
    case DeriveDone(result) => DeriveVault(c, s, result, loc);
    case PinDone(salt, iv) => PinVault(c, s, salt, iv, loc);
    case NetDone(job, outcome) => NetVault(c, s, job, outcome, loc);
    case _ =>
  }

  // ----- what opens it -----

  /** The key is tried on the closed vault and opens it: a derived master key or one
      behind a PIN on the data it holds, or the key of a login on the document that the
      login's sync delivers. */
  ghost predicate Opens(c: Suite, s: State, e: Event) {
    || (KeyTried(c, s, e).Some? && V.Unlock(c, s.vault, KeyTried(c, s, e).value).1.Ok?)
    || (Delivers(s, e) && e.job.SyncAfterLogin? && s.pendingSecrets.Some?
        && SyncParser.ParsedSync(e.outcome.doc).Ok?
        && V.Unlock(c, V.LoadSync(s.vault, e.outcome.doc).0, s.pendingSecrets.value).1.Ok?)
  }

  lemma UnlockLocks(c: Suite, v: V.State, masterKey: bytes)
    requires v.locked
    ensures var (w, r) := V.Unlock(c, v, masterKey); w.locked <==> r.Err?
  {
    hide V.Rebuilt, V.UserKeyOf;
  }

  lemma LoadLocks(v: V.State, doc: Blob)
    ensures var (w, r) := V.LoadSync(v, doc);
            && (r.Ok? <==> SyncParser.ParsedSync(doc).Ok?) && (v.locked ==> w.locked)
  {
    hide SyncParser.ParsedSync;
  }

  lemma QuietLocks(c: Suite, v: V.State, seconds: int, ms: nat, doc: Blob)
    requires v.locked
    ensures V.Locked(v).locked && V.NoteActivity(v).locked && V.SetAutoLock(v, seconds).locked && V.Advance(v, ms).locked
    ensures V.ReloadSync(c, v, doc).0.locked
  {
    hide SyncParser.ParsedSync, V.Retaken;
  }

  /** A closed vault opens exactly by these, whatever else happens. */
  lemma OpensExactly(c: Suite, s: State, e: Event, loc: L.Locale)
    requires s.vault.locked
    ensures !Next(c, s, e, loc).vault.locked <==> Opens(c, s, e)
  {
    hide Next, KeyTried, V.Unlock, V.LoadSync, V.ReloadSync, V.Locked, V.NoteActivity, V.SetAutoLock, V.Advance, Started,
         BodyExists, SyncParser.ParsedSync;
    NextVault(c, s, e, loc);
    QuietLocks(c, s.vault, if e.SetAutoLock? then e.minutes * 60 else 0, if e.TimePasses? then e.ms else 0,
               if Delivers(s, e) then e.outcome.doc else None);
    StartedPage(s.disk);
    KeyEvents(c, s, e);
    if KeyTried(c, s, e).Some? {
      UnlockLocks(c, s.vault, KeyTried(c, s, e).value);
    }
    if Delivers(s, e) {
      LoadLocks(s.vault, e.outcome.doc);
      if s.pendingSecrets.Some? {
        UnlockLocks(c, V.LoadSync(s.vault, e.outcome.doc).0, s.pendingSecrets.value);
      }
    }
  }

  lemma KeyEvents(c: Suite, s: State, e: Event)
    ensures KeyTried(c, s, e).Some? ==> e.DeriveDone? || e.PinDone?
  {
    hide PinWrap.Unwrapped;
  }

  // ----- what closes it -----

  /** The steps that close an open vault: locking, signing out, minimising under the
      setting, the end of the interval, a restart, a key that does not open it after all,
      and a document whose protected key has changed or that does not decrypt. */
  ghost predicate Closes(c: Suite, s: State, e: Event) {
    || e.SignOut? || e.Lock? || e.Restart?
    || (e.Minimised? && s.disk.lockOnMinimize)
    || (e.TimePasses? && s.vault.timer.Some? && s.vault.timer.value <= e.ms)
    || (KeyTried(c, s, e).Some? && V.Unlock(c, s.vault, KeyTried(c, s, e).value).1.Err?)
    || (Delivers(s, e) && SyncParser.ParsedSync(e.outcome.doc).Ok? && V.ReloadSync(c, s.vault, e.outcome.doc).1.Err?)
  }

  lemma UnlockOpens(c: Suite, v: V.State, masterKey: bytes)
    requires v.data.profileKey != ""
    ensures var (w, r) := V.Unlock(c, v, masterKey); w.locked <==> r.Err?
  {
    hide V.Rebuilt, V.UserKeyOf;
  }

  lemma ReloadLocks(c: Suite, v: V.State, doc: Blob)
    requires !v.locked
    ensures var (w, r) := V.ReloadSync(c, v, doc); w.locked <==> r.Err? && SyncParser.ParsedSync(doc).Ok?
  {
    hide SyncParser.ParsedSync, V.Rebuilt;
  }

  lemma QuietStaysOpen(v: V.State, seconds: int, ms: nat)
    requires !v.locked
    ensures V.Locked(v).locked && !V.NoteActivity(v).locked && !V.SetAutoLock(v, seconds).locked
    ensures V.Advance(v, ms).locked <==> v.timer.Some? && v.timer.value <= ms
  {
  }

  /** An open vault closes exactly by these. */
  lemma ClosesExactly(c: Suite, s: State, e: Event, loc: L.Locale)
    requires Inv(c, s, loc) && !s.vault.locked
    ensures Next(c, s, e, loc).vault.locked <==> Closes(c, s, e)
  {
    hide Next, Inv, KeyTried, V.Unlock, V.LoadSync, V.ReloadSync, V.Locked, V.NoteActivity, V.SetAutoLock, V.Advance,
         Started, BodyExists, SyncParser.ParsedSync;
    NextVault(c, s, e, loc);
    OpenHasKey(c, s, loc);
    QuietStaysOpen(s.vault, if e.SetAutoLock? then e.minutes * 60 else 0, if e.TimePasses? then e.ms else 0);
    StartedPage(s.disk);
    KeyEvents(c, s, e);
    if KeyTried(c, s, e).Some? {
      UnlockOpens(c, s.vault, KeyTried(c, s, e).value);
    }
    if Delivers(s, e) {
      ReloadLocks(c, s.vault, e.outcome.doc);
    }
  }

  // ----- auto-lock -----

  function Sum(times: seq<nat>): nat {
    if times == [] then 0 else times[0] + Sum(times[1..])
  }

  function Waits(times: seq<nat>): (r: seq<Event>)
    ensures |r| == |times|
  {
    seq(|times|, i requires 0 <= i < |times| => TimePasses(times[i]))
  }

  lemma TimeIs(c: Suite, s: State, ms: nat, minutes: int, loc: L.Locale)
    ensures Next(c, s, TimePasses(ms), loc).vault == V.Advance(s.vault, ms)
    ensures Next(c, s, SetAutoLock(minutes), loc).vault == V.SetAutoLock(s.vault, minutes * 60)
    ensures Next(c, s, Activity, loc).vault == V.NoteActivity(s.vault)
  {
    hide Next, V.Locked, V.Advance, V.SetAutoLock, V.NoteActivity, V.Unlock, Started, BodyExists, VaultDelivered, KeyTried,
         Delivers;
    NextVault(c, s, TimePasses(ms), loc);
    NextVault(c, s, SetAutoLock(minutes), loc);
    NextVault(c, s, Activity, loc);
  }

  lemma {:induction false} WaitsLocked(c: Suite, s: State, times: seq<nat>, loc: L.Locale)
    requires s.vault.locked && s.vault.timer.None?
    ensures Run(c, s, Waits(times), loc).vault.locked
    decreases |times|
  {
    hide Next;
    if times != [] {
      TimeIs(c, s, times[0], 0, loc);
      assert Waits(times)[1..] == Waits(times[1..]);
      WaitsLocked(c, Next(c, s, TimePasses(times[0]), loc), times[1..], loc);
    }
  }

  lemma {:induction false} WaitsExactly(c: Suite, s: State, times: seq<nat>, loc: L.Locale)
    requires !s.vault.locked
    ensures Run(c, s, Waits(times), loc).vault.locked <==>
            s.vault.timer.Some? && times != [] && Sum(times) >= s.vault.timer.value
    decreases |times|
  {
    hide Next;
    if times != [] {
      TimeIs(c, s, times[0], 0, loc);
      assert Waits(times)[1..] == Waits(times[1..]);
      var t := Next(c, s, TimePasses(times[0]), loc);
      if t.vault.locked {
        WaitsLocked(c, t, times[1..], loc);
      } else {
        WaitsExactly(c, t, times[1..], loc);
      }
    }
  }

  /** Setting an interval of some minutes on an open vault, or being active under one: left
      alone it stays open for exactly that long, however the time is cut up. */
  lemma AutoLockExactly(c: Suite, s: State, minutes: int, times: seq<nat>, loc: L.Locale)
    requires !s.vault.locked
    ensures Run(c, Next(c, s, SetAutoLock(minutes), loc), Waits(times), loc).vault.locked <==>
            minutes > 0 && Sum(times) >= minutes * 60_000
    ensures var t := Next(c, Next(c, s, SetAutoLock(minutes), loc), Activity, loc);
            Run(c, t, Waits(times), loc).vault.locked <==> minutes > 0 && Sum(times) >= minutes * 60_000
  {
    hide Next, Run;
    TimeIs(c, s, 0, minutes, loc);
    var t := Next(c, s, SetAutoLock(minutes), loc);
    TimeIs(c, t, 0, 0, loc);
    TimerSet(s.vault, minutes);
    WaitsExactly(c, t, times, loc);
    WaitsExactly(c, Next(c, t, Activity, loc), times, loc);
  }

  lemma TimerSet(v: V.State, minutes: int)
    requires !v.locked
    ensures var w := V.SetAutoLock(v, minutes * 60);
            && !w.locked && w.timer == (if minutes > 0 then Some(minutes * 60_000) else None)
            && !V.NoteActivity(w).locked && V.NoteActivity(w).timer == w.timer
  {
  }

  /** The interval outlives a restart, and so does the choice to lock when minimised. */
  lemma SettingsStay(c: Suite, s: State, minutes: int, on: bool, loc: L.Locale)
    ensures var t := Next(c, Next(c, s, SetAutoLock(minutes), loc), Restart, loc);
            t.vault.interval == (if minutes > 0 then minutes * 60_000 else 0)
    ensures Next(c, Next(c, s, Asked(SetLockOnMinimize(on)), loc), Restart, loc).disk.lockOnMinimize == on
  {
    hide Next, OnRequest;
    SettingArms(c, s, minutes, loc);
    Arms(c, s, SetLockOnMinimize(on), Prelogin, Failed, Ok([]), loc);
    var t, u := Next(c, s, SetAutoLock(minutes), loc), Next(c, s, Asked(SetLockOnMinimize(on)), loc);
    RestartIs(c, t, loc);
    RestartIs(c, u, loc);
    StartedWith(t.disk);
    StartedWith(u.disk);
    MinimizeSet(s, on);
  }

  lemma SettingArms(c: Suite, s: State, minutes: int, loc: L.Locale)
    ensures Next(c, s, SetAutoLock(minutes), loc).disk.autoLockMinutes == minutes
  {
    hide OnRequest, OnUnlockWithPin, SignedOut, LockNow, OnMinimised, OnActivity, OnTime, OnFilter, OnWrite,
         OnDeriveDone, OnPinDone, OnNetDone, Started, PinForgotten, V.SetAutoLock;
  }

  lemma MinimizeSet(s: State, on: bool)
    ensures OnRequest(s, SetLockOnMinimize(on)).disk.lockOnMinimize == on
  {
  }

  lemma StartedWith(disk: Disk)
    ensures Started(disk).disk == disk
    ensures Started(disk).vault.interval == (if disk.autoLockMinutes > 0 then disk.autoLockMinutes * 60_000 else 0)
  {
    hide SyncParser.ParsedSync;
  }
}
