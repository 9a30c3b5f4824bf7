/** The controller object: slots and callbacks that change its fields, its vault and
    its list in place, each proved against the function of ControllerSpec. A signal
    that the vault sends is handled by Deliver, which the caller of the vault runs
    before it goes on. */
module AppController {
  import opened Words
  import opened Wrappers
  import opened CryptoSuite
  import opened ControllerSpec
  import ControllerRuns
  import V = VaultSpec
  import E = VaultEdit
  import L = ListModel
  import Vault
  import PinWrap

  class AppController {
    const vault: Vault.Vault
    const model: L.VaultListModel
    var disk: Disk
    var accessToken: bool
    var refreshToken: bool
    var pendingSecrets: Option<bytes>
    var pendingHash: bool
    var work: Work
    var phase: Phase
    var busy: bool

    ghost function Now(): State
      reads this, vault, model
    {
      State(disk, accessToken, refreshToken, pendingSecrets, pendingHash, work, phase, busy, vault.Now(),
            model.Current())
    }

    /** The controller's invariant, over the objects it owns. */
    ghost predicate Valid()
      reads this, vault, model
    {
      ControllerRuns.Inv(vault.c, Now(), model.loc)
    }

    constructor (c: Suite, loc: L.Locale, disk: Disk)
      ensures vault.c == c && model.loc == loc && fresh(vault) && fresh(model)
      ensures Now() == Started(disk)
      ensures 0 <= disk.pinFailures < MAX_PIN_FAILURES ==> Valid()
    {
      hide ControllerRuns.Inv, V.SetAutoLock, V.LoadSync;
      this.disk := disk;
      accessToken, refreshToken, pendingSecrets, pendingHash := false, disk.refreshToken, None, false;
      work, phase, busy := NO_WORK, Setup, false;
      vault := new Vault.Vault(c);
      model := new L.VaultListModel(loc);
      new;
      vault.SetAutoLockSeconds(disk.autoLockMinutes * 60);
      if disk.email != "" {
        phase := Login;
        if disk.blob.Some? {
          var r := vault.LoadSync(disk.blob.value);
          if r.Ok? {
            phase := Locked;
          }
        }
      }
      if 0 <= disk.pinFailures < MAX_PIN_FAILURES {
        ControllerRuns.StartedKeeps(c, disk, loc);
      }
    }

    /** The two slots of lockedChanged, in the order they were connected. */
    method HandleLockedChanged(x: V.LockedChanged)
      modifies this`phase, model
      ensures Now() == OnLockedChanged(old(Now()), x, model.loc)
    {
      hide L.Step;
      model.Refresh(x.items);
      if x.locked && phase == Unlocked {
        phase := Locked;
      }
    }

    /** The signals sent since the vault's log was `mark` long. */
    method Deliver(mark: nat)
      modifies this`phase, model
      ensures Now() == Notified(old(Now()), Since(vault.emitted, mark), model.loc)
    {
      hide OnLockedChanged, Notified;
      var i := mark;
      while i < |vault.emitted|
        invariant mark <= i && (i <= |vault.emitted| || i == mark)
        invariant Notified(Now(), Since(vault.emitted, i), model.loc)
                  == Notified(old(Now()), Since(vault.emitted, mark), model.loc)
      {
        NotifiedStep(Now(), vault.emitted, i, model.loc);
        HandleLockedChanged(vault.emitted[i]);
        i := i + 1;
      }
      NotifiedEnd(Now(), vault.emitted, i, model.loc);
    }

    method RefreshModel()
      modifies model
      ensures Now() == RefreshList(old(Now()), model.loc)
    {
      model.Refresh(vault.items);
    }

    /** The vault locks and its listeners run. */
    method LockVault()
      modifies this`phase, vault, model
      ensures Now() == WithVault(old(Now()), V.Locked(old(vault.Now())), model.loc)
    {
      var mark := |vault.emitted|;
      vault.Lock();
      Deliver(mark);
    }

    method TryUnlock(masterKey: bytes) returns (ok: bool)
      requires Lawful(vault.c)
      modifies this`phase, vault, model
      ensures (Now(), ok) == ControllerSpec.TryUnlock(vault.c, old(Now()), masterKey, model.loc)
    {
      var mark := |vault.emitted|;
      var r := vault.UnlockWithMasterKey(masterKey);
      Deliver(mark);
      if r.Err? {
        return false;
      }
      RefreshModel();
      phase := Unlocked;
      ok := true;
    }

    method Reload(doc: Blob)
      requires Lawful(vault.c)
      modifies this`phase, vault, model
      ensures Now() == ControllerSpec.Reload(vault.c, old(Now()), doc, model.loc)
    {
      hide V.ReloadSync, Notified, L.Step;
      var mark := |vault.emitted|;
      var r := vault.ReloadSync(doc);
      Deliver(mark);
      if r.Ok? {
        RefreshModel();
      } else {
        phase := Locked;
      }
    }

    method LoadVault(doc: Blob) returns (r: Result<()>)
      modifies this`phase, vault, model
      ensures r == V.LoadSync(old(vault.Now()), doc).1
      ensures Now() == WithVault(old(Now()), V.LoadSync(old(vault.Now()), doc).0, model.loc)
    {
      hide V.LoadSync, Notified;
      var mark := |vault.emitted|;
      r := vault.LoadSync(doc);
      Deliver(mark);
    }

    /** The second half of applySyncBlob, over a locked vault. */
    method LoadBlob(doc: Blob, freshLogin: bool)
      requires Lawful(vault.c)
      modifies this, vault, model
      ensures Now() == ControllerSpec.LoadBlob(vault.c, old(Now()), doc, freshLogin, model.loc)
    {
      hide V.LoadSync, WithVault, ControllerSpec.FinishFreshLogin;
      var r := LoadVault(doc);
      if r.Err? {
        return;
      }
      FinishFreshLogin(freshLogin);
    }

    method ApplySyncBlob(doc: Blob, freshLogin: bool)
      requires Lawful(vault.c)
      modifies this, vault, model
      ensures Now() == ControllerSpec.ApplySyncBlob(vault.c, old(Now()), doc, freshLogin, model.loc)
    {
      hide ControllerSpec.LoadBlob, ControllerSpec.Reload;
      disk := disk.(blob := Some(doc));
      assert Now() == Stored(old(Now()), doc);
      if !vault.locked {
        Reload(doc);
        busy := false;
        return;
      }
      LoadBlob(doc, freshLogin);
      busy := false;
    }

    /** Unlock right away with the key derived during login, if there is one. */
    method FinishFreshLogin(freshLogin: bool)
      requires Lawful(vault.c)
      modifies this, vault, model
      ensures Now() == ControllerSpec.FinishFreshLogin(vault.c, old(Now()), freshLogin, model.loc)
    {
      hide ControllerSpec.TryUnlock;
      if freshLogin && pendingSecrets.Some? {
        var masterKey := pendingSecrets.value;
        pendingSecrets := None;
        var ok := TryUnlock(masterKey);
        if !ok {
          phase := Locked;
        }
      } else {
        phase := Locked;
      }
    }

    method ApplyWriteSync(doc: Blob)
      requires Lawful(vault.c)
      modifies this, vault, model
      ensures Now() == ControllerSpec.ApplyWriteSync(vault.c, old(Now()), doc, model.loc)
    {
      hide ControllerSpec.Reload;
      disk := disk.(blob := Some(doc));
      Reload(doc);
    }

    method Lock()
      modifies this, vault, model
      ensures Now() == LockNow(old(Now()), model.loc)
    {
      hide WithVault, V.Locked;
      LockVault();
      phase := if disk.blob.Some? || !vault.locked then Locked else Login;
    }

    method ForgetPin()
      modifies this`disk
      ensures Now() == PinForgotten(old(Now()))
    {
      disk := disk.(pinText := None, pinFailures := 0);
    }

    method SignOut()
      modifies this, vault, model
      ensures Now() == SignedOut(old(Now()), model.loc)
    {
      hide WithVault, V.Locked;
      LockVault();
      accessToken, refreshToken := false, false;
      disk := disk.(refreshToken := false);
      disk := disk.(blob := None);
      ForgetPin();
      phase := Login;
    }

    method HandleAppStateChanged()
      modifies this, vault, model
      ensures Now() == OnMinimised(old(Now()), model.loc)
    {
      hide LockNow;
      if disk.lockOnMinimize && !vault.locked {
        Lock();
      }
    }

    method SetAutoLockMinutes(minutes: int)
      modifies this, vault
      ensures Now() == OnSetAutoLock(old(Now()), minutes)
    {
      hide V.SetAutoLock;
      disk := disk.(autoLockMinutes := minutes);
      vault.SetAutoLockSeconds(minutes * 60);
    }

    /** Time passes; the vault's timer may fire, and then its listeners run. */
    method TimePasses(ms: nat)
      modifies this, vault, model
      ensures Now() == OnTime(old(Now()), ms, model.loc)
    {
      hide V.Advance, Notified;
      var mark := |vault.emitted|;
      vault.TimePasses(ms);
      Deliver(mark);
    }

    method SetLockOnMinimize(on: bool)
      modifies this`disk
      ensures Now() == OnRequest(old(Now()), Request.SetLockOnMinimize(on))
    {
      disk := disk.(lockOnMinimize := on);
    }

    // ----- starting work -----

    method DeriveAsync(job: DeriveJob)
      modifies this`work
      ensures Now() == StartDerive(old(Now()), job)
    {
      if work.derive.Some? {
        return;
      }
      work := work.(derive := Some(job));
    }

    method RunPinWorker(job: PinJob)
      modifies this`work
      ensures Now() == StartPinJob(old(Now()), job)
    {
      if work.pin.Some? {
        return;
      }
      work := work.(pin := Some(job));
    }

    /** A network call: its completion is outstanding. */
    method Call(job: NetJob)
      modifies this`work
      ensures Now() == StartNet(old(Now()), job)
    {
      work := work.(net := work.net + multiset{job});
    }

    method ConfigureAccount(email: string)
      modifies this
      ensures Now() == OnRequest(old(Now()), Request.ConfigureAccount(email))
    {
      disk := disk.(email := email);
      phase := Login;
    }

    method StartLogin()
      modifies this
      ensures Now() == OnRequest(old(Now()), Request.StartLogin)
    {
      if disk.email == "" {
        return;
      }
      busy := true;
      Call(Prelogin);
    }

    method SubmitTwoFactor()
      modifies this
      ensures Now() == OnRequest(old(Now()), Request.SubmitTwoFactor)
    {
      if pendingSecrets.None? || !pendingHash {
        return;
      }
      busy := true;
      Call(TwoFactorReply);
    }

    method CancelLogin()
      modifies this
      ensures Now() == OnRequest(old(Now()), Request.CancelLogin)
    {
      pendingSecrets := None;
      pendingHash := false;
      busy := false;
      phase := Login;
    }

    method Unlock()
      modifies this
      ensures Now() == OnRequest(old(Now()), Request.Unlock)
    {
      if vault.locked && disk.blob.None? {
        return;
      }
      if disk.kdfIterations == 0 {
        phase := Login;
        return;
      }
      busy := true;
      DeriveAsync(ForUnlock);
    }

    method EnablePin(pin: string)
      modifies this
      ensures Now() == OnRequest(old(Now()), Request.EnablePin(pin))
    {
      if |pin| < MIN_PIN_LENGTH {
        return;
      }
      if disk.blob.None? {
        return;
      }
      if disk.kdfIterations == 0 {
        return;
      }
      busy := true;
      DeriveAsync(ForEnablePin(pin));
    }

    method UnlockWithPin(pin: string)
      modifies this
      ensures Now() == OnUnlockWithPin(old(Now()), pin)
    {
      hide PinWrap.Parsed;
      if disk.pinText.None? {
        return;
      }
      if disk.blob.None? {
        return;
      }
      var wrapped := PinWrap.Parse(disk.pinText.value);
      if wrapped.Err? {
        ForgetPin();
        return;
      }
      busy := true;
      RunPinWorker(UnwrapJob(wrapped.value, pin));
    }

    method SyncNow()
      modifies this
      ensures Now() == OnRequest(old(Now()), Request.SyncNow)
    {
      if !refreshToken {
        return;
      }
      busy := true;
      Call(RefreshForSync);
    }

    method NoteActivity()
      modifies vault
      ensures Now() == OnActivity(old(Now()))
    {
      hide V.NoteActivity;
      vault.NoteActivity();
    }

    method WriteAndResync()
      modifies this
      ensures Now() == ControllerSpec.WriteAndResync(old(Now()))
    {
      if !accessToken {
        RefreshThenWrite();
        return;
      }
      Call(WriteReply);
    }

    method RefreshThenWrite()
      modifies this
      ensures Now() == ControllerSpec.RefreshThenWrite(old(Now()))
    {
      if !refreshToken {
        busy := false;
        return;
      }
      Call(RefreshForWrite);
    }

    method FinishWrite(ok: bool)
      modifies this
      ensures Now() == ControllerSpec.FinishWrite(old(Now()), ok)
    {
      if !ok {
        busy := false;
        return;
      }
      Call(SyncAfterWrite);
    }

    /** createItem, saveItem, deleteItem. */
    method WriteItem(write: Write)
      requires Lawful(vault.c)
      modifies this, vault
      ensures Now() == OnWrite(vault.c, old(Now()), write)
    {
      hide V.NoteActivity, E.BuiltCreate, E.BuiltUpdate, ControllerSpec.WriteAndResync;
      if phase != Unlocked {
        return;
      }
      match write {
        case Create(kind, f, v) =>
          var body := vault.BuildCreateBody(kind, f, v);
          if body.Err? {
            return;
          }
        case Save(itemId, f, v) =>
          var body := vault.BuildUpdateBody(itemId, f, v);
          if body.Err? {
            return;
          }
        case Delete =>
      }
      NoteActivity();
      busy := true;
      WriteAndResync();
    }

    // ----- completions -----

    method DeriveDone(result: Result<bytes>)
      requires Lawful(vault.c)
      modifies this, vault, model
      ensures Now() == OnDeriveDone(vault.c, old(Now()), result, model.loc)
    {
      hide V.VerifiesMasterKey, ControllerSpec.TryUnlock;
      if work.derive.None? {
        return;
      }
      var job := work.derive.value;
      work := work.(derive := None);
      match job {
        case ForLogin =>
          if result.Err? {
            busy := false;
            return;
          }
          pendingSecrets := Some(result.value);
          Call(LoginReply);
        case ForUnlock =>
          busy := false;
          if result.Err? {
            return;
          }
          var _ := TryUnlock(result.value);
        case ForEnablePin(pin) =>
          if result.Err? {
            busy := false;
            return;
          }
          var verified := vault.VerifyMasterKey(result.value);
          if !verified {
            busy := false;
            return;
          }
          RunPinWorker(WrapJob(result.value, pin));
      }
    }

    /** The PIN worker's result arrives; salt and IV are what it drew. */
    method PinDone(salt: bytes, iv: bytes)
      requires Lawful(vault.c)
      modifies this, vault, model
      ensures Now() == OnPinDone(vault.c, old(Now()), salt, iv, model.loc)
    {
      hide OnUnwrapped, PinWrap.Wrapped, PinWrap.Unwrapped, PinWrap.Text;
      if work.pin.None? {
        return;
      }
      var job := work.pin.value;
      work := work.(pin := None);
      busy := false;
      match job {
        case WrapJob(masterKey, pin) =>
          var w := PinWrap.WrapWithPin(vault.c, masterKey, vault.c.toUtf8(pin), salt, iv);
          if w.Err? {
            return;
          }
          var text := PinWrap.Serialize(w.value);
          disk := disk.(pinText := Some(text));
          disk := disk.(pinFailures := 0);
        case UnwrapJob(w, pin) =>
          var masterKey := PinWrap.UnwrapWithPin(vault.c, w, vault.c.toUtf8(pin));
          Unwrapped(masterKey);
      }
    }

    /** unlockWithPin's last callback. */
    method Unwrapped(masterKey: Result<bytes>)
      requires Lawful(vault.c)
      modifies this, vault, model
      ensures Now() == OnUnwrapped(vault.c, old(Now()), masterKey, model.loc)
    {
      hide ControllerSpec.TryUnlock;
      if masterKey.Err? {
        var failures := disk.pinFailures + 1;
        if failures >= MAX_PIN_FAILURES {
          ForgetPin();
        } else {
          disk := disk.(pinFailures := failures);
        }
        return;
      }
      var ok := TryUnlock(masterKey.value);
      if ok {
        disk := disk.(pinFailures := 0);
      } else {
        ForgetPin();
      }
    }

    method FinishLogin(hasRefresh: bool)
      modifies this
      ensures Now() == ControllerSpec.FinishLogin(old(Now()), hasRefresh)
    {
      accessToken := true;
      refreshToken := hasRefresh;
      disk := disk.(refreshToken := hasRefresh);
      pendingHash := false;
      Call(SyncAfterLogin);
    }

    method TakeToken(hasRefresh: bool)
      modifies this
      ensures Now() == GotRefreshed(old(Now()), hasRefresh)
    {
      accessToken := true;
      if hasRefresh {
        refreshToken := true;
        disk := disk.(refreshToken := true);
      }
    }

    /** The reply to the password. */
    method PasswordReply(outcome: Outcome)
      modifies this
      ensures Now() == OnLoginReply(old(Now()), outcome)
    {
      if outcome.GotToken? {
        FinishLogin(outcome.hasRefresh);
      } else if outcome.SecondFactor? {
        pendingHash := pendingSecrets.Some?;
        busy := false;
        phase := TwoFactor;
      } else {
        pendingSecrets := None;
        busy := false;
      }
    }

    /** The token refreshed for a sync. */
    method SyncTokenReply(outcome: Outcome)
      modifies this
      ensures Now() == OnRefreshForSync(old(Now()), outcome)
    {
      if !outcome.GotToken? {
        busy := false;
        disk := disk.(refreshToken := false);
        refreshToken := false;
        if vault.locked {
          phase := Login;
        }
        return;
      }
      TakeToken(outcome.hasRefresh);
      Call(SyncReply);
    }

    /** A reply that carries no vault data. */
    method PlainReply(job: NetJob, outcome: Outcome)
      requires !CarriesBlob(job)
      modifies this
      ensures Now() == OnPlainReply(old(Now()), job, outcome)
    {
      hide StartNet, StartDerive, GotRefreshed, ControllerSpec.FinishLogin, ControllerSpec.FinishWrite,
           ControllerSpec.RefreshThenWrite, OnLoginReply, OnRefreshForSync;
      match job {
        case Prelogin =>
          if !outcome.GotKdf? {
            busy := false;
            return;
          }
          disk := disk.(kdfIterations := outcome.iterations);
          DeriveAsync(ForLogin);
        case LoginReply =>
          PasswordReply(outcome);
        case TwoFactorReply =>
          if outcome.GotToken? {
            FinishLogin(outcome.hasRefresh);
          } else {
            busy := false;
          }
        case RefreshForSync =>
          SyncTokenReply(outcome);
        case WriteReply =>
          if outcome.Unauthorized? {
            RefreshThenWrite();
            return;
          }
          FinishWrite(outcome.Written?);
        case RefreshForWrite =>
          if !outcome.GotToken? {
            busy := false;
            return;
          }
          TakeToken(outcome.hasRefresh);
          Call(RetryReply);
        case RetryReply =>
          FinishWrite(outcome.Written?);
      }
    }

    /** A reply of one of the three sync calls. */
    method BlobReply(job: NetJob, outcome: Outcome)
      requires Lawful(vault.c) && CarriesBlob(job)
      modifies this, vault, model
      ensures Now() == OnBlobReply(vault.c, old(Now()), job, outcome, model.loc)
    {
      hide ControllerSpec.ApplySyncBlob, ControllerSpec.ApplyWriteSync;
      match job {
        case SyncAfterLogin =>
          if !outcome.GotBlob? {
            pendingSecrets := None;
            busy := false;
            phase := Login;
            return;
          }
          ApplySyncBlob(outcome.doc, true);
        case SyncReply =>
          if !outcome.GotBlob? {
            busy := false;
            return;
          }
          ApplySyncBlob(outcome.doc, false);
        case SyncAfterWrite =>
          busy := false;
          if !outcome.GotBlob? {
            return;
          }
          ApplyWriteSync(outcome.doc);
      }
    }

    /** A network call is no longer outstanding. */
    method Take(job: NetJob)
      modifies this`work
      ensures Now() == old(Now()).(work := old(work).(net := old(work).net - multiset{job}))
    {
      work := work.(net := work.net - multiset{job});
    }

    /** An outstanding network call completes. */
    method NetDone(job: NetJob, outcome: Outcome)
      requires Lawful(vault.c)
      modifies this, vault, model
      ensures Now() == OnNetDone(vault.c, old(Now()), job, outcome, model.loc)
    {
      hide OnPlainReply, OnBlobReply;
      if job !in work.net {
        return;
      }
      Take(job);
      if CarriesBlob(job) {
        BlobReply(job, outcome);
      } else {
        PlainReply(job, outcome);
      }
    }

    // ----- the event loop -----

    method HandleRequest(request: Request)
      modifies this, vault, model
      ensures Now() == OnRequest(old(Now()), request)
    {
      hide OnRequest;
      match request {
        case ConfigureAccount(email) => ConfigureAccount(email);
        case StartLogin => StartLogin();
        case SubmitTwoFactor => SubmitTwoFactor();
        case CancelLogin => CancelLogin();
        case Unlock => Unlock();
        case EnablePin(pin) => EnablePin(pin);
        case SyncNow => SyncNow();
        case SetLockOnMinimize(on) => SetLockOnMinimize(on);
      }
    }

    /** The PIN and locking slots. */
    method HandleLocking(e: Event)
      requires e.UnlockWithPin? || e.DisablePin? || e.SignOut? || e.Lock? || e.Minimised?
      modifies this, vault, model
      ensures Now() == Next(vault.c, old(Now()), e, model.loc)
    {
      hide OnUnlockWithPin, PinForgotten, SignedOut, LockNow, OnMinimised, OnRequest, OnActivity, OnSetAutoLock, OnTime,
           OnFilter, OnWrite, OnDeriveDone, OnPinDone, OnNetDone, Started;
      match e {
        case UnlockWithPin(pin) => UnlockWithPin(pin);
        case DisablePin => ForgetPin();
        case SignOut => SignOut();
        case Lock => Lock();
        case Minimised => HandleAppStateChanged();
      }
    }

    /** Settings of vault and list, activity and time. */
    method HandleChange(e: Event)
      requires e.Activity? || e.SetAutoLock? || e.TimePasses? || e.SetSearch? || e.SetFolder?
      modifies this, vault, model
      ensures Now() == Next(vault.c, old(Now()), e, model.loc)
    {
      hide OnUnlockWithPin, PinForgotten, SignedOut, LockNow, OnMinimised, OnRequest, OnActivity, OnSetAutoLock, OnTime,
           OnWrite, OnDeriveDone, OnPinDone, OnNetDone, Started, L.Step;
      match e {
        case Activity => NoteActivity();
        case SetAutoLock(minutes) => SetAutoLockMinutes(minutes);
        case TimePasses(ms) => TimePasses(ms);
        case SetSearch(query) => model.SetSearchQuery(query);
        case SetFolder(folder) => model.SetFolderFilter(folder);
      }
    }

    /** Every event but a restart, which ends this object. */
    method Dispatch(e: Event)
      requires Lawful(vault.c) && !e.Restart?
      modifies this, vault, model
      ensures Now() == Next(vault.c, old(Now()), e, model.loc)
    {
      hide OnUnlockWithPin, PinForgotten, SignedOut, LockNow, OnMinimised, OnRequest, OnActivity, OnSetAutoLock, OnTime,
           OnFilter, OnWrite, OnDeriveDone, OnPinDone, OnNetDone, Started;
      match e {
        case Asked(request) => HandleRequest(request);
        case WriteItem(write) => WriteItem(write);
        case DeriveDone(result) => DeriveDone(result);
        case PinDone(salt, iv) => PinDone(salt, iv);
        case NetDone(job, outcome) => NetDone(job, outcome);
        case Activity => HandleChange(e);
        case SetAutoLock(_) => HandleChange(e);
        case TimePasses(_) => HandleChange(e);
        case SetSearch(_) => HandleChange(e);
        case SetFolder(_) => HandleChange(e);
        case UnlockWithPin(_) => HandleLocking(e);
        case DisablePin => HandleLocking(e);
        case SignOut => HandleLocking(e);
        case Lock => HandleLocking(e);
        case Minimised => HandleLocking(e);
      }
    }

    /** One event: the object follows Next and stays valid, and so the unlocked page
        means an unlocked vault, a locked vault holds and shows nothing, an unlocked one
        is idle for less than its interval, and the PIN counter is 0..2. After a restart
        a new object goes on from what was stored. */
    method Handle(e: Event) returns (app: AppController)
      requires Lawful(vault.c) && Valid()
      modifies this, vault, model
      ensures app.vault.c == vault.c && app.model.loc == model.loc
      ensures if e.Restart? then fresh(app) && fresh(app.vault) && fresh(app.model) else app == this
      ensures app.Valid() && app.Now() == Next(vault.c, old(Now()), e, model.loc)
      ensures ControllerRuns.Safe(app.Now()) && 0 <= app.disk.pinFailures < MAX_PIN_FAILURES
    {
      hide Next, ControllerRuns.Inv, ControllerRuns.Safe, Started;
      ghost var s := Now();
      ControllerRuns.NextKeeps(vault.c, s, e, model.loc);
      ControllerRuns.InvIsSafe(vault.c, Next(vault.c, s, e, model.loc), model.loc);
      ControllerRuns.InvCounts(vault.c, Next(vault.c, s, e, model.loc), model.loc);
      if e.Restart? {
        ControllerRuns.RestartIs(vault.c, s, model.loc);
        app := new AppController(vault.c, model.loc, disk);
      } else {
        Dispatch(e);
        app := this;
      }
    }

    /** The application from its first start, over any sequence of events. */
    static method Play(c: Suite, loc: L.Locale, events: seq<Event>) returns (app: AppController)
      requires Lawful(c)
      ensures app.Valid() && app.Now() == Run(c, FirstStart(), events, loc) && ControllerRuns.Safe(app.Now())
    {
      hide Run, Next, ControllerRuns.Inv, ControllerRuns.Safe, Started;
      app := new AppController(c, loc, EMPTY_DISK);
      ControllerRuns.StartedKeeps(c, EMPTY_DISK, loc);
      var i := 0;
      assert events[0..] == events;
      while i < |events|
        invariant 0 <= i <= |events|
        invariant fresh(app) && fresh(app.vault) && fresh(app.model)
        invariant app.vault.c == c && app.model.loc == loc && app.Valid()
        invariant Run(c, app.Now(), events[i..], loc) == Run(c, FirstStart(), events, loc)
      {
        assert events[i..] == [events[i]] + events[i + 1..];
        ControllerRuns.OneStep(c, app.Now(), events[i], events[i + 1..], loc);
        app := app.Handle(events[i]);
        i := i + 1;
      }
      assert events[i..] == [];
      ControllerRuns.NoStep(c, app.Now(), loc);
      ControllerRuns.InvIsSafe(c, app.Now(), loc);
    }
  }

  lemma NotifiedStep(s: State, log: seq<V.LockedChanged>, i: nat, loc: L.Locale)
    requires i < |log|
    ensures Notified(s, Since(log, i), loc) == Notified(OnLockedChanged(s, log[i], loc), Since(log, i + 1), loc)
  {
    hide OnLockedChanged;
    assert log[i..][1..] == log[i + 1..];
  }

  lemma NotifiedEnd(s: State, log: seq<V.LockedChanged>, i: nat, loc: L.Locale)
    requires i >= |log|
    ensures Notified(s, Since(log, i), loc) == s
  {
  }
}
