/** The application controller as atomic steps over a value: a user action, one
    completion of an outstanding job, time passing, the app being minimised, a
    restart. Each network call is an outstanding job completed with any outcome;
    derivation and PIN work run on one worker each until their result is delivered. */
module ControllerSpec {
  import opened Words
  import opened Wrappers
  import opened Json
  import CipherItem
  import opened CryptoSuite
  import V = VaultSpec
  import E = VaultEdit
  import L = ListModel
  import PinWrap

  const MAX_PIN_FAILURES := 3
  const MIN_PIN_LENGTH := 4

  datatype Phase = Setup | Login | TwoFactor | Locked | Unlocked

  /** A sync response; None: not a JSON object. */
  type Blob = Option<Object>

  datatype DeriveJob = ForLogin | ForUnlock | ForEnablePin(pin: string)

  datatype PinJob =
    | WrapJob(masterKey: bytes, pin: string)
    | UnwrapJob(wrapped: PinWrap.PinWrappedKey, pin: string)

  datatype NetJob =
    | Prelogin | LoginReply | TwoFactorReply | SyncAfterLogin
    | RefreshForSync | SyncReply
    | WriteReply | RefreshForWrite | RetryReply | SyncAfterWrite

  /** Settings and files: kept across restarts. */
  datatype Disk = Disk(
    email: string,
    kdfIterations: nat,
    blob: Option<Blob>,
    pinText: Option<string>,
    pinFailures: int,
    refreshToken: bool,
    autoLockMinutes: int,
    lockOnMinimize: bool)

  const EMPTY_DISK := Disk("", 0, None, None, 0, false, 5, true)

  /** Jobs whose result has not been delivered. */
  datatype Work = Work(derive: Option<DeriveJob>, pin: Option<PinJob>, net: multiset<NetJob>)

  const NO_WORK := Work(None, None, multiset{})

  datatype State = State(
    disk: Disk,
    accessToken: bool,
    refreshToken: bool,
    pendingSecrets: Option<bytes>,
    pendingHash: bool,
    work: Work,
    phase: Phase,
    busy: bool,
    vault: V.State,
    list: L.State)

  // ----- the vault and its listeners -----

  /** The slots connected to lockedChanged: the list refreshes, then an unlocked
      controller follows a locking vault. */
  function OnLockedChanged(s: State, x: V.LockedChanged, loc: L.Locale): State {
    s.(list := L.Step(s.list, L.Refreshed(x.items), loc),
       phase := if x.locked && s.phase == Unlocked then Locked else s.phase)
  }

  function Notified(s: State, signals: seq<V.LockedChanged>, loc: L.Locale): State
    decreases |signals|
  {
    if signals == [] then s else Notified(OnLockedChanged(s, signals[0], loc), signals[1..], loc)
  }

  /** The signals emitted since the log was `mark` long. */
  function Since(log: seq<V.LockedChanged>, mark: nat): seq<V.LockedChanged> {
    if mark <= |log| then log[mark..] else []
  }

  /** The vault has moved to v; its listeners have run. */
  function WithVault(s: State, v: V.State, loc: L.Locale): State {
    Notified(s.(vault := v), Since(v.emitted, |s.vault.emitted|), loc)
  }

  /** m_model.refresh(). */
  function RefreshList(s: State, loc: L.Locale): State {
    s.(list := L.Step(s.list, L.Refreshed(s.vault.items), loc))
  }

  // ----- shared pieces -----

  /** deriveAsync. */
  function StartDerive(s: State, job: DeriveJob): State {
    if s.work.derive.Some? then s else s.(work := s.work.(derive := Some(job)))
  }

  /** runPinWorker. */
  function StartPinJob(s: State, job: PinJob): State {
    if s.work.pin.Some? then s else s.(work := s.work.(pin := Some(job)))
  }

  function StartNet(s: State, job: NetJob): State {
    s.(work := s.work.(net := s.work.net + multiset{job}))
  }

  function PinForgotten(s: State): State {
    s.(disk := s.disk.(pinText := None, pinFailures := 0))
  }

  function WithPinFailures(s: State, n: int): State {
    s.(disk := s.disk.(pinFailures := n))
  }

  /** unlockWithMasterKey, and what every unlock path does when it succeeds. */
  ghost function TryUnlock(c: Suite, s: State, masterKey: bytes, loc: L.Locale): (State, bool) {
    var (v, r) := V.Unlock(c, s.vault, masterKey);
    var t := WithVault(s, v, loc);
    if r.Ok? then (RefreshList(t, loc).(phase := Unlocked), true) else (t, false)
  }

  /** reloadSync with the list refreshed when it succeeds and the interface locked
      when it does not. */
  ghost function Reload(c: Suite, s: State, doc: Blob, loc: L.Locale): State {
    var (v, r) := V.ReloadSync(c, s.vault, doc);
    var t := WithVault(s, v, loc);
    if r.Ok? then RefreshList(t, loc) else t.(phase := Locked)
  }

  function Stored(s: State, doc: Blob): State {
    s.(disk := s.disk.(blob := Some(doc)))
  }

  /** After the blob is loaded: unlock with the key derived during login, if any. */
  ghost function FinishFreshLogin(c: Suite, t: State, freshLogin: bool, loc: L.Locale): State {
    if freshLogin && t.pendingSecrets.Some? then
      var (u, ok) := TryUnlock(c, t.(pendingSecrets := None), t.pendingSecrets.value, loc);
      if ok then u else u.(phase := Locked)
    else t.(phase := Locked)
  }

  /** A locked vault takes the blob, and a fresh login unlocks it. */
  ghost function LoadBlob(c: Suite, s: State, doc: Blob, freshLogin: bool, loc: L.Locale): State {
    var (v, r) := V.LoadSync(s.vault, doc);
    var t := WithVault(s, v, loc);
    if r.Err? then t else FinishFreshLogin(c, t, freshLogin, loc)
  }

  ghost function ApplySyncBlob(c: Suite, s: State, doc: Blob, freshLogin: bool, loc: L.Locale): State {
    var t := Stored(s, doc);
    (if t.vault.locked then LoadBlob(c, t, doc, freshLogin, loc) else Reload(c, t, doc, loc)).(busy := false)
  }

  ghost function ApplyWriteSync(c: Suite, s: State, doc: Blob, loc: L.Locale): State {
    Reload(c, Stored(s, doc), doc, loc)
  }

  function LockNow(s: State, loc: L.Locale): State {
    var t := WithVault(s, V.Locked(s.vault), loc);
    t.(phase := if t.disk.blob.Some? || !t.vault.locked then Locked else Login)
  }

  function SignedOut(s: State, loc: L.Locale): State {
    var t := WithVault(s, V.Locked(s.vault), loc);
    PinForgotten(t.(accessToken := false, refreshToken := false, phase := Login,
                    disk := t.disk.(refreshToken := false, blob := None)))
  }

  function FinishLogin(s: State, hasRefresh: bool): State {
    StartNet(s.(accessToken := true, refreshToken := hasRefresh, pendingHash := false,
                disk := s.disk.(refreshToken := hasRefresh)), SyncAfterLogin)
  }

  /** A refreshed token; a new refresh token replaces the old one if there is one. */
  function GotRefreshed(s: State, hasRefresh: bool): State {
    s.(accessToken := true, refreshToken := s.refreshToken || hasRefresh,
       disk := s.disk.(refreshToken := s.disk.refreshToken || hasRefresh))
  }

  function RefreshThenWrite(s: State): State {
    if !s.refreshToken then s.(busy := false) else StartNet(s, RefreshForWrite)
  }

  /** finishWrite with a successful result or a failed one. */
  function FinishWrite(s: State, ok: bool): State {
    if ok then StartNet(s, SyncAfterWrite) else s.(busy := false)
  }

  /** writeAndResync. */
  function WriteAndResync(s: State): State {
    if !s.accessToken then RefreshThenWrite(s) else StartNet(s, WriteReply)
  }

  // ----- events -----

  datatype Outcome =
    | Failed
    | Unauthorized                      // 401 or 403
    | SecondFactor                      // the server asks for a code
    | GotKdf(iterations: nat)
    | GotToken(hasRefresh: bool)
    | GotBlob(doc: Blob)
    | Written

  datatype Write =
    | Create(kind: CipherItem.CipherType, f: E.Entered, v: E.Ivs)
    | Save(itemId: string, f: E.Entered, v: E.Ivs)
    | Delete

  /** What only starts work or changes a setting. */
  datatype Request =
    | ConfigureAccount(email: string)
    | StartLogin
    | SubmitTwoFactor
    | CancelLogin
    | Unlock
    | EnablePin(pin: string)
    | SyncNow
    | SetLockOnMinimize(on: bool)

  datatype Event =
    | Asked(request: Request)
    | UnlockWithPin(pin: string)
    | DisablePin
    | SignOut
    | Lock
    | Minimised
    | Activity
    | SetAutoLock(minutes: int)
    | TimePasses(ms: nat)
    | SetSearch(query: string)
    | SetFolder(folder: string)
    | WriteItem(write: Write)
    | DeriveDone(result: Result<bytes>)
    | PinDone(salt: bytes, iv: bytes)
    | NetDone(job: NetJob, outcome: Outcome)
    | Restart

  function OnUnlock(s: State): State {
    if s.vault.locked && s.disk.blob.None? then s
    else if s.disk.kdfIterations == 0 then s.(phase := Login)
    else StartDerive(s.(busy := true), ForUnlock)
  }

  function OnEnablePin(s: State, pin: string): State {
    if |pin| < MIN_PIN_LENGTH || s.disk.blob.None? || s.disk.kdfIterations == 0 then s
    else StartDerive(s.(busy := true), ForEnablePin(pin))
  }

  function OnRequest(s: State, request: Request): State {
    match request
    case ConfigureAccount(email) => s.(disk := s.disk.(email := email), phase := Login)
    case StartLogin => if s.disk.email == "" then s else StartNet(s.(busy := true), Prelogin)
    case SubmitTwoFactor =>
      if s.pendingSecrets.None? || !s.pendingHash then s else StartNet(s.(busy := true), TwoFactorReply)
    case CancelLogin => s.(pendingSecrets := None, pendingHash := false, busy := false, phase := Login)
    case Unlock => OnUnlock(s)
    case EnablePin(pin) => OnEnablePin(s, pin)
    case SyncNow => if !s.refreshToken then s else StartNet(s.(busy := true), RefreshForSync)
    case SetLockOnMinimize(on) => s.(disk := s.disk.(lockOnMinimize := on))
  }

  ghost function OnUnlockWithPin(s: State, pin: string): State {
    if s.disk.pinText.None? || s.disk.blob.None? then s
    else
      match PinWrap.Parsed(s.disk.pinText.value)
      case Err(_) => PinForgotten(s)
      case Ok(w) => StartPinJob(s.(busy := true), UnwrapJob(w, pin))
  }

  function OnMinimised(s: State, loc: L.Locale): State {
    if s.disk.lockOnMinimize && !s.vault.locked then LockNow(s, loc) else s
  }

  function OnActivity(s: State): State {
    s.(vault := V.NoteActivity(s.vault))
  }

  function OnSetAutoLock(s: State, minutes: int): State {
    s.(disk := s.disk.(autoLockMinutes := minutes), vault := V.SetAutoLock(s.vault, minutes * 60))
  }

  function OnTime(s: State, ms: nat, loc: L.Locale): State {
    WithVault(s, V.Advance(s.vault, ms), loc)
  }

  function OnFilter(s: State, e: L.Event, loc: L.Locale): State {
    s.(list := L.Step(s.list, e, loc))
  }

  ghost predicate BodyExists(c: Suite, s: State, write: Write) {
    match write
    case Create(kind, f, v) => E.BuiltCreate(c, s.vault, kind, f, v).Ok?
    case Save(itemId, f, v) => E.BuiltUpdate(c, s.vault, itemId, f, v).Ok?
    case Delete => true
  }

  /** createItem, saveItem, deleteItem. */
  ghost function OnWrite(c: Suite, s: State, write: Write): State {
    if s.phase != Unlocked || !BodyExists(c, s, write) then s
    else WriteAndResync(OnActivity(s).(busy := true))
  }

  ghost function OnDeriveDone(c: Suite, s: State, result: Result<bytes>, loc: L.Locale): State {
    if s.work.derive.None? then s
    else
      var t := s.(work := s.work.(derive := None));
      if result.Err? then t.(busy := false)
      else
        match s.work.derive.value
        case ForLogin => StartNet(t.(pendingSecrets := Some(result.value)), LoginReply)
        case ForUnlock => TryUnlock(c, t.(busy := false), result.value, loc).0
        case ForEnablePin(pin) =>
          if !V.VerifiesMasterKey(c, t.vault, result.value) then t.(busy := false)
          else StartPinJob(t, WrapJob(result.value, pin))
  }

  /** A wrong PIN counts; the third one in a row deletes the wrapped key. */
  function WrongPin(s: State): State {
    if s.disk.pinFailures + 1 >= MAX_PIN_FAILURES then PinForgotten(s)
    else WithPinFailures(s, s.disk.pinFailures + 1)
  }

  /** enablePin's last callback. */
  function OnWrapped(t: State, r: Result<string>): State {
    match r
    case Err(_) => t
    case Ok(text) => t.(disk := t.disk.(pinText := Some(text), pinFailures := 0))
  }

  /** unlockWithPin's last callback. */
  ghost function OnUnwrapped(c: Suite, t: State, r: Result<bytes>, loc: L.Locale): State {
    match r
    case Err(_) => WrongPin(t)
    case Ok(masterKey) =>
      var (u, ok) := TryUnlock(c, t, masterKey, loc);
      if ok then WithPinFailures(u, 0) else PinForgotten(u)
  }

  /** What the wrap worker returns. */
  ghost function WrapResult(c: Suite, masterKey: bytes, pin: string, salt: bytes, iv: bytes): Result<string> {
    var w :- PinWrap.Wrapped(c, masterKey, c.toUtf8(pin), salt, iv);
    Ok(PinWrap.Text(w))
  }

  ghost function OnPinDone(c: Suite, s: State, salt: bytes, iv: bytes, loc: L.Locale): State {
    if s.work.pin.None? then s
    else
      var t := s.(work := s.work.(pin := None), busy := false);
      match s.work.pin.value
      case WrapJob(masterKey, pin) => OnWrapped(t, WrapResult(c, masterKey, pin, salt, iv))
      case UnwrapJob(w, pin) => OnUnwrapped(c, t, PinWrap.Unwrapped(c, w, c.toUtf8(pin)), loc)
  }

  function OnPrelogin(t: State, outcome: Outcome): State {
    if outcome.GotKdf? then StartDerive(t.(disk := t.disk.(kdfIterations := outcome.iterations)), ForLogin)
    else t.(busy := false)
  }

  function OnLoginReply(t: State, outcome: Outcome): State {
    if outcome.GotToken? then FinishLogin(t, outcome.hasRefresh)
    else if outcome.SecondFactor? then t.(pendingHash := t.pendingSecrets.Some?, busy := false, phase := TwoFactor)
    else t.(pendingSecrets := None, busy := false)
  }

  function OnTwoFactorReply(t: State, outcome: Outcome): State {
    if outcome.GotToken? then FinishLogin(t, outcome.hasRefresh) else t.(busy := false)
  }

  function OnRefreshForSync(t: State, outcome: Outcome): State {
    if outcome.GotToken? then StartNet(GotRefreshed(t, outcome.hasRefresh), SyncReply)
    else t.(busy := false, refreshToken := false, disk := t.disk.(refreshToken := false),
            phase := if t.vault.locked then Login else t.phase)
  }

  function OnRefreshForWrite(t: State, outcome: Outcome): State {
    if outcome.GotToken? then StartNet(GotRefreshed(t, outcome.hasRefresh), RetryReply) else t.(busy := false)
  }

  function OnWriteReply(t: State, outcome: Outcome): State {
    if outcome.Unauthorized? then RefreshThenWrite(t) else FinishWrite(t, outcome.Written?)
  }

  /** The replies that carry no vault data. */
  function OnPlainReply(t: State, job: NetJob, outcome: Outcome): State {
    match job
    case Prelogin => OnPrelogin(t, outcome)
    case LoginReply => OnLoginReply(t, outcome)
    case TwoFactorReply => OnTwoFactorReply(t, outcome)
    case RefreshForSync => OnRefreshForSync(t, outcome)
    case WriteReply => OnWriteReply(t, outcome)
    case RefreshForWrite => OnRefreshForWrite(t, outcome)
    case _ => FinishWrite(t, outcome.Written?)
  }

  predicate CarriesBlob(job: NetJob) {
    job.SyncAfterLogin? || job.SyncReply? || job.SyncAfterWrite?
  }

  /** The replies of the three sync calls. */
  ghost function OnBlobReply(c: Suite, t: State, job: NetJob, outcome: Outcome, loc: L.Locale): State {
    if !outcome.GotBlob? then
      if job.SyncAfterLogin? then t.(pendingSecrets := None, busy := false, phase := Login) else t.(busy := false)
    else if job.SyncAfterWrite? then ApplyWriteSync(c, t.(busy := false), outcome.doc, loc)
    else ApplySyncBlob(c, t, outcome.doc, job.SyncAfterLogin?, loc)
  }

  ghost function OnNetDone(c: Suite, s: State, job: NetJob, outcome: Outcome, loc: L.Locale): State {
    if job !in s.work.net then s
    else
      var t := s.(work := s.work.(net := s.work.net - multiset{job}));
      if CarriesBlob(job) then OnBlobReply(c, t, job, outcome, loc) else OnPlainReply(t, job, outcome)
  }

  /** The constructor, over what was stored. */
  function Started(disk: Disk): State {
    var v := V.SetAutoLock(V.INITIAL, disk.autoLockMinutes * 60);
    var t := State(disk, false, disk.refreshToken, None, false, NO_WORK, Setup, false, v, L.INITIAL);
    if disk.email == "" then t
    else if disk.blob.None? then t.(phase := Login)
    else
      var (w, r) := V.LoadSync(v, disk.blob.value);
      t.(vault := w, phase := if r.Ok? then Locked else Login)
  }

  ghost function Next(c: Suite, s: State, e: Event, loc: L.Locale): State {
    match e
    case Asked(request) => OnRequest(s, request)
    case UnlockWithPin(pin) => OnUnlockWithPin(s, pin)
    case DisablePin => PinForgotten(s)
    case SignOut => SignedOut(s, loc)
    case Lock => LockNow(s, loc)
    case Minimised => OnMinimised(s, loc)
    case Activity => OnActivity(s)
    case SetAutoLock(minutes) => OnSetAutoLock(s, minutes)
    case TimePasses(ms) => OnTime(s, ms, loc)
    case SetSearch(query) => OnFilter(s, L.Searched(query), loc)
    case SetFolder(folder) => OnFilter(s, L.Foldered(folder), loc)
    case WriteItem(write) => OnWrite(c, s, write)
    case DeriveDone(result) => OnDeriveDone(c, s, result, loc)
    case PinDone(salt, iv) => OnPinDone(c, s, salt, iv, loc)
    case NetDone(job, outcome) => OnNetDone(c, s, job, outcome, loc)
    case Restart => Started(s.disk)
  }

  ghost function Run(c: Suite, s: State, events: seq<Event>, loc: L.Locale): State
    decreases |events|
  {
    if events == [] then s else Run(c, Next(c, s, events[0], loc), events[1..], loc)
  }

  /** The first start, with nothing stored. */
  function FirstStart(): State {
    Started(EMPTY_DISK)
  }
}
