/** When the page and the vault disagree: exactly which steps leave a page other than
    the unlocked one over a vault that is still open, and runs that get there. */
module ControllerPages {
  import opened Words
  import opened Wrappers
  import opened Json
  import opened CryptoSuite
  import SyncParser
  import V = VaultSpec
  import VR = VaultRuns
  import L = ListModel
  import Accounts
  import opened ControllerSpec
  import opened ControllerRuns

  // ----- the exact list of steps -----

  /** One of these pages is shown over an open vault. */
  predicate Over(s: State, pages: set<Phase>) {
    !s.vault.locked && s.phase in pages
  }

  const NOT_UNLOCKED: set<Phase> := {Setup, Login, TwoFactor, Locked}

  /** The job completes with a document that does not parse. */
  predicate BadBlob(job: NetJob, outcome: Outcome) {
    CarriesBlob(job) && outcome.GotBlob? && SyncParser.ParsedSync(outcome.doc).Err?
  }

  /** The steps that turn away from an open vault without locking it. */
  predicate LeavesOpen(s: State, e: Event) {
    !s.vault.locked &&
    match e
    case Asked(request) =>
      request.ConfigureAccount? || request.CancelLogin? || (request.Unlock? && s.disk.kdfIterations == 0)
    case NetDone(job, outcome) =>
      job in s.work.net &&
      (|| (job.LoginReply? && outcome.SecondFactor?)
       || (job.SyncAfterLogin? && !outcome.GotBlob?)
       || BadBlob(job, outcome))
    case _ => false
  }

  /** The page they show. */
  function LeavingPage(e: Event): Phase {
    if e.NetDone? && BadBlob(e.job, e.outcome) then Locked
    else if e.NetDone? && e.job.LoginReply? then TwoFactor
    else Login
  }

  /** The page fits the vault, or neither has changed. */
  predicate Settles(s: State, t: State) {
    t.vault.locked || t.phase == Unlocked || (t.phase == s.phase && t.vault.locked == s.vault.locked)
  }

  // ----- handler by handler -----

  lemma MovedVault(c: Suite, s: State, v: V.State, loc: L.Locale)
    requires Inv(c, s, loc) && VR.Inv(c, v) && Announced(s.vault, v)
    ensures WithVault(s, v, loc).vault == v
  {
    hide Inv, VR.Inv, Announced, WithVault;
    VaultMoves(c, s, v, loc);
  }

  lemma OpenHasKey(c: Suite, s: State, loc: L.Locale)
    requires Inv(c, s, loc) && !s.vault.locked
    ensures s.vault.data.profileKey != ""
  {
  }

  /** Unlocking either opens the unlocked page or ends with a locked vault. */
  lemma TryUnlockSettles(c: Suite, s: State, masterKey: bytes, loc: L.Locale)
    requires Inv(c, s, loc)
    ensures var (t, ok) := TryUnlock(c, s, masterKey, loc); if ok then t.phase == Unlocked else t.vault.locked
  {
    hide Inv, WithVault, V.Unlock, RefreshList, VR.Inv;
    InvVault(c, s, loc);
    UnlockAnnounced(c, s.vault, masterKey);
    MovedVault(c, s, V.Unlock(c, s.vault, masterKey).0, loc);
    FailedUnlockLocks(c, s, masterKey, loc);
  }

  lemma InvVault(c: Suite, s: State, loc: L.Locale)
    requires Inv(c, s, loc)
    ensures VR.Inv(c, s.vault)
  {
  }

  lemma FailedUnlockLocks(c: Suite, s: State, masterKey: bytes, loc: L.Locale)
    requires Inv(c, s, loc)
    ensures V.Unlock(c, s.vault, masterKey).1.Err? ==> V.Unlock(c, s.vault, masterKey).0.locked
  {
    hide Inv, V.Rebuilt, V.UserKeyOf;
    if !s.vault.locked {
      OpenHasKey(c, s, loc);
    }
  }

  /** A reload that does not parse over an open vault changes nothing but the page. */
  lemma ReloadPage(c: Suite, s: State, doc: Blob, loc: L.Locale)
    requires Inv(c, s, loc)
    ensures var t := Reload(c, s, doc, loc);
            if !s.vault.locked && SyncParser.ParsedSync(doc).Err? then t.vault == s.vault && t.phase == Locked
            else Settles(s, t)
  {
    hide Inv, VR.Inv, V.ReloadSync, WithVault, Announced, RefreshList;
    InvVault(c, s, loc);
    ReloadCases(c, s.vault, doc);
    ReloadOutcome(c, s.vault, doc);
    var (v, r) := V.ReloadSync(c, s.vault, doc);
    if r.Ok? {
      QuietSignals(s, v, loc);
      RefreshMoves(s.(vault := v), loc);
    } else {
      MovedVault(c, s, v, loc);
    }
  }

  lemma ReloadCases(c: Suite, v: V.State, doc: Blob)
    ensures var (w, r) := V.ReloadSync(c, v, doc);
            && (!v.locked && SyncParser.ParsedSync(doc).Err? ==> r.Err? && w == v)
            && (r.Err? && !(!v.locked && SyncParser.ParsedSync(doc).Err?) ==> w.locked)
  {
    hide V.Rebuilt, SyncParser.ParsedSync;
  }

  lemma LoadSettles(c: Suite, s: State, doc: Blob, loc: L.Locale)
    requires Inv(c, s, loc) && s.vault.locked
    ensures WithVault(s, V.LoadSync(s.vault, doc).0, loc) == s.(vault := V.LoadSync(s.vault, doc).0)
    ensures V.LoadSync(s.vault, doc).0.locked
  {
    hide Inv, WithVault, SyncParser.ParsedSync;
    QuietSignals(s, V.LoadSync(s.vault, doc).0, loc);
  }

  lemma FreshLoginSettles(c: Suite, t: State, freshLogin: bool, loc: L.Locale)
    requires Inv(c, t, loc) && t.vault.locked
    ensures var u := FinishFreshLogin(c, t, freshLogin, loc); u.vault.locked || u.phase == Unlocked
  {
    hide Inv, TryUnlock;
    if freshLogin && t.pendingSecrets.Some? {
      var u := t.(pendingSecrets := None);
      QuietKeeps(c, t, u, loc);
      TryUnlockSettles(c, u, t.pendingSecrets.value, loc);
    }
  }

  lemma ApplySyncPage(c: Suite, s: State, doc: Blob, freshLogin: bool, loc: L.Locale)
    requires Inv(c, s, loc)
    ensures var t := ApplySyncBlob(c, s, doc, freshLogin, loc);
            if !s.vault.locked && SyncParser.ParsedSync(doc).Err? then t.vault == s.vault && t.phase == Locked
            else Settles(s, t)
  {
    hide Inv, Reload, LoadBlob;
    var t := Stored(s, doc);
    QuietKeeps(c, s, t, loc);
    if t.vault.locked {
      LoadBlobSettles(c, t, doc, freshLogin, loc);
    } else {
      ReloadPage(c, t, doc, loc);
    }
  }

  lemma LoadBlobSettles(c: Suite, s: State, doc: Blob, freshLogin: bool, loc: L.Locale)
    requires Inv(c, s, loc) && s.vault.locked
    ensures var u := LoadBlob(c, s, doc, freshLogin, loc); u.vault.locked || u.phase == Unlocked
  {
    hide Inv, WithVault, V.LoadSync, FinishFreshLogin;
    LoadSettles(c, s, doc, loc);
    LoadKeeps(c, s, doc, loc);
    FreshLoginSettles(c, WithVault(s, V.LoadSync(s.vault, doc).0, loc), freshLogin, loc);
  }

  lemma BlobReplyPage(c: Suite, s: State, job: NetJob, outcome: Outcome, loc: L.Locale)
    requires Inv(c, s, loc) && CarriesBlob(job)
    ensures var t := OnBlobReply(c, s, job, outcome, loc);
            if !s.vault.locked && BadBlob(job, outcome) then t.vault == s.vault && t.phase == Locked
            else if !s.vault.locked && job.SyncAfterLogin? && !outcome.GotBlob? then t.vault == s.vault && t.phase == Login
            else Settles(s, t)
  {
    hide Inv, ApplySyncBlob, ApplyWriteSync;
    if outcome.GotBlob? {
      if job.SyncAfterWrite? {
        QuietKeeps(c, s, s.(busy := false), loc);
        ApplyWritePage(c, s.(busy := false), outcome.doc, loc);
      } else {
        ApplySyncPage(c, s, outcome.doc, job.SyncAfterLogin?, loc);
      }
    }
  }

  lemma ApplyWritePage(c: Suite, s: State, doc: Blob, loc: L.Locale)
    requires Inv(c, s, loc)
    ensures var t := ApplyWriteSync(c, s, doc, loc);
            if !s.vault.locked && SyncParser.ParsedSync(doc).Err? then t.vault == s.vault && t.phase == Locked
            else Settles(s, t)
  {
    hide Inv, Reload;
    QuietKeeps(c, s, Stored(s, doc), loc);
    ReloadPage(c, Stored(s, doc), doc, loc);
  }

  lemma PlainReplyPage(s: State, job: NetJob, outcome: Outcome)
    requires !CarriesBlob(job)
    ensures var t := OnPlainReply(s, job, outcome);
            && t.vault == s.vault
            && (if !s.vault.locked && job.LoginReply? && outcome.SecondFactor? then t.phase == TwoFactor
                else Settles(s, t))
  {
    hide OnPrelogin, OnLoginReply, OnTwoFactorReply, OnRefreshForSync, OnWriteReply, OnRefreshForWrite, FinishWrite,
         Settles;
    if job.LoginReply? {
      LoginReplyPage(s, outcome);
    } else {
      OtherReplyPage(s, outcome);
    }
  }

  lemma LoginReplyPage(s: State, outcome: Outcome)
    ensures var t := OnLoginReply(s, outcome);
            && t.vault == s.vault
            && (if !s.vault.locked && outcome.SecondFactor? then t.phase == TwoFactor else Settles(s, t))
  {
  }

  lemma OtherReplyPage(s: State, outcome: Outcome)
    ensures forall t :: t in [OnPrelogin(s, outcome), OnTwoFactorReply(s, outcome), OnRefreshForSync(s, outcome),
                              OnWriteReply(s, outcome), OnRefreshForWrite(s, outcome), FinishWrite(s, outcome.Written?)]
              ==> t.vault == s.vault && Settles(s, t)
  {
  }

  lemma NetDonePage(c: Suite, s: State, job: NetJob, outcome: Outcome, loc: L.Locale)
    requires Inv(c, s, loc)
    ensures StepPage(s, NetDone(job, outcome), OnNetDone(c, s, job, outcome, loc))
  {
    hide Inv, OnBlobReply, OnPlainReply;
    if job in s.work.net {
      var t := s.(work := s.work.(net := s.work.net - multiset{job}));
      QuietKeeps(c, s, t, loc);
      if CarriesBlob(job) {
        BlobReplyPage(c, t, job, outcome, loc);
      } else {
        PlainReplyPage(t, job, outcome);
      }
    }
  }

  /** What a step may do to page and vault. */
  predicate StepPage(s: State, e: Event, t: State) {
    if LeavesOpen(s, e) then t.vault == s.vault && t.phase == LeavingPage(e) else Settles(s, t)
  }

  lemma RequestPage(s: State, request: Request)
    ensures StepPage(s, Asked(request), OnRequest(s, request))
  {
  }

  lemma DeriveDonePage(c: Suite, s: State, result: Result<bytes>, loc: L.Locale)
    requires Inv(c, s, loc)
    ensures Settles(s, OnDeriveDone(c, s, result, loc))
  {
    hide Inv, TryUnlock, V.VerifiesMasterKey;
    if s.work.derive.Some? && s.work.derive.value.ForUnlock? && result.Ok? {
      var t := s.(work := s.work.(derive := None), busy := false);
      QuietKeeps(c, s, t, loc);
      TryUnlockSettles(c, t, result.value, loc);
    }
  }

  lemma PinDonePage(c: Suite, s: State, salt: bytes, iv: bytes, loc: L.Locale)
    requires Inv(c, s, loc)
    ensures Settles(s, OnPinDone(c, s, salt, iv, loc))
  {
    hide Inv, TryUnlock, WrapResult, PinWrap.Unwrapped;
    if s.work.pin.Some? && s.work.pin.value.UnwrapJob? {
      var t := s.(work := s.work.(pin := None), busy := false);
      QuietKeeps(c, s, t, loc);
      var r := PinWrap.Unwrapped(c, s.work.pin.value.wrapped, c.toUtf8(s.work.pin.value.pin));
      if r.Ok? {
        TryUnlockSettles(c, t, r.value, loc);
      }
    }
  }

  lemma LockingPage(c: Suite, s: State, loc: L.Locale)
    requires Inv(c, s, loc)
    ensures LockNow(s, loc).vault.locked && SignedOut(s, loc).vault.locked
  {
    hide Inv, VR.Inv, Announced, WithVault, V.Locked;
    InvVault(c, s, loc);
    LockAnnounced(c, s.vault);
    MovedVault(c, s, V.Locked(s.vault), loc);
  }

  lemma TimePage(c: Suite, s: State, ms: nat, loc: L.Locale)
    requires Inv(c, s, loc)
    ensures Settles(s, OnTime(s, ms, loc))
  {
    hide Inv, VR.Inv, Announced, WithVault, V.Locked;
    InvVault(c, s, loc);
    AdvanceAnnounced(c, s.vault, ms);
    LockAnnounced(c, s.vault);
    var v := V.Advance(s.vault, ms);
    MovedVault(c, s, v, loc);
    if !v.locked {
      QuietSignals(s, v, loc);
    }
  }

  lemma StartedPage(disk: Disk)
    ensures Started(disk).vault.locked
  {
    hide SyncParser.ParsedSync;
  }

  lemma WritePage(c: Suite, s: State, write: Write)
    ensures Settles(s, OnWrite(c, s, write))
  {
    hide BodyExists;
  }

  lemma UnlockWithPinPage(s: State, pin: string)
    ensures Settles(s, OnUnlockWithPin(s, pin))
  {
    hide PinWrap.Parsed;
  }

  lemma VaultTouched(s: State, minutes: int)
    ensures Settles(s, OnActivity(s)) && Settles(s, OnSetAutoLock(s, minutes))
  {
  }

  lemma NextPage(c: Suite, s: State, e: Event, loc: L.Locale)
    requires Inv(c, s, loc)
    ensures StepPage(s, e, Next(c, s, e, loc))
  {
    hide Inv, OnRequest, OnUnlockWithPin, SignedOut, LockNow, OnActivity, OnSetAutoLock, OnTime, OnWrite, OnDeriveDone,
         OnPinDone, OnNetDone, Started, L.Step, BadBlob;
    match e
    case Asked(request) => RequestPage(s, request);
    case UnlockWithPin(pin) => UnlockWithPinPage(s, pin);
    case DisablePin =>
    case SignOut => LockingPage(c, s, loc);
    case Lock => LockingPage(c, s, loc);
    case Minimised => LockingPage(c, s, loc);
    case Activity => VaultTouched(s, 0);
    case SetAutoLock(minutes) => VaultTouched(s, minutes);
    case TimePasses(ms) => TimePage(c, s, ms, loc);
    case SetSearch(_) =>
    case SetFolder(_) =>
    case WriteItem(write) => WritePage(c, s, write);
    case DeriveDone(result) => DeriveDonePage(c, s, result, loc);
    case PinDone(salt, iv) => PinDonePage(c, s, salt, iv, loc);
    case NetDone(job, outcome) => NetDonePage(c, s, job, outcome, loc);
    case Restart => StartedPage(s.disk);
  }

  // ----- the theorems -----

  /** For any choice of pages other than the unlocked one: a step first shows one of them
      over an open vault exactly if it is one of the listed steps and shows that page;
      the vault is then exactly as before. */
  lemma PageExactly(c: Suite, s: State, e: Event, pages: set<Phase>, loc: L.Locale)
    requires Inv(c, s, loc) && Unlocked !in pages && !Over(s, pages)
    ensures Over(Next(c, s, e, loc), pages) <==> LeavesOpen(s, e) && LeavingPage(e) in pages
    ensures LeavesOpen(s, e) ==> Next(c, s, e, loc).vault == s.vault
  {
    hide Inv, Next, LeavingPage;
    NextPage(c, s, e, loc);
    if LeavesOpen(s, e) {
      assert !s.vault.locked;
    }
  }

  /** The lock page in particular: it covers an open vault exactly after an outstanding
      sync call has delivered a document that does not parse. */
  lemma LockPageExactly(c: Suite, s: State, e: Event, loc: L.Locale)
    requires Inv(c, s, loc) && (s.phase == Locked ==> s.vault.locked)
    ensures var t := Next(c, s, e, loc);
            t.phase == Locked && !t.vault.locked <==>
            && e.NetDone? && e.job in s.work.net && CarriesBlob(e.job) && e.outcome.GotBlob?
            && !s.vault.locked && SyncParser.ParsedSync(e.outcome.doc).Err?
  {
    hide Inv, Next, SyncParser.ParsedSync;
    PageExactly(c, s, e, {Locked}, loc);
  }

  /** At some point of the run one of the pages is shown over an open vault. */
  ghost predicate EverOver(c: Suite, s: State, events: seq<Event>, pages: set<Phase>, loc: L.Locale)
    decreases |events|
  {
    Over(s, pages) || (events != [] && EverOver(c, Next(c, s, events[0], loc), events[1..], pages, loc))
  }

  /** At some point of the run one of the listed steps is taken to one of the pages. */
  ghost predicate EverLeaves(c: Suite, s: State, events: seq<Event>, pages: set<Phase>, loc: L.Locale)
    decreases |events|
  {
    events != [] &&
    (|| (LeavesOpen(s, events[0]) && LeavingPage(events[0]) in pages)
     || EverLeaves(c, Next(c, s, events[0], loc), events[1..], pages, loc))
  }

  lemma {:induction false} RunExactly(c: Suite, s: State, events: seq<Event>, pages: set<Phase>, loc: L.Locale)
    requires Inv(c, s, loc) && Unlocked !in pages && !Over(s, pages)
    ensures EverOver(c, s, events, pages, loc) <==> EverLeaves(c, s, events, pages, loc)
    decreases |events|
  {
    hide Inv, Next, Over, LeavesOpen, LeavingPage;
    if events != [] {
      NextKeeps(c, s, events[0], loc);
      PageExactly(c, s, events[0], pages, loc);
      var t := Next(c, s, events[0], loc);
      if !Over(t, pages) {
        RunExactly(c, t, events[1..], pages, loc);
      }
    }
  }

  /** Over every run: a vault is open behind another page than the unlocked one at some
      point if and only if one of the listed steps is taken at some point; and behind the
      lock page if and only if a document that does not parse is delivered to an open
      vault at some point. */
  lemma PagesOverRuns(c: Suite, events: seq<Event>, loc: L.Locale)
    ensures EverOver(c, FirstStart(), events, NOT_UNLOCKED, loc) <==>
            EverLeaves(c, FirstStart(), events, NOT_UNLOCKED, loc)
    ensures EverOver(c, FirstStart(), events, {Locked}, loc) <==> EverLeaves(c, FirstStart(), events, {Locked}, loc)
  {
    hide Inv, Started, EverOver, EverLeaves;
    StartedKeeps(c, EMPTY_DISK, loc);
    StartedPage(EMPTY_DISK);
    RunExactly(c, FirstStart(), events, NOT_UNLOCKED, loc);
    RunExactly(c, FirstStart(), events, {Locked}, loc);
  }

  // ----- runs that get there -----

  const KDF_ITERATIONS := 600_000

  /** A first login up to the reply to the password. */
  function LoginEvents(email: string, masterKey: bytes): seq<Event> {
    [Asked(ConfigureAccount(email)), Asked(StartLogin), NetDone(Prelogin, GotKdf(KDF_ITERATIONS)),
     DeriveDone(Ok(masterKey))]
  }

  /** The state then: the login reply is outstanding. */
  function LoggingIn(email: string, masterKey: bytes): State {
    FirstStart().(disk := EMPTY_DISK.(email := email, kdfIterations := KDF_ITERATIONS), phase := Login, busy := true,
                  pendingSecrets := Some(masterKey), work := NO_WORK.(net := multiset{LoginReply}))
  }

  lemma Arms(c: Suite, s: State, request: Request, job: NetJob, outcome: Outcome, result: Result<bytes>, loc: L.Locale)
    ensures Next(c, s, Asked(request), loc) == OnRequest(s, request)
    ensures Next(c, s, NetDone(job, outcome), loc) == OnNetDone(c, s, job, outcome, loc)
    ensures Next(c, s, DeriveDone(result), loc) == OnDeriveDone(c, s, result, loc)
  {
    hide OnRequest, OnUnlockWithPin, SignedOut, LockNow, OnMinimised, OnActivity, OnSetAutoLock, OnTime, OnFilter,
         OnWrite, OnDeriveDone, OnPinDone, OnNetDone, Started, PinForgotten;
  }

  lemma LoginStates(c: Suite, email: string, masterKey: bytes, loc: L.Locale)
    requires email != ""
    ensures var s0 := FirstStart();
            var s1 := s0.(disk := EMPTY_DISK.(email := email), phase := Login);
            var s2 := s1.(busy := true, work := NO_WORK.(net := multiset{Prelogin}));
            var s3 := s2.(disk := s2.disk.(kdfIterations := KDF_ITERATIONS), work := NO_WORK.(derive := Some(ForLogin)));
            && OnRequest(s0, ConfigureAccount(email)) == s1 && OnRequest(s1, StartLogin) == s2
            && OnNetDone(c, s2, Prelogin, GotKdf(KDF_ITERATIONS), loc) == s3
            && OnDeriveDone(c, s3, Ok(masterKey), loc) == LoggingIn(email, masterKey)
  {
  }

  lemma RunLogin(c: Suite, email: string, masterKey: bytes, loc: L.Locale)
    requires email != ""
    ensures Run(c, FirstStart(), LoginEvents(email, masterKey), loc) == LoggingIn(email, masterKey)
  {
    hide Run, Next, FirstStart, OnRequest, OnNetDone, OnDeriveDone, LoggingIn;
    var s0 := FirstStart();
    var s1 := s0.(disk := EMPTY_DISK.(email := email), phase := Login);
    var s2 := s1.(busy := true, work := NO_WORK.(net := multiset{Prelogin}));
    var s3 := s2.(disk := s2.disk.(kdfIterations := KDF_ITERATIONS), work := NO_WORK.(derive := Some(ForLogin)));
    LoginStates(c, email, masterKey, loc);
    Arms(c, s0, ConfigureAccount(email), Prelogin, Failed, Ok([]), loc);
    Arms(c, s1, StartLogin, Prelogin, Failed, Ok([]), loc);
    Arms(c, s2, StartLogin, Prelogin, GotKdf(KDF_ITERATIONS), Ok([]), loc);
    Arms(c, s3, StartLogin, Prelogin, Failed, Ok(masterKey), loc);
    FourSteps(c, s0, Asked(ConfigureAccount(email)), Asked(StartLogin), NetDone(Prelogin, GotKdf(KDF_ITERATIONS)),
              DeriveDone(Ok(masterKey)), loc);
  }

  lemma FourSteps(c: Suite, s: State, e: Event, f: Event, g: Event, h: Event, loc: L.Locale)
    ensures Run(c, s, [e, f, g, h], loc)
            == Next(c, Next(c, Next(c, Next(c, s, e, loc), f, loc), g, loc), h, loc)
  {
    hide Next, Run;
    var s1 := Next(c, s, e, loc);
    ThreeSteps(c, s1, f, g, h, loc);
    assert [e, f, g, h] == [e] + [f, g, h];
    OneStep(c, s, e, [f, g, h], loc);
  }

  lemma ThreeSteps(c: Suite, s: State, e: Event, f: Event, g: Event, loc: L.Locale)
    ensures Run(c, s, [e, f, g], loc) == Next(c, Next(c, Next(c, s, e, loc), f, loc), g, loc)
  {
    hide Next, Run;
    var s1 := Next(c, s, e, loc);
    TwoSteps(c, s1, f, g, loc);
    assert [e, f, g] == [e] + [f, g];
    OneStep(c, s, e, [f, g], loc);
  }

  lemma TwoSteps(c: Suite, s: State, e: Event, f: Event, loc: L.Locale)
    ensures Run(c, s, [e, f], loc) == Next(c, Next(c, s, e, loc), f, loc)
  {
    hide Next, Run;
    assert [e, f] == [e] + [f] && [f] == [f] + [];
    OneStep(c, s, e, [f], loc);
    OneStep(c, Next(c, s, e, loc), f, [], loc);
    NoStep(c, Next(c, Next(c, s, e, loc), f, loc), loc);
  }

  /** The token and the first document, of an account without items. */
  ghost function UnlockEvents(c: Suite, a: Accounts.Account): seq<Event>
    requires Lawful(c) && a.Valid()
  {
    [NetDone(LoginReply, GotToken(true)), NetDone(SyncAfterLogin, GotBlob(Some(EmptyDoc(c, a))))]
  }

  ghost function EmptyDoc(c: Suite, a: Accounts.Account): Object
    requires Lawful(c) && a.Valid()
  {
    Accounts.AccountDoc(a.ProtectedKey(c), "", [])
  }

  /** An unlocked session that can sync. */
  predicate Session(s: State) {
    s.phase == Unlocked && !s.vault.locked && s.refreshToken && s.work == NO_WORK
  }

  lemma SyncUnlocks(c: Suite, s: State, a: Accounts.Account, loc: L.Locale)
    requires Lawful(c) && a.Valid() && Inv(c, s, loc) && s.vault.locked && s.refreshToken
    requires s.pendingSecrets == Some(a.masterKey) && s.work == NO_WORK
    ensures Session(ApplySyncBlob(c, s, Some(EmptyDoc(c, a)), true, loc))
  {
    hide Inv, WithVault, TryUnlock, V.LoadSync, V.Unlock, EmptyDoc;
    var doc := Some(EmptyDoc(c, a));
    var t := Stored(s, doc);
    QuietKeeps(c, s, t, loc);
    LoadSettles(c, t, doc, loc);
    LoadKeeps(c, t, doc, loc);
    EmptyDocOpens(c, t.vault, a);
    var u := WithVault(t, V.LoadSync(t.vault, doc).0, loc);
    var w := u.(pendingSecrets := None);
    QuietKeeps(c, u, w, loc);
    UnlockSucceeds(c, w, a.masterKey, loc);
    TryUnlockKeeps(c, w, a.masterKey, loc);
    InvIsSafe(c, TryUnlock(c, w, a.masterKey, loc).0, loc);
  }

  lemma EmptyDocOpens(c: Suite, v: V.State, a: Accounts.Account)
    requires Lawful(c) && a.Valid()
    ensures V.LoadSync(v, Some(EmptyDoc(c, a))).1.Ok?
    ensures V.Unlock(c, V.LoadSync(v, Some(EmptyDoc(c, a))).0, a.masterKey).1.Ok?
  {
    hide V.Unlock, SyncParser.ParsedSync, Accounts.AccountDoc;
    Accounts.ProtectedKeyOpens(c, a);
    Accounts.DocParses(a.ProtectedKey(c), "", []);
    Accounts.EmptyOpens(c, v, a);
  }

  lemma LoggingInKeeps(c: Suite, email: string, masterKey: bytes, loc: L.Locale)
    ensures Inv(c, LoggingIn(email, masterKey), loc) && LoggingIn(email, masterKey).vault.locked
  {
    hide Inv, Started;
    StartedKeeps(c, EMPTY_DISK, loc);
    StartedPage(EMPTY_DISK);
    QuietKeeps(c, FirstStart(), LoggingIn(email, masterKey), loc);
  }

  /** Every account without items reaches an unlocked session from the first start. */
  lemma FirstSession(c: Suite, a: Accounts.Account, email: string, loc: L.Locale)
    requires Lawful(c) && a.Valid() && email != ""
    ensures Session(Run(c, FirstStart(), LoginEvents(email, a.masterKey) + UnlockEvents(c, a), loc))
  {
    hide Run, Next, Inv, FirstStart, LoginEvents, ApplySyncBlob, EmptyDoc, Session;
    var s := LoggingIn(email, a.masterKey);
    var t := s.(accessToken := true, refreshToken := true, disk := s.disk.(refreshToken := true),
                work := NO_WORK.(net := multiset{SyncAfterLogin}));
    RunLogin(c, email, a.masterKey, loc);
    RunOn(c, FirstStart(), LoginEvents(email, a.masterKey), UnlockEvents(c, a), loc);
    LoggingInKeeps(c, email, a.masterKey, loc);
    Arms(c, s, StartLogin, LoginReply, GotToken(true), Ok([]), loc);
    TokenArrives(c, email, a.masterKey, loc);
    Arms(c, t, StartLogin, SyncAfterLogin, GotBlob(Some(EmptyDoc(c, a))), Ok([]), loc);
    TwoSteps(c, s, NetDone(LoginReply, GotToken(true)), NetDone(SyncAfterLogin, GotBlob(Some(EmptyDoc(c, a)))), loc);
    QuietKeeps(c, s, t.(work := NO_WORK), loc);
    SyncUnlocks(c, t.(work := NO_WORK), a, loc);
    DocArrives(c, t, EmptyDoc(c, a), loc);
  }

  lemma TokenArrives(c: Suite, email: string, masterKey: bytes, loc: L.Locale)
    ensures var s := LoggingIn(email, masterKey);
            OnNetDone(c, s, LoginReply, GotToken(true), loc)
            == s.(accessToken := true, refreshToken := true, disk := s.disk.(refreshToken := true),
                  work := NO_WORK.(net := multiset{SyncAfterLogin}))
  {
    var none: multiset<NetJob> := multiset{};
    assert multiset{LoginReply} - multiset{LoginReply} == none && none + multiset{SyncAfterLogin} == multiset{SyncAfterLogin};
  }

  lemma DocArrives(c: Suite, t: State, doc: Object, loc: L.Locale)
    requires t.work == NO_WORK.(net := multiset{SyncAfterLogin})
    ensures OnNetDone(c, t, SyncAfterLogin, GotBlob(Some(doc)), loc)
            == ApplySyncBlob(c, t.(work := NO_WORK), Some(doc), true, loc)
  {
    hide ApplySyncBlob;
    var none: multiset<NetJob> := multiset{};
    assert multiset{SyncAfterLogin} - multiset{SyncAfterLogin} == none;
  }

  const BAD_SYNC: seq<Event> :=
    [Asked(SyncNow), NetDone(RefreshForSync, GotToken(true)), NetDone(SyncReply, GotBlob(None))]

  /** In every session a re-sync whose answer is no JSON object shows the lock page and
      leaves the vault exactly as it was, open. */
  lemma BadSyncLeavesOpen(c: Suite, s: State, loc: L.Locale)
    requires Inv(c, s, loc) && Session(s)
    ensures var t := Run(c, s, BAD_SYNC, loc); t.phase == Locked && !t.vault.locked && t.vault == s.vault
  {
    hide Run, Next, Inv, OnRequest, OnNetDone;
    var s1 := s.(busy := true, work := NO_WORK.(net := multiset{RefreshForSync}));
    var s2 := s1.(accessToken := true, disk := s1.disk.(refreshToken := true),
                  work := NO_WORK.(net := multiset{SyncReply}));
    Arms(c, s, SyncNow, Prelogin, Failed, Ok([]), loc);
    Arms(c, s1, SyncNow, RefreshForSync, GotToken(true), Ok([]), loc);
    SyncStarts(c, s, loc);
    ThreeSteps(c, s, BAD_SYNC[0], BAD_SYNC[1], BAD_SYNC[2], loc);
    QuietKeeps(c, s, s2, loc);
    NextPage(c, s2, NetDone(SyncReply, GotBlob(None)), loc);
  }

  lemma SyncStarts(c: Suite, s: State, loc: L.Locale)
    requires Session(s)
    ensures var s1 := s.(busy := true, work := NO_WORK.(net := multiset{RefreshForSync}));
            && OnRequest(s, SyncNow) == s1
            && OnNetDone(c, s1, RefreshForSync, GotToken(true), loc)
               == s1.(accessToken := true, disk := s1.disk.(refreshToken := true),
                      work := NO_WORK.(net := multiset{SyncReply}))
  {
  }

  /** From the first start: a lock page over an open vault, and a login page over one by
      cancelling a login or configuring an account. */
  lemma OpenBehindPages(c: Suite, a: Accounts.Account, email: string, loc: L.Locale)
    requires Lawful(c) && a.Valid() && email != ""
    ensures var events := LoginEvents(email, a.masterKey) + UnlockEvents(c, a);
            var s := Run(c, FirstStart(), events, loc);
            && Over(Run(c, s, BAD_SYNC, loc), {Locked})
            && Over(Next(c, s, Asked(CancelLogin), loc), {Login})
            && Over(Next(c, s, Asked(ConfigureAccount(email)), loc), {Login})
  {
    hide Run, Next, Inv, FirstStart, LoginEvents, UnlockEvents;
    FirstSession(c, a, email, loc);
    var events := LoginEvents(email, a.masterKey) + UnlockEvents(c, a);
    var s := Run(c, FirstStart(), events, loc);
    FirstKeeps(c, events, loc);
    BadSyncLeavesOpen(c, s, loc);
    NextPage(c, s, Asked(CancelLogin), loc);
    NextPage(c, s, Asked(ConfigureAccount(email)), loc);
  }

  lemma FirstKeeps(c: Suite, events: seq<Event>, loc: L.Locale)
    ensures Inv(c, Run(c, FirstStart(), events, loc), loc)
  {
    hide Inv, Run, Started;
    StartedKeeps(c, EMPTY_DISK, loc);
    RunKeeps(c, FirstStart(), events, loc);
  }
}
