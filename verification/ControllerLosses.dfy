/** What steps lose: the secrets of a login whose reply is still outstanding, and a
    stored blob from which the application can start. Exactly which steps do so. */
module ControllerLosses {
  import opened Words
  import opened Wrappers
  import opened Json
  import opened CryptoSuite
  import SyncParser
  import V = VaultSpec
  import L = ListModel
  import PinWrap
  import Accounts
  import opened ControllerSpec
  import opened ControllerRuns
  import opened ControllerPages

  // ----- four parts of the state after a step -----

  /** The login replies that are outstanding. */
  function Replies(s: State): nat {
    s.work.net[LoginReply]
  }

  predicate Completes(s: State, e: Event, job: NetJob) {
    e.NetDone? && e.job == job && job in s.work.net
  }

  /** A document is delivered, and the vault is locked and can read it. */
  predicate LoadsBlob(s: State, outcome: Outcome) {
    s.vault.locked && outcome.GotBlob? && SyncParser.ParsedSync(outcome.doc).Ok?
  }

  function PendingAfter(s: State, e: Event): Option<bytes> {
    if e == Asked(CancelLogin) || e.Restart? then None
    else if e.DeriveDone? && s.work.derive == Some(ForLogin) && e.result.Ok? then Some(e.result.value)
    else if Completes(s, e, LoginReply) && !e.outcome.GotToken? && !e.outcome.SecondFactor? then None
    else if Completes(s, e, SyncAfterLogin) && (!e.outcome.GotBlob? || LoadsBlob(s, e.outcome)) then None
    else s.pendingSecrets
  }

  function RepliesAfter(s: State, e: Event): int {
    if e.Restart? then 0
    else if e.DeriveDone? && s.work.derive == Some(ForLogin) && e.result.Ok? then Replies(s) + 1
    else if Completes(s, e, LoginReply) then Replies(s) - 1
    else Replies(s)
  }

  function BlobAfter(s: State, e: Event): Option<Blob> {
    if e.SignOut? then None
    else if e.NetDone? && e.job in s.work.net && CarriesBlob(e.job) && e.outcome.GotBlob? then Some(e.outcome.doc)
    else s.disk.blob
  }

  function EmailAfter(s: State, e: Event): string {
    if e.Asked? && e.request.ConfigureAccount? then e.request.email else s.disk.email
  }

  predicate After(s: State, e: Event, t: State) {
    && t.pendingSecrets == PendingAfter(s, e)
    && Replies(t) == RepliesAfter(s, e)
    && t.disk.blob == BlobAfter(s, e)
    && t.disk.email == EmailAfter(s, e)
  }

  predicate SameParts(s: State, t: State) {
    && t.pendingSecrets == s.pendingSecrets && Replies(t) == Replies(s)
    && t.disk.blob == s.disk.blob && t.disk.email == s.disk.email
  }

  // ----- handler by handler -----

  lemma {:induction false} NotifiedMoves(s: State, signals: seq<V.LockedChanged>, loc: L.Locale)
    ensures Moved(s, Notified(s, signals, loc))
    decreases |signals|
  {
    hide L.Step;
    if signals != [] {
      NotifiedMoves(OnLockedChanged(s, signals[0], loc), signals[1..], loc);
    }
  }

  lemma VaultMovesOnly(s: State, v: V.State, loc: L.Locale)
    ensures Moved(s, WithVault(s, v, loc))
  {
    hide Notified;
    NotifiedMoves(s.(vault := v), Since(v.emitted, |s.vault.emitted|), loc);
  }

  lemma TryUnlockMoves(c: Suite, s: State, masterKey: bytes, loc: L.Locale)
    ensures Moved(s, TryUnlock(c, s, masterKey, loc).0)
  {
    hide WithVault, V.Unlock, L.Step;
    VaultMovesOnly(s, V.Unlock(c, s.vault, masterKey).0, loc);
  }

  lemma ReloadMoves(c: Suite, s: State, doc: Blob, loc: L.Locale)
    ensures Moved(s, Reload(c, s, doc, loc))
  {
    hide WithVault, V.ReloadSync, L.Step;
    VaultMovesOnly(s, V.ReloadSync(c, s.vault, doc).0, loc);
  }

  lemma StartNetParts(s: State, job: NetJob)
    ensures var t := StartNet(s, job);
            && Replies(t) == Replies(s) + (if job.LoginReply? then 1 else 0)
            && t.disk == s.disk && t.pendingSecrets == s.pendingSecrets
  {
  }

  lemma StartedWorkParts(s: State, pin: string)
    ensures SameParts(s, OnUnlock(s)) && SameParts(s, OnEnablePin(s, pin))
  {
  }

  lemma RequestParts(s: State, request: Request)
    ensures After(s, Asked(request), OnRequest(s, request))
  {
    hide LoadsBlob, StartNet, OnUnlock, OnEnablePin;
    match request
    case StartLogin => StartNetParts(s.(busy := true), Prelogin);
    case SubmitTwoFactor => StartNetParts(s.(busy := true), TwoFactorReply);
    case SyncNow => StartNetParts(s.(busy := true), RefreshForSync);
    case Unlock => StartedWorkParts(s, "");
    case EnablePin(pin) => StartedWorkParts(s, pin);
    case _ =>
  }

  lemma PinPartsKept(s: State, pin: string)
    ensures SameParts(s, OnUnlockWithPin(s, pin)) && SameParts(s, PinForgotten(s))
  {
    hide PinWrap.Parsed;
  }

  lemma LockingParts(s: State, loc: L.Locale)
    ensures SameParts(s, LockNow(s, loc))
    ensures SignedOut(s, loc).pendingSecrets == s.pendingSecrets && Replies(SignedOut(s, loc)) == Replies(s)
    ensures SignedOut(s, loc).disk.blob == None && SignedOut(s, loc).disk.email == s.disk.email
  {
    hide WithVault, V.Locked;
    VaultMovesOnly(s, V.Locked(s.vault), loc);
  }

  lemma ChangeParts(s: State, minutes: int, ms: nat, e: L.Event, loc: L.Locale)
    ensures SameParts(s, OnActivity(s)) && SameParts(s, OnSetAutoLock(s, minutes))
    ensures SameParts(s, OnTime(s, ms, loc)) && SameParts(s, OnFilter(s, e, loc))
  {
    hide WithVault, V.Advance, V.SetAutoLock, V.NoteActivity, L.Step;
    VaultMovesOnly(s, V.Advance(s.vault, ms), loc);
  }

  lemma WriteParts(c: Suite, s: State, write: Write)
    ensures SameParts(s, OnWrite(c, s, write))
  {
    hide BodyExists, V.NoteActivity;
  }

  lemma DeriveParts(c: Suite, s: State, result: Result<bytes>, loc: L.Locale)
    ensures After(s, DeriveDone(result), OnDeriveDone(c, s, result, loc))
  {
    hide TryUnlock, V.VerifiesMasterKey, LoadsBlob, StartNet;
    if s.work.derive.Some? && result.Ok? {
      StartNetParts(s.(work := s.work.(derive := None), pendingSecrets := Some(result.value)), LoginReply);
      TryUnlockMoves(c, s.(work := s.work.(derive := None), busy := false), result.value, loc);
    }
  }

  lemma PinDoneParts(c: Suite, s: State, salt: bytes, iv: bytes, loc: L.Locale)
    ensures SameParts(s, OnPinDone(c, s, salt, iv, loc))
  {
    hide TryUnlock, WrapResult, PinWrap.Unwrapped;
    if s.work.pin.Some? && s.work.pin.value.UnwrapJob? {
      var r := PinWrap.Unwrapped(c, s.work.pin.value.wrapped, c.toUtf8(s.work.pin.value.pin));
      if r.Ok? {
        TryUnlockMoves(c, s.(work := s.work.(pin := None), busy := false), r.value, loc);
      }
    }
  }

  lemma PlainParts(t: State, job: NetJob, outcome: Outcome)
    requires !CarriesBlob(job)
    ensures var u := OnPlainReply(t, job, outcome);
            && Replies(u) == Replies(t) && u.disk.blob == t.disk.blob && u.disk.email == t.disk.email
            && u.pendingSecrets == (if job.LoginReply? && !outcome.GotToken? && !outcome.SecondFactor? then None
                                    else t.pendingSecrets)
  {
    hide OnPrelogin, OnLoginReply, OnTwoFactorReply, OnRefreshForSync, OnWriteReply, OnRefreshForWrite, FinishWrite;
    LoginReplyParts(t, outcome);
    TokenReplyParts(t, outcome);
    WriteReplyParts(t, outcome);
  }

  lemma LoginReplyParts(t: State, outcome: Outcome)
    ensures var u := OnLoginReply(t, outcome);
            && Replies(u) == Replies(t) && u.disk.blob == t.disk.blob && u.disk.email == t.disk.email
            && u.pendingSecrets == (if !outcome.GotToken? && !outcome.SecondFactor? then None else t.pendingSecrets)
  {
  }

  lemma TokenReplyParts(t: State, outcome: Outcome)
    ensures SameParts(t, OnPrelogin(t, outcome)) && SameParts(t, OnTwoFactorReply(t, outcome))
    ensures SameParts(t, OnRefreshForSync(t, outcome))
  {
  }

  lemma WriteReplyParts(t: State, outcome: Outcome)
    ensures SameParts(t, OnWriteReply(t, outcome)) && SameParts(t, OnRefreshForWrite(t, outcome))
    ensures SameParts(t, FinishWrite(t, outcome.Written?))
  {
  }

  lemma LoadBlobParts(c: Suite, s: State, doc: Blob, freshLogin: bool, loc: L.Locale)
    ensures var u := LoadBlob(c, s, doc, freshLogin, loc);
            && Replies(u) == Replies(s) && u.disk.blob == s.disk.blob && u.disk.email == s.disk.email
            && u.pendingSecrets == (if freshLogin && SyncParser.ParsedSync(doc).Ok? then None else s.pendingSecrets)
  {
    hide WithVault, TryUnlock, SyncParser.ParsedSync;
    VaultMovesOnly(s, V.LoadSync(s.vault, doc).0, loc);
    var t := WithVault(s, V.LoadSync(s.vault, doc).0, loc);
    if t.pendingSecrets.Some? {
      TryUnlockMoves(c, t.(pendingSecrets := None), t.pendingSecrets.value, loc);
    }
  }

  lemma ApplySyncParts(c: Suite, s: State, doc: Blob, freshLogin: bool, loc: L.Locale)
    ensures var u := ApplySyncBlob(c, s, doc, freshLogin, loc);
            && Replies(u) == Replies(s) && u.disk.blob == Some(doc) && u.disk.email == s.disk.email
            && u.pendingSecrets == (if freshLogin && s.vault.locked && SyncParser.ParsedSync(doc).Ok? then None
                                    else s.pendingSecrets)
  {
    hide LoadBlob, Reload, SyncParser.ParsedSync;
    LoadBlobParts(c, Stored(s, doc), doc, freshLogin, loc);
    ReloadMoves(c, Stored(s, doc), doc, loc);
  }

  lemma BlobParts(c: Suite, t: State, job: NetJob, outcome: Outcome, loc: L.Locale)
    requires CarriesBlob(job)
    ensures var u := OnBlobReply(c, t, job, outcome, loc);
            && Replies(u) == Replies(t) && u.disk.email == t.disk.email
            && u.disk.blob == (if outcome.GotBlob? then Some(outcome.doc) else t.disk.blob)
            && u.pendingSecrets == (if job.SyncAfterLogin? && (!outcome.GotBlob? || LoadsBlob(t, outcome)) then None
                                    else t.pendingSecrets)
  {
    hide ApplySyncBlob, Reload, SyncParser.ParsedSync;
    if outcome.GotBlob? {
      ApplySyncParts(c, t, outcome.doc, job.SyncAfterLogin?, loc);
      ReloadMoves(c, Stored(t.(busy := false), outcome.doc), outcome.doc, loc);
    }
  }

  lemma NetParts(c: Suite, s: State, job: NetJob, outcome: Outcome, loc: L.Locale)
    ensures After(s, NetDone(job, outcome), OnNetDone(c, s, job, outcome, loc))
  {
    hide OnBlobReply, OnPlainReply, SyncParser.ParsedSync;
    if job in s.work.net {
      var t := s.(work := s.work.(net := s.work.net - multiset{job}));
      if CarriesBlob(job) {
        BlobParts(c, t, job, outcome, loc);
      } else {
        PlainParts(t, job, outcome);
      }
    }
  }

  lemma StartedParts(disk: Disk)
    ensures var t := Started(disk); t.pendingSecrets == None && Replies(t) == 0 && t.disk == disk
  {
    hide V.LoadSync, V.SetAutoLock;
  }

  /** The steps that touch none of the four. */
  predicate TouchesNone(e: Event) {
    !e.Asked? && !e.SignOut? && !e.DeriveDone? && !e.NetDone? && !e.Restart?
  }

  lemma NextSame(c: Suite, s: State, e: Event, loc: L.Locale)
    requires TouchesNone(e)
    ensures SameParts(s, Next(c, s, e, loc))
  {
    hide OnRequest, OnUnlockWithPin, PinForgotten, SignedOut, LockNow, OnActivity, OnSetAutoLock, OnTime, OnFilter,
         OnWrite, OnDeriveDone, OnPinDone, OnNetDone, Started;
    match e
    case UnlockWithPin(pin) => PinPartsKept(s, pin);
    case DisablePin => PinPartsKept(s, "");
    case Lock => LockingParts(s, loc);
    case Minimised => LockingParts(s, loc);
    case Activity => ChangeParts(s, 0, 0, L.Searched(""), loc);
    case SetAutoLock(minutes) => ChangeParts(s, minutes, 0, L.Searched(""), loc);
    case TimePasses(ms) => ChangeParts(s, 0, ms, L.Searched(""), loc);
    case SetSearch(query) => ChangeParts(s, 0, 0, L.Searched(query), loc);
    case SetFolder(folder) => ChangeParts(s, 0, 0, L.Foldered(folder), loc);
    case WriteItem(write) => WriteParts(c, s, write);
    case PinDone(salt, iv) => PinDoneParts(c, s, salt, iv, loc);
  }

  lemma NextAfter(c: Suite, s: State, e: Event, loc: L.Locale)
    ensures After(s, e, Next(c, s, e, loc))
  {
    hide OnRequest, OnUnlockWithPin, PinForgotten, SignedOut, LockNow, OnActivity, OnSetAutoLock, OnTime, OnFilter,
         OnWrite, OnDeriveDone, OnPinDone, OnNetDone, Started, LoadsBlob;
    match e
    case Asked(request) => RequestParts(s, request);
    case SignOut => LockingParts(s, loc);
    case DeriveDone(result) => DeriveParts(c, s, result, loc);
    case NetDone(job, outcome) => NetParts(c, s, job, outcome, loc);
    case Restart => StartedParts(s.disk);
    case _ => NextSame(c, s, e, loc);
  }

  // ----- from steps to runs -----

  /** At some point of the run the state is bad. */
  ghost predicate EverBad(c: Suite, s: State, events: seq<Event>, bad: State -> bool, loc: L.Locale)
    decreases |events|
  {
    bad(s) || (events != [] && EverBad(c, Next(c, s, events[0], loc), events[1..], bad, loc))
  }

  /** At some point of the run a good state meets the cause. */
  ghost predicate EverCaused(c: Suite, s: State, events: seq<Event>, bad: State -> bool, cause: (State, Event) -> bool,
                             loc: L.Locale)
    decreases |events|
  {
    events != [] &&
    ((!bad(s) && cause(s, events[0])) || EverCaused(c, Next(c, s, events[0], loc), events[1..], bad, cause, loc))
  }

  lemma {:induction false} RunCaused(c: Suite, s: State, events: seq<Event>, bad: State -> bool,
                                     cause: (State, Event) -> bool, loc: L.Locale)
    requires !bad(s)
    requires forall t: State, e: Event :: !bad(t) ==> (bad(Next(c, t, e, loc)) <==> cause(t, e))
    ensures EverBad(c, s, events, bad, loc) <==> EverCaused(c, s, events, bad, cause, loc)
    decreases |events|
  {
    hide Next;
    if events != [] {
      var t := Next(c, s, events[0], loc);
      assert bad(t) <==> cause(s, events[0]);
      if !bad(t) {
        RunCaused(c, t, events[1..], bad, cause, loc);
      }
    }
  }

  // ----- the secrets of a pending login -----

  /** A login reply is outstanding and the secrets it needs are gone: if the server asks
      for a second factor now, the handler reads through nothing. */
  predicate Danger(s: State) {
    LoginReply in s.work.net && s.pendingSecrets.None?
  }

  predicate ReadsMissingSecrets(s: State, e: Event) {
    Danger(s) && e == NetDone(LoginReply, SecondFactor)
  }

  /** The steps that drop the secrets under a reply that stays outstanding. */
  predicate DropsSecrets(s: State, e: Event) {
    && LoginReply in s.work.net && s.pendingSecrets.Some?
    && (|| e == Asked(CancelLogin)
        || (Completes(s, e, LoginReply) && !e.outcome.GotToken? && !e.outcome.SecondFactor? && Replies(s) >= 2)
        || (Completes(s, e, SyncAfterLogin) && (!e.outcome.GotBlob? || LoadsBlob(s, e.outcome))))
  }

  /** Exactly these: cancelling the login, a failed reply while another is outstanding, and
      the answer to an earlier login's sync that is no document or opens a locked vault. */
  lemma DangerExactly(c: Suite, s: State, e: Event, loc: L.Locale)
    requires !Danger(s)
    ensures Danger(Next(c, s, e, loc)) <==> DropsSecrets(s, e)
  {
    hide Next, LoadsBlob;
    NextAfter(c, s, e, loc);
  }

  /** Over every run: a reply is ever outstanding without its secrets if and only if one of
      these steps is ever taken, and only then can they ever be read while missing. */
  lemma DangerOverRuns(c: Suite, events: seq<Event>, loc: L.Locale)
    ensures EverBad(c, FirstStart(), events, Danger, loc) <==>
            EverCaused(c, FirstStart(), events, Danger, DropsSecrets, loc)
  {
    hide Next, Started, DropsSecrets, EverBad, EverCaused;
    StartedParts(EMPTY_DISK);
    forall t, e ensures !Danger(t) ==> (Danger(Next(c, t, e, loc)) <==> DropsSecrets(t, e)) {
      if !Danger(t) {
        DangerExactly(c, t, e, loc);
      }
    }
    RunCaused(c, FirstStart(), events, Danger, DropsSecrets, loc);
  }

  /** Cancelling while the reply is outstanding leads there from the first start. */
  lemma CancelledLogin(c: Suite, email: string, masterKey: bytes, loc: L.Locale)
    requires email != ""
    ensures var s := Run(c, FirstStart(), LoginEvents(email, masterKey) + [Asked(CancelLogin)], loc);
            ReadsMissingSecrets(s, NetDone(LoginReply, SecondFactor))
  {
    hide Run, Next, FirstStart, LoginEvents;
    var s := LoggingIn(email, masterKey);
    RunLogin(c, email, masterKey, loc);
    RunOn(c, FirstStart(), LoginEvents(email, masterKey), [Asked(CancelLogin)], loc);
    assert [Asked(CancelLogin)] == [Asked(CancelLogin)] + [];
    OneStep(c, s, Asked(CancelLogin), [], loc);
    NoStep(c, Next(c, s, Asked(CancelLogin), loc), loc);
    DangerExactly(c, s, Asked(CancelLogin), loc);
  }

  // ----- the stored blob -----

  /** A blob is stored from which the application cannot start. */
  predicate Unloadable(s: State) {
    s.disk.blob.Some? && SyncParser.ParsedSync(s.disk.blob.value).Err?
  }

  /** An outstanding sync call delivers a document that does not parse. */
  predicate StoresBadBlob(s: State, e: Event) {
    e.NetDone? && e.job in s.work.net && BadBlob(e.job, e.outcome)
  }

  /** Only signing out or a document that does parse ends it. */
  predicate Recovers(s: State, e: Event) {
    e.SignOut? || (e.NetDone? && e.job in s.work.net && CarriesBlob(e.job) && e.outcome.GotBlob? &&
                   SyncParser.ParsedSync(e.outcome.doc).Ok?)
  }

  lemma UnloadableExactly(c: Suite, s: State, e: Event, loc: L.Locale)
    ensures var bad := Unloadable(Next(c, s, e, loc));
            if Unloadable(s) then bad <==> !Recovers(s, e) else bad <==> StoresBadBlob(s, e)
  {
    hide Next, SyncParser.ParsedSync;
    NextAfter(c, s, e, loc);
  }

  /** Over every run: the stored blob ever stops loading if and only if a document that does
      not parse is ever delivered, which is saved before it is read. */
  lemma UnloadableOverRuns(c: Suite, events: seq<Event>, loc: L.Locale)
    ensures EverBad(c, FirstStart(), events, Unloadable, loc) <==>
            EverCaused(c, FirstStart(), events, Unloadable, StoresBadBlob, loc)
  {
    hide Next, Started, StoresBadBlob, EverBad, EverCaused, SyncParser.ParsedSync;
    StartedParts(EMPTY_DISK);
    forall t, e ensures !Unloadable(t) ==> (Unloadable(Next(c, t, e, loc)) <==> StoresBadBlob(t, e)) {
      if !Unloadable(t) {
        UnloadableExactly(c, t, e, loc);
      }
    }
    RunCaused(c, FirstStart(), events, Unloadable, StoresBadBlob, loc);
  }

  /** A start works offline, with the stored data behind the lock page, exactly with an
      account and a stored blob that loads. */
  lemma OfflineExactly(disk: Disk)
    ensures Started(disk).phase == Locked <==>
            disk.email != "" && disk.blob.Some? && SyncParser.ParsedSync(disk.blob.value).Ok?
    ensures Started(disk).phase == Locked ==>
              SyncParser.ParsedSync(disk.blob.value) == Ok(Started(disk).vault.data)
    ensures Started(disk).phase != Locked ==> Started(disk).vault.data == SyncParser.NO_DATA
  {
    hide SyncParser.ParsedSync;
  }

  lemma SessionStored(c: Suite, a: Accounts.Account, email: string, loc: L.Locale)
    requires Lawful(c) && a.Valid() && email != ""
    ensures var s := Run(c, FirstStart(), LoginEvents(email, a.masterKey) + UnlockEvents(c, a), loc);
            && s.disk.email == email && s.disk.blob.Some? && SyncParser.ParsedSync(s.disk.blob.value).Ok?
  {
    hide Run, Next, FirstStart, LoginEvents, OnNetDone, SyncParser.ParsedSync, EmptyDoc, LoadsBlob;
    var s := LoggingIn(email, a.masterKey);
    var e, f := NetDone(LoginReply, GotToken(true)), NetDone(SyncAfterLogin, GotBlob(Some(EmptyDoc(c, a))));
    RunLogin(c, email, a.masterKey, loc);
    RunOn(c, FirstStart(), LoginEvents(email, a.masterKey), UnlockEvents(c, a), loc);
    TwoSteps(c, s, e, f, loc);
    Arms(c, s, StartLogin, LoginReply, GotToken(true), Ok([]), loc);
    TokenArrives(c, email, a.masterKey, loc);
    NextAfter(c, s, e, loc);
    NextAfter(c, Next(c, s, e, loc), f, loc);
    EmptyDocParses(c, a);
  }

  lemma EmptyDocParses(c: Suite, a: Accounts.Account)
    requires Lawful(c) && a.Valid()
    ensures SyncParser.ParsedSync(Some(EmptyDoc(c, a))).Ok?
  {
    hide SyncParser.ParsedSync, Accounts.AccountDoc;
    Accounts.ProtectedKeyOpens(c, a);
    Accounts.DocParses(a.ProtectedKey(c), "", []);
  }

  lemma BadSyncStored(c: Suite, s: State, loc: L.Locale)
    requires Session(s)
    ensures var t := Run(c, s, BAD_SYNC, loc); t.disk.blob == Some(None) && t.disk.email == s.disk.email
  {
    hide Run, Next, OnNetDone, OnRequest, LoadsBlob;
    var s1 := Next(c, s, BAD_SYNC[0], loc);
    var s2 := Next(c, s1, BAD_SYNC[1], loc);
    ThreeSteps(c, s, BAD_SYNC[0], BAD_SYNC[1], BAD_SYNC[2], loc);
    Arms(c, s, SyncNow, Prelogin, Failed, Ok([]), loc);
    Arms(c, s1, SyncNow, RefreshForSync, GotToken(true), Ok([]), loc);
    SyncStarts(c, s, loc);
    NextAfter(c, s, BAD_SYNC[0], loc);
    NextAfter(c, s1, BAD_SYNC[1], loc);
    NextAfter(c, s2, BAD_SYNC[2], loc);
  }

  /** From the first start: a session that works offline, a re-sync answered with something
      that is no JSON object, a restart, and the login page over an empty vault. */
  lemma OfflineLost(c: Suite, a: Accounts.Account, email: string, loc: L.Locale)
    requires Lawful(c) && a.Valid() && email != ""
    ensures var s := Run(c, FirstStart(), LoginEvents(email, a.masterKey) + UnlockEvents(c, a), loc);
            var t := Run(c, s, BAD_SYNC + [Restart], loc);
            && Started(s.disk).phase == Locked
            && Unloadable(t) && t.phase == Login && t.vault.locked && t.vault.data == SyncParser.NO_DATA
  {
    hide Run, Next, Inv, FirstStart, LoginEvents, UnlockEvents, Started, SyncParser.ParsedSync, EmptyDoc;
    FirstSession(c, a, email, loc);
    var s := Run(c, FirstStart(), LoginEvents(email, a.masterKey) + UnlockEvents(c, a), loc);
    SessionStored(c, a, email, loc);
    OfflineExactly(s.disk);
    var u := Run(c, s, BAD_SYNC, loc);
    BadSyncStored(c, s, loc);
    RunOn(c, s, BAD_SYNC, [Restart], loc);
    assert [Restart] == [Restart] + [];
    OneStep(c, u, Restart, [], loc);
    NoStep(c, Next(c, u, Restart, loc), loc);
    RestartIs(c, u, loc);
    StartedParts(u.disk);
    StartedPage(u.disk);
    OfflineExactly(u.disk);
    NullDoesNotParse();
    LoginAfterBadBlob(u.disk);
  }

  lemma LoginAfterBadBlob(disk: Disk)
    requires disk.email != "" && Started(disk).phase != Locked
    ensures Started(disk).phase == Login
  {
    hide V.LoadSync, V.SetAutoLock;
  }

  lemma NullDoesNotParse()
    ensures SyncParser.ParsedSync(None).Err?
  {
  }
}
