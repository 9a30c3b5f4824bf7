/** Locking and signing out: what they remove, and exactly which completions of work that
    was still outstanding bring it back. */
module ControllerSignOut {
  import opened Words
  import opened Wrappers
  import opened CryptoSuite
  import SyncParser
  import V = VaultSpec
  import VR = VaultRuns
  import L = ListModel
  import PinWrap
  import Accounts
  import opened ControllerSpec
  import opened ControllerRuns
  import opened ControllerPages
  import opened ControllerLosses
  import opened ControllerTokens
  import opened ControllerVault

  // ----- one step -----

  lemma VaultGone(c: Suite, t: State, loc: L.Locale)
    requires Inv(c, t, loc) && t.vault.locked
    ensures VR.Wiped(t.vault) && t.list.filtered == []
  {
    hide Inv, VR.Wiped;
    InvIsSafe(c, t, loc);
  }

  /** Locking wipes the vault and the list, shows the lock page if there is a stored blob
      and the login page if not, and changes no setting, token or work. Minimising does
      the same to an open vault under the setting, and otherwise nothing. */
  lemma LockExactly(c: Suite, s: State, loc: L.Locale)
    requires Inv(c, s, loc)
    ensures var t := Next(c, s, Lock, loc);
            && t.vault.locked && VR.Wiped(t.vault) && t.list.filtered == []
            && t.phase == (if s.disk.blob.Some? then Locked else Login)
            && t.disk == s.disk && t.work == s.work && SameTokens(s, t) && t.vault.data == s.vault.data
    ensures Next(c, s, Minimised, loc)
            == if s.disk.lockOnMinimize && !s.vault.locked then Next(c, s, Lock, loc) else s
  {
    hide Inv, Next, VR.Wiped, WithVault;
    LockArms(c, s, loc);
    NextKeeps(c, s, Lock, loc);
    WithVaultIs(s, V.Locked(s.vault), loc);
    VaultGone(c, Next(c, s, Lock, loc), loc);
  }

  lemma LockArms(c: Suite, s: State, loc: L.Locale)
    ensures Next(c, s, Lock, loc) == LockNow(s, loc) && Next(c, s, SignOut, loc) == SignedOut(s, loc)
    ensures Next(c, s, Minimised, loc) == OnMinimised(s, loc)
  {
    hide OnRequest, OnUnlockWithPin, SignedOut, LockNow, OnMinimised, OnActivity, OnSetAutoLock, OnTime, OnFilter,
         OnWrite, OnDeriveDone, OnPinDone, OnNetDone, Started, PinForgotten;
  }

  /** Signing out wipes the vault and the list, forgets both tokens, the stored refresh
      token, the stored blob and the wrapped key with its counter, and shows the login
      page; the other settings stay, and so does the work that is outstanding. */
  lemma SignOutExactly(c: Suite, s: State, loc: L.Locale)
    requires Inv(c, s, loc)
    ensures var t := Next(c, s, SignOut, loc);
            && t.vault.locked && VR.Wiped(t.vault) && t.list.filtered == []
            && !t.accessToken && !t.refreshToken && t.phase == Login
            && t.disk == s.disk.(refreshToken := false, blob := None, pinText := None, pinFailures := 0)
            && t.work == s.work
  {
    hide Inv, Next, VR.Wiped, WithVault;
    LockArms(c, s, loc);
    NextKeeps(c, s, SignOut, loc);
    WithVaultIs(s, V.Locked(s.vault), loc);
    VaultGone(c, Next(c, s, SignOut, loc), loc);
  }

  // ----- what can come back -----

  /** Nothing of the account is left: no token, no blob, no wrapped key, a closed vault. */
  predicate Left(s: State) {
    && !s.accessToken && !s.refreshToken && !s.disk.refreshToken
    && s.disk.blob.None? && s.disk.pinText.None? && s.vault.locked
  }

  function NotLeft(): State -> bool {
    (s: State) => !Left(s)
  }

  /** The outstanding wrap job of a PIN succeeds. */
  ghost predicate WrapsPin(c: Suite, s: State, e: Event) {
    && e.PinDone? && s.work.pin.Some? && s.work.pin.value.WrapJob?
    && WrapResult(c, s.work.pin.value.masterKey, s.work.pin.value.pin, e.salt, e.iv).Ok?
  }

  ghost predicate KeyOpens(c: Suite, s: State, e: Event) {
    KeyTried(c, s, e).Some? && V.Unlock(c, s.vault, KeyTried(c, s, e).value).1.Ok?
  }

  /** Work that was outstanding brings something back: a token, a document, a wrapped key,
      or a key that opens the data still held. */
  ghost predicate Returns(c: Suite, s: State, e: Event) {
    BringsToken(s, e) || Delivers(s, e) || WrapsPin(c, s, e) || KeyOpens(c, s, e)
  }

  ghost function ReturnsIn(c: Suite): (State, Event) -> bool {
    (s: State, e: Event) => Returns(c, s, e)
  }

  lemma PinComes(c: Suite, s: State, e: Event, loc: L.Locale)
    requires Inv(c, s, loc) && s.disk.pinText.None?
    ensures Next(c, s, e, loc).disk.pinText.Some? <==> WrapsPin(c, s, e)
  {
    hide Inv, Next, OnPinDone, OnUnlockWithPin, WrapResult;
    NextKeeps(c, s, e, loc);
    if e.PinDone? {
      PinEvents(c, s, "", e.salt, e.iv, loc);
      PinDoneText(c, s, e.salt, e.iv, loc);
    } else if e.UnlockWithPin? {
      PinEvents(c, s, e.pin, [], [], loc);
      UnlockText(s, e.pin);
    } else if e.DisablePin? || e.SignOut? {
      Forgets(c, s, loc);
    }
  }

  lemma PinDoneText(c: Suite, s: State, salt: bytes, iv: bytes, loc: L.Locale)
    requires s.disk.pinText.None?
    ensures OnPinDone(c, s, salt, iv, loc).disk.pinText.Some? <==> WrapsPin(c, s, PinDone(salt, iv))
  {
    hide TryUnlock, WrapResult, PinWrap.Unwrapped, V.Unlock;
    if s.work.pin.Some? && s.work.pin.value.UnwrapJob? {
      var r := PinWrap.Unwrapped(c, s.work.pin.value.wrapped, c.toUtf8(s.work.pin.value.pin));
      if r.Ok? {
        TryUnlockIs(c, s.(work := s.work.(pin := None), busy := false), r.value, loc);
      }
    }
  }

  lemma UnlockText(s: State, pin: string)
    requires s.disk.pinText.None?
    ensures OnUnlockWithPin(s, pin) == s
  {
    hide PinWrap.Parsed;
  }

  lemma Forgets(c: Suite, s: State, loc: L.Locale)
    ensures Next(c, s, DisablePin, loc) == PinForgotten(s)
    ensures Next(c, s, SignOut, loc).disk.pinText.None? && PinForgotten(s).disk.pinText.None?
  {
    hide OnRequest, OnUnlockWithPin, LockNow, OnMinimised, OnActivity, OnSetAutoLock, OnTime, OnFilter, OnWrite,
         OnDeriveDone, OnPinDone, OnNetDone, Started, WithVault;
  }

  /** After a sign-out something comes back exactly when work that was still outstanding
      brings it. */
  lemma LeftExactly(c: Suite, s: State, e: Event, loc: L.Locale)
    requires Inv(c, s, loc) && Left(s)
    ensures Left(Next(c, s, e, loc)) <==> !Returns(c, s, e)
  {
    hide Inv, Next, WrapsPin, KeyOpens, HeldAfter, LoadsBlob, KeyTried, SyncParser.ParsedSync, V.Unlock, V.LoadSync;
    NextTokens(c, s, e, loc);
    NextAfter(c, s, e, loc);
    PinComes(c, s, e, loc);
    OpensExactly(c, s, e, loc);
    OpensIs(c, s, e);
  }

  lemma OpensIs(c: Suite, s: State, e: Event)
    ensures KeyOpens(c, s, e) ==> Opens(c, s, e)
    ensures Opens(c, s, e) ==> KeyOpens(c, s, e) || Delivers(s, e)
  {
    hide KeyTried, SyncParser.ParsedSync, V.Unlock, V.LoadSync, Delivers;
  }

  /** No step of the run starts a refresh or a write. */
  ghost predicate NeverCalls(c: Suite, s: State, events: seq<Event>, loc: L.Locale)
    decreases |events|
  {
    events == [] ||
    (NoNewCalls(s, Next(c, s, events[0], loc)) && NeverCalls(c, Next(c, s, events[0], loc), events[1..], loc))
  }

  lemma {:induction false} RunLeft(c: Suite, s: State, events: seq<Event>, loc: L.Locale)
    requires Inv(c, s, loc) && Left(s)
    ensures EverBad(c, s, events, NotLeft(), loc) <==> EverCaused(c, s, events, NotLeft(), ReturnsIn(c), loc)
    ensures !EverBad(c, s, events, NotLeft(), loc) ==> NeverCalls(c, s, events, loc)
    decreases |events|
  {
    hide Inv, Next, Left, Returns;
    if events != [] {
      NextKeeps(c, s, events[0], loc);
      LeftExactly(c, s, events[0], loc);
      NoTokenNoCall(c, s, events[0], loc);
      var t := Next(c, s, events[0], loc);
      if Left(t) {
        RunLeft(c, t, events[1..], loc);
      } else {
        assert EverBad(c, t, events[1..], NotLeft(), loc);
      }
    }
  }

  lemma NoTokenNoCall(c: Suite, s: State, e: Event, loc: L.Locale)
    requires Left(s)
    ensures NoNewCalls(s, Next(c, s, e, loc))
  {
    hide Next, Writes;
    CallsExactly(c, s, e, loc);
  }

  /** Over every run after a sign-out, restarts included: a token, a blob, a wrapped key or
      an open vault is ever there again if and only if outstanding work ever brings one;
      and until then no step starts a refresh or a write. */
  lemma SignedOutRuns(c: Suite, s: State, events: seq<Event>, loc: L.Locale)
    requires Inv(c, s, loc)
    ensures var t := Next(c, s, SignOut, loc);
            && (EverBad(c, t, events, NotLeft(), loc) <==> EverCaused(c, t, events, NotLeft(), ReturnsIn(c), loc))
            && (!EverCaused(c, t, events, NotLeft(), ReturnsIn(c), loc) ==> NeverCalls(c, t, events, loc))
  {
    hide Inv, Next, EverBad, EverCaused, NeverCalls;
    SignOutExactly(c, s, loc);
    NextKeeps(c, s, SignOut, loc);
    RunLeft(c, Next(c, s, SignOut, loc), events, loc);
  }

  // ----- with nothing outstanding -----

  /** The user asks to log in. */
  predicate AsksLogin(e: Event) {
    e == Asked(StartLogin) || e == Asked(SubmitTwoFactor)
  }

  lemma IdleRequest(s: State, request: Request)
    requires Left(s) && s.work == NO_WORK && !AsksLogin(Asked(request))
    ensures OnRequest(s, request).work == NO_WORK
  {
  }

  lemma IdlePin(s: State, pin: string)
    requires Left(s)
    ensures OnUnlockWithPin(s, pin).work == s.work && PinForgotten(s).work == s.work
  {
    hide PinWrap.Parsed;
  }

  lemma IdleCompletions(c: Suite, s: State, write: Write, result: Result<bytes>, salt: bytes, iv: bytes, job: NetJob,
                        outcome: Outcome, loc: L.Locale)
    requires s.work == NO_WORK && s.phase != Unlocked
    ensures OnWrite(c, s, write) == s && OnDeriveDone(c, s, result, loc) == s
    ensures OnPinDone(c, s, salt, iv, loc) == s && OnNetDone(c, s, job, outcome, loc) == s
  {
    hide BodyExists, TryUnlock, OnBlobReply, OnPlainReply, OnUnwrapped, OnWrapped, V.VerifiesMasterKey;
  }

  lemma NotUnlocked(c: Suite, s: State, loc: L.Locale)
    requires Inv(c, s, loc) && s.vault.locked
    ensures s.phase != Unlocked
  {
    hide VR.Inv;
  }

  lemma IdleStays(c: Suite, s: State, e: Event, loc: L.Locale)
    requires Inv(c, s, loc) && Left(s) && s.work == NO_WORK && !AsksLogin(e)
    ensures Next(c, s, e, loc).work == NO_WORK
  {
    hide Inv, OnRequest, OnUnlockWithPin, PinForgotten, SignedOut, LockNow, OnActivity, OnSetAutoLock, OnTime, OnFilter,
         OnWrite, OnDeriveDone, OnPinDone, OnNetDone, Started;
    NotUnlocked(c, s, loc);
    match e
    case Asked(request) => IdleRequest(s, request);
    case UnlockWithPin(pin) => IdlePin(s, pin);
    case DisablePin => IdlePin(s, "");
    case SignOut => LockingCalls(s, loc);
    case Lock => LockingCalls(s, loc);
    case Minimised => LockingCalls(s, loc);
    case Activity => ChangeCalls(s, 0, 0, L.Searched(""), loc);
    case SetAutoLock(minutes) => ChangeCalls(s, minutes, 0, L.Searched(""), loc);
    case TimePasses(ms) => ChangeCalls(s, 0, ms, L.Searched(""), loc);
    case SetSearch(query) => ChangeCalls(s, 0, 0, L.Searched(query), loc);
    case SetFolder(folder) => ChangeCalls(s, 0, 0, L.Foldered(folder), loc);
    case WriteItem(write) => IdleCompletions(c, s, write, Ok([]), [], [], Prelogin, Failed, loc);
    case DeriveDone(result) => IdleCompletions(c, s, Delete, result, [], [], Prelogin, Failed, loc);
    case PinDone(salt, iv) => IdleCompletions(c, s, Delete, Ok([]), salt, iv, Prelogin, Failed, loc);
    case NetDone(job, outcome) => IdleCompletions(c, s, Delete, Ok([]), [], [], job, outcome, loc);
    case Restart => StartedCalls(s.disk);
  }

  lemma NothingReturns(c: Suite, s: State, e: Event)
    requires s.work == NO_WORK
    ensures !Returns(c, s, e)
  {
    hide V.Unlock, WrapResult, PinWrap.Unwrapped;
  }

  lemma {:induction false} IdleRun(c: Suite, s: State, events: seq<Event>, loc: L.Locale)
    requires Inv(c, s, loc) && Left(s) && s.work == NO_WORK && forall e :: e in events ==> !AsksLogin(e)
    ensures var t := Run(c, s, events, loc); Left(t) && t.work == NO_WORK
    decreases |events|
  {
    hide Inv, Next, Left, Returns;
    if events != [] {
      assert events[0] in events && forall e :: e in events[1..] ==> e in events;
      NextKeeps(c, s, events[0], loc);
      NothingReturns(c, s, events[0]);
      LeftExactly(c, s, events[0], loc);
      IdleStays(c, s, events[0], loc);
      IdleRun(c, Next(c, s, events[0], loc), events[1..], loc);
    }
  }

  /** Signing out with nothing outstanding is final until the user logs in again. */
  lemma QuietSignOut(c: Suite, s: State, events: seq<Event>, loc: L.Locale)
    requires Inv(c, s, loc) && s.work == NO_WORK && forall e :: e in events ==> !AsksLogin(e)
    ensures Left(Run(c, Next(c, s, SignOut, loc), events, loc))
  {
    hide Inv, Next, Run;
    SignOutExactly(c, s, loc);
    NextKeeps(c, s, SignOut, loc);
    IdleRun(c, Next(c, s, SignOut, loc), events, loc);
  }

  // ----- with a sync outstanding -----

  const LATE_SYNC: seq<Event> := [Asked(SyncNow), SignOut, NetDone(RefreshForSync, GotToken(true))]

  lemma RefreshArrives(c: Suite, s: State, loc: L.Locale)
    requires s.work == NO_WORK.(net := multiset{RefreshForSync})
    ensures OnNetDone(c, s, RefreshForSync, GotToken(true), loc).work.net == multiset{SyncReply}
  {
    var none: multiset<NetJob> := multiset{};
    assert multiset{RefreshForSync} - multiset{RefreshForSync} == none && none + multiset{SyncReply} == multiset{SyncReply};
  }

  /** Asking for a sync, signing out, and only then the two replies: the refresh token and
      the account's blob are stored again. */
  lemma LateSync(c: Suite, s: State, doc: Blob, loc: L.Locale)
    requires Inv(c, s, loc) && Session(s)
    ensures var t := Run(c, s, LATE_SYNC, loc);
            && t.accessToken && t.refreshToken && t.disk.refreshToken
            && Next(c, t, NetDone(SyncReply, GotBlob(doc)), loc).disk.blob == Some(doc)
  {
    hide Run, Next, Inv, OnRequest, OnNetDone, SignedOut, VR.Wiped, LoadsBlob;
    var s1 := Next(c, s, Asked(SyncNow), loc);
    var s2 := Next(c, s1, SignOut, loc);
    var s3 := Next(c, s2, NetDone(RefreshForSync, GotToken(true)), loc);
    ThreeSteps(c, s, LATE_SYNC[0], LATE_SYNC[1], LATE_SYNC[2], loc);
    Arms(c, s, SyncNow, Prelogin, Failed, Ok([]), loc);
    Arms(c, s2, SyncNow, RefreshForSync, GotToken(true), Ok([]), loc);
    SyncStarts(c, s, loc);
    NextKeeps(c, s, Asked(SyncNow), loc);
    SignOutExactly(c, s1, loc);
    RefreshArrives(c, s2, loc);
    NextTokens(c, s2, NetDone(RefreshForSync, GotToken(true)), loc);
    NextAfter(c, s3, NetDone(SyncReply, GotBlob(doc)), loc);
  }

  /** And such a session is reached from the first start. */
  lemma SignOutUndone(c: Suite, a: Accounts.Account, email: string, doc: Blob, loc: L.Locale)
    requires Lawful(c) && a.Valid() && email != ""
    ensures var s := Run(c, FirstStart(), LoginEvents(email, a.masterKey) + UnlockEvents(c, a), loc);
            var t := Run(c, s, LATE_SYNC, loc);
            && t.disk.refreshToken && Next(c, t, NetDone(SyncReply, GotBlob(doc)), loc).disk.blob == Some(doc)
  {
    hide Run, Next, Inv, FirstStart, LoginEvents, UnlockEvents, Session;
    FirstSession(c, a, email, loc);
    FirstKeeps(c, LoginEvents(email, a.masterKey) + UnlockEvents(c, a), loc);
    LateSync(c, Run(c, FirstStart(), LoginEvents(email, a.masterKey) + UnlockEvents(c, a), loc), doc, loc);
  }
}
