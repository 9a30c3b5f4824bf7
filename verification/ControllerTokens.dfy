/** Tokens, and what signing out leaves: which steps bring tokens, start calls that need
    one, or bring back what signing out has removed. */
module ControllerTokens {
  import opened Words
  import opened Wrappers
  import opened CryptoSuite
  import SyncParser
  import V = VaultSpec
  import VR = VaultRuns
  import L = ListModel
  import PinWrap
  import Accounts
  import opened ControllerSpec
  import opened ControllerRuns
  import opened ControllerPages
  import opened ControllerLosses

  // ----- the tokens after a step -----

  /** An outstanding call delivers a token. */
  predicate BringsToken(s: State, e: Event) {
    && e.NetDone? && e.job in s.work.net && e.outcome.GotToken?
    && (e.job.LoginReply? || e.job.TwoFactorReply? || e.job.RefreshForSync? || e.job.RefreshForWrite?)
  }

  /** A refresh for a sync is refused. */
  predicate RefusesToken(s: State, e: Event) {
    e.NetDone? && e.job in s.work.net && e.job.RefreshForSync? && !e.outcome.GotToken?
  }

  /** Whether a refresh token is held after a token came: a login replaces it, a refresh
      only if there is a new one. */
  predicate HeldAfter(held: bool, e: Event)
    requires e.NetDone? && e.outcome.GotToken?
  {
    e.outcome.hasRefresh || (held && !e.job.LoginReply? && !e.job.TwoFactorReply?)
  }

  predicate AccessAfter(s: State, e: Event) {
    if e.SignOut? || e.Restart? then false else s.accessToken || BringsToken(s, e)
  }

  predicate RefreshAfter(s: State, e: Event) {
    if e.SignOut? || RefusesToken(s, e) then false
    else if e.Restart? then s.disk.refreshToken
    else if BringsToken(s, e) then HeldAfter(s.refreshToken, e)
    else s.refreshToken
  }

  predicate StoredAfter(s: State, e: Event) {
    if e.SignOut? || RefusesToken(s, e) then false
    else if BringsToken(s, e) then HeldAfter(s.disk.refreshToken, e)
    else s.disk.refreshToken
  }

  predicate TokensAfter(s: State, e: Event, t: State) {
    && t.accessToken == AccessAfter(s, e) && t.refreshToken == RefreshAfter(s, e)
    && t.disk.refreshToken == StoredAfter(s, e)
  }

  predicate SameTokens(s: State, t: State) {
    t.accessToken == s.accessToken && t.refreshToken == s.refreshToken && t.disk.refreshToken == s.disk.refreshToken
  }

  lemma MovedTokens(s: State, t: State)
    requires Moved(s, t)
    ensures SameTokens(s, t)
  {
  }

  lemma RequestTokens(s: State, request: Request)
    ensures SameTokens(s, OnRequest(s, request))
  {
  }

  lemma PinTokens(s: State, pin: string)
    ensures SameTokens(s, OnUnlockWithPin(s, pin)) && SameTokens(s, PinForgotten(s))
  {
    hide PinWrap.Parsed;
  }

  lemma LockingTokens(s: State, loc: L.Locale)
    ensures SameTokens(s, LockNow(s, loc))
    ensures var t := SignedOut(s, loc); !t.accessToken && !t.refreshToken && !t.disk.refreshToken
  {
    hide WithVault, V.Locked;
    VaultMovesOnly(s, V.Locked(s.vault), loc);
  }

  lemma ChangeTokens(s: State, minutes: int, ms: nat, e: L.Event, loc: L.Locale)
    ensures SameTokens(s, OnActivity(s)) && SameTokens(s, OnSetAutoLock(s, minutes))
    ensures SameTokens(s, OnTime(s, ms, loc)) && SameTokens(s, OnFilter(s, e, loc))
  {
    hide WithVault, V.Advance, V.SetAutoLock, V.NoteActivity, L.Step;
    VaultMovesOnly(s, V.Advance(s.vault, ms), loc);
  }

  lemma WriteTokens(c: Suite, s: State, write: Write)
    ensures SameTokens(s, OnWrite(c, s, write))
  {
    hide BodyExists, V.NoteActivity;
  }

  lemma DeriveTokens(c: Suite, s: State, result: Result<bytes>, loc: L.Locale)
    ensures SameTokens(s, OnDeriveDone(c, s, result, loc))
  {
    hide TryUnlock, V.VerifiesMasterKey;
    if s.work.derive.Some? && result.Ok? {
      TryUnlockMoves(c, s.(work := s.work.(derive := None), busy := false), result.value, loc);
    }
  }

  lemma PinDoneTokens(c: Suite, s: State, salt: bytes, iv: bytes, loc: L.Locale)
    ensures SameTokens(s, OnPinDone(c, s, salt, iv, loc))
  {
    hide TryUnlock, WrapResult, PinWrap.Unwrapped;
    if s.work.pin.Some? && s.work.pin.value.UnwrapJob? {
      var r := PinWrap.Unwrapped(c, s.work.pin.value.wrapped, c.toUtf8(s.work.pin.value.pin));
      if r.Ok? {
        TryUnlockMoves(c, s.(work := s.work.(pin := None), busy := false), r.value, loc);
      }
    }
  }

  lemma BlobTokens(c: Suite, t: State, job: NetJob, outcome: Outcome, loc: L.Locale)
    requires CarriesBlob(job)
    ensures SameTokens(t, OnBlobReply(c, t, job, outcome, loc))
  {
    hide ApplySyncBlob, Reload;
    if outcome.GotBlob? {
      ApplySyncTokens(c, t, outcome.doc, job.SyncAfterLogin?, loc);
      ReloadMoves(c, Stored(t.(busy := false), outcome.doc), outcome.doc, loc);
    }
  }

  lemma ApplySyncTokens(c: Suite, s: State, doc: Blob, freshLogin: bool, loc: L.Locale)
    ensures SameTokens(s, ApplySyncBlob(c, s, doc, freshLogin, loc))
  {
    hide LoadBlob, Reload;
    LoadBlobTokens(c, Stored(s, doc), doc, freshLogin, loc);
    ReloadMoves(c, Stored(s, doc), doc, loc);
  }

  lemma LoadBlobTokens(c: Suite, s: State, doc: Blob, freshLogin: bool, loc: L.Locale)
    ensures SameTokens(s, LoadBlob(c, s, doc, freshLogin, loc))
  {
    hide WithVault, TryUnlock, SyncParser.ParsedSync;
    VaultMovesOnly(s, V.LoadSync(s.vault, doc).0, loc);
    var t := WithVault(s, V.LoadSync(s.vault, doc).0, loc);
    if t.pendingSecrets.Some? {
      TryUnlockMoves(c, t.(pendingSecrets := None), t.pendingSecrets.value, loc);
    }
  }

  lemma PlainTokens(t: State, job: NetJob, outcome: Outcome)
    requires !CarriesBlob(job)
    ensures var u := OnPlainReply(t, job, outcome);
            var login, refresh := job.LoginReply? || job.TwoFactorReply?, job.RefreshForSync? || job.RefreshForWrite?;
            if (login || refresh) && outcome.GotToken? then
              && u.accessToken && u.refreshToken == (outcome.hasRefresh || (t.refreshToken && refresh))
              && u.disk.refreshToken == (outcome.hasRefresh || (t.disk.refreshToken && refresh))
            else if job.RefreshForSync? then
              u.accessToken == t.accessToken && !u.refreshToken && !u.disk.refreshToken
            else SameTokens(t, u)
  {
    hide OnPrelogin, OnWriteReply, FinishWrite;
    OtherTokens(t, outcome);
  }

  lemma OtherTokens(t: State, outcome: Outcome)
    ensures SameTokens(t, OnPrelogin(t, outcome)) && SameTokens(t, OnWriteReply(t, outcome))
    ensures SameTokens(t, FinishWrite(t, outcome.Written?))
  {
  }

  lemma NetTokens(c: Suite, s: State, job: NetJob, outcome: Outcome, loc: L.Locale)
    ensures TokensAfter(s, NetDone(job, outcome), OnNetDone(c, s, job, outcome, loc))
  {
    hide OnBlobReply, OnPlainReply;
    if job in s.work.net {
      var t := s.(work := s.work.(net := s.work.net - multiset{job}));
      if CarriesBlob(job) {
        BlobTokens(c, t, job, outcome, loc);
      } else {
        PlainTokens(t, job, outcome);
      }
    }
  }

  lemma StartedTokens(disk: Disk)
    ensures var t := Started(disk); !t.accessToken && t.refreshToken == disk.refreshToken && t.disk == disk
  {
    hide V.LoadSync, V.SetAutoLock;
  }

  /** The tokens after every event. */
  lemma NextTokens(c: Suite, s: State, e: Event, loc: L.Locale)
    ensures TokensAfter(s, e, Next(c, s, e, loc))
  {
    hide OnRequest, OnUnlockWithPin, PinForgotten, SignedOut, LockNow, OnActivity, OnSetAutoLock, OnTime, OnFilter,
         OnWrite, OnDeriveDone, OnPinDone, OnNetDone, Started, HeldAfter;
    match e
    case Asked(request) => RequestTokens(s, request);
    case UnlockWithPin(pin) => PinTokens(s, pin);
    case DisablePin => PinTokens(s, "");
    case SignOut => LockingTokens(s, loc);
    case Lock => LockingTokens(s, loc);
    case Minimised => LockingTokens(s, loc);
    case Activity => ChangeTokens(s, 0, 0, L.Searched(""), loc);
    case SetAutoLock(minutes) => ChangeTokens(s, minutes, 0, L.Searched(""), loc);
    case TimePasses(ms) => ChangeTokens(s, 0, ms, L.Searched(""), loc);
    case SetSearch(query) => ChangeTokens(s, 0, 0, L.Searched(query), loc);
    case SetFolder(folder) => ChangeTokens(s, 0, 0, L.Foldered(folder), loc);
    case WriteItem(write) => WriteTokens(c, s, write);
    case DeriveDone(result) => DeriveTokens(c, s, result, loc);
    case PinDone(salt, iv) => PinDoneTokens(c, s, salt, iv, loc);
    case NetDone(job, outcome) => NetTokens(c, s, job, outcome, loc);
    case Restart => StartedTokens(s.disk);
  }

  /** Over every run the refresh token in memory is the stored one. */
  lemma {:induction false} TokensAgree(c: Suite, s: State, events: seq<Event>, loc: L.Locale)
    requires s.refreshToken == s.disk.refreshToken
    ensures var t := Run(c, s, events, loc); t.refreshToken == t.disk.refreshToken
    decreases |events|
  {
    hide Next;
    if events != [] {
      NextTokens(c, s, events[0], loc);
      TokensAgree(c, Next(c, s, events[0], loc), events[1..], loc);
    }
  }

  // ----- calls that need a token -----

  /** How many calls of a kind are outstanding. */
  function Calls(s: State, job: NetJob): nat {
    s.work.net[job]
  }

  /** The step starts a refresh or a write. */
  predicate StartsCall(s: State, t: State) {
    || Calls(t, RefreshForSync) > Calls(s, RefreshForSync)
    || Calls(t, RefreshForWrite) > Calls(s, RefreshForWrite)
    || Calls(t, WriteReply) > Calls(s, WriteReply)
  }

  /** The item can be written: unlocked page, and the vault builds the body. */
  ghost predicate Writes(c: Suite, s: State, e: Event) {
    e.WriteItem? && s.phase == Unlocked && BodyExists(c, s, e.write)
  }

  /** An outstanding write is refused for its token. */
  predicate Expires(s: State, e: Event) {
    e.NetDone? && e.job.WriteReply? && WriteReply in s.work.net && e.outcome.Unauthorized?
  }

  /** A refresh for a sync is started exactly by asking for a sync with a refresh token; a
      write exactly by writing an item with an access token; and a refresh for a write
      exactly by writing without one, or by a refusal, with a refresh token. */
  ghost predicate CallsExact(c: Suite, s: State, e: Event, t: State) {
    && (Calls(t, RefreshForSync) > Calls(s, RefreshForSync) <==> e == Asked(SyncNow) && s.refreshToken)
    && (Calls(t, WriteReply) > Calls(s, WriteReply) <==> Writes(c, s, e) && s.accessToken)
    && (Calls(t, RefreshForWrite) > Calls(s, RefreshForWrite) <==>
        s.refreshToken && ((Writes(c, s, e) && !s.accessToken) || Expires(s, e)))
  }

  predicate NoNewCalls(s: State, t: State) {
    !StartsCall(s, t)
  }

  lemma RequestCalls(c: Suite, s: State, request: Request)
    ensures CallsExact(c, s, Asked(request), OnRequest(s, request))
  {
    hide BodyExists;
  }

  lemma WriteCalls(c: Suite, s: State, write: Write)
    ensures CallsExact(c, s, WriteItem(write), OnWrite(c, s, write))
  {
    hide BodyExists, V.NoteActivity;
  }

  lemma PinCalls(s: State, pin: string)
    ensures NoNewCalls(s, OnUnlockWithPin(s, pin)) && NoNewCalls(s, PinForgotten(s))
  {
    hide PinWrap.Parsed;
  }

  lemma MovedCalls(s: State, t: State)
    requires Moved(s, t)
    ensures t.work == s.work
  {
  }

  lemma LockingCalls(s: State, loc: L.Locale)
    ensures LockNow(s, loc).work == s.work && SignedOut(s, loc).work == s.work
  {
    hide WithVault, V.Locked;
    VaultMovesOnly(s, V.Locked(s.vault), loc);
  }

  lemma ChangeCalls(s: State, minutes: int, ms: nat, e: L.Event, loc: L.Locale)
    ensures OnActivity(s).work == s.work && OnSetAutoLock(s, minutes).work == s.work
    ensures OnTime(s, ms, loc).work == s.work && OnFilter(s, e, loc).work == s.work
  {
    hide WithVault, V.Advance, V.SetAutoLock, V.NoteActivity, L.Step;
    VaultMovesOnly(s, V.Advance(s.vault, ms), loc);
  }

  lemma DeriveCalls(c: Suite, s: State, result: Result<bytes>, loc: L.Locale)
    ensures NoNewCalls(s, OnDeriveDone(c, s, result, loc))
  {
    hide TryUnlock, V.VerifiesMasterKey;
    if s.work.derive.Some? && result.Ok? {
      TryUnlockMoves(c, s.(work := s.work.(derive := None), busy := false), result.value, loc);
    }
  }

  lemma PinDoneCalls(c: Suite, s: State, salt: bytes, iv: bytes, loc: L.Locale)
    ensures NoNewCalls(s, OnPinDone(c, s, salt, iv, loc))
  {
    hide TryUnlock, WrapResult, PinWrap.Unwrapped;
    if s.work.pin.Some? && s.work.pin.value.UnwrapJob? {
      var r := PinWrap.Unwrapped(c, s.work.pin.value.wrapped, c.toUtf8(s.work.pin.value.pin));
      if r.Ok? {
        TryUnlockMoves(c, s.(work := s.work.(pin := None), busy := false), r.value, loc);
      }
    }
  }

  lemma BlobCalls(c: Suite, t: State, job: NetJob, outcome: Outcome, loc: L.Locale)
    requires CarriesBlob(job)
    ensures OnBlobReply(c, t, job, outcome, loc).work == t.work
  {
    hide ApplySyncBlob, Reload;
    if outcome.GotBlob? {
      ApplySyncCalls(c, t, outcome.doc, job.SyncAfterLogin?, loc);
      ReloadMoves(c, Stored(t.(busy := false), outcome.doc), outcome.doc, loc);
    }
  }

  lemma ApplySyncCalls(c: Suite, s: State, doc: Blob, freshLogin: bool, loc: L.Locale)
    ensures ApplySyncBlob(c, s, doc, freshLogin, loc).work == s.work
  {
    hide LoadBlob, Reload;
    LoadBlobCalls(c, Stored(s, doc), doc, freshLogin, loc);
    ReloadMoves(c, Stored(s, doc), doc, loc);
  }

  lemma LoadBlobCalls(c: Suite, s: State, doc: Blob, freshLogin: bool, loc: L.Locale)
    ensures LoadBlob(c, s, doc, freshLogin, loc).work == s.work
  {
    hide WithVault, TryUnlock, SyncParser.ParsedSync;
    VaultMovesOnly(s, V.LoadSync(s.vault, doc).0, loc);
    var t := WithVault(s, V.LoadSync(s.vault, doc).0, loc);
    if t.pendingSecrets.Some? {
      TryUnlockMoves(c, t.(pendingSecrets := None), t.pendingSecrets.value, loc);
    }
  }

  lemma PlainCalls(t: State, job: NetJob, outcome: Outcome)
    requires !CarriesBlob(job)
    ensures var u := OnPlainReply(t, job, outcome);
            && Calls(u, RefreshForSync) == Calls(t, RefreshForSync) && Calls(u, WriteReply) == Calls(t, WriteReply)
            && Calls(u, RefreshForWrite) == Calls(t, RefreshForWrite)
                 + (if job.WriteReply? && outcome.Unauthorized? && t.refreshToken then 1 else 0)
  {
    hide OnPrelogin, OnLoginReply, OnTwoFactorReply, OnRefreshForSync, OnRefreshForWrite;
    LoginCalls(t, outcome);
    RefreshCalls(t, outcome);
  }

  predicate SameCalls(t: State, u: State) {
    && Calls(u, RefreshForSync) == Calls(t, RefreshForSync) && Calls(u, WriteReply) == Calls(t, WriteReply)
    && Calls(u, RefreshForWrite) == Calls(t, RefreshForWrite)
  }

  lemma LoginCalls(t: State, outcome: Outcome)
    ensures SameCalls(t, OnPrelogin(t, outcome)) && SameCalls(t, OnLoginReply(t, outcome))
    ensures SameCalls(t, OnTwoFactorReply(t, outcome))
  {
  }

  lemma RefreshCalls(t: State, outcome: Outcome)
    ensures SameCalls(t, OnRefreshForSync(t, outcome)) && SameCalls(t, OnRefreshForWrite(t, outcome))
  {
  }

  lemma NetCalls(c: Suite, s: State, job: NetJob, outcome: Outcome, loc: L.Locale)
    ensures CallsExact(c, s, NetDone(job, outcome), OnNetDone(c, s, job, outcome, loc))
  {
    hide OnBlobReply, OnPlainReply, BodyExists;
    if job in s.work.net {
      var t := s.(work := s.work.(net := s.work.net - multiset{job}));
      if CarriesBlob(job) {
        BlobCalls(c, t, job, outcome, loc);
      } else {
        PlainCalls(t, job, outcome);
      }
    }
  }

  lemma StartedCalls(disk: Disk)
    ensures Started(disk).work == NO_WORK
  {
    hide V.LoadSync, V.SetAutoLock;
  }

  lemma CallsExactly(c: Suite, s: State, e: Event, loc: L.Locale)
    ensures CallsExact(c, s, e, Next(c, s, e, loc))
  {
    hide OnRequest, OnUnlockWithPin, PinForgotten, SignedOut, LockNow, OnActivity, OnSetAutoLock, OnTime, OnFilter,
         OnWrite, OnDeriveDone, OnPinDone, OnNetDone, Started, BodyExists;
    match e
    case Asked(request) => RequestCalls(c, s, request);
    case UnlockWithPin(pin) => PinCalls(s, pin);
    case DisablePin => PinCalls(s, "");
    case SignOut => LockingCalls(s, loc);
    case Lock => LockingCalls(s, loc);
    case Minimised => LockingCalls(s, loc);
    case Activity => ChangeCalls(s, 0, 0, L.Searched(""), loc);
    case SetAutoLock(minutes) => ChangeCalls(s, minutes, 0, L.Searched(""), loc);
    case TimePasses(ms) => ChangeCalls(s, 0, ms, L.Searched(""), loc);
    case SetSearch(query) => ChangeCalls(s, 0, 0, L.Searched(query), loc);
    case SetFolder(folder) => ChangeCalls(s, 0, 0, L.Foldered(folder), loc);
    case WriteItem(write) => WriteCalls(c, s, write);
    case DeriveDone(result) => DeriveCalls(c, s, result, loc);
    case PinDone(salt, iv) => PinDoneCalls(c, s, salt, iv, loc);
    case NetDone(job, outcome) => NetCalls(c, s, job, outcome, loc);
    case Restart => StartedCalls(s.disk);
  }
}
