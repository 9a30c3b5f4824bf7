/** What the user's actions come to once their calls are answered: a saved item, a sync, a
    login with a second factor; and that answering calls always comes to an end. */
module ControllerFlows {
  import opened Words
  import opened Wrappers
  import opened Json
  import opened CryptoSuite
  import CipherItem
  import SyncParser
  import V = VaultSpec
  import VR = VaultRuns
  import VaultRows
  import E = VaultEdit
  import EditedRows
  import L = ListModel
  import PinWrap
  import Accounts
  import opened ControllerSpec
  import opened ControllerRuns
  import opened ControllerPages
  import opened ControllerLosses
  import opened ControllerTokens
  import opened ControllerVault

  // ----- writing an item -----

  function Outstanding(job: NetJob): Work {
    NO_WORK.(net := multiset{job})
  }

  /** The vault and page that a write's document leads to: the vault reloads it, and the
      page stays unlocked exactly when that succeeds. */
  ghost predicate Resynced(c: Suite, v: V.State, doc: Blob, t: State) {
    && t.vault == V.ReloadSync(c, v, doc).0 && t.disk.blob == Some(doc) && t.work == NO_WORK && !t.busy
    && (if V.ReloadSync(c, v, doc).1.Ok? then t.phase == Unlocked && t.list.source == t.vault.items
        else t.phase == Locked)
  }

  lemma Taken(job: NetJob)
    ensures var none: multiset<NetJob> := multiset{};
            multiset{job} - multiset{job} == none && forall j: NetJob :: none + multiset{j} == multiset{j}
  {
  }

  /** One answer, with only that call outstanding. */
  lemma Answers(c: Suite, s: State, job: NetJob, outcome: Outcome, loc: L.Locale)
    requires s.work == Outstanding(job)
    ensures var t := s.(work := NO_WORK);
            Next(c, s, NetDone(job, outcome), loc)
            == if CarriesBlob(job) then OnBlobReply(c, t, job, outcome, loc) else OnPlainReply(t, job, outcome)
  {
    hide Next, OnBlobReply, OnPlainReply;
    Taken(job);
    Arms(c, s, SyncNow, job, outcome, Ok([]), loc);
  }

  lemma DocumentArrives(c: Suite, s: State, doc: Blob, loc: L.Locale)
    requires s.work == Outstanding(SyncAfterWrite) && s.phase == Unlocked
    ensures Resynced(c, s.vault, doc, Next(c, s, NetDone(SyncAfterWrite, GotBlob(doc)), loc))
  {
    hide Next, V.ReloadSync;
    Answers(c, s, SyncAfterWrite, GotBlob(doc), loc);
    ReloadResyncs(c, s.(work := NO_WORK, busy := false), doc, loc);
  }

  lemma ReloadResyncs(c: Suite, s: State, doc: Blob, loc: L.Locale)
    requires s.work == NO_WORK && s.phase == Unlocked && !s.busy
    ensures Resynced(c, s.vault, doc, Reload(c, Stored(s, doc), doc, loc))
  {
    hide V.ReloadSync, WithVault;
    var (v, r) := V.ReloadSync(c, s.vault, doc);
    WithVaultIs(Stored(s, doc), v, loc);
    if r.Ok? {
      ReloadQuiet(c, s.vault, doc);
      QuietSignals(Stored(s, doc), v, loc);
      ListFollows(s.list, v.items, loc);
    }
  }

  lemma ReloadQuiet(c: Suite, v: V.State, doc: Blob)
    ensures V.ReloadSync(c, v, doc).1.Ok? ==> V.ReloadSync(c, v, doc).0.emitted == v.emitted
  {
    hide V.Rebuilt, SyncParser.ParsedSync;
  }

  lemma ListFollows(s: L.State, items: seq<CipherItem.Item>, loc: L.Locale)
    ensures L.Step(s, L.Refreshed(items), loc).source == items
  {
    hide L.Filtered;
  }

  /** The request leaves with an access token, or a refresh does if only that can be had. */
  lemma WriteStarts(c: Suite, s: State, write: Write, loc: L.Locale)
    requires s.phase == Unlocked && BodyExists(c, s, write) && s.work == NO_WORK
    ensures var t := Next(c, s, WriteItem(write), loc);
            && t.vault == V.NoteActivity(s.vault) && t.phase == Unlocked && t.list == s.list && SameTokens(s, t)
            && (s.accessToken ==> t.work == Outstanding(WriteReply))
            && (!s.accessToken && s.refreshToken ==> t.work == Outstanding(RefreshForWrite))
            && (!s.accessToken && !s.refreshToken ==> t.work == NO_WORK && !t.busy)
  {
    hide Next, BodyExists, V.NoteActivity;
    Taken(WriteReply);
    WriteArm(c, s, write, loc);
  }

  lemma WriteArm(c: Suite, s: State, write: Write, loc: L.Locale)
    ensures Next(c, s, WriteItem(write), loc) == OnWrite(c, s, write)
  {
    hide OnRequest, OnUnlockWithPin, SignedOut, LockNow, OnMinimised, OnActivity, OnSetAutoLock, OnTime, OnFilter,
         OnWrite, OnDeriveDone, OnPinDone, OnNetDone, Started, PinForgotten;
  }

  /** Each answer on the way leads to the next call, and to nothing else. */
  lemma FirstTry(c: Suite, s: State, loc: L.Locale)
    requires s.work == Outstanding(WriteReply)
    ensures Next(c, s, NetDone(WriteReply, Written), loc) == s.(work := Outstanding(SyncAfterWrite))
    ensures s.refreshToken ==>
              Next(c, s, NetDone(WriteReply, Unauthorized), loc) == s.(work := Outstanding(RefreshForWrite))
  {
    hide Next, CarriesBlob;
    CarryNone();
    Taken(WriteReply);
    Answers(c, s, WriteReply, Written, loc);
    Answers(c, s, WriteReply, Unauthorized, loc);
  }

  lemma Refreshed(c: Suite, s: State, hasRefresh: bool, loc: L.Locale)
    requires s.work == Outstanding(RefreshForWrite)
    ensures var t := Next(c, s, NetDone(RefreshForWrite, GotToken(hasRefresh)), loc);
            t.vault == s.vault && t.list == s.list && t.phase == s.phase && t.work == Outstanding(RetryReply)
  {
    hide Next, CarriesBlob;
    CarryNone();
    Taken(RefreshForWrite);
    Answers(c, s, RefreshForWrite, GotToken(hasRefresh), loc);
  }

  lemma SecondTry(c: Suite, s: State, loc: L.Locale)
    requires s.work == Outstanding(RetryReply)
    ensures Next(c, s, NetDone(RetryReply, Written), loc) == s.(work := Outstanding(SyncAfterWrite))
    ensures Next(c, s, NetDone(RetryReply, Unauthorized), loc) == s.(work := NO_WORK, busy := false)
  {
    hide Next, CarriesBlob;
    CarryNone();
    Taken(RetryReply);
    Answers(c, s, RetryReply, Written, loc);
    Answers(c, s, RetryReply, Unauthorized, loc);
  }

  lemma CarryNone()
    ensures !CarriesBlob(WriteReply) && !CarriesBlob(RefreshForWrite) && !CarriesBlob(RetryReply)
  {
  }

  /** The answers to a write that went through: at once with a token that is still good;
      after a refusal, a refresh and a second try; or after a refresh without any token. */
  function WriteAnswers(access: bool, refused: bool, hasRefresh: bool, doc: Blob): seq<Event> {
    if access && !refused then [NetDone(WriteReply, Written), NetDone(SyncAfterWrite, GotBlob(doc))]
    else
      (if access then [NetDone(WriteReply, Unauthorized)] else [])
      + [NetDone(RefreshForWrite, GotToken(hasRefresh)), NetDone(RetryReply, Written),
         NetDone(SyncAfterWrite, GotBlob(doc))]
  }

  /** An expired or missing access token makes no difference to vault, list and page: in
      each of the three ways the vault reloads the same document. */
  lemma WriteEitherWay(c: Suite, s: State, write: Write, refused: bool, hasRefresh: bool, doc: Blob, loc: L.Locale)
    requires s.phase == Unlocked && BodyExists(c, s, write) && s.work == NO_WORK
    requires (s.accessToken && !refused) || s.refreshToken
    ensures Resynced(c, V.NoteActivity(s.vault), doc,
                     Run(c, s, [WriteItem(write)] + WriteAnswers(s.accessToken, refused, hasRefresh, doc), loc))
  {
    hide Next, Run, BodyExists, Resynced, V.NoteActivity;
    var t := Next(c, s, WriteItem(write), loc);
    OneStep(c, s, WriteItem(write), WriteAnswers(s.accessToken, refused, hasRefresh, doc), loc);
    WriteStarts(c, s, write, loc);
    if s.accessToken && !refused {
      FirstTry(c, t, loc);
      TwoSteps(c, t, NetDone(WriteReply, Written), NetDone(SyncAfterWrite, GotBlob(doc)), loc);
      DocumentArrives(c, t.(work := Outstanding(SyncAfterWrite)), doc, loc);
    } else if s.accessToken {
      FirstTry(c, t, loc);
      OneStep(c, t, NetDone(WriteReply, Unauthorized), WriteAnswers(false, refused, hasRefresh, doc), loc);
      AnswersSplit(refused, hasRefresh, doc);
      RefreshedWrite(c, t.(work := Outstanding(RefreshForWrite)), refused, hasRefresh, doc, loc);
    } else {
      RefreshedWrite(c, t, refused, hasRefresh, doc, loc);
    }
  }

  lemma AnswersSplit(refused: bool, hasRefresh: bool, doc: Blob)
    requires refused
    ensures WriteAnswers(true, refused, hasRefresh, doc)
            == [NetDone(WriteReply, Unauthorized)] + WriteAnswers(false, refused, hasRefresh, doc)
  {
  }

  lemma RefreshedWrite(c: Suite, s: State, refused: bool, hasRefresh: bool, doc: Blob, loc: L.Locale)
    requires s.work == Outstanding(RefreshForWrite) && s.phase == Unlocked
    ensures Resynced(c, s.vault, doc, Run(c, s, WriteAnswers(false, refused, hasRefresh, doc), loc))
  {
    hide Next, Run, Resynced;
    var t := Next(c, s, NetDone(RefreshForWrite, GotToken(hasRefresh)), loc);
    Refreshed(c, s, hasRefresh, loc);
    SecondTry(c, t, loc);
    ThreeSteps(c, s, NetDone(RefreshForWrite, GotToken(hasRefresh)), NetDone(RetryReply, Written),
               NetDone(SyncAfterWrite, GotBlob(doc)), loc);
    assert WriteAnswers(false, refused, hasRefresh, doc)
           == [NetDone(RefreshForWrite, GotToken(hasRefresh)), NetDone(RetryReply, Written),
               NetDone(SyncAfterWrite, GotBlob(doc))];
    DocumentArrives(c, t.(work := Outstanding(SyncAfterWrite)), doc, loc);
  }

  /** A token is refreshed once: when the second try is refused too, the write ends. */
  lemma RefusedTwice(c: Suite, s: State, write: Write, hasRefresh: bool, loc: L.Locale)
    requires s.phase == Unlocked && BodyExists(c, s, write) && s.work == NO_WORK && s.accessToken && s.refreshToken
    ensures var t := Run(c, s, [WriteItem(write), NetDone(WriteReply, Unauthorized),
                                NetDone(RefreshForWrite, GotToken(hasRefresh)), NetDone(RetryReply, Unauthorized)], loc);
            t.work == NO_WORK && !t.busy && t.vault == V.NoteActivity(s.vault) && t.list == s.list && t.phase == Unlocked
  {
    hide Next, Run, BodyExists, V.NoteActivity;
    var t := Next(c, s, WriteItem(write), loc);
    var u := t.(work := Outstanding(RefreshForWrite));
    FourSteps(c, s, WriteItem(write), NetDone(WriteReply, Unauthorized), NetDone(RefreshForWrite, GotToken(hasRefresh)),
              NetDone(RetryReply, Unauthorized), loc);
    WriteStarts(c, s, write, loc);
    FirstTry(c, t, loc);
    Refreshed(c, u, hasRefresh, loc);
    SecondTry(c, Next(c, u, NetDone(RefreshForWrite, GotToken(hasRefresh)), loc), loc);
  }

  // ----- from the editor to the list -----

  lemma ActiveVault(c: Suite, v: V.State)
    requires VR.Inv(c, v) && !v.locked
    ensures var w := V.NoteActivity(v);
            && VR.Inv(c, w) && !w.locked && w.data == v.data && w.userKey == v.userKey && w.orgKeys == v.orgKeys
            && w.items == v.items
  {
    hide VR.Current;
    VR.StepKeepsInv(c, v, V.DoActivity);
  }

  lemma SameBodies(c: Suite, v: V.State, w: V.State, x: SyncParser.Cipher, k: Key, f: E.Entered, i: E.Ivs)
    requires w.locked == v.locked && w.data == v.data && w.userKey == v.userKey && w.orgKeys == v.orgKeys
    ensures E.BuiltUpdate(c, w, x.id, f, i) == E.BuiltUpdate(c, v, x.id, f, i)
    ensures VaultRows.KeyIs(c, w, x, k) <==> VaultRows.KeyIs(c, v, x, k)
  {
    hide VaultRows.ItemKeyIs, E.UpdateBody, V.CipherKey;
    assert forall owner :: VaultRows.OwnerIs(w, x, owner) <==> VaultRows.OwnerIs(v, x, owner);
  }

  /** Saving an entry with a name in an open session, whatever its tokens need: once the
      server has answered with the saved item in its place, the list shows the entered
      values in the item's row and every other row as before. */
  lemma SaveShows(c: Suite, s: State, i: nat, f: E.Entered, iv: E.Ivs, k: Key, refused: bool, hasRefresh: bool, doc: Blob,
                  loc: L.Locale)
    requires Lawful(c) && E.Fresh16(iv) && Inv(c, s, loc) && s.phase == Unlocked && s.work == NO_WORK && f.name != ""
    requires (s.accessToken && !refused) || s.refreshToken
    requires i < |s.vault.data.ciphers|
    requires forall j :: 0 <= j < i ==> s.vault.data.ciphers[j].id != s.vault.data.ciphers[i].id
    requires VaultRows.KeyIs(c, s.vault, s.vault.data.ciphers[i], k)
    requires var x := s.vault.data.ciphers[i];
             var b := E.BuiltUpdate(c, s.vault, x.id, f, iv);
             b.Ok? && var back := SyncParser.ParsedCipher(b.value["id" := Str(x.id)]);
             back.Some? && SyncParser.ParsedSync(doc)
                           == Ok(s.vault.data.(ciphers := s.vault.data.ciphers[i := back.value]))
    ensures var x := s.vault.data.ciphers[i];
            var t := Run(c, s, [WriteItem(Save(x.id, f, iv))] + WriteAnswers(s.accessToken, refused, hasRefresh, doc), loc);
            && t.phase == Unlocked && !t.vault.locked && t.disk.blob == Some(doc)
            && exists row, item :: 0 <= row < |s.vault.items| && t.list.source == s.vault.items[row := item]
                                   && EditedRows.ShowsEntered(f, x, s.vault.items[row], item)
  {
    hide Inv, Run, Next, VR.Inv, VaultRows.KeyIs, E.BuiltUpdate, SyncParser.ParsedSync, SyncParser.ParsedCipher,
         V.ReloadSync, V.NoteActivity, EditedRows.ShowsEntered, WriteAnswers, VaultRows.Opens;
    var x := s.vault.data.ciphers[i];
    OpenSession(c, s, loc);
    ActiveVault(c, s.vault);
    var v := V.NoteActivity(s.vault);
    SameBodies(c, s.vault, v, x, k, f, iv);
    WriteEitherWay(c, s, Save(x.id, f, iv), refused, hasRefresh, doc, loc);
    EditedRows.EditThenSync(c, v, i, f, iv, k, doc);
  }

  lemma OpenSession(c: Suite, s: State, loc: L.Locale)
    requires Inv(c, s, loc) && s.phase == Unlocked
    ensures VR.Inv(c, s.vault) && !s.vault.locked
  {
    hide VR.Inv;
  }

  // ----- a sync -----

  /** Asking for a sync in an open session, and its two answers: the vault reloads the
      document, and the page stays unlocked exactly when that succeeds. */
  lemma SyncResyncs(c: Suite, s: State, hasRefresh: bool, doc: Blob, loc: L.Locale)
    requires s.phase == Unlocked && !s.vault.locked && s.refreshToken && s.work == NO_WORK
    ensures Resynced(c, s.vault, doc,
                     Run(c, s, [Asked(SyncNow), NetDone(RefreshForSync, GotToken(hasRefresh)),
                                NetDone(SyncReply, GotBlob(doc))], loc))
  {
    hide Next, Run, Resynced;
    var s1 := s.(busy := true, work := Outstanding(RefreshForSync));
    var s2 := Next(c, s1, NetDone(RefreshForSync, GotToken(hasRefresh)), loc);
    ThreeSteps(c, s, Asked(SyncNow), NetDone(RefreshForSync, GotToken(hasRefresh)), NetDone(SyncReply, GotBlob(doc)), loc);
    Arms(c, s, SyncNow, Prelogin, Failed, Ok([]), loc);
    SyncSteps(c, s, hasRefresh, loc);
    SyncArrives(c, s2, doc, loc);
  }

  lemma SyncSteps(c: Suite, s: State, hasRefresh: bool, loc: L.Locale)
    requires s.refreshToken && s.work == NO_WORK
    ensures var s1 := s.(busy := true, work := Outstanding(RefreshForSync));
            var s2 := Next(c, s1, NetDone(RefreshForSync, GotToken(hasRefresh)), loc);
            && OnRequest(s, SyncNow) == s1
            && s2.vault == s.vault && s2.list == s.list && s2.phase == s.phase && s2.work == Outstanding(SyncReply)
  {
    hide Next;
    Taken(RefreshForSync);
    Answers(c, s.(busy := true, work := Outstanding(RefreshForSync)), RefreshForSync, GotToken(hasRefresh), loc);
  }

  lemma SyncArrives(c: Suite, s: State, doc: Blob, loc: L.Locale)
    requires s.work == Outstanding(SyncReply) && s.phase == Unlocked && !s.vault.locked
    ensures Resynced(c, s.vault, doc, Next(c, s, NetDone(SyncReply, GotBlob(doc)), loc))
  {
    hide Next, V.ReloadSync, Reload;
    Answers(c, s, SyncReply, GotBlob(doc), loc);
    ReloadResyncs(c, s.(work := NO_WORK, busy := false), doc, loc);
    BusyApart(c, s.(work := NO_WORK), doc, loc);
  }

  /** A reload does not look at the busy flag. */
  lemma BusyApart(c: Suite, s: State, doc: Blob, loc: L.Locale)
    ensures Reload(c, Stored(s, doc), doc, loc).(busy := false) == Reload(c, Stored(s.(busy := false), doc), doc, loc)
  {
    hide V.ReloadSync, L.Step;
    var v := V.ReloadSync(c, s.vault, doc).0;
    NotifiedBusy(Stored(s, doc).(vault := v), Since(v.emitted, |s.vault.emitted|), loc);
  }

  lemma {:induction false} NotifiedBusy(s: State, signals: seq<V.LockedChanged>, loc: L.Locale)
    ensures Notified(s, signals, loc).(busy := false) == Notified(s.(busy := false), signals, loc)
    decreases |signals|
  {
    hide L.Step;
    if signals != [] {
      NotifiedBusy(OnLockedChanged(s, signals[0], loc), signals[1..], loc);
    }
  }

  /** A sync whose refresh is refused forgets the refresh token and asks for a login, but
      only over a closed vault; an open session stays as it is. */
  lemma SyncRefused(c: Suite, s: State, outcome: Outcome, loc: L.Locale)
    requires s.refreshToken && s.work == NO_WORK && !outcome.GotToken?
    ensures var t := Next(c, Next(c, s, Asked(SyncNow), loc), NetDone(RefreshForSync, outcome), loc);
            && t.vault == s.vault && t.list == s.list && t.work == NO_WORK && !t.busy
            && t.phase == (if s.vault.locked then Login else s.phase)
            && !t.refreshToken && !t.disk.refreshToken && t.disk == s.disk.(refreshToken := false)
  {
    hide Next;
    Arms(c, s, SyncNow, Prelogin, Failed, Ok([]), loc);
    Taken(RefreshForSync);
    Answers(c, s.(busy := true, work := Outstanding(RefreshForSync)), RefreshForSync, outcome, loc);
  }

  // ----- a second factor -----

  /** The answers of a login with a second factor, of an account without items. */
  ghost function SecondFactorEvents(c: Suite, a: Accounts.Account): seq<Event>
    requires Lawful(c) && a.Valid()
  {
    [NetDone(LoginReply, SecondFactor), Asked(SubmitTwoFactor), NetDone(TwoFactorReply, GotToken(true)),
     NetDone(SyncAfterLogin, GotBlob(Some(EmptyDoc(c, a))))]
  }

  lemma SecondFactorSteps(c: Suite, email: string, masterKey: bytes, loc: L.Locale)
    ensures var s := LoggingIn(email, masterKey);
            var s1 := s.(pendingHash := true, busy := false, phase := TwoFactor, work := NO_WORK);
            var s2 := s1.(busy := true, work := Outstanding(TwoFactorReply));
            var s3 := s2.(accessToken := true, refreshToken := true, pendingHash := false,
                          disk := s2.disk.(refreshToken := true), work := Outstanding(SyncAfterLogin));
            && Next(c, s, NetDone(LoginReply, SecondFactor), loc) == s1
            && OnRequest(s1, SubmitTwoFactor) == s2
            && Next(c, s2, NetDone(TwoFactorReply, GotToken(true)), loc) == s3
  {
    hide Next;
    var s := LoggingIn(email, masterKey);
    Taken(LoginReply);
    Answers(c, s, LoginReply, SecondFactor, loc);
    Answers(c, s.(pendingHash := true, busy := true, phase := TwoFactor, work := Outstanding(TwoFactorReply)),
            TwoFactorReply, GotToken(true), loc);
  }

  /** Such an account reaches an unlocked session through the second factor too. */
  lemma TwoFactorSession(c: Suite, a: Accounts.Account, email: string, loc: L.Locale)
    requires Lawful(c) && a.Valid() && email != ""
    ensures Session(Run(c, FirstStart(), LoginEvents(email, a.masterKey) + SecondFactorEvents(c, a), loc))
  {
    hide Run, Next, Inv, FirstStart, LoginEvents, ApplySyncBlob, EmptyDoc, Session, OnRequest;
    var s := LoggingIn(email, a.masterKey);
    var s1 := s.(pendingHash := true, busy := false, phase := TwoFactor, work := NO_WORK);
    var s3 := s1.(busy := true, accessToken := true, refreshToken := true, pendingHash := false,
                  disk := s1.disk.(refreshToken := true), work := Outstanding(SyncAfterLogin));
    RunLogin(c, email, a.masterKey, loc);
    RunOn(c, FirstStart(), LoginEvents(email, a.masterKey), SecondFactorEvents(c, a), loc);
    LoggingInKeeps(c, email, a.masterKey, loc);
    FourSteps(c, s, NetDone(LoginReply, SecondFactor), Asked(SubmitTwoFactor), NetDone(TwoFactorReply, GotToken(true)),
              NetDone(SyncAfterLogin, GotBlob(Some(EmptyDoc(c, a)))), loc);
    SecondFactorSteps(c, email, a.masterKey, loc);
    Arms(c, s1, SubmitTwoFactor, Prelogin, Failed, Ok([]), loc);
    Answers(c, s3, SyncAfterLogin, GotBlob(Some(EmptyDoc(c, a))), loc);
    QuietKeeps(c, s, s3.(work := NO_WORK), loc);
    SyncUnlocks(c, s3.(work := NO_WORK), a, loc);
  }

  // ----- answering comes to an end -----

  /** How many more answers one call can lead to, with itself. */
  function Weight(job: NetJob): nat {
    match job
    case Prelogin => 4
    case LoginReply => 2
    case TwoFactorReply => 2
    case RefreshForSync => 2
    case WriteReply => 4
    case RefreshForWrite => 3
    case RetryReply => 2
    case _ => 1
  }

  function NetLoad(net: multiset<NetJob>): nat {
    4 * net[Prelogin] + 2 * net[LoginReply] + 2 * net[TwoFactorReply] + 2 * net[RefreshForSync] + 4 * net[WriteReply]
    + 3 * net[RefreshForWrite] + 2 * net[RetryReply] + net[SyncAfterLogin] + net[SyncReply] + net[SyncAfterWrite]
  }

  function Load(s: State): nat {
    NetLoad(s.work.net) + (if s.work.derive.Some? then 3 else 0) + (if s.work.pin.Some? then 1 else 0)
  }

  /** A result is delivered for work that is outstanding. */
  predicate Completion(s: State, e: Event) {
    || (e.NetDone? && e.job in s.work.net)
    || (e.DeriveDone? && s.work.derive.Some?)
    || (e.PinDone? && s.work.pin.Some?)
  }

  lemma LoadAdded(net: multiset<NetJob>, job: NetJob)
    ensures NetLoad(net + multiset{job}) == NetLoad(net) + Weight(job)
  {
  }

  lemma LoadTaken(net: multiset<NetJob>, job: NetJob)
    requires job in net
    ensures NetLoad(net - multiset{job}) == NetLoad(net) - Weight(job)
  {
    hide NetLoad;
    assert net == (net - multiset{job}) + multiset{job};
    LoadAdded(net - multiset{job}, job);
  }

  lemma LoginLoad(t: State, outcome: Outcome)
    ensures Load(OnPrelogin(t, outcome)) < Load(t) + Weight(Prelogin)
    ensures Load(OnLoginReply(t, outcome)) < Load(t) + Weight(LoginReply)
    ensures Load(OnTwoFactorReply(t, outcome)) < Load(t) + Weight(TwoFactorReply)
  {
    hide NetLoad;
    LoadAdded(t.work.net, SyncAfterLogin);
  }

  lemma RefreshLoad(t: State, outcome: Outcome)
    ensures Load(OnRefreshForSync(t, outcome)) < Load(t) + Weight(RefreshForSync)
    ensures Load(OnRefreshForWrite(t, outcome)) < Load(t) + Weight(RefreshForWrite)
  {
    hide NetLoad;
    LoadAdded(t.work.net, SyncReply);
    LoadAdded(t.work.net, RetryReply);
  }

  lemma WriteLoad(t: State, outcome: Outcome)
    ensures Load(OnWriteReply(t, outcome)) < Load(t) + Weight(WriteReply)
    ensures Load(FinishWrite(t, outcome.Written?)) < Load(t) + Weight(RetryReply)
  {
    hide NetLoad;
    LoadAdded(t.work.net, RefreshForWrite);
    LoadAdded(t.work.net, SyncAfterWrite);
  }

  lemma PlainLoad(t: State, job: NetJob, outcome: Outcome)
    requires !CarriesBlob(job)
    ensures Load(OnPlainReply(t, job, outcome)) < Load(t) + Weight(job)
  {
    hide Load, Weight, OnPrelogin, OnLoginReply, OnTwoFactorReply, OnRefreshForSync, OnWriteReply, OnRefreshForWrite,
         FinishWrite;
    LoginLoad(t, outcome);
    RefreshLoad(t, outcome);
    WriteLoad(t, outcome);
  }

  lemma NetDrains(c: Suite, s: State, job: NetJob, outcome: Outcome, loc: L.Locale)
    requires job in s.work.net
    ensures Load(OnNetDone(c, s, job, outcome, loc)) < Load(s)
  {
    hide OnBlobReply, OnPlainReply, NetLoad;
    var t := s.(work := s.work.(net := s.work.net - multiset{job}));
    LoadTaken(s.work.net, job);
    if CarriesBlob(job) {
      BlobCalls(c, t, job, outcome, loc);
    } else {
      PlainLoad(t, job, outcome);
    }
  }

  lemma DeriveDrains(c: Suite, s: State, result: Result<bytes>, loc: L.Locale)
    requires s.work.derive.Some?
    ensures Load(OnDeriveDone(c, s, result, loc)) < Load(s)
  {
    hide TryUnlock, V.VerifiesMasterKey, NetLoad, V.Unlock;
    LoadAdded(s.work.net, LoginReply);
    if result.Ok? {
      TryUnlockIs(c, s.(work := s.work.(derive := None), busy := false), result.value, loc);
    }
  }

  lemma PinDrains(c: Suite, s: State, salt: bytes, iv: bytes, loc: L.Locale)
    requires s.work.pin.Some?
    ensures Load(OnPinDone(c, s, salt, iv, loc)) < Load(s)
  {
    hide TryUnlock, WrapResult, PinWrap.Unwrapped, NetLoad, V.Unlock;
    if s.work.pin.value.UnwrapJob? {
      var r := PinWrap.Unwrapped(c, s.work.pin.value.wrapped, c.toUtf8(s.work.pin.value.pin));
      if r.Ok? {
        TryUnlockIs(c, s.(work := s.work.(pin := None), busy := false), r.value, loc);
      }
    }
  }

  lemma CompletionDrains(c: Suite, s: State, e: Event, loc: L.Locale)
    requires Completion(s, e)
    ensures Load(Next(c, s, e, loc)) < Load(s)
  {
    hide OnRequest, OnUnlockWithPin, SignedOut, LockNow, OnMinimised, OnActivity, OnSetAutoLock, OnTime, OnFilter,
         OnWrite, OnDeriveDone, OnPinDone, OnNetDone, Started, PinForgotten, Load;
    match e
    case NetDone(job, outcome) => NetDrains(c, s, job, outcome, loc);
    case DeriveDone(result) => DeriveDrains(c, s, result, loc);
    case PinDone(salt, iv) => PinDrains(c, s, salt, iv, loc);
  }

  ghost predicate AllCompletions(c: Suite, s: State, events: seq<Event>, loc: L.Locale)
    decreases |events|
  {
    events == [] || (Completion(s, events[0]) && AllCompletions(c, Next(c, s, events[0], loc), events[1..], loc))
  }

  /** Whatever the answers are, outstanding work leads to no more of them than its load
      says: no retry, refresh or follow-up goes on for ever. */
  lemma {:induction false} WorkEnds(c: Suite, s: State, events: seq<Event>, loc: L.Locale)
    requires AllCompletions(c, s, events, loc)
    ensures |events| + Load(Run(c, s, events, loc)) <= Load(s)
    decreases |events|
  {
    hide Next, Load, Completion;
    if events != [] {
      CompletionDrains(c, s, events[0], loc);
      WorkEnds(c, Next(c, s, events[0], loc), events[1..], loc);
    }
  }
}
