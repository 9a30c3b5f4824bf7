/** The vault's state and operations as functions: what the object in module
    Vault computes in place. */
module VaultSpec {
  import opened Words
  import opened Wrappers
  import opened Json
  import opened CipherItem
  import opened SyncParser
  import opened CryptoSuite
  import EncString

  // ----- keys -----

  /** The user key behind a protected key, for a master key. */
  ghost function UserKeyOf(c: Suite, profileKey: string, masterKey: bytes): Result<Key> {
    var stretched :- StretchMasterKey(c, masterKey);
    var raw :- EncString.Opened(c, profileKey, stretched);
    KeyFromBytes(raw)
  }

  /** decryptRsaOaepSha1 of an organization's wrapped key. */
  ghost function OrganizationKey(c: Suite, wrapped: string, privateKey: bytes): Result<Key> {
    var e :- EncString.Parsed(wrapped);
    if e.kind != 4 then Err("decryptRsaOaepSha1: not a type 4 EncString")
    else
      var raw :- c.rsaDecrypt(privateKey, e.ciphertext);
      KeyFromBytes(raw)
  }

  /** The keys that unwrap; the first entry of a repeated id stays. */
  ghost function OrganizationKeys(c: Suite, organizations: seq<Organization>, privateKey: bytes): map<string, Key> {
    if organizations == [] then map[]
    else
      var n := |organizations| - 1;
      var keys := OrganizationKeys(c, organizations[..n], privateKey);
      var org := organizations[n];
      var key := OrganizationKey(c, org.key, privateKey);
      if org.id !in keys && key.Ok? then keys[org.id := key.value] else keys
  }

  const NO_ORGANIZATION_KEY := "organization key unavailable for this item"

  /** cipherKey: the item's own key if it has one, else the key of its owner. */
  ghost function CipherKey(c: Suite, cipher: Cipher, userKey: Key, orgKeys: map<string, Key>): Result<Key> {
    if cipher.organizationId != "" && cipher.organizationId !in orgKeys then Err(NO_ORGANIZATION_KEY)
    else
      var owner := if cipher.organizationId == "" then userKey else orgKeys[cipher.organizationId];
      if cipher.key == "" then Ok(owner)
      else
        var plain := EncString.Opened(c, cipher.key, owner);
        if plain.Err? then Err("item key unwrap failed: " + plain.error)
        else
          var key := KeyFromBytes(plain.value);
          if key.Err? then Err("item key unwrap failed: " + key.error) else key
  }

  /** decryptToString. */
  ghost function Reveal(c: Suite, text: string, key: Key): Result<string> {
    var plain :- EncString.Opened(c, text, key);
    Ok(c.fromUtf8(plain))
  }

  // ----- display data -----

  ghost function ItemOf(c: Suite, cipher: Cipher, key: Key): Result<Item> {
    var name :- Reveal(c, cipher.name, key);
    var isLogin := cipher.kind.Login?;
    var username :- if isLogin && cipher.login.username != "" then Reveal(c, cipher.login.username, key) else Ok("");
    var uri :- if isLogin && cipher.login.uris != [] then Reveal(c, cipher.login.uris[0], key) else Ok("");
    Ok(Item(cipher.id, cipher.kind, cipher.folderId, cipher.organizationId, cipher.favorite, name, username, uri,
            isLogin && cipher.login.totp != "", isLogin && cipher.login.password != "",
            cipher.notes != "", cipher.fields != [] || cipher.cardFields != [] || cipher.identityFields != []))
  }

  /** The items whose key resolves; an item that then does not decrypt fails all. */
  ghost function Items(c: Suite, ciphers: seq<Cipher>, userKey: Key, orgKeys: map<string, Key>): Result<seq<Item>> {
    if ciphers == [] then Ok([])
    else
      var n := |ciphers| - 1;
      var items :- Items(c, ciphers[..n], userKey, orgKeys);
      var key := CipherKey(c, ciphers[n], userKey, orgKeys);
      if key.Err? then Ok(items)
      else
        var item :- ItemOf(c, ciphers[n], key.value);
        Ok(items + [item])
  }

  /** Folder names by id; a repeated id keeps its last name. */
  ghost function FolderNames(c: Suite, folders: seq<Folder>, userKey: Key): Result<map<string, string>> {
    if folders == [] then Ok(map[])
    else
      var n := |folders| - 1;
      var names :- FolderNames(c, folders[..n], userKey);
      var name :- Reveal(c, folders[n].name, userKey);
      Ok(names[folders[n].id := name])
  }

  datatype Display = Display(
    privateKey: bytes, orgKeys: map<string, Key>, items: seq<Item>, folderNames: map<string, string>)

  ghost function PrivateKeyOf(c: Suite, data: SyncData, userKey: Key, held: bytes): Result<bytes> {
    if data.profilePrivateKey == "" then Ok(held) else EncString.Opened(c, data.profilePrivateKey, userKey)
  }

  ghost function OrgKeysFor(c: Suite, data: SyncData, privateKey: bytes): map<string, Key> {
    if privateKey == [] then map[] else OrganizationKeys(c, data.organizations, privateKey)
  }

  /** rebuildDisplayData, as a function of the data and the keys in memory. */
  ghost function Rebuilt(c: Suite, data: SyncData, userKey: Key, held: bytes): Result<Display> {
    var privateKey :- PrivateKeyOf(c, data, userKey, held);
    var orgKeys := OrgKeysFor(c, data, privateKey);
    var names :- FolderNames(c, data.folders, userKey);
    var items :- Items(c, data.ciphers, userKey, orgKeys);
    Ok(Display(privateKey, orgKeys, items, names))
  }

  // ----- state -----

  /** The lockedChanged signal, with the items that items() returns meanwhile. */
  datatype LockedChanged = LockedChanged(locked: bool, items: seq<Item>)

  datatype State = State(
    data: SyncData,
    locked: bool,
    userKey: Key,
    privateKey: bytes,
    orgKeys: map<string, Key>,
    items: seq<Item>,
    folderNames: map<string, string>,
    interval: nat,          // milliseconds; 0: no auto-lock
    timer: Option<nat>,     // milliseconds until it fires, when running
    idle: nat,              // milliseconds since unlock, activity or a new interval
    emitted: seq<LockedChanged>)

  const INITIAL := State(NO_DATA, true, NO_KEY, [], map[], [], map[], 0, None, 0, [])

  function Locked(s: State): State {
    s.(locked := true, userKey := NO_KEY, privateKey := [], orgKeys := map[], items := [], folderNames := map[],
       timer := None, emitted := if s.locked then s.emitted else s.emitted + [LockedChanged(true, [])])
  }

  /** The timer (re)started, if there is an interval. */
  function Restarted(s: State): State {
    if s.interval > 0 then s.(timer := Some(s.interval), idle := 0) else s.(idle := 0)
  }

  function LoadSync(s: State, doc: Option<Object>): (State, Result<()>) {
    match ParsedSync(doc)
    case Err(e) => (s, Err(e))
    case Ok(data) => (Locked(s).(data := data), Ok(()))
  }

  ghost function Unlocked(c: Suite, s: State, userKey: Key, d: Display): State {
    var t := Restarted(s.(userKey := userKey, privateKey := d.privateKey, orgKeys := d.orgKeys, items := d.items,
                          folderNames := d.folderNames, locked := false));
    t.(emitted := t.emitted + [LockedChanged(false, d.items)])
  }

  /** A locked vault opens with a user key, if the display data can be rebuilt. */
  ghost function OpenedWith(c: Suite, t: State, userKey: Key): (State, Result<()>) {
    match Rebuilt(c, t.data, userKey, [])
    case Err(e) => (t, Err("unlock failed: " + e))
    case Ok(d) => (Unlocked(c, t, userKey, d), Ok(()))
  }

  ghost function Unlock(c: Suite, s: State, masterKey: bytes): (State, Result<()>) {
    if s.data.profileKey == "" then (s, Err("no vault data loaded"))
    else
      var t := Locked(s);
      var stretched := StretchMasterKey(c, masterKey);
      if stretched.Err? then (t, Err("unlock failed: " + stretched.error))
      else if EncString.Opened(c, s.data.profileKey, stretched.value).Err? then (t, Err("wrong master password"))
      else
        match UserKeyOf(c, s.data.profileKey, masterKey)
        case Err(e) => (t, Err("unlock failed: " + e))
        case Ok(userKey) => OpenedWith(c, t, userKey)
  }

  /** An open vault takes new data under the same keys. */
  ghost function Retaken(c: Suite, s: State, data: SyncData): (State, Result<()>) {
    match Rebuilt(c, data, s.userKey, s.privateKey)
    case Err(e) => (Locked(s).(data := data), Err("re-sync failed: " + e))
    case Ok(d) =>
      (s.(data := data, privateKey := d.privateKey, orgKeys := d.orgKeys, items := d.items,
          folderNames := d.folderNames), Ok(()))
  }

  ghost function ReloadSync(c: Suite, s: State, doc: Option<Object>): (State, Result<()>) {
    if s.locked then (s, Err("vault is locked"))
    else
      match ParsedSync(doc)
      case Err(e) => (s, Err(e))
      case Ok(data) =>
        if data.profileKey != s.data.profileKey then (Locked(s), Err("account keys changed — please unlock again"))
        else Retaken(c, s, data)
  }

  function SetAutoLock(s: State, seconds: int): State {
    if seconds <= 0 then s.(timer := None, interval := 0)
    else
      var t := s.(interval := seconds * 1000);
      if s.locked then t else Restarted(t)
  }

  function NoteActivity(s: State): State {
    if !s.locked then Restarted(s) else s
  }

  /** Time passes; a running timer that reaches its end locks the vault. */
  function Advance(s: State, ms: nat): State {
    match s.timer
    case Some(left) =>
      if ms < left then s.(timer := Some(left - ms), idle := s.idle + ms)
      else Locked(s).(idle := s.idle + ms)
    case None => s.(idle := s.idle + ms)
  }

  ghost predicate VerifiesMasterKey(c: Suite, s: State, masterKey: bytes) {
    && s.data.profileKey != ""
    && StretchMasterKey(c, masterKey).Ok?
    && EncString.Opened(c, s.data.profileKey, StretchMasterKey(c, masterKey).value).Ok?
  }

  datatype Op =
    | DoLoad(doc: Option<Object>)
    | DoUnlock(masterKey: bytes)
    | DoReload(doc: Option<Object>)
    | DoLock
    | DoSetAutoLock(seconds: int)
    | DoActivity
    | DoAdvance(ms: nat)

  ghost function Step(c: Suite, s: State, op: Op): State {
    match op
    case DoLoad(doc) => LoadSync(s, doc).0
    case DoUnlock(masterKey) => Unlock(c, s, masterKey).0
    case DoReload(doc) => ReloadSync(c, s, doc).0
    case DoLock => Locked(s)
    case DoSetAutoLock(seconds) => SetAutoLock(s, seconds)
    case DoActivity => NoteActivity(s)
    case DoAdvance(ms) => Advance(s, ms)
  }

  ghost function Run(c: Suite, s: State, ops: seq<Op>): State
    decreases |ops|
  {
    if ops == [] then s else Run(c, Step(c, s, ops[0]), ops[1..])
  }
}
