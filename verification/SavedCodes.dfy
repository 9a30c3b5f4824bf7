/** The one-time codes of a secret that was entered in the editor: what the open vault
    generates from after the server has sent the item back. */
module SavedCodes {
  import opened Words
  import opened Wrappers
  import opened Json
  import opened CipherItem
  import opened SyncParser
  import opened CryptoSuite
  import opened VaultSpec
  import opened VaultRuns
  import opened VaultRows
  import opened VaultEdit
  import opened EditedRows
  import opened VaultTotp
  import EncString
  import Base32
  import Splitting
  import TotpSecret

  /** What the code of the first item with an id is made from: the text stored in its own
      TOTP part, opened with the item's key, read as a secret, and decoded. */
  lemma SetupExactly(c: Suite, s: State, i: nat, k: Key, u: Setup)
    requires !s.locked && i < |s.data.ciphers| && KeyIs(c, s, s.data.ciphers[i], k)
    requires forall j :: 0 <= j < i ==> s.data.ciphers[j].id != s.data.ciphers[i].id
    ensures var totp := s.data.ciphers[i].login.totp;
            SetupOf(c, s, s.data.ciphers[i].id) == Ok(u) <==>
            && totp != "" && EncString.Opened(c, totp, k).Ok?
            && TotpSecret.Parsed(ByteText(EncString.Opened(c, totp, k).value)) == Ok(u.spec)
            && Base32.Parsed(u.spec.base32Secret) == Ok(u.key)
  {
    hide CipherKey, KeyIs, EncString.Opened, TotpSecret.Parsed, Base32.Parsed, ByteText;
    FirstFound(s.data.ciphers, s.data.ciphers[i].id, i);
    KeyExactly(c, s, s.data.ciphers[i], k);
  }

  lemma SealedBytes(c: Suite, plain: string, k: Key, iv: bytes, text: string)
    requires Lawful(c) && Sized(k) && |iv| == 16 && plain != "" && EncryptedField(c, plain, k, iv) == Ok(text)
    ensures text != "" && EncString.Opened(c, text, k) == Ok(c.toUtf8(plain))
  {
    hide EncString.Sealed, EncString.Opened;
    EncString.OpenSealed(c, c.toUtf8(plain), k, iv);
  }

  /** Saving a login whose TOTP entry is an otpauth URI (in characters of one byte) and
      reloading it: its codes are generated from exactly the parameters and the secret
      that the URI was written for. */
  lemma SavedSecret(c: Suite, s: State, i: nat, f: Entered, v: Ivs, k: Key, doc: Option<Object>,
                    account: string, spec: TotpSecret.TotpSpec, secret: bytes)
    requires Lawful(c) && Fresh16(v) && Inv(c, s) && !s.locked && f.name != ""
    requires i < |s.data.ciphers| && s.data.ciphers[i].kind.Login? && KeyIs(c, s, s.data.ciphers[i], k)
    requires forall j :: 0 <= j < i ==> s.data.ciphers[j].id != s.data.ciphers[i].id
    requires Splitting.Free(account, '?') && Splitting.Free(spec.base32Secret, '&')
    requires spec.base32Secret != "" && spec.period > 0 && 6 <= spec.digits <= 10
    requires Base32.Parsed(spec.base32Secret) == Ok(secret)
    requires f.totp == TotpSecret.Uri(account, spec) && ByteText(c.toUtf8(f.totp)) == f.totp
    requires var x := s.data.ciphers[i];
             var b := BuiltUpdate(c, s, x.id, f, v);
             b.Ok? && var back := ParsedCipher(b.value["id" := Str(x.id)]);
             back.Some? && ParsedSync(doc) == Ok(s.data.(ciphers := s.data.ciphers[i := back.value]))
    ensures SetupOf(c, ReloadSync(c, s, doc).0, s.data.ciphers[i].id) == Ok(Setup(spec, secret))
  {
    hide Inv, KeyIs, CipherKey, ParsedSync, ParsedCipher, BuiltUpdate, ReloadSync, ShowsEntered, SameElsewhere, RowOf,
         Opens, EncString.Opened, TotpSecret.Parsed, TotpSecret.Uri, Splitting.Free, Base32.Parsed, ByteText,
         EncryptedField, ReadsBack, Items;
    var x := s.data.ciphers[i];
    FirstFound(s.data.ciphers, x.id, i);
    KeyExactly(c, s, x, k);
    KeyIsSized(c, s, x, k);
    EditRoundTrip(c, s, x.id, f, v);
    EditThenSync(c, s, i, f, v, k, doc);
    var back := ParsedCipher(BuiltUpdate(c, s, x.id, f, v).value["id" := Str(x.id)]).value;
    ReloadItems(c, s, doc, s.data.ciphers[i := back]);
    UriWritten(account, spec);
    SealedBytes(c, f.totp, k, v.totp, back.login.totp);
    TotpSecret.RoundTrip(account, spec);
    SameId(x, back);
    var t := ReloadSync(c, s, doc).0;
    LoadedData(c, s, doc, s.data.ciphers[i := back]);
    SameKeys(c, s, t, back, k);
    SetupExactly(c, t, i, k, Setup(spec, secret));
  }

  lemma UriWritten(account: string, spec: TotpSecret.TotpSpec)
    requires spec.digits >= 0
    ensures TotpSecret.Uri(account, spec) != ""
  {
  }

  lemma SameId(x: Cipher, back: Cipher)
    requires SameElsewhere(x, back)
    ensures back.id == x.id
  {
  }

  lemma LoadedData(c: Suite, s: State, doc: Option<Object>, ciphers: seq<Cipher>)
    requires !s.locked && ReloadSync(c, s, doc).1.Ok? && ParsedSync(doc) == Ok(s.data.(ciphers := ciphers))
    ensures ReloadSync(c, s, doc).0.data.ciphers == ciphers
  {
    hide ParsedSync, Rebuilt;
  }

  lemma SameKeys(c: Suite, s: State, t: State, x: Cipher, k: Key)
    requires t == s.(data := t.data, items := t.items) && KeyIs(c, s, x, k)
    ensures KeyIs(c, t, x, k)
  {
    hide ItemKeyIs;
    var owner :| OwnerIs(s, x, owner) && ItemKeyIs(c, x.key, owner, k);
    assert OwnerIs(t, x, owner);
  }
}
