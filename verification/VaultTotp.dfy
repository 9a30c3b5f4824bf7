/** The TOTP code of an item: what is generated from, and how long it is shown. */
module VaultTotp {
  import opened Words
  import opened Wrappers
  import opened CryptoSuite
  import Spec = VaultSpec
  import Edit = VaultEdit
  import EncString
  import Base32
  import opened Totp
  import TotpSecret

  /** A std::string over the decrypted bytes. */
  function ByteText(b: bytes): string {
    seq(|b|, i requires 0 <= i < |b| => b[i] as char)
  }

  datatype Setup = Setup(spec: TotpSecret.TotpSpec, key: bytes)

  /** The parameters and the HMAC key of an item's code, or why there is none. */
  ghost function SetupOf(c: Suite, s: Spec.State, itemId: string): Result<Setup> {
    if s.locked then Err("vault is locked")
    else if Edit.FindCipher(s.data.ciphers, itemId).None?
         || Edit.FindCipher(s.data.ciphers, itemId).value.login.totp == "" then Err("no TOTP secret on this item")
    else
      var cipher := Edit.FindCipher(s.data.ciphers, itemId).value;
      var key :- Spec.CipherKey(c, cipher, s.userKey, s.orgKeys);
      var raw :- EncString.Opened(c, cipher.login.totp, key);
      var spec :- TotpSecret.Parsed(ByteText(raw));
      var secret :- Base32.Parsed(spec.base32Secret);
      Ok(Setup(spec, secret))
  }

  lemma Usable(c: Suite, s: Spec.State, itemId: string)
    requires SetupOf(c, s, itemId).Ok?
    ensures var spec := SetupOf(c, s, itemId).value.spec; spec.period > 0 && 6 <= spec.digits <= 10
  {
    hide Spec.CipherKey, EncString.Opened, ByteText, Base32.Parsed, TotpSecret.AppliedAll;
  }

  /** The 31-bit number that the code at a time shows. */
  function NumberAt(hmac: Hmac, u: Setup, unixTime: uint64): (n: nat)
    requires u.spec.period > 0
    requires |hmac(u.spec.algorithm, u.key, CounterBytes(Step(unixTime, u.spec.period), 8))| >= 20
  {
    DynamicTruncation(hmac(u.spec.algorithm, u.key, CounterBytes(Step(unixTime, u.spec.period), 8)))
  }

  /** What totpCode answers, given the setup: it fails exactly when the secret is
      empty or the HMAC is too short, and otherwise shows a code and its countdown. */
  ghost predicate Answers(hmac: Hmac, u: Setup, unixTime: uint64, r: Result<(string, int)>)
    requires u.spec.period > 0
  {
    && (r.Ok? <==> u.key != []
                   && |hmac(u.spec.algorithm, u.key, CounterBytes(Step(unixTime, u.spec.period), 8))| >= 20)
    && (r.Ok? ==>
          u.spec.digits >= 0
          && IsCode(r.value.0, NumberAt(hmac, u, unixTime), u.spec.digits)
          && r.value.1 == SecondsRemaining(unixTime, u.spec.period))
  }

  /** The code on screen stays right until its countdown ends: asked again before
      that, the same code comes back with the countdown lowered by the time passed. */
  lemma SameCodeUntilZero(hmac: Hmac, u: Setup, unixTime: uint64, later: nat,
                          r: Result<(string, int)>, q: Result<(string, int)>)
    requires u.spec.period > 0 && unixTime + later < 0x1_0000_0000_0000_0000
    requires Answers(hmac, u, unixTime, r) && Answers(hmac, u, unixTime + later, q)
    requires r.Ok? && later < r.value.1
    ensures q == Ok((r.value.0, r.value.1 - later))
  {
    Countdown(unixTime, u.spec.period, later);
    Countdown(unixTime + later, u.spec.period, 0);
    assert Step(unixTime + later, u.spec.period) == Step(unixTime, u.spec.period);
    CodeUnique(r.value.0, q.value.0, NumberAt(hmac, u, unixTime), u.spec.digits);
    RemainderLater(unixTime, later, u.spec.period);
  }

  lemma RemainderLater(t: nat, later: nat, period: nat)
    requires period > 0 && t % period + later < period
    ensures (t + later) % period == t % period + later
  {
    DivModUnique(t + later, period, t / period, t % period + later);
  }
}
