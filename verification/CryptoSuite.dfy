/** The cryptographic primitives the application calls, as parameters. Only the
    laws stated here are assumed of them; a toy instance shows that the laws can
    hold together. */
module CryptoSuite {
  import opened Words
  import opened Wrappers

  /** A 32-byte AES key and a 32-byte HMAC key. */
  datatype Key = Key(encKey: bytes, macKey: bytes)

  const NO_KEY := Key([], [])

  datatype Suite = Suite(
    aesEncrypt: (bytes, bytes, bytes) -> bytes,          // key, iv, plaintext
    aesDecrypt: (bytes, bytes, bytes) -> Option<bytes>,  // key, iv, ciphertext; None: bad padding
    hmacSha256: (bytes, bytes) -> bytes,                 // key, message
    hkdfExpand: (bytes, string) -> bytes,                // key, info; 32 bytes
    argon2id: (bytes, bytes, nat, nat, nat) -> Result<bytes>, // secret, salt, passes, MiB, lanes; 64 bytes
    rsaDecrypt: (bytes, bytes) -> Result<bytes>,         // private key, ciphertext
    toUtf8: string -> bytes,
    fromUtf8: bytes -> string)

  ghost predicate Lawful(c: Suite) {
    && (forall k, iv, p :: |k| == 32 && |iv| == 16 ==> c.aesDecrypt(k, iv, c.aesEncrypt(k, iv, p)) == Some(p))
    && (forall k, iv, p :: |c.aesEncrypt(k, iv, p)| == 16 * (|p| / 16 + 1))
    && (forall k, m :: |c.hmacSha256(k, m)| == 32)
    && (forall k, info :: |c.hkdfExpand(k, info)| == 32)
    && (forall s :: c.fromUtf8(c.toUtf8(s)) == s)
  }

  predicate Sized(key: Key) {
    |key.encKey| == 32 && |key.macKey| == 32
  }

  /** symmetricKeyFromBytes. */
  function KeyFromBytes(raw: bytes): (r: Result<Key>)
    ensures r.Ok? <==> |raw| == 64
    ensures r.Ok? ==> Sized(r.value) && r.value.encKey + r.value.macKey == raw
  {
    if |raw| != 64 then Err("symmetricKeyFromBytes: expected 64 bytes (enc||mac)")
    else Ok(Key(raw[..32], raw[32..]))
  }

  /** stretchMasterKey. */
  function StretchMasterKey(c: Suite, masterKey: bytes): Result<Key> {
    if |masterKey| != 32 then Err("stretchMasterKey: master key must be 32 bytes")
    else Ok(Key(c.hkdfExpand(masterKey, "enc"), c.hkdfExpand(masterKey, "mac")))
  }

  // ----- an instance -----

  function Repeat(v: uint8, n: nat): (r: bytes)
    ensures |r| == n && forall i :: 0 <= i < n ==> r[i] == v
  {
    seq(n, _ => v)
  }

  function ToyPad(p: bytes): bytes {
    var n := 16 - |p| % 16;
    p + Repeat(n, n)
  }

  function ToyUnpad(s: bytes): Option<bytes> {
    if s == [] || s[|s| - 1] > |s| then None else Some(s[..|s| - s[|s| - 1]])
  }

  /** Three bytes for each character. */
  function ToyUtf8(s: string): (r: bytes)
    ensures |r| == 3 * |s|
  {
    if s == "" then []
    else
      var v := s[0] as int;
      [v / 0x1_0000, v / 0x100 % 0x100, v % 0x100] + ToyUtf8(s[1..])
  }

  function ToyFromUtf8(b: bytes): string {
    if |b| < 3 then ""
    else
      var v := 0x1_0000 * (b[0] as int) + 0x100 * (b[1] as int) + b[2];
      [if v < 0xD800 || 0xE000 <= v < 0x11_0000 then v as char else ' '] + ToyFromUtf8(b[3..])
  }

  lemma {:induction false} ToyText(s: string)
    ensures ToyFromUtf8(ToyUtf8(s)) == s
  {
    if s != "" {
      ToyText(s[1..]);
      assert ToyUtf8(s)[3..] == ToyUtf8(s[1..]);
      assert s == [s[0]] + s[1..];
    }
  }

  function Toy(): Suite {
    Suite(
      (k, iv, p) => ToyPad(p),
      (k, iv, s) => ToyUnpad(s),
      (k, m) => Repeat(0, 32),
      (k, info) => Repeat(1, 32),
      (s, salt, n, m, l) => Ok(Repeat(2, 64)),
      (k, s) => Ok(s),
      s => ToyUtf8(s),
      b => ToyFromUtf8(b))
  }

  /** The laws are consistent. */
  lemma ToyIsLawful()
    ensures Lawful(Toy())
  {
    forall p: bytes ensures ToyUnpad(ToyPad(p)) == Some(p) && |ToyPad(p)| == 16 * (|p| / 16 + 1) {
      var n := 16 - |p| % 16;
      assert ToyPad(p)[|ToyPad(p)| - 1] == n;
      assert ToyPad(p)[..|p|] == p;
    }
    forall s ensures ToyFromUtf8(ToyUtf8(s)) == s {
      ToyText(s);
    }
  }
}
