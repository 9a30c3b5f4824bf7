/** HOTP (RFC 4226) and TOTP (RFC 6238) codes, and the countdown the vault
    shows beside them. HMAC is a parameter: any function of key and message. */
module Totp {
  import opened Words
  import opened Wrappers
  import opened Decimals

  datatype Algorithm = Sha1 | Sha256 | Sha512

  type Hmac = (Algorithm, bytes, bytes) -> bytes

  /** The unsigned number written in the bytes, most significant byte first. */
  function BigEndian(b: bytes): nat {
    if b == [] then 0 else 256 * BigEndian(b[..|b| - 1]) + b[|b| - 1]
  }

  /** The n-byte form of a counter. */
  function CounterBytes(counter: nat, n: nat): (b: bytes)
    ensures |b| == n
  {
    if n == 0 then [] else CounterBytes(counter / 256, n - 1) + [counter % 256]
  }

  function Pow256(n: nat): (r: nat)
    ensures r > 0
  {
    if n == 0 then 1 else 256 * Pow256(n - 1)
  }

  lemma {:induction false} CounterReads(counter: nat, n: nat)
    requires counter < Pow256(n)
    ensures BigEndian(CounterBytes(counter, n)) == counter
  {
    if n > 0 {
      CounterReads(counter / 256, n - 1);
    }
  }

  /** Every 64-bit counter is written so that it can be read back. */
  lemma CounterRoundTrip(counter: uint64)
    ensures |CounterBytes(counter, 8)| == 8 && BigEndian(CounterBytes(counter, 8)) == counter
  {
    assert Pow256(4) == 0x1_0000_0000;
    assert Pow256(8) == 256 * (256 * (256 * (256 * Pow256(4))));
    CounterReads(counter, 8);
  }

  /** Section 5.3 of RFC 4226: the 31 low bits of the four bytes at the offset
      that the low nibble of the last byte names. */
  function DynamicTruncation(mac: bytes): (r: nat)
    requires |mac| >= 20
    ensures r < 0x8000_0000
  {
    var offset := mac[|mac| - 1] % 16;
    BigEndian(mac[offset..offset + 4]) % 0x8000_0000
  }

  /** Exactly `digits` decimal digits that denote v modulo 10^digits. */
  ghost predicate IsCode(s: string, v: nat, digits: nat) {
    |s| == digits && AllDigits(s) && Decimals.Value(s) == v % Pow10(digits)
  }

  lemma CodeUnique(s: string, t: string, v: nat, digits: nat)
    requires IsCode(s, v, digits) && IsCode(t, v, digits)
    ensures s == t
  {
    FixedWidthUnique(s, t);
  }

  /** The error of a request the code refuses, or "". */
  function Refusal(hmac: Hmac, key: bytes, counter: uint64, digits: int, algorithm: Algorithm): string {
    if key == [] then "hotp: empty key"
    else if digits < 6 || digits > 10 then "hotp: digits out of range"
    else if |hmac(algorithm, key, CounterBytes(counter, 8))| < 20 then "hotp: HMAC failed"
    else ""
  }

  lemma FourBytes(b: bytes)
    requires |b| == 4
    ensures BigEndian(b) == 0x100_0000 * (b[0] as int) + 0x1_0000 * (b[1] as int) + 0x100 * (b[2] as int) + b[3]
  {
    assert b[..3][..2] == b[..2] && b[..2][..1] == b[..1];
    assert BigEndian(b[..1]) == b[0] by { assert b[..1][..0] == []; }
    assert BigEndian(b[..2]) == 256 * BigEndian(b[..1]) + b[1];
    assert BigEndian(b[..3]) == 256 * BigEndian(b[..2]) + b[2];
  }

  /** The word the code assembles is the truncated number. */
  lemma TruncationWord(b0: uint8, b1: uint8, b2: uint8, b3: uint8)
    ensures And(b0, 0x7f) < 0x80
    ensures Or(Or(Or(Shl32(And(b0, 0x7f), 24), Shl32(b1, 16)), Shl32(b2, 8)), b3)
            == BigEndian([b0, b1, b2, b3]) % 0x8000_0000
  {
    hide Or, And, Pow2, Shl32;
    assert Pow2(7) == 0x80 && Pow2(8) == 0x100 && Pow2(16) == 0x1_0000 && Pow2(24) == 0x100_0000 by { Pow2Values(); }
    AndMask(b0, 7);
    var h := And(b0, 0x7f);
    ShlSmall(h, 24, 0x100_0000);
    ShlSmall(b1, 16, 0x1_0000);
    ShlSmall(b2, 8, 0x100);
    OrPlus(h, 0x1_0000 * (b1 as int), 24, 0x100_0000);
    OrPlus(0x100 * h + b1, 0x100 * (b2 as int), 16, 0x1_0000);
    OrPlus(0x1_0000 * h + 0x100 * (b1 as int) + b2, b3, 8, 0x100);
    var low := 0x1_0000 * (b1 as int) + 0x100 * (b2 as int) + b3;
    FourBytes([b0, b1, b2, b3]);
    DivModUnique(b0, 0x80, b0 / 0x80, h);
    DivModUnique(0x100_0000 * (b0 as int) + low, 0x8000_0000, b0 / 0x80, 0x100_0000 * h + low);
  }

  /** The loop that fills counterBytes from its last byte to its first. */
  method WriteCounter(counter: uint64) returns (counterBytes: array<uint8>)
    ensures fresh(counterBytes) && counterBytes[..] == CounterBytes(counter, 8)
  {
    counterBytes := new uint8[8];
    var rest: nat := counter;
    var i := 7;
    while i >= 0
      invariant -1 <= i <= 7 && rest >= 0
      invariant CounterBytes(counter, 8) == CounterBytes(rest, i + 1) + counterBytes[i + 1..]
    {
      ghost var done := counterBytes[i + 1..];
      counterBytes[i] := rest % 256;
      assert counterBytes[i..] == [rest % 256] + done;
      rest := rest / 256;
      i := i - 1;
    }
    assert CounterBytes(rest, 0) + counterBytes[0..] == counterBytes[..];
  }

  /** hotp. */
  method HotpCode(hmac: Hmac, key: bytes, counter: uint64, digits: int, algorithm: Algorithm)
    returns (r: Result<string>)
    ensures Refusal(hmac, key, counter, digits, algorithm) != "" ==>
              r == Err(Refusal(hmac, key, counter, digits, algorithm))
    ensures Refusal(hmac, key, counter, digits, algorithm) == "" ==>
              r.Ok? && IsCode(r.value, DynamicTruncation(hmac(algorithm, key, CounterBytes(counter, 8))), digits)
  {
    hide Or, And, Shl32, CounterBytes, BigEndian;
    if key == [] {
      return Err("hotp: empty key");
    }
    if digits < 6 || digits > 10 {
      return Err("hotp: digits out of range");
    }

    var counterBytes := WriteCounter(counter);
    var mac := hmac(algorithm, key, counterBytes[..]);
    if |mac| < 20 {
      return Err("hotp: HMAC failed");
    }

    LowNibble(mac[|mac| - 1]);
    var offset := And(mac[|mac| - 1], 0x0f);
    TruncationWord(mac[offset], mac[offset + 1], mac[offset + 2], mac[offset + 3]);
    var binary := Or(Or(Or(Shl32(And(mac[offset], 0x7f), 24), Shl32(mac[offset + 1], 16)),
                        Shl32(mac[offset + 2], 8)),
                     mac[offset + 3]);
    assert mac[offset..offset + 4] == [mac[offset], mac[offset + 1], mac[offset + 2], mac[offset + 3]];
    assert binary == DynamicTruncation(mac);

    var code := Reduce(binary, digits);
    var result := PadLeft(code, digits);
    r := Ok(result);
  }

  /** The modulus loop and the remainder. */
  method Reduce(binary: nat, digits: nat) returns (code: nat)
    ensures code == binary % Pow10(digits)
  {
    var modulus: nat := 1;
    var i := 0;
    while i < digits
      invariant 0 <= i <= digits
      invariant modulus == Pow10(i)
    {
      modulus := modulus * 10;
      i := i + 1;
    }
    code := binary % modulus;
  }

  /** std::to_string and the zero-padding loop. */
  method PadLeft(code: nat, digits: nat) returns (result: string)
    requires digits >= 1 && code < Pow10(digits)
    ensures |result| == digits && AllDigits(result) && Decimals.Value(result) == code
  {
    result := ToString(code);
    Reads(code);
    LengthExactly(code, digits);
    while |result| < digits
      invariant |result| <= digits && AllDigits(result) && Decimals.Value(result) == code
    {
      LeadingZero(result);
      result := "0" + result;
    }
  }

  lemma LowNibble(x: uint8)
    ensures And(x, 0x0f) == x % 16
  {
    assert Pow2(4) == 16 by { Pow2Values(); }
    AndMask(x, 4);
  }

  /** totp. */
  method TotpCode(hmac: Hmac, key: bytes, unixTime: uint64, period: uint32, digits: int, algorithm: Algorithm)
    returns (r: Result<string>)
    ensures period == 0 ==> r == Err("totp: zero period")
    ensures period > 0 ==>
              var counter := Step(unixTime, period);
              var refusal := Refusal(hmac, key, counter, digits, algorithm);
              if refusal != "" then r == Err(refusal)
              else r.Ok? && IsCode(r.value, DynamicTruncation(hmac(algorithm, key, CounterBytes(counter, 8))), digits)
  {
    if period == 0 {
      return Err("totp: zero period");
    }
    r := HotpCode(hmac, key, Step(unixTime, period), digits, algorithm);
  }

  /** The time step of section 4.2 of RFC 6238. */
  function Step(unixTime: uint64, period: uint32): uint64
    requires period > 0
  {
    StepBound(unixTime, period);
    unixTime / period
  }

  lemma StepBound(unixTime: uint64, period: uint32)
    requires period > 0
    ensures 0 <= unixTime / period <= unixTime
  {
    var q := unixTime / period;
    if q > unixTime {
      MulLe(q, 1, period);
    }
  }

  /** static_cast<int> of a 64-bit value below 2^32. */
  function ToInt32(v: nat): int
    requires v < TWO_32
  {
    if v < 0x8000_0000 then v else v - TWO_32
  }

  /** `static_cast<int>(period - (unixTime % period))`. */
  function SecondsRemaining(unixTime: uint64, period: uint32): int
    requires period > 0
  {
    RemainderBound(unixTime, period);
    ToInt32(period - unixTime % period)
  }

  lemma RemainderBound(unixTime: uint64, period: uint32)
    requires period > 0
    ensures 0 <= unixTime % period < period
  {
  }

  /** The countdown is right exactly when it fits an int, as it does at any time for
      a period below 2^31: 1..period seconds, through which the code's time step
      does not change, and after which it is the next one. */
  lemma Countdown(unixTime: uint64, period: uint32, later: nat)
    requires period > 0
    ensures 1 <= SecondsRemaining(unixTime, period) <= period <==> period - unixTime % period < 0x8000_0000
    ensures period < 0x8000_0000 ==> period - unixTime % period < 0x8000_0000
    ensures later < SecondsRemaining(unixTime, period) ==> (unixTime + later) / period == unixTime / period
    ensures period - unixTime % period < 0x8000_0000 <==>
            unixTime + SecondsRemaining(unixTime, period) >= 0
            && (unixTime + SecondsRemaining(unixTime, period)) / period == unixTime / period + 1
  {
    RemainderBound(unixTime, period);
    var q, m := unixTime / period, unixTime % period;
    assert unixTime == period * q + m;
    if later < period - m {
      DivModUnique(unixTime + later, period, q, m + later);
    }
    Distribute(period, q, 1);
    DivModUnique(unixTime + (period - m), period, q + 1, 0);
  }
}
