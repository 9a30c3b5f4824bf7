/** PIN-wrapping of the master key, and the one-line text it is stored as. */
module PinWrap {
  import opened Words
  import opened Wrappers
  import opened Decimals
  import opened CryptoSuite
  import opened Splitting
  import Base64
  import EncString

  const TAG := "BWPIN1"
  const SALT_LENGTH := 16

  datatype Params = Params(iterations: uint32, memoryMiB: uint32, parallelism: uint32)

  const DEFAULT_PARAMS := Params(8, 64, 4)

  datatype PinWrappedKey = PinWrappedKey(params: Params, salt: bytes, encString: string)

  // ----- text form -----

  ghost function Text(w: PinWrappedKey): string {
    TAG + ":" + (ToString(w.params.iterations) + ":" + (ToString(w.params.memoryMiB) + ":"
    + (ToString(w.params.parallelism) + ":" + (Base64.Text(w.salt) + ":" + w.encString))))
  }

  method Serialize(w: PinWrappedKey) returns (text: string)
    ensures text == Text(w)
  {
    var salt := Base64.Encode(w.salt);
    text := TAG + ":" + (ToString(w.params.iterations) + ":" + (ToString(w.params.memoryMiB) + ":"
    + (ToString(w.params.parallelism) + ":" + (salt + ":" + w.encString))));
  }

  /** n pieces that each end at a ':' and the remainder as it is. */
  function Fields(text: string, n: nat): Result<seq<string>> {
    if n == 0 then Ok([text])
    else
      match Find(text, ':', 0)
      case None => Err("PinWrappedKey::parse: too few fields")
      case Some(i) =>
        var rest :- Fields(text[i + 1..], n - 1);
        Ok([text[..i]] + rest)
  }

  /** parseUint: at most nine digits. */
  function ParsedUint(s: string): (r: Result<uint32>)
    ensures r.Ok? ==> r.value < 1_000_000_000
  {
    if s == "" || |s| > 9 then Err("PinWrappedKey::parse: bad numeric field")
    else if !AllDigits(s) then Err("PinWrappedKey::parse: non-digit in field")
    else
      NineDigits(s);
      Ok(Value(s))
  }

  lemma Billion()
    ensures Pow10(9) == 1_000_000_000
  {
    assert Pow10(4) == 10_000;
    assert Pow10(9) == 10 * (10 * (10 * (10 * (10 * Pow10(4)))));
  }

  lemma NineDigits(s: string)
    requires AllDigits(s) && |s| <= 9
    ensures Value(s) < 1_000_000_000
  {
    ValueBound(s);
    Billion();
    Pow10Monotone(|s|, 9);
  }

  lemma {:induction false} Pow10Monotone(a: nat, b: nat)
    requires a <= b
    ensures Pow10(a) <= Pow10(b)
  {
    if a < b {
      Pow10Monotone(a, b - 1);
    }
  }

  lemma EmptyIsZero()
    ensures Value("") == 0
  {
  }

  lemma OneMoreDigit(s: string)
    requires s != "" && AllDigits(s)
    ensures Value(s) == 10 * Value(s[..|s| - 1]) + DigitOf(s[|s| - 1])
  {
  }

  /** The loop in uint32_t arithmetic: it never wraps. */
  method ParseUint(s: string) returns (r: Result<uint32>)
    ensures r == ParsedUint(s)
  {
    hide Value;
    if s == "" || |s| > 9 {
      return Err("PinWrappedKey::parse: bad numeric field");
    }
    EmptyIsZero();
    var value: uint32 := 0;
    var i := 0;
    assert s[..0] == "";
    while i < |s|
      invariant 0 <= i <= |s| && AllDigits(s[..i]) && value == Value(s[..i])
    {
      var c := s[i];
      if c < '0' || c > '9' {
        return Err("PinWrappedKey::parse: non-digit in field");
      }
      assert s[..i + 1][..i] == s[..i];
      NineDigits(s[..i + 1]);
      OneMoreDigit(s[..i + 1]);
      value := (value * 10 % TWO_32 + (c as int - '0' as int)) % TWO_32;
      i := i + 1;
    }
    assert s[..i] == s;
    r := Ok(value);
  }

  /** PinWrappedKey::parse. */
  ghost function Parsed(text: string): Result<PinWrappedKey> {
    var parts :- Fields(text, 5);
    FieldsCount(text, 5);
    if parts[0] != TAG then Err("PinWrappedKey::parse: bad tag")
    else
      var iterations :- ParsedUint(parts[1]);
      var memoryMiB :- ParsedUint(parts[2]);
      var parallelism :- ParsedUint(parts[3]);
      var salt :- Base64.Parsed(parts[4]);
      if |salt| != SALT_LENGTH then Err("PinWrappedKey::parse: wrong salt length")
      else
        var checked :- EncString.Parsed(parts[5]);
        Ok(PinWrappedKey(Params(iterations, memoryMiB, parallelism), salt, parts[5]))
  }

  lemma {:induction false} FieldsCount(text: string, n: nat)
    ensures Fields(text, n).Ok? ==> |Fields(text, n).value| == n + 1
  {
    if n > 0 {
      match Find(text, ':', 0)
      case None =>
      case Some(i) => FieldsCount(text[i + 1..], n - 1);
    }
  }

  /** The loop of five finds from a moving start. */
  method SplitFields(text: string) returns (r: Result<seq<string>>)
    ensures r == Fields(text, 5)
  {
    hide Fields, Find;
    var parts: seq<string> := [];
    var start := 0;
    var i := 0;
    assert text[0..] == text;
    PrefixedNothing(Fields(text, 5));
    while i < 5
      invariant 0 <= i <= 5 && 0 <= start <= |text|
      invariant Fields(text, 5) == Prefixed(parts, Fields(text[start..], 5 - i))
    {
      FindShifted(text, ':', start);
      var pos := Find(text, ':', start);
      if pos.None? {
        NoField(text[start..], 5 - i);
        return Err("PinWrappedKey::parse: too few fields");
      }
      var piece := text[start..pos.value];
      FieldsStep(text, start, pos.value, 5 - i, parts);
      parts := parts + [piece];
      start := pos.value + 1;
      i := i + 1;
    }
    LastField(text[start..]);
    parts := parts + [text[start..]];
    r := Ok(parts);
  }

  lemma PrefixedNothing(r: Result<seq<string>>)
    ensures Prefixed([], r) == r
  {
    if r.Ok? {
      assert [] + r.value == r.value;
    }
  }

  lemma NoField(text: string, n: nat)
    requires n > 0 && Find(text, ':', 0).None?
    ensures Fields(text, n) == Err("PinWrappedKey::parse: too few fields")
  {
  }

  function Prefixed(parts: seq<string>, r: Result<seq<string>>): Result<seq<string>> {
    match r
    case Err(e) => Err(e)
    case Ok(rest) => Ok(parts + rest)
  }

  lemma FieldsStep(text: string, start: nat, pos: nat, n: nat, parts: seq<string>)
    requires start <= pos < |text| && n > 0
    requires Find(text[start..], ':', 0) == Some(pos - start)
    ensures Prefixed(parts, Fields(text[start..], n))
            == Prefixed(parts + [text[start..pos]], Fields(text[pos + 1..], n - 1))
  {
    var t := text[start..];
    assert t[..pos - start] == text[start..pos] && t[pos - start + 1..] == text[pos + 1..];
    match Fields(text[pos + 1..], n - 1)
    case Err(_) =>
    case Ok(rest) =>
      assert parts + ([text[start..pos]] + rest) == (parts + [text[start..pos]]) + rest;
  }

  method Parse(text: string) returns (r: Result<PinWrappedKey>)
    ensures r == Parsed(text)
  {
    hide Base64.Parsed, EncString.Parsed, ParsedUint, Fields;
    FieldsCount(text, 5);
    var parts :- SplitFields(text);
    if parts[0] != TAG {
      return Err("PinWrappedKey::parse: bad tag");
    }
    var iterations :- ParseUint(parts[1]);
    var memoryMiB :- ParseUint(parts[2]);
    var parallelism :- ParseUint(parts[3]);
    var salt :- Base64.Decode(parts[4]);
    if |salt| != SALT_LENGTH {
      return Err("PinWrappedKey::parse: wrong salt length");
    }
    var checked :- EncString.Parse(parts[5]);
    r := Ok(PinWrappedKey(Params(iterations, memoryMiB, parallelism), salt, parts[5]));
  }

  lemma FieldFirst(a: string, rest: string, n: nat, tail: seq<string>)
    requires Free(a, ':') && n > 0 && Fields(rest, n - 1) == Ok(tail)
    ensures Fields(a + ":" + rest, n) == Ok([a] + tail)
  {
    var t := a + ":" + rest;
    FindIs(t, ':', 0, |a|);
    assert t[..|a|] == a && t[|a| + 1..] == rest;
  }

  lemma FieldsOfText(w: PinWrappedKey)
    ensures Fields(Text(w), 5) == Ok([TAG, ToString(w.params.iterations), ToString(w.params.memoryMiB),
                                      ToString(w.params.parallelism), Base64.Text(w.salt), w.encString])
  {
    hide Fields, Base64.Text, ToString;
    var a, b, c := ToString(w.params.iterations), ToString(w.params.memoryMiB), ToString(w.params.parallelism);
    var d := Base64.Text(w.salt);
    NumberIsFree(w.params.iterations);
    NumberIsFree(w.params.memoryMiB);
    NumberIsFree(w.params.parallelism);
    Base64.RoundTrip(w.salt);
    EncString.AcceptedIsFree(d, ':');
    var t4 := d + ":" + w.encString;
    var t3 := c + ":" + t4;
    var t2 := b + ":" + t3;
    var t1 := a + ":" + t2;
    LastField(w.encString);
    var f5 := [w.encString];
    var f4, f3, f2, f1 := [d] + f5, [c] + ([d] + f5), [b] + ([c] + ([d] + f5)), [a] + ([b] + ([c] + ([d] + f5)));
    FieldFirst(d, w.encString, 1, f5);
    FieldFirst(c, t4, 2, f4);
    FieldFirst(b, t3, 3, f3);
    FieldFirst(a, t2, 4, f2);
    FieldFirst(TAG, t1, 5, f1);
    assert [TAG] + f1 == [TAG, a, b, c, d, w.encString];
    assert Text(w) == TAG + ":" + t1;
  }

  lemma LastField(s: string)
    ensures Fields(s, 0) == Ok([s])
  {
  }

  lemma NumberIsFree(n: nat)
    ensures Free(ToString(n), ':')
  {
    Reads(n);
  }

  lemma UintRoundTrip(n: uint32)
    ensures if n < 1_000_000_000 then ParsedUint(ToString(n)) == Ok(n) else ParsedUint(ToString(n)).Err?
  {
    Reads(n);
    LengthExactly(n, 9);
    Billion();
  }

  /** Exactly these keys survive being printed and parsed; all others fail to parse. */
  ghost predicate Storable(w: PinWrappedKey) {
    && |w.salt| == SALT_LENGTH
    && w.params.iterations < 1_000_000_000
    && w.params.memoryMiB < 1_000_000_000
    && w.params.parallelism < 1_000_000_000
    && EncString.Parsed(w.encString).Ok?
  }

  lemma RoundTrip(w: PinWrappedKey)
    ensures if Storable(w) then Parsed(Text(w)) == Ok(w) else Parsed(Text(w)).Err?
  {
    hide Fields, Text, ToString, ParsedUint, Base64.Parsed, EncString.Parsed;
    FieldsOfText(w);
    UintRoundTrip(w.params.iterations);
    UintRoundTrip(w.params.memoryMiB);
    UintRoundTrip(w.params.parallelism);
    Base64.RoundTrip(w.salt);
  }

  // ----- wrapping -----

  /** deriveKek. */
  function Kek(c: Suite, pin: bytes, salt: bytes, params: Params): Result<Key> {
    var raw :- c.argon2id(pin, salt, params.iterations, params.memoryMiB, params.parallelism);
    KeyFromBytes(raw)
  }

  /** wrapWithPin; the random salt and iv are parameters. */
  ghost function Wrapped(c: Suite, secret: bytes, pin: bytes, salt: bytes, iv: bytes): Result<PinWrappedKey> {
    var kek :- Kek(c, pin, salt, DEFAULT_PARAMS);
    var sealed :- EncString.Sealed(c, secret, kek, iv);
    Ok(PinWrappedKey(DEFAULT_PARAMS, salt, sealed))
  }

  method WrapWithPin(c: Suite, secret: bytes, pin: bytes, salt: bytes, iv: bytes) returns (r: Result<PinWrappedKey>)
    ensures r == Wrapped(c, secret, pin, salt, iv)
  {
    var kek := Kek(c, pin, salt, DEFAULT_PARAMS);
    if kek.Err? {
      return Err(kek.error);
    }
    var sealed := EncString.Seal(c, secret, kek.value, iv);
    if sealed.Err? {
      return Err(sealed.error);
    }
    r := Ok(PinWrappedKey(DEFAULT_PARAMS, salt, sealed.value));
  }

  /** unwrapWithPin. */
  ghost function Unwrapped(c: Suite, w: PinWrappedKey, pin: bytes): Result<bytes> {
    var kek :- Kek(c, pin, w.salt, w.params);
    EncString.Opened(c, w.encString, kek)
  }

  method UnwrapWithPin(c: Suite, w: PinWrappedKey, pin: bytes) returns (r: Result<bytes>)
    requires Lawful(c)
    ensures r == Unwrapped(c, w, pin)
  {
    var kek := Kek(c, pin, w.salt, w.params);
    if kek.Err? {
      return Err(kek.error);
    }
    r := EncString.Open(c, w.encString, kek.value);
  }

  /** From secret to stored line and back: whenever the key derivation succeeds, the
      line parses to the wrapped key and the same PIN recovers the secret. */
  lemma EndToEnd(c: Suite, secret: bytes, pin: bytes, salt: bytes, iv: bytes)
    requires Lawful(c) && |salt| == SALT_LENGTH && |iv| == 16
    ensures Wrapped(c, secret, pin, salt, iv).Ok? <==> Kek(c, pin, salt, DEFAULT_PARAMS).Ok?
    ensures var w := Wrapped(c, secret, pin, salt, iv);
            w.Ok? ==> Parsed(Text(w.value)) == Ok(w.value)
                      && Unwrapped(c, Parsed(Text(w.value)).value, pin) == Ok(secret)
  {
    hide EncString.Sealed, EncString.Opened, EncString.Parsed, Text, Parsed;
    var kek := Kek(c, pin, salt, DEFAULT_PARAMS);
    if kek.Ok? {
      EncString.OpenSealed(c, secret, kek.value, iv);
      RoundTrip(Wrapped(c, secret, pin, salt, iv).value);
    }
  }

  /** The comment at src/crypto/pinwrap.cpp:91-92 says that parsing also rejects
      every payload that is not of type 2. It does not: a type-4 payload is
      accepted there, and only unwrapping refuses it, for every PIN. */
  lemma Type4Payload(c: Suite, w: PinWrappedKey, pin: bytes)
    requires Storable(w) && EncString.Parsed(w.encString).value.kind == 4
    ensures Parsed(Text(w)) == Ok(w)
    ensures Unwrapped(c, w, pin).Err?
  {
    RoundTrip(w);
  }

  /** Such a line exists for every salt: this one is accepted and never opens. */
  lemma Type4Line(c: Suite, salt: bytes, pin: bytes)
    requires |salt| == SALT_LENGTH
    ensures var w := PinWrappedKey(DEFAULT_PARAMS, salt, "4." + Base64.Text([1]));
            Parsed(Text(w)) == Ok(w) && Unwrapped(c, w, pin).Err?
  {
    hide Base64.Text, Base64.Parsed, EncString.Parsed, Text, Parsed, Unwrapped;
    var a := Base64.Text([1]);
    Base64.RoundTrip([1]);
    assert "4." + a == "4" + "." + a;
    EncString.Type4Accepted("4." + a, "4", a);
    Type4Payload(c, PinWrappedKey(DEFAULT_PARAMS, salt, "4." + a), pin);
  }
}
