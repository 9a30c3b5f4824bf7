/** Bitwarden EncStrings, "<type>.<base64>|<base64>|<base64>", and the
    encrypt-then-MAC scheme on top of them. */
module EncString {
  import opened Words
  import opened Wrappers
  import opened Decimals
  import opened CryptoSuite
  import opened Splitting
  import Base64

  // ----- splitting -----

  method SplitParts(data: string, sep: char) returns (parts: seq<string>)
    ensures parts == Split(data, sep)
  {
    hide Find, Split;
    parts := [];
    var start := 0;
    assert data[0..] == data && [] + Split(data, sep) == Split(data, sep);
    while true
      invariant 0 <= start <= |data|
      invariant Split(data, sep) == parts + Split(data[start..], sep)
      decreases |data| - start
    {
      SplitFrom(data, sep, start);
      var pos := Find(data, sep, start);
      if pos.None? {
        parts := parts + [data[start..]];
        return;
      }
      var piece := data[start..pos.value];
      assert parts + ([piece] + Split(data[pos.value + 1..], sep))
             == (parts + [piece]) + Split(data[pos.value + 1..], sep);
      parts := parts + [piece];
      start := pos.value + 1;
    }
  }

  // ----- text form -----

  datatype EncString = EncString(kind: int, iv: bytes, ciphertext: bytes, mac: bytes)

  /** The sizes of a type-2 value. */
  predicate WellSized(e: EncString) {
    e.kind == 2 && |e.iv| == 16 && |e.mac| == 32 && e.ciphertext != [] && |e.ciphertext| % 16 == 0
  }

  ghost function ParsedType2(parts: seq<string>): Result<EncString> {
    if |parts| != 3 then Err("EncString: type 2 requires iv|ciphertext|mac")
    else
      var iv :- Base64.Parsed(parts[0]);
      var ciphertext :- Base64.Parsed(parts[1]);
      var mac :- Base64.Parsed(parts[2]);
      if |iv| != 16 then Err("EncString: type 2 iv must be 16 bytes")
      else if |mac| != 32 then Err("EncString: type 2 mac must be 32 bytes")
      else if ciphertext == [] || |ciphertext| % 16 != 0 then
        Err("EncString: type 2 ciphertext must be a non-empty multiple of the AES block size")
      else Ok(EncString(2, iv, ciphertext, mac))
  }

  ghost function ParsedType4(parts: seq<string>): Result<EncString> {
    if |parts| != 1 then Err("EncString: type 4 requires a single part")
    else
      var ciphertext :- Base64.Parsed(parts[0]);
      if ciphertext == [] then Err("EncString: type 4 empty ciphertext")
      else Ok(EncString(4, [], ciphertext, []))
  }

  /** EncString::parse. */
  ghost function Parsed(text: string): Result<EncString> {
    var dot := Find(text, '.', 0);
    if dot.None? || dot.value == 0 then Err("EncString: missing type prefix")
    else
      var typePart := text[..dot.value];
      if !AllDigits(typePart) then Err("EncString: non-numeric type")
      else if |typePart| > 2 then Err("EncString: type out of range")
      else
        var parts := Split(text[dot.value + 1..], '|');
        if Decimals.Value(typePart) == 2 then ParsedType2(parts)
        else if Decimals.Value(typePart) == 4 then ParsedType4(parts)
        else Err("EncString: unsupported type " + ToString(Decimals.Value(typePart)))
  }

  method Parse(text: string) returns (r: Result<EncString>)
    ensures r == Parsed(text)
  {
    var dot := Find(text, '.', 0);
    if dot.None? || dot.value == 0 {
      return Err("EncString: missing type prefix");
    }
    var typePart := text[..dot.value];
    var i := 0;
    while i < |typePart|
      invariant 0 <= i <= |typePart| && AllDigits(typePart[..i])
    {
      if typePart[i] < '0' || typePart[i] > '9' {
        return Err("EncString: non-numeric type");
      }
      i := i + 1;
    }
    assert typePart[..i] == typePart;
    if |typePart| > 2 {
      return Err("EncString: type out of range");
    }
    var kind := Decimals.Value(typePart);
    var parts := SplitParts(text[dot.value + 1..], '|');
    if kind == 2 {
      r := ParseType2(parts);
    } else if kind == 4 {
      r := ParseType4(parts);
    } else {
      r := Err("EncString: unsupported type " + ToString(kind));
    }
  }

  method ParseType2(parts: seq<string>) returns (r: Result<EncString>)
    ensures r == ParsedType2(parts)
  {
    hide Base64.Parsed, Base64.Text;
    if |parts| != 3 {
      return Err("EncString: type 2 requires iv|ciphertext|mac");
    }
    var iv :- Base64.Decode(parts[0]);
    var ciphertext :- Base64.Decode(parts[1]);
    var mac :- Base64.Decode(parts[2]);
    if |iv| != 16 {
      return Err("EncString: type 2 iv must be 16 bytes");
    }
    if |mac| != 32 {
      return Err("EncString: type 2 mac must be 32 bytes");
    }
    if ciphertext == [] || |ciphertext| % 16 != 0 {
      return Err("EncString: type 2 ciphertext must be a non-empty multiple of the AES block size");
    }
    r := Ok(EncString(2, iv, ciphertext, mac));
  }

  method ParseType4(parts: seq<string>) returns (r: Result<EncString>)
    ensures r == ParsedType4(parts)
  {
    hide Base64.Parsed;
    if |parts| != 1 {
      return Err("EncString: type 4 requires a single part");
    }
    var ciphertext :- Base64.Decode(parts[0]);
    if ciphertext == [] {
      return Err("EncString: type 4 empty ciphertext");
    }
    r := Ok(EncString(4, [], ciphertext, []));
  }

  /** EncString::serialize of a type-2 value. */
  ghost function Text(e: EncString): string {
    "2." + Base64.Text(e.iv) + "|" + Base64.Text(e.ciphertext) + "|" + Base64.Text(e.mac)
  }

  method Serialize(e: EncString) returns (r: Result<string>)
    ensures e.kind != 2 ==> r == Err("EncString::serialize: only type 2 is supported")
    ensures e.kind == 2 ==> r == Ok(Text(e))
  {
    if e.kind != 2 {
      return Err("EncString::serialize: only type 2 is supported");
    }
    var iv := Base64.Encode(e.iv);
    var ciphertext := Base64.Encode(e.ciphertext);
    var mac := Base64.Encode(e.mac);
    r := Ok("2." + iv + "|" + ciphertext + "|" + mac);
  }

  /** Base64 text holds none of the separators. */
  lemma AcceptedIsFree(s: string, c: char)
    requires Base64.Parsed(s).Ok? && c in ".|:"
    ensures Free(s, c)
  {
    Base64.AcceptedShape(s);
    var body := Base64.StripPadding(s);
    forall i | 0 <= i < |s| ensures s[i] != c {
      if i < |body| {
        assert body[i] in body;
        Base64.CodeSymbol(s[i]);
      }
    }
  }

  lemma PrefixFound(prefix: string, rest: string)
    requires Free(prefix, '.')
    ensures Find(prefix + "." + rest, '.', 0) == Some(|prefix|)
    ensures (prefix + "." + rest)[..|prefix|] == prefix && (prefix + "." + rest)[|prefix| + 1..] == rest
  {
    FindIs(prefix + "." + rest, '.', 0, |prefix|);
  }

  lemma ThreeParts(a: string, b: string, c: string)
    requires Free(a, '|') && Free(b, '|') && Free(c, '|')
    ensures Split(a + "|" + b + "|" + c, '|') == [a, b, c]
  {
    var parts := [a, b, c];
    assert parts[1..] == [b, c] && parts[1..][1..] == [c];
    assert Join(parts, '|') == a + "|" + b + "|" + c by {
      assert Join([c], '|') == c;
      assert Join([b, c], '|') == b + ['|'] + c;
    }
    SplitJoin(parts, '|');
  }

  /** Parsing after printing: exactly the well-sized type-2 values come back. */
  lemma RoundTrip(e: EncString)
    requires e.kind == 2
    ensures WellSized(e) ==> Parsed(Text(e)) == Ok(e)
    ensures !WellSized(e) ==> Parsed(Text(e)).Err?
  {
    hide Base64.Parsed, Base64.Text;
    var a, b, c := Base64.Text(e.iv), Base64.Text(e.ciphertext), Base64.Text(e.mac);
    Base64.RoundTrip(e.iv);
    Base64.RoundTrip(e.ciphertext);
    Base64.RoundTrip(e.mac);
    AcceptedIsFree(a, '|');
    AcceptedIsFree(b, '|');
    AcceptedIsFree(c, '|');
    PrefixFound("2", a + "|" + b + "|" + c);
    assert Text(e) == "2" + "." + (a + "|" + b + "|" + c);
    ThreeParts(a, b, c);
    assert Decimals.Value("2") == 2 by { assert "2"[..0] == ""; }
  }

  ghost predicate IsType2Text(text: string, p: string, a: string, b: string, c: string) {
    && (p == "2" || p == "02") && text == p + "." + a + "|" + b + "|" + c
    && Base64.Parsed(a).Ok? && Base64.Parsed(b).Ok? && Base64.Parsed(c).Ok?
    && WellSized(EncString(2, Base64.Parsed(a).value, Base64.Parsed(b).value, Base64.Parsed(c).value))
  }

  ghost predicate IsType4Text(text: string, p: string, a: string) {
    && (p == "4" || p == "04") && text == p + "." + a
    && Base64.Parsed(a).Ok? && Base64.Parsed(a).value != []
  }

  /** The types that are read: written with one digit, or with a leading zero. */
  lemma TwoDigits(p: string, v: nat)
    requires AllDigits(p) && 1 <= |p| <= 2 && v < 10
    ensures Decimals.Value(p) == v <==> p == [Digit(v)] || p == "0" + [Digit(v)]
  {
    assert p[..1][..0] == "";
    if |p| == 1 {
      assert p[..0] == "";
      assert p == [p[0]];
    } else {
      assert Decimals.Value(p[..1]) == DigitOf(p[0]);
      assert Decimals.Value(p) == 10 * DigitOf(p[0]) + DigitOf(p[1]);
      assert p == [p[0], p[1]];
    }
  }

  /** The language of EncString::parse. */
  lemma AcceptedExactly(text: string)
    ensures Parsed(text).Ok? <==>
            || (exists p, a, b, c :: IsType2Text(text, p, a, b, c))
            || (exists p, a :: IsType4Text(text, p, a))
  {
    if Parsed(text).Ok? {
      AcceptedForm(text);
    }
    if exists p, a, b, c :: IsType2Text(text, p, a, b, c) {
      var p, a, b, c :| IsType2Text(text, p, a, b, c);
      Type2Accepted(text, p, a, b, c);
    }
    if exists p, a :: IsType4Text(text, p, a) {
      var p, a :| IsType4Text(text, p, a);
      Type4Accepted(text, p, a);
    }
  }

  /** Parsing a text whose type prefix is one or two digits. */
  lemma ParsedAt(p: string, rest: string)
    requires AllDigits(p) && 1 <= |p| <= 2
    ensures Decimals.Value(p) == 2 ==> Parsed(p + "." + rest) == ParsedType2(Split(rest, '|'))
    ensures Decimals.Value(p) == 4 ==> Parsed(p + "." + rest) == ParsedType4(Split(rest, '|'))
  {
    hide Split, ParsedType2, ParsedType4, Decimals.Value;
    PrefixFound(p, rest);
  }

  lemma Type2Accepted(text: string, p: string, a: string, b: string, c: string)
    requires IsType2Text(text, p, a, b, c)
    ensures Parsed(text).Ok?
  {
    hide Base64.Parsed, Parsed, Split, Find, Decimals.Value;
    AcceptedIsFree(a, '|');
    AcceptedIsFree(b, '|');
    AcceptedIsFree(c, '|');
    ThreeParts(a, b, c);
    assert text == p + "." + (a + "|" + b + "|" + c);
    TwoDigits(p, 2);
    ParsedAt(p, a + "|" + b + "|" + c);
  }

  lemma Type4Accepted(text: string, p: string, a: string)
    requires IsType4Text(text, p, a)
    ensures Parsed(text).Ok? && Parsed(text).value.kind == 4
  {
    hide Base64.Parsed, Parsed;
    AcceptedIsFree(a, '|');
    TwoDigits(p, 4);
    ParsedAt(p, a);
    SplitJoin([a], '|');
  }

  lemma JoinedParts(parts: seq<string>)
    requires parts != []
    ensures |parts| == 1 ==> Join(parts, '|') == parts[0]
    ensures |parts| == 3 ==> Join(parts, '|') == parts[0] + "|" + parts[1] + "|" + parts[2]
  {
    if |parts| == 3 {
      assert Join(parts[1..][1..], '|') == parts[2];
      assert Join(parts[1..], '|') == parts[1] + "|" + parts[2];
    }
  }

  lemma Regroup(p: string, a: string, b: string, c: string)
    ensures p + "." + (a + "|" + b + "|" + c) == p + "." + a + "|" + b + "|" + c
  {
  }

  lemma Type2Form(p: string, rest: string)
    requires (p == "2" || p == "02") && ParsedType2(Split(rest, '|')).Ok?
    ensures exists a, b, c :: IsType2Text(p + "." + rest, p, a, b, c)
  {
    var parts := Split(rest, '|');
    hide Base64.Parsed, Split, Join;
    JoinSplit(rest, '|');
    JoinedParts(parts);
    Regroup(p, parts[0], parts[1], parts[2]);
    assert IsType2Text(p + "." + rest, p, parts[0], parts[1], parts[2]);
  }

  lemma Type4Form(p: string, rest: string)
    requires (p == "4" || p == "04") && ParsedType4(Split(rest, '|')).Ok?
    ensures exists a :: IsType4Text(p + "." + rest, p, a)
  {
    var parts := Split(rest, '|');
    hide Base64.Parsed, Split, Join;
    JoinSplit(rest, '|');
    JoinedParts(parts);
    assert IsType4Text(p + "." + rest, p, parts[0]);
  }

  lemma AcceptedForm(text: string)
    requires Parsed(text).Ok?
    ensures (exists p, a, b, c :: IsType2Text(text, p, a, b, c)) || (exists p, a :: IsType4Text(text, p, a))
  {
    hide Parsed, Find, Decimals.Value, IsType2Text, IsType4Text;
    PrefixOfAccepted(text);
    var dot := Find(text, '.', 0).value;
    var p, rest := text[..dot], text[dot + 1..];
    assert text == p + "." + rest;
    PrefixedForm(p, rest);
  }

  lemma PrefixedForm(p: string, rest: string)
    requires AllDigits(p) && 1 <= |p| <= 2 && (Decimals.Value(p) == 2 || Decimals.Value(p) == 4)
    requires Parsed(p + "." + rest).Ok?
    ensures (exists q, a, b, c :: IsType2Text(p + "." + rest, q, a, b, c))
            || (exists q, a :: IsType4Text(p + "." + rest, q, a))
  {
    hide Parsed, Split, Decimals.Value, ParsedType2, ParsedType4, IsType2Text, IsType4Text;
    TwoDigits(p, 2);
    TwoDigits(p, 4);
    ParsedAt(p, rest);
    if Decimals.Value(p) == 2 {
      Type2Form(p, rest);
    } else {
      Type4Form(p, rest);
    }
  }

  lemma PrefixOfAccepted(text: string)
    requires Parsed(text).Ok?
    ensures Find(text, '.', 0).Some?
    ensures var p := text[..Find(text, '.', 0).value];
            AllDigits(p) && 1 <= |p| <= 2 && (Decimals.Value(p) == 2 || Decimals.Value(p) == 4)
  {
  }

  /** What is read of type 2 is well-sized, so printing it again is stable. */
  lemma Normalised(text: string)
    requires Parsed(text).Ok?
    ensures var e := Parsed(text).value;
            if e.kind == 2 then WellSized(e) && Parsed(Text(e)) == Ok(e)
            else e.kind == 4 && e.ciphertext != []
  {
    hide Base64.Parsed;
    var e := Parsed(text).value;
    if e.kind == 2 {
      RoundTrip(e);
    }
  }

  // ----- encrypt-then-MAC -----

  /** The loop over all bytes that does not stop at the first difference; None is a
      null buffer, which equals nothing. */
  method ConstantTimeEqual(p: Option<bytes>, q: Option<bytes>, n: nat) returns (equal: bool)
    requires p.Some? && q.Some? ==> n <= |p.value| && n <= |q.value|
    ensures equal <==> p.Some? && q.Some? && p.value[..n] == q.value[..n]
  {
    if p.None? || q.None? {
      return false;
    }
    var a, b := p.value, q.value;
    var diff: nat := 0;
    var i := 0;
    while i < n
      invariant 0 <= i <= n
      invariant diff == 0 <==> a[..i] == b[..i]
    {
      XorZero(a[i], b[i]);
      OrZero(diff, Xor(a[i], b[i]));
      assert a[..i + 1] == a[..i] + [a[i]] && b[..i + 1] == b[..i] + [b[i]];
      diff := Or(diff, Xor(a[i], b[i]));
      i := i + 1;
    }
    equal := diff == 0;
  }

  /** decryptAes256CbcHmac: the MAC over iv and ciphertext decides first. */
  function Decrypted(c: Suite, e: EncString, key: Key): Result<bytes> {
    if e.kind != 2 then Err("decryptAes256CbcHmac: not a type 2 EncString")
    else if !Sized(key) then Err("decryptAes256CbcHmac: bad key sizes")
    else if c.hmacSha256(key.macKey, e.iv + e.ciphertext) != e.mac then
      Err("decryptAes256CbcHmac: MAC verification failed")
    else
      match c.aesDecrypt(key.encKey, e.iv, e.ciphertext)
      case None => Err("decryptAes256CbcHmac: decryption failed")
      case Some(plain) => Ok(plain)
  }

  method Decrypt(c: Suite, e: EncString, key: Key) returns (r: Result<bytes>)
    requires Lawful(c) && (e.kind == 2 ==> |e.mac| == 32)
    ensures r == Decrypted(c, e, key)
  {
    if e.kind != 2 {
      return Err("decryptAes256CbcHmac: not a type 2 EncString");
    }
    if |key.encKey| != 32 || |key.macKey| != 32 {
      return Err("decryptAes256CbcHmac: bad key sizes");
    }
    var expected := c.hmacSha256(key.macKey, e.iv + e.ciphertext);
    var same := ConstantTimeEqual(Some(expected), Some(e.mac), |expected|);
    assert expected[..32] == expected && e.mac[..32] == e.mac;
    if !same {
      return Err("decryptAes256CbcHmac: MAC verification failed");
    }
    match c.aesDecrypt(key.encKey, e.iv, e.ciphertext)
    case None => r := Err("decryptAes256CbcHmac: decryption failed");
    case Some(plain) => r := Ok(plain);
  }

  /** encryptAes256CbcHmacWithIv; the random iv is a parameter. */
  function Encrypted(c: Suite, plain: bytes, key: Key, iv: bytes): Result<EncString> {
    if !Sized(key) then Err("encryptAes256CbcHmac: bad key sizes")
    else
      var ciphertext := c.aesEncrypt(key.encKey, iv, plain);
      Ok(EncString(2, iv, ciphertext, c.hmacSha256(key.macKey, iv + ciphertext)))
  }

  /** The text an encrypted value is stored as. */
  ghost function Sealed(c: Suite, plain: bytes, key: Key, iv: bytes): Result<string> {
    var e :- Encrypted(c, plain, key, iv);
    Ok(Text(e))
  }

  /** Reading that text back under a key. */
  ghost function Opened(c: Suite, text: string, key: Key): Result<bytes> {
    var e :- Parsed(text);
    Decrypted(c, e, key)
  }

  method Seal(c: Suite, plain: bytes, key: Key, iv: bytes) returns (r: Result<string>)
    ensures r == Sealed(c, plain, key, iv)
  {
    var e := Encrypted(c, plain, key, iv);
    if e.Err? {
      return Err(e.error);
    }
    r := Serialize(e.value);
  }

  method Open(c: Suite, text: string, key: Key) returns (r: Result<bytes>)
    requires Lawful(c)
    ensures r == Opened(c, text, key)
  {
    hide Parsed;
    var e :- Parse(text);
    Normalised(text);
    r := Decrypt(c, e, key);
  }

  /** Every value sealed under a full-size key opens under it to itself, through
      base64, separators, size checks and the MAC. */
  lemma OpenSealed(c: Suite, plain: bytes, key: Key, iv: bytes)
    requires Lawful(c) && Sized(key) && |iv| == 16
    ensures Sealed(c, plain, key, iv).Ok? && Sealed(c, plain, key, iv).value != ""
    ensures Parsed(Sealed(c, plain, key, iv).value).Ok?
    ensures Opened(c, Sealed(c, plain, key, iv).value, key) == Ok(plain)
  {
    hide Parsed, Base64.Text;
    var e := Encrypted(c, plain, key, iv).value;
    assert |e.ciphertext| == 16 * (|plain| / 16 + 1);
    RoundTrip(e);
  }

  /** Nothing is decrypted without the right MAC. */
  lemma OpenedIsAuthentic(c: Suite, text: string, key: Key)
    requires Opened(c, text, key).Ok?
    ensures var e := Parsed(text).value;
            Parsed(text).Ok? && WellSized(e) && Sized(key)
            && e.mac == c.hmacSha256(key.macKey, e.iv + e.ciphertext)
            && c.aesDecrypt(key.encKey, e.iv, e.ciphertext) == Some(Opened(c, text, key).value)
  {
    hide Parsed;
    Normalised(text);
  }
}
