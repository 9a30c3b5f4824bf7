/** The lenient base32 decoder for authenticator secrets (section 6 of
    RFC 4648): letters of either case, spaces and '=' skipped anywhere. */
module Base32 {
  import opened Words
  import opened Wrappers
  import opened BitStrings

  predicate Ignored(c: char) {
    c == ' ' || c == '='
  }

  predicate IsSymbol(c: char) {
    'A' <= c <= 'Z' || 'a' <= c <= 'z' || '2' <= c <= '7'
  }

  function Value(c: char): (v: nat)
    requires IsSymbol(c)
    ensures v < 32
  {
    if 'A' <= c <= 'Z' then c as int - 'A' as int
    else if 'a' <= c <= 'z' then c as int - 'a' as int
    else c as int - '2' as int + 26
  }

  ghost predicate Accepted(s: string) {
    forall i :: 0 <= i < |s| ==> Ignored(s[i]) || IsSymbol(s[i])
  }

  /** The 5-bit groups of the symbols, in order. */
  ghost function Quintets(s: string): seq<nat>
    requires Accepted(s)
  {
    if s == "" then []
    else
      var n := |s| - 1;
      Quintets(s[..n]) + (if Ignored(s[n]) then [] else [Value(s[n])])
  }

  /** The result of decoding: the whole bytes of all groups in a row. */
  ghost function Parsed(s: string): Result<bytes> {
    if Accepted(s) then Ok(WholeBytes(Concat(Quintets(s), 5)))
    else Err("base32Decode: invalid character")
  }

  ghost function WholeBytes(b: bits): bytes {
    assert Pow2(8) == 256 by { Pow2Values(); }
    ChunksBound(b, 8);
    var r := Chunks(b, 8);
    assert forall i :: 0 <= i < |r| ==> r[i] in r;
    r
  }

  /** Shifting in k bits in a 32-bit buffer that is never masked keeps the
      buffer equal to all bits so far, modulo 2^32. */
  lemma PushBits(n: nat, k: nat, v: nat)
    requires k <= 32 && v < Pow2(k)
    ensures n % TWO_32 < TWO_32
    ensures Or(Shl32(n % TWO_32, k), v) == (Pow2(k) * n + v) % TWO_32
  {
    assert Pow2(k) * Pow2(32 - k) == TWO_32 by { Pow2Add(k, 32 - k); Pow2Values(); }
    PushBitsAt(n, k, v, Pow2(k), Pow2(32 - k));
  }

  lemma PushBitsAt(n: nat, k: nat, v: nat, p: nat, m: nat)
    requires p == Pow2(k) && m > 0 && p * m == TWO_32 && v < p
    ensures Or(Shl32(n % TWO_32, k), v) == (p * n + v) % TWO_32
  {
    hide Or, Pow2;
    assert n % TWO_32 % m == n % m by {
      assert m * p == TWO_32;
      DivModSplit(n, m, p);
    }
    ShiftLeft(n % TWO_32, k, p, m);
    OrPlus(n % m, v, k, p);
    ShiftLeft2(n, p, m, v);
  }

  lemma ShiftLeft(x: uint32, k: nat, p: nat, m: nat)
    requires p == Pow2(k) && m > 0 && p * m == TWO_32
    ensures Shl32(x, k) == p * (x % m)
  {
    ShiftLeft2(x, p, m, 0);
  }

  lemma ShiftLeft2(n: nat, p: nat, m: nat, v: nat)
    requires p > 0 && m > 0 && p * m == TWO_32 && v < p
    ensures (p * n + v) % TWO_32 == p * (n % m) + v
  {
    var q, r := n / m, n % m;
    assert p * n == TWO_32 * q + p * r by {
      assert n == m * q + r;
      Distribute(p, m * q, r);
      Assoc(p, m, q);
    }
    assert p * r + v < TWO_32 by {
      MulLe(p, r, m - 1);
      Distribute(p, m, -1);
    }
    DivModUnique(p * n + v, TWO_32, q, p * r + v);
  }

  lemma FiveMore(g: seq<nat>, v: nat)
    requires v < 32
    ensures Concat(g + [v], 5) == Concat(g, 5) + OfNat(v, 5)
    ensures Nat(Concat(g + [v], 5)) == 32 * Nat(Concat(g, 5)) + v
    ensures |Concat(g + [v], 5)| == |Concat(g, 5)| + 5
  {
    assert Pow2(5) == 32 by { Pow2Values(); }
    ConcatAppend(g, [v], 5);
    ConcatOne(v, 5);
    NatConcat(Concat(g, 5), OfNat(v, 5));
    GroupAlone(v, 5);
  }

  lemma BufferStep(g: seq<nat>, v: nat, buffer: uint32)
    requires v < 32 && buffer == Nat(Concat(g, 5)) % TWO_32
    ensures Or(Shl32(buffer, 5), v) == Nat(Concat(g + [v], 5)) % TWO_32
  {
    hide Concat, Nat, OfNat, Or, Shl32, Pow2;
    assert Pow2(5) == 32 by { Pow2Values(); }
    FiveMore(g, v);
    PushBits(Nat(Concat(g, 5)), 5, v);
  }

  /** `(buffer >> bits) & 0xff` are the eight bits before the last `bits`. */
  lemma BufferByte(b: bits, buffer: uint32, k: nat)
    requires buffer == Nat(b) % TWO_32 && k <= 24 && k + 8 <= |b|
    ensures And(Shr(buffer, k), 255) == Nat(b[|b| - k - 8..|b| - k])
  {
    hide Nat, Pow2, And;
    assert Pow2(8) == 256 && Pow2(32) == TWO_32 by { Pow2Values(); }
    AndMask(Shr(buffer, k), 8);
    LowBitsSurvive(Nat(b), 32, k, 8);
    NatSlice(b, |b| - k - 8, |b| - k);
  }

  /** Five more bits complete a byte exactly when at least three were waiting. */
  lemma WholeBytesStep(b: bits, t: bits)
    requires |t| == 5
    ensures |b| % 8 < 3 ==> Chunks(b + t, 8) == Chunks(b, 8) && |b + t| % 8 == |b| % 8 + 5
    ensures |b| % 8 >= 3 ==>
              var k := |b| % 8 - 3;
              && |b + t| % 8 == k
              && Chunks(b + t, 8) == Chunks(b, 8) + [Nat((b + t)[|b + t| - k - 8..|b + t| - k])]
  {
    hide Chunks, Nat;
    var m, r := |b| / 8, |b| % 8;
    var c := b + t;
    assert c[..|b|] == b && c[..|c|] == c;
    ChunksTake(c, 8, m, |b|);
    ChunksLength(b, 8);
    ChunksLength(c, 8);
    if r < 3 {
      ChunksTake(c, 8, m, |c|);
    } else {
      var k := r - 3;
      assert |c| == 8 * (m + 1) + k;
      ChunksTake(c, 8, m + 1, |c|);
      ChunksTake(c, 8, m + 1, 8 * (m + 1));
      var head := c[..8 * (m + 1)];
      assert head == c[..8 * m] + c[8 * m..8 * m + 8];
      DivModUnique(8 * m, 8, m, 0);
      ChunksAppend(c[..8 * m], c[8 * m..8 * m + 8], 8);
      ChunksOne(c[8 * m..8 * m + 8], 8);
      ChunksTake(c, 8, m, 8 * m);
    }
  }

  lemma CharStep(s: string, i: nat)
    requires i < |s| && Accepted(s[..i])
    ensures Ignored(s[i]) ==> Accepted(s[..i + 1]) && Quintets(s[..i + 1]) == Quintets(s[..i])
    ensures IsSymbol(s[i]) ==> Accepted(s[..i + 1]) && Quintets(s[..i + 1]) == Quintets(s[..i]) + [Value(s[i])]
    ensures !(Ignored(s[i]) || IsSymbol(s[i])) ==> !Accepted(s)
  {
    assert s[..i + 1][..i] == s[..i];
  }

  /** base32Decode. */
  method Decode(text: string) returns (r: Result<bytes>)
    ensures r == Parsed(text)
  {
    hide Or, Shl32, Shr, And, Nat, Concat, Chunks, Pow2, Quintets, Accepted;
    var out: bytes := [];
    var buffer: uint32 := 0;
    var bits: nat := 0;
    var i := 0;
    NothingYet();
    assert text[..0] == "";
    while i < |text|
      invariant 0 <= i <= |text| && Accepted(text[..i])
      invariant buffer == Nat(Concat(Quintets(text[..i]), 5)) % TWO_32
      invariant bits == |Concat(Quintets(text[..i]), 5)| % 8
      invariant out == Chunks(Concat(Quintets(text[..i]), 5), 8)
    {
      var c := text[i];
      CharStep(text, i);
      if c == ' ' || c == '=' {
        i := i + 1;
        continue;
      }
      var value: nat;
      if 'A' <= c <= 'Z' {
        value := c as int - 'A' as int;
      } else if 'a' <= c <= 'z' {
        value := c as int - 'a' as int;
      } else if '2' <= c <= '7' {
        value := c as int - '2' as int + 26;
      } else {
        return Err("base32Decode: invalid character");
      }
      ghost var g := Quintets(text[..i]);
      BufferStep(g, value, buffer);
      FiveMore(g, value);
      WholeBytesStep(Concat(g, 5), OfNat(value, 5));
      buffer := Or(Shl32(buffer, 5), value);
      bits := bits + 5;
      if bits >= 8 {
        bits := bits - 8;
        BufferByte(Concat(g + [value], 5), buffer, bits);
        LowByte(buffer, bits);
        out := out + [And(Shr(buffer, bits), 255)];
      }
      i := i + 1;
    }
    assert text[..i] == text;
    r := Ok(out);
  }

  lemma NothingYet()
    ensures Accepted("") && Quintets("") == []
    ensures Nat(Concat([], 5)) == 0 && |Concat([], 5)| == 0 && Chunks(Concat([], 5), 8) == []
  {
  }

  lemma LowByte(x: nat, k: nat)
    ensures And(Shr(x, k), 255) < 256
  {
    assert Pow2(8) == 256 by { Pow2Values(); }
    AndMask(Shr(x, k), 8);
  }

  // ----- what the decoder is for -----

  /** RFC 4648 encoding, without the closing '='. */
  ghost function Text(data: bytes): string {
    Symbols(EncodeGroups(data, 5))
  }

  function Symbols(g: seq<nat>): (s: string)
    ensures |s| == |g|
  {
    seq(|g|, i requires 0 <= i < |g| =>
      if g[i] < 26 then ('A' as int + g[i]) as char
      else if g[i] < 32 then ('2' as int + g[i] - 26) as char
      else ' ')
  }

  lemma {:induction false} QuintetsOfSymbols(g: seq<nat>)
    requires forall i :: 0 <= i < |g| ==> g[i] < 32
    ensures Accepted(Symbols(g)) && Quintets(Symbols(g)) == g
  {
    if g == [] {
      NothingYet();
    } else {
      hide Accepted, Quintets;
      var n := |g| - 1;
      QuintetsOfSymbols(g[..n]);
      assert Symbols(g)[..n] == Symbols(g[..n]) && Symbols(g)[..n + 1] == Symbols(g);
      CharStep(Symbols(g), n);
      assert g == g[..n] + [g[n]];
    }
  }

  /** Decoding an encoded secret gives it back. */
  lemma RoundTrip(data: bytes)
    ensures Parsed(Text(data)) == Ok(data)
  {
    var c := Concat(data, 8);
    var b := c + Zeros(Fill(|c|, 5));
    assert Pow2(5) == 32 by { Pow2Values(); }
    ChunksBound(b, 5);
    var g := EncodeGroups(data, 5);
    assert forall i :: 0 <= i < |g| ==> g[i] in g;
    QuintetsOfSymbols(g);
    GroupsRoundTrip(data, 5);
  }

  function Upper(c: char): char {
    if 'a' <= c <= 'z' then (c as int - 'a' as int + 'A' as int) as char else c
  }

  /** The characters that are not skipped, in upper case. */
  function Significant(s: string): string {
    if s == "" then ""
    else
      var n := |s| - 1;
      Significant(s[..n]) + (if Ignored(s[n]) then "" else [Upper(s[n])])
  }

  lemma {:induction false} SignificantDecides(s: string)
    ensures Accepted(s) <==> Accepted(Significant(s))
    ensures Accepted(s) ==> Quintets(s) == Quintets(Significant(s))
  {
    if s != "" {
      var n := |s| - 1;
      SignificantDecides(s[..n]);
      assert Accepted(s) <==> Accepted(s[..n]) && (Ignored(s[n]) || IsSymbol(s[n]));
      if Ignored(s[n]) {
        assert Significant(s) == Significant(s[..n]);
      } else {
        SymbolAppended(Significant(s[..n]), Upper(s[n]));
      }
    }
  }

  lemma SymbolAppended(s: string, c: char)
    requires !Ignored(c)
    ensures Accepted(s + [c]) <==> Accepted(s) && IsSymbol(c)
    ensures Accepted(s + [c]) ==> Quintets(s + [c]) == Quintets(s) + [Value(c)]
  {
    var t := s + [c];
    assert t[..|s|] == s;
    if Accepted(t) {
      forall i | 0 <= i < |s| ensures Ignored(s[i]) || IsSymbol(s[i]) {
        assert t[i] == s[i];
      }
      assert t[|s|] == c;
    }
  }

  /** Letter case, spaces and '=' never change the result, error included. */
  lemma SameSecret(s: string, t: string)
    requires Significant(s) == Significant(t)
    ensures Parsed(s) == Parsed(t)
  {
    SignificantDecides(s);
    SignificantDecides(t);
  }
}
