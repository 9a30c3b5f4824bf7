/** The strict base64 codec (section 4 of RFC 4648). The two in-place loops are
    proved against the bit-string encoding of module BitStrings. */
module Base64 {
  import opened Words
  import opened Wrappers
  import opened BitStrings

  function Alphabet(): (s: string)
    ensures |s| == 64
  {
    "ABCDEFGHIJKLMNOPQRSTUVWXYZ" + "abcdefghijklmnopqrstuvwxyz" + "0123456789+/"
  }

  /** The value of a symbol; 255 for any other character. */
  function DecodeChar(c: char): uint8 {
    if 'A' <= c <= 'Z' then c as int - 'A' as int
    else if 'a' <= c <= 'z' then c as int - 'a' as int + 26
    else if '0' <= c <= '9' then c as int - '0' as int + 52
    else if c == '+' then 62
    else if c == '/' then 63
    else 255
  }

  function Symbol(i: nat): char
    requires i < 64
  {
    Alphabet()[i]
  }

  function Symbols(groups: seq<nat>): (s: string)
    requires forall g :: g in groups ==> g < 64
    ensures |s| == |groups|
  {
    seq(|groups|, i requires 0 <= i < |groups| => assert groups[i] in groups; Symbol(groups[i]))
  }

  function Codes(s: string): (g: seq<nat>)
    ensures |g| == |s|
  {
    seq(|s|, i requires 0 <= i < |s| => DecodeChar(s[i]))
  }

  function Equals(k: nat): (s: string)
    ensures |s| == k
  {
    seq(k, _ => '=')
  }

  /** What section 4 of RFC 4648 prescribes for data. */
  ghost function Text(data: bytes): string {
    var groups := EncodeGroups(data, 6);
    GroupsBelow64(Concat(data, 8) + Zeros(Fill(|Concat(data, 8)|, 6)));
    Symbols(groups) + Equals(Fill(|groups|, 4))
  }

  /** s without one or two closing '='. */
  function StripPadding(s: string): (body: string)
    ensures body <= s && |body| + 2 >= |s|
  {
    if |s| >= 2 && s[|s| - 1] == '=' && s[|s| - 2] == '=' then s[..|s| - 2]
    else if |s| >= 1 && s[|s| - 1] == '=' then s[..|s| - 1]
    else s
  }

  ghost predicate OverAlphabet(s: string) {
    forall c :: c in s ==> c in Alphabet()
  }

  /** The whole bytes among the bits of the symbols; pad bits are ignored. */
  ghost function Decoded(s: string): (r: bytes) {
    var b := Concat(Codes(StripPadding(s)), 6);
    Pow2Values();
    ChunksBound(b, 8);
    var r := Chunks(b, 8);
    assert forall i :: 0 <= i < |r| ==> r[i] in r;
    r
  }

  lemma GroupsBelow64(b: bits)
    ensures forall g :: g in Chunks(b, 6) ==> g < 64
  {
    Pow2Values();
    ChunksBound(b, 6);
  }

  lemma SymbolCode(i: nat)
    requires i < 64
    ensures DecodeChar(Symbol(i)) == i
  {
    AlphabetRow(i);
  }

  function Row(i: nat): char
    requires i < 64
  {
    if i < 26 then ('A' as int + i) as char
    else if i < 52 then ('a' as int + i - 26) as char
    else if i < 62 then ('0' as int + i - 52) as char
    else if i == 62 then '+' else '/'
  }

  /** The table, described by ranges. */
  lemma AlphabetRow(i: nat)
    requires i < 64
    ensures Symbol(i) == Row(i)
  {
    hide Alphabet, Row, Symbol;
    if i < 16 {
      FirstRow(i);
    } else if i < 32 {
      SecondRow(i);
    } else if i < 48 {
      ThirdRow(i);
    } else {
      FourthRow(i);
    }
  }

  lemma FirstRow(i: nat)
    requires i < 16
    ensures Symbol(i) == Row(i)
  {
    match i
    case 0 => case 1 => case 2 => case 3 => case 4 => case 5 => case 6 => case 7 =>
    case 8 => case 9 => case 10 => case 11 => case 12 => case 13 => case 14 => case 15 =>
  }

  lemma SecondRow(i: nat)
    requires 16 <= i < 32
    ensures Symbol(i) == Row(i)
  {
    match i
    case 16 => case 17 => case 18 => case 19 => case 20 => case 21 => case 22 => case 23 =>
    case 24 => case 25 => case 26 => case 27 => case 28 => case 29 => case 30 => case 31 =>
  }

  lemma ThirdRow(i: nat)
    requires 32 <= i < 48
    ensures Symbol(i) == Row(i)
  {
    match i
    case 32 => case 33 => case 34 => case 35 => case 36 => case 37 => case 38 => case 39 =>
    case 40 => case 41 => case 42 => case 43 => case 44 => case 45 => case 46 => case 47 =>
  }

  lemma FourthRow(i: nat)
    requires 48 <= i < 64
    ensures Symbol(i) == Row(i)
  {
    match i
    case 48 => case 49 => case 50 => case 51 => case 52 => case 53 => case 54 => case 55 =>
    case 56 => case 57 => case 58 => case 59 => case 60 => case 61 => case 62 => case 63 =>
  }

  lemma CodeSymbol(c: char)
    ensures DecodeChar(c) != 255 <==> c in Alphabet()
    ensures DecodeChar(c) != 255 ==> DecodeChar(c) < 64 && Symbol(DecodeChar(c)) == c
  {
    hide Alphabet, DecodeChar, Row;
    if DecodeChar(c) != 255 {
      DecodedRow(c);
      AlphabetRow(DecodeChar(c));
    } else if c in Alphabet() {
      var i :| 0 <= i < 64 && Alphabet()[i] == c;
      SymbolCode(i);
    }
  }

  lemma DecodedRow(c: char)
    requires DecodeChar(c) != 255
    ensures DecodeChar(c) < 64 && Row(DecodeChar(c)) == c
  {
    hide Alphabet;
  }

  /** Table 1 of RFC 4648: letters, small letters, digits, `+` and `/`, for the values 0 to
      63 in this order, written and read alike. */
  lemma SymbolTable(v: nat, ch: char)
    requires v < 64
    ensures Symbol(v) == ch <==>
            || (v < 26 && ch as int == 'A' as int + v)
            || (26 <= v < 52 && ch as int == 'a' as int + v - 26)
            || (52 <= v < 62 && ch as int == '0' as int + v - 52)
            || (v == 62 && ch == '+') || (v == 63 && ch == '/')
    ensures DecodeChar(ch) == v <==> Symbol(v) == ch
  {
    hide Alphabet, Symbol, DecodeChar;
    AlphabetRow(v);
    SymbolCode(v);
    CodeSymbol(ch);
  }

  // ----- encoding -----

  ghost function Groups(data: bytes): seq<nat> {
    EncodeGroups(data, 6)
  }

  lemma WholeBlocks(n: nat, m: nat)
    requires n % 3 == 0
    ensures (8 * n) % 6 == 0 && Fill(8 * n, 6) == 0
    ensures Fill(8 * n + m, 6) == Fill(m, 6)
    ensures (8 * n / 6) % 4 == 0
  {
    var k := n / 3;
    assert 8 * n == 6 * (4 * k);
  }

  lemma GroupsAppend(a: bytes, b: bytes)
    requires |a| % 3 == 0
    ensures Groups(a + b) == Groups(a) + Groups(b)
  {
    var x, y := Concat(a, 8), Concat(b, 8);
    ConcatAppend(a, b, 8);
    ConcatLength(a, 8);
    ConcatLength(b, 8);
    hide Concat, Chunks;
    WholeBlocks(|a|, |y|);
    assert x + Zeros(0) == x;
    assert (x + y) + Zeros(Fill(|y|, 6)) == x + (y + Zeros(Fill(|y|, 6)));
    ChunksAppend(x, y + Zeros(Fill(|y|, 6)), 6);
  }

  /** `kAlphabet[(v >> k) & 63]`. */
  function Pick(v: uint32, k: nat): char {
    FieldBound(v, k);
    Alphabet()[And(Shr(v, k), 63)]
  }

  lemma FieldBound(v: uint32, k: nat)
    ensures And(Shr(v, k), 63) < 64
  {
    assert Pow2(6) == 64 by { Pow2Values(); }
    AndMask(Shr(v, k), 6);
  }

  /** The four 6-bit fields of a 24-bit word, as the code extracts them. */
  function Fields(v: uint32): (g: seq<nat>)
    ensures |g| == 4
  {
    [And(Shr(v, 18), 63), And(Shr(v, 12), 63), And(Shr(v, 6), 63), And(Shr(v, 0), 63)]
  }

  lemma FieldIsSlice(b: bits, j: nat)
    requires |b| == 24 && 6 <= j <= 24
    ensures And(Shr(Nat(b), 24 - j), 63) == Nat(b[j - 6..j])
  {
    assert Pow2(6) == 64 by { Pow2Values(); }
    AndMask(Shr(Nat(b), 24 - j), 6);
    NatSlice(b, j - 6, j);
  }

  lemma WordBound(b: bits)
    requires |b| == 24
    ensures Nat(b) < 0x100_0000
  {
    assert Pow2(24) == 0x100_0000 by { Pow2Values(); }
    NatBound(b);
  }

  lemma FieldsAreChunks(b: bits)
    requires |b| == 24
    ensures Nat(b) < 0x100_0000 && Fields(Nat(b)) == Chunks(b, 6)
  {
    WordBound(b);
    ChunksPieces(b);
    FieldIsSlice(b, 6);
    FieldIsSlice(b, 12);
    FieldIsSlice(b, 18);
    FieldIsSlice(b, 24);
    assert Shr(Nat(b), 0) == Nat(b) by { assert Pow2(0) == 1; }
  }

  lemma ChunksPieces(b: bits)
    requires |b| == 24
    ensures Chunks(b, 6) == [Nat(b[0..6]), Nat(b[6..12]), Nat(b[12..18]), Nat(b[18..24])]
  {
    assert b == b[0..6] + (b[6..12] + (b[12..18] + b[18..24]));
    ChunksAppend(b[0..6], b[6..12] + (b[12..18] + b[18..24]), 6);
    ChunksAppend(b[6..12], b[12..18] + b[18..24], 6);
    ChunksAppend(b[12..18], b[18..24], 6);
    ChunksOne(b[0..6], 6);
    ChunksOne(b[6..12], 6);
    ChunksOne(b[12..18], 6);
    ChunksOne(b[18..24], 6);
  }

  /** Up to three bytes, left-aligned in 24 bits. */
  ghost function Aligned(d: bytes): (b: bits)
    requires |d| <= 3
    ensures |b| == 24
  {
    ConcatLength(d, 8);
    Concat(d, 8) + Zeros(24 - 8 * |d|)
  }

  /** One to three bytes give one field more than bytes. */
  lemma BlockGroups(d: bytes)
    requires 1 <= |d| <= 3
    ensures |Chunks(Aligned(d), 6)| == 4 && Groups(d) == Chunks(Aligned(d), 6)[..|d| + 1]
  {
    ConcatLength(d, 8);
    var c := Concat(d, 8);
    assert Aligned(d)[..6 * (|d| + 1)] == c + Zeros(Fill(|c|, 6));
    ChunksLength(Aligned(d), 6);
    ChunksPrefix(Aligned(d), 6, |d| + 1);
  }

  function Half(b0: uint8, b1: uint8): nat {
    Or(Shl32(b0, 16), Shl32(b1, 8))
  }

  /** The word the code assembles from up to three bytes. */
  function Word(b0: uint8, b1: uint8, b2: uint8): nat {
    Or(Half(b0, b1), b2)
  }

  lemma WordValue(b0: uint8, b1: uint8, b2: uint8)
    ensures Word(b0, b1, b2) == 0x1_0000 * (b0 as int) + 0x100 * (b1 as int) + b2
  {
    HalfValue(b0, b1);
    assert Pow2(8) == 0x100 by { Pow2Values(); }
    OrPlus(0x100 * (b0 as int) + b1, b2, 8, 0x100);
  }

  /** The same word as a number. */
  function Value(d: bytes): nat
    requires 1 <= |d| <= 3
  {
    0x1_0000 * (d[0] as int) + (if |d| > 1 then 0x100 * (d[1] as int) else 0) + (if |d| > 2 then d[2] as int else 0)
  }

  lemma AlignedIs(d: bytes)
    requires 1 <= |d| <= 3
    ensures Aligned(d) == OfNat(d[0], 8)
                          + ((if |d| > 1 then OfNat(d[1], 8) else Zeros(8))
                             + (if |d| > 2 then OfNat(d[2], 8) else Zeros(8)))
  {
    if |d| > 1 {
      assert Concat(d, 8) == OfNat(d[0], 8) + (OfNat(d[1], 8) + Concat(d[1..][1..], 8));
      if |d| > 2 {
        assert Concat(d[1..][1..], 8) == OfNat(d[2], 8);
      }
    }
  }

  lemma AlignedValue(d: bytes)
    requires 1 <= |d| <= 3
    ensures Nat(Aligned(d)) == Value(d)
  {
    AlignedIs(d);
    var m := if |d| > 1 then OfNat(d[1], 8) else Zeros(8);
    var l := if |d| > 2 then OfNat(d[2], 8) else Zeros(8);
    assert Pow2(16) == 0x1_0000 && Pow2(8) == 0x100 && Pow2(0) == 1 by { Pow2Values(); }
    GroupFirst(d[0], 8, m + l);
    NatConcat(m, l);
    NatZeros(8);
    if |d| > 1 { GroupAlone(d[1], 8); }
    if |d| > 2 { GroupAlone(d[2], 8); }
  }

  lemma SymbolsAppend(g: seq<nat>, h: seq<nat>)
    requires forall v :: v in g + h ==> v < 64
    ensures (forall v :: v in g ==> v < 64) && (forall v :: v in h ==> v < 64)
    ensures Symbols(g + h) == Symbols(g) + Symbols(h)
  {
    assert forall v :: v in g ==> v in g + h;
    assert forall v :: v in h ==> v in g + h;
    forall i | 0 <= i < |g + h|
      ensures Symbols(g + h)[i] == (Symbols(g) + Symbols(h))[i]
    {
      assert (g + h)[i] in g + h;
    }
  }

  ghost function SymbolsOf(data: bytes): string {
    GroupsBelow64(Concat(data, 8) + Zeros(Fill(|Concat(data, 8)|, 6)));
    Symbols(Groups(data))
  }

  ghost function Quad(v: uint32): string {
    [Pick(v, 18), Pick(v, 12), Pick(v, 6), Pick(v, 0)]
  }

  lemma GroupsWhole(done: bytes)
    requires |done| % 3 == 0
    ensures |Groups(done)| % 4 == 0
  {
    hide Concat, Chunks;
    ConcatLength(done, 8);
    WholeBlocks(|done|, 0);
    var c := Concat(done, 8);
    assert c + Zeros(0) == c;
    ChunksLength(c, 6);
  }

  /** Appending a block after whole 3-byte blocks appends its fields. */
  lemma EncodeBlock(done: bytes, d: bytes)
    requires |done| % 3 == 0 && 1 <= |d| <= 3
    ensures Value(d) < 0x100_0000
    ensures SymbolsOf(done + d) == SymbolsOf(done) + Quad(Value(d))[..|d| + 1]
    ensures |SymbolsOf(done)| % 4 == 0
  {
    GroupsWhole(done);
    AlignedValue(d);
    FieldsAreChunks(Aligned(d));
    GroupsBelow64(Aligned(d));
    BlockGroups(d);
    GroupsAppend(done, d);
    GroupsBelow64(Concat(done + d, 8) + Zeros(Fill(|Concat(done + d, 8)|, 6)));
    SymbolsAppend(Groups(done), Groups(d));
    assert Symbols(Groups(d)) == Quad(Value(d))[..|d| + 1];
  }

  /** One turn of the loop. */
  lemma EncodeStep(data: bytes, i: nat)
    requires i + 3 <= |data| && i % 3 == 0
    ensures Word(data[i], data[i + 1], data[i + 2]) < 0x100_0000
    ensures SymbolsOf(data[..i + 3]) == SymbolsOf(data[..i]) + Quad(Word(data[i], data[i + 1], data[i + 2]))
  {
    EncodeBlock(data[..i], data[i..i + 3]);
    WordValue(data[i], data[i + 1], data[i + 2]);
    assert data[..i + 3] == data[..i] + data[i..i + 3];
  }

  lemma TextFromSymbols(data: bytes, pad: nat)
    requires pad < 4 && (|SymbolsOf(data)| + pad) % 4 == 0
    ensures Text(data) == SymbolsOf(data) + Equals(pad)
  {
    assert Fill(|SymbolsOf(data)|, 4) == pad;
  }

  lemma EncodeWhole(data: bytes)
    requires |data| % 3 == 0
    ensures Text(data) == SymbolsOf(data)
  {
    GroupsWhole(data);
    TextFromSymbols(data, 0);
    assert SymbolsOf(data) + Equals(0) == SymbolsOf(data);
  }

  /** The one or two bytes left over, and their '='. */
  lemma EncodeTail(data: bytes, i: nat)
    requires i % 3 == 0 && i < |data| < i + 3
    ensures Value(data[i..]) < 0x100_0000
    ensures i + 1 == |data| ==> Text(data) == SymbolsOf(data[..i]) + Quad(Value(data[i..]))[..2] + "=="
    ensures i + 2 == |data| ==> Text(data) == SymbolsOf(data[..i]) + Quad(Value(data[i..]))[..3] + "="
  {
    assert data == data[..i] + data[i..];
    EncodeBlock(data[..i], data[i..]);
    TextFromSymbols(data, i + 3 - |data|);
    assert Equals(2) == "==" && Equals(1) == "=";
  }

  lemma HalfValue(b0: uint8, b1: uint8)
    ensures Shl32(b0, 16) == 0x1_0000 * (b0 as int)
    ensures Half(b0, b1) == 0x1_0000 * (b0 as int) + 0x100 * (b1 as int)
  {
    hide Or, Pow2, Shl32;
    assert Pow2(16) == 0x1_0000 && Pow2(8) == 0x100 by { Pow2Values(); }
    ShlSmall(b0, 16, 0x1_0000);
    ShlSmall(b1, 8, 0x100);
    OrPlus(b0, 0x100 * (b1 as int), 16, 0x1_0000);
  }

  lemma NothingEncoded()
    ensures SymbolsOf([]) == ""
  {
    assert Concat([], 8) + Zeros(0) == [];
  }

  /** base64Encode. */
  method Encode(data: bytes) returns (out: string)
    ensures out == Text(data)
  {
    hide Pick, Half, Word, Shl32, SymbolsOf;
    out := "";
    var i := 0;
    assert data[..0] == [];
    NothingEncoded();
    while i + 3 <= |data|
      invariant 0 <= i <= |data| && i % 3 == 0
      invariant out == SymbolsOf(data[..i])
    {
      EncodeStep(data, i);
      var v := Word(data[i], data[i + 1], data[i + 2]);
      out := out + [Pick(v, 18)];
      out := out + [Pick(v, 12)];
      out := out + [Pick(v, 6)];
      out := out + [Pick(v, 0)];
      i := i + 3;
    }
    if i == |data| {
      EncodeWhole(data);
      assert data[..i] == data;
    } else if i + 1 == |data| {
      EncodeTail(data, i);
      HalfValue(data[i], 0);
      var v := Shl32(data[i], 16);
      out := out + [Pick(v, 18)];
      out := out + [Pick(v, 12)];
      out := out + "=";
      out := out + "=";
    } else if i + 2 == |data| {
      EncodeTail(data, i);
      HalfValue(data[i], data[i + 1]);
      var v := Half(data[i], data[i + 1]);
      out := out + [Pick(v, 18)];
      out := out + [Pick(v, 12)];
      out := out + [Pick(v, 6)];
      out := out + "=";
    }
  }

  // ----- decoding -----

  ghost function FirstForeign(s: string): char
    requires !OverAlphabet(s)
  {
    if s[0] !in Alphabet() then s[0]
    else
      assert forall c :: c in s ==> c == s[0] || c in s[1..];
      FirstForeign(s[1..])
  }

  /** Result of decoding; the first character that does not belong decides the error. */
  ghost function Parsed(text: string): Result<bytes> {
    if |text| % 4 != 0 then Err("base64Decode: length not a multiple of 4")
    else if OverAlphabet(StripPadding(text)) then Ok(Decoded(text))
    else if FirstForeign(StripPadding(text)) == '=' then Err("base64Decode: unexpected padding")
    else Err("base64Decode: invalid character")
  }

  lemma {:induction false} FirstForeignAt(s: string, p: nat)
    requires p < |s| && OverAlphabet(s[..p]) && s[p] !in Alphabet()
    ensures !OverAlphabet(s) && FirstForeign(s) == s[p]
  {
    assert s[p] in s;
    assert s == [s[0]] + s[1..];
    if p > 0 {
      assert s[0] in s[..p];
      assert s[1..][..p - 1] == s[..p][1..];
      FirstForeignAt(s[1..], p - 1);
    }
  }

  /** '=' contributes six zero bits. */
  function Bits6(s: string): (g: seq<nat>)
    ensures |g| == |s|
  {
    seq(|s|, i requires 0 <= i < |s| => if s[i] == '=' then 0 else DecodeChar(s[i]))
  }

  lemma ShiftOr(v: nat, d: nat)
    requires v < 0x4_0000 && d < 64
    ensures Shl32(v, 6) == 64 * v && Or(Shl32(v, 6), d) == 64 * v + d
  {
    hide Or, Pow2, Shl32;
    assert Pow2(6) == 64 by { Pow2Values(); }
    ShlSmall(v, 6, 64);
    OrPlus(v, d, 6, 64);
  }

  lemma SixMore(g: seq<nat>, d: nat)
    requires d < 64
    ensures Nat(Concat(g + [d], 6)) == 64 * Nat(Concat(g, 6)) + d
  {
    assert Pow2(6) == 64 by { Pow2Values(); }
    ConcatAppend(g, [d], 6);
    ConcatOne(d, 6);
    NatConcat(Concat(g, 6), OfNat(d, 6));
    GroupAlone(d, 6);
  }

  lemma HeldBits(g: seq<nat>)
    requires |g| <= 3
    ensures Nat(Concat(g, 6)) < 0x4_0000
  {
    ConcatLength(g, 6);
    NatBound(Concat(g, 6));
    assert Pow2(18) == 0x4_0000 by { Pow2Values(); }
    Pow2Monotone(6 * |g|, 18);
  }

  lemma {:induction false} Pow2Monotone(a: nat, b: nat)
    requires a <= b
    ensures Pow2(a) <= Pow2(b)
  {
    if a < b {
      Pow2Monotone(a, b - 1);
    }
  }

  function Byte(v: nat, k: nat): uint8 {
    ByteBound(v, k);
    And(Shr(v, k), 255)
  }

  lemma ByteBound(v: nat, k: nat)
    ensures And(Shr(v, k), 255) < 256
  {
    assert Pow2(8) == 256 by { Pow2Values(); }
    AndMask(Shr(v, k), 8);
  }

  lemma ByteIsSlice(b: bits, j: nat)
    requires |b| == 24 && 8 <= j <= 24
    ensures Byte(Nat(b), 24 - j) == Nat(b[j - 8..j])
  {
    assert Pow2(8) == 256 by { Pow2Values(); }
    AndMask(Shr(Nat(b), 24 - j), 8);
    NatSlice(b, j - 8, j);
  }

  lemma BytesAreChunks(b: bits)
    requires |b| == 24
    ensures Chunks(b, 8) == [Byte(Nat(b), 16), Byte(Nat(b), 8), Byte(Nat(b), 0)]
  {
    ByteIsSlice(b, 8);
    ByteIsSlice(b, 16);
    ByteIsSlice(b, 24);
    assert b == b[0..8] + (b[8..16] + b[16..24]);
    ChunksAppend(b[0..8], b[8..16] + b[16..24], 8);
    ChunksAppend(b[8..16], b[16..24], 8);
    ChunksOne(b[0..8], 8);
    ChunksOne(b[8..16], 8);
    ChunksOne(b[16..24], 8);
  }

  ghost function BytesOf(s: string): seq<nat> {
    Chunks(Concat(Codes(s), 6), 8)
  }

  lemma BytesOfAppend(done: string, block: string)
    requires |done| % 4 == 0
    ensures BytesOf(done + block) == BytesOf(done) + BytesOf(block)
  {
    assert Codes(done + block) == Codes(done) + Codes(block);
    hide Codes, Concat, Chunks;
    ConcatAppend(Codes(done), Codes(block), 6);
    ConcatLength(Codes(done), 6);
    DivModUnique(6 * |done|, 8, 3 * (|done| / 4), 0);
    ChunksAppend(Concat(Codes(done), 6), Concat(Codes(block), 6), 8);
  }

  lemma BlockCodes(block: string, pad: nat)
    requires OverAlphabet(block)
    ensures Bits6(block + Equals(pad))[..|block|] == Codes(block)
  {
    forall i | 0 <= i < |block|
      ensures Bits6(block + Equals(pad))[i] == Codes(block)[i]
    {
      assert block[i] in block;
      NotAlphabet();
    }
  }

  /** A block of two to four symbols, zero-filled to 24 bits, adds one byte less
      than it has symbols. */
  lemma DecodeBlock(block: string, pad: nat)
    requires 2 <= |block| && |block| + pad == 4 && OverAlphabet(block)
    ensures var v := Nat(Concat(Bits6(block + Equals(pad)), 6));
            BytesOf(block) == [Byte(v, 16), Byte(v, 8), Byte(v, 0)][..|block| - 1]
  {
    hide Byte, DecodeChar, Nat;
    var g, all := Codes(block), Bits6(block + Equals(pad));
    BlockCodes(block, pad);
    assert all == g + all[|block|..];
    ConcatAppend(g, all[|block|..], 6);
    ConcatLength(g, 6);
    ConcatLength(all, 6);
    var b := Concat(all, 6);
    assert Concat(g, 6) == b[..6 * |block|];
    BytesAreChunks(b);
    ChunksTake(b, 8, |block| - 1, 6 * |block|);
  }

  /** The code's own count of closing '=' agrees with StripPadding on every '='. */
  lemma PaddingCount(text: string, p: nat)
    requires |text| >= 2 && p < |text|
    ensures text[p] == '=' ==> (p < |text| - Padding(text) <==> p < |StripPadding(text)|)
    ensures text[p] != '=' ==> p < |StripPadding(text)|
  {
  }

  function Upto(s: string, i: nat): string {
    if i <= |s| then s[..i] else s
  }

  lemma NothingDecoded()
    ensures BytesOf("") == [] && OverAlphabet("") && Parsed("") == Ok([])
  {
  }

  lemma NotAlphabet()
    ensures '=' !in Alphabet()
  {
    CodeSymbol('=');
  }

  /** The bits gathered from the first j characters of the block at i. */
  ghost function Held(text: string, i: nat, j: nat): nat
    requires i + j <= |text|
  {
    Nat(Concat(Bits6(text[i..i + j]), 6))
  }

  lemma NothingHeld(text: string, i: nat)
    requires i <= |text|
    ensures Held(text, i, 0) == 0
  {
    assert text[i..i] == "";
  }

  lemma HeldStep(text: string, i: nat, j: nat)
    requires i + 4 <= |text| && j < 4
    ensures Held(text, i, j) < 0x4_0000
    ensures var c := text[i + j];
            var d := if c == '=' then 0 else DecodeChar(c);
            d < 64 ==>
              && Held(text, i, j + 1) == Or(Shl32(Held(text, i, j), 6), d)
              && (c == '=' ==> Held(text, i, j + 1) == Shl32(Held(text, i, j), 6))
              && Held(text, i, j + 1) < 0x100_0000
  {
    hide Or, Shl32, Nat, Concat, DecodeChar;
    var c := text[i + j];
    var d := if c == '=' then 0 else DecodeChar(c);
    var g := Bits6(text[i..i + j]);
    HeldBits(g);
    if d < 64 {
      assert Bits6(text[i..i + j + 1]) == g + [d];
      SixMore(g, d);
      ShiftOr(Nat(Concat(g, 6)), d);
    }
  }

  /** The code's count of closing '='. */
  function Padding(text: string): nat
    requires |text| >= 2
  {
    (if text[|text| - 1] == '=' then 1 else 0) + (if text[|text| - 2] == '=' then 1 else 0)
  }

  lemma UptoStep(body: string, p: nat)
    requires p < |body| && OverAlphabet(Upto(body, p))
    ensures body[p] in Alphabet() ==> Upto(body, p + 1) == Upto(body, p) + [body[p]] && OverAlphabet(Upto(body, p + 1))
    ensures body[p] !in Alphabet() ==> !OverAlphabet(body) && FirstForeign(body) == body[p]
  {
    hide FirstForeign, Alphabet;
    if body[p] !in Alphabet() {
      FirstForeignAt(body, p);
    }
  }

  /** What one character does to the decoded prefix. */
  lemma CharStep(text: string, p: nat)
    requires |text| % 4 == 0 && p < |text|
    requires OverAlphabet(Upto(StripPadding(text), p))
    ensures var body := StripPadding(text);
            var c := text[p];
            if c == '=' then
              if p < |text| - Padding(text) then Parsed(text) == Err("base64Decode: unexpected padding")
              else Upto(body, p + 1) == Upto(body, p)
            else if DecodeChar(c) == 255 then Parsed(text) == Err("base64Decode: invalid character")
            else DecodeChar(c) < 64 && Upto(body, p + 1) == Upto(body, p) + [c] && OverAlphabet(Upto(body, p + 1))
  {
    hide DecodeChar, FirstForeign, OverAlphabet, StripPadding;
    var body := StripPadding(text);
    PaddingCount(text, p);
    CodeSymbol(text[p]);
    NotAlphabet();
    if p < |body| {
      UptoStep(body, p);
    }
  }

  /** A block of text is its symbols followed by '='. */
  lemma BlockShape(text: string, i: nat)
    requires |text| % 4 == 0 && i % 4 == 0 && i < |text|
    ensures i + 4 <= |text|
    ensures var body := StripPadding(text);
            var n := |Upto(body, i + 4)| - i;
            && 2 <= n <= 4 && i + n <= |body|
            && text[i..i + 4] == body[i..i + n] + Equals(4 - n)
  {
  }

  lemma BlockStep(text: string, i: nat)
    requires |text| % 4 == 0 && i % 4 == 0 && i < |text|
    requires OverAlphabet(Upto(StripPadding(text), i + 4))
    ensures i + 4 <= |text|
    ensures var body := StripPadding(text);
            var n := |Upto(body, i + 4)| - i;
            var v := Held(text, i, 4);
            && 2 <= n <= 4
            && BytesOf(Upto(body, i + 4)) == BytesOf(Upto(body, i)) + [Byte(v, 16), Byte(v, 8), Byte(v, 0)][..n - 1]
  {
    hide Byte, BytesOf, Nat, Concat, Bits6;
    BlockShape(text, i);
    var body := StripPadding(text);
    var n := |Upto(body, i + 4)| - i;
    assert Upto(body, i + 4) == Upto(body, i) + body[i..i + n];
    assert OverAlphabet(body[i..i + n]) by {
      forall c | c in body[i..i + n] ensures c in Alphabet() {
        assert c in Upto(body, i + 4);
      }
    }
    BytesOfAppend(Upto(body, i), body[i..i + n]);
    DecodeBlock(body[i..i + n], 4 - n);
  }

  lemma AllDecoded(text: string)
    requires |text| % 4 == 0 && OverAlphabet(StripPadding(text))
    ensures Parsed(text).Ok? && Parsed(text).value == BytesOf(StripPadding(text))
  {
  }

  lemma WrongLength(text: string)
    requires |text| % 4 != 0
    ensures Parsed(text) == Err("base64Decode: length not a multiple of 4")
  {
  }

  /** base64Decode. */
  method Decode(text: string) returns (r: Result<bytes>)
    ensures r == Parsed(text)
  {
    hide Or, Shl32, Byte, DecodeChar, BytesOf, Held, StripPadding, OverAlphabet, Parsed, Alphabet;
    if |text| % 4 != 0 {
      WrongLength(text);
      return Err("base64Decode: length not a multiple of 4");
    }
    var out: bytes := [];
    NothingDecoded();
    if text == "" {
      return Ok(out);
    }
    var padding := 0;
    if text[|text| - 1] == '=' { padding := padding + 1; }
    if text[|text| - 2] == '=' { padding := padding + 1; }
    ghost var body := StripPadding(text);

    var i := 0;
    while i < |text|
      invariant 0 <= i <= |text| && i % 4 == 0
      invariant OverAlphabet(Upto(body, i))
      invariant out == BytesOf(Upto(body, i))
    {
      var v: uint32 := 0;
      var validChars := 0;
      var j := 0;
      NothingHeld(text, i);
      while j < 4
        invariant 0 <= j <= 4
        invariant OverAlphabet(Upto(body, i + j))
        invariant validChars == |Upto(body, i + j)| - i
        invariant v == Held(text, i, j)
      {
        var c := text[i + j];
        HeldStep(text, i, j);
        CharStep(text, i + j);
        if c == '=' {
          if i + j < |text| - padding {
            return Err("base64Decode: unexpected padding");
          }
          v := Shl32(v, 6);
          j := j + 1;
          continue;
        }
        var d := DecodeChar(c);
        if d == 255 {
          return Err("base64Decode: invalid character");
        }
        v := Or(Shl32(v, 6), d);
        validChars := validChars + 1;
        j := j + 1;
      }
      BlockStep(text, i);
      out := out + [Byte(v, 16)];
      if validChars >= 3 {
        out := out + [Byte(v, 8)];
      }
      if validChars == 4 {
        out := out + [Byte(v, 0)];
      }
      i := i + 4;
    }
    assert Upto(body, i) == body;
    AllDecoded(text);
    r := Ok(out);
  }

  // ----- the codec as a whole -----

  /** Alphabet characters followed by p times '='. */
  ghost predicate ClosedBy(s: string, p: nat) {
    p <= |s| && OverAlphabet(s[..|s| - p]) && s[|s| - p..] == Equals(p)
  }

  /** Exactly the strings of length 4n made of alphabet characters and then at
      most two '=' are accepted. */
  lemma AcceptedExactly(s: string)
    ensures Parsed(s).Ok? <==> |s| % 4 == 0 && (ClosedBy(s, 0) || ClosedBy(s, 1) || ClosedBy(s, 2))
  {
    hide OverAlphabet;
    if Parsed(s).Ok? {
      var p := |s| - |StripPadding(s)|;
      assert s[|s| - p..] == Equals(p);
      assert s[..|s| - p] == StripPadding(s);
    }
    if ClosedBy(s, 0) { StripExactly(s, 0); }
    if ClosedBy(s, 1) { StripExactly(s, 1); }
    if ClosedBy(s, 2) { StripExactly(s, 2); }
  }

  lemma StripExactly(s: string, p: nat)
    requires p <= 2 && ClosedBy(s, p)
    ensures StripPadding(s) == s[..|s| - p]
  {
    NotAlphabet();
    var body := s[..|s| - p];
    if p >= 1 { assert s[|s| - p..][p - 1] == '='; }
    if p == 2 { assert s[|s| - p..][0] == '='; }
    if p < |s| { assert body[|body| - 1] in body; }
    if p + 1 < |s| { assert body[|body| - 2] in body; }
  }

  lemma CodesOfSymbols(g: seq<nat>)
    requires forall v :: v in g ==> v < 64
    ensures Codes(Symbols(g)) == g && OverAlphabet(Symbols(g))
  {
    var s := Symbols(g);
    forall i | 0 <= i < |g| ensures Codes(s)[i] == g[i] && s[i] in Alphabet() {
      assert g[i] in g;
      SymbolCode(g[i]);
    }
  }

  lemma TextShape(data: bytes)
    ensures forall v :: v in Groups(data) ==> v < 64
    ensures |Text(data)| % 4 == 0
    ensures StripPadding(Text(data)) == Symbols(Groups(data))
  {
    var c := Concat(data, 8);
    GroupsBelow64(c + Zeros(Fill(|c|, 6)));
    var g := Groups(data);
    var s, p := Symbols(g), Fill(|g|, 4);
    CodesOfSymbols(g);
    FillCompletes(|g|, 4);
    AtMostTwo(data);
    assert Text(data)[..|s|] == s && Text(data)[|s|..] == Equals(p);
    StripExactly(Text(data), p);
  }

  lemma AtMostTwo(data: bytes)
    ensures Fill(|Groups(data)|, 4) <= 2
  {
    var c := Concat(data, 8);
    ConcatLength(data, 8);
    FillCompletes(|c|, 6);
    ChunksLength(c + Zeros(Fill(|c|, 6)), 6);
  }

  /** Decoding gives back every byte string that was encoded. */
  lemma RoundTrip(data: bytes)
    ensures Parsed(Text(data)) == Ok(data)
  {
    TextShape(data);
    CodesOfSymbols(Groups(data));
    GroupsRoundTrip(data, 6);
  }

  /** Three bytes per four characters, less one per '='. */
  lemma DecodedLength(s: string)
    requires Parsed(s).Ok?
    ensures |Parsed(s).value| == |s| / 4 * 3 - (|s| - |StripPadding(s)|)
  {
    hide Concat, Chunks, Codes, OverAlphabet, StripPadding;
    var body := StripPadding(s);
    ConcatLength(Codes(body), 6);
    ChunksLength(Concat(Codes(body), 6), 8);
  }

  /** The bits the decoder drops: those of the last symbol beyond the last byte. */
  function PadBits(s: string): nat {
    var body := StripPadding(s);
    if |s| - |body| == 2 && body != "" then DecodeChar(body[|body| - 1]) % 16
    else if |s| - |body| == 1 && body != "" then DecodeChar(body[|body| - 1]) % 4
    else 0
  }

  ghost function BodyBits(s: string): bits {
    Concat(Codes(StripPadding(s)), 6)
  }

  /** The bits after the last whole byte. */
  ghost function Rest(b: bits): (r: bits)
    ensures |r| == |b| % 8
  {
    b[|b| - |b| % 8..]
  }

  /** Twice as many bits are dropped as there are '='. */
  lemma DroppedCount(s: string)
    requires |s| % 4 == 0 && (s == "" ==> StripPadding(s) == "")
    ensures var n, p := |BodyBits(s)|, |s| - |StripPadding(s)|;
            n % 8 == 2 * p && n % 6 == 0 && Fill(n - n % 8, 6) == n % 8 && Fill(|StripPadding(s)|, 4) == p
  {
    hide Concat, Codes, StripPadding, Fill;
    ConcatLength(Codes(StripPadding(s)), 6);
    PadCounts(|s|, |StripPadding(s)|);
  }

  lemma PadCounts(len: nat, n: nat)
    requires len % 4 == 0 && n <= len <= n + 2
    ensures (6 * n) % 8 == 2 * (len - n) && (6 * n) % 6 == 0 && Fill(n, 4) == len - n
    ensures Fill(6 * n - 2 * (len - n), 6) == 2 * (len - n)
  {
    var k, p := len / 4, len - n;
    DivModUnique(6 * n, 8, 3 * k - p, 2 * p);
    DivModUnique(6 * n, 6, n, 0);
    if p == 0 {
      DivModUnique(n, 4, k, 0);
    } else {
      DivModUnique(n, 4, k - 1, 4 - p);
      DivModUnique(6 * n - 2 * p, 6, n - 1, 6 - 2 * p);
    }
  }

  lemma DecodedBits(s: string)
    requires Parsed(s).Ok?
    ensures var b := BodyBits(s);
            Concat(Parsed(s).value, 8) == b[..|b| - |b| % 8]
  {
    ConcatOfChunks(BodyBits(s), 8, |BodyBits(s)| / 8);
  }

  /** Re-encoding restores an accepted text exactly when its pad bits are zero;
      the decoder itself accepts any pad bits. */
  lemma CanonicalExactly(s: string)
    requires Parsed(s).Ok?
    ensures Text(Parsed(s).value) == s <==> PadBits(s) == 0
    ensures Parsed(Text(Parsed(s).value)) == Parsed(s)
  {
    hide Parsed, Text, PadBits, Chunks, Concat, Fill, Symbols, Codes, OverAlphabet;
    var data := Parsed(s).value;
    var b := BodyBits(s);
    RoundTrip(data);
    DroppedBits(s);
    ZeroBits(Rest(b));
    if Rest(b) == Zeros(|Rest(b)|) {
      CanonicalText(s);
    }
    if Text(data) == s {
      CanonicalPad(s);
    }
  }

  lemma AcceptedShape(s: string)
    requires Parsed(s).Ok?
    ensures |s| % 4 == 0 && OverAlphabet(StripPadding(s)) && (s == "" ==> StripPadding(s) == "")
    ensures s == StripPadding(s) + Equals(|s| - |StripPadding(s)|)
  {
  }

  lemma CanonicalText(s: string)
    requires Parsed(s).Ok?
    requires Rest(BodyBits(s)) == Zeros(|Rest(BodyBits(s))|)
    ensures Text(Parsed(s).value) == s
  {
    AcceptedShape(s);
    var body := StripPadding(s);
    assert Groups(Parsed(s).value) == Codes(body) by { CanonicalGroups(s); }
    SymbolsOfCodes(body);
    hide Parsed, Codes, Groups, StripPadding;
    assert Fill(|body|, 4) == |s| - |body| by { DroppedCount(s); }
  }

  lemma CanonicalGroups(s: string)
    requires Parsed(s).Ok?
    requires Rest(BodyBits(s)) == Zeros(|Rest(BodyBits(s))|)
    ensures Groups(Parsed(s).value) == Codes(StripPadding(s))
  {
    AcceptedShape(s);
    var body, data, b := StripPadding(s), Parsed(s).value, BodyBits(s);
    CodesBelow64(body);
    ChunksConcat(Codes(body), 6, []);
    assert b + [] == b;
    hide Parsed, Codes, OverAlphabet, StripPadding, Chunks, Concat;
    DecodedBits(s);
    DroppedCount(s);
    assert b == Concat(data, 8) + Zeros(Fill(|Concat(data, 8)|, 6));
  }

  lemma GroupBits(data: bytes)
    ensures Concat(Groups(data), 6) == Concat(data, 8) + Zeros(Fill(|Concat(data, 8)|, 6))
  {
    var c := Concat(data, 8);
    FillCompletes(|c|, 6);
    ConcatChunks(c + Zeros(Fill(|c|, 6)), 6);
  }

  lemma CanonicalPad(s: string)
    requires Parsed(s).Ok? && Text(Parsed(s).value) == s
    ensures Rest(BodyBits(s)) == Zeros(|Rest(BodyBits(s))|)
  {
    hide Concat, Chunks, Fill, Zeros, Alphabet, DecodeChar, Codes, Groups, Parsed, StripPadding;
    var data, b := Parsed(s).value, BodyBits(s);
    assert Groups(data) == Codes(StripPadding(s)) by {
      TextShape(data);
      CodesOfSymbols(Groups(data));
    }
    GroupBits(data);
    DecodedBits(s);
    AcceptedShape(s);
    DroppedCount(s);
    ZeroTail(b, Concat(data, 8), |b| % 8);
  }

  lemma ZeroTail(b: bits, c: bits, k: nat)
    requires k <= |b| && c == b[..|b| - k] && b == c + Zeros(k)
    ensures b[|b| - k..] == Zeros(k)
  {
  }

  lemma CodesBelow64(s: string)
    requires OverAlphabet(s)
    ensures forall v :: v in Codes(s) ==> v < Pow2(6)
  {
    Pow2Values();
    forall i | 0 <= i < |s| ensures Codes(s)[i] < 64 {
      assert s[i] in s;
      CodeSymbol(s[i]);
    }
  }

  lemma SymbolsOfCodes(s: string)
    requires OverAlphabet(s)
    ensures forall v :: v in Codes(s) ==> v < 64
    ensures Symbols(Codes(s)) == s
  {
    forall i | 0 <= i < |s| ensures Codes(s)[i] < 64 && Symbol(Codes(s)[i]) == s[i] {
      assert s[i] in s;
      CodeSymbol(s[i]);
    }
  }

  lemma {:induction false} ZeroBits(b: bits)
    ensures Nat(b) == 0 <==> b == Zeros(|b|)
  {
    if b != [] {
      ZeroBits(b[..|b| - 1]);
      assert b == b[..|b| - 1] + [b[|b| - 1]];
      assert Zeros(|b|) == Zeros(|b| - 1) + [false];
    }
  }

  lemma DroppedBits(s: string)
    requires Parsed(s).Ok?
    ensures Nat(Rest(BodyBits(s))) == PadBits(s)
  {
    var b, p := BodyBits(s), |s| - |StripPadding(s)|;
    AcceptedShape(s);
    hide Parsed, OverAlphabet, PadBits, BodyBits, Nat, Pow2, Fill;
    assert |b| % 8 == 2 * p by { DroppedCount(s); }
    PadBitsAre(s);
    BitsTail(b, 2 * p);
  }

  lemma PadBitsAre(s: string)
    requires |s| % 4 == 0 && OverAlphabet(StripPadding(s)) && (s == "" ==> StripPadding(s) == "")
    ensures PadBits(s) == Nat(BodyBits(s)) % Pow2(2 * (|s| - |StripPadding(s)|))
  {
    hide OverAlphabet, BodyBits, Nat, Pow2, DecodeChar;
    if StripPadding(s) != "" {
      LastSymbol(s);
    }
    PadBitsOf(s, Nat(BodyBits(s)));
  }

  lemma PadBitsOf(s: string, v: nat)
    requires var body := StripPadding(s);
             if body == "" then |s| == 0 else v % 64 == DecodeChar(body[|body| - 1])
    ensures PadBits(s) == v % Pow2(2 * (|s| - |StripPadding(s)|))
  {
    hide StripPadding, DecodeChar, Pow2;
    var body := StripPadding(s);
    LowBits(v, |s| - |body|, v % 64);
  }

  lemma LowBits(v: nat, p: nat, last: nat)
    requires p <= 2 && v % 64 == last
    ensures v % Pow2(2 * p) == if p == 2 then last % 16 else if p == 1 then last % 4 else 0
  {
    SmallPowers();
    TailOfTail(v);
    match p
    case 0 =>
    case 1 =>
    case 2 =>
  }

  lemma SmallPowers()
    ensures Pow2(0) == 1 && Pow2(2) == 4 && Pow2(4) == 16
  {
    Pow2Values();
  }

  lemma TailOfTail(v: nat)
    ensures v % 64 % 16 == v % 16 && v % 64 % 4 == v % 4 && v % 1 == 0
  {
  }

  lemma BitsTail(b: bits, k: nat)
    requires k <= |b|
    ensures Nat(b[|b| - k..]) == Nat(b) % Pow2(k)
  {
    hide Nat, Pow2;
    assert b == b[..|b| - k] + b[|b| - k..];
    NatTail(b[..|b| - k], b[|b| - k..]);
  }

  lemma LastSymbol(s: string)
    requires OverAlphabet(StripPadding(s)) && StripPadding(s) != ""
    ensures var body := StripPadding(s); Nat(BodyBits(s)) % 64 == DecodeChar(body[|body| - 1])
  {
    hide Nat, Concat, DecodeChar;
    var body := StripPadding(s);
    var g := Codes(body);
    var last := g[|g| - 1];
    LastCode(body);
    SixMore(g[..|g| - 1], last);
    assert g == g[..|g| - 1] + [last];
    DivModUnique(Nat(Concat(g, 6)), 64, Nat(Concat(g[..|g| - 1], 6)), last);
  }

  lemma LastCode(body: string)
    requires OverAlphabet(body) && body != ""
    ensures DecodeChar(body[|body| - 1]) < 64
  {
    assert body[|body| - 1] in body;
    CodeSymbol(body[|body| - 1]);
  }
}
