/** Random passwords. The stream of 32-bit values that RAND_bytes yields is
    explicit: a finite supply, whose end is the generator failing. */
module PasswordGen {
  import opened Words
  import opened Wrappers
  import FisherYates

  const RNG_FAILED := "passwordgen: RAND_bytes failed"

  /** Four random bytes. */
  datatype Quad = Quad(b0: uint8, b1: uint8, b2: uint8, b3: uint8)

  function WordOf(q: Quad): uint32 {
    0x100_0000 * q.b0 + 0x1_0000 * q.b1 + 0x100 * q.b2 + q.b3
  }

  function WordsOf(qs: seq<Quad>): (ws: seq<uint32>)
    ensures |ws| == |qs|
  {
    seq(|qs|, i requires 0 <= i < |qs| => WordOf(qs[i]))
  }

  /** The generator: the bytes RAND_bytes will yield, four at a time. */
  class Rng {
    var source: seq<Quad>

    /** The same supply as 32-bit values. */
    ghost function Supply(): seq<uint32>
      reads this
    {
      WordsOf(source)
    }

    constructor (source: seq<Quad>)
      ensures this.source == source
    {
      this.source := source;
    }

    method Random32() returns (r: Result<uint32>)
      modifies this
      ensures old(Supply()) == [] ==> r == Err(RNG_FAILED) && Supply() == []
      ensures old(Supply()) != [] ==> r == Ok(old(Supply())[0]) && Supply() == old(Supply())[1..]
    {
      hide Or, Shl32;
      if source == [] {
        return Err(RNG_FAILED);
      }
      var b := source[0];
      source := source[1..];
      WordAssembled(b);
      r := Ok(Or(Or(Or(Shl32(b.b0, 24), Shl32(b.b1, 16)), Shl32(b.b2, 8)), b.b3));
    }
  }

  /** The shifted and or-ed word is the big-endian value of the four bytes. */
  lemma WordAssembled(q: Quad)
    ensures Or(Or(Or(Shl32(q.b0, 24), Shl32(q.b1, 16)), Shl32(q.b2, 8)), q.b3) == WordOf(q)
  {
    hide Or, Shl32, Pow2;
    assert Pow2(8) == 0x100 && Pow2(16) == 0x1_0000 && Pow2(24) == 0x100_0000 by { Pow2Values(); }
    ShlSmall(q.b0, 24, 0x100_0000);
    ShlSmall(q.b1, 16, 0x1_0000);
    ShlSmall(q.b2, 8, 0x100);
    OrPlus(q.b0, 0x1_0000 * (q.b1 as int), 24, 0x100_0000);
    OrPlus(0x100 * (q.b0 as int) + q.b1, 0x100 * (q.b2 as int), 16, 0x1_0000);
    OrPlus(0x1_0000 * (q.b0 as int) + 0x100 * (q.b1 as int) + q.b2, q.b3, 8, 0x100);
  }

  /** Each 32-bit value comes from exactly one choice of four bytes, so uniform bytes
      are uniform values. */
  lemma WordsAreQuads(w: uint32, p: Quad, q: Quad)
    ensures exists r: Quad :: WordOf(r) == w
    ensures WordOf(p) == WordOf(q) ==> p == q
  {
    hide WordOf;
    QuadExists(w);
    if WordOf(p) == WordOf(q) {
      QuadUnique(p, q);
    }
  }

  lemma QuadExists(w: uint32)
    ensures exists r: Quad :: WordOf(r) == w
  {
    var high, low16: nat := w / 0x1_0000, w % 0x1_0000;
    var b2, b3: nat := low16 / 0x100, low16 % 0x100;
    var b0, b1: nat := high / 0x100, high % 0x100;
    assert w == 0x1_0000 * (0x100 * b0 + b1) + (0x100 * b2 + b3);
    assert WordOf(Quad(b0, b1, b2, b3)) == w;
  }

  lemma QuadUnique(p: Quad, q: Quad)
    requires WordOf(p) == WordOf(q)
    ensures p == q
  {
    BytesUnique(0x1_0000 * p.b0 + 0x100 * p.b1 + p.b2, p.b3, 0x1_0000 * q.b0 + 0x100 * q.b1 + q.b2, q.b3);
    BytesUnique(0x100 * p.b0 + p.b1, p.b2, 0x100 * q.b0 + q.b1, q.b2);
    BytesUnique(p.b0, p.b1, q.b0, q.b1);
  }

  lemma BytesUnique(a: nat, b: uint8, c: nat, d: uint8)
    requires 0x100 * a + b == 0x100 * c + d
    ensures a == c && b == d
  {
  }

  /** A result together with the supply left after it. */
  datatype Draw<+T> = Draw(result: Result<T>, rest: seq<uint32>)

  // ----- randomIndex -----

  /** The largest multiple of bound up to 2^32: draws below it are accepted. */
  function Limit(bound: uint32): (r: nat)
    requires bound > 0
    ensures r <= TWO_32
  {
    TWO_32 - TWO_32 % bound
  }

  function IndexFrom(s: seq<uint32>, bound: uint32): (d: Draw<nat>)
    ensures d.result.Ok? ==> d.result.value < bound && |d.rest| < |s|
  {
    if bound == 0 then Draw(Err("randomIndex: zero bound"), s)
    else if s == [] then Draw(Err(RNG_FAILED), s)
    else if s[0] < Limit(bound) then Draw(Ok(s[0] % bound), s[1..])
    else IndexFrom(s[1..], bound)
  }

  /** The remainder as the code computes it, without leaving 32 bits. */
  lemma RemainderIs(bound: uint32)
    requires bound > 0
    ensures 0xFFFF_FFFF % bound + 1 < TWO_32
    ensures (0xFFFF_FFFF % bound + 1) % bound == TWO_32 % bound
  {
    var q, r := 0xFFFF_FFFF / bound, 0xFFFF_FFFF % bound;
    if r + 1 < bound {
      DivModUnique(TWO_32, bound, q, r + 1);
      DivModUnique(r + 1, bound, 0, r + 1);
    } else {
      Distribute(bound, q, 1);
      DivModUnique(TWO_32, bound, q + 1, 0);
      DivModUnique(r + 1, bound, 1, 0);
    }
  }

  lemma LimitIs(bound: uint32)
    requires bound > 0
    ensures 0 <= (0xFFFF_FFFF % bound + 1) % bound < TWO_32
    ensures Limit(bound) == TWO_32 - (0xFFFF_FFFF % bound + 1) % bound
  {
    RemainderIs(bound);
  }

  lemma Negated(rem: uint32)
    requires rem > 0
    ensures (0 - rem) % TWO_32 == TWO_32 - rem
  {
  }

  method RandomIndex(rng: Rng, bound: uint32) returns (r: Result<nat>)
    modifies rng
    ensures Draw(r, rng.Supply()) == IndexFrom(old(rng.Supply()), bound)
  {
    hide Limit, WordsOf;
    if bound == 0 {
      return Err("randomIndex: zero bound");
    }
    LimitIs(bound);
    var rem: uint32 := (0xFFFF_FFFF % bound + 1) % bound;
    if rem == 0 {
      var d := rng.Random32();
      if d.Err? {
        return Err(d.error);
      }
      return Ok(d.value % bound);
    }
    var maxAccept: uint32 := (0 - rem) % TWO_32;
    Negated(rem);
    assert maxAccept == Limit(bound);
    while true
      invariant IndexFrom(rng.Supply(), bound) == IndexFrom(old(rng.Supply()), bound)
      decreases |rng.Supply()|
    {
      var d := rng.Random32();
      if d.Err? {
        return Err(d.error);
      }
      if d.value < maxAccept {
        return Ok(d.value % bound);
      }
    }
  }

  /** The draws that yield index k. */
  ghost function Bucket(bound: uint32, k: nat, limit: nat): set<uint32>
    requires bound > 0
  {
    set r: uint32 | r < limit && r % bound == k
  }

  lemma {:induction false} BucketSize(bound: uint32, k: nat, q: nat)
    requires k < bound && bound * q <= TWO_32
    ensures bound * q >= 0 && |Bucket(bound, k, bound * q)| == q
  {
    if q == 0 {
      assert Bucket(bound, k, bound * 0) == {};
    } else {
      Distribute(bound, q - 1, 1);
      BucketSize(bound, k, q - 1);
      var x := bound * (q - 1) + k;
      DivModUnique(x, bound, q - 1, k);
      var b, c := Bucket(bound, k, bound * (q - 1)), Bucket(bound, k, bound * q);
      forall r | r in c ensures r in b || r == x {
        if r >= bound * (q - 1) {
          DivModUnique(r, bound, q - 1, r - bound * (q - 1));
        }
      }
      assert c == b + {x};
    }
  }

  /** Each index has exactly as many accepted draws as every other, and more than
      half of all draws are accepted. */
  lemma Unbiased(bound: uint32, k: nat)
    requires k < bound
    ensures Limit(bound) % bound == 0 && 2 * Limit(bound) > TWO_32
    ensures |Bucket(bound, k, Limit(bound))| == Limit(bound) / bound
    ensures forall r: uint32, s: seq<uint32> {:trigger IndexFrom([r] + s, bound)} ::
              IndexFrom([r] + s, bound) == Draw(Ok(k), s) <==> r in Bucket(bound, k, Limit(bound))
  {
    var q, m := TWO_32 / bound, TWO_32 % bound;
    assert Limit(bound) == bound * q;
    DivModUnique(bound * q, bound, q, 0);
    BucketSize(bound, k, q);
    AtLeastHalf(bound);
    forall r: uint32, s: seq<uint32> ensures
        IndexFrom([r] + s, bound) == Draw(Ok(k), s) <==> r in Bucket(bound, k, Limit(bound)) {
      assert ([r] + s)[1..] == s;
    }
  }

  lemma AtLeastHalf(bound: uint32)
    requires bound > 0
    ensures 2 * (TWO_32 % bound) < TWO_32
  {
    if bound > 0x8000_0000 {
      DivModUnique(TWO_32, bound, 1, TWO_32 - bound);
    }
  }

  // ----- options and character classes -----

  datatype Options = Options(
    length: int, lowercase: bool, uppercase: bool, digits: bool, symbols: bool,
    avoidAmbiguous: bool, minDigits: int, minSymbols: int)

  const AMBIGUOUS := "Il1O0o"
  const LOWER := "abcdefghijklmnopqrstuvwxyz"
  const UPPER := "ABCDEFGHIJKLMNOPQRSTUVWXYZ"
  const DIGITS := "0123456789"
  const SYMBOLS := "!@#$%^&*()-_=+[]{};:,.?"

  /** The characters of s in their order, without the ambiguous ones if asked. */
  function Allowed(s: string, avoid: bool): string {
    if !avoid then s
    else if s == "" then ""
    else
      var n := |s| - 1;
      Allowed(s[..n], avoid) + (if s[n] in AMBIGUOUS then "" else [s[n]])
  }

  method FilterAmbiguous(s: string, avoid: bool) returns (out: string)
    ensures out == Allowed(s, avoid)
  {
    if !avoid {
      return s;
    }
    out := "";
    var i := 0;
    while i < |s|
      invariant 0 <= i <= |s| && out == Allowed(s[..i], true)
    {
      assert s[..i + 1][..i] == s[..i];
      if s[i] !in AMBIGUOUS {
        out := out + [s[i]];
      }
      i := i + 1;
    }
    assert s[..i] == s;
  }

  lemma {:induction false} AllowedExactly(s: string, avoid: bool)
    ensures forall c :: c in Allowed(s, avoid) <==> c in s && !(avoid && c in AMBIGUOUS)
  {
    if avoid && s != "" {
      var n := |s| - 1;
      AllowedExactly(s[..n], avoid);
      assert s == s[..n] + [s[n]];
    }
  }

  function ClassOf(on: bool, s: string, avoid: bool): string {
    if on then Allowed(s, avoid) else ""
  }

  function Lower(o: Options): string { ClassOf(o.lowercase, LOWER, o.avoidAmbiguous) }
  function Upper(o: Options): string { ClassOf(o.uppercase, UPPER, o.avoidAmbiguous) }
  function Digit(o: Options): string { ClassOf(o.digits, DIGITS, o.avoidAmbiguous) }
  function Symbol(o: Options): string { ClassOf(o.symbols, SYMBOLS, false) }

  function Pool(o: Options): string {
    Lower(o) + Upper(o) + Digit(o) + Symbol(o)
  }

  /** How many characters of a class the options ask for. */
  function AtLeast(on: bool, minimum: int): (r: nat)
    ensures on ==> r >= 1 && r >= minimum
    ensures !on ==> r == 0
  {
    if !on then 0 else if minimum > 1 then minimum else 1
  }

  function Required(o: Options): nat {
    AtLeast(o.lowercase, 1) + AtLeast(o.uppercase, 1) + AtLeast(o.digits, o.minDigits)
    + AtLeast(o.symbols, o.minSymbols)
  }

  predicate Feasible(o: Options) {
    && 1 <= o.length <= 256
    && (o.lowercase || o.uppercase || o.digits || o.symbols)
    && Required(o) <= o.length
  }

  lemma ClassesNonEmpty(o: Options)
    ensures Lower(o) == "" <==> !o.lowercase
    ensures Upper(o) == "" <==> !o.uppercase
    ensures Digit(o) == "" <==> !o.digits
    ensures Symbol(o) == "" <==> !o.symbols
    ensures |Pool(o)| <= 85
  {
    hide ClassOf;
    Unambiguous();
    ClassNonEmpty(o.lowercase, LOWER, o.avoidAmbiguous, 'z');
    ClassNonEmpty(o.uppercase, UPPER, o.avoidAmbiguous, 'Z');
    ClassNonEmpty(o.digits, DIGITS, o.avoidAmbiguous, '9');
    ClassNonEmpty(o.symbols, SYMBOLS, false, '?');
  }

  lemma Unambiguous()
    ensures 'z' in LOWER && 'z' !in AMBIGUOUS && 'Z' in UPPER && 'Z' !in AMBIGUOUS
    ensures '9' in DIGITS && '9' !in AMBIGUOUS && '?' in SYMBOLS
    ensures |LOWER| == 26 && |UPPER| == 26 && |DIGITS| == 10 && |SYMBOLS| == 23
  {
    assert LOWER[25] == 'z' && UPPER[25] == 'Z' && DIGITS[9] == '9' && SYMBOLS[22] == '?';
  }

  lemma ClassNonEmpty(on: bool, s: string, avoid: bool, c: char)
    requires c in s && (avoid ==> c !in AMBIGUOUS)
    ensures ClassOf(on, s, avoid) == "" <==> !on
    ensures |ClassOf(on, s, avoid)| <= |s|
  {
    hide Allowed;
    AllowedExactly(s, avoid);
    AllowedShorter(s, avoid);
  }

  lemma {:induction false} AllowedShorter(s: string, avoid: bool)
    ensures |Allowed(s, avoid)| <= |s|
  {
    if avoid && s != "" {
      AllowedShorter(s[..|s| - 1], avoid);
    }
  }

  // ----- generatePassword -----

  /** pick: one random character of a class. */
  function PickOne(d: Draw<string>, cls: string): Draw<string>
    requires |cls| < TWO_32
  {
    if d.result.Err? then d
    else
      var i := IndexFrom(d.rest, |cls|);
      if i.result.Err? then Draw(Err(i.result.error), i.rest)
      else Draw(Ok(d.result.value + [cls[i.result.value]]), i.rest)
  }

  function PickMany(d: Draw<string>, cls: string, n: nat): Draw<string>
    requires |cls| < TWO_32
  {
    if n == 0 then d else PickOne(PickMany(d, cls, n - 1), cls)
  }

  /** The loop from position i down to 1, each j drawn from the supply. */
  function ShuffleFrom(s: seq<uint32>, chars: string, i: nat): Draw<string>
    requires i < |chars| <= 256
    decreases i
  {
    if i == 0 then Draw(Ok(chars), s)
    else
      var j := IndexFrom(s, i + 1);
      if j.result.Err? then Draw(Err(j.result.error), j.rest)
      else ShuffleFrom(j.rest, FisherYates.Swap(chars, i, j.result.value), i - 1)
  }

  /** The characters before the shuffle: the required ones of each class, then
      the rest from the whole pool. */
  function Unshuffled(o: Options, s: seq<uint32>): Draw<string>
    requires Required(o) <= o.length
  {
    ClassesNonEmpty(o);
    var a := PickMany(Draw(Ok(""), s), Lower(o), AtLeast(o.lowercase, 1));
    var b := PickMany(a, Upper(o), AtLeast(o.uppercase, 1));
    var c := PickMany(b, Digit(o), AtLeast(o.digits, o.minDigits));
    var d := PickMany(c, Symbol(o), AtLeast(o.symbols, o.minSymbols));
    PickMany(d, Pool(o), o.length - Required(o))
  }

  /** What generatePassword returns for a given supply of random values. */
  function Generated(o: Options, s: seq<uint32>): Draw<string> {
    if o.length < 1 || o.length > 256 then Draw(Err("generatePassword: length out of range"), s)
    else if Pool(o) == "" then Draw(Err("generatePassword: no character class enabled"), s)
    else if o.length < Required(o) then
      Draw(Err("generatePassword: length too short for the selected options"), s)
    else Filled(o, s)
  }

  /** The characters of a feasible request, shuffled. */
  function Filled(o: Options, s: seq<uint32>): Draw<string>
    requires Required(o) <= o.length <= 256 && 1 <= o.length && Pool(o) != ""
  {
    var d := Unshuffled(o, s);
    if d.result.Err? || |d.result.value| != o.length then d
    else ShuffleFrom(d.rest, d.result.value, o.length - 1)
  }

  method Pick(rng: Rng, chars: string, cls: string) returns (r: Result<string>)
    requires |cls| < TWO_32
    modifies rng
    ensures Draw(r, rng.Supply()) == PickOne(Draw(Ok(chars), old(rng.Supply())), cls)
  {
    var i := RandomIndex(rng, |cls|);
    if i.Err? {
      return Err(i.error);
    }
    r := Ok(chars + [cls[i.value]]);
  }

  /** One of the loops that push random characters of a class. */
  method PushMany(rng: Rng, chars: string, cls: string, n: nat) returns (r: Result<string>)
    requires |cls| < TWO_32
    modifies rng
    ensures Draw(r, rng.Supply()) == PickMany(Draw(Ok(chars), old(rng.Supply())), cls, n)
  {
    ghost var d := Draw(Ok(chars), rng.Supply());
    var out := chars;
    var i := 0;
    while i < n
      invariant 0 <= i <= n
      invariant Draw(Ok(out), rng.Supply()) == PickMany(d, cls, i)
    {
      var p := Pick(rng, out, cls);
      if p.Err? {
        ErrorSticks(PickMany(d, cls, i + 1), cls, n - i - 1);
        PickSplit(d, cls, i + 1, n - i - 1);
        return p;
      }
      out := p.value;
      i := i + 1;
    }
    r := Ok(out);
  }

  lemma {:induction false} ErrorSticks(d: Draw<string>, cls: string, n: nat)
    requires d.result.Err? && |cls| < TWO_32
    ensures PickMany(d, cls, n) == d
  {
    if n > 0 {
      ErrorSticks(d, cls, n - 1);
    }
  }

  lemma {:induction false} PickSplit(d: Draw<string>, cls: string, a: nat, b: nat)
    requires |cls| < TWO_32
    ensures PickMany(d, cls, a + b) == PickMany(PickMany(d, cls, a), cls, b)
  {
    if b > 0 {
      PickSplit(d, cls, a, b - 1);
    }
  }

  /** The Fisher-Yates loop, swapping in place. */
  method ShuffleInPlace(rng: Rng, chars: array<char>) returns (r: Result<()>)
    requires 1 <= chars.Length <= 256
    modifies rng, chars
    ensures var d := ShuffleFrom(old(rng.Supply()), old(chars[..]), chars.Length - 1);
            && rng.Supply() == d.rest
            && (r.Ok? <==> d.result.Ok?)
            && (r.Ok? ==> chars[..] == d.result.value)
            && (r.Err? ==> r.error == d.result.error)
  {
    var i := chars.Length - 1;
    while i > 0
      invariant 0 <= i < chars.Length
      invariant ShuffleFrom(rng.Supply(), chars[..], i)
                == ShuffleFrom(old(rng.Supply()), old(chars[..]), chars.Length - 1)
    {
      ghost var before := chars[..];
      var j := RandomIndex(rng, i + 1);
      if j.Err? {
        return Err(j.error);
      }
      chars[i], chars[j.value] := chars[j.value], chars[i];
      assert chars[..] == FisherYates.Swap(before, i, j.value);
      i := i - 1;
    }
    r := Ok(());
  }

  /** The four class strings of the options. */
  method Classes(o: Options) returns (lower: string, upper: string, digit: string, symbol: string)
    ensures lower == Lower(o) && upper == Upper(o) && digit == Digit(o) && symbol == Symbol(o)
  {
    lower, upper, digit := "", "", "";
    if o.lowercase { lower := FilterAmbiguous(LOWER, o.avoidAmbiguous); }
    if o.uppercase { upper := FilterAmbiguous(UPPER, o.avoidAmbiguous); }
    if o.digits { digit := FilterAmbiguous(DIGITS, o.avoidAmbiguous); }
    symbol := if o.symbols then SYMBOLS else "";
  }

  method GeneratePassword(rng: Rng, o: Options) returns (r: Result<string>)
    modifies rng
    ensures Draw(r, rng.Supply()) == Generated(o, old(rng.Supply()))
  {
    hide Allowed, Filled, Satisfies, Lower, Upper, Digit, Symbol;
    if o.length < 1 || o.length > 256 {
      return Err("generatePassword: length out of range");
    }
    var lower, upper, digit, symbol := Classes(o);
    var pool := lower + upper + digit + symbol;
    if pool == "" {
      return Err("generatePassword: no character class enabled");
    }
    ClassesNonEmpty(o);
    var reqLower := if lower == "" then 0 else 1;
    var reqUpper := if upper == "" then 0 else 1;
    var reqDigit := if digit == "" then 0 else if o.minDigits > 1 then o.minDigits else 1;
    var reqSymbol := if symbol == "" then 0 else if o.minSymbols > 1 then o.minSymbols else 1;
    var required := reqLower + reqUpper + reqDigit + reqSymbol;
    assert required == Required(o);
    if o.length < required {
      return Err("generatePassword: length too short for the selected options");
    }
    r := FillAndShuffle(rng, o, lower, upper, digit, symbol, pool);
  }

  /** The filling loops, then the shuffle of what they filled. */
  method FillAndShuffle(rng: Rng, o: Options, lower: string, upper: string, digit: string, symbol: string, pool: string)
    returns (r: Result<string>)
    requires Required(o) <= o.length <= 256 && 1 <= o.length && Pool(o) != ""
    requires lower == Lower(o) && upper == Upper(o) && digit == Digit(o) && symbol == Symbol(o) && pool == Pool(o)
    modifies rng
    ensures Draw(r, rng.Supply()) == Filled(o, old(rng.Supply()))
  {
    hide Unshuffled, ShuffleFrom, Lower, Upper, Digit, Symbol, Pool, Required;
    ghost var s := rng.Supply();
    r := PushAll(rng, o, lower, upper, digit, symbol, pool);
    UnshuffledLength(o, s);
    if r.Err? {
      return r;
    }
    var chars := new char[|r.value|](i requires 0 <= i < |r.value| => r.value[i]);
    assert chars[..] == r.value;
    var done := ShuffleInPlace(rng, chars);
    if done.Err? {
      return Err(done.error);
    }
    r := Ok(chars[..]);
  }

  /** The five filling loops. */
  method PushAll(rng: Rng, o: Options, lower: string, upper: string, digit: string, symbol: string, pool: string)
    returns (r: Result<string>)
    requires Required(o) <= o.length
    requires lower == Lower(o) && upper == Upper(o) && digit == Digit(o) && symbol == Symbol(o) && pool == Pool(o)
    modifies rng
    ensures Draw(r, rng.Supply()) == Unshuffled(o, old(rng.Supply()))
  {
    ClassesNonEmpty(o);
    r := PushNext(rng, Ok(""), lower, AtLeast(o.lowercase, 1));
    r := PushNext(rng, r, upper, AtLeast(o.uppercase, 1));
    r := PushNext(rng, r, digit, AtLeast(o.digits, o.minDigits));
    r := PushNext(rng, r, symbol, AtLeast(o.symbols, o.minSymbols));
    r := PushNext(rng, r, pool, o.length - Required(o));
  }

  method PushNext(rng: Rng, chars: Result<string>, cls: string, n: nat) returns (r: Result<string>)
    requires |cls| < TWO_32
    modifies rng
    ensures Draw(r, rng.Supply()) == PickMany(Draw(chars, old(rng.Supply())), cls, n)
  {
    if chars.Err? {
      ErrorSticks(Draw(chars, rng.Supply()), cls, n);
      return chars;
    }
    r := PushMany(rng, chars.value, cls, n);
  }

  // ----- what generatePassword promises -----

  /** n characters of cls are appended, unless the generator fails. */
  lemma {:induction false} PickManyAdds(d: Draw<string>, cls: string, n: nat)
    requires |cls| < TWO_32 && (n > 0 ==> cls != "")
    ensures var e := PickMany(d, cls, n).result;
            && (d.result.Err? ==> e == d.result)
            && (e.Err? && d.result.Ok? ==> e.error == RNG_FAILED)
            && (e.Ok? ==> d.result.Ok?
                          && |e.value| == |d.result.value| + n
                          && e.value[..|d.result.value|] == d.result.value
                          && forall i :: |d.result.value| <= i < |e.value| ==> e.value[i] in cls)
  {
    if n > 0 {
      PickManyAdds(d, cls, n - 1);
      IndexFails(PickMany(d, cls, n - 1).rest, |cls|);
    }
  }

  lemma {:induction false} IndexFails(s: seq<uint32>, bound: uint32)
    requires bound > 0
    ensures var d := IndexFrom(s, bound); d.result.Err? ==> d.result.error == RNG_FAILED && d.rest == []
  {
    if s != [] && s[0] >= Limit(bound) {
      IndexFails(s[1..], bound);
    }
  }

  /** How many characters of s belong to cls. */
  function CountIn(s: string, cls: string): nat {
    if s == "" then 0 else CountIn(s[..|s| - 1], cls) + (if s[|s| - 1] in cls then 1 else 0)
  }

  lemma {:induction false} CountAppend(a: string, b: string, cls: string)
    ensures CountIn(a + b, cls) == CountIn(a, cls) + CountIn(b, cls)
  {
    if b == "" {
      assert a + b == a;
    } else {
      assert (a + b)[..|a + b| - 1] == a + b[..|b| - 1];
      CountAppend(a, b[..|b| - 1], cls);
    }
  }

  lemma {:induction false} CountAll(s: string, cls: string)
    requires forall i :: 0 <= i < |s| ==> s[i] in cls
    ensures CountIn(s, cls) == |s|
  {
    if s != "" {
      CountAll(s[..|s| - 1], cls);
    }
  }

  /** Counting does not depend on the order. */
  lemma {:induction false} CountPermuted(s: string, t: string, cls: string)
    requires multiset(s) == multiset(t)
    ensures CountIn(s, cls) == CountIn(t, cls)
  {
    if s == "" {
      assert |t| == |multiset(t)| == 0;
    } else {
      var n := |s| - 1;
      assert s == s[..n] + [s[n]];
      assert s[n] in multiset(t);
      var j :| 0 <= j < |t| && t[j] == s[n];
      var u := t[..j] + t[j + 1..];
      assert t == t[..j] + [t[j]] + t[j + 1..];
      assert multiset(u) == multiset(t) - multiset([t[j]]);
      assert multiset(s[..n]) == multiset(s) - multiset([s[n]]);
      CountPermuted(s[..n], u, cls);
      CountAppend(t[..j], t[j + 1..], cls);
      CountAppend(t[..j] + [t[j]], t[j + 1..], cls);
      CountAppend(t[..j], [t[j]], cls);
      assert [t[j]][..0] == "";
    }
  }

  lemma UnshuffledLength(o: Options, s: seq<uint32>)
    requires Required(o) <= o.length && Pool(o) != ""
    ensures var r := Unshuffled(o, s).result;
            && (r.Err? ==> r.error == RNG_FAILED)
            && (r.Ok? ==> |r.value| == o.length && Satisfies(r.value, o))
  {
    hide Lower, Upper, Digit, Symbol, PickMany, Required, IndexFrom;
    assert Required(o) == AtLeast(o.lowercase, 1) + AtLeast(o.uppercase, 1)
                          + AtLeast(o.digits, o.minDigits) + AtLeast(o.symbols, o.minSymbols) by { RequiredIs(o); }
    ClassesNonEmpty(o);
    var z := Draw(Ok(""), s);
    var a := PickMany(z, Lower(o), AtLeast(o.lowercase, 1));
    var b := PickMany(a, Upper(o), AtLeast(o.uppercase, 1));
    var c := PickMany(b, Digit(o), AtLeast(o.digits, o.minDigits));
    var d := PickMany(c, Symbol(o), AtLeast(o.symbols, o.minSymbols));
    var e := PickMany(d, Pool(o), o.length - Required(o));
    PickManyAdds(z, Lower(o), AtLeast(o.lowercase, 1));
    PickManyAdds(a, Upper(o), AtLeast(o.uppercase, 1));
    PickManyAdds(b, Digit(o), AtLeast(o.digits, o.minDigits));
    PickManyAdds(c, Symbol(o), AtLeast(o.symbols, o.minSymbols));
    PickManyAdds(d, Pool(o), o.length - Required(o));
    if e.result.Ok? {
      Parts(o, a.result.value, b.result.value, c.result.value, d.result.value, e.result.value);
    }
  }

  lemma RequiredIs(o: Options)
    ensures Required(o) == AtLeast(o.lowercase, 1) + AtLeast(o.uppercase, 1)
                           + AtLeast(o.digits, o.minDigits) + AtLeast(o.symbols, o.minSymbols)
  {
  }

  /** Every class has its minimum and every character is in the pool. */
  ghost predicate Satisfies(p: string, o: Options) {
    && CountIn(p, Lower(o)) >= AtLeast(o.lowercase, 1)
    && CountIn(p, Upper(o)) >= AtLeast(o.uppercase, 1)
    && CountIn(p, Digit(o)) >= AtLeast(o.digits, o.minDigits)
    && CountIn(p, Symbol(o)) >= AtLeast(o.symbols, o.minSymbols)
    && forall i :: 0 <= i < |p| ==> p[i] in Pool(o)
  }

  ghost predicate Extends(s: string, t: string, cls: string) {
    s <= t && forall i :: |s| <= i < |t| ==> t[i] in cls
  }

  /** A piece appended from cls counts for cls in every longer text. */
  lemma PieceCounts(s: string, t: string, p: string, cls: string)
    requires Extends(s, t, cls) && t <= p
    ensures CountIn(p, cls) >= |t| - |s|
  {
    var m := t[|s|..];
    assert t == s + m && p == t + p[|t|..];
    CountAppend(s, m, cls);
    CountAppend(t, p[|t|..], cls);
    CountAll(m, cls);
  }

  lemma Parts(o: Options, a: string, b: string, c: string, d: string, e: string)
    requires Extends("", a, Lower(o)) && |a| == AtLeast(o.lowercase, 1)
    requires Extends(a, b, Upper(o)) && |b| == |a| + AtLeast(o.uppercase, 1)
    requires Extends(b, c, Digit(o)) && |c| == |b| + AtLeast(o.digits, o.minDigits)
    requires Extends(c, d, Symbol(o)) && |d| == |c| + AtLeast(o.symbols, o.minSymbols)
    requires Extends(d, e, Pool(o))
    ensures Satisfies(e, o)
  {
    hide Lower, Upper, Digit, Symbol, CountIn;
    PieceCounts("", a, e, Lower(o));
    PieceCounts(a, b, e, Upper(o));
    PieceCounts(b, c, e, Digit(o));
    PieceCounts(c, d, e, Symbol(o));
    forall i | 0 <= i < |e| ensures e[i] in Pool(o) {
      if i < |a| {
        assert e[i] == a[i];
      } else if i < |b| {
        assert e[i] == b[i];
      } else if i < |c| {
        assert e[i] == c[i];
      } else if i < |d| {
        assert e[i] == d[i];
      }
    }
  }

  /** The shuffle with draws from the supply is the shuffle by some valid draws. */
  lemma {:induction false} ShuffledBy(s: seq<uint32>, chars: string, i: nat) returns (js: seq<nat>)
    requires i < |chars| <= 256
    ensures var d := ShuffleFrom(s, chars, i);
            && (d.result.Err? ==> d.result.error == RNG_FAILED)
            && FisherYates.ValidDraws(js, |chars|)
            && (d.result.Ok? ==> d.result.value == FisherYates.Shuffle(chars, js, i))
    decreases i
  {
    if i == 0 {
      js := seq(|chars|, _ => 0);
    } else {
      var j := IndexFrom(s, i + 1);
      IndexFails(s, i + 1);
      if j.result.Err? {
        js := seq(|chars|, _ => 0);
      } else {
        var t := FisherYates.Swap(chars, i, j.result.value);
        var ks := ShuffledBy(j.rest, t, i - 1);
        js := ks[i := j.result.value];
        assert js[..i] == ks[..i];
        FisherYates.ShuffleFrame(t, ks, js, i - 1);
      }
    }
  }

  lemma PermutedSatisfies(p: string, q: string, o: Options)
    requires multiset(p) == multiset(q) && Satisfies(p, o)
    ensures |q| == |p| && Satisfies(q, o)
  {
    hide Lower, Upper, Digit, Symbol, CountIn, Pool;
    assert |multiset(p)| == |p| && |multiset(q)| == |q|;
    CountPermuted(p, q, Lower(o));
    CountPermuted(p, q, Upper(o));
    CountPermuted(p, q, Digit(o));
    CountPermuted(p, q, Symbol(o));
    forall i | 0 <= i < |q| ensures q[i] in Pool(o) {
      assert q[i] in multiset(p);
    }
  }

  /** The password exists exactly for feasible options (as long as the random
      generator does not fail); it has the asked length, only characters of the
      pool, every class minimum, and no ambiguous character when asked. */
  lemma Promise(o: Options, s: seq<uint32>)
    ensures var r := Generated(o, s).result;
            && (!Feasible(o) ==> r.Err? && r.error != RNG_FAILED)
            && (Feasible(o) ==> r.Ok? || r.error == RNG_FAILED)
            && (r.Ok? ==> |r.value| == o.length && Satisfies(r.value, o))
            && (r.Ok? && o.avoidAmbiguous ==> forall i :: 0 <= i < |r.value| ==> r.value[i] !in AMBIGUOUS)
  {
    hide Lower, Upper, Digit, Symbol, CountIn, PickMany, ShuffleFrom;
    PoolEmpty(o);
    if 1 <= o.length <= 256 && Pool(o) != "" && Required(o) <= o.length {
      UnshuffledLength(o, s);
      var d := Unshuffled(o, s);
      if d.result.Ok? {
        var js := ShuffledBy(d.rest, d.result.value, o.length - 1);
        var r := Generated(o, s).result;
        if r.Ok? {
          FisherYates.ShuffleKeeps(d.result.value, js, o.length - 1);
          PermutedSatisfies(d.result.value, r.value, o);
          PoolUnambiguous(o);
        }
      }
    }
  }

  lemma LetterPlaces()
    ensures |LOWER| == 26 && forall i :: 0 <= i < 26 ==> LOWER[i] as int == 'a' as int + i
    ensures |UPPER| == 26 && forall i :: 0 <= i < 26 ==> UPPER[i] as int == 'A' as int + i
    ensures |DIGITS| == 10 && forall i :: 0 <= i < 10 ==> DIGITS[i] as int == '0' as int + i
  {
  }

  lemma InLetters(ch: char)
    ensures ch in LOWER <==> 'a' <= ch <= 'z'
    ensures ch in UPPER <==> 'A' <= ch <= 'Z'
    ensures ch in DIGITS <==> '0' <= ch <= '9'
  {
    LetterPlaces();
    if 'a' <= ch <= 'z' {
      assert LOWER[ch as int - 'a' as int] == ch;
    }
    if 'A' <= ch <= 'Z' {
      assert UPPER[ch as int - 'A' as int] == ch;
    }
    if '0' <= ch <= '9' {
      assert DIGITS[ch as int - '0' as int] == ch;
    }
  }

  /** A password may hold exactly the letters, digits and symbols that were enabled, apart
      from the six that look alike if those are avoided. */
  lemma PoolExactly(o: Options, ch: char)
    ensures var like := o.avoidAmbiguous && ch in "Il1O0o";
            && (ch in Lower(o) <==> o.lowercase && 'a' <= ch <= 'z' && !like)
            && (ch in Upper(o) <==> o.uppercase && 'A' <= ch <= 'Z' && !like)
            && (ch in Digit(o) <==> o.digits && '0' <= ch <= '9' && !like)
            && (ch in Symbol(o) <==> o.symbols && ch in "!@#$%^&*()-_=+[]{};:,.?")
            && (ch in Pool(o) <==> ch in Lower(o) || ch in Upper(o) || ch in Digit(o) || ch in Symbol(o))
  {
    hide Allowed;
    InLetters(ch);
    AllowedExactly(LOWER, o.avoidAmbiguous);
    AllowedExactly(UPPER, o.avoidAmbiguous);
    AllowedExactly(DIGITS, o.avoidAmbiguous);
    AllowedExactly(SYMBOLS, false);
  }

  lemma PoolEmpty(o: Options)
    ensures Pool(o) == "" <==> !(o.lowercase || o.uppercase || o.digits || o.symbols)
  {
    ClassesNonEmpty(o);
  }

  lemma ClassUnambiguous(on: bool, s: string, avoid: bool)
    ensures avoid ==> forall c :: c in ClassOf(on, s, avoid) ==> c !in AMBIGUOUS
  {
    hide Allowed;
    AllowedExactly(s, avoid);
  }

  lemma SymbolsUnambiguous()
    ensures forall c :: c in SYMBOLS ==> c !in AMBIGUOUS
  {
    forall c | c in AMBIGUOUS ensures c !in SYMBOLS {
    }
  }

  lemma PoolUnambiguous(o: Options)
    ensures o.avoidAmbiguous ==> forall c :: c in Pool(o) ==> c !in AMBIGUOUS
  {
    ClassUnambiguous(o.lowercase, LOWER, o.avoidAmbiguous);
    ClassUnambiguous(o.uppercase, UPPER, o.avoidAmbiguous);
    ClassUnambiguous(o.digits, DIGITS, o.avoidAmbiguous);
    SymbolsUnambiguous();
    assert Symbol(o) == SYMBOLS || Symbol(o) == "";
    hide ClassOf, Symbol;
  }
}
