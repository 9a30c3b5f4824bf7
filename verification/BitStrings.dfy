/** Bit strings, most significant bit first, and the grouping that section 3
    of RFC 4648 builds its encodings on: the bits of all bytes in a row, cut
    into groups of w bits, zero-filled at the end. Base32 (w = 5) and base64
    (w = 6) are both proved against the two functions EncodeGroups and
    DecodeGroups. */
module BitStrings {
  import opened Words

  type bits = seq<bool>

  function Nat(b: bits): nat {
    if b == [] then 0
    else 2 * Nat(b[..|b| - 1]) + (if b[|b| - 1] then 1 else 0)
  }

  /** The low w bits of n. */
  function OfNat(n: nat, w: nat): (b: bits)
    ensures |b| == w
  {
    if w == 0 then [] else OfNat(n / 2, w - 1) + [n % 2 == 1]
  }

  function Zeros(k: nat): (b: bits)
    ensures |b| == k
  {
    seq(k, _ => false)
  }

  /** All groups written as w bits each, one after the other. */
  function Concat(groups: seq<nat>, w: nat): bits {
    if groups == [] then [] else OfNat(groups[0], w) + Concat(groups[1..], w)
  }

  /** The values of the whole w-bit pieces of b; a shorter rest is dropped. */
  function Chunks(b: bits, w: nat): (r: seq<nat>)
    requires w > 0
  {
    if |b| < w then [] else [Nat(b[..w])] + Chunks(b[w..], w)
  }

  function Fill(len: nat, w: nat): nat
    requires w > 0
  {
    (w - len % w) % w
  }

  /** The bytes as w-bit groups, the last one filled with zero bits. */
  function EncodeGroups(data: seq<nat>, w: nat): seq<nat>
    requires w > 0
  {
    var b := Concat(data, 8);
    Chunks(b + Zeros(Fill(|b|, w)), w)
  }

  /** The whole bytes in a row of w-bit groups. */
  function DecodeGroups(groups: seq<nat>, w: nat): seq<nat> {
    Chunks(Concat(groups, w), 8)
  }

  lemma {:induction false} NatBound(b: bits)
    ensures Nat(b) < Pow2(|b|)
  {
    if b != [] {
      NatBound(b[..|b| - 1]);
    }
  }

  lemma {:induction false} NatOfNat(n: nat, w: nat)
    ensures Nat(OfNat(n, w)) == n % Pow2(w)
  {
    if w > 0 {
      var b := OfNat(n, w);
      assert b[..|b| - 1] == OfNat(n / 2, w - 1);
      NatOfNat(n / 2, w - 1);
      ModDouble(n, Pow2(w - 1));
    }
  }

  lemma {:induction false} OfNatNat(b: bits)
    ensures OfNat(Nat(b), |b|) == b
  {
    if b != [] {
      OfNatNat(b[..|b| - 1]);
    }
  }

  lemma {:induction false} NatConcat(a: bits, b: bits)
    ensures Nat(a + b) == Pow2(|b|) * Nat(a) + Nat(b)
  {
    if b == [] {
      assert a + b == a;
    } else {
      var c := b[..|b| - 1];
      assert (a + b)[..|a + b| - 1] == a + c;
      NatConcat(a, c);
      Assoc(2, Pow2(|c|), Nat(a));
    }
  }

  lemma GroupAlone(v: nat, w: nat)
    requires v < Pow2(w)
    ensures Nat(OfNat(v, w)) == v
  {
    NatOfNat(v, w);
    DivModUnique(v, Pow2(w), 0, v);
  }

  lemma GroupFirst(v: nat, w: nat, rest: bits)
    requires v < Pow2(w)
    ensures Nat(OfNat(v, w) + rest) == Pow2(|rest|) * v + Nat(rest)
  {
    GroupAlone(v, w);
    NatConcat(OfNat(v, w), rest);
  }

  lemma {:induction false} NatZeros(k: nat)
    ensures Nat(Zeros(k)) == 0
  {
    if k > 0 {
      assert Zeros(k)[..k - 1] == Zeros(k - 1);
      NatZeros(k - 1);
    }
  }

  /** The value of a slice is a shift and a mask of the whole value. */
  lemma NatSlice(b: bits, i: nat, j: nat)
    requires i <= j <= |b|
    ensures Nat(b[i..j]) == Nat(b) / Pow2(|b| - j) % Pow2(j - i)
  {
    var p, s, t := b[..i], b[i..j], b[j..];
    assert b == (p + s) + t;
    NatTail(p + s, t);
    NatTail(p, s);
  }

  lemma NatTail(a: bits, b: bits)
    ensures Nat(a + b) / Pow2(|b|) == Nat(a)
    ensures Nat(a + b) % Pow2(|b|) == Nat(b)
  {
    NatConcat(a, b);
    NatBound(b);
    DivModUnique(Nat(a + b), Pow2(|b|), Nat(a), Nat(b));
  }

  lemma WholeMinusOne(n: nat, w: nat)
    requires w > 0 && n % w == 0
    ensures n < w ==> n == 0
    ensures n >= w ==> (n - w) % w == 0
  {
    if n < w {
      DivModUnique(n, w, 0, n);
    } else {
      Distribute(w, n / w, -1);
      DivModUnique(n - w, w, n / w - 1, 0);
    }
  }

  lemma {:induction false} ConcatAppend(g: seq<nat>, h: seq<nat>, w: nat)
    ensures Concat(g + h, w) == Concat(g, w) + Concat(h, w)
  {
    if g == [] {
      assert g + h == h;
    } else {
      assert (g + h)[1..] == g[1..] + h;
      ConcatAppend(g[1..], h, w);
    }
  }

  lemma ConcatOne(v: nat, w: nat)
    ensures Concat([v], w) == OfNat(v, w)
  {
    assert [v][1..] == [];
  }

  lemma {:induction false} ConcatLength(g: seq<nat>, w: nat)
    ensures |Concat(g, w)| == w * |g|
  {
    if g != [] {
      ConcatLength(g[1..], w);
      Distribute(w, 1, |g| - 1);
    }
  }

  lemma {:induction false} ChunksAppend(a: bits, b: bits, w: nat)
    requires w > 0 && |a| % w == 0
    ensures Chunks(a + b, w) == Chunks(a, w) + Chunks(b, w)
    decreases |a|
  {
    WholeMinusOne(|a|, w);
    if |a| < w {
      assert a + b == b;
    } else {
      assert (a + b)[..w] == a[..w] && (a + b)[w..] == a[w..] + b;
      ChunksAppend(a[w..], b, w);
    }
  }

  lemma ChunksOne(b: bits, w: nat)
    requires w > 0 && |b| == w
    ensures Chunks(b, w) == [Nat(b)]
  {
    assert b[..w] == b && b[w..] == [];
  }

  lemma {:induction false} ChunksBound(b: bits, w: nat)
    requires w > 0
    ensures forall v :: v in Chunks(b, w) ==> v < Pow2(w)
    decreases |b|
  {
    if |b| >= w {
      NatBound(b[..w]);
      ChunksBound(b[w..], w);
    }
  }

  lemma {:induction false} ChunksLength(b: bits, w: nat)
    requires w > 0
    ensures |Chunks(b, w)| == |b| / w
    decreases |b|
  {
    if |b| >= w {
      ChunksLength(b[w..], w);
      DivModUnique(|b|, w, |b[w..]| / w + 1, |b[w..]| % w);
    } else {
      DivModUnique(|b|, w, 0, |b|);
    }
  }

  lemma ChunkOne(v: nat, w: nat, tail: bits)
    requires w > 0 && v < Pow2(w)
    ensures Chunks(OfNat(v, w) + tail, w) == [v] + Chunks(tail, w)
  {
    hide OfNat, Nat;
    var b := OfNat(v, w) + tail;
    GroupAlone(v, w);
    assert b[..w] == OfNat(v, w) && b[w..] == tail;
  }

  lemma {:induction false} ChunksConcat(g: seq<nat>, w: nat, rest: bits)
    requires w > 0 && |rest| < w
    requires forall v :: v in g ==> v < Pow2(w)
    ensures Chunks(Concat(g, w) + rest, w) == g
  {
    hide OfNat, Nat, Pow2;
    if g == [] {
      assert Concat(g, w) + rest == rest;
    } else {
      assert g[0] in g;
      assert Concat(g, w) + rest == OfNat(g[0], w) + (Concat(g[1..], w) + rest);
      ChunkOne(g[0], w, Concat(g[1..], w) + rest);
      assert forall v :: v in g[1..] ==> v in g;
      ChunksConcat(g[1..], w, rest);
    }
  }

  lemma {:induction false} ConcatChunks(b: bits, w: nat)
    requires w > 0 && |b| % w == 0
    ensures Concat(Chunks(b, w), w) == b
    decreases |b|
  {
    WholeMinusOne(|b|, w);
    if |b| < w {
      assert b == [];
    } else {
      OfNatNat(b[..w]);
      ConcatChunks(b[w..], w);
      assert b[..w] + b[w..] == b;
    }
  }

  lemma FillCompletes(len: nat, w: nat)
    requires w > 0
    ensures (len + Fill(len, w)) % w == 0 && Fill(len, w) < w
  {
    var q, r := len / w, len % w;
    if r == 0 {
      DivModUnique(w, w, 1, 0);
      assert Fill(len, w) == 0;
    } else {
      DivModUnique(w - r, w, 0, w - r);
      Distribute(w, q, 1);
      DivModUnique(len + (w - r), w, q + 1, 0);
    }
  }

  /** Decoding inverts encoding for every group width up to a byte. */
  lemma GroupsRoundTrip(data: seq<nat>, w: nat)
    requires 0 < w <= 8
    requires forall v :: v in data ==> v < 256
    ensures DecodeGroups(EncodeGroups(data, w), w) == data
  {
    Pow2Values();
    var b := Concat(data, 8);
    var z := Zeros(Fill(|b|, w));
    FillCompletes(|b|, w);
    ConcatChunks(b + z, w);
    ChunksConcat(data, 8, z);
  }

  lemma ChunksPrefix(b: bits, w: nat, m: nat)
    requires w > 0 && w * m <= |b|
    ensures m <= |Chunks(b, w)| && Chunks(b[..w * m], w) == Chunks(b, w)[..m]
  {
    DivModUnique(w * m, w, m, 0);
    assert b == b[..w * m] + b[w * m..];
    ChunksAppend(b[..w * m], b[w * m..], w);
    ChunksLength(b[..w * m], w);
  }

  lemma ChunksTake(b: bits, w: nat, m: nat, n: nat)
    requires w > 0 && w * m <= n < w * m + w && n <= |b|
    ensures m <= |Chunks(b, w)| && Chunks(b[..n], w) == Chunks(b, w)[..m]
  {
    ChunksPrefix(b, w, m);
    DivModUnique(w * m, w, m, 0);
    assert b[..n] == b[..w * m] + b[w * m..n];
    ChunksAppend(b[..w * m], b[w * m..n], w);
  }

  lemma ConcatOfChunks(b: bits, w: nat, m: nat)
    requires w > 0 && w * m <= |b| < w * m + w
    ensures Concat(Chunks(b, w), w) == b[..w * m]
  {
    ChunksTake(b, w, m, |b|);
    ChunksPrefix(b, w, m);
    assert b[..|b|] == b;
    DivModUnique(w * m, w, m, 0);
    ConcatChunks(b[..w * m], w);
  }
}
