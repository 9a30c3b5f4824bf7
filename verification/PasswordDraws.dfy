/** What the draws behind a password decide: when they suffice, and how many of them
    lead the shuffle to each arrangement. */
module PasswordDraws {
  import opened Words
  import opened Wrappers
  import opened FisherYates
  import opened PasswordGen

  // ----- when the supply suffices -----

  /** How many values are below 2^31: every bound accepts these. */
  function Small(s: seq<uint32>): nat {
    if s == [] then 0 else (if s[0] < 0x8000_0000 then 1 else 0) + Small(s[1..])
  }

  lemma LimitAboveHalf(bound: uint32)
    requires bound > 0
    ensures Limit(bound) > 0x8000_0000
  {
    AtLeastHalf(bound);
  }

  lemma {:induction false} IndexSucceeds(s: seq<uint32>, bound: uint32)
    requires bound > 0 && Small(s) >= 1
    ensures IndexFrom(s, bound).result.Ok? && Small(IndexFrom(s, bound).rest) >= Small(s) - 1
  {
    LimitAboveHalf(bound);
    if s[0] >= Limit(bound) {
      IndexSucceeds(s[1..], bound);
    }
  }

  lemma {:induction false} PicksSucceed(d: Draw<string>, cls: string, n: nat)
    requires |cls| < TWO_32 && (n > 0 ==> cls != "") && d.result.Ok? && Small(d.rest) >= n
    ensures PickMany(d, cls, n).result.Ok? && Small(PickMany(d, cls, n).rest) >= Small(d.rest) - n
  {
    if n > 0 {
      PicksSucceed(d, cls, n - 1);
      IndexSucceeds(PickMany(d, cls, n - 1).rest, |cls|);
    }
  }

  lemma {:induction false} ShuffleSucceeds(s: seq<uint32>, chars: string, i: nat)
    requires i < |chars| <= 256 && Small(s) >= i
    ensures ShuffleFrom(s, chars, i).result.Ok?
    decreases i
  {
    if i > 0 {
      IndexSucceeds(s, i + 1);
      var j := IndexFrom(s, i + 1);
      ShuffleSucceeds(j.rest, Swap(chars, i, j.result.value), i - 1);
    }
  }

  lemma {:induction false} PicksEnd(d: Draw<string>, cls: string, n: nat)
    requires |cls| < TWO_32 && (n > 0 ==> cls != "") && (d.result.Err? ==> d.rest == [])
    ensures PickMany(d, cls, n).result.Err? ==> PickMany(d, cls, n).rest == []
  {
    if n > 0 {
      PicksEnd(d, cls, n - 1);
      IndexFails(PickMany(d, cls, n - 1).rest, |cls|);
    }
  }

  lemma {:induction false} ShuffleEnds(s: seq<uint32>, chars: string, i: nat)
    requires i < |chars| <= 256
    ensures ShuffleFrom(s, chars, i).result.Err? ==> ShuffleFrom(s, chars, i).rest == []
    decreases i
  {
    if i > 0 {
      IndexFails(s, i + 1);
      var j := IndexFrom(s, i + 1);
      if j.result.Ok? {
        ShuffleEnds(j.rest, Swap(chars, i, j.result.value), i - 1);
      }
    }
  }

  lemma UnshuffledEnds(o: Options, s: seq<uint32>)
    requires Required(o) <= o.length && Pool(o) != ""
    ensures Unshuffled(o, s).result.Err? ==> Unshuffled(o, s).rest == []
    ensures Small(s) >= o.length ==>
              Unshuffled(o, s).result.Ok? && Small(Unshuffled(o, s).rest) >= Small(s) - o.length
  {
    hide Lower, Upper, Digit, Symbol, PickMany, Required, Small, AtLeast;
    RequiredIs(o);
    ClassesNonEmpty(o);
    PlansNothingFromNothing(o);
    var z := Draw(Ok(""), s);
    var a := PickMany(z, Lower(o), AtLeast(o.lowercase, 1));
    var b := PickMany(a, Upper(o), AtLeast(o.uppercase, 1));
    var c := PickMany(b, Digit(o), AtLeast(o.digits, o.minDigits));
    var d := PickMany(c, Symbol(o), AtLeast(o.symbols, o.minSymbols));
    PicksEnd(z, Lower(o), AtLeast(o.lowercase, 1));
    PicksEnd(a, Upper(o), AtLeast(o.uppercase, 1));
    PicksEnd(b, Digit(o), AtLeast(o.digits, o.minDigits));
    PicksEnd(c, Symbol(o), AtLeast(o.symbols, o.minSymbols));
    PicksEnd(d, Pool(o), o.length - Required(o));
    if Small(s) >= o.length {
      PicksSucceed(z, Lower(o), AtLeast(o.lowercase, 1));
      PicksSucceed(a, Upper(o), AtLeast(o.uppercase, 1));
      PicksSucceed(b, Digit(o), AtLeast(o.digits, o.minDigits));
      PicksSucceed(c, Symbol(o), AtLeast(o.symbols, o.minSymbols));
      PicksSucceed(d, Pool(o), o.length - Required(o));
    }
  }

  lemma PlansNothingFromNothing(o: Options)
    ensures AtLeast(o.lowercase, 1) > 0 ==> Lower(o) != ""
    ensures AtLeast(o.uppercase, 1) > 0 ==> Upper(o) != ""
    ensures AtLeast(o.digits, o.minDigits) > 0 ==> Digit(o) != ""
    ensures AtLeast(o.symbols, o.minSymbols) > 0 ==> Symbol(o) != ""
  {
    hide Lower, Upper, Digit, Symbol;
    ClassesNonEmpty(o);
  }

  /** The generator's failure is reported only when its supply is used up, and a
      feasible request with one small value per pick and per swap always succeeds. */
  lemma FailsOnlyWhenDry(o: Options, s: seq<uint32>)
    ensures Generated(o, s).result == Err(RNG_FAILED) ==> Feasible(o) && Generated(o, s).rest == []
    ensures Feasible(o) && Small(s) >= 2 * o.length - 1 ==> Generated(o, s).result.Ok?
  {
    hide Pool, Required, Unshuffled, ShuffleFrom, Satisfies, Small;
    PoolEmpty(o);
    Promise(o, s);
    if Feasible(o) {
      UnshuffledLength(o, s);
      UnshuffledEnds(o, s);
      var d := Unshuffled(o, s);
      if d.result.Ok? {
        ShuffleEnds(d.rest, d.result.value, o.length - 1);
        if Small(s) >= 2 * o.length - 1 {
          ShuffleSucceeds(d.rest, d.result.value, o.length - 1);
        }
      }
    }
  }

  // ----- how many supplies lead to each arrangement -----

  predicate Reaches(r: uint32, limit: nat) {
    limit <= r
  }

  ghost function From(limit: nat): set<uint32> {
    set r: uint32 | r < TWO_32 && Reaches(r, limit)
  }

  /** The draws that a bound rejects. */
  ghost function Rejected(bound: uint32): set<uint32>
    requires bound > 0
  {
    From(Limit(bound))
  }

  function Cons(r: uint32, s: seq<uint32>): (v: seq<uint32>)
    ensures |v| == |s| + 1 && v[0] == r && v[1..] == s
  {
    [r] + s
  }

  ghost function Prefixed(a: set<uint32>, t: set<seq<uint32>>): set<seq<uint32>> {
    set r, s | r in a && s in t :: Cons(r, s)
  }

  lemma InPrefixed(v: seq<uint32>, a: set<uint32>, t: set<seq<uint32>>)
    ensures v in Prefixed(a, t) <==> v != [] && v[0] in a && v[1..] in t
  {
    if v != [] && v[0] in a && v[1..] in t {
      assert v == Cons(v[0], v[1..]);
    }
  }

  function Times(a: nat, b: nat): nat {
    a * b
  }

  /** The supplies of exactly m values from which a shuffle of the first n positions
      draws js, rejected values included. */
  ghost function Supplies(m: nat, js: seq<nat>, n: nat): set<seq<uint32>>
    requires n <= |js| <= 256
    decreases m
  {
    if n <= 1 then (if m == 0 then {[]} else {})
    else if m == 0 then {}
    else Prefixed(Bucket(n, js[n - 1], Limit(n)), Supplies(m - 1, js, n - 1))
         + Prefixed(Rejected(n), Supplies(m - 1, js, n))
  }

  /** Their number, which does not depend on js. */
  function Ways(m: nat, n: nat): nat
    requires n <= 256
    decreases m
  {
    if n <= 1 then (if m == 0 then 1 else 0)
    else if m == 0 then 0
    else Times(Limit(n) / n, Ways(m - 1, n - 1)) + Times(TWO_32 - Limit(n), Ways(m - 1, n))
  }

  lemma {:induction false} OnePrefix(r: uint32, t: set<seq<uint32>>)
    ensures |Prefixed({r}, t)| == |t|
  {
    if t == {} {
      assert Prefixed({r}, t) == {};
    } else {
      var s :| s in t;
      OnePrefix(r, t - {s});
      OneMore(r, s, t);
    }
  }

  lemma OneMore(r: uint32, s: seq<uint32>, t: set<seq<uint32>>)
    requires s in t
    ensures Prefixed({r}, t) == Prefixed({r}, t - {s}) + {Cons(r, s)}
    ensures Cons(r, s) !in Prefixed({r}, t - {s})
  {
    hide Prefixed;
    InPrefixed(Cons(r, s), {r}, t - {s});
    forall v ensures v in Prefixed({r}, t) <==> v in Prefixed({r}, t - {s}) + {Cons(r, s)} {
      InPrefixed(v, {r}, t);
      InPrefixed(v, {r}, t - {s});
      if v != [] && v[0] == r && v[1..] == s {
        assert v == [v[0]] + v[1..];
      }
    }
  }

  lemma {:induction false} PrefixedSize(a: set<uint32>, t: set<seq<uint32>>)
    ensures |Prefixed(a, t)| == Times(|a|, |t|)
  {
    hide Prefixed;
    if a == {} {
      NonePrefixed(t);
    } else {
      var r :| r in a;
      PrefixedSize(a - {r}, t);
      OnePrefix(r, t);
      PrefixedSplit(a, r, t);
      TimesOneMore(|a - {r}|, |t|);
    }
  }

  lemma NonePrefixed(t: set<seq<uint32>>)
    ensures Prefixed({}, t) == {}
  {
  }

  lemma TimesOneMore(a: nat, b: nat)
    ensures Times(a + 1, b) == Times(a, b) + b
  {
    Distribute(b, a, 1);
  }

  lemma PrefixedSplit(a: set<uint32>, r: uint32, t: set<seq<uint32>>)
    requires r in a
    ensures Prefixed(a, t) == Prefixed(a - {r}, t) + Prefixed({r}, t)
    ensures Prefixed(a - {r}, t) !! Prefixed({r}, t)
  {
    hide Prefixed;
    forall v ensures v in Prefixed(a, t) <==> v in Prefixed(a - {r}, t) + Prefixed({r}, t) {
      InPrefixed(v, a, t);
      InPrefixed(v, a - {r}, t);
      InPrefixed(v, {r}, t);
    }
    forall v | v in Prefixed(a - {r}, t) ensures v !in Prefixed({r}, t) {
      InPrefixed(v, a - {r}, t);
      InPrefixed(v, {r}, t);
    }
  }

  lemma {:induction false} FromSize(limit: nat)
    requires limit <= TWO_32
    ensures |From(limit)| == TWO_32 - limit
    decreases TWO_32 - limit
  {
    if limit == TWO_32 {
      assert From(limit) == {};
    } else {
      FromSize(limit + 1);
      assert From(limit) == From(limit + 1) + {limit};
    }
  }

  lemma {:induction false} SuppliesSize(m: nat, js: seq<nat>, n: nat)
    requires n <= |js| <= 256 && ValidDraws(js, |js|)
    ensures |Supplies(m, js, n)| == Ways(m, n)
    decreases m
  {
    hide Limit, Bucket, Prefixed, Rejected, Times;
    if n > 1 && m > 0 {
      var a, b := Bucket(n, js[n - 1], Limit(n)), Rejected(n);
      var t, u := Supplies(m - 1, js, n - 1), Supplies(m - 1, js, n);
      Unbiased(n, js[n - 1]);
      RejectedCount(n);
      SuppliesSize(m - 1, js, n - 1);
      SuppliesSize(m - 1, js, n);
      PrefixedSize(a, t);
      PrefixedSize(b, u);
      ApartByFirst(n, js[n - 1], t, u);
    }
  }

  lemma RejectedCount(n: uint32)
    requires n > 0
    ensures |Rejected(n)| == TWO_32 - Limit(n)
  {
    FromSize(Limit(n));
  }

  lemma ApartByFirst(n: uint32, k: nat, t: set<seq<uint32>>, u: set<seq<uint32>>)
    requires n > 0
    ensures Prefixed(Bucket(n, k, Limit(n)), t) !! Prefixed(Rejected(n), u)
  {
    hide Prefixed, Limit;
    forall v | v in Prefixed(Bucket(n, k, Limit(n)), t) ensures v !in Prefixed(Rejected(n), u) {
      InPrefixed(v, Bucket(n, k, Limit(n)), t);
      InPrefixed(v, Rejected(n), u);
    }
  }

  /** One value taken by the shuffle at position i. */
  lemma OneValue(r: uint32, s: seq<uint32>, chars: string, i: nat)
    requires 0 < i < |chars| <= 256
    ensures ShuffleFrom([r] + s, chars, i)
            == (if r < Limit(i + 1) then ShuffleFrom(s, Swap(chars, i, r % (i + 1)), i - 1)
                else ShuffleFrom(s, chars, i))
  {
    hide Limit, Swap;
    assert ([r] + s)[1..] == s;
  }

  /** The loop uses what it draws: from a supply of js it makes the shuffle by js, and
      leaves the rest. */
  lemma {:induction false} SupplyIsUsed(s: seq<uint32>, rest: seq<uint32>, js: seq<nat>, chars: string, i: nat)
    requires i < |chars| == |js| <= 256 && ValidDraws(js, |js|)
    requires s in Supplies(|s|, js, i + 1)
    ensures ShuffleFrom(s + rest, chars, i) == Draw(Ok(Shuffle(chars, js, i)), rest)
    decreases |s|
  {
    hide Limit, Swap, Supplies;
    SuppliesBase(|s|, js);
    if i == 0 {
      assert s + rest == rest;
    } else {
      FirstOfSupply(s, |s|, js, i + 1);
      var r, t := s[0], s[1..];
      assert s + rest == [r] + (t + rest);
      OneValue(r, t + rest, chars, i);
      if r < Limit(i + 1) {
        SupplyIsUsed(t, rest, js, Swap(chars, i, js[i]), i - 1);
      } else {
        SupplyIsUsed(t, rest, js, chars, i);
      }
    }
  }

  lemma FirstOfSupply(s: seq<uint32>, m: nat, js: seq<nat>, n: nat)
    requires 1 < n <= |js| <= 256
    ensures s in Supplies(m, js, n) <==>
            && m > 0 && s != []
            && (if s[0] < Limit(n) then s[0] % n == js[n - 1] && s[1..] in Supplies(m - 1, js, n - 1)
                else s[1..] in Supplies(m - 1, js, n))
  {
    hide Prefixed, Limit;
    if m > 0 {
      InPrefixed(s, Bucket(n, js[n - 1], Limit(n)), Supplies(m - 1, js, n - 1));
      InPrefixed(s, Rejected(n), Supplies(m - 1, js, n));
    }
  }

  /** And every supply that a shuffle uses up is a supply of some js. */
  lemma {:induction false} UsedIsSupply(s: seq<uint32>, chars: string, i: nat) returns (js: seq<nat>)
    requires i < |chars| <= 256
    requires ShuffleFrom(s, chars, i).result.Ok? && ShuffleFrom(s, chars, i).rest == []
    ensures ValidDraws(js, |chars|) && s in Supplies(|s|, js, i + 1)
    decreases |s|
  {
    hide Limit, Swap, Supplies;
    if i == 0 {
      js := seq(|chars|, _ => 0);
      SuppliesBase(|s|, js);
    } else {
      IndexEmpty(s, chars, i);
      var r, t := s[0], s[1..];
      assert s == [r] + t;
      OneValue(r, t, chars, i);
      if r < Limit(i + 1) {
        var k := r % (i + 1);
        var ks := UsedIsSupply(t, Swap(chars, i, k), i - 1);
        js := ks[i := k];
        SuppliesFrame(|t|, ks, js, i);
        FirstOfSupply(s, |s|, js, i + 1);
      } else {
        js := UsedIsSupply(t, chars, i);
        FirstOfSupply(s, |s|, js, i + 1);
      }
    }
  }

  lemma IndexEmpty(s: seq<uint32>, chars: string, i: nat)
    requires 0 < i < |chars| <= 256 && ShuffleFrom(s, chars, i).result.Ok?
    ensures s != []
  {
  }

  lemma SuppliesBase(m: nat, js: seq<nat>)
    requires 1 <= |js| <= 256
    ensures Supplies(m, js, 1) == if m == 0 then {[]} else {}
  {
  }

  lemma {:induction false} SuppliesFrame(m: nat, js: seq<nat>, ks: seq<nat>, n: nat)
    requires n <= |js| == |ks| <= 256 && forall k :: 0 <= k < n ==> js[k] == ks[k]
    ensures Supplies(m, js, n) == Supplies(m, ks, n)
    decreases m
  {
    hide Prefixed, Limit, Bucket, Rejected;
    if n > 1 && m > 0 {
      SuppliesFrame(m - 1, js, ks, n - 1);
      SuppliesFrame(m - 1, js, ks, n);
    }
  }

  /** The shuffle is exactly uniform over its random values: for every length m, each
      arrangement of distinct characters comes from equally many supplies of m values,
      rejected ones included; and from some of n - 1 values. */
  lemma EquallyLikely(chars: string, p: string, m: nat) returns (supplies: set<seq<uint32>>)
    requires 1 <= |chars| <= 256 && Distinct(chars) && multiset(p) == multiset(chars)
    ensures forall s :: s in supplies <==> |s| == m && ShuffleFrom(s, chars, |chars| - 1) == Draw(Ok(p), [])
    ensures |supplies| == Ways(m, |chars|)
    ensures m == |chars| - 1 ==> supplies != {}
  {
    hide Shuffle, ShuffleFrom, Supplies, Distinct, Ways;
    var n := |chars|;
    assert |p| == |multiset(p)| == |multiset(chars)| == n;
    assert chars[n..] == p[n..];
    var js := Surjective(chars, p, n - 1);
    supplies := Supplies(m, js, n);
    SuppliesSize(m, js, n);
    forall s ensures s in supplies <==> |s| == m && ShuffleFrom(s, chars, n - 1) == Draw(Ok(p), []) {
      if s in supplies {
        SuppliesLength(s, m, js, n);
        SupplyIsUsed(s, [], js, chars, n - 1);
        assert s + [] == s;
      }
      if |s| == m && ShuffleFrom(s, chars, n - 1) == Draw(Ok(p), []) {
        var ks := UsedIsSupply(s, chars, n - 1);
        SupplyIsUsed(s, [], ks, chars, n - 1);
        assert s + [] == s;
        ExactlyUniform(chars, p);
        assert js == ks;
      }
    }
    SomeWay(n);
  }

  lemma {:induction false} SuppliesLength(s: seq<uint32>, m: nat, js: seq<nat>, n: nat)
    requires 1 <= n <= |js| <= 256 && s in Supplies(m, js, n)
    ensures |s| == m
    decreases m
  {
    hide Prefixed, Limit;
    if n > 1 {
      FirstOfSupply(s, m, js, n);
      SuppliesLength(s[1..], m - 1, js, if s[0] < Limit(n) then n - 1 else n);
    }
  }

  lemma {:induction false} SomeWay(n: nat)
    requires 1 <= n <= 256
    ensures Ways(n - 1, n) >= 1
  {
    hide Limit, Times;
    if n > 1 {
      SomeWay(n - 1);
      LimitAboveHalf(n);
      TimesPositive(Limit(n) / n, Ways(n - 2, n - 1));
    }
  }

  lemma TimesPositive(a: nat, b: nat)
    requires a >= 1 && b >= 1
    ensures Times(a, b) >= 1
  {
    MulLe(a, 1, b);
  }
}
