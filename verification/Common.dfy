/** Shared vocabulary of the flon contracts: account names, action outcomes and machine integers. */
module Common {

  // An eosio::name is its 64-bit value; tables and std::map order names by it.
  type Name = nat

  // The accounts that the contracts name: flon, flon.vote, flon.reward, flon.names and flon.fees.
  const SYSTEM: Name := 1
  const VOTE_ACCOUNT: Name := 2
  const REWARD_ACCOUNT: Name := 3
  const NAMES: Name := 4
  const FEES: Name := 5

  // A contract action either completes or is undone by a failed check.
  datatype Result<+T, +E> = Ok(value: T) | Err(error: E)

  datatype Option<+T> = None | Some(value: T)

  // eosio::asset keeps its amount within +/- (2^62 - 1); arithmetic that leaves the range aborts.
  const MAX_ASSET: int := 0x3FFF_FFFF_FFFF_FFFF

  const INT64_MAX: int := 0x7FFF_FFFF_FFFF_FFFF
  const TWO32: nat := 0x1_0000_0000
  const TWO64: int := 0x1_0000_0000_0000_0000
  const TWO127: int := 0x8000_0000_0000_0000_0000_0000_0000_0000
  const TWO128: int := 0x1_0000_0000_0000_0000_0000_0000_0000_0000

  /** What a 64-bit signed register holds after computing x. */
  function Int64(x: int): (r: int)
    ensures -INT64_MAX - 1 <= r <= INT64_MAX
    ensures -INT64_MAX - 1 <= x <= INT64_MAX ==> r == x
  {
    (x + INT64_MAX + 1) % TWO64 - INT64_MAX - 1
  }

  /** What a 128-bit signed register holds after computing x. */
  function Int128(x: int): (r: int)
    ensures -TWO127 <= r < TWO127
    ensures -TWO127 <= x < TWO127 ==> r == x
  {
    (x + TWO127) % TWO128 - TWO127
  }

  // block_timestamp::slot counts half seconds since 2000 in 32 bits.
  type Slot = s: nat | s < TWO32

  predicate StrictlySorted(s: seq<int>) {
    forall i, j :: 0 <= i < j < |s| ==> s[i] < s[j]
  }

  method IsStrictlySorted(list: seq<Name>) returns (sorted: bool)
    ensures sorted <==> StrictlySorted(list)
  {
    var i := 1;
    while i < |list|
      invariant 1 <= i
      invariant forall a, b :: 0 <= a < b < i && b < |list| ==> list[a] < list[b]
    {
      if list[i - 1] >= list[i] {
        return false;
      }
      i := i + 1;
    }
    return true;
  }

  ghost function Elements(s: seq<int>): set<int> {
    set x | x in s
  }

  lemma ElementsAppend(s: seq<int>, x: int)
    ensures Elements(s + [x]) == Elements(s) + {x}
  {
    assert forall y :: y in s + [x] <==> y in s || y == x;
  }

  lemma ElementsStep(s: seq<int>, i: nat)
    requires i < |s|
    ensures Elements(s[..i + 1]) == Elements(s[..i]) + {s[i]}
  {
    assert s[..i + 1] == s[..i] + [s[i]];
    ElementsAppend(s[..i], s[i]);
  }
}

/** Finite sums of integer-valued maps. */
module Sums {

  ghost function Sum<K(!new)>(m: map<K, int>): int
    decreases |m|
  {
    if m == map[] then 0
    else
      var k :| k in m;
      m[k] + Sum(m - {k})
  }

  lemma {:induction false} SumRemove<K(!new)>(m: map<K, int>, k: K)
    requires k in m
    ensures Sum(m) == m[k] + Sum(m - {k})
    decreases |m|
  {
    var j :| j in m && Sum(m) == m[j] + Sum(m - {j});
    if j != k {
      SumRemove(m - {j}, k);
      SumRemove(m - {k}, j);
      assert m - {j} - {k} == m - {k} - {j};
    }
  }

  lemma SumUpdate<K(!new)>(m: map<K, int>, k: K, v: int)
    ensures Sum(m[k := v]) == Sum(m) - (if k in m then m[k] else 0) + v
  {
    SumRemove(m[k := v], k);
    assert m[k := v] - {k} == m - {k};
    if k in m {
      SumRemove(m, k);
    } else {
      assert m - {k} == m;
    }
  }

  lemma Distribute(d: int, x: int, y: int)
    ensures d * (x + y) == d * x + d * y
  {}

  lemma {:induction false} SumLinear<K(!new)>(a: map<K, int>, b: map<K, int>, d: int, c: map<K, int>)
    requires a.Keys == b.Keys == c.Keys
    requires forall k :: k in a ==> c[k] == a[k] + d * b[k]
    ensures Sum(c) == Sum(a) + d * Sum(b)
    decreases |a|
  {
    if a == map[] {
      assert b == map[] && c == map[];
    } else {
      var k :| k in a;
      SumRemove(a, k);
      SumRemove(b, k);
      SumRemove(c, k);
      SumLinear(a - {k}, b - {k}, d, c - {k});
      Distribute(d, b[k], Sum(b - {k}));
    }
  }

  lemma {:induction false} SumMono<K(!new)>(a: map<K, int>, b: map<K, int>)
    requires a.Keys == b.Keys
    requires forall k :: k in a ==> a[k] <= b[k]
    ensures Sum(a) <= Sum(b)
    decreases |a|
  {
    if a == map[] {
      assert b == map[];
    } else {
      var k :| k in a;
      SumRemove(a, k);
      SumRemove(b, k);
      SumMono(a - {k}, b - {k});
    }
  }

  lemma {:induction false} SumZero<K(!new)>(m: map<K, int>)
    requires forall k :: k in m ==> m[k] == 0
    ensures Sum(m) == 0
    decreases |m|
  {
    if m != map[] {
      var k :| k in m;
      SumRemove(m, k);
      SumZero(m - {k});
    }
  }

  function At<K>(m: map<K, int>, k: K): int {
    if k in m then m[k] else 0
  }

  // The entrywise sum, an absent entry counting as zero.
  function Plus<K>(m: map<K, int>, d: map<K, int>): map<K, int> {
    map k | k in m.Keys + d.Keys :: At(m, k) + At(d, k)
  }

  lemma PlusStep<K(!new)>(m: map<K, int>, d: map<K, int>, k: K)
    requires k in d
    ensures Plus(m, d) == Plus(m, d - {k})[k := At(m, k) + d[k]]
    ensures At(Plus(m, d - {k}), k) == At(m, k)
  {
    var rest := d - {k};
    var stepped := Plus(m, rest)[k := At(m, k) + d[k]];
    assert rest.Keys == d.Keys - {k};
    assert Plus(m, d).Keys == stepped.Keys;
    forall j | j in stepped.Keys ensures Plus(m, d)[j] == stepped[j] {
      assert j != k ==> At(d, j) == At(rest, j);
    }
  }

  lemma {:induction false} SumPlus<K(!new)>(m: map<K, int>, d: map<K, int>)
    ensures Sum(Plus(m, d)) == Sum(m) + Sum(d)
    decreases |d|
  {
    if d == map[] {
      assert Plus(m, d) == m;
    } else {
      var k :| k in d;
      var rest := d - {k};
      SumPlus(m, rest);
      SumRemove(d, k);
      PlusStep(m, d, k);
      SumUpdate(Plus(m, rest), k, At(m, k) + d[k]);
    }
  }

  lemma SumUnion<K(!new)>(a: map<K, int>, b: map<K, int>)
    requires a.Keys !! b.Keys
    ensures Sum(a + b) == Sum(a) + Sum(b)
  {
    SumPlus(a, b);
    assert (a + b).Keys == Plus(a, b).Keys;
    assert a + b == Plus(a, b);
  }

  /** Entries that are zero can be dropped. */
  lemma SumSupport<K(!new)>(m: map<K, int>, keys: set<K>)
    requires keys <= m.Keys && forall k :: k in m && k !in keys ==> m[k] == 0
    ensures Sum(map k | k in keys :: m[k]) == Sum(m)
  {
    var support, rest := map k | k in keys :: m[k], m - keys;
    assert (support + rest).Keys == m.Keys;
    assert support + rest == m;
    SumUnion(support, rest);
    SumZero(rest);
  }

  lemma SumNonNegative<K(!new)>(m: map<K, int>)
    requires forall k :: k in m ==> m[k] >= 0
    ensures Sum(m) >= 0
  {
    var z := map k | k in m :: 0;
    SumZero(z);
    SumMono(z, m);
  }

  lemma SumTerm<K(!new)>(m: map<K, int>, k: K)
    requires k in m
    requires forall j :: j in m ==> m[j] >= 0
    ensures 0 <= m[k] <= Sum(m)
  {
    SumRemove(m, k);
    SumNonNegative(m - {k});
  }
}

/** Powers and quotients of natural numbers, and how they compare. */
module Powers {

  function Pow(b: nat, e: nat): (p: nat)
    ensures b > 0 ==> p > 0
  {
    if e == 0 then 1 else b * Pow(b, e - 1)
  }

  lemma Between(x: int, y: int, p: nat)
    requires 0 <= x <= y
    ensures 0 <= x * p <= y * p
  {
    assert (y - x) * p >= 0;
  }

  lemma DivUnique(x: nat, n: nat, q: nat, r: nat)
    requires n > 0 && r < n && x == n * q + r
    ensures x / n == q && x % n == r
  {
    assert n * (x / n - q) == r - x % n;
    if x / n > q {
      Between(1, x / n - q, n);
    } else if x / n < q {
      Between(1, q - x / n, n);
    }
  }

  lemma DivGrows(x: nat, y: nat, p: nat)
    requires x <= y && p > 0
    ensures x / p <= y / p
  {
    if x / p > y / p {
      Between(1, x / p - y / p, p);
    }
  }

  lemma Associate(x: int, y: int, z: int)
    ensures x * (y * z) == x * y * z
  {}

  lemma DivShrinks(x: nat, p: nat, q: nat)
    requires 0 < p <= q
    ensures x / q <= x / p
  {
    var n := x / q;
    Between(p, q, n);
    assert n * p <= x;
    DivGrows(n * p, x, p);
    DivUnique(n * p, p, n, 0);
  }

  lemma {:induction false} PowAdd(b: nat, e: nat, f: nat)
    ensures Pow(b, e + f) == Pow(b, e) * Pow(b, f)
  {
    if e > 0 {
      PowAdd(b, e - 1, f);
      Associate(b, Pow(b, e - 1), Pow(b, f));
    }
  }

  lemma {:induction false} PowMul(b: nat, e: nat, f: nat)
    ensures Pow(Pow(b, e), f) == Pow(b, e * f)
  {
    if f > 0 {
      PowMul(b, e, f - 1);
      PowAdd(b, e, e * (f - 1));
      assert e + e * (f - 1) == e * f;
    }
  }

  lemma ProductGrows(x: nat, y: nat, p: nat, q: nat)
    requires x <= y && p <= q
    ensures x * p <= y * q
    ensures x < y && q > 0 ==> x * p < y * q
  {
    Between(p, q, x);
    Between(x, y, q);
    if x < y && q > 0 {
      Between(1, y - x, q);
      assert y * q == x * q + (y - x) * q;
    }
  }

  lemma {:induction false} PowGrowsInBase(x: nat, y: nat, e: nat)
    requires x <= y
    ensures Pow(x, e) <= Pow(y, e)
    ensures e > 0 && x < y ==> Pow(x, e) < Pow(y, e)
  {
    if e > 0 {
      PowGrowsInBase(x, y, e - 1);
      ProductGrows(x, y, Pow(x, e - 1), Pow(y, e - 1));
    }
  }

  lemma {:induction false} PowGrowsInExponent(b: nat, e: nat, f: nat)
    requires b > 0 && e <= f
    ensures Pow(b, e) <= Pow(b, f)
  {
    PowAdd(b, e, f - e);
    Between(1, Pow(b, f - e), Pow(b, e));
  }

  lemma PowSwap(b: nat, e: nat, f: nat)
    ensures Pow(Pow(b, e), f) == Pow(Pow(b, f), e)
  {
    PowMul(b, e, f);
    PowMul(b, f, e);
    assert e * f == f * e;
  }

  lemma TowersCompare(c: nat, e: nat, f: nat, g: nat, h: nat)
    requires c > 0 && e * f <= g * h
    ensures Pow(Pow(c, e), f) <= Pow(Pow(c, g), h)
  {
    hide Pow;
    PowMul(c, e, f);
    PowMul(c, g, h);
    PowGrowsInExponent(c, e * f, g * h);
  }

  lemma Root(x: nat, y: nat, e: nat)
    requires e > 0 && Pow(x, e) <= Pow(y, e)
    ensures x <= y
  {
    if x > y {
      PowGrowsInBase(y, x, e);
    }
  }

  // From b^p <= c^q to b^n <= c^m, for any n and m with m/n at least q/p.
  lemma LogBound(b: nat, c: nat, p: nat, q: nat, n: nat, m: nat)
    requires p > 0 && c > 0 && Pow(b, p) <= Pow(c, q) && q * n <= p * m
    ensures Pow(b, n) <= Pow(c, m)
  {
    hide Pow;
    PowSwap(b, p, n);
    PowSwap(c, m, p);
    PowGrowsInBase(Pow(b, p), Pow(c, q), n);
    TowersCompare(c, q, n, p, m);
    Root(Pow(b, n), Pow(c, m), p);
  }
}
