/** The decoder of pubkey.token: an in-place base conversion in a buffer of estimated size. */
module Base58Decoder {
  import opened Common
  import opened Powers
  import opened Base58Spec

  // size_t has 32 bits in WebAssembly, so the product may wrap.
  function BufferSize(n: nat): nat {
    n * 733 % TWO32 / 1000 + 1
  }

  // Length of what follows the leading whitespace and '1's.
  ghost function Significant(s: Bytes): nat {
    |Trimmed(s)| - Run(Trimmed(s), IsOne)
  }

  // The value fits the buffer that the decoder allocates for s.
  ghost predicate Fits(s: Bytes)
    requires AllDigits(Word(s))
  {
    Value(Word(s)) < Pow(256, BufferSize(Significant(s)))
  }

  // ---- the buffer estimate is a logarithm bound ----

  // 58^71 = 58^(4 * 17 + 3) against 256^52 = 256^(4 * 13).
  lemma BaseRatio()
    ensures Pow(58, 71) <= Pow(256, 52) && Pow(256, 1) <= Pow(58, 2)
  {
    SmallPowers();
    hide Pow;
    var p, q := 0xc018588c2b6cc46cf08ba0000, 0x100000000000000000000000000;
    PowAdd(58, 17, 17);
    PowAdd(58, 34, 34);
    PowAdd(58, 68, 3);
    assert Pow(58, 71) == p * p * (p * p) * 195112;
    PowAdd(256, 13, 13);
    PowAdd(256, 26, 26);
    assert Pow(256, 52) == q * q * (q * q);
  }

  lemma SmallPowers()
    ensures Pow(58, 2) == 3364 && Pow(58, 3) == 195112 && Pow(58, 17) == 0xc018588c2b6cc46cf08ba0000
    ensures Pow(256, 1) == 256 && Pow(256, 13) == 0x100000000000000000000000000
  {
    assert Pow(58, 1) == 58 && Pow(256, 1) == 256;
    hide Pow;
    PowAdd(58, 1, 1);
    PowAdd(58, 1, 2);
    PowAdd(58, 2, 2);
    PowAdd(58, 4, 4);
    assert Pow(58, 8) == 128063081718016;
    PowAdd(58, 8, 8);
    assert Pow(58, 16) == 0x34fde3761da26b26e1410000;
    PowAdd(58, 1, 16);
    PowAdd(256, 1, 1);
    PowAdd(256, 1, 2);
    PowAdd(256, 3, 3);
    assert Pow(256, 6) == 0x1000000000000;
    PowAdd(256, 6, 6);
    PowAdd(256, 1, 12);
  }

  // 733/1000 exceeds 52/71.
  lemma BufferAdequate(n: nat)
    requires n * 733 < TWO32
    ensures Pow(58, n) <= Pow(256, BufferSize(n))
  {
    hide Pow;
    BaseRatio();
    LogBound(58, 256, 71, 52, n, BufferSize(n));
  }

  lemma {:induction false} ValueBounds(w: Bytes)
    requires AllDigits(w)
    ensures Value(w) < Pow(58, |w|)
    ensures w != [] && w[0] != ONE ==> Pow(58, |w| - 1) <= Value(w)
  {
    if w != [] {
      ValueBounds(w[..|w| - 1]);
      TablesInverse(w[0], 0);
      if |w| == 1 {
        assert Pow(58, 0) == 1;
        assert Value(w[..0]) == 0;
      }
    }
  }

  lemma {:induction false} ValueGrows(w: Bytes, k: nat)
    requires AllDigits(w) && k <= |w|
    ensures Value(w[..k]) <= Value(w)
  {
    if k == |w| {
      assert w[..k] == w;
    } else {
      ValueGrows(w[..|w| - 1], k);
      assert w[..|w| - 1][..k] == w[..k];
    }
  }

  lemma OnesInWord(s: Bytes)
    ensures Run(Trimmed(s), IsOne) == Run(Word(s), IsOne)
    ensures Run(Word(s), IsOne) <= |Word(s)| <= |Trimmed(s)|
  {
    var t, n := Trimmed(s), Run(Trimmed(s), IsOne);
    RunHolds(t, IsOne);
    RunHolds(t, NotSpace);
    RunIs(Word(s), IsOne, n);
  }

  /** The buffer always holds the value, so a carry out of it is never what rejects a string. */
  lemma ValueFits(s: Bytes)
    requires Significant(s) * 733 < TWO32 && WellFormed(s)
    ensures Fits(s)
  {
    var w, n := Word(s), Run(Word(s), IsOne);
    OnesInWord(s);
    RunHolds(w, IsOne);
    ValueOnes(w, n);
    ValueBounds(w[n..]);
    PowGrowsInExponent(58, |w| - n, Significant(s));
    BufferAdequate(Significant(s));
  }

  // Past the wrap the buffer is less than half as long as the digits.
  lemma WrappedSize(n: nat)
    requires n * 733 >= TWO32
    ensures 2 * BufferSize(n) <= n - 1
  {}

  /**
   * Exactly when the size computation wraps does the buffer fail to hold a well-formed string without
   * trailing whitespace, which would count towards the length.
   */
  lemma FitsUnlessWrapped(s: Bytes)
    requires WellFormed(s) && Tail(s) == []
    ensures Fits(s) <==> Significant(s) * 733 < TWO32
  {
    hide Pow, Run, BufferSize, Value, Trimmed;
    var w, n := Word(s), Run(Word(s), IsOne);
    if Significant(s) * 733 < TWO32 {
      ValueFits(s);
    } else {
      OnesInWord(s);
      RunHolds(w, IsOne);
      ValueOnes(w, n);
      ValueBounds(w[n..]);
      WrappedSize(|w| - n);
      BaseRatio();
      LogBound(256, 58, 1, 2, BufferSize(|w| - n), |w| - n - 1);
    }
  }

  lemma FitsWhen(s: Bytes)
    ensures WellFormed(s) && Significant(s) * 733 < TWO32 ==> Fits(s)
    ensures WellFormed(s) && Tail(s) == [] ==> (Fits(s) <==> Significant(s) * 733 < TWO32)
  {
    if WellFormed(s) && Significant(s) * 733 < TWO32 {
      ValueFits(s);
    }
    if WellFormed(s) && Tail(s) == [] {
      FitsUnlessWrapped(s);
    }
  }

  // ---- the conversion ----

  // Bytes above the last n are zero; this is what lets the inner loop stop early.
  ghost predicate ZeroAbove(b: Bytes, n: nat) {
    n <= |b| && forall k :: 0 <= k < |b| - n ==> b[k] == 0
  }

  // The last i bytes of `now` hold 58 times those of `was` plus the digit, up to the carry.
  ghost predicate Converted(was: Bytes, now: Bytes, i: nat, digit: int, carry: int) {
    && |now| == |was| && i <= |was| && IsBytes(now)
    && now[..|was| - i] == was[..|was| - i]
    && 0 <= carry < 58
    && BigEndian(now[|was| - i..]) + carry * Pow(256, i) == 58 * BigEndian(was[|was| - i..]) + digit
  }

  lemma CarryStep(carry: int, b: int, p: int, low: int, was: int, digit: int)
    requires low + carry * p == 58 * was + digit
    ensures var x := carry + 58 * b;
            (x % 256) * p + low + (x / 256) * (256 * p) == 58 * (b * p + was) + digit
  {
    var x := carry + 58 * b;
    assert (x % 256) * p + (x / 256) * (256 * p) == (x % 256 + 256 * (x / 256)) * p;
    assert x * p == carry * p + 58 * (b * p);
  }

  lemma ConvertStep(was: Bytes, now: Bytes, i: nat, digit: int, carry: int)
    requires Converted(was, now, i, digit, carry) && i < |was|
    ensures var at := |was| - 1 - i;
            var x := carry + 58 * now[at];
            Converted(was, now[at := x % 256], i + 1, digit, x / 256)
  {
    var at := |was| - 1 - i;
    var x := carry + 58 * now[at];
    var next := now[at := x % 256];
    assert now[at] == now[..at + 1][at] == was[..at + 1][at] == was[at];
    assert next[at..][1..] == now[at + 1..] && was[at..][1..] == was[at + 1..];
    assert next[..at] == was[..at] by {
      assert now[..at + 1][..at] == now[..at] && was[..at + 1][..at] == was[..at];
    }
    CarryStep(carry, now[at], Pow(256, i), BigEndian(now[at + 1..]), BigEndian(was[at + 1..]), digit);
  }

  lemma ConvertDone(was: Bytes, now: Bytes, i: nat, length: nat, digit: int, carry: int)
    requires Converted(was, now, i, digit, carry) && ZeroAbove(was, length)
    requires i == |was| || (carry == 0 && length <= i)
    ensures BigEndian(now) + carry * Pow(256, |was|) == 58 * BigEndian(was) + digit
    ensures ZeroAbove(now, i)
  {
    hide BigEndian, Pow;
    var high := |was| - i;
    forall k | 0 <= k < high ensures now[k] == was[k] == 0 {
      assert now[..high][k] == was[..high][k];
    }
    BigEndianZeros(was, high);
    BigEndianZeros(now, high);
    if i == |was| {
    } else {
      assert carry * Pow(256, i) == 0 == carry * Pow(256, |was|);
    }
  }

  /** The inner loop: the buffer becomes 58 times itself plus the digit. */
  method MultiplyAdd(b256: array<int>, length: nat, digit: int) returns (carry: int, used: nat)
    requires IsBytes(b256[..]) && ZeroAbove(b256[..], length) && 0 <= digit < 58
    modifies b256
    ensures IsBytes(b256[..]) && ZeroAbove(b256[..], used) && carry >= 0
    ensures BigEndian(b256[..]) + carry * Pow(256, b256.Length) == 58 * BigEndian(old(b256[..])) + digit
  {
    hide BigEndian, Pow;
    carry, used := digit, 0;
    ghost var was := b256[..];
    ConvertStart(was, digit);
    while (carry != 0 || used < length) && used != b256.Length
      invariant Converted(was, b256[..], used, digit, carry)
      decreases b256.Length - used
    {
      ConvertStep(was, b256[..], used, digit, carry);
      var at := b256.Length - 1 - used;
      carry := carry + 58 * b256[at];
      b256[at] := carry % 256;
      carry := carry / 256;
      used := used + 1;
    }
    ConvertDone(was, b256[..], used, length, digit, carry);
  }

  lemma ConvertStart(was: Bytes, digit: int)
    requires IsBytes(was) && 0 <= digit < 58
    ensures Converted(was, was, 0, digit, digit)
  {
    assert was[|was|..] == [];
  }

  // The first k characters after the leading whitespace are digits, and the buffer holds their value.
  ghost predicate Progress(t: Bytes, k: nat, b256: Bytes, length: nat) {
    && k <= |t| && AllDigits(t[..k])
    && (forall i :: 0 <= i < k ==> NotSpace(t[i]))
    && IsBytes(b256) && ZeroAbove(b256, length)
    && BigEndian(b256) == Value(t[..k])
  }

  lemma ProgressStart(t: Bytes, k: nat, b256: Bytes)
    requires k <= |t| && forall i :: 0 <= i < k ==> t[i] == ONE
    requires forall i :: 0 <= i < |b256| ==> b256[i] == 0
    ensures Progress(t, k, b256, 0)
  {
    AllOnes(t[..k]);
    BigEndianZeros(b256, |b256|);
  }

  lemma {:induction false} RunAtLeast(s: Bytes, p: int -> bool, n: nat)
    requires n <= |s| && forall i :: 0 <= i < n ==> p(s[i])
    ensures Run(s, p) >= n
  {
    if n > 0 {
      RunAtLeast(s[1..], p, n - 1);
    }
  }

  // The prefix t[..n] lies inside the word.
  lemma InWord(s: Bytes, n: nat)
    requires n <= |Trimmed(s)| && forall i :: 0 <= i < n ==> NotSpace(Trimmed(s)[i])
    ensures n <= |Word(s)| && Word(s)[..n] == Trimmed(s)[..n]
  {
    RunAtLeast(Trimmed(s), NotSpace, n);
  }

  lemma DigitStep(s: Bytes, k: nat, b256: Bytes, length: nat, next: Bytes, used: nat, carry: int)
    requires Progress(Trimmed(s), k, b256, length)
    requires k < |Trimmed(s)| && NotSpace(Trimmed(s)[k]) && Digit(Trimmed(s)[k]) >= 0
    requires IsBytes(next) && ZeroAbove(next, used) && carry >= 0
    requires |next| == BufferSize(Significant(s))
    requires BigEndian(next) + carry * Pow(256, |next|) == 58 * BigEndian(b256) + Digit(Trimmed(s)[k])
    ensures carry == 0 ==> Progress(Trimmed(s), k + 1, next, used)
    ensures carry != 0 ==> !(WellFormed(s) && Fits(s))
  {
    hide BigEndian, Pow, BufferSize, Trimmed, Digit;
    var w := Trimmed(s)[..k + 1];
    assert w[..k] == Trimmed(s)[..k];
    assert Value(w) == Value(w[..k]) * 58 + Digit(w[k]);
    if carry != 0 && WellFormed(s) {
      InWord(s, k + 1);
      ValueGrows(Word(s), k + 1);
      BigEndianBounds(next);
      Between(1, carry, Pow(256, |next|));
    }
  }

  lemma BadCharacter(s: Bytes, k: nat)
    requires k < |Trimmed(s)| && forall i :: 0 <= i <= k ==> NotSpace(Trimmed(s)[i])
    requires Digit(Trimmed(s)[k]) == -1
    ensures !WellFormed(s)
  {
    InWord(s, k + 1);
    assert Word(s)[..k + 1][k] == Trimmed(s)[k];
  }

  // After the word and the following whitespace, anything left makes the string invalid.
  lemma ScanEnds(s: Bytes, k: nat, end: nat)
    requires k <= end <= |Trimmed(s)| && AllDigits(Trimmed(s)[..k])
    requires forall i :: 0 <= i < k ==> NotSpace(Trimmed(s)[i])
    requires forall i :: k <= i < end ==> IsSpace(Trimmed(s)[i])
    requires end < |Trimmed(s)| ==> !IsSpace(Trimmed(s)[end])
    requires k == end ==> k == |Trimmed(s)|
    ensures Word(s) == Trimmed(s)[..k]
    ensures WellFormed(s) <==> end == |Trimmed(s)|
  {
    RunIs(Trimmed(s), NotSpace, k);
    var tail := Tail(s);
    assert tail == Trimmed(s)[k..];
    if end < |Trimmed(s)| {
      assert tail[end - k] == Trimmed(s)[end];
    }
  }

  // The bytes below the skipped zeros are the minimal bytes of the value.
  lemma Result(s: Bytes, b256: Bytes, at: nat)
    requires WellFormed(s) && IsBytes(b256) && BigEndian(b256) == Value(Word(s))
    requires at <= |b256| && forall i :: 0 <= i < at ==> b256[i] == 0
    requires at < |b256| ==> b256[at] != 0
    ensures Decode(s) == Some(Repeat(0, Run(Trimmed(s), IsOne)) + b256[at..])
    ensures |b256| == BufferSize(Significant(s)) ==> Fits(s)
  {
    BigEndianBounds(b256);
    BigEndianZeros(b256, at);
    MinBytesUnique(b256[at..]);
    OnesInWord(s);
  }

  lemma TrimmedIs(s: Bytes, n: nat)
    requires n <= |s| && forall i :: 0 <= i < n ==> IsSpace(s[i])
    requires n < |s| ==> !IsSpace(s[n])
    ensures Trimmed(s) == s[n..]
  {
    RunIs(s, IsSpace, n);
  }

  // The first byte, from the used part of the buffer on, that is not zero.
  method SkipZeros(b256: array<int>, length: nat) returns (it: nat)
    requires ZeroAbove(b256[..], length)
    ensures it <= b256.Length && forall i :: 0 <= i < it ==> b256[..][i] == 0
    ensures it < b256.Length ==> b256[it] != 0
  {
    assert forall k :: 0 <= k < b256.Length - length ==> b256[..][k] == 0;
    it := b256.Length - length;
    while it != b256.Length && b256[it] == 0
      invariant b256.Length - length <= it <= b256.Length && forall i :: 0 <= i < it ==> b256[i] == 0
      decreases b256.Length - it
    {
      it := it + 1;
    }
  }

  /** Decoding succeeds exactly on well-formed strings whose value fits the buffer, which is every
      well-formed string as long as the size computation does not wrap, and yields the bytes it denotes. */
  method DecodeBase58(psz: Bytes) returns (ok: bool, vch: Bytes)
    requires IsBytes(psz) && 0 !in psz
    ensures ok <==> WellFormed(psz) && Fits(psz)
    ensures ok ==> Decode(psz) == Some(vch)
    ensures Significant(psz) * 733 < TWO32 ==> (ok <==> Decode(psz).Some?)
    ensures Tail(psz) == [] ==> (ok <==> Decode(psz).Some? && Significant(psz) * 733 < TWO32)
  {
    hide BigEndian, Pow, Value, Digit, Run, BufferSize, Fits, Word, Tail, Trimmed, WellFormed, IsBytes, ZeroAbove;
    FitsWhen(psz);
    var p := 0;
    while p < |psz| && IsSpace(psz[p])
      invariant p <= |psz| && forall i :: 0 <= i < p ==> IsSpace(psz[i])
    {
      p := p + 1;
    }
    ghost var t, start := Trimmed(psz), p;
    TrimmedIs(psz, p);
    var zeroes := 0;
    while p < |psz| && psz[p] == ONE
      invariant p == start + zeroes <= |psz| && forall i :: 0 <= i < zeroes ==> t[i] == ONE
    {
      zeroes, p := zeroes + 1, p + 1;
    }
    RunIs(t, IsOne, zeroes);
    var size := BufferSize(|psz| - p);
    var b256 := new int[size](_ => 0);
    var length := 0;
    ProgressStart(t, zeroes, b256[..]);
    while p < |psz| && !IsSpace(psz[p])
      invariant start <= p <= |psz| && Progress(t, p - start, b256[..], length)
    {
      var carry := Digit(psz[p]);
      if carry == -1 {
        BadCharacter(psz, p - start);
        return false, [];
      }
      ghost var was := b256[..];
      var used;
      carry, used := MultiplyAdd(b256, length, carry);
      DigitStep(psz, p - start, was, length, b256[..], used, carry);
      if carry != 0 {
        return false, [];
      }
      length := used;
      p := p + 1;
    }
    ghost var end := p - start;
    while p < |psz| && IsSpace(psz[p])
      invariant start + end <= p <= |psz| && forall i :: end <= i < p - start ==> IsSpace(t[i])
      invariant p == start + end ==> p == |psz| || IsSpace(psz[p])
    {
      p := p + 1;
    }
    ScanEnds(psz, end, p - start);
    if p < |psz| {
      return false, [];
    }
    var it := SkipZeros(b256, length);
    Result(psz, b256[..], it);
    ok, vch := true, Repeat(0, zeroes) + b256[it..];
  }
}
