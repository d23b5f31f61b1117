/** The Base58 notation of pubkey.token: digits, values, byte strings and the exact encoder. */
module Base58Spec {
  import opened Common
  import opened Powers

  // Characters and bytes are numbers below 256; a C string holds no zero byte.
  type Bytes = seq<int>

  ghost predicate IsBytes(s: Bytes) {
    forall i :: 0 <= i < |s| ==> 0 <= s[i] < 256
  }

  // isspace in the C locale.
  predicate IsSpace(c: int) {
    c == 32 || 9 <= c <= 13
  }

  const ONE := 49

  // mapBase58: the digit a character stands for, -1 if none.
  function Digit(c: int): (d: int)
    ensures -1 <= d < 58
  {
    if 49 <= c <= 57 then c - 49
    else if 65 <= c <= 72 then c - 56
    else if 74 <= c <= 78 then c - 57
    else if 80 <= c <= 90 then c - 58
    else if 97 <= c <= 107 then c - 64
    else if 109 <= c <= 122 then c - 65
    else -1
  }

  // pszBase58: the character of a digit.
  function Symbol(d: int): int
    requires 0 <= d < 58
  {
    if d <= 8 then d + 49
    else if d <= 16 then d + 56
    else if d <= 21 then d + 57
    else if d <= 32 then d + 58
    else if d <= 43 then d + 64
    else d + 65
  }

  /** The digits number, in ASCII order, the letters and decimal digits other than 0, I, O and l. */
  lemma AlphabetExact(c: char, d: char)
    ensures Digit(c as int) >= 0 <==>
              && ('0' <= c <= '9' || 'A' <= c <= 'Z' || 'a' <= c <= 'z')
              && c != '0' && c != 'I' && c != 'O' && c != 'l'
    ensures Digit(c as int) >= 0 && Digit(d as int) >= 0 && c < d ==> Digit(c as int) < Digit(d as int)
  {}

  /** The two tables are inverse to each other, and no symbol is whitespace or zero. */
  lemma TablesInverse(c: int, d: int)
    ensures 0 <= d < 58 ==> Digit(Symbol(d)) == d && 0 < Symbol(d) < 256 && !IsSpace(Symbol(d))
    ensures Digit(c) >= 0 ==> Symbol(Digit(c)) == c && !IsSpace(c) && c != 0
    ensures Digit(c) == 0 <==> c == ONE
  {}

  // ---- what a string denotes ----

  predicate NotSpace(c: int) {
    !IsSpace(c)
  }

  predicate IsOne(c: int) {
    c == ONE
  }

  predicate IsZero(c: int) {
    c == 0
  }

  // Length of the longest prefix whose elements all satisfy p.
  function Run(s: Bytes, p: int -> bool): (n: nat)
    ensures n <= |s|
  {
    if s != [] && p(s[0]) then 1 + Run(s[1..], p) else 0
  }

  lemma {:induction false} RunIs(s: Bytes, p: int -> bool, n: nat)
    requires n <= |s|
    requires forall i :: 0 <= i < n ==> p(s[i])
    requires n < |s| ==> !p(s[n])
    ensures Run(s, p) == n
  {
    if n > 0 {
      RunIs(s[1..], p, n - 1);
    }
  }

  lemma {:induction false} RunHolds(s: Bytes, p: int -> bool)
    ensures forall i :: 0 <= i < Run(s, p) ==> p(s[i])
    ensures Run(s, p) < |s| ==> !p(s[Run(s, p)])
  {
    if s != [] && p(s[0]) {
      RunHolds(s[1..], p);
      assert forall i :: 1 <= i < Run(s, p) ==> s[i] == s[1..][i - 1];
    }
  }

  function Trimmed(s: Bytes): Bytes {
    s[Run(s, IsSpace)..]
  }

  // The first word: what lies between the leading whitespace and the next whitespace.
  function Word(s: Bytes): Bytes {
    Trimmed(s)[..Run(Trimmed(s), NotSpace)]
  }

  function Tail(s: Bytes): Bytes {
    Trimmed(s)[Run(Trimmed(s), NotSpace)..]
  }

  ghost predicate AllDigits(w: Bytes) {
    forall i :: 0 <= i < |w| ==> Digit(w[i]) >= 0
  }

  ghost predicate WellFormed(s: Bytes) {
    && AllDigits(Word(s))
    && forall i :: 0 <= i < |Tail(s)| ==> IsSpace(Tail(s)[i])
  }

  // The number a string of base-58 digits denotes, most significant digit first.
  ghost function Value(w: Bytes): nat
    requires AllDigits(w)
  {
    if w == [] then 0 else Value(w[..|w| - 1]) * 58 + Digit(w[|w| - 1])
  }

  // The number a big-endian byte string denotes.
  function BigEndian(b: Bytes): int {
    if b == [] then 0 else b[0] * Pow(256, |b| - 1) + BigEndian(b[1..])
  }

  // The shortest big-endian byte string of a number.
  function MinBytes(v: nat): Bytes {
    if v == 0 then [] else MinBytes(v / 256) + [v % 256]
  }

  function Repeat(c: int, n: nat): (r: Bytes)
    ensures |r| == n && forall i :: 0 <= i < n ==> r[i] == c
  {
    seq(n, _ => c)
  }

  // What decoding means: a zero byte per leading '1', then the minimal bytes of the value.
  ghost function Decode(s: Bytes): Option<Bytes> {
    if WellFormed(s) then
      Some(Repeat(0, Run(Word(s), IsOne)) + MinBytes(Value(Word(s))))
    else
      None
  }

  // The number's base-58 digits without leading zeros.
  function Digits58(v: nat): Bytes {
    if v == 0 then [] else Digits58(v / 58) + [Symbol(v % 58)]
  }

  ghost function Encode(b: Bytes): Bytes
    requires IsBytes(b)
  {
    BigEndianBounds(b);
    Repeat(ONE, Run(b, IsZero)) + Digits58(BigEndian(b))
  }

  // ---- powers and positional values ----

  lemma {:induction false} BigEndianBounds(b: Bytes)
    requires IsBytes(b)
    ensures 0 <= BigEndian(b) < Pow(256, |b|)
  {
    if b != [] {
      BigEndianBounds(b[1..]);
      Between(b[0], 255, Pow(256, |b| - 1));
    }
  }

  lemma {:induction false} BigEndianZeros(b: Bytes, n: nat)
    requires n <= |b| && forall i :: 0 <= i < n ==> b[i] == 0
    ensures BigEndian(b) == BigEndian(b[n..])
  {
    if n == 0 {
      assert b[0..] == b;
    } else {
      BigEndianZeros(b[1..], n - 1);
      assert b[1..][n - 1..] == b[n..];
    }
  }

  lemma {:induction false} BigEndianLast(b: Bytes)
    requires b != []
    ensures BigEndian(b) == BigEndian(b[..|b| - 1]) * 256 + b[|b| - 1]
  {
    var n := |b|;
    if n == 1 {
      assert Pow(256, 0) == 1;
    } else {
      BigEndianLast(b[1..]);
      assert b[1..][..n - 2] == b[..n - 1][1..];
      var p := Pow(256, n - 2);
      assert Pow(256, n - 1) == 256 * p;
      assert b[0] * (256 * p) == b[0] * p * 256;
    }
  }

  /** Bytes that do not start with a zero are the minimal bytes of their value. */
  lemma {:induction false} MinBytesUnique(b: Bytes)
    requires IsBytes(b) && (b != [] ==> b[0] != 0)
    ensures BigEndian(b) >= 0 && MinBytes(BigEndian(b)) == b
  {
    BigEndianBounds(b);
    if b != [] {
      BigEndianLast(b);
      var init := b[..|b| - 1];
      MinBytesUnique(init);
      assert b == init + [b[|b| - 1]];
      if init != [] {
        Positive(init);
      }
    }
  }

  lemma {:induction false} Positive(b: Bytes)
    requires IsBytes(b) && b != [] && b[0] != 0
    ensures BigEndian(b) > 0
  {
    BigEndianBounds(b[1..]);
    Between(b[0] - 1, b[0] - 1, Pow(256, |b| - 1));
  }

  lemma {:induction false} MinBytesValue(v: nat)
    ensures IsBytes(MinBytes(v)) && BigEndian(MinBytes(v)) == v
    ensures v > 0 ==> MinBytes(v) != [] && MinBytes(v)[0] != 0
  {
    if v > 0 {
      MinBytesValue(v / 256);
      var m := MinBytes(v);
      assert m[..|m| - 1] == MinBytes(v / 256);
      BigEndianLast(m);
    }
  }

  lemma {:induction false} Digits58Value(v: nat)
    ensures AllDigits(Digits58(v)) && Value(Digits58(v)) == v
    ensures v > 0 ==> Digits58(v) != [] && Digits58(v)[0] != ONE
  {
    if v > 0 {
      Digits58Value(v / 58);
      TablesInverse(0, v % 58);
      TablesInverse(Symbol(v % 58), v % 58);
      var w := Digits58(v);
      assert w[..|w| - 1] == Digits58(v / 58);
    }
  }

  lemma {:induction false} Digits58Unique(w: Bytes)
    requires AllDigits(w) && (w != [] ==> w[0] != ONE)
    ensures Digits58(Value(w)) == w
    ensures w != [] ==> Value(w) > 0
  {
    if w != [] {
      var init := w[..|w| - 1];
      Digits58Unique(init);
      TablesInverse(w[|w| - 1], 0);
      assert w == init + [w[|w| - 1]];
      DivUnique(Value(w), 58, Value(init), Digit(w[|w| - 1]));
    }
  }

  lemma {:induction false} ValueOnes(w: Bytes, n: nat)
    requires AllDigits(w) && n <= |w| && forall i :: 0 <= i < n ==> w[i] == ONE
    ensures Value(w) == Value(w[n..])
  {
    if n == |w| {
      AllOnes(w);
    } else {
      ValueOnes(w[..|w| - 1], n);
      assert w[n..][..|w| - n - 1] == w[..|w| - 1][n..];
    }
  }

  lemma {:induction false} AllOnes(w: Bytes)
    requires forall i :: 0 <= i < |w| ==> w[i] == ONE
    ensures AllDigits(w) && Value(w) == 0
  {
    if w != [] {
      AllOnes(w[..|w| - 1]);
    }
  }

  // ---- round trips ----

  lemma WordOfDigits(w: Bytes)
    requires AllDigits(w)
    ensures Trimmed(w) == w && Word(w) == w && Tail(w) == []
  {
    forall i | 0 <= i < |w| ensures NotSpace(w[i]) {
      TablesInverse(w[i], 0);
    }
    RunIs(w, IsSpace, 0);
    RunIs(w, NotSpace, |w|);
  }

  // An encoding is a word of z ones, for the zero bytes, and the digits of the value.
  lemma EncodedWord(z: nat, v: nat)
    ensures var e := Repeat(ONE, z) + Digits58(v);
            AllDigits(e) && Word(e) == e && Tail(e) == [] && Run(e, IsOne) == z && Value(e) == v
  {
    hide Run, Value, Digits58;
    var e := Repeat(ONE, z) + Digits58(v);
    Digits58Value(v);
    assert AllDigits(e);
    assert e[z..] == Digits58(v);
    NoDigits();
    WordOfDigits(e);
    RunIs(e, IsOne, z);
    ValueOnes(e, z);
  }

  lemma NoDigits()
    ensures Digits58(0) == [] && MinBytes(0) == []
  {}

  /** Every byte string survives encoding and decoding. */
  lemma DecodeEncode(b: Bytes)
    requires IsBytes(b)
    ensures Decode(Encode(b)) == Some(b)
  {
    hide Run, Value, Digits58, BigEndian, MinBytes, Word, Tail;
    var z := Run(b, IsZero);
    RunHolds(b, IsZero);
    BigEndianBounds(b);
    BigEndianZeros(b, z);
    MinBytesUnique(b[z..]);
    assert b == Repeat(0, z) + b[z..];
    EncodedWord(z, BigEndian(b));
  }

  /** Whatever decodes is, up to surrounding whitespace, the encoding of its result. */
  lemma EncodeDecode(s: Bytes)
    requires Decode(s).Some?
    ensures IsBytes(Decode(s).value) && Encode(Decode(s).value) == Word(s)
  {
    hide Run, Value, Digits58, BigEndian;
    var w := Word(s);
    var n := Run(w, IsOne);
    RunHolds(w, IsOne);
    ValueOnes(w, n);
    Digits58Unique(w[n..]);
    var v := Value(w);
    MinBytesValue(v);
    var b := Decode(s).value;
    assert b == Repeat(0, n) + MinBytes(v) && b[n..] == MinBytes(v);
    RunIs(b, IsZero, n);
    BigEndianZeros(b, n);
    assert w == Repeat(ONE, n) + w[n..];
  }

  /** Two strings with the same decoding differ only in surrounding whitespace. */
  lemma DecodeInjective(s: Bytes, t: Bytes)
    requires Decode(s).Some? && Decode(s) == Decode(t)
    ensures Word(s) == Word(t)
  {
    EncodeDecode(s);
    EncodeDecode(t);
  }
}
