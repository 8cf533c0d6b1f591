// Repacking four-bit expert weights: two to a byte on the way in, eight to a signed
// 32-bit word on the way out, lowest position first.

module Bits {
  import Arith

  // Bitwise or and and of naturals, bit by bit.
  function Or(a: nat, b: nat): nat {
    if a == 0 && b == 0 then 0
    else 2 * Or(a / 2, b / 2) + if a % 2 == 1 || b % 2 == 1 then 1 else 0
  }

  function And(a: nat, b: nat): nat {
    if a == 0 || b == 0 then 0
    else 2 * And(a / 2, b / 2) + if a % 2 == 1 && b % 2 == 1 then 1 else 0
  }

  // Shifts by j nibbles; to the right rounding down, as an arithmetic shift does.
  function Shl4(x: nat, j: nat): nat { if j == 0 then x else 16 * Shl4(x, j - 1) }

  function Shr4(x: int, j: nat): int
    decreases j
  {
    if j == 0 then x else Shr4(x / 16, j - 1)
  }

  lemma AndOdd(x: nat, k: nat)
    ensures And(x, 2 * k + 1) == 2 * And(x / 2, k) + x % 2
  {
    if x == 0 { assert And(0, k) == 0; }
    assert (2 * k + 1) / 2 == k;
  }

  lemma HalfMod(x: nat, m: nat)
    requires m > 0
    ensures x % (2 * m) == 2 * ((x / 2) % m) + x % 2
  {
    var q, r := x / (2 * m), x % (2 * m);
    Arith.DivMod(x, 2 * m);
    Arith.Assoc(q, 2, m);
    var h := q * m;
    assert q * (2 * m) == 2 * h;
    assert x == 2 * h + r && x / 2 == h + r / 2;
    Arith.DivModUnique(q, m, r / 2);
  }

  // Masking with 0xF leaves the low nibble.
  lemma LowNibble(x: nat)
    ensures And(x, 15) == x % 16
  {
    AndOdd(x, 7);
    AndOdd(x / 2, 3);
    AndOdd(x / 2 / 2, 1);
    AndOdd(x / 2 / 2 / 2, 0);
    HalfMod(x, 8);
    HalfMod(x / 2, 4);
    HalfMod(x / 2 / 2, 2);
  }

  lemma {:induction false} OrZero(a: nat)
    ensures Or(a, 0) == a && Or(0, a) == a
    decreases a
  {
    if a > 0 { OrZero(a / 2); }
  }

  lemma OrBit(a: nat, y: nat)
    ensures Or(a, 2 * y) == 2 * Or(a / 2, y) + a % 2
  {
  }

  lemma OrTwoBits(a: nat, y: nat)
    ensures Or(a, 4 * y) == 4 * Or(a / 4, y) + a % 4
  {
    OrBit(a, 2 * y);
    OrBit(a / 2, y);
    assert a / 2 / 2 == a / 4;
  }

  lemma OrNibble(a: nat, y: nat)
    ensures Or(a, 16 * y) == 16 * Or(a / 16, y) + a % 16
  {
    OrTwoBits(a, 4 * y);
    OrTwoBits(a / 4, y);
    assert a / 4 / 4 == a / 16;
  }

  // Or-ing a shifted value onto lower bits adds it.
  lemma {:induction false} OrIsSum(a: nat, q: nat, j: nat)
    requires a < Shl4(1, j)
    ensures Or(a, Shl4(q, j)) == a + Shl4(q, j)
  {
    if j == 0 {
      OrZero(q);
    } else {
      OrNibble(a, Shl4(q, j - 1));
      OrIsSum(a / 16, q, j - 1);
    }
  }

  lemma {:induction false} ShlBelow(q: nat, j: nat)
    requires q < 16
    ensures Shl4(q, j) + Shl4(1, j) <= Shl4(1, j + 1)
  {
    if j > 0 { ShlBelow(q, j - 1); }
  }

  lemma {:induction false} ShrDrops(x: int, k: nat, j: nat)
    requires j < k
    ensures Shr4(x - Shl4(1, k), j) % 16 == Shr4(x, j) % 16
    decreases j
  {
    assert Shl4(1, k) == 16 * Shl4(1, k - 1);
    if j > 0 {
      assert (x - 16 * Shl4(1, k - 1)) / 16 == x / 16 - Shl4(1, k - 1);
      ShrDrops(x / 16, k - 1, j - 1);
    }
  }
}

module GptqRepack {
  import opened Bits

  const WORD: nat := 0x1_0000_0000

  type Byte = x: nat | x < 256

  // A nibble read as two's complement.
  function Signed(x: nat): int { if x >= 8 then x - 16 else x }

  function LowOf(b: nat): nat { And(b, 15) }

  function HighOf(b: nat): nat { And(b / 16, 15) }

  // The digit stored for a signed value, through the unsigned cast.
  function Digit(s: int): nat { And((s + 8) % WORD, 15) }

  function AsInt32(w: nat): int { if w >= WORD / 2 then w - WORD else w }

  // What a reader of position j of a word gets back.
  function Unpacked(v: int, j: nat): int { Shr4(v, j) % 16 - 8 }

  // The first k digits as a base-16 number.
  function Positional(d: seq<nat>, k: nat): nat
    requires k <= |d|
  {
    if k == 0 then 0 else Positional(d, k - 1) + Shl4(d[k - 1], k - 1)
  }

  ghost predicate Digits(d: seq<nat>) { forall j | 0 <= j < |d| :: d[j] < 16 }

  // ---- digits of words -----------------------------------------------------------------------------------

  lemma {:induction false} PositionalFits(d: seq<nat>, k: nat)
    requires Digits(d) && k <= |d|
    ensures Positional(d, k) < Shl4(1, k)
  {
    if k > 0 {
      PositionalFits(d, k - 1);
      ShlBelow(d[k - 1], k - 1);
    }
  }

  // One more or is one more digit.
  lemma OrAppendsDigit(d: seq<nat>, k: nat)
    requires Digits(d) && k < |d|
    ensures Or(Positional(d, k), Shl4(d[k], k)) == Positional(d, k + 1)
  {
    PositionalFits(d, k);
    OrIsSum(Positional(d, k), d[k], k);
  }

  lemma {:induction false} PositionalTail(d: seq<nat>, k: nat)
    requires 0 < k <= |d|
    ensures Positional(d, k) == d[0] + 16 * Positional(d[1..], k - 1)
  {
    if k > 1 { PositionalTail(d, k - 1); }
  }

  lemma {:induction false} DigitOfPositional(d: seq<nat>, k: nat, j: nat)
    requires Digits(d) && j < k <= |d|
    ensures Shr4(Positional(d, k), j) % 16 == d[j]
    decreases j
  {
    PositionalTail(d, k);
    if j > 0 {
      assert Positional(d, k) / 16 == Positional(d[1..], k - 1);
      DigitOfPositional(d[1..], k - 1, j - 1);
    }
  }

  // Every digit survives the cast to a signed word, high bit set or not.
  lemma WordKeepsDigits(d: seq<nat>, j: nat)
    requires Digits(d) && |d| == 8 && j < 8
    ensures Shr4(AsInt32(Positional(d, 8)), j) % 16 == d[j]
    ensures -(WORD / 2) <= AsInt32(Positional(d, 8)) < WORD / 2
  {
    PositionalFits(d, 8);
    assert Shl4(1, 8) == WORD by { EightNibbles(); }
    DigitOfPositional(d, 8, j);
    ShrDrops(Positional(d, 8), 8, j);
  }

  lemma EightNibbles()
    ensures Shl4(1, 8) == WORD
  {
    assert Shl4(1, 4) == 65536;
    assert Shl4(1, 6) == 256 * Shl4(1, 4);
    assert Shl4(1, 8) == 256 * Shl4(1, 6);
  }

  lemma DigitIsNibble(s: int)
    ensures Digit(s) == (s + 8) % 16 && Digit(s) < 16
  {
    LowNibble((s + 8) % WORD);
    WholeNibbles(s + 8);
  }

  lemma WholeNibbles(x: int)
    ensures x % WORD % 16 == x % 16
  {
    var q, r := x / WORD, x % WORD;
    var a, b := r / 16, r % 16;
    assert x == WORD * q + r && r == 16 * a + b;
    Remainder16(x, 0x1000_0000 * q + a, b);
  }

  lemma Remainder16(x: int, k: int, b: int)
    requires 0 <= b < 16 && x == 16 * k + b
    ensures x % 16 == b
  {
  }

  // Words with the same digits differ by a multiple of the whole.
  lemma {:induction false} SameDigits(x: int, y: int, k: nat) returns (q: int)
    requires forall j: nat | j < k :: Shr4(x, j) % 16 == Shr4(y, j) % 16
    ensures x - y == q * Shl4(1, k)
    decreases k
  {
    if k == 0 {
      q := x - y;
    } else {
      assert Shr4(x, 0) == x && Shr4(y, 0) == y;
      forall j: nat | j < k - 1 ensures Shr4(x / 16, j) % 16 == Shr4(y / 16, j) % 16 {
        assert Shr4(x, j + 1) == Shr4(x / 16, j) && Shr4(y, j + 1) == Shr4(y / 16, j);
        var next := j + 1;
        assert Shr4(x, next) % 16 == Shr4(y, next) % 16;
      }
      q := SameDigits(x / 16, y / 16, k - 1);
      Sixteen(q, Shl4(1, k - 1));
    }
  }

  lemma Sixteen(q: int, s: nat)
    ensures 16 * (q * s) == q * (16 * s)
  {
  }

  // So eight digits pin a signed word down.
  lemma DigitsDetermineWord(x: int, y: int)
    requires -(WORD / 2) <= x < WORD / 2 && -(WORD / 2) <= y < WORD / 2
    requires forall j: nat | j < 8 :: Unpacked(x, j) == Unpacked(y, j)
    ensures x == y
  {
    forall j: nat | j < 8 ensures Shr4(x, j) % 16 == Shr4(y, j) % 16 {
      assert Unpacked(x, j) == Unpacked(y, j);
    }
    var q := SameDigits(x, y, 8);
    EightNibbles();
    assert q * WORD == x - y;
  }

  // ---- the two routines --------------------------------------------------------------------------------

  // The signed value at column i of a row of packed bytes.
  function SignedAt(pk: array2<Byte>, r: nat, i: nat): int
    requires r < pk.Length0 && i < 2 * pk.Length1
    reads pk
  {
    Signed(if i % 2 == 0 then LowOf(pk[r, i / 2]) else HighOf(pk[r, i / 2]))
  }

  lemma EvenOdd(c: nat)
    ensures 2 * c % 2 == 0 && 2 * c / 2 == c && (2 * c + 1) % 2 == 1 && (2 * c + 1) / 2 == c
  {
  }

  method W4Signed(pk: array2<Byte>) returns (o: array2<int>)
    ensures fresh(o) && o.Length0 == pk.Length0 && o.Length1 == 2 * pk.Length1
    ensures forall r: nat, i: nat | r < o.Length0 && i < o.Length1 :: o[r, i] == SignedAt(pk, r, i)
  {
    o := new int[pk.Length0, 2 * pk.Length1];
    for r := 0 to pk.Length0
      invariant forall x: nat, i: nat | x < r && i < o.Length1 :: o[x, i] == SignedAt(pk, x, i)
    {
      for c := 0 to pk.Length1
        invariant forall x: nat, i: nat | x < r && i < o.Length1 :: o[x, i] == SignedAt(pk, x, i)
        invariant forall i: nat | i < 2 * c :: o[r, i] == SignedAt(pk, r, i)
      {
        EvenOdd(c);
        o[r, 2 * c] := Signed(LowOf(pk[r, c]));
        o[r, 2 * c + 1] := Signed(HighOf(pk[r, c]));
      }
    }
  }

  // The eight digits of word (b, o).
  function DigitsAt(sgn: array2<int>, b: nat, o: nat): (d: seq<nat>)
    requires o < sgn.Length0 && 8 * b + 8 <= sgn.Length1
    reads sgn
    ensures |d| == 8 && forall j | 0 <= j < 8 :: d[j] == Digit(sgn[o, 8 * b + j])
  {
    [Digit(sgn[o, 8 * b]), Digit(sgn[o, 8 * b + 1]), Digit(sgn[o, 8 * b + 2]), Digit(sgn[o, 8 * b + 3]),
     Digit(sgn[o, 8 * b + 4]), Digit(sgn[o, 8 * b + 5]), Digit(sgn[o, 8 * b + 6]), Digit(sgn[o, 8 * b + 7])]
  }

  // Or-ing in position j of every word.
  method OrPosition(sgn: array2<int>, words: array2<nat>, j: nat)
    requires j < 8 && words.Length1 == sgn.Length0 && 8 * words.Length0 == sgn.Length1
    requires forall b: nat, o: nat | b < words.Length0 && o < words.Length1 ::
               words[b, o] == Positional(DigitsAt(sgn, b, o), j)
    modifies words
    ensures forall b: nat, o: nat | b < words.Length0 && o < words.Length1 ::
              words[b, o] == Positional(DigitsAt(sgn, b, o), j + 1)
  {
    for b := 0 to words.Length0
      invariant forall x: nat, o: nat | x < words.Length0 && o < words.Length1 ::
                  words[x, o] == Positional(DigitsAt(sgn, x, o), if x < b then j + 1 else j)
    {
      for o := 0 to words.Length1
        invariant forall x: nat, y: nat | x < words.Length0 && y < words.Length1 ::
                    words[x, y] == Positional(DigitsAt(sgn, x, y), if x < b || (x == b && y < o) then j + 1 else j)
      {
        ghost var d := DigitsAt(sgn, b, o);
        DigitsAreNibbles(sgn, b, o);
        OrAppendsDigit(d, j);
        words[b, o] := Or(words[b, o], Shl4(Digit(sgn[o, 8 * b + j]), j));
      }
    }
  }

  lemma DigitsAreNibbles(sgn: array2<int>, b: nat, o: nat)
    requires o < sgn.Length0 && 8 * b + 8 <= sgn.Length1
    ensures Digits(DigitsAt(sgn, b, o))
  {
    forall j | 0 <= j < 8 ensures DigitsAt(sgn, b, o)[j] < 16 { DigitIsNibble(sgn[o, 8 * b + j]); }
  }

  method PackGptq(sgn: array2<int>) returns (qw: array2<int>)
    requires sgn.Length1 % 8 == 0
    ensures fresh(qw) && 8 * qw.Length0 == sgn.Length1 && qw.Length1 == sgn.Length0
    ensures forall b: nat, o: nat | b < qw.Length0 && o < qw.Length1 ::
              qw[b, o] == AsInt32(Positional(DigitsAt(sgn, b, o), 8))
  {
    var words := new nat[sgn.Length1 / 8, sgn.Length0]((b, o) => 0);
    for j := 0 to 8
      invariant forall b: nat, o: nat | b < words.Length0 && o < words.Length1 ::
                  words[b, o] == Positional(DigitsAt(sgn, b, o), j)
    {
      OrPosition(sgn, words, j);
    }
    qw := CastWords(words);
  }

  method CastWords(words: array2<nat>) returns (qw: array2<int>)
    ensures fresh(qw) && qw.Length0 == words.Length0 && qw.Length1 == words.Length1
    ensures forall b: nat, o: nat | b < qw.Length0 && o < qw.Length1 :: qw[b, o] == AsInt32(words[b, o])
  {
    qw := new int[words.Length0, words.Length1];
    for b := 0 to words.Length0
      invariant forall x: nat, o: nat | x < b && o < words.Length1 :: qw[x, o] == AsInt32(words[x, o])
    {
      for o := 0 to words.Length1
        invariant forall x: nat, y: nat | x < b && y < words.Length1 :: qw[x, y] == AsInt32(words[x, y])
        invariant forall y: nat | y < o :: qw[b, y] == AsInt32(words[b, y])
      {
        qw[b, o] := AsInt32(words[b, o]);
      }
    }
  }

  // A byte rebuilt from the two signed values it held.
  function ByteOf(lo: int, hi: int): int { lo % 16 + 16 * (hi % 16) }

  // Unpacking a packed word gives every signed value back.
  lemma UnpackingRecovers(sgn: array2<int>, b: nat, o: nat, j: nat)
    requires o < sgn.Length0 && 8 * b + 8 <= sgn.Length1 && j < 8
    ensures Unpacked(AsInt32(Positional(DigitsAt(sgn, b, o), 8)), j) == (sgn[o, 8 * b + j] + 8) % 16 - 8
    ensures -8 <= sgn[o, 8 * b + j] < 8 ==>
              Unpacked(AsInt32(Positional(DigitsAt(sgn, b, o), 8)), j) == sgn[o, 8 * b + j]
  {
    var s := sgn[o, 8 * b + j];
    DigitsAreNibbles(sgn, b, o);
    WordKeepsDigits(DigitsAt(sgn, b, o), j);
    DigitIsNibble(s);
    SmallDigit(s);
  }

  lemma SmallDigit(s: int)
    ensures -8 <= s < 8 ==> (s + 8) % 16 - 8 == s
  {
  }

  lemma ByteSplits(b: Byte)
    ensures -8 <= Signed(LowOf(b)) < 8 && -8 <= Signed(HighOf(b)) < 8
    ensures ByteOf(Signed(LowOf(b)), Signed(HighOf(b))) == b
  {
    ByteHalves(b);
    HalvesRejoin(b % 16, b / 16);
  }

  lemma ByteHalves(b: Byte)
    ensures LowOf(b) == b % 16 && HighOf(b) == b / 16
  {
    LowNibble(b);
    LowNibble(b / 16);
  }

  lemma HalvesRejoin(lo: nat, hi: nat)
    requires lo < 16 && hi < 16
    ensures -8 <= Signed(lo) < 8 && -8 <= Signed(hi) < 8
    ensures ByteOf(Signed(lo), Signed(hi)) == lo + 16 * hi
  {
  }

  // Lossless end to end: each position of each word unpacks to the signed value it came
  // from, and each byte can be rebuilt.
  method Repack(pk: array2<Byte>) returns (qw: array2<int>)
    requires 2 * pk.Length1 % 8 == 0
    ensures fresh(qw) && 8 * qw.Length0 == 2 * pk.Length1 && qw.Length1 == pk.Length0
    ensures forall b: nat, o: nat, j: nat | b < qw.Length0 && o < qw.Length1 && j < 8 ::
              Unpacked(qw[b, o], j) == SignedAt(pk, o, 8 * b + j)
    ensures forall b: nat, o: nat | b < qw.Length0 && o < qw.Length1 :: -(WORD / 2) <= qw[b, o] < WORD / 2
    ensures forall b: nat, o: nat, k: nat | b < qw.Length0 && o < qw.Length1 && k < 4 ::
              ByteOf(Unpacked(qw[b, o], 2 * k), Unpacked(qw[b, o], 2 * k + 1)) == pk[o, 4 * b + k]
  {
    var sgn := W4Signed(pk);
    qw := PackGptq(sgn);
    forall b: nat, o: nat, j: nat | b < qw.Length0 && o < qw.Length1 && j < 8
      ensures Unpacked(qw[b, o], j) == SignedAt(pk, o, 8 * b + j)
    {
      ByteSplits(pk[o, (8 * b + j) / 2]);
      UnpackingRecovers(sgn, b, o, j);
    }
    forall b: nat, o: nat | b < qw.Length0 && o < qw.Length1 ensures -(WORD / 2) <= qw[b, o] < WORD / 2 {
      DigitsAreNibbles(sgn, b, o);
      WordKeepsDigits(DigitsAt(sgn, b, o), 0);
    }
    forall b: nat, o: nat, k: nat | b < qw.Length0 && o < qw.Length1 && k < 4
      ensures ByteOf(Unpacked(qw[b, o], 2 * k), Unpacked(qw[b, o], 2 * k + 1)) == pk[o, 4 * b + k]
    {
      assert (8 * b + 2 * k) / 2 == 4 * b + k && (8 * b + (2 * k + 1)) / 2 == 4 * b + k;
      ByteSplits(pk[o, 4 * b + k]);
    }
  }
}
