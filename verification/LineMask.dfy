/** The 64-bit words of lib/internal.c and of the kernel interface.

    The rest of the project writes a word (line mask, flags, line values) as the set of the
    positions of its 1 bits. This module justifies that reading: a word is a number below
    2^64, the bitwise operators work digit by digit, and each mask helper of the library does
    to the number what the matching set operation does to the set. */
module LineMask {
  const WORD_BITS: nat := 64

  function Pow2(k: nat): (p: nat)
    ensures p >= 1
  {
    if k == 0 then 1 else 2 * Pow2(k - 1)
  }

  lemma {:induction false} Pow2Sum(a: nat, b: nat)
    ensures Pow2(a + b) == Pow2(a) * Pow2(b)
  {
    if a > 0 {
      Pow2Sum(a - 1, b);
    }
  }

  lemma Pow2Double(k: nat, p: nat)
    requires Pow2(k) == p
    ensures Pow2(2 * k) == p * p
  {
    Pow2Sum(k, k);
  }

  /** A word has 64 bits. */
  lemma WordRange()
    ensures Pow2(WORD_BITS) == 0x1_0000_0000_0000_0000
  {
    Pow2Double(1, 2);
    Pow2Double(2, 0x4);
    Pow2Double(4, 0x10);
    Pow2Double(8, 0x100);
    Pow2Double(16, 0x1_0000);
    Pow2Double(32, 0x1_0000_0000);
  }

  /** The k-th binary digit of w. */
  predicate Digit(w: nat, k: nat) {
    if k == 0 then w % 2 == 1 else Digit(w / 2, k - 1)
  }

  /** Bitwise `a | b`. */
  function Or(a: nat, b: nat): nat {
    if a == 0 then b
    else if b == 0 then a
    else 2 * Or(a / 2, b / 2) + (if a % 2 == 1 || b % 2 == 1 then 1 else 0)
  }

  /** Bitwise `a & b`. */
  function And(a: nat, b: nat): nat {
    if a == 0 || b == 0 then 0
    else 2 * And(a / 2, b / 2) + (if a % 2 == 1 && b % 2 == 1 then 1 else 0)
  }

  /** Bitwise `a & ~b`. */
  function AndNot(a: nat, b: nat): nat {
    if a == 0 then 0
    else if b == 0 then a
    else 2 * AndNot(a / 2, b / 2) + (if a % 2 == 1 && b % 2 == 0 then 1 else 0)
  }

  /** The positions of the 1 bits. */
  ghost function Bits(w: nat): set<nat> {
    set k: nat | k < WORD_BITS && Digit(w, k)
  }

  // The operators, digit by digit.

  lemma {:induction false} ZeroDigit(k: nat)
    ensures !Digit(0, k)
  {
    if k > 0 {
      ZeroDigit(k - 1);
    }
  }

  lemma {:induction false} OrDigit(a: nat, b: nat, k: nat)
    ensures Digit(Or(a, b), k) <==> Digit(a, k) || Digit(b, k)
  {
    if a == 0 || b == 0 {
      ZeroDigit(k);
    } else if k > 0 {
      OrDigit(a / 2, b / 2, k - 1);
    }
  }

  lemma {:induction false} AndDigit(a: nat, b: nat, k: nat)
    ensures Digit(And(a, b), k) <==> Digit(a, k) && Digit(b, k)
  {
    if a == 0 || b == 0 {
      ZeroDigit(k);
    } else if k > 0 {
      AndDigit(a / 2, b / 2, k - 1);
    }
  }

  lemma {:induction false} AndNotDigit(a: nat, b: nat, k: nat)
    ensures Digit(AndNot(a, b), k) <==> Digit(a, k) && !Digit(b, k)
  {
    if a == 0 || b == 0 {
      ZeroDigit(k);
    } else if k > 0 {
      AndNotDigit(a / 2, b / 2, k - 1);
    }
  }

  lemma {:induction false} Pow2Digit(nr: nat, k: nat)
    ensures Digit(Pow2(nr), k) <==> k == nr
  {
    if k > 0 {
      if nr > 0 {
        Pow2Digit(nr - 1, k - 1);
      } else {
        ZeroDigit(k - 1);
      }
    }
  }

  // The helpers keep a word inside 64 bits.

  lemma {:induction false} OrBound(a: nat, b: nat, n: nat)
    requires a < Pow2(n) && b < Pow2(n)
    ensures Or(a, b) < Pow2(n)
  {
    if a != 0 && b != 0 {
      OrBound(a / 2, b / 2, n - 1);
    }
  }

  lemma {:induction false} AndNotBound(a: nat, b: nat)
    ensures AndNot(a, b) <= a
  {
    if a != 0 && b != 0 {
      AndNotBound(a / 2, b / 2);
    }
  }

  lemma {:induction false} Pow2Grows(m: nat, n: nat)
    requires m < n
    ensures Pow2(m) < Pow2(n)
    decreases n
  {
    if m < n - 1 {
      Pow2Grows(m, n - 1);
    }
  }

  lemma ZeroHasNoBits()
    ensures Bits(0) == {}
  {
    forall k: nat ensures !Digit(0, k) {
      ZeroDigit(k);
    }
  }

  lemma SetBitDigits(mask: nat, nr: nat)
    requires nr < WORD_BITS
    ensures Bits(Or(mask, Pow2(nr))) == Bits(mask) + {nr}
  {
    forall k: nat ensures Digit(Or(mask, Pow2(nr)), k) <==> k == nr || Digit(mask, k) {
      OrDigit(mask, Pow2(nr), k);
      Pow2Digit(nr, k);
    }
  }

  lemma ClearBitDigits(mask: nat, nr: nat)
    requires nr < WORD_BITS
    ensures Bits(AndNot(mask, Pow2(nr))) == Bits(mask) - {nr}
  {
    forall k: nat ensures Digit(AndNot(mask, Pow2(nr)), k) <==> k != nr && Digit(mask, k) {
      AndNotDigit(mask, Pow2(nr), k);
      Pow2Digit(nr, k);
    }
  }

  // The helpers of lib/internal.c.

  function MaskZero(): (mask: nat)
    ensures Bits(mask) == {}
  {
    ZeroHasNoBits();
    0
  }

  lemma {:induction false} SomeDigit(w: nat) returns (k: nat)
    requires w != 0
    ensures Digit(w, k)
  {
    if w % 2 == 1 {
      k := 0;
    } else {
      var j := SomeDigit(w / 2);
      k := j + 1;
    }
  }

  /** Masking with a single bit leaves zero exactly when that digit is 0. */
  lemma SingleBit(mask: nat, nr: nat)
    ensures And(mask, Pow2(nr)) != 0 <==> Digit(mask, nr)
  {
    AndDigit(mask, Pow2(nr), nr);
    Pow2Digit(nr, nr);
    ZeroDigit(nr);
    if And(mask, Pow2(nr)) != 0 {
      var k := SomeDigit(And(mask, Pow2(nr)));
      AndDigit(mask, Pow2(nr), k);
      Pow2Digit(nr, k);
    }
  }

  /** `*mask & (1ULL << nr)` */
  function MaskTestBit(mask: nat, nr: nat): (r: bool)
    requires nr < WORD_BITS
    ensures r <==> nr in Bits(mask)
  {
    SingleBit(mask, nr);
    And(mask, Pow2(nr)) != 0
  }

  /** `*mask |= (1ULL << nr)` */
  function MaskSetBit(mask: nat, nr: nat): (m: nat)
    requires nr < WORD_BITS && mask < Pow2(WORD_BITS)
    ensures m < Pow2(WORD_BITS) && Bits(m) == Bits(mask) + {nr}
  {
    Pow2Grows(nr, WORD_BITS);
    OrBound(mask, Pow2(nr), WORD_BITS);
    SetBitDigits(mask, nr);
    Or(mask, Pow2(nr))
  }

  function MaskAssignBit(mask: nat, nr: nat, value: bool): (m: nat)
    requires nr < WORD_BITS && mask < Pow2(WORD_BITS)
    ensures m < Pow2(WORD_BITS)
    ensures Bits(m) == if value then Bits(mask) + {nr} else Bits(mask) - {nr}
  {
    if value then MaskSetBit(mask, nr)
    else
      AndNotBound(mask, Pow2(nr));
      ClearBitDigits(mask, nr);
      AndNot(mask, Pow2(nr))
  }

  /** Nothing is lost by reading a word as a set: equal sets come from equal words. */
  lemma {:induction false} WordIsItsDigits(a: nat, b: nat)
    requires forall k: nat :: Digit(a, k) <==> Digit(b, k)
    ensures a == b
  {
    assert Digit(a, 0) <==> Digit(b, 0);
    if a == 0 && b != 0 {
      var k := SomeDigit(b);
      ZeroDigit(k);
    } else if b == 0 && a != 0 {
      var k := SomeDigit(a);
      ZeroDigit(k);
    } else if a != 0 {
      forall k: nat ensures Digit(a / 2, k) <==> Digit(b / 2, k) {
        assert Digit(a, k + 1) <==> Digit(b, k + 1);
      }
      WordIsItsDigits(a / 2, b / 2);
    }
  }

  lemma {:induction false} HighDigitsAreZero(w: nat, n: nat, k: nat)
    requires w < Pow2(n) && n <= k
    ensures !Digit(w, k)
  {
    if n == 0 {
      ZeroDigit(k);
    } else {
      HighDigitsAreZero(w / 2, n - 1, k - 1);
    }
  }

  lemma BitsAreFaithful(a: nat, b: nat)
    requires a < Pow2(WORD_BITS) && b < Pow2(WORD_BITS)
    ensures Bits(a) == Bits(b) <==> a == b
  {
    if Bits(a) == Bits(b) {
      forall k: nat ensures Digit(a, k) <==> Digit(b, k) {
        if k < WORD_BITS {
          assert k in Bits(a) <==> k in Bits(b);
        } else {
          HighDigitsAreZero(a, WORD_BITS, k);
          HighDigitsAreZero(b, WORD_BITS, k);
        }
      }
      WordIsItsDigits(a, b);
    }
  }
}
