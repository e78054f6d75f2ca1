/** Unsigned 64-bit words used as bit boards. A word is its integer value;
 *  bit p is what `(w >> p) & 1` reads, and the single-bit updates
 *  `w | 1 << p` and `w ^ 1 << p` are written as adding or subtracting 2^p,
 *  which is what they do to the value. */
module Words {

  const TWO64: nat := 0x1_0000_0000_0000_0000
  const U64_MAX: nat := 0xFFFF_FFFF_FFFF_FFFF

  type Word = w: nat | w < TWO64

  function Pow2(n: nat): (r: nat)
    ensures r >= 1
  {
    if n == 0 then 1 else 2 * Pow2(n - 1)
  }

  lemma {:induction false} Pow2Split(n: nat)
    requires n > 0
    ensures Pow2(n) == 2 * Pow2(n - 1)
  {
  }

  lemma Pow2Word()
    ensures Pow2(64) == TWO64
  {
    assert Pow2(4) == 16;
    Pow2Square(4, 16);
    Pow2Square(8, 256);
    Pow2Square(16, 0x1_0000);
    Pow2Square(32, 0x1_0000_0000);
  }

  lemma Pow2Square(n: nat, v: nat)
    requires Pow2(n) == v
    ensures Pow2(2 * n) == v * v
  {
    Pow2Add(n, n);
  }

  lemma {:induction false} Pow2Add(a: nat, b: nat)
    ensures Pow2(a + b) == Pow2(a) * Pow2(b)
  {
    if b > 0 {
      Pow2Add(a, b - 1);
      assert Pow2(a + b) == 2 * Pow2(a + b - 1);
    }
  }

  /** `(w >> p) & 1 != 0`. */
  predicate TestBit(w: nat, p: nat)
  {
    if p == 0 then w % 2 == 1 else TestBit(w / 2, p - 1)
  }

  lemma {:induction false} TestBitLower(w: nat, p: nat)
    requires TestBit(w, p)
    ensures w >= Pow2(p)
  {
    if p > 0 {
      TestBitLower(w / 2, p - 1);
    }
  }

  /** `w | 1 << p`. */
  function SetBit(w: nat, p: nat): nat
  {
    if TestBit(w, p) then w else w + Pow2(p)
  }

  /** `w ^ 1 << p`. */
  function FlipBit(w: nat, p: nat): nat
  {
    if TestBit(w, p) then TestBitLower(w, p); w - Pow2(p) else w + Pow2(p)
  }

  /** The low n bits of w, lowest first. */
  function BitsOf(w: nat, n: nat): (r: seq<bool>)
    ensures |r| == n
  {
    if n == 0 then [] else [w % 2 == 1] + BitsOf(w / 2, n - 1)
  }

  function Bits(w: nat): (r: seq<bool>)
    ensures |r| == 64
  {
    BitsOf(w, 64)
  }

  lemma {:induction false} BitsOfAt(w: nat, n: nat, q: nat)
    requires q < n
    ensures BitsOf(w, n)[q] == TestBit(w, q)
  {
    if q > 0 {
      BitsOfAt(w / 2, n - 1, q - 1);
    }
  }

  /** Bit q of a word, as Bits reads it. */
  lemma BitsAt(w: nat, q: nat)
    requires q < 64
    ensures Bits(w)[q] == TestBit(w, q)
  {
    BitsOfAt(w, 64, q);
  }

  lemma {:induction false} AddBit(w: nat, p: nat, n: nat)
    requires p < n && !TestBit(w, p)
    ensures BitsOf(w + Pow2(p), n) == BitsOf(w, n)[p := true]
  {
    var h := w / 2;
    assert w == 2 * h + w % 2;
    var s := BitsOf(h, n - 1);
    assert BitsOf(w, n) == [w % 2 == 1] + s;
    if p == 0 {
      assert (w + 1) % 2 == 1 && (w + 1) / 2 == h;
      assert BitsOf(w + 1, n) == [true] + s;
      assert ([w % 2 == 1] + s)[0 := true] == [true] + s;
    } else {
      Pow2Split(p);
      var h2 := h + Pow2(p - 1);
      assert w + Pow2(p) == 2 * h2 + w % 2;
      assert (w + Pow2(p)) % 2 == w % 2 && (w + Pow2(p)) / 2 == h2;
      assert BitsOf(w + Pow2(p), n) == [w % 2 == 1] + BitsOf(h2, n - 1);
      AddBit(h, p - 1, n - 1);
      assert [w % 2 == 1] + s[p - 1 := true] == ([w % 2 == 1] + s)[p := true];
    }
  }

  lemma {:induction false} SubBit(w: nat, p: nat, n: nat)
    requires p < n && TestBit(w, p)
    ensures w >= Pow2(p)
    ensures BitsOf(w - Pow2(p), n) == BitsOf(w, n)[p := false]
  {
    TestBitLower(w, p);
    var h := w / 2;
    assert w == 2 * h + w % 2;
    var s := BitsOf(h, n - 1);
    assert BitsOf(w, n) == [w % 2 == 1] + s;
    if p == 0 {
      assert (w - 1) % 2 == 0 && (w - 1) / 2 == h;
      assert BitsOf(w - 1, n) == [false] + s;
      assert ([w % 2 == 1] + s)[0 := false] == [false] + s;
    } else {
      Pow2Split(p);
      TestBitLower(h, p - 1);
      var h2 := h - Pow2(p - 1);
      assert w - Pow2(p) == 2 * h2 + w % 2;
      assert (w - Pow2(p)) % 2 == w % 2 && (w - Pow2(p)) / 2 == h2;
      assert BitsOf(w - Pow2(p), n) == [w % 2 == 1] + BitsOf(h2, n - 1);
      SubBit(h, p - 1, n - 1);
      assert [w % 2 == 1] + s[p - 1 := false] == ([w % 2 == 1] + s)[p := false];
    }
  }

  /** Setting a clear bit below n keeps a value below 2^n. */
  lemma {:induction false} AddBitBound(w: nat, p: nat, n: nat)
    requires p < n && w < Pow2(n) && !TestBit(w, p)
    ensures w + Pow2(p) < Pow2(n)
  {
    Pow2Split(n);
    var h := w / 2;
    assert w == 2 * h + w % 2;
    if p == 0 {
      assert w % 2 == 0;
    } else {
      Pow2Split(p);
      assert h < Pow2(n - 1);
      assert !TestBit(h, p - 1);
      AddBitBound(h, p - 1, n - 1);
      assert w + Pow2(p) == 2 * (h + Pow2(p - 1)) + w % 2;
    }
  }

  lemma SetBitBits(w: Word, p: nat)
    requires p < 64
    ensures SetBit(w, p) < TWO64
    ensures Bits(SetBit(w, p)) == Bits(w)[p := true]
  {
    BitsAt(w, p);
    if !TestBit(w, p) {
      Pow2Word();
      AddBitBound(w, p, 64);
      AddBit(w, p, 64);
    } else {
      assert Bits(w)[p := true] == Bits(w);
    }
  }

  lemma FlipBitBits(w: Word, p: nat)
    requires p < 64
    ensures FlipBit(w, p) < TWO64
    ensures Bits(FlipBit(w, p)) == Bits(w)[p := !Bits(w)[p]]
  {
    BitsAt(w, p);
    if TestBit(w, p) {
      SubBit(w, p, 64);
    } else {
      Pow2Word();
      AddBitBound(w, p, 64);
      AddBit(w, p, 64);
    }
  }

  lemma {:induction false} BitsOfInjective(w: nat, w2: nat, n: nat)
    requires w < Pow2(n) && w2 < Pow2(n) && BitsOf(w, n) == BitsOf(w2, n)
    ensures w == w2
  {
    if n > 0 {
      Pow2Split(n);
      assert BitsOf(w, n)[0] == BitsOf(w2, n)[0];
      assert BitsOf(w / 2, n - 1) == BitsOf(w, n)[1..];
      assert BitsOf(w2 / 2, n - 1) == BitsOf(w2, n)[1..];
      BitsOfInjective(w / 2, w2 / 2, n - 1);
    }
  }

  /** A word is determined by its bits. */
  lemma BitsInjective(w: Word, w2: Word)
    requires Bits(w) == Bits(w2)
    ensures w == w2
  {
    Pow2Word();
    BitsOfInjective(w, w2, 64);
  }

  lemma {:induction false} BitsOfZero(n: nat)
    ensures BitsOf(0, n) == seq(n, _ => false)
  {
    if n > 0 {
      BitsOfZero(n - 1);
    }
  }

  lemma {:induction false} BitsOfOnes(n: nat)
    ensures BitsOf(Pow2(n) - 1, n) == seq(n, _ => true)
  {
    if n > 0 {
      Pow2Split(n);
      assert (Pow2(n) - 1) / 2 == Pow2(n - 1) - 1;
      BitsOfOnes(n - 1);
    }
  }

  lemma BitsZero()
    ensures Bits(0) == seq(64, _ => false)
  {
    BitsOfZero(64);
  }

  /** `w != u64::MAX` says that some bit is clear. */
  lemma FullWord(w: Word)
    ensures (w == U64_MAX) == (false !in Bits(w))
  {
    Pow2Word();
    BitsOfOnes(64);
    assert Bits(U64_MAX) == seq(64, _ => true);
    if false !in Bits(w) {
      assert forall i :: 0 <= i < 64 ==> Bits(w)[i];
      assert Bits(w) == Bits(U64_MAX);
      BitsInjective(w, U64_MAX);
    }
  }
}
