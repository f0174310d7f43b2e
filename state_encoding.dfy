/**
 * The integer encoding of a parser state: flag `b` contributes
 * `2^Index(b)`. These are the specification functions that the `Encode`
 * and `Decode` loops of `JsonState` are proved against.
 */
module StateEncoding {
  import opened StateBits

  /** Every encoding is below `2^11`. */
  const EncodingBound: nat := 2048

  lemma EncodingBoundIsPow2()
    ensures Pow2(BitCount) == EncodingBound
  {
  }

  /**
   * Bits `k..10` of the encoding of `s`, read as a number (Horner form):
   * bit `k` plus twice the rest.
   */
  function EncodeFrom(s: set<StateBit>, k: nat): nat
    decreases BitCount - k
  {
    if k >= BitCount then 0
    else (if FromIndex(k) in s then 1 else 0) + 2 * EncodeFrom(s, k + 1)
  }

  /** The encoding of a set of flags. */
  function EncodeSet(s: set<StateBit>): nat
  {
    EncodeFrom(s, 0)
  }

  /** `x` shifted right by `i` bits: halved `i` times. */
  function Shift(x: nat, i: nat): nat
  {
    if i == 0 then x else Shift(x / 2, i - 1)
  }

  /** Bit `i` of `x`: the parity after `i` halvings. */
  function BitOf(x: nat, i: nat): nat
  {
    Shift(x, i) % 2
  }

  /** The flags whose bit is set in `x`; only defined below `2^11`. */
  function DecodeSet(x: nat): set<StateBit>
    requires x < EncodingBound
  {
    set b: StateBit | BitOf(x, Index(b)) == 1
  }

  // ---------- shifting ----------

  lemma Pow2Monotone(i: nat, j: nat)
    requires i <= j
    ensures Pow2(i) <= Pow2(j)
  {
    if i < j { Pow2Monotone(i, j - 1); }
  }

  lemma Pow2Succ(n: nat)
    ensures Pow2(n + 1) == 2 * Pow2(n)
  {
  }

  /** One more halving shifts one bit further. */
  lemma {:induction false} ShiftStep(x: nat, i: nat)
    ensures Shift(x, i + 1) == Shift(x, i) / 2
  {
    if i > 0 { ShiftStep(x / 2, i - 1); }
  }

  /** Shifting a number below `2^i` by `i` bits leaves 0. */
  lemma {:induction false} ShiftSmall(x: nat, i: nat)
    requires x < Pow2(i)
    ensures Shift(x, i) == 0
  {
    if i > 0 { ShiftSmall(x / 2, i - 1); }
  }

  /** A number that is not yet 0 after `i` halvings is at least `2^i`. */
  lemma ShiftNonZero(x: nat, i: nat)
    requires Shift(x, i) != 0
    ensures Pow2(i) <= x
  {
    if x < Pow2(i) { ShiftSmall(x, i); }
  }

  // ---------- properties of the encoding ----------

  lemma {:induction false} EncodeFromBound(s: set<StateBit>, k: nat)
    requires k <= BitCount
    ensures EncodeFrom(s, k) < Pow2(BitCount - k)
    decreases BitCount - k
  {
    if k < BitCount {
      EncodeFromBound(s, k + 1);
      assert Pow2(BitCount - k) == 2 * Pow2(BitCount - (k + 1));
    }
  }

  /** An encoding fits in eleven bits. */
  lemma EncodeBound(s: set<StateBit>)
    ensures EncodeSet(s) < EncodingBound
  {
    EncodeFromBound(s, 0);
  }

  /** The empty state encodes to 0. */
  lemma {:induction false} EncodeEmpty(k: nat)
    ensures EncodeFrom({}, k) == 0
    decreases BitCount - k
  {
    if k < BitCount { EncodeEmpty(k + 1); }
  }

  lemma {:induction false} EncodeFromInsertBelow(s: set<StateBit>, b: StateBit, k: nat)
    requires b !in s && Index(b) < k
    ensures EncodeFrom(s + {b}, k) == EncodeFrom(s, k)
    decreases BitCount - k
  {
    if k < BitCount {
      EncodeFromInsertBelow(s, b, k + 1);
    }
  }

  lemma {:induction false} EncodeFromInsert(s: set<StateBit>, b: StateBit, k: nat)
    requires b !in s && k <= Index(b)
    ensures EncodeFrom(s + {b}, k) == EncodeFrom(s, k) + Pow2(Index(b) - k)
    decreases BitCount - k
  {
    var i := Index(b);
    FromIndexOfIndex(b);
    if k == i {
      EncodeFromInsertBelow(s, b, k + 1);
      assert FromIndex(k) in s + {b} && FromIndex(k) !in s;
    } else {
      EncodeFromInsert(s, b, k + 1);
      assert FromIndex(k) in s + {b} <==> FromIndex(k) in s;
      Pow2Succ(i - (k + 1));
    }
  }

  /**
   * Adding a flag that is absent adds `2^Index(b)`: with `EncodeEmpty`,
   * the encoding is the sum of `2^Index(b)` over the flags of the state.
   */
  lemma EncodeInsert(s: set<StateBit>, b: StateBit)
    requires b !in s
    ensures EncodeSet(s + {b}) == EncodeSet(s) + Pow2(Index(b))
  {
    var i := Index(b);
    EncodeFromInsert(s, b, 0);
    assert EncodeFrom(s + {b}, 0) == EncodeFrom(s, 0) + Pow2(i);
  }

  /** Shifting the encoding by `j` bits drops the first `j` bits. */
  lemma {:induction false} EncodeShift(s: set<StateBit>, j: nat)
    requires j <= BitCount
    ensures Shift(EncodeSet(s), j) == EncodeFrom(s, j)
  {
    if j > 0 {
      EncodeShift(s, j - 1);
      ShiftStep(EncodeSet(s), j - 1);
    }
  }

  /** The lowest remaining bit of `EncodeFrom(s, k)` is flag `k`. */
  lemma EncodeFromParity(s: set<StateBit>, k: nat)
    requires k < BitCount
    ensures EncodeFrom(s, k) % 2 == (if FromIndex(k) in s then 1 else 0)
  {
  }

  /** Decoding an encoding gives back exactly the flags that were encoded. */
  lemma DecodeEncode(s: set<StateBit>)
    ensures EncodeSet(s) < EncodingBound
    ensures DecodeSet(EncodeSet(s)) == s
  {
    EncodeBound(s);
    forall b: StateBit
      ensures b in DecodeSet(EncodeSet(s)) <==> b in s
    {
      var i := Index(b);
      EncodeShift(s, i);
      EncodeFromParity(s, i);
      FromIndexOfIndex(b);
    }
  }

  lemma {:induction false} EncodeFromDecode(x: nat, k: nat)
    requires x < EncodingBound
    requires k <= BitCount
    ensures EncodeFrom(DecodeSet(x), k) == Shift(x, k)
    decreases BitCount - k
  {
    if k == BitCount {
      EncodingBoundIsPow2();
      ShiftSmall(x, k);
    } else {
      EncodeFromDecode(x, k + 1);
      ShiftStep(x, k);
      var b := FromIndex(k);
      assert b in DecodeSet(x) <==> BitOf(x, k) == 1;
    }
  }

  /** Every eleven-bit number is the encoding of the state it decodes to. */
  lemma EncodeDecode(x: nat)
    requires x < EncodingBound
    ensures EncodeSet(DecodeSet(x)) == x
  {
    EncodeFromDecode(x, 0);
  }

  /** Distinct states have distinct encodings. */
  lemma EncodeInjective(s: set<StateBit>, t: set<StateBit>)
    requires EncodeSet(s) == EncodeSet(t)
    ensures s == t
  {
    DecodeEncode(s);
    DecodeEncode(t);
  }
}
