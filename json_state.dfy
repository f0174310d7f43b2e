/**
 * The parser state of the grammar state machine: a list of flags without
 * repetitions that `On`, `Off` and `Flip` edit in place, with the queries
 * over it and the loops that encode it to, and decode it from, an integer.
 */
module JsonState {
  import opened StateBits
  import opened StateEncoding

  /** No flag occurs twice. */
  predicate NoDuplicates(s: seq<StateBit>)
  {
    forall i, j :: 0 <= i < j < |s| ==> s[i] != s[j]
  }

  /** The flags that occur in `s`. */
  function Members(s: seq<StateBit>): set<StateBit>
  {
    set b | b in s
  }

  /** `retain(|x| x != b)`: `s` without its occurrences of `b`, order kept. */
  function Without(s: seq<StateBit>, b: StateBit): (r: seq<StateBit>)
    ensures Members(r) == Members(s) - {b}
    ensures NoDuplicates(s) ==> NoDuplicates(r)
    ensures |r| <= |s|
  {
    if s == [] then []
    else
      var rest := Without(s[1..], b);
      assert s == [s[0]] + s[1..];
      assert Members(s) == {s[0]} + Members(s[1..]);
      assert NoDuplicates(s) ==> s[0] !in Members(s[1..]) && NoDuplicates(s[1..]);
      if s[0] == b then rest
      else
        assert Members([s[0]] + rest) == {s[0]} + Members(rest);
        assert ([s[0]] + rest)[1..] == rest;
        [s[0]] + rest
  }

  class State {
    /** The set flags, in the order they were switched on. */
    var bits: seq<StateBit>

    ghost predicate Valid()
      reads this
    {
      NoDuplicates(bits)
    }

    /** The state as a set of flags. */
    ghost function Elements(): set<StateBit>
      reads this
    {
      Members(bits)
    }

    /** `State::new`: no flag set. */
    constructor New()
      ensures Valid() && bits == [] && Elements() == {}
    {
      bits := [];
    }

    /** `State::start`: the initial state, also with no flag set. */
    constructor Start()
      ensures Valid() && bits == [] && Elements() == {}
    {
      bits := [];
    }

    /** `State::invalid`: the sink `{IsInvalid}`. */
    constructor Invalid()
      ensures Valid() && bits == [IsInvalid] && Elements() == {IsInvalid}
    {
      bits := [IsInvalid];
    }

    /** `clone`: a new state with the same flags in the same order. */
    constructor Clone(other: State)
      requires other.Valid()
      ensures Valid() && bits == other.bits && Elements() == other.Elements()
    {
      bits := other.bits;
    }

    /** Switches `b` on, appending it unless it is already there. */
    method On(b: StateBit)
      requires Valid()
      modifies this
      ensures Valid()
      ensures bits == if b in old(bits) then old(bits) else old(bits) + [b]
      ensures Elements() == old(Elements()) + {b}
    {
      if b !in bits {
        bits := bits + [b];
      }
    }

    /** Switches `b` off, keeping the order of the other flags. */
    method Off(b: StateBit)
      requires Valid()
      modifies this
      ensures Valid()
      ensures bits == if b in old(bits) then Without(old(bits), b) else old(bits)
      ensures Elements() == old(Elements()) - {b}
    {
      if b in bits {
        bits := Without(bits, b);
      }
    }

    /** Switches `b` off when it is on and on when it is off. */
    method Flip(b: StateBit)
      requires Valid()
      modifies this
      ensures Valid()
      ensures bits == if b in old(bits) then Without(old(bits), b) else old(bits) + [b]
      ensures Elements() == if b in old(Elements()) then old(Elements()) - {b}
                            else old(Elements()) + {b}
    {
      if b in bits {
        bits := Without(bits, b);
      } else {
        bits := bits + [b];
      }
    }

    /** Whether flag `b` is set. */
    function Check(b: StateBit): (r: bool)
      reads this
      ensures r <==> b in Elements()
    {
      b in bits
    }

    /** Whether no flag is set. */
    function IsNull(): (r: bool)
      reads this
      ensures r <==> Elements() == {}
    {
      assert bits != [] ==> bits[0] in Elements();
      bits == []
    }

    /** Whether every flag of `bs` is set (true for an empty `bs`). */
    function CheckAnd(bs: seq<StateBit>): (r: bool)
      reads this
      ensures r <==> Members(bs) <= Elements()
    {
      if bs == [] then true
      else
        assert Members(bs) == {bs[0]} + Members(bs[1..]);
        bs[0] in bits && CheckAnd(bs[1..])
    }

    /** Whether some flag of `bs` is set (false for an empty `bs`). */
    function CheckOr(bs: seq<StateBit>): (r: bool)
      reads this
      ensures r <==> Members(bs) * Elements() != {}
    {
      if bs == [] then false
      else
        assert Members(bs) == {bs[0]} + Members(bs[1..]);
        assert bs[0] in bits ==> bs[0] in Members(bs) * Elements();
        bs[0] in bits || CheckOr(bs[1..])
    }

    /** Sums `2^Index(b)` over the flags, one flag at a time. */
    method Encode() returns (id: nat)
      requires Valid()
      ensures id == EncodeSet(Elements())
      ensures id < EncodingBound
    {
      id := 0;
      EncodeEmpty(0);
      for j := 0 to |bits|
        invariant id == EncodeSet(Members(bits[..j]))
      {
        var b := bits[j];
        assert b !in Members(bits[..j]);
        assert Members(bits[..j + 1]) == Members(bits[..j]) + {b} by {
          assert bits[..j + 1] == bits[..j] + [b];
        }
        EncodeInsert(Members(bits[..j]), b);
        id := id + Pow2(Index(b));
      }
      assert bits[..|bits|] == bits;
      EncodeBound(Elements());
    }
  }

  /** Once `x` has been halved down to 0, further halvings leave 0. */
  lemma {:induction false} ShiftZeroStays(x: nat, i: nat, j: nat)
    requires i <= j && Shift(x, i) == 0
    ensures Shift(x, j) == 0
    decreases j - i
  {
    if i < j {
      ShiftStep(x, i);
      ShiftZeroStays(x, i + 1, j);
    }
  }

  /**
   * Builds the state of an encoding by halving it until it is 0 and
   * switching on flag `i` whenever the `i`-th remainder is odd. `decode`
   * panics on a value at or above `2^11`, through `StateBits::from`, so such
   * values are excluded.
   */
  method Decode(id: nat) returns (s: State)
    requires id < EncodingBound
    ensures fresh(s) && s.Valid()
    ensures s.Elements() == DecodeSet(id)
  {
    s := new State.New();
    var rest := id;
    var i: nat := 0;
    while rest != 0
      invariant s.Valid() && i <= BitCount
      invariant rest == Shift(id, i)
      invariant s.Elements() == set b: StateBit | Index(b) < i && BitOf(id, Index(b)) == 1
      decreases rest
    {
      ShiftNonZero(id, i);
      if BitCount <= i {
        Pow2Monotone(BitCount, i);
        EncodingBoundIsPow2();
      }
      if rest % 2 == 1 {
        s.On(FromIndex(i));
      }
      assert s.Elements() == set b: StateBit | Index(b) < i + 1 && BitOf(id, Index(b)) == 1 by {
        forall b: StateBit
          ensures b in s.Elements() <==> Index(b) < i + 1 && BitOf(id, Index(b)) == 1
        {
          FromIndexOfIndex(b);
        }
      }
      ShiftStep(id, i);
      rest := rest / 2;
      i := i + 1;
    }
    forall b: StateBit
      ensures b in s.Elements() <==> b in DecodeSet(id)
    {
      if i <= Index(b) {
        ShiftZeroStays(id, i, Index(b));
      }
    }
  }
}
