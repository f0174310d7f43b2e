/**
 * The witness of the structural JSON circuit. `Synthesize` is the row loop
 * of `JsonCircuit::synthesize`, with its carried variables and its inner
 * loop over the four special codes; `Witness` is the specification it is
 * proved against, and the lemmas show that the witness meets every
 * row-transition gate of `JsonConfig` whatever the input.
 */
module JsonCircuit {
  import opened JsonConfig

  /** The variables `synthesize` carries from one row to the next. */
  datatype Carry = Carry(notStr: int, level: int, levelInv: Fraction, strEsc: int, strEscPrev: int)

  /** Their values before the first row: outside strings, at level 0. */
  const Initial: Carry := Carry(1, 0, Fraction(1, 1), 0, 0)

  /** The codes the inner loop visits, in its order. */
  const SpecialCodes: seq<int> := [BackslashCode, DoubleQuoteCode, OpenBraceCode, CloseBraceCode]

  /**
   * What the inner loop does to the carried variables when it visits code
   * `k` on a row holding `x`: nothing unless `x` is `k`, and then the first
   * branch that applies.
   */
  function Visit(c: Carry, x: int, k: int): Carry
  {
    if x != k then c
    else if x == DoubleQuoteCode && c.strEscPrev == 0 then c.(notStr := 1 - c.notStr)
    else if x == OpenBraceCode then
      var l := c.level + c.notStr;
      c.(level := l, levelInv := InverseOrOne(l))
    else if x == CloseBraceCode then
      var l := c.level - c.notStr;
      c.(level := l, levelInv := InverseOrOne(l))
    else if x == BackslashCode && c.strEscPrev == 0 then c.(strEsc := (1 - c.notStr) * 1)
    else c
  }

  /** The inner loop over the codes `ks`, in order. */
  function VisitAll(c: Carry, x: int, ks: seq<int>): Carry
  {
    if ks == [] then c else Visit(VisitAll(c, x, ks[..|ks| - 1]), x, ks[|ks| - 1])
  }

  /**
   * One row: the inner loop, then an escape right after an escape is
   * cancelled, and the escape of this row is remembered for the next.
   */
  function Step(c: Carry, x: int): Carry
  {
    var v := VisitAll(c, x, SpecialCodes);
    var e := v.strEsc * (1 - v.strEscPrev);
    v.(strEsc := e, strEscPrev := e)
  }

  /** The carried variables after the first `i` codes of `raw`. */
  function CarryAfter(raw: seq<int>, i: nat): Carry
    requires i <= |raw|
  {
    if i == 0 then Initial else Step(CarryAfter(raw, i - 1), raw[i - 1])
  }

  /** The flag of code `k` on a row holding `x`. */
  function Flag(x: int, k: int): int
  {
    if x == k then 1 else 0
  }

  /** Row `i` of `n`, holding `x`, written with the carried variables `c` of that row. */
  function RowOf(c: Carry, x: int, i: nat, n: nat): Row
  {
    var start := i == 0;
    var body := !start && i + 1 < n;
    var end := !start && !body;
    Row(x,
        InverseOrOne(x - BackslashCode), InverseOrOne(x - DoubleQuoteCode),
        InverseOrOne(x - OpenBraceCode), InverseOrOne(x - CloseBraceCode),
        Flag(x, BackslashCode), Flag(x, DoubleQuoteCode),
        Flag(x, OpenBraceCode), Flag(x, CloseBraceCode),
        c.notStr, c.strEsc, c.level, c.levelInv,
        body, start, end, true)
  }

  /** The assignment `synthesize` produces for the input codes `raw`. */
  function Witness(raw: seq<int>): seq<Row>
  {
    seq(|raw|, i requires 0 <= i < |raw| => RowOf(CarryAfter(raw, i + 1), raw[i], i, |raw|))
  }

  // ---------- the loop ----------

  /** The row loop of `synthesize`, with the carried variables updated in place. */
  method Synthesize(raw: seq<int>) returns (rows: seq<Row>)
    ensures rows == Witness(raw)
  {
    var specialChars := [BackslashCode, DoubleQuoteCode, OpenBraceCode, CloseBraceCode];
    var notStr, level, levelInv, strEsc, strEscPrev := 1, 0, Fraction(1, 1), 0, 0;
    var n := |raw|;
    rows := [];
    for idx := 0 to n
      invariant |rows| == idx
      invariant Carry(notStr, level, levelInv, strEsc, strEscPrev) == CarryAfter(raw, idx)
      invariant forall t :: 0 <= t < idx ==> rows[t] == RowOf(CarryAfter(raw, t + 1), raw[t], t, n)
    {
      var x := raw[idx];
      ghost var before := Carry(notStr, level, levelInv, strEsc, strEscPrev);
      var flags, invs;
      flags, invs, notStr, level, levelInv, strEsc :=
        VisitCodes(x, specialChars, notStr, level, levelInv, strEsc, strEscPrev);
      strEsc := strEsc * (1 - strEscPrev);
      strEscPrev := strEsc;
      assert Carry(notStr, level, levelInv, strEsc, strEscPrev) == Step(before, x);
      var start := idx == 0;
      var body := !start && idx < n - 1;
      var end := !start && !body;
      var row := Row(x, invs[0], invs[1], invs[2], invs[3],
                     flags[0], flags[1], flags[2], flags[3],
                     notStr, strEsc, level, levelInv, body, start, end, true);
      assert row == RowOf(CarryAfter(raw, idx + 1), x, idx, n) by {
        assert SpecialCodes[0] == BackslashCode && SpecialCodes[1] == DoubleQuoteCode;
        assert SpecialCodes[2] == OpenBraceCode && SpecialCodes[3] == CloseBraceCode;
      }
      rows := rows + [row];
    }
    WitnessRows(raw, rows);
  }

  /** Rows that agree with `RowOf` everywhere are the witness. */
  lemma WitnessRows(raw: seq<int>, rows: seq<Row>)
    requires |rows| == |raw|
    requires forall t :: 0 <= t < |raw| ==> rows[t] == RowOf(CarryAfter(raw, t + 1), raw[t], t, |raw|)
    ensures rows == Witness(raw)
  {
  }

  /**
   * The inner loop for one row holding `x`: a flag and an inverse cell per
   * code, and the carried variables as the branch of the matching code
   * leaves them (the escape is not yet cancelled).
   */
  method VisitCodes(x: int, specialChars: seq<int>, notStr0: int, level0: int, levelInv0: Fraction,
                    strEsc0: int, strEscPrev: int)
    returns (flags: seq<int>, invs: seq<Fraction>,
             notStr: int, level: int, levelInv: Fraction, strEsc: int)
    requires specialChars == SpecialCodes
    ensures Carry(notStr, level, levelInv, strEsc, strEscPrev)
            == VisitAll(Carry(notStr0, level0, levelInv0, strEsc0, strEscPrev), x, SpecialCodes)
    ensures |flags| == 4 && |invs| == 4
    ensures forall t :: 0 <= t < 4 ==>
              flags[t] == Flag(x, SpecialCodes[t]) && invs[t] == InverseOrOne(x - SpecialCodes[t])
  {
    notStr, level, levelInv, strEsc := notStr0, level0, levelInv0, strEsc0;
    ghost var c0 := Carry(notStr0, level0, levelInv0, strEsc0, strEscPrev);
    flags, invs := [], [];
    for jdx := 0 to |specialChars|
      invariant |flags| == jdx && |invs| == jdx
      invariant Carry(notStr, level, levelInv, strEsc, strEscPrev) == VisitAll(c0, x, specialChars[..jdx])
      invariant forall t :: 0 <= t < jdx ==>
                  flags[t] == Flag(x, specialChars[t]) && invs[t] == InverseOrOne(x - specialChars[t])
    {
      var specialChar := specialChars[jdx];
      assert specialChars[..jdx + 1][..jdx] == specialChars[..jdx];
      var flag := 0;
      if x == specialChar {
        if x == DoubleQuoteCode && strEscPrev == 0 {
          notStr := 1 - notStr;
        } else if x == OpenBraceCode {
          level := level + notStr;
          levelInv := InverseOrOne(level);
        } else if x == CloseBraceCode {
          level := level - notStr;
          levelInv := InverseOrOne(level);
        } else if x == BackslashCode && strEscPrev == 0 {
          strEsc := (1 - notStr) * 1;
        }
        flag := 1;
      }
      var inv := InverseOrOne(x - specialChar);
      flags := flags + [flag];
      invs := invs + [inv];
    }
    assert specialChars[..|specialChars|] == SpecialCodes;
  }

  // ---------- the carried variables row by row ----------

  /**
   * What holds between rows: `not_str` is 0 or 1, the remembered escape is
   * the escape, an escape happens only inside a string, and the level
   * inverse belongs to the level.
   */
  predicate Consistent(c: Carry)
  {
    && (c.notStr == 0 || c.notStr == 1)
    && c.strEsc == c.strEscPrev
    && (c.strEsc == 0 || (c.strEsc == 1 && c.notStr == 0))
    && c.levelInv == InverseOrOne(c.level)
  }

  /**
   * The effect of one row: a quote flips `not_str` unless the previous row
   * escaped it; `{` adds `not_str` to the level and `}` subtracts it; a
   * backslash escapes the next row when it is inside a string and not
   * itself escaped; no escape lasts beyond one row; and the carried
   * variables stay consistent.
   */
  lemma StepEffect(c: Carry, x: int)
    requires Consistent(c)
    ensures Step(c, x).notStr ==
              (if x == DoubleQuoteCode && c.strEscPrev == 0 then 1 - c.notStr else c.notStr)
    ensures Step(c, x).level ==
              c.level + (if x == OpenBraceCode then c.notStr
                         else if x == CloseBraceCode then -c.notStr else 0)
    ensures Step(c, x).strEsc ==
              (if x == BackslashCode && c.strEscPrev == 0 then 1 - c.notStr else 0)
    ensures Consistent(Step(c, x))
  {
    InnerLoop(c, x);
  }

  /** The inner loop visits the four codes one after the other. */
  lemma InnerLoop(c: Carry, x: int)
    ensures VisitAll(c, x, SpecialCodes) ==
            Visit(Visit(Visit(Visit(c, x, BackslashCode), x, DoubleQuoteCode), x, OpenBraceCode), x, CloseBraceCode)
  {
    var ks := SpecialCodes;
    assert ks[..3][..2][..1][..0] == [];
    assert VisitAll(c, x, ks[..1]) == Visit(c, x, BackslashCode);
    assert ks[..3][..2] == ks[..2] && ks[..2][..1] == ks[..1];
    assert VisitAll(c, x, ks[..2]) == Visit(VisitAll(c, x, ks[..1]), x, DoubleQuoteCode);
    assert ks[..3][..2] == ks[..2];
    assert VisitAll(c, x, ks[..3]) == Visit(VisitAll(c, x, ks[..2]), x, OpenBraceCode);
    assert ks[..3] == ks[..|ks| - 1];
  }

  /** The carried variables are consistent before every row. */
  lemma {:induction false} CarryConsistent(raw: seq<int>, i: nat)
    requires i <= |raw|
    ensures Consistent(CarryAfter(raw, i))
  {
    if i > 0 {
      CarryConsistent(raw, i - 1);
      StepEffect(CarryAfter(raw, i - 1), raw[i - 1]);
    }
  }

  /** One witness row: field cells, its selectors, and the Booleans and Char booleans gates. */
  lemma RowGates(c: Carry, x: int, i: nat, n: nat)
    requires Consistent(c)
    ensures Selectors(RowOf(c, x, i, n), i, n) && FieldCells(RowOf(c, x, i, n))
    ensures Booleans(RowOf(c, x, i, n)) && CharBooleans(RowOf(c, x, i, n))
  {
    InverseOrOneProduct(c.level);
    InverseOrOneProduct(x - BackslashCode);
    InverseOrOneProduct(x - DoubleQuoteCode);
    InverseOrOneProduct(x - OpenBraceCode);
    InverseOrOneProduct(x - CloseBraceCode);
  }

  /** Two consecutive witness rows meet the Toggle, Backslash escaping and Count levels gates. */
  lemma StepGates(c: Carry, px: int, x: int, i: nat, n: nat)
    requires Consistent(c) && 0 < i
    ensures Toggle(RowOf(c, px, i - 1, n), RowOf(Step(c, x), x, i, n))
    ensures BackslashEscaping(RowOf(c, px, i - 1, n), RowOf(Step(c, x), x, i, n))
    ensures CountLevels(RowOf(c, px, i - 1, n), RowOf(Step(c, x), x, i, n))
    ensures CountLevelsAtEnd(RowOf(c, px, i - 1, n), RowOf(Step(c, x), x, i, n))
  {
    StepEffect(c, x);
  }

  /** Row `i` of the witness, written with the carried variables after `raw[i]`. */
  lemma WitnessRow(raw: seq<int>, i: nat)
    requires i < |raw|
    ensures Witness(raw)[i] == RowOf(CarryAfter(raw, i + 1), raw[i], i, |raw|)
    ensures CarryAfter(raw, i + 1) == Step(CarryAfter(raw, i), raw[i])
    ensures Consistent(CarryAfter(raw, i)) && Consistent(CarryAfter(raw, i + 1))
  {
    CarryConsistent(raw, i);
    CarryConsistent(raw, i + 1);
  }

  /**
   * Whatever the input, the witness has the selectors `synthesize` enables,
   * and meets the Booleans and Char booleans gates on every row and the
   * Toggle, Backslash escaping and Count levels gates between any two
   * consecutive rows.
   */
  lemma WitnessMeetsTransitionGates(raw: seq<int>)
    ensures |Witness(raw)| == |raw|
    ensures forall i :: 0 <= i < |raw| ==>
              && Selectors(Witness(raw)[i], i, |raw|) && FieldCells(Witness(raw)[i])
              && Booleans(Witness(raw)[i]) && CharBooleans(Witness(raw)[i])
    ensures forall i :: 0 < i < |raw| ==>
              && Toggle(Witness(raw)[i - 1], Witness(raw)[i])
              && BackslashEscaping(Witness(raw)[i - 1], Witness(raw)[i])
              && CountLevels(Witness(raw)[i - 1], Witness(raw)[i])
              && CountLevelsAtEnd(Witness(raw)[i - 1], Witness(raw)[i])
  {
    forall i | 0 <= i < |raw|
      ensures && Selectors(Witness(raw)[i], i, |raw|) && FieldCells(Witness(raw)[i])
              && Booleans(Witness(raw)[i]) && CharBooleans(Witness(raw)[i])
    {
      WitnessRow(raw, i);
      RowGates(CarryAfter(raw, i + 1), raw[i], i, |raw|);
    }
    forall i | 0 < i < |raw|
      ensures && Toggle(Witness(raw)[i - 1], Witness(raw)[i])
              && BackslashEscaping(Witness(raw)[i - 1], Witness(raw)[i])
              && CountLevels(Witness(raw)[i - 1], Witness(raw)[i])
              && CountLevelsAtEnd(Witness(raw)[i - 1], Witness(raw)[i])
    {
      WitnessRow(raw, i - 1);
      WitnessRow(raw, i);
      StepGates(CarryAfter(raw, i), raw[i - 1], raw[i], i, |raw|);
    }
  }

  // ---------- the gates that depend on the input ----------

  /**
   * What row `i` needs of the input once the other gates hold: the start
   * row is an opening brace; a body row is at a nonzero level and is no
   * backslash outside a string; the end row is a closing brace outside
   * strings that brings the level to 0.
   */
  predicate RowCondition(rows: seq<Row>, i: nat)
    requires i < |rows|
  {
    var r := rows[i];
    if i == 0 then r.raw == OpenBraceCode
    else if i + 1 < |rows| then r.level != 0 && !(r.raw == BackslashCode && r.notStr == 1)
    else r.raw == CloseBraceCode && r.notStr == 1 && r.level == 0
  }

  /** What the witness gives row `i`, stated without the carried variables. */
  lemma WitnessFacts(raw: seq<int>, i: nat)
    requires i < |raw|
    ensures |Witness(raw)| == |raw| && Witness(raw)[i].raw == raw[i]
    ensures Selectors(Witness(raw)[i], i, |raw|) && FieldCells(Witness(raw)[i])
    ensures Booleans(Witness(raw)[i]) && CharBooleans(Witness(raw)[i])
    ensures Witness(raw)[i].notStr == 0 || Witness(raw)[i].notStr == 1
    ensures Witness(raw)[i].backslash == Flag(raw[i], BackslashCode)
    ensures Witness(raw)[i].closeBrace == Flag(raw[i], CloseBraceCode)
    ensures Witness(raw)[i].levelInv == InverseOrOne(Witness(raw)[i].level)
    ensures i == 0 ==> (raw[0] == OpenBraceCode <==> StartConditions(Witness(raw)[0]))
    ensures 0 < i ==> Toggle(Witness(raw)[i - 1], Witness(raw)[i])
    ensures 0 < i ==> BackslashEscaping(Witness(raw)[i - 1], Witness(raw)[i])
    ensures 0 < i ==> CountLevels(Witness(raw)[i - 1], Witness(raw)[i])
    ensures 0 < i ==> CountLevelsAtEnd(Witness(raw)[i - 1], Witness(raw)[i])
  {
    WitnessRow(raw, i);
    RowGates(CarryAfter(raw, i + 1), raw[i], i, |raw|);
    if i == 0 {
      StartLevel(raw);
    } else {
      WitnessRow(raw, i - 1);
      StepGates(CarryAfter(raw, i), raw[i - 1], raw[i], i, |raw|);
    }
  }

  /**
   * A row that the witness could have produced meets every gate its
   * selectors switch on exactly when its condition holds.
   */
  lemma RowHoldsIff(rows: seq<Row>, i: nat)
    requires i < |rows|
    requires Selectors(rows[i], i, |rows|) && FieldCells(rows[i])
    requires Booleans(rows[i]) && CharBooleans(rows[i])
    requires rows[i].notStr == 0 || rows[i].notStr == 1
    requires rows[i].backslash == Flag(rows[i].raw, BackslashCode)
    requires rows[i].closeBrace == Flag(rows[i].raw, CloseBraceCode)
    requires rows[i].levelInv == InverseOrOne(rows[i].level)
    requires i == 0 ==> (rows[0].raw == OpenBraceCode <==> StartConditions(rows[0]))
    requires 0 < i ==> Toggle(rows[i - 1], rows[i]) && BackslashEscaping(rows[i - 1], rows[i])
    requires 0 < i ==> CountLevels(rows[i - 1], rows[i]) && CountLevelsAtEnd(rows[i - 1], rows[i])
    ensures RowHolds(rows, i) <==> RowCondition(rows, i)
  {
    var r := rows[i];
    if 0 < i && i + 1 < |rows| {
      BodyRowIff(r);
    }
    if RowCondition(rows, i) {
      RowHoldsByParts(rows, i);
    }
  }

  /** On a body row, the input-dependent gates ask for a nonzero level and no backslash outside strings. */
  lemma BodyRowIff(r: Row)
    requires r.notStr == 0 || r.notStr == 1
    requires r.backslash == Flag(r.raw, BackslashCode) && r.levelInv == InverseOrOne(r.level)
    ensures NoBackslashOutsideStrings(r) && LevelInBody(r) <==>
            r.level != 0 && !(r.raw == BackslashCode && r.notStr == 1)
  {
    LevelInBodyIff(r);
  }

  /** The witness satisfies the circuit exactly when every row's condition holds. */
  lemma SatisfiedIff(raw: seq<int>)
    ensures Satisfied(Witness(raw)) <==> forall i :: 0 <= i < |raw| ==> RowCondition(Witness(raw), i)
  {
    forall i | 0 <= i < |raw|
      ensures RowHolds(Witness(raw), i) <==> RowCondition(Witness(raw), i)
    {
      WitnessFacts(raw, i);
      RowHoldsIff(Witness(raw), i);
    }
  }

  /** Starting from the initial values, row 0 is at level 1 exactly when it is an opening brace. */
  lemma StartLevel(raw: seq<int>)
    requires 1 <= |raw|
    ensures Witness(raw)[0].level == 1 <==> raw[0] == OpenBraceCode
    ensures StartConditions(Witness(raw)[0]) <==> raw[0] == OpenBraceCode
  {
    WitnessRow(raw, 0);
    StepEffect(Initial, raw[0]);
  }

  // ---------- levels ----------

  /** The level of the witness moves by at most one from a row to the next. */
  lemma LevelSteps(raw: seq<int>, i: nat)
    requires 0 < i < |raw|
    ensures -1 <= Witness(raw)[i].level - Witness(raw)[i - 1].level <= 1
  {
    WitnessRow(raw, i - 1);
    WitnessRow(raw, i);
    StepEffect(CarryAfter(raw, i), raw[i]);
  }

  /**
   * A walk that starts at 1, moves by at most one and never touches 0 up to
   * index `k` stays at 1 or above there.
   */
  lemma {:induction false} LevelsStayPositive(levels: seq<int>, k: nat)
    requires 1 <= |levels| && levels[0] == 1 && k < |levels|
    requires forall i :: 0 < i < |levels| ==> -1 <= levels[i] - levels[i - 1] <= 1
    requires forall i :: 0 < i <= k ==> levels[i] != 0
    ensures levels[k] >= 1
  {
    if k > 0 {
      LevelsStayPositive(levels, k - 1);
      assert -1 <= levels[k] - levels[k - 1] <= 1;
    }
  }

  /**
   * When the witness satisfies the circuit and has an end row, every row
   * before the end is at level 1 or above: the nonzero level the body gate
   * demands is in fact a positive one.
   */
  lemma AcceptedLevelsPositive(raw: seq<int>)
    requires 2 <= |raw| && Satisfied(Witness(raw))
    ensures forall i :: 0 <= i < |raw| - 1 ==> Witness(raw)[i].level >= 1
  {
    var n := |raw|;
    var w := Witness(raw);
    SatisfiedIff(raw);
    assert RowCondition(w, 0);
    StartLevel(raw);
    var levels := seq(n - 1, i requires 0 <= i < n - 1 => w[i].level);
    forall i | 0 < i < n - 1
      ensures -1 <= levels[i] - levels[i - 1] <= 1 && levels[i] != 0
    {
      LevelSteps(raw, i);
      assert RowCondition(w, i);
    }
    forall k | 0 <= k < n - 1
      ensures w[k].level >= 1
    {
      LevelsStayPositive(levels, k);
    }
  }
}
