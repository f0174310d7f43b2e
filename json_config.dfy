/**
 * The constraint system of the structural JSON circuit: one row per input
 * character, thirteen advice cells and four selectors per row, and the
 * gates of `JsonConfig::configure` restated as equations over integers
 * between a row and the row before it. A selector multiplying a gate
 * becomes an implication.
 */
module JsonConfig {

  /**
   * A field element written as a fraction `num / den`. Only the inverse
   * cells need it: the witness puts `v^-1` there, which is `Fraction(1, v)`.
   */
  datatype Fraction = Fraction(num: int, den: int)

  /**
   * The value the witness gives an inverse cell: one when `v` is zero, the
   * inverse of `v` otherwise; it is a field element either way.
   */
  function InverseOrOne(v: int): Fraction
  {
    if v == 0 then Fraction(1, 1) else Fraction(1, v)
  }

  /** The inverse cell of `v` is a field element, and `v` times it is 1 unless `v` is 0. */
  lemma InverseOrOneProduct(v: int)
    ensures InverseOrOne(v).den != 0
    ensures ProductPlusIsZero(v, InverseOrOne(v), if v == 0 then 0 else -1)
  {
  }

  /** `a * f + c == 0`, multiplied through by the denominator of `f`. */
  predicate ProductPlusIsZero(a: int, f: Fraction, c: int)
  {
    a * f.num + c * f.den == 0
  }

  /** The character codes the circuit recognises. */
  const BackslashCode: int := 0x5c
  const DoubleQuoteCode: int := 0x22
  const OpenBraceCode: int := 0x7b
  const CloseBraceCode: int := 0x7d

  /** One row of the circuit: the advice cells, then the four selectors. */
  datatype Row = Row(
    raw: int,
    backslashInv: Fraction, doubleQuoteInv: Fraction,
    openBraceInv: Fraction, closeBraceInv: Fraction,
    backslash: int, doubleQuote: int, openBrace: int, closeBrace: int,
    notStr: int, strEscaped: int, level: int, levelInv: Fraction,
    body: bool, start: bool, end: bool, all: bool)

  /** Every fraction cell is a field element: its denominator is not zero. */
  predicate FieldCells(r: Row)
  {
    && r.backslashInv.den != 0 && r.doubleQuoteInv.den != 0
    && r.openBraceInv.den != 0 && r.closeBraceInv.den != 0
    && r.levelInv.den != 0
  }

  // ---------- the gates ----------

  /** Gate "Booleans": `v * (1 - v) == 0` for the six boolean cells. */
  predicate Booleans(r: Row)
  {
    && r.notStr * (1 - r.notStr) == 0
    && r.backslash * (1 - r.backslash) == 0
    && r.doubleQuote * (1 - r.doubleQuote) == 0
    && r.openBrace * (1 - r.openBrace) == 0
    && r.closeBrace * (1 - r.closeBrace) == 0
    && r.strEscaped * (1 - r.strEscaped) == 0
  }

  /**
   * Gate "Char booleans": a flag is 0 unless `raw` is its code, and
   * `(raw - code) * inv + flag - 1 == 0`, which makes it 1 when `raw` is.
   */
  predicate CharBooleans(r: Row)
  {
    && (r.raw - BackslashCode) * r.backslash == 0
    && (r.raw - DoubleQuoteCode) * r.doubleQuote == 0
    && (r.raw - OpenBraceCode) * r.openBrace == 0
    && (r.raw - CloseBraceCode) * r.closeBrace == 0
    && ProductPlusIsZero(r.raw - BackslashCode, r.backslashInv, r.backslash - 1)
    && ProductPlusIsZero(r.raw - DoubleQuoteCode, r.doubleQuoteInv, r.doubleQuote - 1)
    && ProductPlusIsZero(r.raw - OpenBraceCode, r.openBraceInv, r.openBrace - 1)
    && ProductPlusIsZero(r.raw - CloseBraceCode, r.closeBraceInv, r.closeBrace - 1)
  }

  /**
   * Gate "Terminal conditions", start half: the first row is an opening
   * brace outside any string at level 1. The source states `level == 1`
   * twice; once is enough here.
   */
  predicate StartConditions(r: Row)
  {
    && r.raw - OpenBraceCode == 0
    && 1 - r.notStr == 0
    && 1 - r.openBrace == 0
    && r.backslash == 0
    && r.closeBrace == 0
    && r.doubleQuote == 0
    && r.level - 1 == 0
  }

  /** Gate "Terminal conditions", end half: outside strings, close-brace flag set. */
  predicate EndConditions(r: Row)
  {
    && 1 - r.notStr == 0
    && 1 - r.closeBrace == 0
  }

  /**
   * Gate "Toggle not_str": `not_str` is kept on any other character, and
   * on a quote whose predecessor was not escaped it flips.
   */
  predicate Toggle(prev: Row, cur: Row)
  {
    && (1 - cur.doubleQuote) * (cur.notStr - prev.notStr) == 0
    && cur.doubleQuote * (1 - prev.strEscaped) * (cur.notStr + prev.notStr - 1) == 0
  }

  /** Gate "Backslash escaping", first equation: no backslash outside a string. */
  predicate NoBackslashOutsideStrings(cur: Row)
  {
    cur.notStr * cur.backslash == 0
  }

  /**
   * Gate "Backslash escaping", the other two equations: an escape never
   * follows an escape, and inside a string an unescaped row is escaping
   * exactly when it is a backslash.
   */
  predicate BackslashEscaping(prev: Row, cur: Row)
  {
    && prev.strEscaped * cur.strEscaped == 0
    && (1 - cur.notStr) * (1 - prev.strEscaped) * (cur.backslash - cur.strEscaped) == 0
  }

  /**
   * Gate "Count {} levels" on body rows: the level is kept unless the row
   * is a brace, and outside strings `{` adds one and `}` subtracts one.
   */
  predicate CountLevels(prev: Row, cur: Row)
  {
    && (1 - cur.openBrace - cur.closeBrace) * (cur.level - prev.level) == 0
    && cur.notStr * cur.openBrace * (cur.level - prev.level - 1) == 0
    && cur.notStr * cur.closeBrace * (cur.level - prev.level + 1) == 0
  }

  /** Gate "Count {} levels" on the end row: a closing brace subtracts one. */
  predicate CountLevelsAtEnd(prev: Row, cur: Row)
  {
    cur.notStr * cur.closeBrace * (cur.level - prev.level + 1) == 0
  }

  /** Gate "Check level structure" on the end row: the level is back to 0. */
  predicate LevelAtEnd(cur: Row)
  {
    cur.level == 0
  }

  /** Gate "Check level structure" on body rows: `1 - level * level_inv == 0`. */
  predicate LevelInBody(cur: Row)
  {
    ProductPlusIsZero(-cur.level, cur.levelInv, 1)
  }

  // ---------- the layout and the whole circuit ----------

  /**
   * The selectors `synthesize` enables on row `i` of `n`: `json_all`
   * everywhere, `start` on row 0, `body` on rows 1 to n-2 and `end` on
   * the last row when it is not row 0.
   */
  predicate Selectors(r: Row, i: nat, n: nat)
  {
    && r.all
    && r.start == (i == 0)
    && r.body == (0 < i && i + 1 < n)
    && r.end == (0 < i && n <= i + 1)
  }

  /** Every gate that the selectors of row `i` switch on holds there. */
  predicate RowHolds(rows: seq<Row>, i: nat)
    requires i < |rows|
  {
    var r := rows[i];
    && Selectors(r, i, |rows|)
    && FieldCells(r)
    && (r.all ==> Booleans(r))
    && (r.body ==> CharBooleans(r) && NoBackslashOutsideStrings(r) && LevelInBody(r))
    && (r.start ==> StartConditions(r))
    && (r.end ==> EndConditions(r) && LevelAtEnd(r))
    && (0 < i && r.body ==>
          Toggle(rows[i - 1], r) && BackslashEscaping(rows[i - 1], r) && CountLevels(rows[i - 1], r))
    && (0 < i && r.end ==> CountLevelsAtEnd(rows[i - 1], r))
  }

  /** The assignment satisfies the circuit, as `MockProver::assert_satisfied` demands. */
  predicate Satisfied(rows: seq<Row>)
  {
    forall i: nat :: i < |rows| ==> RowHolds(rows, i)
  }

  /**
   * The circuit as its comments intend it: at least a start and an end
   * row, and the character flags tied to `raw` on the end row too, so the
   * close-brace flag there does force a closing brace.
   */
  predicate SatisfiedCorrected(rows: seq<Row>)
  {
    && 2 <= |rows|
    && Satisfied(rows)
    && CharBooleans(rows[|rows| - 1])
  }

  // ---------- what the gates force on any assignment ----------

  /**
   * With field cells, the character gates hold exactly when each flag is 1
   * on its own code and 0 elsewhere, given that the inverse cells hold
   * what the witness puts there; in one direction they need nothing of the
   * inverse cells.
   */
  lemma CharBooleansForceFlags(r: Row)
    requires FieldCells(r) && CharBooleans(r)
    ensures r.backslash == (if r.raw == BackslashCode then 1 else 0)
    ensures r.doubleQuote == (if r.raw == DoubleQuoteCode then 1 else 0)
    ensures r.openBrace == (if r.raw == OpenBraceCode then 1 else 0)
    ensures r.closeBrace == (if r.raw == CloseBraceCode then 1 else 0)
  {
    FlagForced(r.raw, BackslashCode, r.backslash, r.backslashInv);
    FlagForced(r.raw, DoubleQuoteCode, r.doubleQuote, r.doubleQuoteInv);
    FlagForced(r.raw, OpenBraceCode, r.openBrace, r.openBraceInv);
    FlagForced(r.raw, CloseBraceCode, r.closeBrace, r.closeBraceInv);
  }

  /** The two character equations of one code force its flag. */
  lemma FlagForced(raw: int, code: int, flag: int, inv: Fraction)
    requires inv.den != 0
    requires (raw - code) * flag == 0 && ProductPlusIsZero(raw - code, inv, flag - 1)
    ensures flag == (if raw == code then 1 else 0)
  {
    if raw == code {
      assert (flag - 1) * inv.den == 0;
    }
  }

  /** With field cells, the body level gate forces a nonzero level. */
  lemma LevelInBodyForcesNonzero(r: Row)
    requires FieldCells(r) && LevelInBody(r)
    ensures r.level != 0
  {
  }

  /** With the inverse the witness assigns, the body level gate holds exactly when the level is nonzero. */
  lemma LevelInBodyIff(r: Row)
    requires r.levelInv == InverseOrOne(r.level)
    ensures LevelInBody(r) <==> r.level != 0
  {
  }

  /** Any satisfying assignment starts with an opening brace at level 1 outside strings. */
  lemma StartRowForced(rows: seq<Row>)
    requires Satisfied(rows) && 1 <= |rows|
    ensures rows[0].raw == OpenBraceCode && rows[0].notStr == 1 && rows[0].level == 1
  {
    assert RowHolds(rows, 0);
  }

  /** In the corrected circuit the last row is a closing brace outside strings at level 0. */
  lemma EndRowForcesCloseBrace(rows: seq<Row>)
    requires SatisfiedCorrected(rows)
    ensures rows[|rows| - 1].raw == CloseBraceCode
    ensures rows[|rows| - 1].notStr == 1 && rows[|rows| - 1].level == 0
  {
    var n := |rows|;
    assert RowHolds(rows, n - 1);
    CharBooleansForceFlags(rows[n - 1]);
  }

  // ---------- the end row as written ----------

  /** An opening brace at level 1, the start row of any satisfying assignment. */
  const ForgedStart: Row := Row(OpenBraceCode, Fraction(1, 1), Fraction(1, 1), Fraction(1, 1), Fraction(1, 1),
                                0, 0, 1, 0, 1, 0, 1, Fraction(1, 1), false, true, false, true)

  /** The letter `a` (0x61) with its close-brace flag set and the level back to 0. */
  const ForgedEnd: Row := Row(0x61, Fraction(1, 1), Fraction(1, 1), Fraction(1, 1), Fraction(1, 1),
                              0, 0, 0, 1, 1, 0, 0, Fraction(1, 1), false, false, true, true)

  /** Two rows that are the witness of no input. */
  const ForgedRows: seq<Row> := [ForgedStart, ForgedEnd]

  lemma ForgedStartHolds()
    ensures RowHolds(ForgedRows, 0)
  {
    assert ForgedRows[0] == ForgedStart;
    assert StartConditions(ForgedStart) && Booleans(ForgedStart);
  }

  lemma ForgedEndHolds()
    ensures RowHolds(ForgedRows, 1)
  {
    assert ForgedRows[0] == ForgedStart && ForgedRows[1] == ForgedEnd;
    assert ForgedEnd.notStr == 1 && ForgedEnd.closeBrace == 1;
    assert ForgedEnd.level - ForgedStart.level + 1 == 0;
  }

  /**
   * As written, the character gates skip the end row, so nothing ties its
   * close-brace flag to `raw`: `{a` satisfies the circuit, and the
   * corrected circuit rejects it.
   */
  lemma EndRowNotForced()
    ensures Satisfied(ForgedRows) && ForgedRows[1].raw != CloseBraceCode
    ensures !SatisfiedCorrected(ForgedRows)
  {
    forall i: nat | i < |ForgedRows|
      ensures RowHolds(ForgedRows, i)
    {
      if i == 0 {
        ForgedStartHolds();
      } else {
        assert i == 1;
        ForgedEndHolds();
      }
    }
    assert ForgedRows[1] == ForgedEnd;
    assert ForgedEnd.raw - CloseBraceCode == -28 && ForgedEnd.closeBrace == 1;
    assert !CharBooleans(ForgedEnd);
  }

  /** Row `i` holds once each group of its gates is known to hold. */
  lemma RowHoldsByParts(rows: seq<Row>, i: nat)
    requires i < |rows|
    requires Selectors(rows[i], i, |rows|) && FieldCells(rows[i]) && Booleans(rows[i])
    requires rows[i].body ==> CharBooleans(rows[i]) && NoBackslashOutsideStrings(rows[i]) && LevelInBody(rows[i])
    requires rows[i].start ==> StartConditions(rows[i])
    requires rows[i].end ==> EndConditions(rows[i]) && LevelAtEnd(rows[i])
    requires 0 < i ==> Toggle(rows[i - 1], rows[i]) && BackslashEscaping(rows[i - 1], rows[i])
    requires 0 < i ==> CountLevels(rows[i - 1], rows[i]) && CountLevelsAtEnd(rows[i - 1], rows[i])
    ensures RowHolds(rows, i)
  {
  }
}
