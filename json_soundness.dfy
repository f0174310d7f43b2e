/**
 * What it takes for the structural circuit to be sound: four more gates
 * that the comments of `configure` describe but its equations leave out.
 * With them, every assignment that satisfies the circuit, whoever wrote
 * it, holds a well-nested input; and the witness of `synthesize` meets
 * them on every input, so nothing the circuit accepted before is lost.
 */
module JsonSoundness {
  import opened JsonConfig
  import opened JsonCircuit
  import opened BraceLexer
  import opened JsonAcceptance

  // ---------- the missing gates ----------

  /** An escape is only ever set inside a string. */
  predicate EscapeOnlyInStrings(r: Row)
  {
    r.notStr * r.strEscaped == 0
  }

  /** A quote right after an escaping backslash leaves `not_str` as it was. */
  predicate EscapedQuoteKeeps(prev: Row, cur: Row)
  {
    cur.doubleQuote * prev.strEscaped * (cur.notStr - prev.notStr) == 0
  }

  /** Inside a string the level stays where it was, braces included. */
  predicate LevelKeptInStrings(prev: Row, cur: Row)
  {
    (1 - cur.notStr) * (cur.level - prev.level) == 0
  }

  /** The added gates: the two row-transition fixes on every row, and Toggle on the end row too. */
  predicate FixedGates(rows: seq<Row>)
  {
    && 2 <= |rows|
    && (forall i :: 0 <= i < |rows| ==> EscapeOnlyInStrings(rows[i]))
    && (forall i :: 0 < i < |rows| ==> EscapedQuoteKeeps(rows[i - 1], rows[i]))
    && (forall i :: 0 < i < |rows| ==> LevelKeptInStrings(rows[i - 1], rows[i]))
    && Toggle(rows[|rows| - 2], rows[|rows| - 1])
  }

  /** The corrected circuit with the added gates. */
  predicate SatisfiedSound(rows: seq<Row>)
  {
    SatisfiedCorrected(rows) && FixedGates(rows)
  }

  /** The input an assignment claims to be about: its `raw` column. */
  function Raws(rows: seq<Row>): (raw: seq<int>)
    ensures |raw| == |rows|
    ensures forall i :: 0 <= i < |rows| ==> raw[i] == rows[i].raw
  {
    seq(|rows|, i requires 0 <= i < |rows| => rows[i].raw)
  }

  /** A row's state cells describe the scanner's state. */
  predicate RowAgrees(r: Row, s: Scan)
  {
    && r.notStr == (if s.mode == Outside then 1 else 0)
    && r.strEscaped == (if s.mode == Escaped then 1 else 0)
    && r.level == s.depth
  }

  // ---------- one body row ----------

  /** Every gate that constrains a body row `cur` after the row `prev`. */
  predicate BodyGates(prev: Row, cur: Row)
  {
    && FieldCells(cur) && Booleans(cur) && CharBooleans(cur)
    && NoBackslashOutsideStrings(cur) && LevelInBody(cur) && EscapeOnlyInStrings(cur)
    && Toggle(prev, cur) && BackslashEscaping(prev, cur) && CountLevels(prev, cur)
    && EscapedQuoteKeeps(prev, cur) && LevelKeptInStrings(prev, cur)
  }

  /** The flag cells of a row are those of its character. */
  predicate FlagsOf(r: Row)
  {
    && r.backslash == Flag(r.raw, BackslashCode) && r.doubleQuote == Flag(r.raw, DoubleQuoteCode)
    && r.openBrace == Flag(r.raw, OpenBraceCode) && r.closeBrace == Flag(r.raw, CloseBraceCode)
  }

  lemma FlagsForced(r: Row)
    requires FieldCells(r) && CharBooleans(r)
    ensures FlagsOf(r)
  {
    CharBooleansForceFlags(r);
  }

  /** A body row's mode cells are the scanner's next mode. */
  lemma ModeStep(prev: Row, cur: Row, s: Scan)
    requires RowAgrees(prev, s) && FlagsOf(cur) && Booleans(cur) && EscapeOnlyInStrings(cur)
    requires Toggle(prev, cur) && BackslashEscaping(prev, cur) && EscapedQuoteKeeps(prev, cur)
    ensures cur.notStr == (if NextMode(s.mode, cur.raw) == Outside then 1 else 0)
    ensures cur.strEscaped == (if NextMode(s.mode, cur.raw) == Escaped then 1 else 0)
  {
    var x := cur.raw;
    if x == DoubleQuoteCode {
      assert cur.doubleQuote == 1;
      match s.mode {
        case Outside =>
          assert cur.notStr + prev.notStr - 1 == 0;
          assert cur.backslash - cur.strEscaped == 0;
        case InString =>
          assert cur.notStr + prev.notStr - 1 == 0;
          assert cur.notStr * cur.strEscaped == 0;
        case Escaped =>
          assert cur.notStr - prev.notStr == 0;
          assert cur.strEscaped == 0;
      }
    } else {
      assert cur.doubleQuote == 0;
      assert cur.notStr - prev.notStr == 0;
      match s.mode {
        case Outside =>
          assert cur.notStr * cur.strEscaped == 0;
        case InString =>
          assert cur.backslash - cur.strEscaped == 0;
        case Escaped =>
          assert cur.strEscaped == 0;
      }
    }
  }

  /** A body row's level is the scanner's next depth. */
  lemma LevelStep(prev: Row, cur: Row, s: Scan)
    requires RowAgrees(prev, s) && FlagsOf(cur)
    requires Toggle(prev, cur) && CountLevels(prev, cur) && LevelKeptInStrings(prev, cur)
    ensures cur.level == NextDepth(s.mode, s.depth, cur.raw)
  {
    var x := cur.raw;
    if x == OpenBraceCode || x == CloseBraceCode {
      assert cur.doubleQuote == 0;
      assert cur.notStr - prev.notStr == 0;
      if s.mode == Outside {
        assert cur.notStr == 1;
        if x == OpenBraceCode {
          assert cur.openBrace == 1;
          assert cur.level - prev.level - 1 == 0;
        } else {
          assert cur.closeBrace == 1;
          assert cur.level - prev.level + 1 == 0;
        }
      } else {
        assert 1 - cur.notStr == 1;
        assert cur.level - prev.level == 0;
      }
    } else {
      assert 1 - cur.openBrace - cur.closeBrace == 1;
      assert cur.level - prev.level == 0;
    }
  }

  /**
   * A body row that meets its gates moves its cells exactly as the scanner
   * moves, and the scanner finds nothing wrong with its character.
   */
  lemma BodyStep(prev: Row, cur: Row, s: Scan)
    requires RowAgrees(prev, s) && BodyGates(prev, cur)
    ensures RowAgrees(cur, LexStep(s, cur.raw))
    ensures LexStep(s, cur.raw).ok == s.ok
  {
    FlagsForced(cur);
    ModeStep(prev, cur, s);
    LevelStep(prev, cur, s);
    LevelInBodyForcesNonzero(cur);
  }

  // ---------- the start and end rows ----------

  /** The start row is an opening brace that leaves the scanner where `Opened` says. */
  lemma StartStep(r: Row)
    requires StartConditions(r) && EscapeOnlyInStrings(r)
    ensures r.raw == OpenBraceCode && RowAgrees(r, Opened)
  {
    assert r.notStr == 1;
  }

  /** Every gate that constrains the end row `cur` after the row `prev`. */
  predicate EndGates(prev: Row, cur: Row)
  {
    && FieldCells(cur) && CharBooleans(cur)
    && EndConditions(cur) && LevelAtEnd(cur)
    && CountLevelsAtEnd(prev, cur) && Toggle(prev, cur)
  }

  /** The end row is a closing brace, and before it the scanner is outside strings at depth 1. */
  lemma EndStep(prev: Row, cur: Row, s: Scan)
    requires RowAgrees(prev, s) && EndGates(prev, cur)
    ensures cur.raw == CloseBraceCode && s.mode == Outside && s.depth == 1
  {
    FlagsForced(cur);
    assert cur.closeBrace == 1 && cur.notStr == 1;
    assert cur.raw == CloseBraceCode;
    assert cur.doubleQuote == 0;
    assert cur.notStr - prev.notStr == 0;
    assert cur.level - prev.level + 1 == 0;
  }

  // ---------- any satisfying assignment ----------

  /** The gates of body row `j` of a soundly satisfied assignment. */
  lemma BodyRowGates(rows: seq<Row>, j: nat)
    requires SatisfiedSound(rows) && 0 < j < |rows| - 1
    ensures BodyGates(rows[j - 1], rows[j])
  {
    assert RowHolds(rows, j);
    assert EscapeOnlyInStrings(rows[j]);
    assert EscapedQuoteKeeps(rows[j - 1], rows[j]);
    assert LevelKeptInStrings(rows[j - 1], rows[j]);
  }

  /** The gates of the start row and of the end row of a soundly satisfied assignment. */
  lemma TerminalRowGates(rows: seq<Row>)
    requires SatisfiedSound(rows)
    ensures StartConditions(rows[0]) && EscapeOnlyInStrings(rows[0])
    ensures EndGates(rows[|rows| - 2], rows[|rows| - 1])
  {
    assert RowHolds(rows, 0);
    assert EscapeOnlyInStrings(rows[0]);
    assert RowHolds(rows, |rows| - 1);
  }

  /**
   * Up to any body row, the cells of a soundly satisfied assignment follow
   * the scanner over its `raw` column, and the scanner finds nothing wrong.
   */
  lemma {:induction false} SoundPrefix(rows: seq<Row>, i: nat)
    requires SatisfiedSound(rows) && 1 <= i <= |rows| - 1
    ensures RowAgrees(rows[i - 1], Lex(Opened, Raws(rows)[1..i]))
    ensures Lex(Opened, Raws(rows)[1..i]).ok
  {
    var raw := Raws(rows);
    if i == 1 {
      TerminalRowGates(rows);
      StartStep(rows[0]);
      assert raw[1..1] == [];
    } else {
      SoundPrefix(rows, i - 1);
      BodyRowGates(rows, i - 1);
      BodyStep(rows[i - 2], rows[i - 1], Lex(Opened, raw[1..i - 1]));
      assert raw[1..i][..|raw[1..i]| - 1] == raw[1..i - 1];
      assert raw[1..i][|raw[1..i]| - 1] == rows[i - 1].raw;
    }
  }

  /**
   * Soundness: whatever assignment satisfies the circuit with the added
   * gates, its `raw` column is a well-nested object.
   */
  lemma SoundImpliesWellNested(rows: seq<Row>)
    requires SatisfiedSound(rows)
    ensures WellNested(Raws(rows))
  {
    var n := |rows|;
    var raw := Raws(rows);
    SoundPrefix(rows, n - 1);
    TerminalRowGates(rows);
    StartStep(rows[0]);
    EndStep(rows[n - 2], rows[n - 1], Lex(Opened, raw[1..n - 1]));
  }

  // ---------- the witness meets the added gates ----------

  /** A witness row never escapes outside a string. */
  lemma RowEscapeOnlyInStrings(c: Carry, x: int, i: nat, n: nat)
    requires Consistent(c)
    ensures EscapeOnlyInStrings(RowOf(c, x, i, n))
  {
  }

  /** Two consecutive witness rows meet the added transition gates. */
  lemma FixedStepGates(c: Carry, px: int, x: int, i: nat, n: nat)
    requires Consistent(c) && 0 < i
    ensures EscapedQuoteKeeps(RowOf(c, px, i - 1, n), RowOf(Step(c, x), x, i, n))
    ensures LevelKeptInStrings(RowOf(c, px, i - 1, n), RowOf(Step(c, x), x, i, n))
  {
    StepEffect(c, x);
    var cur := RowOf(Step(c, x), x, i, n);
    if cur.notStr == 0 && (x == OpenBraceCode || x == CloseBraceCode) {
      assert c.notStr == 0;
    }
  }

  /** The witness of any input with an end row meets the added gates. */
  lemma WitnessFixedGates(raw: seq<int>)
    requires 2 <= |raw|
    ensures FixedGates(Witness(raw))
  {
    var w := Witness(raw);
    forall i | 0 <= i < |raw|
      ensures EscapeOnlyInStrings(w[i])
    {
      WitnessRow(raw, i);
      RowEscapeOnlyInStrings(CarryAfter(raw, i + 1), raw[i], i, |raw|);
    }
    forall i | 0 < i < |raw|
      ensures EscapedQuoteKeeps(w[i - 1], w[i]) && LevelKeptInStrings(w[i - 1], w[i])
    {
      WitnessRow(raw, i - 1);
      WitnessRow(raw, i);
      FixedStepGates(CarryAfter(raw, i), raw[i - 1], raw[i], i, |raw|);
    }
    WitnessFacts(raw, |raw| - 1);
  }

  /** The witness holds its input in the `raw` column. */
  lemma WitnessRaws(raw: seq<int>)
    ensures Raws(Witness(raw)) == raw
  {
  }

  /** The added gates reject the witness of no well-nested input. */
  lemma SoundAcceptsIffWellNested(raw: seq<int>)
    ensures SatisfiedSound(Witness(raw)) <==> WellNested(raw)
  {
    AcceptsIffWellNested(raw);
    if 2 <= |raw| {
      WitnessFixedGates(raw);
    }
  }

  /**
   * The circuit with the added gates decides the language: some assignment
   * with `raw` as its input satisfies it exactly when `raw` is well nested.
   */
  lemma SoundCircuitDecides(raw: seq<int>)
    ensures (exists rows :: Raws(rows) == raw && SatisfiedSound(rows)) <==> WellNested(raw)
  {
    if WellNested(raw) {
      SoundAcceptsIffWellNested(raw);
      WitnessRaws(raw);
    }
    if exists rows :: Raws(rows) == raw && SatisfiedSound(rows) {
      var rows :| Raws(rows) == raw && SatisfiedSound(rows);
      SoundImpliesWellNested(rows);
    }
  }
}
