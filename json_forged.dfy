/**
 * Assignments that satisfy the structural circuit, even with its end row's
 * character gates restored and an end row required, although their `raw`
 * column is not a well-nested object: one for each gate that `configure`
 * leaves out. Each row's flags, inverse cells and selectors are what the
 * witness would write; only the state cells (`not_str`, `str_escaped`,
 * `level` and its inverse) are forged. The added gates of `JsonSoundness`
 * reject every one of them.
 */
module JsonForged {
  import opened JsonConfig
  import opened BraceLexer
  import opened JsonSoundness

  /** Every row below `k` meets the gates its selectors switch on. */
  predicate HoldsBelow(rows: seq<Row>, k: nat)
  {
    forall i: nat :: i < k && i < |rows| ==> RowHolds(rows, i)
  }

  /** The start row holds once its own gates do. */
  lemma StartRowHolds(rows: seq<Row>, r: Row)
    requires 1 <= |rows| && rows[0] == r
    requires Selectors(r, 0, |rows|) && FieldCells(r) && Booleans(r) && StartConditions(r)
    ensures HoldsBelow(rows, 1)
  {
    assert RowHolds(rows, 0);
  }

  /** Body row `i` holds once its own gates and those it shares with `prev` do. */
  lemma BodyRowHolds(rows: seq<Row>, i: nat, prev: Row, cur: Row)
    requires 0 < i < |rows| - 1 && rows[i - 1] == prev && rows[i] == cur && HoldsBelow(rows, i)
    requires Selectors(cur, i, |rows|) && FieldCells(cur) && Booleans(cur) && CharBooleans(cur)
    requires NoBackslashOutsideStrings(cur) && LevelInBody(cur)
    requires Toggle(prev, cur) && BackslashEscaping(prev, cur) && CountLevels(prev, cur)
    ensures HoldsBelow(rows, i + 1)
  {
    assert RowHolds(rows, i);
  }

  /** The end row holds once its own gates and the end level count do; then every row does. */
  lemma EndRowHolds(rows: seq<Row>, prev: Row, cur: Row)
    requires 2 <= |rows| && rows[|rows| - 2] == prev && rows[|rows| - 1] == cur
    requires HoldsBelow(rows, |rows| - 1)
    requires Selectors(cur, |rows| - 1, |rows|) && FieldCells(cur) && Booleans(cur)
    requires EndConditions(cur) && LevelAtEnd(cur) && CountLevelsAtEnd(prev, cur)
    ensures Satisfied(rows)
  {
    assert RowHolds(rows, |rows| - 1);
    forall i: nat | i < |rows|
      ensures RowHolds(rows, i)
    {
      if i < |rows| - 1 {
        assert HoldsBelow(rows, |rows| - 1);
      }
    }
  }

  // ---------- an escape outside strings ----------

  const EscapeOutside0: Row := Row(0x7b, Fraction(1, 31), Fraction(1, 89), Fraction(1, 1), Fraction(1, -2),
      0, 0, 1, 0, 1, 1, 1, Fraction(1, 1), false, true, false, true)
  const EscapeOutside1: Row := Row(0x22, Fraction(1, -58), Fraction(1, 1), Fraction(1, -89), Fraction(1, -91),
      0, 1, 0, 0, 1, 0, 1, Fraction(1, 1), true, false, false, true)
  const EscapeOutside2: Row := Row(0x7d, Fraction(1, 33), Fraction(1, 91), Fraction(1, 2), Fraction(1, 1),
      0, 0, 0, 1, 1, 0, 0, Fraction(1, 1), false, false, true, true)

  /**
   * `{"}`: the start row claims an escape, so the quote after it keeps
   * `not_str` at 1 and the closing brace seems to be outside strings.
   */
  const EscapeOutside: seq<Row> := [EscapeOutside0, EscapeOutside1, EscapeOutside2]

  lemma EscapeOutsideRow0()
    ensures HoldsBelow(EscapeOutside, 1)
  {
    StartRowHolds(EscapeOutside, EscapeOutside0);
  }

  lemma EscapeOutsideRow1()
    requires HoldsBelow(EscapeOutside, 1)
    ensures HoldsBelow(EscapeOutside, 2)
  {
    BodyRowHolds(EscapeOutside, 1, EscapeOutside0, EscapeOutside1);
  }

  lemma EscapeOutsideRow2()
    requires HoldsBelow(EscapeOutside, 2)
    ensures Satisfied(EscapeOutside)
  {
    EndRowHolds(EscapeOutside, EscapeOutside1, EscapeOutside2);
  }

  lemma EscapeOutsideSatisfied()
    ensures Satisfied(EscapeOutside)
  {
    EscapeOutsideRow0();
    EscapeOutsideRow1();
    EscapeOutsideRow2();
  }

  lemma EscapeOutsideCorrected()
    ensures SatisfiedCorrected(EscapeOutside)
  {
    EscapeOutsideSatisfied();
    assert EscapeOutside[|EscapeOutside| - 1] == EscapeOutside2;
  }

  lemma EscapeOutsideNotWellNested()
    ensures Raws(EscapeOutside) == [OpenBraceCode, DoubleQuoteCode, CloseBraceCode]
    ensures !WellNested(Raws(EscapeOutside))
  {
    var raw := Raws(EscapeOutside);
    assert raw == [OpenBraceCode, DoubleQuoteCode, CloseBraceCode];
    var body := [DoubleQuoteCode];
    assert raw[1..|raw| - 1] == body;
    assert body[..0] == [];
    assert Lex(Opened, body) == Scan(InString, 1, true);
  }

  lemma EscapeOutsideViolates()
    ensures !EscapeOnlyInStrings(EscapeOutside0)
  {
  }

  lemma EscapeOutsideRejected()
    ensures !SatisfiedSound(EscapeOutside)
  {
    if SatisfiedSound(EscapeOutside) {
      EscapeOutsideNotWellNested();
      SoundImpliesWellNested(EscapeOutside);
    }
  }

  /** The corrected circuit accepts it; its input is not well nested; the added gates reject it. */
  lemma EscapeOutsideAccepted()
    ensures SatisfiedCorrected(EscapeOutside)
    ensures Raws(EscapeOutside) == [OpenBraceCode, DoubleQuoteCode, CloseBraceCode] && !WellNested(Raws(EscapeOutside))
    ensures !EscapeOnlyInStrings(EscapeOutside0)
    ensures !SatisfiedSound(EscapeOutside)
  {
    EscapeOutsideCorrected();
    EscapeOutsideNotWellNested();
    EscapeOutsideViolates();
    EscapeOutsideRejected();
  }

  // ---------- an escaped quote that closes the string ----------

  const EscapedQuoteCloses0: Row := Row(0x7b, Fraction(1, 31), Fraction(1, 89), Fraction(1, 1), Fraction(1, -2),
      0, 0, 1, 0, 1, 0, 1, Fraction(1, 1), false, true, false, true)
  const EscapedQuoteCloses1: Row := Row(0x22, Fraction(1, -58), Fraction(1, 1), Fraction(1, -89), Fraction(1, -91),
      0, 1, 0, 0, 0, 0, 1, Fraction(1, 1), true, false, false, true)
  const EscapedQuoteCloses2: Row := Row(0x5c, Fraction(1, 1), Fraction(1, 58), Fraction(1, -31), Fraction(1, -33),
      1, 0, 0, 0, 0, 1, 1, Fraction(1, 1), true, false, false, true)
  const EscapedQuoteCloses3: Row := Row(0x22, Fraction(1, -58), Fraction(1, 1), Fraction(1, -89), Fraction(1, -91),
      0, 1, 0, 0, 1, 0, 1, Fraction(1, 1), true, false, false, true)
  const EscapedQuoteCloses4: Row := Row(0x7d, Fraction(1, 33), Fraction(1, 91), Fraction(1, 2), Fraction(1, 1),
      0, 0, 0, 1, 1, 0, 0, Fraction(1, 1), false, false, true, true)

  /**
   * `{"\"}`: the escaped quote flips `not_str` anyway, and the string
   * seems closed before the closing brace.
   */
  const EscapedQuoteCloses: seq<Row> := [EscapedQuoteCloses0, EscapedQuoteCloses1, EscapedQuoteCloses2, EscapedQuoteCloses3, EscapedQuoteCloses4]

  lemma EscapedQuoteClosesRow0()
    ensures HoldsBelow(EscapedQuoteCloses, 1)
  {
    StartRowHolds(EscapedQuoteCloses, EscapedQuoteCloses0);
  }

  lemma EscapedQuoteClosesRow1()
    requires HoldsBelow(EscapedQuoteCloses, 1)
    ensures HoldsBelow(EscapedQuoteCloses, 2)
  {
    BodyRowHolds(EscapedQuoteCloses, 1, EscapedQuoteCloses0, EscapedQuoteCloses1);
  }

  lemma EscapedQuoteClosesRow2()
    requires HoldsBelow(EscapedQuoteCloses, 2)
    ensures HoldsBelow(EscapedQuoteCloses, 3)
  {
    BodyRowHolds(EscapedQuoteCloses, 2, EscapedQuoteCloses1, EscapedQuoteCloses2);
  }

  lemma EscapedQuoteClosesRow3()
    requires HoldsBelow(EscapedQuoteCloses, 3)
    ensures HoldsBelow(EscapedQuoteCloses, 4)
  {
    BodyRowHolds(EscapedQuoteCloses, 3, EscapedQuoteCloses2, EscapedQuoteCloses3);
  }

  lemma EscapedQuoteClosesRow4()
    requires HoldsBelow(EscapedQuoteCloses, 4)
    ensures Satisfied(EscapedQuoteCloses)
  {
    EndRowHolds(EscapedQuoteCloses, EscapedQuoteCloses3, EscapedQuoteCloses4);
  }

  lemma EscapedQuoteClosesSatisfied()
    ensures Satisfied(EscapedQuoteCloses)
  {
    EscapedQuoteClosesRow0();
    EscapedQuoteClosesRow1();
    EscapedQuoteClosesRow2();
    EscapedQuoteClosesRow3();
    EscapedQuoteClosesRow4();
  }

  lemma EscapedQuoteClosesCorrected()
    ensures SatisfiedCorrected(EscapedQuoteCloses)
  {
    EscapedQuoteClosesSatisfied();
    assert EscapedQuoteCloses[|EscapedQuoteCloses| - 1] == EscapedQuoteCloses4;
  }

  lemma EscapedQuoteClosesNotWellNested()
    ensures Raws(EscapedQuoteCloses) == [OpenBraceCode, DoubleQuoteCode, BackslashCode, DoubleQuoteCode, CloseBraceCode]
    ensures !WellNested(Raws(EscapedQuoteCloses))
  {
    var raw := Raws(EscapedQuoteCloses);
    assert raw == [OpenBraceCode, DoubleQuoteCode, BackslashCode, DoubleQuoteCode, CloseBraceCode];
    var body := [DoubleQuoteCode, BackslashCode, DoubleQuoteCode];
    assert raw[1..|raw| - 1] == body;
    assert body[..1] == [DoubleQuoteCode];
    assert body[..1][..0] == [];
    assert Lex(Opened, body[..1]) == Scan(InString, 1, true);
    assert body[..2] == [DoubleQuoteCode, BackslashCode];
    assert body[..2][..1] == body[..1];
    assert Lex(Opened, body[..2]) == Scan(Escaped, 1, true);
    assert body[..2] == body[..2];
    assert Lex(Opened, body) == Scan(InString, 1, true);
  }

  lemma EscapedQuoteClosesViolates()
    ensures !EscapedQuoteKeeps(EscapedQuoteCloses2, EscapedQuoteCloses3)
  {
  }

  lemma EscapedQuoteClosesRejected()
    ensures !SatisfiedSound(EscapedQuoteCloses)
  {
    if SatisfiedSound(EscapedQuoteCloses) {
      EscapedQuoteClosesNotWellNested();
      SoundImpliesWellNested(EscapedQuoteCloses);
    }
  }

  /** The corrected circuit accepts it; its input is not well nested; the added gates reject it. */
  lemma EscapedQuoteClosesAccepted()
    ensures SatisfiedCorrected(EscapedQuoteCloses)
    ensures Raws(EscapedQuoteCloses) == [OpenBraceCode, DoubleQuoteCode, BackslashCode, DoubleQuoteCode, CloseBraceCode] && !WellNested(Raws(EscapedQuoteCloses))
    ensures !EscapedQuoteKeeps(EscapedQuoteCloses2, EscapedQuoteCloses3)
    ensures !SatisfiedSound(EscapedQuoteCloses)
  {
    EscapedQuoteClosesCorrected();
    EscapedQuoteClosesNotWellNested();
    EscapedQuoteClosesViolates();
    EscapedQuoteClosesRejected();
  }

  // ---------- a brace inside a string that counts ----------

  const BraceInString0: Row := Row(0x7b, Fraction(1, 31), Fraction(1, 89), Fraction(1, 1), Fraction(1, -2),
      0, 0, 1, 0, 1, 0, 1, Fraction(1, 1), false, true, false, true)
  const BraceInString1: Row := Row(0x22, Fraction(1, -58), Fraction(1, 1), Fraction(1, -89), Fraction(1, -91),
      0, 1, 0, 0, 0, 0, 1, Fraction(1, 1), true, false, false, true)
  const BraceInString2: Row := Row(0x7b, Fraction(1, 31), Fraction(1, 89), Fraction(1, 1), Fraction(1, -2),
      0, 0, 1, 0, 0, 0, 2, Fraction(1, 2), true, false, false, true)
  const BraceInString3: Row := Row(0x22, Fraction(1, -58), Fraction(1, 1), Fraction(1, -89), Fraction(1, -91),
      0, 1, 0, 0, 1, 0, 2, Fraction(1, 2), true, false, false, true)
  const BraceInString4: Row := Row(0x7d, Fraction(1, 33), Fraction(1, 91), Fraction(1, 2), Fraction(1, 1),
      0, 0, 0, 1, 1, 0, 1, Fraction(1, 1), true, false, false, true)
  const BraceInString5: Row := Row(0x7d, Fraction(1, 33), Fraction(1, 91), Fraction(1, 2), Fraction(1, 1),
      0, 0, 0, 1, 1, 0, 0, Fraction(1, 1), false, false, true, true)

  /**
   * `{"{"}}`: the brace inside the string raises the level, so the
   * last brace seems to match the first.
   */
  const BraceInString: seq<Row> := [BraceInString0, BraceInString1, BraceInString2, BraceInString3, BraceInString4, BraceInString5]

  lemma BraceInStringRow0()
    ensures HoldsBelow(BraceInString, 1)
  {
    StartRowHolds(BraceInString, BraceInString0);
  }

  lemma BraceInStringRow1()
    requires HoldsBelow(BraceInString, 1)
    ensures HoldsBelow(BraceInString, 2)
  {
    BodyRowHolds(BraceInString, 1, BraceInString0, BraceInString1);
  }

  lemma BraceInStringRow2()
    requires HoldsBelow(BraceInString, 2)
    ensures HoldsBelow(BraceInString, 3)
  {
    BodyRowHolds(BraceInString, 2, BraceInString1, BraceInString2);
  }

  lemma BraceInStringRow3()
    requires HoldsBelow(BraceInString, 3)
    ensures HoldsBelow(BraceInString, 4)
  {
    BodyRowHolds(BraceInString, 3, BraceInString2, BraceInString3);
  }

  lemma BraceInStringRow4()
    requires HoldsBelow(BraceInString, 4)
    ensures HoldsBelow(BraceInString, 5)
  {
    BodyRowHolds(BraceInString, 4, BraceInString3, BraceInString4);
  }

  lemma BraceInStringRow5()
    requires HoldsBelow(BraceInString, 5)
    ensures Satisfied(BraceInString)
  {
    EndRowHolds(BraceInString, BraceInString4, BraceInString5);
  }

  lemma BraceInStringSatisfied()
    ensures Satisfied(BraceInString)
  {
    BraceInStringRow0();
    BraceInStringRow1();
    BraceInStringRow2();
    BraceInStringRow3();
    BraceInStringRow4();
    BraceInStringRow5();
  }

  lemma BraceInStringCorrected()
    ensures SatisfiedCorrected(BraceInString)
  {
    BraceInStringSatisfied();
    assert BraceInString[|BraceInString| - 1] == BraceInString5;
  }

  lemma BraceInStringNotWellNested()
    ensures Raws(BraceInString) == [OpenBraceCode, DoubleQuoteCode, OpenBraceCode, DoubleQuoteCode, CloseBraceCode, CloseBraceCode]
    ensures !WellNested(Raws(BraceInString))
  {
    var raw := Raws(BraceInString);
    assert raw == [OpenBraceCode, DoubleQuoteCode, OpenBraceCode, DoubleQuoteCode, CloseBraceCode, CloseBraceCode];
    var body := [DoubleQuoteCode, OpenBraceCode, DoubleQuoteCode, CloseBraceCode];
    assert raw[1..|raw| - 1] == body;
    assert body[..1] == [DoubleQuoteCode];
    assert body[..1][..0] == [];
    assert Lex(Opened, body[..1]) == Scan(InString, 1, true);
    assert body[..2] == [DoubleQuoteCode, OpenBraceCode];
    assert body[..2][..1] == body[..1];
    assert Lex(Opened, body[..2]) == Scan(InString, 1, true);
    assert body[..3] == [DoubleQuoteCode, OpenBraceCode, DoubleQuoteCode];
    assert body[..3][..2] == body[..2];
    assert Lex(Opened, body[..3]) == Scan(Outside, 1, true);
    assert body[..3] == body[..3];
    assert Lex(Opened, body) == Scan(Outside, 0, false);
  }

  lemma BraceInStringViolates()
    ensures !LevelKeptInStrings(BraceInString1, BraceInString2)
  {
  }

  lemma BraceInStringRejected()
    ensures !SatisfiedSound(BraceInString)
  {
    if SatisfiedSound(BraceInString) {
      BraceInStringNotWellNested();
      SoundImpliesWellNested(BraceInString);
    }
  }

  /** The corrected circuit accepts it; its input is not well nested; the added gates reject it. */
  lemma BraceInStringAccepted()
    ensures SatisfiedCorrected(BraceInString)
    ensures Raws(BraceInString) == [OpenBraceCode, DoubleQuoteCode, OpenBraceCode, DoubleQuoteCode, CloseBraceCode, CloseBraceCode] && !WellNested(Raws(BraceInString))
    ensures !LevelKeptInStrings(BraceInString1, BraceInString2)
    ensures !SatisfiedSound(BraceInString)
  {
    BraceInStringCorrected();
    BraceInStringNotWellNested();
    BraceInStringViolates();
    BraceInStringRejected();
  }

  // ---------- an end row that leaves the string on its own ----------

  const EndLeavesString0: Row := Row(0x7b, Fraction(1, 31), Fraction(1, 89), Fraction(1, 1), Fraction(1, -2),
      0, 0, 1, 0, 1, 0, 1, Fraction(1, 1), false, true, false, true)
  const EndLeavesString1: Row := Row(0x22, Fraction(1, -58), Fraction(1, 1), Fraction(1, -89), Fraction(1, -91),
      0, 1, 0, 0, 0, 0, 1, Fraction(1, 1), true, false, false, true)
  const EndLeavesString2: Row := Row(0x61, Fraction(1, 5), Fraction(1, 63), Fraction(1, -26), Fraction(1, -28),
      0, 0, 0, 0, 0, 0, 1, Fraction(1, 1), true, false, false, true)
  const EndLeavesString3: Row := Row(0x7d, Fraction(1, 33), Fraction(1, 91), Fraction(1, 2), Fraction(1, 1),
      0, 0, 0, 1, 1, 0, 0, Fraction(1, 1), false, false, true, true)

  /**
   * `{"a}`: nothing ties the end row's `not_str` to the row before, so
   * the string seems closed.
   */
  const EndLeavesString: seq<Row> := [EndLeavesString0, EndLeavesString1, EndLeavesString2, EndLeavesString3]

  lemma EndLeavesStringRow0()
    ensures HoldsBelow(EndLeavesString, 1)
  {
    StartRowHolds(EndLeavesString, EndLeavesString0);
  }

  lemma EndLeavesStringRow1()
    requires HoldsBelow(EndLeavesString, 1)
    ensures HoldsBelow(EndLeavesString, 2)
  {
    BodyRowHolds(EndLeavesString, 1, EndLeavesString0, EndLeavesString1);
  }

  lemma EndLeavesStringRow2()
    requires HoldsBelow(EndLeavesString, 2)
    ensures HoldsBelow(EndLeavesString, 3)
  {
    BodyRowHolds(EndLeavesString, 2, EndLeavesString1, EndLeavesString2);
  }

  lemma EndLeavesStringRow3()
    requires HoldsBelow(EndLeavesString, 3)
    ensures Satisfied(EndLeavesString)
  {
    EndRowHolds(EndLeavesString, EndLeavesString2, EndLeavesString3);
  }

  lemma EndLeavesStringSatisfied()
    ensures Satisfied(EndLeavesString)
  {
    EndLeavesStringRow0();
    EndLeavesStringRow1();
    EndLeavesStringRow2();
    EndLeavesStringRow3();
  }

  lemma EndLeavesStringCorrected()
    ensures SatisfiedCorrected(EndLeavesString)
  {
    EndLeavesStringSatisfied();
    assert EndLeavesString[|EndLeavesString| - 1] == EndLeavesString3;
  }

  lemma EndLeavesStringNotWellNested()
    ensures Raws(EndLeavesString) == [OpenBraceCode, DoubleQuoteCode, 0x61, CloseBraceCode]
    ensures !WellNested(Raws(EndLeavesString))
  {
    var raw := Raws(EndLeavesString);
    assert raw == [OpenBraceCode, DoubleQuoteCode, 0x61, CloseBraceCode];
    var body := [DoubleQuoteCode, 0x61];
    assert raw[1..|raw| - 1] == body;
    assert body[..1] == [DoubleQuoteCode];
    assert body[..1][..0] == [];
    assert Lex(Opened, body[..1]) == Scan(InString, 1, true);
    assert body[..1] == body[..1];
    assert Lex(Opened, body) == Scan(InString, 1, true);
  }

  lemma EndLeavesStringViolates()
    ensures !Toggle(EndLeavesString2, EndLeavesString3)
  {
  }

  lemma EndLeavesStringRejected()
    ensures !SatisfiedSound(EndLeavesString)
  {
    if SatisfiedSound(EndLeavesString) {
      EndLeavesStringNotWellNested();
      SoundImpliesWellNested(EndLeavesString);
    }
  }

  /** The corrected circuit accepts it; its input is not well nested; the added gates reject it. */
  lemma EndLeavesStringAccepted()
    ensures SatisfiedCorrected(EndLeavesString)
    ensures Raws(EndLeavesString) == [OpenBraceCode, DoubleQuoteCode, 0x61, CloseBraceCode] && !WellNested(Raws(EndLeavesString))
    ensures !Toggle(EndLeavesString2, EndLeavesString3)
    ensures !SatisfiedSound(EndLeavesString)
  {
    EndLeavesStringCorrected();
    EndLeavesStringNotWellNested();
    EndLeavesStringViolates();
    EndLeavesStringRejected();
  }

}
