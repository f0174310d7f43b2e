/**
 * The inputs of the structural circuit's tests, fed to the model: each is
 * well nested, so its witness satisfies the circuit. The last one repeats
 * a value without a key in between; the circuit accepts it, while the
 * grammar state machine rejects it.
 */
module CircuitTests {
  import opened JsonConfig
  import opened JsonCircuit
  import opened BraceLexer
  import opened JsonAcceptance
  import opened JsonSoundness
  import opened StateBits
  import opened JsonStateMutation

  /** A string `{body}` whose body scans to a balanced end is well nested, and its witness is accepted. */
  lemma ObjectAccepted(t: string, body: string)
    requires t == "{" + body + "}"
    requires Lex(Opened, Codes(body)) == Scan(Outside, 1, true)
    ensures WellNested(Codes(t))
    ensures SatisfiedCorrected(Witness(Codes(t))) && Satisfied(Witness(Codes(t)))
  {
    assert t[1..|t| - 1] == body;
    CodesSlice(t, 1, |t| - 1);
    AcceptsIffWellNested(Codes(t));
  }

  /** The input of the test at json.rs:447. */
  const SimpleJson: string := "{\"a\": 1, \"b\": 2}"

  /** What `SimpleJson` holds between its outer braces, in parts of at most eighteen characters. */
  const SimpleJsonPart1: string := "\"a\"" + (": 1" + (", \"" + ("b\":" + " 2")))

  const SimpleJsonBody: string := SimpleJsonPart1

  lemma SimpleJsonSplit()
    ensures SimpleJson == "{" + SimpleJsonBody + "}"
  {
  }

  lemma SimpleJsonPart1Scan()
    ensures Lex(Scan(Outside, 1, true), Codes(SimpleJsonPart1)) == Scan(Outside, 1, true)
  {
    var r4 := " 2";
    var r3 := "b\":" + r4;
    var r2 := ", \"" + r3;
    var r1 := ": 1" + r2;
    var r0 := "\"a\"" + r1;
    LexChunk(Scan(Outside, 1, true), "\"a\"", r1);
    LexChunk(Scan(Outside, 1, true), ": 1", r2);
    LexChunk(Scan(Outside, 1, true), ", \"", r3);
    LexChunk(Scan(InString, 1, true), "b\":", r4);
    LexChar(Scan(Outside, 1, true), " ", "2");
    LexChar(Scan(Outside, 1, true), "2", "");
    assert "2" == "2" + "";
  }

  /** The body of `SimpleJson` scans to a balanced end outside strings. */
  lemma SimpleJsonBodyScan()
    ensures Lex(Opened, Codes(SimpleJsonBody)) == Scan(Outside, 1, true)
  {
    SimpleJsonPart1Scan();
  }

  /** The input of the test at json.rs:459. */
  const EscapedJson: string := "{\"a{}\": 1, \"b\": \"\\\"\"}"

  /** What `EscapedJson` holds between its outer braces, in parts of at most eighteen characters. */
  const EscapedJsonPart1: string := "\"a{" + ("}\":" + (" 1," + (" \"b" + ("\": " + "\"\\\""))))
  const EscapedJsonPart2: string := "\""

  const EscapedJsonBody: string := EscapedJsonPart1 + EscapedJsonPart2

  lemma EscapedJsonSplit()
    ensures EscapedJson == "{" + EscapedJsonBody + "}"
  {
  }

  lemma EscapedJsonPart1Scan()
    ensures Lex(Scan(Outside, 1, true), Codes(EscapedJsonPart1)) == Scan(InString, 1, true)
  {
    var r5 := "\"\\\"";
    var r4 := "\": " + r5;
    var r3 := " \"b" + r4;
    var r2 := " 1," + r3;
    var r1 := "}\":" + r2;
    var r0 := "\"a{" + r1;
    LexChunk(Scan(Outside, 1, true), "\"a{", r1);
    LexChunk(Scan(InString, 1, true), "}\":", r2);
    LexChunk(Scan(Outside, 1, true), " 1,", r3);
    LexChunk(Scan(Outside, 1, true), " \"b", r4);
    LexChunk(Scan(InString, 1, true), "\": ", r5);
    LexChunk(Scan(Outside, 1, true), "\"\\\"", "");
    assert "\"\\\"" == "\"\\\"" + "";
  }

  lemma EscapedJsonPart2Scan()
    ensures Lex(Scan(InString, 1, true), Codes(EscapedJsonPart2)) == Scan(Outside, 1, true)
  {
    var r0 := "\"";
    LexChar(Scan(InString, 1, true), "\"", "");
    assert "\"" == "\"" + "";
  }

  /** The body of `EscapedJson` scans to a balanced end outside strings. */
  lemma EscapedJsonBodyScan()
    ensures Lex(Opened, Codes(EscapedJsonBody)) == Scan(Outside, 1, true)
  {
    EscapedJsonPart1Scan();
    EscapedJsonPart2Scan();
    CodesAppend(EscapedJsonPart1, EscapedJsonPart2);
    LexAppend(Scan(Outside, 1, true), Codes(EscapedJsonPart1), Codes(EscapedJsonPart2));
  }

  /** The input of the test at json.rs:471. */
  const EscapedJsonTwo: string := "{\"a{}\": \" \\\" { \\\" { \\\" \", \"b\": \"\\\"\"}"

  /** What `EscapedJsonTwo` holds between its outer braces, in parts of at most eighteen characters. */
  const EscapedJsonTwoPart1: string := "\"a{" + ("}\":" + (" \" " + ("\\\" " + ("{ \\" + "\" {"))))
  const EscapedJsonTwoPart2: string := " \\\"" + (" \"," + (" \"b" + ("\": " + ("\"\\\"" + "\""))))

  const EscapedJsonTwoBody: string := EscapedJsonTwoPart1 + EscapedJsonTwoPart2

  lemma EscapedJsonTwoSplit()
    ensures EscapedJsonTwo == "{" + EscapedJsonTwoBody + "}"
  {
  }

  lemma EscapedJsonTwoPart1Scan()
    ensures Lex(Scan(Outside, 1, true), Codes(EscapedJsonTwoPart1)) == Scan(InString, 1, true)
  {
    var r5 := "\" {";
    var r4 := "{ \\" + r5;
    var r3 := "\\\" " + r4;
    var r2 := " \" " + r3;
    var r1 := "}\":" + r2;
    var r0 := "\"a{" + r1;
    LexChunk(Scan(Outside, 1, true), "\"a{", r1);
    LexChunk(Scan(InString, 1, true), "}\":", r2);
    LexChunk(Scan(Outside, 1, true), " \" ", r3);
    LexChunk(Scan(InString, 1, true), "\\\" ", r4);
    LexChunk(Scan(InString, 1, true), "{ \\", r5);
    LexChunk(Scan(Escaped, 1, true), "\" {", "");
    assert "\" {" == "\" {" + "";
  }

  lemma EscapedJsonTwoPart2Scan()
    ensures Lex(Scan(InString, 1, true), Codes(EscapedJsonTwoPart2)) == Scan(Outside, 1, true)
  {
    var r5 := "\"";
    var r4 := "\"\\\"" + r5;
    var r3 := "\": " + r4;
    var r2 := " \"b" + r3;
    var r1 := " \"," + r2;
    var r0 := " \\\"" + r1;
    LexChunk(Scan(InString, 1, true), " \\\"", r1);
    LexChunk(Scan(InString, 1, true), " \",", r2);
    LexChunk(Scan(Outside, 1, true), " \"b", r3);
    LexChunk(Scan(InString, 1, true), "\": ", r4);
    LexChunk(Scan(Outside, 1, true), "\"\\\"", r5);
    LexChar(Scan(InString, 1, true), "\"", "");
    assert "\"" == "\"" + "";
  }

  /** The body of `EscapedJsonTwo` scans to a balanced end outside strings. */
  lemma EscapedJsonTwoBodyScan()
    ensures Lex(Opened, Codes(EscapedJsonTwoBody)) == Scan(Outside, 1, true)
  {
    EscapedJsonTwoPart1Scan();
    EscapedJsonTwoPart2Scan();
    CodesAppend(EscapedJsonTwoPart1, EscapedJsonTwoPart2);
    LexAppend(Scan(Outside, 1, true), Codes(EscapedJsonTwoPart1), Codes(EscapedJsonTwoPart2));
  }

  /** The input of the test at json.rs:484. */
  const EscapedJsonThree: string := "{\"a{}\": \"1\" \"2\", \"b\": \"\\\"\"}"

  /** What `EscapedJsonThree` holds between its outer braces, in parts of at most eighteen characters. */
  const EscapedJsonThreePart1: string := "\"a{" + ("}\":" + (" \"1" + ("\" \"" + ("2\"," + " \"b"))))
  const EscapedJsonThreePart2: string := "\": " + ("\"\\\"" + "\"")

  const EscapedJsonThreeBody: string := EscapedJsonThreePart1 + EscapedJsonThreePart2

  lemma EscapedJsonThreeSplit()
    ensures EscapedJsonThree == "{" + EscapedJsonThreeBody + "}"
  {
  }

  lemma EscapedJsonThreePart1Scan()
    ensures Lex(Scan(Outside, 1, true), Codes(EscapedJsonThreePart1)) == Scan(InString, 1, true)
  {
    var r5 := " \"b";
    var r4 := "2\"," + r5;
    var r3 := "\" \"" + r4;
    var r2 := " \"1" + r3;
    var r1 := "}\":" + r2;
    var r0 := "\"a{" + r1;
    LexChunk(Scan(Outside, 1, true), "\"a{", r1);
    LexChunk(Scan(InString, 1, true), "}\":", r2);
    LexChunk(Scan(Outside, 1, true), " \"1", r3);
    LexChunk(Scan(InString, 1, true), "\" \"", r4);
    LexChunk(Scan(InString, 1, true), "2\",", r5);
    LexChunk(Scan(Outside, 1, true), " \"b", "");
    assert " \"b" == " \"b" + "";
  }

  lemma EscapedJsonThreePart2Scan()
    ensures Lex(Scan(InString, 1, true), Codes(EscapedJsonThreePart2)) == Scan(Outside, 1, true)
  {
    var r2 := "\"";
    var r1 := "\"\\\"" + r2;
    var r0 := "\": " + r1;
    LexChunk(Scan(InString, 1, true), "\": ", r1);
    LexChunk(Scan(Outside, 1, true), "\"\\\"", r2);
    LexChar(Scan(InString, 1, true), "\"", "");
    assert "\"" == "\"" + "";
  }

  /** The body of `EscapedJsonThree` scans to a balanced end outside strings. */
  lemma EscapedJsonThreeBodyScan()
    ensures Lex(Opened, Codes(EscapedJsonThreeBody)) == Scan(Outside, 1, true)
  {
    EscapedJsonThreePart1Scan();
    EscapedJsonThreePart2Scan();
    CodesAppend(EscapedJsonThreePart1, EscapedJsonThreePart2);
    LexAppend(Scan(Outside, 1, true), Codes(EscapedJsonThreePart1), Codes(EscapedJsonThreePart2));
  }

  /** The test at json.rs:447: the witness of its input satisfies the circuit. */
  lemma SimpleJsonAccepted()
    ensures WellNested(Codes(SimpleJson))
    ensures SatisfiedCorrected(Witness(Codes(SimpleJson))) && Satisfied(Witness(Codes(SimpleJson)))
  {
    SimpleJsonSplit();
    SimpleJsonBodyScan();
    ObjectAccepted(SimpleJson, SimpleJsonBody);
  }

  /** The test at json.rs:459: the witness of its input satisfies the circuit. */
  lemma EscapedJsonAccepted()
    ensures WellNested(Codes(EscapedJson))
    ensures SatisfiedCorrected(Witness(Codes(EscapedJson))) && Satisfied(Witness(Codes(EscapedJson)))
  {
    EscapedJsonSplit();
    EscapedJsonBodyScan();
    ObjectAccepted(EscapedJson, EscapedJsonBody);
  }

  /** The test at json.rs:471: the witness of its input satisfies the circuit. */
  lemma EscapedJsonTwoAccepted()
    ensures WellNested(Codes(EscapedJsonTwo))
    ensures SatisfiedCorrected(Witness(Codes(EscapedJsonTwo))) && Satisfied(Witness(Codes(EscapedJsonTwo)))
  {
    EscapedJsonTwoSplit();
    EscapedJsonTwoBodyScan();
    ObjectAccepted(EscapedJsonTwo, EscapedJsonTwoBody);
  }

  /** The test at json.rs:484: the witness of its input satisfies the circuit. */
  lemma EscapedJsonThreeAccepted()
    ensures WellNested(Codes(EscapedJsonThree))
    ensures SatisfiedCorrected(Witness(Codes(EscapedJsonThree))) && Satisfied(Witness(Codes(EscapedJsonThree)))
  {
    EscapedJsonThreeSplit();
    EscapedJsonThreeBodyScan();
    ObjectAccepted(EscapedJsonThree, EscapedJsonThreeBody);
  }

  /** The last test's input up to the second value's opening quote, piece by piece. */
  lemma RepeatedValuePiece1()
    ensures Run({}, "{\"a") == {IsKey, IsStr, WordBuffering}
  {
  }

  lemma RepeatedValuePiece2()
    ensures Run({IsKey, IsStr, WordBuffering}, "{}\"") == {IsKey, WordComplete}
  {
  }

  lemma RepeatedValuePiece3()
    ensures Run({IsKey, WordComplete}, ": \"") == {IsValue, IsStr, WordBuffering}
  {
  }

  lemma RepeatedValuePiece4()
    ensures Run({IsValue, IsStr, WordBuffering}, "1\" ") == {IsValue, WordComplete}
  {
  }

  lemma RepeatedValuePiece5()
    ensures Run({IsValue, WordComplete}, "\"") == Invalid
  {
  }

  /**
   * The grammar state machine rejects the last test's input: after the
   * completed value `"1"`, a second opening quote is refused.
   */
  lemma EscapedJsonThreeRejectedByGrammar()
    ensures Run({}, EscapedJsonThree) == Invalid
  {
    var rest := "2\", \"b\": \"\\\"\"}";
    var p4 := "\"" + rest;
    var p3 := "1\" " + p4;
    var p2 := ": \"" + p3;
    var p1 := "{}\"" + p2;
    assert EscapedJsonThree == "{\"a" + p1;
    RepeatedValuePiece1();
    RepeatedValuePiece2();
    RepeatedValuePiece3();
    RepeatedValuePiece4();
    RepeatedValuePiece5();
    RunAppend({}, "{\"a", p1);
    RunAppend({IsKey, IsStr, WordBuffering}, "{}\"", p2);
    RunAppend({IsKey, WordComplete}, ": \"", p3);
    RunAppend({IsValue, IsStr, WordBuffering}, "1\" ", p4);
    RunAppend({IsValue, WordComplete}, "\"", rest);
    RunAbsorbing(Invalid, rest);
  }

  /** An object closed twice: the second `}` has no object left to close. */
  const SurplusClose: string := "{\"a\":1}}"

  const SurplusCloseBody: string := "\"a\"" + ":1}"

  lemma SurplusCloseSplit()
    ensures SurplusClose == "{" + SurplusCloseBody + "}"
  {
  }

  /** The body reaches depth 0 at its `}`, which the scanner refuses. */
  lemma SurplusCloseBodyScan()
    ensures Lex(Opened, Codes(SurplusCloseBody)) == Scan(Outside, 0, false)
  {
    LexChunk(Scan(Outside, 1, true), "\"a\"", ":1}");
    LexChunk(Scan(Outside, 1, true), ":1}", "");
    assert ":1}" == ":1}" + "";
  }

  /** Unbalanced braces make the circuit unsatisfiable for the witness of `{"a":1}}`. */
  lemma SurplusCloseRejected()
    ensures !WellNested(Codes(SurplusClose))
    ensures !Satisfied(Witness(Codes(SurplusClose)))
  {
    SurplusCloseSplit();
    SurplusCloseBodyScan();
    var t := Codes(SurplusClose);
    assert SurplusClose[1..|SurplusClose| - 1] == SurplusCloseBody;
    CodesSlice(SurplusClose, 1, |SurplusClose| - 1);
    AsWrittenAccepts(t);
  }

  /** With the added gates, no assignment whatever proves the unbalanced input. */
  lemma SurplusCloseNeverAccepted(rows: seq<Row>)
    requires Raws(rows) == Codes(SurplusClose)
    ensures !SatisfiedSound(rows)
  {
    if SatisfiedSound(rows) {
      SoundImpliesWellNested(rows);
      SurplusCloseRejected();
    }
  }
}
