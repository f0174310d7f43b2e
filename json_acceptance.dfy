/**
 * What the structural circuit accepts. The witness of an input satisfies
 * the corrected circuit exactly when the reference scanner finds the input
 * well nested; as written, the circuit also accepts the inputs too short
 * to have an end row.
 */
module JsonAcceptance {
  import opened JsonConfig
  import opened JsonCircuit
  import opened BraceLexer

  /** The carried variables and the scanner describe the same position. */
  predicate Agrees(c: Carry, s: Scan)
  {
    && c.notStr == (if s.mode == Outside then 1 else 0)
    && c.strEscPrev == (if s.mode == Escaped then 1 else 0)
    && c.level == s.depth
  }

  /** A body row's own condition, on the carried variables written on it. */
  predicate BodyOk(c: Carry, x: int)
  {
    c.level != 0 && !(x == BackslashCode && c.notStr == 1)
  }

  /** One character moves the circuit and the scanner alike. */
  lemma StepAgrees(c: Carry, s: Scan, x: int)
    requires Consistent(c) && Agrees(c, s)
    ensures Agrees(Step(c, x), LexStep(s, x))
    ensures LexStep(s, x).ok <==> s.ok && BodyOk(Step(c, x), x)
  {
    StepEffect(c, x);
  }

  /**
   * After an opening brace, the carried variables follow the scanner over
   * the body read so far, and the scanner's flag holds exactly when every
   * body row so far meets its condition.
   */
  lemma {:induction false} Simulation(raw: seq<int>, i: nat)
    requires 1 <= i <= |raw| && raw[0] == OpenBraceCode
    ensures Agrees(CarryAfter(raw, i), Lex(Opened, raw[1..i]))
    ensures Lex(Opened, raw[1..i]).ok <==>
            forall j :: 0 < j < i ==> BodyOk(CarryAfter(raw, j + 1), raw[j])
  {
    if i == 1 {
      StepEffect(Initial, raw[0]);
      assert raw[1..1] == [];
    } else {
      Simulation(raw, i - 1);
      CarryConsistent(raw, i - 1);
      assert raw[1..i][..|raw[1..i]| - 1] == raw[1..i - 1];
      StepAgrees(CarryAfter(raw, i - 1), Lex(Opened, raw[1..i - 1]), raw[i - 1]);
    }
  }

  /** The end row's condition, on the carried variables written on it. */
  predicate EndOk(c: Carry, x: int)
  {
    x == CloseBraceCode && c.notStr == 1 && c.level == 0
  }

  /** `RowCondition` of the witness, read off the carried variables. */
  predicate CarryCondition(raw: seq<int>, i: nat)
    requires i < |raw|
  {
    if i == 0 then raw[0] == OpenBraceCode
    else if i + 1 < |raw| then BodyOk(CarryAfter(raw, i + 1), raw[i])
    else EndOk(CarryAfter(raw, i + 1), raw[i])
  }

  lemma CarryConditionIff(raw: seq<int>, i: nat)
    requires i < |raw|
    ensures RowCondition(Witness(raw), i) <==> CarryCondition(raw, i)
  {
    WitnessRow(raw, i);
  }

  /** The row conditions, grouped by kind of row. */
  lemma CarryConditionsSplit(raw: seq<int>)
    requires 2 <= |raw|
    ensures (forall i :: 0 <= i < |raw| ==> CarryCondition(raw, i)) <==>
            && raw[0] == OpenBraceCode
            && (forall j :: 0 < j < |raw| - 1 ==> BodyOk(CarryAfter(raw, j + 1), raw[j]))
            && EndOk(CarryAfter(raw, |raw|), raw[|raw| - 1])
  {
    var n := |raw|;
    if forall i :: 0 <= i < n ==> CarryCondition(raw, i) {
      assert CarryCondition(raw, 0) && CarryCondition(raw, n - 1);
      forall j | 0 < j < n - 1
        ensures BodyOk(CarryAfter(raw, j + 1), raw[j])
      {
        assert CarryCondition(raw, j);
      }
    }
  }

  /** Once the input opens with a brace, the grouped conditions are the scanner's verdict. */
  lemma GroupedIffWellNested(raw: seq<int>)
    requires 2 <= |raw| && raw[0] == OpenBraceCode
    ensures ((forall j :: 0 < j < |raw| - 1 ==> BodyOk(CarryAfter(raw, j + 1), raw[j]))
             && EndOk(CarryAfter(raw, |raw|), raw[|raw| - 1]))
            <==> WellNested(raw)
  {
    var n := |raw|;
    Simulation(raw, n - 1);
    CarryConsistent(raw, n - 1);
    StepEffect(CarryAfter(raw, n - 1), raw[n - 1]);
  }

  /** The witness meets every row condition exactly when the input is well nested, given an end row. */
  lemma ConditionsIffWellNested(raw: seq<int>)
    requires 2 <= |raw|
    ensures (forall i :: 0 <= i < |raw| ==> RowCondition(Witness(raw), i)) <==> WellNested(raw)
  {
    forall i | 0 <= i < |raw|
      ensures RowCondition(Witness(raw), i) <==> CarryCondition(raw, i)
    {
      CarryConditionIff(raw, i);
    }
    CarryConditionsSplit(raw);
    if raw[0] == OpenBraceCode {
      GroupedIffWellNested(raw);
    }
  }

  /**
   * The corrected circuit accepts the witness of an input exactly when the
   * input is a well-nested object with at least a start and an end row.
   */
  lemma AcceptsIffWellNested(raw: seq<int>)
    ensures SatisfiedCorrected(Witness(raw)) <==> WellNested(raw)
  {
    if 2 <= |raw| {
      SatisfiedIff(raw);
      LastRowCharBooleans(raw);
      ConditionsIffWellNested(raw);
    }
  }

  /** The witness's last row meets the character gates. */
  lemma LastRowCharBooleans(raw: seq<int>)
    requires 1 <= |raw|
    ensures |Witness(raw)| == |raw| && CharBooleans(Witness(raw)[|raw| - 1])
  {
    WitnessFacts(raw, |raw| - 1);
  }

  /**
   * As written, the circuit accepts the witness of a well-nested input, and
   * besides only the empty input and a lone opening brace, which have no
   * end row to check.
   */
  lemma AsWrittenAccepts(raw: seq<int>)
    ensures Satisfied(Witness(raw)) <==>
            WellNested(raw) || |raw| == 0 || (|raw| == 1 && raw[0] == OpenBraceCode)
  {
    SatisfiedIff(raw);
    if 2 <= |raw| {
      ConditionsIffWellNested(raw);
    } else if |raw| == 1 {
      assert RowCondition(Witness(raw), 0) <==> raw[0] == OpenBraceCode by {
        WitnessFacts(raw, 0);
      }
    }
  }

  /** The two inputs without an end row: both satisfy the circuit, neither is well nested. */
  lemma ShortInputsAccepted()
    ensures Satisfied(Witness([])) && !WellNested([])
    ensures Satisfied(Witness([OpenBraceCode])) && !WellNested([OpenBraceCode])
  {
    AsWrittenAccepts([]);
    AsWrittenAccepts([OpenBraceCode]);
  }

  /** A satisfied witness of a well-nested input stays at level 1 or above before its end row. */
  lemma WellNestedLevelsPositive(raw: seq<int>)
    requires WellNested(raw)
    ensures forall i :: 0 <= i < |raw| - 1 ==> Witness(raw)[i].level >= 1
  {
    AcceptsIffWellNested(raw);
    AcceptedLevelsPositive(raw);
  }
}
