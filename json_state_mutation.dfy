/**
 * The transition function of the grammar state machine. `Transition` is the
 * specification, on sets of flags: absorbing invalid sink, then the settle
 * rules, then escape consumption, then the empty-state, in-string or
 * structural rules. `Mutate` is the step-by-step version on a `State`
 * object, proved to agree with it.
 */
module JsonStateMutation {
  import opened StateBits
  import opened JsonState
  import opened StateEncoding

  /** A parser state as the set of its flags. */
  type Flags = set<StateBit>

  /** The sink that every rejection produces. */
  const Invalid: Flags := {IsInvalid}

  /** The transitional markers, each of which lasts a single step. */
  const Markers: Flags := {NewDict, EndDict, Separator, KeyValueDelimiter}

  // ---------- the three phases ----------

  /** One settle rule: a transitional `marker` becomes the lasting `target`. */
  function SettleRule(s: Flags, marker: StateBit, target: StateBit): Flags
  {
    if marker in s then (s + {target}) - {marker} else s
  }

  /**
   * The settle rules in their fixed order: NewDict becomes IsKey, EndDict
   * becomes WordComplete, Separator becomes IsKey and KeyValueDelimiter
   * becomes IsValue; no marker survives and no other flag changes.
   */
  function Settle(s: Flags): (t: Flags)
    ensures t * Markers == {}
    ensures IsKey in t <==> IsKey in s || NewDict in s || Separator in s
    ensures WordComplete in t <==> WordComplete in s || EndDict in s
    ensures IsValue in t <==> IsValue in s || KeyValueDelimiter in s
    ensures forall b :: b !in Markers + {IsKey, WordComplete, IsValue} ==> (b in t <==> b in s)
  {
    var s1 := SettleRule(s, NewDict, IsKey);
    var s2 := SettleRule(s1, EndDict, WordComplete);
    var s3 := SettleRule(s2, Separator, IsKey);
    SettleRule(s3, KeyValueDelimiter, IsValue)
  }

  /** The rules for the empty state: only `{` starts a document. */
  function EmptyRule(a: SpecialChar): Flags
  {
    match a
    case OpenBrace => {NewDict}
    case WhiteSpace => {}
    case _ => Invalid
  }

  /** The rules inside a string: only `\` and `"` have an effect. */
  function StringRule(t: Flags, a: SpecialChar): Flags
  {
    match a
    case Backslash => t + {IsStrEscaped}
    case DoubleQuote => (t + {WordComplete}) - {WordBuffering} - {IsStr}
    case _ => t + {IsStr}
  }

  /** The structural rules outside strings. */
  function StructuralRule(t: Flags, a: SpecialChar): Flags
  {
    match a
    case OpenBrace =>
      if IsValue in t && WordComplete !in t then (t + {NewDict}) - {IsValue} else Invalid
    case CloseBrace =>
      if IsValue in t then (t + {EndDict}) - {WordComplete} - {WordBuffering} else Invalid
    case Comma =>
      if IsValue in t then (t + {Separator}) - {IsValue} - {WordComplete} - {WordBuffering}
      else Invalid
    case Colon =>
      if IsKey in t then (t + {KeyValueDelimiter}) - {IsKey} - {WordComplete} else Invalid
    case DoubleQuote =>
      if WordComplete in t then Invalid else t + {IsStr} + {WordBuffering}
    case WhiteSpace =>
      if IsValue in t && WordBuffering in t then (t + {WordComplete}) - {WordBuffering} else t
    case Numeric =>
      // Accepts more than one decimal point in a number, as `mutate` does.
      if IsValue in t && WordComplete !in t then t + {WordBuffering} else Invalid
    case _ => Invalid
  }

  /**
   * `mutate`: the successor of state `s` on input class `a`. An invalid
   * state is returned unchanged, and a valid state is either turned into a
   * valid state or rejected as exactly `{IsInvalid}`.
   */
  function Transition(s: Flags, a: SpecialChar): (r: Flags)
    ensures IsInvalid in s ==> r == s
    ensures IsInvalid !in s && IsInvalid in r ==> r == Invalid
  {
    if IsInvalid in s then s
    else
      var t := Settle(s);
      if IsStrEscaped in t then t - {IsStrEscaped}
      else if t == {} then EmptyRule(a)
      else if IsStr in t then StringRule(t, a)
      else StructuralRule(t, a)
  }

  // ---------- properties of the transition function ----------

  /** Which inputs a settled state accepts, as a table. */
  predicate Allowed(t: Flags, a: SpecialChar)
  {
    if IsStrEscaped in t || IsStr in t then true
    else if t == {} then a == OpenBrace || a == WhiteSpace
    else
      match a
      case Colon => IsKey in t
      case CloseBrace => IsValue in t
      case Comma => IsValue in t
      case OpenBrace => IsValue in t && WordComplete !in t
      case Numeric => IsValue in t && WordComplete !in t
      case DoubleQuote => WordComplete !in t
      case WhiteSpace => true
      case Backslash => false
      case Other => false
  }

  /** A valid state is rejected exactly on the inputs the table forbids. */
  lemma RejectionIff(s: Flags, a: SpecialChar)
    requires IsInvalid !in s
    ensures Transition(s, a) == Invalid <==> !Allowed(Settle(s), a)
    ensures IsInvalid in Transition(s, a) <==> !Allowed(Settle(s), a)
  {
  }

  /** Only the empty state settles to the empty state. */
  lemma SettleEmpty(s: Flags)
    ensures Settle(s) == {} <==> s == {}
  {
    if s != {} {
      var b :| b in s;
      assert b in Markers + {IsKey, WordComplete, IsValue} || b in Settle(s);
    }
  }

  /** Inside a string, every class other than `\` and `"` leaves the settled state as it is. */
  lemma InStringKeeps(s: Flags, a: SpecialChar)
    requires IsInvalid !in s && IsStr in Settle(s) && IsStrEscaped !in Settle(s)
    requires a != Backslash && a != DoubleQuote
    ensures Transition(s, a) == Settle(s)
  {
  }

  /** An escaped character is consumed whatever it is. */
  lemma EscapeConsumes(s: Flags, a: SpecialChar, a': SpecialChar)
    requires IsInvalid !in s && IsStrEscaped in Settle(s)
    ensures Transition(s, a) == Settle(s) - {IsStrEscaped}
    ensures Transition(s, a) == Transition(s, a')
  {
  }

  /** From the empty state `{` opens a document, whitespace is skipped, the rest is rejected. */
  lemma FromEmpty(a: SpecialChar)
    ensures Transition({}, a) == match a
      case OpenBrace => {NewDict}
      case WhiteSpace => {}
      case _ => Invalid
  {
  }

  /**
   * A marker present after a step was produced by that step's input, so no
   * two markers are ever present together.
   */
  lemma MarkersComeFromInput(s: Flags, a: SpecialChar)
    requires IsInvalid !in s
    ensures NewDict in Transition(s, a) ==> a == OpenBrace
    ensures EndDict in Transition(s, a) ==> a == CloseBrace
    ensures Separator in Transition(s, a) ==> a == Comma
    ensures KeyValueDelimiter in Transition(s, a) ==> a == Colon
  {
  }

  // ---------- runs over a string ----------

  /** The state after feeding every character of `input`, classified, from `s`. */
  function Run(s: Flags, input: string): Flags
    decreases |input|
  {
    if input == [] then s else Run(Transition(s, Classify(input[0])), input[1..])
  }

  /** Running over two pieces is running over the first, then the second. */
  lemma {:induction false} RunAppend(s: Flags, p: string, q: string)
    ensures Run(s, p + q) == Run(Run(s, p), q)
    decreases |p|
  {
    if p == [] {
      assert p + q == q;
    } else {
      assert (p + q)[0] == p[0];
      assert (p + q)[1..] == p[1..] + q;
      RunAppend(Transition(s, Classify(p[0])), p[1..], q);
    }
  }

  /** Once invalid, always invalid: no input leaves the sink. */
  lemma {:induction false} RunAbsorbing(s: Flags, input: string)
    requires IsInvalid in s
    ensures Run(s, input) == s
    decreases |input|
  {
    if input != [] {
      RunAbsorbing(Transition(s, Classify(input[0])), input[1..]);
    }
  }

  /** A run that ends valid went through valid states only. */
  lemma ValidThroughout(s: Flags, input: string, k: nat)
    requires k <= |input|
    requires IsInvalid !in Run(s, input)
    ensures IsInvalid !in Run(s, input[..k])
  {
    assert input == input[..k] + input[k..];
    RunAppend(s, input[..k], input[k..]);
    if IsInvalid in Run(s, input[..k]) {
      RunAbsorbing(Run(s, input[..k]), input[k..]);
    }
  }

  /** A document with nested braces, spaces and an escaped quote inside strings, in pieces of three characters. */
  const SamplePiece1: string := "{\"a"
  const SamplePiece2: string := "{} "
  const SamplePiece3: string := " \":"
  const SamplePiece4: string := " 12"
  const SamplePiece5: string := "3  "
  const SamplePiece6: string := ", \""
  const SamplePiece7: string := "b\\\""
  const SamplePiece8: string := "a\":"
  const SamplePiece9: string := " \"x"
  const SamplePiece10: string := "yz\""
  const SamplePiece11: string := "}"

  const SampleDocument: string := SamplePiece1 + (SamplePiece2 + (SamplePiece3 + (SamplePiece4 + (SamplePiece5 + (SamplePiece6 + (SamplePiece7 + (SamplePiece8 + (SamplePiece9 + (SamplePiece10 + SamplePiece11)))))))))

  lemma SamplePiece1Run()
    ensures Run({}, SamplePiece1) == {IsKey, IsStr, WordBuffering}
  {
  }

  lemma SamplePiece2Run()
    ensures Run({IsKey, IsStr, WordBuffering}, SamplePiece2) == {IsKey, IsStr, WordBuffering}
  {
  }

  lemma SamplePiece3Run()
    ensures Run({IsKey, IsStr, WordBuffering}, SamplePiece3) == {KeyValueDelimiter}
  {
  }

  lemma SamplePiece4Run()
    ensures Run({KeyValueDelimiter}, SamplePiece4) == {IsValue, WordBuffering}
  {
  }

  lemma SamplePiece5Run()
    ensures Run({IsValue, WordBuffering}, SamplePiece5) == {IsValue, WordComplete}
  {
  }

  lemma SamplePiece6Run()
    ensures Run({IsValue, WordComplete}, SamplePiece6) == {IsKey, IsStr, WordBuffering}
  {
  }

  lemma SamplePiece7Run()
    ensures Run({IsKey, IsStr, WordBuffering}, SamplePiece7) == {IsKey, IsStr, WordBuffering}
  {
  }

  lemma SamplePiece8Run()
    ensures Run({IsKey, IsStr, WordBuffering}, SamplePiece8) == {KeyValueDelimiter}
  {
  }

  lemma SamplePiece9Run()
    ensures Run({KeyValueDelimiter}, SamplePiece9) == {IsValue, IsStr, WordBuffering}
  {
  }

  lemma SamplePiece10Run()
    ensures Run({IsValue, IsStr, WordBuffering}, SamplePiece10) == {IsValue, WordComplete}
  {
  }

  lemma SamplePiece11Run()
    ensures Run({IsValue, WordComplete}, SamplePiece11) == {IsValue, EndDict}
  {
  }

  /**
   * The sample document is read without ever reaching the invalid state,
   * and ends with a value just closed by `}`.
   */
  lemma SampleDocumentStaysValid(k: nat)
    requires k <= |SampleDocument|
    ensures Run({}, SampleDocument) == {IsValue, EndDict}
    ensures IsInvalid !in Run({}, SampleDocument[..k])
  {
    SamplePiece1Run();
    SamplePiece2Run();
    SamplePiece3Run();
    SamplePiece4Run();
    SamplePiece5Run();
    SamplePiece6Run();
    SamplePiece7Run();
    SamplePiece8Run();
    SamplePiece9Run();
    SamplePiece10Run();
    SamplePiece11Run();
    RunAppend({}, SamplePiece1, SamplePiece2 + (SamplePiece3 + (SamplePiece4 + (SamplePiece5 + (SamplePiece6 + (SamplePiece7 + (SamplePiece8 + (SamplePiece9 + (SamplePiece10 + SamplePiece11)))))))));
    RunAppend({IsKey, IsStr, WordBuffering}, SamplePiece2, SamplePiece3 + (SamplePiece4 + (SamplePiece5 + (SamplePiece6 + (SamplePiece7 + (SamplePiece8 + (SamplePiece9 + (SamplePiece10 + SamplePiece11))))))));
    RunAppend({IsKey, IsStr, WordBuffering}, SamplePiece3, SamplePiece4 + (SamplePiece5 + (SamplePiece6 + (SamplePiece7 + (SamplePiece8 + (SamplePiece9 + (SamplePiece10 + SamplePiece11)))))));
    RunAppend({KeyValueDelimiter}, SamplePiece4, SamplePiece5 + (SamplePiece6 + (SamplePiece7 + (SamplePiece8 + (SamplePiece9 + (SamplePiece10 + SamplePiece11))))));
    RunAppend({IsValue, WordBuffering}, SamplePiece5, SamplePiece6 + (SamplePiece7 + (SamplePiece8 + (SamplePiece9 + (SamplePiece10 + SamplePiece11)))));
    RunAppend({IsValue, WordComplete}, SamplePiece6, SamplePiece7 + (SamplePiece8 + (SamplePiece9 + (SamplePiece10 + SamplePiece11))));
    RunAppend({IsKey, IsStr, WordBuffering}, SamplePiece7, SamplePiece8 + (SamplePiece9 + (SamplePiece10 + SamplePiece11)));
    RunAppend({IsKey, IsStr, WordBuffering}, SamplePiece8, SamplePiece9 + (SamplePiece10 + SamplePiece11));
    RunAppend({KeyValueDelimiter}, SamplePiece9, SamplePiece10 + SamplePiece11);
    RunAppend({IsValue, IsStr, WordBuffering}, SamplePiece10, SamplePiece11);
    ValidThroughout({}, SampleDocument, k);
  }

  /** The sample document after three leading spaces. */
  const PaddedDocument: string := "   " + SampleDocument

  /**
   * Every prefix of the padded document ends in a valid state, and that
   * state's encoding decodes and re-encodes to itself.
   */
  lemma PaddedDocumentRoundTrips(k: nat)
    requires k <= |PaddedDocument|
    ensures IsInvalid !in Run({}, PaddedDocument[..k])
    ensures EncodeSet(DecodeSet(EncodeSet(Run({}, PaddedDocument[..k])))) ==
            EncodeSet(Run({}, PaddedDocument[..k]))
  {
    assert Run({}, "   ") == {} by {
      FromEmpty(WhiteSpace);
      assert "   "[1..] == "  " && "  "[1..] == " " && " "[1..] == [];
    }
    RunAppend({}, "   ", SampleDocument);
    SampleDocumentStaysValid(0);
    ValidThroughout({}, PaddedDocument, k);
    EncodeBound(Run({}, PaddedDocument[..k]));
    EncodeDecode(EncodeSet(Run({}, PaddedDocument[..k])));
  }

  /** An object cannot be empty: `{}` is rejected at the `}`. */
  lemma EmptyObjectRejected()
    ensures Run({}, "{}") == Invalid
  {
  }

  /** A key must be quoted: `{a` is rejected at the `a`. */
  lemma UnquotedKeyRejected()
    ensures Run({}, "{a") == Invalid
  {
  }

  /** After `{"a"` a key is complete and a colon is expected. */
  lemma QuotedKeyRun()
    ensures Run({}, "{\"a\"") == {IsKey, WordComplete}
  {
  }

  /** A key takes one colon: `{"a"::` is rejected at the second colon. */
  lemma DoubleColonRejected()
    ensures Run({}, "{\"a\"" + "::") == Invalid
  {
    QuotedKeyRun();
    RunAppend({}, "{\"a\"", "::");
  }

  /**
   * The grammar does not count braces: once an object is closed, further
   * `}` are accepted, so the sample document with a surplus `}` is not
   * rejected. Balance is left to the circuit's level counter.
   */
  lemma SurplusCloseBraceAccepted()
    ensures Transition({IsValue, EndDict}, CloseBrace) == {IsValue, EndDict}
    ensures Run({}, SampleDocument + "}") == {IsValue, EndDict}
  {
    assert Run({IsValue, EndDict}, "}") == {IsValue, EndDict};
    SampleDocumentStaysValid(0);
    RunAppend({}, SampleDocument, "}");
  }

  /** A number may hold several decimal points. */
  lemma SeveralDecimalPointsAccepted()
    ensures Run({IsValue}, "1.2.3") == {IsValue, WordBuffering}
  {
  }

  // ---------- the imperative version ----------

  /** One settle rule applied in place. */
  method SettleFlag(state: State, marker: StateBit, target: StateBit)
    requires state.Valid()
    modifies state
    ensures state.Valid()
    ensures state.Elements() == SettleRule(old(state.Elements()), marker, target)
  {
    if state.Check(marker) {
      state.On(target);
      state.Off(marker);
    }
  }

  /** The in-string rules applied in place. */
  method StringStep(state: State, action: SpecialChar)
    requires state.Valid()
    modifies state
    ensures state.Valid()
    ensures state.Elements() == StringRule(old(state.Elements()), action)
  {
    match action
    case Backslash =>
      state.On(IsStrEscaped);
    case DoubleQuote =>
      state.On(WordComplete);
      state.Off(WordBuffering);
      state.Off(IsStr);
    case _ =>
      state.On(IsStr);
  }

  /**
   * The structural rules applied in place; `reject` reports that the input
   * is not allowed, and the state is then left for the caller to replace.
   */
  method StructuralStep(state: State, action: SpecialChar) returns (reject: bool)
    requires state.Valid() && IsInvalid !in state.Elements()
    modifies state
    ensures state.Valid()
    ensures reject <==> StructuralRule(old(state.Elements()), action) == Invalid
    ensures !reject ==> state.Elements() == StructuralRule(old(state.Elements()), action)
  {
    reject := false;
    match action
    case OpenBrace =>
      if state.Check(IsValue) && !state.Check(WordComplete) {
        state.On(NewDict);
        state.Off(IsValue);
      } else {
        reject := true;
      }
    case CloseBrace =>
      if state.Check(IsValue) {
        state.On(EndDict);
        state.Off(WordComplete);
        state.Off(WordBuffering);
      } else {
        reject := true;
      }
    case Comma =>
      if state.Check(IsValue) {
        state.On(Separator);
        state.Off(IsValue);
        state.Off(WordComplete);
        state.Off(WordBuffering);
      } else {
        reject := true;
      }
    case Colon =>
      if state.Check(IsKey) {
        state.On(KeyValueDelimiter);
        state.Off(IsKey);
        state.Off(WordComplete);
      } else {
        reject := true;
      }
    case DoubleQuote =>
      if state.Check(WordComplete) {
        reject := true;
      } else {
        state.On(IsStr);
        state.On(WordBuffering);
      }
    case WhiteSpace =>
      assert Members([IsValue, WordBuffering]) == {IsValue, WordBuffering};
      if state.CheckAnd([IsValue, WordBuffering]) {
        state.On(WordComplete);
        state.Off(WordBuffering);
      }
    case Numeric =>
      if state.Check(IsValue) && !state.Check(WordComplete) {
        state.On(WordBuffering);
      } else {
        reject := true;
      }
    case _ =>
      reject := true;
  }

  /**
   * `mutate` on a `State` object: clones it, then switches flags on and off
   * step by step; its result has exactly the flags `Transition` computes.
   */
  method Mutate(current: State, action: SpecialChar) returns (state: State)
    requires current.Valid()
    ensures fresh(state) && state.Valid()
    ensures state.Elements() == Transition(current.Elements(), action)
  {
    state := new State.Clone(current);
    ghost var s := current.Elements();

    // Propagate the invalid state.
    if state.Check(IsInvalid) {
      return;
    }

    // The settle rules, in order.
    SettleFlag(state, NewDict, IsKey);
    SettleFlag(state, EndDict, WordComplete);
    SettleFlag(state, Separator, IsKey);
    SettleFlag(state, KeyValueDelimiter, IsValue);
    assert state.Elements() == Settle(s);

    var reject := false;
    if state.Check(IsStrEscaped) {
      state.Off(IsStrEscaped);
    } else if state.IsNull() {
      match action
      case OpenBrace =>
        state.On(NewDict);
      case WhiteSpace =>
      case _ =>
        reject := true;
    } else if state.Check(IsStr) {
      StringStep(state, action);
    } else {
      reject := StructuralStep(state, action);
    }
    if reject {
      state := new State.Invalid();
    }
  }
}
