# A verified model of the JSON structure checker

The repository proves in zero knowledge that a byte string is a JSON object.
It contains two independent validators, and this project models both:

1. **The grammar state machine** (`src/state_machine_chip/json_state_machine.rs`).
   - A state is a set of eleven flags over the key/value grammar of an object.
   - It is encoded as an 11-bit number.
   - `mutate` moves the state on the class of each character.
   - `bfs_gen_lookup_table` explores every state reachable from the start on byte input.
     It writes one `(before, after, character)` row for each state and byte.
   - Modules: `StateBits`, `StateEncoding`, `JsonState`, `JsonStateMutation`, `GenLookup`.
2. **The structural circuit** (`src/circuits/json.rs`).
   - A table of advice columns: raw character, four character flags and their inverses, `not_str`, `str_escaped`, `level` and its inverse.
   - Three row selectors.
   - The gates that `configure` defines over these.
   - The witness that `synthesize` assigns row by row.
   - Modules: `JsonConfig` (cells and gates), `JsonCircuit` (the witness).

`BraceLexer` is a reference definition of what the circuit is meant to accept. It is a three-mode scanner (outside strings, inside a string, after an escaping backslash) that counts braces outside strings. Its predicate `WellNested` means:
- the input opens with `{` and closes with `}`;
- its body never reaches depth 0;
- there is no backslash outside a string;
- the body ends outside strings at depth 1.

`JsonAcceptance` and `JsonSoundness` relate the circuit to this scanner. `JsonForged` exhibits the witnesses that the circuit, as written, wrongly accepts. `CircuitTests` restates the repository's unit tests as lemmas: it proves that each test input is accepted, and it records which ones the grammar machine would reject.

## How the model is built

- **State** is a Dafny `class` with a `bits: seq<StateBit>` field. This follows the `Vec<StateBits>` that `on`, `off` and `flip` update in place. `Elements()` is the set the sequence holds.
- **`mutate`** builds a fresh state. Its steps (settle the markers, consume an escape, null state, inside-string rules, structural rules) are methods on that state. They are proved against the specification functions `Settle`, `EmptyRule`, `StringRule`, `StructuralRule` and `Transition`.
- **The lookup search** is a method with the source's worklist loop and its inner loop over the 256 byte values. It is proved against `Successor` and the ghost predicate `Reachable`.
- **`synthesize`** is a method with the source's outer loop over the characters and its inner loop over the four special characters. It is proved equal to the function `Witness`.
- **Field elements** are integers. Each inverse cell is a `Fraction`, whose product is checked by cross-multiplying.

## Where the code falls short of its own comments

The code documents what it accepts in three places, and the model follows the code rather than these comments:
- The worked example in the header comment (`src/circuits/json.rs:12-31`) has a start row at `{` and level 1, body rows that leave the level alone inside strings (the `{` and `}` inside `"a{\""}"`) and an end row at `}` and level 0. The code enables the end selector only on a last row that is not the first. So with fewer than two characters nothing checks the closing brace or the level, and the empty input and a lone `{` satisfy every gate (`JsonAcceptance.ShortInputsAccepted`).
- The comment on the end-row gate (`src/circuits/json.rs:173`) says that the close-brace flag forces the raw character to be `}`. That holds only where the character gates are on, and they carry the body selector alone (`JsonConfig.EndRowNotForced`).
- The comment on the level gate (`src/circuits/json.rs:219`) says braces count only outside strings. That holds for the honest witness. A prover who chooses the other cells can make the gates accept unbalanced or non-object inputs (`JsonForged`).

The corrected definitions in "## Findings" close all of these gaps, and the model proves that they do.

## Model

| member | source | states |
|---|---|---|
| StateBits.Index | src/state_machine_chip/json_state_machine.rs:4-16 | each of the eleven flags has a position below 11 |
| StateBits.FromIndex | src/state_machine_chip/json_state_machine.rs:18-34 | the flag built from a position in range has that position (an inverse of `Index`) |
| StateBits.FromIndexOfIndex | src/state_machine_chip/json_state_machine.rs:18-34 | `from` recovers every flag from its position |
| StateBits.Classify | src/state_machine_chip/json_state_machine.rs:55-69 | each class is chosen exactly for its characters: `\\`, `"`, `{`, `}`, `:`, `,`, whitespace, digits and `.`, and Other for all the rest |
| StateEncoding.EncodingBoundIsPow2 | src/state_machine_chip/json_state_machine.rs:103-110 | 2048 is two to the number of flags |
| StateEncoding.EncodeBound | src/state_machine_chip/json_state_machine.rs:103-110 | every encoding is below 2048 |
| StateEncoding.EncodeInsert | src/state_machine_chip/json_state_machine.rs:103-110 | adding an absent flag adds two to the power of its position |
| StateEncoding.EncodeFromParity | src/state_machine_chip/json_state_machine.rs:103-125 | the low bit of the encoding from position k is whether flag k is set |
| StateEncoding.EncodeShift | src/state_machine_chip/json_state_machine.rs:112-125 | shifting an encoding right by j drops the flags below j |
| StateEncoding.DecodeEncode | src/state_machine_chip/json_state_machine.rs:103-125 | decoding an encoding gives the same set of flags back |
| StateEncoding.EncodeDecode | src/state_machine_chip/json_state_machine.rs:103-125 | encoding the decoding of a number below 2048 gives the number back |
| StateEncoding.EncodeInjective | src/state_machine_chip/json_state_machine.rs:103-110 | distinct sets of flags have distinct encodings |
| JsonState.Without | src/state_machine_chip/json_state_machine.rs:151-155 | removes exactly the given flag, keeps the sequence duplicate-free, and never makes it longer |
| JsonState.State.New | src/state_machine_chip/json_state_machine.rs:133-135 | the new state is empty |
| JsonState.State.Start | src/state_machine_chip/json_state_machine.rs:137-139 | the start state is empty |
| JsonState.State.Invalid | src/state_machine_chip/json_state_machine.rs:141-143 | the invalid state holds exactly IsInvalid |
| JsonState.State.Clone | src/state_machine_chip/json_state_machine.rs:194 | the copy has the same flags, in the same order |
| JsonState.State.On | src/state_machine_chip/json_state_machine.rs:145-149 | appends the flag only when it is absent; afterwards the set of flags gains exactly it |
| JsonState.State.Off | src/state_machine_chip/json_state_machine.rs:151-155 | removes the flag if present; afterwards the set of flags loses exactly it |
| JsonState.State.Flip | src/state_machine_chip/json_state_machine.rs:157-163 | removes a present flag and appends an absent one |
| JsonState.State.Check | src/state_machine_chip/json_state_machine.rs:165-167 | true exactly when the flag is set |
| JsonState.State.IsNull | src/state_machine_chip/json_state_machine.rs:169-171 | true exactly when no flag is set |
| JsonState.State.CheckAnd | src/state_machine_chip/json_state_machine.rs:173-175 | true exactly when every listed flag is set |
| JsonState.State.CheckOr | src/state_machine_chip/json_state_machine.rs:177-179 | true exactly when some listed flag is set |
| JsonState.State.Encode | src/state_machine_chip/json_state_machine.rs:103-110 | the loop's sum of powers of two is the encoding of the state's flags, below 2048 |
| JsonState.ShiftZeroStays | src/state_machine_chip/json_state_machine.rs:112-125 | once the shifted value is zero it stays zero, the decoding loop's exit condition |
| JsonState.Decode | src/state_machine_chip/json_state_machine.rs:112-125 | the bit loop yields a fresh state whose flags are the decoding of the number |
| JsonStateMutation.Settle | src/state_machine_chip/json_state_machine.rs:203-218 | the four one-step markers are cleared; IsKey, WordComplete and IsValue are set exactly when they or their marker were; no other flag changes |
| JsonStateMutation.Transition | src/state_machine_chip/json_state_machine.rs:192-336 | the invalid state is absorbing, and a step that turns a state invalid yields exactly the invalid state |
| JsonStateMutation.SettleRule | src/state_machine_chip/json_state_machine.rs:203-218 | one settle step: a marker present is cleared and its target flag set |
| JsonStateMutation.EmptyRule | src/state_machine_chip/json_state_machine.rs:224-240 | the null state's rule: `{` gives NewDict, whitespace keeps the null state, anything else is invalid |
| JsonStateMutation.StringRule | src/state_machine_chip/json_state_machine.rs:242-260 | inside a string: a backslash sets the escape and a quote completes the word and leaves the string |
| JsonStateMutation.StructuralRule | src/state_machine_chip/json_state_machine.rs:264-332 | the structural rules for each character class outside strings |
| JsonStateMutation.Run | src/state_machine_chip/json_state_machine.rs:456-463 | the state after feeding a string's character classes one after the other from a starting state |
| JsonStateMutation.InStringKeeps | src/state_machine_chip/json_state_machine.rs:242-260 | inside a string and not escaped, every class other than backslash and quote leaves the settled state unchanged |
| JsonStateMutation.PaddedDocumentRoundTrips | src/state_machine_chip/json_state_machine.rs:466-484 | on the encoding test's input, every prefix ends valid and its state's encoding survives decoding and re-encoding |
| JsonStateMutation.RejectionIff | src/state_machine_chip/json_state_machine.rs:264-332 | a valid state is rejected exactly when its settled form does not allow the character class (the grammar table of `Allowed`) |
| JsonStateMutation.SettleEmpty | src/state_machine_chip/json_state_machine.rs:203-240 | settling yields the null state exactly from the null state |
| JsonStateMutation.EscapeConsumes | src/state_machine_chip/json_state_machine.rs:221-222 | after a backslash in a string, any character only clears the escape |
| JsonStateMutation.FromEmpty | src/state_machine_chip/json_state_machine.rs:224-240 | from the null state, `{` sets NewDict, whitespace keeps the null state, and every other class is rejected |
| JsonStateMutation.MarkersComeFromInput | src/state_machine_chip/json_state_machine.rs:266-304 | NewDict, EndDict, Separator and KeyValueDelimiter are set only by `{`, `}`, `,` and `:` respectively |
| JsonStateMutation.RunAppend | src/state_machine_chip/json_state_machine.rs:192-336 | running over a concatenation runs over its parts in turn |
| JsonStateMutation.RunAbsorbing | src/state_machine_chip/json_state_machine.rs:198-200 | once invalid, no further input leaves the invalid state |
| JsonStateMutation.ValidThroughout | src/state_machine_chip/json_state_machine.rs:198-200 | if a run ends valid, every prefix of it ended valid |
| JsonStateMutation.SampleDocumentStaysValid | src/state_machine_chip/json_state_machine.rs:450-464 | the sample document of the mutation test keeps every prefix valid and ends in {IsValue, EndDict} |
| JsonStateMutation.EmptyObjectRejected | src/state_machine_chip/json_state_machine.rs:266-283 | `{}` drives the machine invalid |
| JsonStateMutation.UnquotedKeyRejected | src/state_machine_chip/json_state_machine.rs:266-273 | a key must start with a quote |
| JsonStateMutation.QuotedKeyRun | src/state_machine_chip/json_state_machine.rs:242-260 | a quoted key leaves the machine at a completed key |
| JsonStateMutation.DoubleColonRejected | src/state_machine_chip/json_state_machine.rs:296-304 | a second key/value delimiter is rejected |
| JsonStateMutation.SurplusCloseBraceAccepted | src/state_machine_chip/json_state_machine.rs:275-283 | a closed object also accepts a further `}` |
| JsonStateMutation.SeveralDecimalPointsAccepted | src/state_machine_chip/json_state_machine.rs:322-329 | a number may contain several decimal points |
| JsonStateMutation.SettleFlag | src/state_machine_chip/json_state_machine.rs:203-218 | one settle step leaves the flags of `SettleRule` |
| JsonStateMutation.StringStep | src/state_machine_chip/json_state_machine.rs:242-260 | the steps inside a string leave the flags of `StringRule` |
| JsonStateMutation.StructuralStep | src/state_machine_chip/json_state_machine.rs:264-332 | reports a rejection exactly when `StructuralRule` gives Invalid, and otherwise leaves its flags |
| JsonStateMutation.Mutate | src/state_machine_chip/json_state_machine.rs:192-336 | returns a fresh state whose flags are `Transition` of the current flags and the class |
| GenLookup.ByteChar | src/state_machine_chip/json_state_machine.rs:359-361 | the character of byte j has code j |
| GenLookup.Successor | src/state_machine_chip/json_state_machine.rs:361-365 | decoding, mutating and encoding stays below 2048 |
| GenLookup.Reachable | src/state_machine_chip/json_state_machine.rs:345-377 | a number is reachable when it encodes the state the machine reaches on some byte string from the start |
| GenLookup.BlocksLength | src/state_machine_chip/json_state_machine.rs:359-372 | each explored state contributes 256 rows |
| GenLookup.BlocksRows | src/state_machine_chip/json_state_machine.rs:359-372 | every row of the blocks is a correct transition of a listed state on a byte |
| GenLookup.BlocksComplete | src/state_machine_chip/json_state_machine.rs:359-372 | every listed state has a row for every byte |
| GenLookup.BlocksExplored | src/state_machine_chip/json_state_machine.rs:355-372 | the states the blocks have rows for are exactly the listed states |
| GenLookup.DistinctValues | src/state_machine_chip/json_state_machine.rs:369-371 | a duplicate-free list has as many values as entries |
| GenLookup.ExtendPath | src/state_machine_chip/json_state_machine.rs:361-367 | one more byte moves the run's encoding one row on |
| GenLookup.ClosedTableCoversReachable | src/state_machine_chip/json_state_machine.rs:345-377 | a table closed under its rows covers every state reachable on byte strings from 0 |
| GenLookup.ExploredIsReachable | src/state_machine_chip/json_state_machine.rs:345-377 | for such a table, a state is explored exactly when it is reachable |
| GenLookup.NextEncoding | src/state_machine_chip/json_state_machine.rs:361-365 | one table row's `after` is the successor of `before` on the character |
| GenLookup.ExpandByte | src/state_machine_chip/json_state_machine.rs:359-371 | one byte adds its row and, for a new state, queues it with a witness path |
| GenLookup.ExpandState | src/state_machine_chip/json_state_machine.rs:355-372 | the inner loop adds the 256 rows of the state popped from the worklist |
| GenLookup.BfsGenLookupTable | src/state_machine_chip/json_state_machine.rs:345-377 | the start state 0 is explored and every explored state is below 2048. Every row is a correct transition on a byte. There is one row for each explored state and each of the 256 bytes, so the table has 256 rows per explored state. Every result is explored, and the explored states are exactly the reachable ones |
| JsonConfig.Booleans | src/circuits/json.rs:86-107 | gate "Booleans": `not_str`, the four character flags and `str_escaped` are each 0 or 1 |
| JsonConfig.CharBooleans | src/circuits/json.rs:112-143 | gate "Char booleans": each flag is 0 unless `raw` is its code, and its inverse cell makes it 1 when `raw` is |
| JsonConfig.StartConditions | src/circuits/json.rs:162-169 | start half of "Terminal conditions": `{` outside strings, with the other flags 0, at level 1 |
| JsonConfig.EndConditions | src/circuits/json.rs:172-173 | end half of "Terminal conditions": outside strings, with the close-brace flag set |
| JsonConfig.Toggle | src/circuits/json.rs:183-198 | gate "Toggle not_str": kept on a non-quote, flipped on a quote whose previous row is not escaped |
| JsonConfig.NoBackslashOutsideStrings | src/circuits/json.rs:211 | first "Backslash escaping" equation: no backslash outside strings |
| JsonConfig.BackslashEscaping | src/circuits/json.rs:212-213 | the other two equations: no escape right after an escape, and an unescaped row inside a string is escaping exactly when it is a backslash |
| JsonConfig.CountLevels | src/circuits/json.rs:232-234 | body rows of "Count {} levels": the level is kept on a non-brace, and outside strings it goes up on `{` and down on `}` |
| JsonConfig.CountLevelsAtEnd | src/circuits/json.rs:235 | end row of "Count {} levels": the level goes down on a closing brace outside strings |
| JsonConfig.LevelAtEnd | src/circuits/json.rs:251 | "Check level structure" on the end row: the level is 0 |
| JsonConfig.LevelInBody | src/circuits/json.rs:252 | "Check level structure" on body rows: the level times its inverse is 1 |
| JsonConfig.Selectors | src/circuits/json.rs:401-408 | `json_all` on every row, `start` on row 0, `body` on rows 1 to n-2, and `end` on a last row other than row 0 |
| JsonConfig.RowHolds | src/circuits/json.rs:86-256 | every gate whose selector is on at a row holds there, with the previous row for the gates that use it |
| JsonConfig.Satisfied | src/circuits/json.rs:86-256 | every row meets its gates, as the mock prover's check demands |
| JsonCircuit.Step | src/circuits/json.rs:322-369 | one row's update of the carried variables: the inner loop over the four codes, then the escape step |
| JsonCircuit.CarryAfter | src/circuits/json.rs:303-369 | the carried variables after the first i characters, from the initial values of lines 303-307 |
| JsonCircuit.RowOf | src/circuits/json.rs:315-408 | the cells written on one row: the character, its four flags and inverses, the carried variables and the selectors |
| JsonCircuit.Witness | src/circuits/json.rs:289-416 | the whole assignment, one row per input character |
| JsonConfig.InverseOrOneProduct | src/circuits/json.rs:349 | the assigned inverse of a nonzero value times that value is 1, and for zero the gates' product is 0 |
| JsonConfig.CharBooleansForceFlags | src/circuits/json.rs:112-143 | on a row under the character gates, each flag is 1 exactly when the raw character is its character |
| JsonConfig.FlagForced | src/circuits/json.rs:130-139 | the two gates of an is-zero pair force the flag to be equality with the code |
| JsonConfig.LevelInBodyForcesNonzero | src/circuits/json.rs:252 | a body row's level is nonzero |
| JsonConfig.LevelInBodyIff | src/circuits/json.rs:252 | with the honest inverse, the level gate holds exactly when the level is nonzero |
| JsonConfig.StartRowForced | src/circuits/json.rs:162-169 | in a satisfied table, the first row is `{` outside strings at level 1 |
| JsonConfig.EndRowForcesCloseBrace | src/circuits/json.rs:172-173 | with the character gates also on the end row, the last row is `}` outside strings at level 0 |
| JsonConfig.EndRowNotForced | src/circuits/json.rs:125 | as written, a two-row table for `{a` satisfies every gate; the corrected circuit rejects it |
| JsonConfig.RowHoldsByParts | src/circuits/json.rs:86-256 | a row meets all its gates once it meets each gate group its selectors enable |
| JsonCircuit.Synthesize | src/circuits/json.rs:289-416 | the loops assign exactly the rows of `Witness` |
| JsonCircuit.WitnessRows | src/circuits/json.rs:309-410 | rows built from the carried variables after each character are the witness |
| JsonCircuit.VisitCodes | src/circuits/json.rs:322-363 | the inner loop over the four special characters moves the carried variables as `VisitAll` does, with a flag and an inverse per character |
| JsonCircuit.StepEffect | src/circuits/json.rs:322-369 | one character toggles `not_str` on an unescaped quote, moves the level on braces outside strings, sets the escape on a backslash inside a string, and keeps the variables consistent |
| JsonCircuit.InnerLoop | src/circuits/json.rs:322-363 | the visits in order are one character step |
| JsonCircuit.CarryConsistent | src/circuits/json.rs:303-369 | the carried variables stay boolean, with an honest level inverse and an escape only inside strings |
| JsonCircuit.RowGates | src/circuits/json.rs:86-143 | every witness row meets the selector, boolean and character gates |
| JsonCircuit.StepGates | src/circuits/json.rs:183-239 | consecutive witness rows meet the toggle, escaping and level-counting gates |
| JsonCircuit.WitnessRow | src/circuits/json.rs:309-410 | row i of the witness is built from the variables after character i |
| JsonCircuit.WitnessMeetsTransitionGates | src/circuits/json.rs:86-239 | the witness meets every gate that does not depend on the input's shape |
| JsonCircuit.WitnessFacts | src/circuits/json.rs:289-416 | the facts about each witness row that the acceptance proofs use |
| JsonCircuit.RowHoldsIff | src/circuits/json.rs:146-256 | on such rows, all gates hold exactly when the row's own condition holds: `{` first, no backslash outside strings and a nonzero level in the body, `}` at level 0 outside strings last |
| JsonCircuit.BodyRowIff | src/circuits/json.rs:201-256 | a body row's gates are exactly its condition |
| JsonCircuit.SatisfiedIff | src/circuits/json.rs:86-256 | the witness satisfies the circuit exactly when every row meets its condition |
| JsonCircuit.StartLevel | src/circuits/json.rs:162-169 | the witness starts at level 1 exactly when the input starts with `{` |
| JsonCircuit.LevelSteps | src/circuits/json.rs:232-235 | the witness level moves by at most one per row |
| JsonCircuit.LevelsStayPositive | src/circuits/json.rs:252 | a level that starts at 1, moves by at most one and is never 0 stays positive |
| JsonCircuit.AcceptedLevelsPositive | src/circuits/json.rs:242-256 | an accepted witness is at level 1 or above on every row before the end row |
| BraceLexer.LexAppend | src/circuits/json.rs:219 | scanning a concatenation scans its parts in turn |
| JsonAcceptance.StepAgrees | src/circuits/json.rs:322-369 | one character moves the carried variables and the scanner alike |
| JsonAcceptance.Simulation | src/circuits/json.rs:303-369 | the carried variables follow the scanner over the body, and its flag is the conjunction of the body rows' conditions |
| JsonAcceptance.CarryConditionIff | src/circuits/json.rs:146-256 | a row's condition read off the carried variables |
| JsonAcceptance.ConditionsIffWellNested | src/circuits/json.rs:146-256 | with an end row, the witness meets every row condition exactly when the input is well nested |
| JsonAcceptance.AcceptsIffWellNested | src/circuits/json.rs:125-173 | the corrected circuit accepts the witness of an input exactly when the input is well nested |
| JsonAcceptance.AsWrittenAccepts | src/circuits/json.rs:400-408 | the circuit as written accepts the witness of a well-nested input, the empty input and a lone `{`, and nothing else |
| JsonAcceptance.ShortInputsAccepted | src/circuits/json.rs:400-408 | the empty input and `{` are satisfied and not well nested |
| JsonAcceptance.WellNestedLevelsPositive | src/circuits/json.rs:242-256 | the witness of a well-nested input keeps the level at 1 or above until the end row |
| JsonSoundness.ModeStep | src/circuits/json.rs:183-217 | under the added escape gates, any satisfied row moves `not_str` and `str_escaped` as the scanner moves its mode |
| JsonSoundness.LevelStep | src/circuits/json.rs:220-239 | with the level held inside strings, any satisfied row moves the level as the scanner moves its depth |
| JsonSoundness.BodyStep | src/circuits/json.rs:183-256 | any satisfied body row agrees with one scanner step, and it keeps the scanner's flag |
| JsonSoundness.EndStep | src/circuits/json.rs:172-251 | a satisfied end row after an agreeing row closes the object at depth 0 outside strings |
| JsonSoundness.SoundPrefix | src/circuits/json.rs:183-256 | every row of any table satisfying the sound gates agrees with the scanner over the body read so far |
| JsonSoundness.SoundImpliesWellNested | src/circuits/json.rs:86-256 | every table that satisfies the sound gates has a well-nested raw column, whatever the prover chose for the other cells |
| JsonSoundness.WitnessFixedGates | src/circuits/json.rs:289-416 | the honest witness meets the added gates |
| JsonSoundness.SoundAcceptsIffWellNested | src/circuits/json.rs:86-416 | the honest witness satisfies the sound circuit exactly when the input is well nested |
| JsonSoundness.SoundCircuitDecides | src/circuits/json.rs:86-416 | some table over an input satisfies the sound circuit exactly when the input is well nested |
| JsonForged.EscapeOutsideAccepted | src/circuits/json.rs:211-213 | a table for `{"}` with an escape set outside the string satisfies every gate as written; the input is not well nested, the added gate fails, and the sound circuit rejects the table |
| JsonForged.EscapedQuoteClosesAccepted | src/circuits/json.rs:193-194 | a table for `{"\"}` in which the escaped quote closes the string satisfies every gate as written; the input is not well nested and the sound circuit rejects the table |
| JsonForged.BraceInStringAccepted | src/circuits/json.rs:232-234 | a table for `{"{"}}` in which a brace inside the string moves the level satisfies every gate as written; the input is not well nested and the sound circuit rejects the table |
| JsonForged.EndLeavesStringAccepted | src/circuits/json.rs:190-194 | a table for `{"a}` whose end row leaves the string without a quote satisfies every gate as written; the input is not well nested and the sound circuit rejects the table |
| CircuitTests.ObjectAccepted | src/circuits/json.rs:442-489 | an input `{` body `}` whose body scans to depth 1 outside strings is accepted by both circuits |
| CircuitTests.SimpleJsonAccepted | src/circuits/json.rs:443-452 | the first test's input is well nested and satisfies the circuit |
| CircuitTests.EscapedJsonAccepted | src/circuits/json.rs:455-464 | the escaped-characters test's input is well nested and satisfies the circuit |
| CircuitTests.EscapedJsonTwoAccepted | src/circuits/json.rs:467-476 | the second escaped-characters test's input is well nested and satisfies the circuit |
| CircuitTests.EscapedJsonThreeAccepted | src/circuits/json.rs:479-489 | the third escaped-characters test's input is well nested and satisfies the circuit |
| CircuitTests.EscapedJsonThreeRejectedByGrammar | src/circuits/json.rs:478 | the third test's input, whose value repeats, drives the grammar machine invalid |
| CircuitTests.SurplusCloseRejected | src/circuits/json.rs:219-256 | an object with a surplus closing brace is not well nested, and its witness fails the circuit |
| CircuitTests.SurplusCloseNeverAccepted | src/circuits/json.rs:219-256 | no table over that input satisfies the sound circuit |

## Left out

- The proving-system plumbing is not modelled: regions, `assign_advice`, `enable_equality`, the mock prover and its size parameter `k`. The circuit is modelled as one table of rows and the predicate its gates define.
- Field arithmetic modulo the field prime is not modelled. Cells are integers, and an inverse cell is a fraction checked by cross-multiplication. The soundness results therefore cover tables with integer cells and rational inverses; they do not cover wrap-around modulo p, which the field's size makes irrelevant for the character codes and levels of a real input.
- The query comments at `src/circuits/json.rs:33-40` describe a lookup that the code does not build.
- `src/state_machine_chip/json_gate.rs` and `src/state_machine_chip/state_machine.rs` are not part of this model.
- The lookup-table test writes its rows to a file and prints them. That I/O is left out; only the check it asserts on each row is modelled, as the row ensures of `GenLookup.BfsGenLookupTable`.
- The tests of `check` and `check_or` at `src/state_machine_chip/json_state_machine.rs:417-447` assert on a state layout that the code no longer builds. They are left out; the contracts of `JsonState.State.Check` and `JsonState.State.CheckOr` state what the functions compute.
- `assert_valid` (`src/state_machine_chip/json_state_machine.rs:181-183`) only panics. The model states validity as `IsInvalid !in` a state, as in `JsonStateMutation.SampleDocumentStaysValid`.
- `StateBits.FromIndex`: the panic on an out-of-range position is a precondition.
- `JsonState.Decode`: the panic on an out-of-range number is a precondition.
- The duplicated `level = 1` start gate (`src/circuits/json.rs:168-169`) is kept once, as the two are the same constraint.
- `field_operations_test` (`src/circuits/json.rs:430-440`) checks the field library, not this code.
- `mutate` is generic over a character type; the model takes `SpecialChar` directly.
- `JsonState.State.Elements` is the set of the flags. The order in which `on` appends them is kept in `bits` and disappears in the encoding, which sums over the set.

## Findings

| source | as written | input that shows it | evidently intended | confidence | as-written member | corrected member |
|---|---|---|---|---|---|---|
| src/circuits/json.rs:125-173 | the character gates are enabled only on body rows, so on the end row `close_brace = 1` does not force the raw character to be `}` | `{a` with a two-row table whose end row claims a closing brace | the end row's character is `}` | not executed | JsonConfig.EndRowNotForced | JsonAcceptance.AcceptsIffWellNested |
| src/circuits/json.rs:400-408 | with fewer than two characters there is no end row and nothing checks the closing brace or the level | the empty input, and `{` | inputs shorter than two characters are rejected | not executed | JsonAcceptance.ShortInputsAccepted | JsonAcceptance.AcceptsIffWellNested |
| src/circuits/json.rs:211-213 | `str_escaped` is unconstrained outside strings, and an escape wrongly set there keeps the next quote from toggling `not_str` | `{"}` with `str_escaped = 1` on the first row | no escape outside strings | not executed | JsonForged.EscapeOutsideAccepted | JsonSoundness.SoundImpliesWellNested |
| src/circuits/json.rs:193-194 | after an escape, the quote gate is switched off and the first gate does not apply to a quote, so an escaped quote may flip `not_str` | `{"\"}` with the escaped quote closing the string | an escaped quote keeps `not_str` | not executed | JsonForged.EscapedQuoteClosesAccepted | JsonSoundness.SoundImpliesWellNested |
| src/circuits/json.rs:232-234 | on a brace inside a string only the `not_str = 1` gates speak, so the level is free there, against the comment at line 219 | `{"{"}}` with the level raised inside the string | the level is unchanged inside strings | not executed | JsonForged.BraceInStringAccepted | JsonSoundness.SoundCircuitDecides |
| src/circuits/json.rs:190-194 | the toggle gate applies only to body rows, so the end row may set `not_str = 1` after an open string without a quote | `{"a}` ending inside the string | the end row continues the previous row's `not_str` | not executed | JsonForged.EndLeavesStringAccepted | JsonSoundness.SoundCircuitDecides |
