/**
 * Generation of the transition lookup table: a worklist search from the
 * start state that feeds every byte value to every state it meets and
 * records one `(before, after, c)` row per pair. The worklist is popped
 * from its end, so the search is depth-first.
 */
module GenLookup {
  import opened StateBits
  import opened StateEncoding
  import opened JsonState
  import opened JsonStateMutation

  /** One row of the lookup table: encoded state before, encoded state after, input character. */
  datatype Row = Row(before: nat, after: nat, input: char)

  /** The number of byte values fed to each state. */
  const ByteCount: nat := 256

  /** `char::from(j)` for a byte value `j`. */
  function ByteChar(j: int): (c: char)
    requires 0 <= j < ByteCount
    ensures c as int == j
  {
    j as char
  }

  /** `encode(decode(x).mutate(from(c)))`, on the specification functions. */
  function Successor(x: nat, c: char): (y: nat)
    requires x < EncodingBound
    ensures y < EncodingBound
  {
    EncodeBound(Transition(DecodeSet(x), Classify(c)));
    EncodeSet(Transition(DecodeSet(x), Classify(c)))
  }

  /** The 256 rows of state `x`, one per byte value in increasing order. */
  function Block(x: nat): seq<Row>
    requires x < EncodingBound
  {
    seq(ByteCount, j requires 0 <= j < ByteCount => Row(x, Successor(x, ByteChar(j)), ByteChar(j)))
  }

  /** Every value of `xs` can be decoded. */
  predicate Decodable(xs: seq<nat>)
  {
    forall i :: 0 <= i < |xs| ==> xs[i] < EncodingBound
  }

  /** The blocks of the states of `xs`, in order. */
  function Blocks(xs: seq<nat>): seq<Row>
    requires Decodable(xs)
  {
    if xs == [] then [] else Blocks(xs[..|xs| - 1]) + Block(xs[|xs| - 1])
  }

  predicate Distinct(xs: seq<nat>)
  {
    forall i, j :: 0 <= i < j < |xs| ==> xs[i] != xs[j]
  }

  function Values(xs: seq<nat>): set<nat>
  {
    set x | x in xs
  }

  /** A set of values below `n` has at most `n` elements. */
  lemma {:induction false} CardBelow(s: set<nat>, n: nat)
    requires forall x :: x in s ==> x < n
    ensures |s| <= n
  {
    if n > 0 {
      CardBelow(s - {n - 1}, n - 1);
    } else {
      assert s == {};
    }
  }

  /** The states a table has rows for. */
  function Explored(table: seq<Row>): set<nat>
  {
    set r | r in table :: r.before
  }

  /** Every character of `w` is a byte value. */
  predicate IsByteString(w: string)
  {
    forall i :: 0 <= i < |w| ==> w[i] as int < ByteCount
  }

  /** `x` encodes the state the machine reaches on some byte string from the start. */
  ghost predicate Reachable(x: nat)
  {
    exists w :: IsByteString(w) && EncodeSet(Run({}, w)) == x
  }

  // ---------- lemmas about blocks ----------

  lemma {:induction false} BlocksLength(xs: seq<nat>)
    requires Decodable(xs)
    ensures |Blocks(xs)| == ByteCount * |xs|
    decreases |xs|
  {
    if xs != [] {
      BlocksLength(xs[..|xs| - 1]);
    }
  }

  /** Every row of `Blocks(xs)` belongs to a state of `xs` and is a correct transition on a byte. */
  lemma {:induction false} BlocksRows(xs: seq<nat>, r: Row)
    requires Decodable(xs) && r in Blocks(xs)
    ensures r.before in xs && r.before < EncodingBound
    ensures r.input as int < ByteCount && r.after == Successor(r.before, r.input)
    decreases |xs|
  {
    var front := xs[..|xs| - 1];
    if r in Blocks(front) {
      BlocksRows(front, r);
    } else {
      var k :| 0 <= k < ByteCount && Block(xs[|xs| - 1])[k] == r;
    }
  }

  /** Every state of `xs` has a row for every byte in `Blocks(xs)`. */
  lemma {:induction false} BlocksComplete(xs: seq<nat>, i: nat, j: nat)
    requires Decodable(xs) && i < |xs| && j < ByteCount
    ensures Row(xs[i], Successor(xs[i], ByteChar(j)), ByteChar(j)) in Blocks(xs)
    decreases |xs|
  {
    var front := xs[..|xs| - 1];
    if i < |xs| - 1 {
      BlocksComplete(front, i, j);
    } else {
      assert Block(xs[i])[j] == Row(xs[i], Successor(xs[i], ByteChar(j)), ByteChar(j));
    }
  }

  /** The states with rows in `Blocks(xs)` are those of `xs`. */
  lemma BlocksExplored(xs: seq<nat>)
    requires Decodable(xs)
    ensures Explored(Blocks(xs)) == Values(xs)
  {
    forall x | x in Explored(Blocks(xs))
      ensures x in Values(xs)
    {
      var r :| r in Blocks(xs) && r.before == x;
      BlocksRows(xs, r);
    }
    forall x | x in Values(xs)
      ensures x in Explored(Blocks(xs))
    {
      var i :| 0 <= i < |xs| && xs[i] == x;
      BlocksComplete(xs, i, 0);
    }
  }

  /** A sequence without repetitions has as many values as elements. */
  lemma {:induction false} DistinctValues(xs: seq<nat>)
    requires Distinct(xs)
    ensures |Values(xs)| == |xs|
    decreases |xs|
  {
    if xs != [] {
      var front := xs[..|xs| - 1];
      DistinctValues(front);
      assert Values(xs) == Values(front) + {xs[|xs| - 1]} by {
        assert xs == front + [xs[|xs| - 1]];
      }
    }
  }

  // ---------- reachability ----------

  /** Extending a byte string by `c` moves its state to the successor on `c`. */
  lemma ExtendPath(w: string, c: char, x: nat)
    requires x < EncodingBound && EncodeSet(Run({}, w)) == x
    ensures EncodeSet(Run({}, w + [c])) == Successor(x, c)
  {
    DecodeEncode(Run({}, w));
    RunAppend({}, w, [c]);
    assert Run(Run({}, w), [c]) == Transition(Run({}, w), Classify(c));
  }

  /**
   * A table that has the start state, has a row for every byte of every
   * state it explores, and explores every state it leads to, explores every
   * state reachable on byte input.
   */
  lemma {:induction false} ClosedTableCoversReachable(table: seq<Row>, w: string)
    requires 0 in Explored(table)
    requires forall x :: x in Explored(table) ==> x < EncodingBound
    requires forall r :: r in table ==> r.after in Explored(table)
    requires forall x, j :: x in Explored(table) && 0 <= j < ByteCount ==>
               Row(x, Successor(x, ByteChar(j)), ByteChar(j)) in table
    requires IsByteString(w)
    ensures EncodeSet(Run({}, w)) in Explored(table)
    decreases |w|
  {
    if w == [] {
      EncodeEmpty(0);
    } else {
      var front, c := w[..|w| - 1], w[|w| - 1];
      assert w == front + [c];
      ClosedTableCoversReachable(table, front);
      var x := EncodeSet(Run({}, front));
      ExtendPath(front, c, x);
      var j: int := c as int;
      assert ByteChar(j) == c && 0 <= j < ByteCount;
      assert Row(x, Successor(x, ByteChar(j)), ByteChar(j)) in table;
    }
  }

  /** The states of a closed table whose states are all reachable are exactly the reachable ones. */
  lemma ExploredIsReachable(table: seq<Row>, x: nat)
    requires 0 in Explored(table)
    requires forall y :: y in Explored(table) ==> y < EncodingBound
    requires forall r :: r in table ==> r.after in Explored(table)
    requires forall y, j :: y in Explored(table) && 0 <= j < ByteCount ==>
               Row(y, Successor(y, ByteChar(j)), ByteChar(j)) in table
    requires forall y :: y in Explored(table) ==> Reachable(y)
    ensures x in Explored(table) <==> Reachable(x)
  {
    if Reachable(x) {
      var w :| IsByteString(w) && EncodeSet(Run({}, w)) == x;
      ClosedTableCoversReachable(table, w);
    }
  }

  // ---------- the search ----------

  /** `paths` holds, for each state of `states`, a byte string that leads to it from the start. */
  ghost predicate Witnessed(paths: map<nat, string>, states: set<nat>)
  {
    forall x :: x in states ==>
      x in paths && IsByteString(paths[x]) && EncodeSet(Run({}, paths[x])) == x
  }

  /** Recording a byte string that leads to `x` witnesses `x` as well. */
  lemma Witness(paths: map<nat, string>, states: set<nat>, x: nat, w: string)
    requires Witnessed(paths, states) && x !in states
    requires IsByteString(w) && EncodeSet(Run({}, w)) == x
    ensures Witnessed(paths[x := w], states + {x})
  {
  }

  /** Appending a row whose result is explored or waiting keeps every new row leading on. */
  lemma RowsLeadOn(rows: seq<Row>, lo: nat, r: Row, memory: set<nat>,
                   buffer: seq<nat>, buffer': seq<nat>)
    requires forall i :: lo <= i < |rows| ==> rows[i].after in memory || rows[i].after in buffer
    requires buffer <= buffer' && (r.after in memory || r.after in buffer')
    ensures forall i :: lo <= i < |rows + [r]| ==>
              (rows + [r])[i].after in memory || (rows + [r])[i].after in buffer'
  {
    forall i | lo <= i < |rows + [r]|
      ensures (rows + [r])[i].after in memory || (rows + [r])[i].after in buffer'
    {
      if i < |rows| {
        assert (rows + [r])[i] == rows[i];
        assert rows[i].after in buffer ==> rows[i].after in buffer';
      }
    }
  }

  /** The rows of `x` for the bytes below `j + 1` are those below `j` and then the row for `j`. */
  lemma BlockPrefix(x: nat, j: nat)
    requires x < EncodingBound && j < ByteCount
    ensures Block(x)[..j + 1] == Block(x)[..j] + [Row(x, Successor(x, ByteChar(j)), ByteChar(j))]
  {
  }

  /**
   * One row of the inner loop: mutates the decoded state `before` by the
   * class of `c` and encodes the result.
   */
  method NextEncoding(state: State, ghost before: nat, c: char) returns (after: nat)
    requires before < EncodingBound
    requires state.Valid() && state.Elements() == DecodeSet(before)
    ensures after == Successor(before, c)
  {
    var action := Classify(c);
    var endState := Mutate(state, action);
    after := endState.Encode();
  }

  /**
   * The invariant of the inner loop after the bytes below `j`: `table'` is
   * `table` followed by the rows of `before` for those bytes, `buffer'`
   * extends `buffer` with distinct unexplored states, every new row leads
   * to an explored or waiting state, and every state met is witnessed.
   */
  ghost predicate Expanding(before: nat, memory: set<nat>, table: seq<Row>, buffer: seq<nat>, j: nat,
                            table': seq<Row>, buffer': seq<nat>, paths': map<nat, string>)
  {
    && before < EncodingBound && j <= ByteCount
    && table' == table + Block(before)[..j]
    && Decodable(buffer') && Distinct(buffer') && buffer <= buffer'
    && (forall x :: x in buffer' ==> x !in memory)
    && (forall i :: |table| <= i < |table'| ==>
          table'[i].after in memory || table'[i].after in buffer')
    && Witnessed(paths', memory + Values(buffer'))
  }

  /** A fresh state below the bound pushed onto a distinct, unexplored worklist keeps it so. */
  lemma PushFresh(memory: set<nat>, waiting: seq<nat>, after: nat)
    requires after < EncodingBound && after !in memory && after !in waiting
    requires Decodable(waiting) && Distinct(waiting) && (forall x :: x in waiting ==> x !in memory)
    ensures Decodable(waiting + [after]) && Distinct(waiting + [after])
    ensures forall x :: x in waiting + [after] ==> x !in memory
  {
  }

  /** The path to `before` followed by `c` witnesses the successor. */
  lemma PushPath(states: set<nat>, paths: map<nat, string>, before: nat, c: char, after: nat)
    requires before < EncodingBound && before in states && c as int < ByteCount
    requires after == Successor(before, c) && after !in states
    requires Witnessed(paths, states)
    ensures Witnessed(paths[after := paths[before] + [c]], states + {after})
  {
    var w := paths[before];
    assert IsByteString(w) && EncodeSet(Run({}, w)) == before;
    assert IsByteString(w + [c]) by {
      assert forall i :: 0 <= i < |w + [c]| ==> (w + [c])[i] == if i < |w| then w[i] else c;
    }
    ExtendPath(w, c, before);
    Witness(paths, states, after, w + [c]);
  }

  lemma ValuesSnoc(xs: seq<nat>, x: nat)
    ensures Values(xs + [x]) == Values(xs) + {x}
  {
    assert forall y :: y in xs + [x] <==> y in xs || y == x;
  }

  /** One more row, with its result explored or waiting, extends the inner-loop invariant. */
  lemma ExpandingStep(before: nat, memory: set<nat>, table: seq<Row>, buffer: seq<nat>, j: nat,
                      rows: seq<Row>, waiting: seq<nat>, paths: map<nat, string>,
                      after: nat, rows': seq<Row>, waiting': seq<nat>, paths': map<nat, string>)
    requires Expanding(before, memory, table, buffer, j, rows, waiting, paths) && j < ByteCount
    requires after == Successor(before, ByteChar(j))
    requires rows' == rows + [Row(before, after, ByteChar(j))]
    requires waiting <= waiting' && Decodable(waiting') && Distinct(waiting')
    requires forall x :: x in waiting' ==> x !in memory
    requires after in memory || after in waiting'
    requires Witnessed(paths', memory + Values(waiting'))
    ensures Expanding(before, memory, table, buffer, j + 1, rows', waiting', paths')
  {
    BlockPrefix(before, j);
    assert (table + Block(before)[..j]) + [Row(before, after, ByteChar(j))] ==
           table + (Block(before)[..j] + [Row(before, after, ByteChar(j))]);
    RowsLeadOn(rows, |table|, Row(before, after, ByteChar(j)), memory, waiting, waiting');
  }

  /**
   * The body of the inner loop for byte `j`: one row is appended, and its
   * result is pushed when it is neither explored nor waiting.
   */
  method ExpandByte(state: State, before: nat, memory: set<nat>, ghost table: seq<Row>,
                    ghost buffer: seq<nat>, j: nat, rows: seq<Row>, waiting: seq<nat>,
                    ghost paths: map<nat, string>)
    returns (rows': seq<Row>, waiting': seq<nat>, ghost paths': map<nat, string>)
    requires before < EncodingBound && before in memory && j < ByteCount
    requires state.Valid() && state.Elements() == DecodeSet(before)
    requires Expanding(before, memory, table, buffer, j, rows, waiting, paths)
    ensures Expanding(before, memory, table, buffer, j + 1, rows', waiting', paths')
  {
    var c := ByteChar(j);
    var after := NextEncoding(state, before, c);
    rows', waiting', paths' := rows + [Row(before, after, c)], waiting, paths;
    if after !in memory && after !in waiting {
      PushFresh(memory, waiting, after);
      PushPath(memory + Values(waiting), paths, before, c, after);
      ValuesSnoc(waiting, after);
      assert memory + Values(waiting) + {after} == memory + Values(waiting + [after]);
      waiting' := waiting + [after];
      paths' := paths[after := paths[before] + [c]];
    }
    ExpandingStep(before, memory, table, buffer, j, rows, waiting, paths, after, rows', waiting', paths');
  }

  /**
   * The inner loop of the search: feeds every byte value, in increasing
   * order, to the decoded state `before`, appends one row per byte to
   * `table`, and pushes each result that is neither explored nor waiting.
   */
  method ExpandState(state: State, before: nat, memory: set<nat>, table: seq<Row>,
                     buffer: seq<nat>, ghost paths: map<nat, string>)
    returns (table': seq<Row>, buffer': seq<nat>, ghost paths': map<nat, string>)
    requires before < EncodingBound && before in memory
    requires state.Valid() && state.Elements() == DecodeSet(before)
    requires Decodable(buffer) && Distinct(buffer)
    requires forall x :: x in buffer ==> x !in memory
    requires Witnessed(paths, memory + Values(buffer))
    ensures table' == table + Block(before)
    ensures Decodable(buffer') && Distinct(buffer') && buffer <= buffer'
    ensures forall x :: x in buffer' ==> x !in memory
    ensures forall i :: |table| <= i < |table'| ==>
              table'[i].after in memory || table'[i].after in buffer'
    ensures Witnessed(paths', memory + Values(buffer'))
  {
    table', buffer', paths' := table, buffer, paths;
    assert table + Block(before)[..0] == table;
    for j := 0 to ByteCount
      invariant state.Valid() && state.Elements() == DecodeSet(before)
      invariant Expanding(before, memory, table, buffer, j, table', buffer', paths')
    {
      table', buffer', paths' := ExpandByte(state, before, memory, table, buffer, j, table', buffer', paths');
    }
    assert Block(before)[..ByteCount] == Block(before);
  }

  /**
   * What the finished search establishes about its table, from the states
   * it explored: every row is a correct transition, every byte of every
   * explored state has its row, every result is explored, and every
   * explored state is reachable.
   */
  lemma FinishedSearch(visited: seq<nat>, table: seq<Row>)
    requires Decodable(visited) && Distinct(visited) && table == Blocks(visited)
    requires visited != [] && visited[0] == 0
    requires forall i :: 0 <= i < |table| ==> table[i].after in Values(visited)
    requires forall x :: x in Values(visited) ==> Reachable(x)
    ensures 0 in Explored(table)
    ensures forall x :: x in Explored(table) ==> x < EncodingBound
    ensures forall r :: r in table ==> r.input as int < ByteCount
    ensures forall r :: r in table ==>
              r.before < EncodingBound && r.after == Successor(r.before, r.input)
    ensures forall r :: r in table ==> r.after in Explored(table)
    ensures forall x, j :: x in Explored(table) && 0 <= j < ByteCount ==>
              Row(x, Successor(x, ByteChar(j)), ByteChar(j)) in table
    ensures |table| == ByteCount * |Explored(table)|
    ensures forall x :: x in Explored(table) ==> Reachable(x)
  {
    BlocksExplored(visited);
    BlocksLength(visited);
    DistinctValues(visited);
    forall r | r in table
      ensures r.input as int < ByteCount
      ensures r.before < EncodingBound && r.after == Successor(r.before, r.input)
      ensures r.after in Explored(table)
    {
      BlocksRows(visited, r);
    }
    forall x, j | x in Explored(table) && 0 <= j < ByteCount
      ensures Row(x, Successor(x, ByteChar(j)), ByteChar(j)) in table
    {
      var i :| 0 <= i < |visited| && visited[i] == x;
      BlocksComplete(visited, i, j);
    }
  }

  /**
   * The invariant of the search: `buffer` holds distinct states not yet
   * explored, `memory` the explored states in the order `visited`, `table`
   * the rows of the explored states, every row leads to an explored or
   * waiting state, and every state met has a byte string leading to it.
   */
  ghost predicate Searching(buffer: seq<nat>, memory: set<nat>, visited: seq<nat>,
                            table: seq<Row>, paths: map<nat, string>)
  {
    && Decodable(buffer) && Decodable(visited)
    && Distinct(buffer) && Distinct(visited)
    && memory == Values(visited)
    && (forall x :: x in buffer ==> x !in memory)
    && table == Blocks(visited)
    && (forall i :: 0 <= i < |table| ==> table[i].after in memory || table[i].after in buffer)
    && Witnessed(paths, memory + Values(buffer))
    && (visited == [] ==> buffer == [0])
    && (visited != [] ==> visited[0] == 0)
  }

  /** Popping the last waiting state leaves a worklist of distinct unexplored states. */
  lemma PopRest(buffer: seq<nat>, memory: set<nat>, visited: seq<nat>,
                table: seq<Row>, paths: map<nat, string>)
    requires Searching(buffer, memory, visited, table, paths) && buffer != []
    ensures var before, rest := buffer[|buffer| - 1], buffer[..|buffer| - 1];
      && before < EncodingBound && before !in memory
      && Decodable(rest) && Distinct(rest)
      && (forall x :: x in rest ==> x != before && x !in memory)
  {
  }

  /** The popped state joins the explored ones without losing a witness or exceeding the bound. */
  lemma PopWitness(buffer: seq<nat>, memory: set<nat>, visited: seq<nat>,
                   table: seq<Row>, paths: map<nat, string>)
    requires Searching(buffer, memory, visited, table, paths) && buffer != []
    ensures var before, rest := buffer[|buffer| - 1], buffer[..|buffer| - 1];
      && Witnessed(paths, memory + {before} + Values(rest))
      && |memory + {before}| <= EncodingBound
  {
    var before, rest := buffer[|buffer| - 1], buffer[..|buffer| - 1];
    assert buffer == rest + [before];
    assert Values(buffer) == Values(rest) + {before};
    assert memory + {before} + Values(rest) == memory + Values(buffer);
    CardBelow(memory + {before}, EncodingBound);
  }

  /** Expanding the popped state restores the invariant with one more state explored. */
  lemma ExpandDone(buffer: seq<nat>, memory: set<nat>, visited: seq<nat>,
                   table: seq<Row>, paths: map<nat, string>,
                   table': seq<Row>, buffer': seq<nat>, paths': map<nat, string>)
    requires Searching(buffer, memory, visited, table, paths) && buffer != []
    requires var before, rest := buffer[|buffer| - 1], buffer[..|buffer| - 1];
      && before < EncodingBound
      && table' == table + Block(before)
      && Decodable(buffer') && Distinct(buffer') && rest <= buffer'
      && (forall x :: x in buffer' ==> x !in memory + {before})
      && (forall i :: |table| <= i < |table'| ==>
            table'[i].after in memory + {before} || table'[i].after in buffer')
      && Witnessed(paths', memory + {before} + Values(buffer'))
    ensures var before := buffer[|buffer| - 1];
      Searching(buffer', memory + {before}, visited + [before], table', paths')
  {
    var before, rest := buffer[|buffer| - 1], buffer[..|buffer| - 1];
    assert buffer == rest + [before];
    assert before !in visited;
    VisitOne(visited, memory, table, before);
    TableLeadsOn(buffer, memory, table, table', buffer');
  }

  /** Appending an unexplored state to the explored ones. */
  lemma VisitOne(visited: seq<nat>, memory: set<nat>, table: seq<Row>, before: nat)
    requires Decodable(visited) && Distinct(visited) && memory == Values(visited)
    requires table == Blocks(visited) && before < EncodingBound && before !in memory
    ensures Decodable(visited + [before]) && Distinct(visited + [before])
    ensures Values(visited + [before]) == memory + {before}
    ensures Blocks(visited + [before]) == table + Block(before)
    ensures (visited + [before])[0] == if visited == [] then before else visited[0]
  {
    var visited' := visited + [before];
    assert Values(visited') == memory + {before} by {
      assert forall x :: x in visited' <==> x in visited || x == before;
    }
    assert visited'[..|visited'| - 1] == visited;
  }

  /** Rows that led to explored or waiting states still do once the last waiting state is explored. */
  lemma TableLeadsOn(buffer: seq<nat>, memory: set<nat>, table: seq<Row>,
                     table': seq<Row>, buffer': seq<nat>)
    requires buffer != [] && buffer[..|buffer| - 1] <= buffer'
    requires |table| <= |table'| && table'[..|table|] == table
    requires forall i :: 0 <= i < |table| ==> table[i].after in memory || table[i].after in buffer
    requires forall i :: |table| <= i < |table'| ==>
               table'[i].after in memory + {buffer[|buffer| - 1]} || table'[i].after in buffer'
    ensures forall i :: 0 <= i < |table'| ==>
              table'[i].after in memory + {buffer[|buffer| - 1]} || table'[i].after in buffer'
  {
    var before, rest := buffer[|buffer| - 1], buffer[..|buffer| - 1];
    forall i | 0 <= i < |table'|
      ensures table'[i].after in memory + {before} || table'[i].after in buffer'
    {
      if i < |table| {
        assert table'[i] == table[i];
        if table[i].after in buffer {
          assert buffer == rest + [before];
          assert table[i].after in rest || table[i].after == before;
        }
      }
    }
  }

  /**
   * `bfs_gen_lookup_table`: starts from the encoding of the start state,
   * pops states from the end of the worklist, decodes each and expands it.
   * The table has 256 rows, one per byte, for each state it explores, every
   * row is the transition it names, every result is explored, and every
   * explored state is reachable from the start on byte input.
   */
  method BfsGenLookupTable() returns (table: seq<Row>)
    ensures 0 in Explored(table)
    ensures forall x :: x in Explored(table) ==> x < EncodingBound
    ensures forall r :: r in table ==> r.input as int < ByteCount
    ensures forall r :: r in table ==>
              r.before < EncodingBound && r.after == Successor(r.before, r.input)
    ensures forall r :: r in table ==> r.after in Explored(table)
    ensures forall x, j :: x in Explored(table) && 0 <= j < ByteCount ==>
              Row(x, Successor(x, ByteChar(j)), ByteChar(j)) in table
    ensures |table| == ByteCount * |Explored(table)|
    ensures forall x :: x in Explored(table) ==> Reachable(x)
  {
    table := [];
    var buffer: seq<nat> := [];
    var memory: set<nat> := {};
    ghost var visited: seq<nat> := [];
    ghost var paths: map<nat, string> := map[];

    var start := new State.Start();
    var first := start.Encode();
    EncodeEmpty(0);
    buffer := buffer + [first];
    paths := paths[first := []];

    while buffer != []
      invariant Searching(buffer, memory, visited, table, paths)
      decreases EncodingBound - |memory|
    {
      PopRest(buffer, memory, visited, table, paths);
      PopWitness(buffer, memory, visited, table, paths);
      ghost var waiting, explored, order, rows, paths0 := buffer, memory, visited, table, paths;
      var before := buffer[|buffer| - 1];
      buffer := buffer[..|buffer| - 1];
      var state := Decode(before);
      memory := memory + {before};
      visited := visited + [before];
      table, buffer, paths := ExpandState(state, before, memory, table, buffer, paths);
      ExpandDone(waiting, explored, order, rows, paths0, table, buffer, paths);
    }

    forall x | x in Values(visited)
      ensures Reachable(x)
    {
      assert IsByteString(paths[x]) && EncodeSet(Run({}, paths[x])) == x;
    }
    FinishedSearch(visited, table);
  }
}
