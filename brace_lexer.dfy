/**
 * A reference reading of what the structural circuit is meant to accept:
 * a scanner over character codes with three modes (outside strings, inside
 * a string, right after an escaping backslash) that counts the braces met
 * outside strings. It shares no definition with the circuit's witness.
 */
module BraceLexer {
  import opened JsonConfig

  /** Where the scanner is with respect to string literals. */
  datatype Mode = Outside | InString | Escaped

  /**
   * The scanner's state over the body of the input: its mode, the brace
   * depth, and whether every character so far kept the depth nonzero and
   * was no backslash outside a string.
   */
  datatype Scan = Scan(mode: Mode, depth: int, ok: bool)

  /** A quote opens and closes strings; inside one, a backslash escapes the next character. */
  function NextMode(m: Mode, x: int): Mode
  {
    match m
    case Outside => if x == DoubleQuoteCode then InString else Outside
    case InString =>
      if x == DoubleQuoteCode then Outside else if x == BackslashCode then Escaped else InString
    case Escaped => InString
  }

  /** Braces outside strings move the depth; anything else leaves it. */
  function NextDepth(m: Mode, d: int, x: int): int
  {
    if m == Outside && x == OpenBraceCode then d + 1
    else if m == Outside && x == CloseBraceCode then d - 1
    else d
  }

  /** Scans one more character of the body. */
  function LexStep(s: Scan, x: int): Scan
  {
    var d := NextDepth(s.mode, s.depth, x);
    Scan(NextMode(s.mode, x), d, s.ok && d != 0 && !(s.mode == Outside && x == BackslashCode))
  }

  /** Scans `w` from `s`, one character after the other. */
  function Lex(s: Scan, w: seq<int>): Scan
  {
    if w == [] then s else LexStep(Lex(s, w[..|w| - 1]), w[|w| - 1])
  }

  /** Scanning a concatenation scans its parts in turn. */
  lemma {:induction false} LexAppend(s: Scan, a: seq<int>, b: seq<int>)
    ensures Lex(s, a + b) == Lex(Lex(s, a), b)
    decreases |b|
  {
    if b == [] {
      assert a + b == a;
    } else {
      var b' := b[..|b| - 1];
      LexAppend(s, a, b');
      assert (a + b)[..|a + b| - 1] == a + b';
    }
  }

  /** The state right after the opening brace. */
  const Opened: Scan := Scan(Outside, 1, true)

  /**
   * The input is an object with balanced braces: it opens with `{`, closes
   * with `}`, its body leaves the scanner outside strings at depth 1
   * without ever reaching depth 0 and without a backslash outside strings.
   */
  predicate WellNested(raw: seq<int>)
  {
    && 2 <= |raw| && raw[0] == OpenBraceCode && raw[|raw| - 1] == CloseBraceCode
    && var s := Lex(Opened, raw[1..|raw| - 1]);
       s.ok && s.mode == Outside && s.depth == 1
  }

  /** The character codes of a string, as the tests feed it to the circuit. */
  function Codes(s: string): seq<int>
  {
    seq(|s|, i requires 0 <= i < |s| => s[i] as int)
  }

  /** The codes of a concatenation are the concatenated codes. */
  lemma CodesAppend(a: string, b: string)
    ensures Codes(a + b) == Codes(a) + Codes(b)
  {
  }

  /** The codes of a slice are the slice of the codes. */
  lemma CodesSlice(t: string, i: nat, j: nat)
    requires i <= j <= |t|
    ensures Codes(t)[i..j] == Codes(t[i..j])
  {
  }

  /** Scanning a three-character piece ahead of the rest of a string. */
  lemma LexChunk(s: Scan, p: string, r: string)
    requires |p| == 3
    ensures Lex(s, Codes(p + r)) ==
            Lex(LexStep(LexStep(LexStep(s, p[0] as int), p[1] as int), p[2] as int), Codes(r))
  {
    CodesAppend(p, r);
    LexAppend(s, Codes(p), Codes(r));
    var a, b, c := p[0] as int, p[1] as int, p[2] as int;
    assert Codes(p) == [a, b, c];
    assert [a, b, c][..2] == [a, b];
    assert [a, b][..1] == [a];
    assert [a][..0] == [];
    assert Lex(s, [a]) == LexStep(s, a);
    assert Lex(s, [a, b]) == LexStep(LexStep(s, a), b);
  }

  /** Scanning one character ahead of the rest of a string. */
  lemma LexChar(s: Scan, p: string, r: string)
    requires |p| == 1
    ensures Lex(s, Codes(p + r)) == Lex(LexStep(s, p[0] as int), Codes(r))
  {
    CodesAppend(p, r);
    LexAppend(s, Codes(p), Codes(r));
    assert Codes(p) == [p[0] as int];
    assert [p[0] as int][..0] == [];
  }
}
