/**
 * The vocabulary of the grammar state machine: the eleven state flags with
 * their bit positions, and the classes into which an input character falls.
 */
module StateBits {

  /** One flag of the parser state; `Index` gives its bit position. */
  datatype StateBit =
    | IsInvalid          // 0: absorbing sink
    | NewDict            // 1: an object was just opened
    | EndDict            // 2: an object was just closed
    | Separator          // 3: a comma was just consumed
    | IsKey              // 4: expecting or reading a key
    | IsValue            // 5: expecting or reading a value
    | KeyValueDelimiter  // 6: a colon was just consumed
    | IsStr              // 7: inside an open string literal
    | IsStrEscaped       // 8: the previous character was an escaping backslash
    | WordBuffering      // 9: accumulating a token
    | WordComplete       // 10: a key or value token was just terminated

  /** Number of flags; every bit position is below it. */
  const BitCount: nat := 11

  /** The bit position of a flag (its discriminant). */
  function Index(b: StateBit): (i: nat)
    ensures i < BitCount
  {
    match b
    case IsInvalid => 0
    case NewDict => 1
    case EndDict => 2
    case Separator => 3
    case IsKey => 4
    case IsValue => 5
    case KeyValueDelimiter => 6
    case IsStr => 7
    case IsStrEscaped => 8
    case WordBuffering => 9
    case WordComplete => 10
  }

  /**
   * `StateBits::from`: the flag at a bit position. `StateBits::from` panics
   * on a position above 10, so such positions are excluded here.
   */
  function FromIndex(id: nat): (b: StateBit)
    requires id < BitCount
    ensures Index(b) == id
  {
    match id
    case 0 => IsInvalid
    case 1 => NewDict
    case 2 => EndDict
    case 3 => Separator
    case 4 => IsKey
    case 5 => IsValue
    case 6 => KeyValueDelimiter
    case 7 => IsStr
    case 8 => IsStrEscaped
    case 9 => WordBuffering
    case _ => WordComplete
  }

  /** Bit positions identify flags: `FromIndex` inverts `Index`. */
  lemma FromIndexOfIndex(b: StateBit)
    ensures FromIndex(Index(b)) == b
  {
  }

  /** `1 << n`. */
  function Pow2(n: nat): (p: nat)
    ensures p >= 1
  {
    if n == 0 then 1 else 2 * Pow2(n - 1)
  }

  /** The class of an input character, as consumed by the transition function. */
  datatype SpecialChar =
    | Backslash    // 0x5c
    | DoubleQuote  // 0x22
    | OpenBrace    // 0x7b
    | CloseBrace   // 0x7d
    | Colon        // 0x3a
    | Comma        // 0x2c
    | WhiteSpace
    | Numeric
    | Other

  /** Unicode's White_Space property, which Rust's `char::is_whitespace` tests. */
  predicate IsWhitespace(ch: char)
  {
    || ('\t' <= ch <= '\r')
    || ch == ' '
    || ch == '\U{0085}'
    || ch == '\U{00A0}'
    || ch == '\U{1680}'
    || ('\U{2000}' <= ch <= '\U{200A}')
    || ch == '\U{2028}'
    || ch == '\U{2029}'
    || ch == '\U{202F}'
    || ch == '\U{205F}'
    || ch == '\U{3000}'
  }

  /** A decimal digit or the decimal point. */
  predicate IsNumeric(ch: char)
  {
    ('0' <= ch <= '9') || ch == '.'
  }

  /**
   * `SpecialChar::from`: the six punctuation characters map to their own
   * classes, whitespace to WhiteSpace, digits and '.' to Numeric, and
   * everything else to Other.
   */
  function Classify(ch: char): (c: SpecialChar)
    ensures c == Backslash <==> ch == '\\'
    ensures c == DoubleQuote <==> ch == '"'
    ensures c == OpenBrace <==> ch == '{'
    ensures c == CloseBrace <==> ch == '}'
    ensures c == Colon <==> ch == ':'
    ensures c == Comma <==> ch == ','
    ensures c == WhiteSpace <==> IsWhitespace(ch)
    ensures c == Numeric <==> IsNumeric(ch)
    ensures c == Other <==> !IsWhitespace(ch) && !IsNumeric(ch) && ch !in "\\\"{}:,"
  {
    if ch == '\\' then Backslash
    else if ch == '"' then DoubleQuote
    else if ch == '{' then OpenBrace
    else if ch == '}' then CloseBrace
    else if ch == ':' then Colon
    else if ch == ',' then Comma
    else if IsWhitespace(ch) then WhiteSpace
    else if IsNumeric(ch) then Numeric
    else Other
  }
}
