/** The lexical grammar that scripts/sql_comments.rb recognises, stated apart from the
    scanner: what each kind of token looks like in front of the text that follows it. */
module SqlGrammar {

  import opened Bytes

  const NEWLINE: Byte := 10
  const SPACE: Byte := 32
  const DOUBLE_QUOTE: Byte := 34
  const DOLLAR: Byte := 36
  const QUOTE: Byte := 39
  const STAR: Byte := 42
  const DASH: Byte := 45
  const SLASH: Byte := 47
  const BACKSLASH: Byte := 92
  const UNDERSCORE: Byte := 95

  const OPEN: Text := [SLASH, STAR]
  const CLOSE: Text := [STAR, SLASH]

  /** `text` starts with the two bytes `a` and `b`. */
  predicate Starts(text: Text, a: Byte, b: Byte) {
    |text| >= 2 && text[0] == a && text[1] == b
  }

  predicate Dashes(text: Text) { Starts(text, DASH, DASH) }

  predicate Opens(text: Text) { Starts(text, SLASH, STAR) }

  predicate Closes(text: Text) { Starts(text, STAR, SLASH) }

  predicate StartsWith(text: Text, byte: Byte) {
    text != [] && text[0] == byte
  }

  datatype Token =
    | Line(text: Text)
    | Block(text: Text)
    | Quoted(text: Text)
    | Dollar(delimiter: Text, body: seq<Token>)
    | Other(byte: Byte)

  function TokenText(token: Token): Text {
    match token
    case Line(text) => text
    case Block(text) => text
    case Quoted(text) => text
    case Dollar(delimiter, body) => delimiter + Print(body) + delimiter
    case Other(byte) => [byte]
  }

  function Print(tokens: seq<Token>): Text {
    if tokens == [] then [] else TokenText(tokens[0]) + Print(tokens[1..])
  }

  // ----- bytes -----

  predicate IdentifierStart(b: Byte) {
    65 <= b <= 90 || 97 <= b <= 122 || b == UNDERSCORE
  }

  predicate IdentifierByte(b: Byte) {
    IdentifierStart(b) || 48 <= b <= 57
  }

  predicate IsQuote(b: Byte) {
    b == QUOTE || b == DOUBLE_QUOTE
  }

  predicate OccursAt(word: Text, text: Text, at: nat) {
    at + |word| <= |text| && text[at..at + |word|] == word
  }

  // ----- comments -----

  /** The inside of a block comment: plain bytes and complete inner comments. */
  datatype Item = Plain(byte: Byte) | Nested(items: seq<Item>)

  function ItemText(item: Item): Text {
    match item
    case Plain(byte) => [byte]
    case Nested(items) => OPEN + ItemsText(items) + CLOSE
  }

  function ItemsText(items: seq<Item>): Text {
    if items == [] then [] else ItemText(items[0]) + ItemsText(items[1..])
  }

  /** No plain byte of `items`, read in front of a closing mark, begins a comment mark. */
  ghost predicate Balanced(items: seq<Item>) {
    items != [] ==>
      && (match items[0]
          case Plain(byte) =>
            && var after := [byte] + ItemsText(items[1..]) + CLOSE;
            && !Opens(after) && !Closes(after)
          case Nested(inner) => Balanced(inner))
      && Balanced(items[1..])
  }

  ghost predicate ClosedComment(text: Text) {
    exists items :: Balanced(items) && text == OPEN + ItemsText(items) + CLOSE
  }

  // ----- quoted text -----

  /** A run of doubled quotes, backslash pairs and ordinary bytes. */
  predicate QuoteBody(text: Text, quote: Byte) {
    text == []
    || (if text[0] == quote then |text| >= 2 && text[1] == quote && QuoteBody(text[2..], quote)
        else if text[0] == BACKSLASH then |text| >= 2 && QuoteBody(text[2..], quote)
        else QuoteBody(text[1..], quote))
  }

  /** `text` is a complete quotation whose last quote `rest` does not double. */
  predicate ClosedQuote(text: Text, rest: Text) {
    && |text| >= 2 && IsQuote(text[0]) && text[|text| - 1] == text[0]
    && QuoteBody(text[1..|text| - 1], text[0])
    && !StartsWith(rest, text[0])
  }

  // ----- dollar quotes -----

  predicate Delimiter(word: Text) {
    && |word| >= 2 && word[0] == DOLLAR && word[|word| - 1] == DOLLAR
    && (|word| > 2 ==> IdentifierStart(word[1]))
    && forall i :: 1 <= i < |word| - 1 ==> IdentifierByte(word[i])
  }

  ghost predicate FirstOccurrence(word: Text, text: Text, at: nat) {
    OccursAt(word, text, at) && forall i: nat :: i < at ==> !OccursAt(word, text, i)
  }

  ghost predicate OpensDollarBody(text: Text) {
    exists word, at: nat :: Delimiter(word) && word <= text && OccursAt(word, text[|word|..], at)
  }

  // ----- tokens in front of the text that follows them -----

  ghost predicate Shape(token: Token, rest: Text) {
    match token
    case Line(text) =>
      Dashes(text) && NEWLINE !in text && (rest == [] || rest[0] == NEWLINE)
    case Block(text) =>
      || ClosedComment(text)
      || (rest == [] && Opens(text) && forall n :: 0 <= n <= |text| ==> !ClosedComment(text[..n]))
    case Quoted(text) =>
      || ClosedQuote(text, rest)
      || (rest == [] && text != [] && IsQuote(text[0])
          && forall n :: 0 <= n <= |text| ==> !ClosedQuote(text[..n], text[n..]))
    case Dollar(delimiter, body) =>
      && Delimiter(delimiter) && Grammatical(body)
      && FirstOccurrence(delimiter, Print(body) + delimiter + rest, |Print(body)|)
    case Other(byte) =>
      && var text := [byte] + rest;
      && !Dashes(text) && !Opens(text) && !IsQuote(byte) && !OpensDollarBody(text)
  }

  ghost predicate Grammatical(tokens: seq<Token>) {
    tokens == [] || (Shape(tokens[0], Print(tokens[1..])) && Grammatical(tokens[1..]))
  }

  // ----- what removal means for a token sequence -----

  function Blank(text: Text): (r: Text)
    ensures |r| == |text|
    ensures forall i :: 0 <= i < |text| ==> r[i] == if text[i] == NEWLINE then NEWLINE else SPACE
  {
    seq(|text|, i requires 0 <= i < |text| => if text[i] == NEWLINE then NEWLINE else SPACE)
  }

  function BlankedToken(token: Token): Text {
    match token
    case Line(text) => Blank(text)
    case Block(text) => Blank(text)
    case Dollar(delimiter, body) => delimiter + Blanked(body) + delimiter
    case Quoted(text) => text
    case Other(byte) => [byte]
  }

  function Blanked(tokens: seq<Token>): Text {
    if tokens == [] then [] else BlankedToken(tokens[0]) + Blanked(tokens[1..])
  }

  /** For every byte of the printed tokens, whether it lies in a comment at any depth. */
  function CommentMask(tokens: seq<Token>): (mask: seq<bool>)
  {
    if tokens == [] then [] else TokenMask(tokens[0]) + CommentMask(tokens[1..])
  }

  function TokenMask(token: Token): (mask: seq<bool>)
  {
    match token
    case Line(text) => seq(|text|, _ => true)
    case Block(text) => seq(|text|, _ => true)
    case Dollar(delimiter, body) =>
      seq(|delimiter|, _ => false) + CommentMask(body) + seq(|delimiter|, _ => false)
    case Quoted(text) => seq(|text|, _ => false)
    case Other(_) => [false]
  }
}
