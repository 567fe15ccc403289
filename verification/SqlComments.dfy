/** scripts/sql_comments.rb: the scanner, its agreement with the grammar, and idempotence. */
module SqlComments {
  import opened Bytes
  import opened SqlGrammar

  // ----- the scanner as functions on the remaining text -----

  function LineLength(text: Text): (n: nat)
    ensures n <= |text| && NEWLINE !in text[..n] && (n < |text| ==> text[n] == NEWLINE)
  {
    if text == [] || text[0] == NEWLINE then 0 else 1 + LineLength(text[1..])
  }

  function CommentLength(text: Text, depth: nat): (n: nat)
    ensures n <= |text|
  {
    if text == [] || depth == 0 then 0
    else if Opens(text) then 2 + CommentLength(text[2..], depth + 1)
    else if Closes(text) then 2 + CommentLength(text[2..], depth - 1)
    else 1 + CommentLength(text[1..], depth)
  }

  /** Bytes after the opening quote up to and including the closing one. */
  function QuoteLength(text: Text, quote: Byte): (n: nat)
    ensures n <= |text|
  {
    if text == [] then 0
    else if Starts(text, quote, quote) then 2 + QuoteLength(text[2..], quote)
    else if text[0] == BACKSLASH then
      if |text| == 1 then 1 else 2 + QuoteLength(text[2..], quote)
    else if text[0] == quote then 1
    else 1 + QuoteLength(text[1..], quote)
  }

  function IdentifierLength(text: Text): (n: nat)
    ensures n <= |text|
    ensures forall i :: 0 <= i < n ==> IdentifierByte(text[i])
    ensures n < |text| ==> !IdentifierByte(text[n])
  {
    if text == [] || !IdentifierByte(text[0]) then 0 else 1 + IdentifierLength(text[1..])
  }

  /** Length of the dollar delimiter that `text` starts with; zero if there is none. */
  function DelimiterLength(text: Text): (n: nat)
    ensures n <= |text|
    ensures n > 0 ==> Delimiter(text[..n])
  {
    if |text| < 2 || text[0] != DOLLAR then 0
    else if text[1] == DOLLAR then 2
    else if !IdentifierStart(text[1]) then 0
    else
      var n := 1 + IdentifierLength(text[1..]);
      if n < |text| && text[n] == DOLLAR then n + 1 else 0
  }

  datatype Position = Absent | Found(at: nat)

  function Find(text: Text, word: Text): (p: Position)
    ensures p.Found? ==> FirstOccurrence(word, text, p.at)
    ensures p.Absent? ==> forall i: nat :: !OccursAt(word, text, i)
  {
    if word <= text then
      assert OccursAt(word, text, 0);
      Found(0)
    else if text == [] then Absent
    else
      var p := Find(text[1..], word);
      OccursLater(word, text);
      if p.Absent? then Absent else Found(p.at + 1)
  }

  lemma OccursShift(word: Text, text: Text, i: nat)
    requires text != []
    ensures OccursAt(word, text, i + 1) <==> OccursAt(word, text[1..], i)
  {
    if i + 1 + |word| <= |text| {
      assert text[1..][i..i + |word|] == text[i + 1..i + 1 + |word|];
    }
  }

  lemma OccursLater(word: Text, text: Text)
    requires text != [] && !(word <= text)
    ensures forall i: nat {:trigger OccursAt(word, text[1..], i)} ::
              OccursAt(word, text[1..], i) ==> OccursAt(word, text, i + 1)
    ensures forall i: nat {:trigger OccursAt(word, text, i)} ::
              OccursAt(word, text, i) ==> i > 0 && OccursAt(word, text[1..], i - 1)
  {
    forall i: nat ensures OccursAt(word, text[1..], i) ==> OccursAt(word, text, i + 1) {
      OccursShift(word, text, i);
    }
    forall i: nat ensures OccursAt(word, text, i) ==> i > 0 && OccursAt(word, text[1..], i - 1) {
      if i > 0 { OccursShift(word, text, i - 1); }
    }
  }

  /** What the scanner decides at the first byte: which token starts and how long it is. */
  datatype Head = LineHead(n: nat) | BlockHead(n: nat) | QuotedHead(n: nat) | DollarHead(d: nat, f: nat) | OtherHead {
    function Length(): nat {
      match this
      case LineHead(n) => n
      case BlockHead(n) => n
      case QuotedHead(n) => n
      case DollarHead(d, f) => d + f + d
      case OtherHead => 1
    }
  }

  function DollarHeadOf(text: Text): (h: Head)
    requires text != []
    ensures 0 < h.Length() <= |text|
    ensures h == OtherHead
         || (h.DollarHead? && h.d == DelimiterLength(text) > 0 && Find(text[h.d..], text[..h.d]) == Found(h.f))
  {
    var d := DelimiterLength(text);
    if d == 0 then OtherHead
    else
      var found := Find(text[d..], text[..d]);
      if found.Found? then DollarHead(d, found.at) else OtherHead
  }

  function HeadOf(text: Text): (h: Head)
    requires text != []
    ensures 0 < h.Length() <= |text|
    ensures h.DollarHead? ==> h.d > 0
  {
    if Dashes(text) then
      assert text[0] == DASH;
      LineHead(LineLength(text))
    else if Opens(text) then BlockHead(2 + CommentLength(text[2..], 1))
    else if IsQuote(text[0]) then QuotedHead(1 + QuoteLength(text[1..], text[0]))
    else DollarHeadOf(text)
  }

  function TokenOf(text: Text, head: Head, body: seq<Token>): Token
    requires text != [] && 0 < head.Length() <= |text|
  {
    match head
    case LineHead(n) => Line(text[..n])
    case BlockHead(n) => Block(text[..n])
    case QuotedHead(n) => Quoted(text[..n])
    case DollarHead(d, _) => Dollar(text[..d], body)
    case OtherHead => Other(text[0])
  }

  function BodyText(text: Text, head: Head): (r: Text)
    requires 0 < head.Length() <= |text| && (head.DollarHead? ==> head.d > 0)
    ensures |r| < |text|
  {
    if head.DollarHead? then text[head.d..head.d + head.f] else []
  }

  function Lex(text: Text): seq<Token>
    decreases |text|
  {
    if text == [] then []
    else
      var head := HeadOf(text);
      [TokenOf(text, head, Lex(BodyText(text, head)))] + Lex(text[head.Length()..])
  }

  // ----- block comments: the scanner finds exactly the nested comments -----

  /** Comment depth left open when the scan stops. */
  ghost function CommentDepth(text: Text, depth: nat): nat {
    if text == [] || depth == 0 then depth
    else if Opens(text) then CommentDepth(text[2..], depth + 1)
    else if Closes(text) then CommentDepth(text[2..], depth - 1)
    else CommentDepth(text[1..], depth)
  }

  lemma OpenStep(text: Text, depth: nat)
    requires depth > 0
    ensures CommentLength(OPEN + text, depth) == 2 + CommentLength(text, depth + 1)
    ensures CommentDepth(OPEN + text, depth) == CommentDepth(text, depth + 1)
  {
    assert (OPEN + text)[2..] == text;
  }

  lemma CloseStep(text: Text, depth: nat)
    requires depth > 0
    ensures CommentLength(CLOSE + text, depth) == 2 + CommentLength(text, depth - 1)
    ensures CommentDepth(CLOSE + text, depth) == CommentDepth(text, depth - 1)
  {
    assert (CLOSE + text)[2..] == text && (CLOSE + text)[0] == STAR;
  }

  lemma PlainStep(byte: Byte, text: Text, depth: nat)
    requires depth > 0 && !Opens([byte] + text) && !Closes([byte] + text)
    ensures CommentLength([byte] + text, depth) == 1 + CommentLength(text, depth)
    ensures CommentDepth([byte] + text, depth) == CommentDepth(text, depth)
  {
    assert ([byte] + text)[1..] == text;
  }

  lemma ScanPlain(byte: Byte, body: Text, tail: Text, depth: nat)
    requires depth > 0
    requires !Opens([byte] + body + CLOSE) && !Closes([byte] + body + CLOSE)
    ensures CommentLength([byte] + body + CLOSE + tail, depth) == 1 + CommentLength(body + CLOSE + tail, depth)
    ensures CommentDepth([byte] + body + CLOSE + tail, depth) == CommentDepth(body + CLOSE + tail, depth)
  {
    var after := body + CLOSE + tail;
    assert [byte] + body + CLOSE + tail == [byte] + after;
    assert ([byte] + body + CLOSE)[0] == byte && ([byte] + body + CLOSE)[1] == after[0];
    PlainStep(byte, after, depth);
  }

  lemma ScanNested(inner: Text, body: Text, tail: Text, depth: nat)
    requires depth > 0
    ensures CommentLength(OPEN + inner + CLOSE + body + CLOSE + tail, depth)
         == 2 + CommentLength(inner + CLOSE + (body + CLOSE + tail), depth + 1)
    ensures CommentDepth(OPEN + inner + CLOSE + body + CLOSE + tail, depth)
         == CommentDepth(inner + CLOSE + (body + CLOSE + tail), depth + 1)
  {
    var after := inner + CLOSE + (body + CLOSE + tail);
    assert OPEN + inner + CLOSE + body + CLOSE + tail == OPEN + after;
    OpenStep(after, depth);
  }

  lemma {:induction false} ScanItems(items: seq<Item>, tail: Text, depth: nat)
    requires Balanced(items) && depth > 0
    ensures CommentLength(ItemsText(items) + CLOSE + tail, depth)
         == |ItemsText(items)| + 2 + CommentLength(tail, depth - 1)
    ensures CommentDepth(ItemsText(items) + CLOSE + tail, depth) == CommentDepth(tail, depth - 1)
    decreases items
  {
    if items == [] {
      assert [] + CLOSE + tail == CLOSE + tail;
      CloseStep(tail, depth);
    } else {
      var body := ItemsText(items[1..]);
      ScanItems(items[1..], tail, depth);
      match items[0] {
        case Plain(byte) =>
          assert ItemsText(items) == [byte] + body;
          ScanPlain(byte, body, tail, depth);
        case Nested(inner) =>
          assert ItemsText(items) == OPEN + ItemsText(inner) + CLOSE + body;
          ScanNested(ItemsText(inner), body, tail, depth);
          ScanItems(inner, body + CLOSE + tail, depth + 1);
      }
    }
  }

  /** What reading one comment level finds: its items and their length, or that it never closes. */
  ghost predicate Parsed(text: Text, depth: nat, closed: bool, items: seq<Item>, n: nat)
    requires depth > 0
  {
    && (closed ==> Balanced(items) && n <= |text| && text[..n] == ItemsText(items) + CLOSE)
    && (!closed ==> CommentLength(text, depth) == |text| && CommentDepth(text, depth) >= depth)
  }

  lemma {:induction false} ParseItems(text: Text, depth: nat) returns (closed: bool, items: seq<Item>, n: nat)
    requires depth > 0
    ensures Parsed(text, depth, closed, items, n)
    decreases |text|
  {
    hide Parsed;
    closed, items, n := false, [], 0;
    if text == [] {
      EmptyParsed(depth);
    } else if Opens(text) {
      var c, inner, m := ParseItems(text[2..], depth + 1);
      if c {
        InnerLength(text, depth, inner, m);
        var rest, k;
        closed, rest, k := ParseItems(text[2..][m..], depth);
        NestedParsed(text, depth, inner, m, closed, rest, k);
        if closed { items, n := [Nested(inner)] + rest, 2 + m + k; }
      } else {
        OpenParsed(text, depth, inner, m);
      }
    } else if Closes(text) {
      closed, n := true, 2;
      CloseParsed(text, depth);
    } else {
      var rest, k;
      closed, rest, k := ParseItems(text[1..], depth);
      PlainParsed(text, depth, closed, rest, k);
      if closed { items, n := [Plain(text[0])] + rest, 1 + k; }
    }
  }

  lemma EmptyParsed(depth: nat)
    requires depth > 0
    ensures Parsed([], depth, false, [], 0)
  {
  }

  lemma CloseParsed(text: Text, depth: nat)
    requires depth > 0 && Closes(text)
    ensures Parsed(text, depth, true, [], 2)
  {
    assert text[..2] == [] + CLOSE;
  }

  lemma InnerLength(text: Text, depth: nat, inner: seq<Item>, m: nat)
    requires depth > 0 && Opens(text) && Parsed(text[2..], depth + 1, true, inner, m)
    ensures m <= |text| - 2
  {
  }

  /** A comment that is never closed inside is never closed. */
  lemma OpenParsed(text: Text, depth: nat, inner: seq<Item>, m: nat)
    requires depth > 0 && Opens(text) && Parsed(text[2..], depth + 1, false, inner, m)
    ensures Parsed(text, depth, false, [], 0)
  {
  }

  lemma NestedParsed(text: Text, depth: nat, inner: seq<Item>, m: nat, closed: bool, rest: seq<Item>, k: nat)
    requires depth > 0 && Opens(text) && Parsed(text[2..], depth + 1, true, inner, m) && m <= |text| - 2
    requires Parsed(text[2..][m..], depth, closed, rest, k)
    ensures if closed then Parsed(text, depth, true, [Nested(inner)] + rest, 2 + m + k) else Parsed(text, depth, false, [], 0)
  {
    if closed {
      NestedText(text, inner, m, rest, k);
      hide CommentLength, CommentDepth;
    } else {
      ScanItems(inner, text[2..][m..], depth + 1);
      assert text[2..] == ItemsText(inner) + CLOSE + text[2..][m..];
    }
  }

  lemma PlainParsed(text: Text, depth: nat, closed: bool, rest: seq<Item>, k: nat)
    requires depth > 0 && text != [] && !Opens(text) && !Closes(text) && Parsed(text[1..], depth, closed, rest, k)
    ensures if closed then Parsed(text, depth, true, [Plain(text[0])] + rest, 1 + k) else Parsed(text, depth, false, [], 0)
  {
    if closed { PlainText(text, rest, k); }
  }

  lemma NestedText(text: Text, inner: seq<Item>, m: nat, rest: seq<Item>, k: nat)
    requires Opens(text) && m <= |text| - 2 && k <= |text| - 2 - m
    requires text[2..][..m] == ItemsText(inner) + CLOSE && text[2..][m..][..k] == ItemsText(rest) + CLOSE
    requires Balanced(inner) && Balanced(rest)
    ensures var items := [Nested(inner)] + rest;
            Balanced(items) && text[..2 + m + k] == ItemsText(items) + CLOSE
  {
    NestedItems(inner, rest);
    CutAt(text, m, k);
    assert text[..2] == OPEN;
    hide ItemsText, Balanced, Opens;
  }

  lemma NestedItems(inner: seq<Item>, rest: seq<Item>)
    requires Balanced(inner) && Balanced(rest)
    ensures var items := [Nested(inner)] + rest;
            Balanced(items) && ItemsText(items) == OPEN + ItemsText(inner) + CLOSE + ItemsText(rest)
  {
    var items := [Nested(inner)] + rest;
    assert items[1..] == rest && ItemText(items[0]) == OPEN + ItemsText(inner) + CLOSE;
  }

  lemma CutAt(text: Text, m: nat, k: nat)
    requires m <= |text| - 2 && k <= |text| - 2 - m
    ensures text[..2 + m + k] == text[..2] + text[2..][..m] + text[2..][m..][..k]
  {
  }

  lemma PlainText(text: Text, rest: seq<Item>, k: nat)
    requires text != [] && !Opens(text) && !Closes(text) && k < |text|
    requires Balanced(rest) && text[1..][..k] == ItemsText(rest) + CLOSE
    ensures var items := [Plain(text[0])] + rest;
            Balanced(items) && text[..1 + k] == ItemsText(items) + CLOSE
  {
    var items := [Plain(text[0])] + rest;
    assert items[1..] == rest && ItemText(items[0]) == [text[0]];
    assert text[..1 + k] == [text[0]] + text[1..][..k];
    assert [text[0]] + ItemsText(rest) + CLOSE == text[..1 + k];
    assert |ItemsText(rest) + CLOSE| >= 2;
  }

  /** Either the scan stops at the end of a closed comment, or no prefix is one. */
  lemma BlockEnd(text: Text)
    requires Opens(text)
    ensures var n := 2 + CommentLength(text[2..], 1);
            || ClosedComment(text[..n])
            || (n == |text| && forall k :: 0 <= k <= |text| ==> !ClosedComment(text[..k]))
  {
    var closed, items, m := ParseItems(text[2..], 1);
    if closed {
      assert text[..2 + m] == OPEN + text[2..][..m] == OPEN + ItemsText(items) + CLOSE;
      ClosedScanned(text, 2 + m);
    } else {
      forall k | 0 <= k <= |text| ensures !ClosedComment(text[..k]) {
        if ClosedComment(text[..k]) { ClosedScanned(text, k); }
      }
    }
  }

  lemma ClosedScanned(text: Text, n: nat)
    requires n <= |text| && ClosedComment(text[..n])
    ensures Opens(text) && CommentLength(text[2..], 1) == n - 2 && CommentDepth(text[2..], 1) == 0
  {
    var items :| Balanced(items) && text[..n] == OPEN + ItemsText(items) + CLOSE;
    assert text == OPEN + ItemsText(items) + CLOSE + text[n..];
    assert text[2..] == ItemsText(items) + CLOSE + text[n..];
    ScanItems(items, text[n..], 1);
  }

  lemma BlockShape(text: Text)
    requires Opens(text)
    ensures var n := 2 + CommentLength(text[2..], 1); Shape(Block(text[..n]), text[n..])
  {
    BlockEnd(text);
    assert text[..|text|] == text && text[|text|..] == [];
  }

  lemma BlockScanned(text: Text, rest: Text)
    requires Shape(Block(text), rest)
    ensures Opens(text + rest) && CommentLength((text + rest)[2..], 1) == |text| - 2
  {
    if ClosedComment(text) {
      assert (text + rest)[..|text|] == text;
      ClosedScanned(text + rest, |text|);
    } else {
      assert text + rest == text && text[..|text|] == text;
      BlockEnd(text);
    }
  }

  // ----- quoted text -----

  ghost predicate QuoteCloses(text: Text, quote: Byte) {
    if text == [] then false
    else if Starts(text, quote, quote) then QuoteCloses(text[2..], quote)
    else if text[0] == BACKSLASH then |text| > 1 && QuoteCloses(text[2..], quote)
    else text[0] == quote || QuoteCloses(text[1..], quote)
  }

  lemma {:induction false} ScanQuote(body: Text, quote: Byte, rest: Text)
    requires IsQuote(quote) && QuoteBody(body, quote) && !StartsWith(rest, quote)
    ensures QuoteLength(body + [quote] + rest, quote) == |body| + 1
    ensures QuoteCloses(body + [quote] + rest, quote)
  {
    var text := body + [quote] + rest;
    if body == [] {
      assert text == [quote] + rest;
      assert |text| > 1 ==> text[1] == rest[0];
    } else if body[0] == quote || body[0] == BACKSLASH {
      assert text[2..] == body[2..] + [quote] + rest;
      ScanQuote(body[2..], quote, rest);
    } else {
      assert text[0] == body[0] && text[1..] == body[1..] + [quote] + rest;
      ScanQuote(body[1..], quote, rest);
    }
  }

  ghost predicate ClosesAt(text: Text, quote: Byte, n: nat) {
    0 < n <= |text| && text[n - 1] == quote && QuoteBody(text[..n - 1], quote) && !StartsWith(text[n..], quote)
  }

  lemma ClosesLater(text: Text, quote: Byte, k: nat, n: nat)
    requires IsQuote(quote) && k <= |text| && ClosesAt(text[k..], quote, n)
    requires if Starts(text, quote, quote) || (text != [] && text[0] == BACKSLASH) then k == 2
             else k == 1 && text[0] != quote
    ensures ClosesAt(text, quote, k + n)
  {
    assert text[..k + n - 1][k..] == text[k..][..n - 1];
    assert text[k..][n..] == text[k + n..];
  }

  lemma {:induction false} ParseQuote(text: Text, quote: Byte)
    requires IsQuote(quote)
    ensures var n := QuoteLength(text, quote);
            if QuoteCloses(text, quote) then ClosesAt(text, quote, n) else n == |text|
  {
    hide ClosesAt;
    if text == [] {
    } else if Starts(text, quote, quote) || text[0] == BACKSLASH {
      if |text| > 1 {
        ParseQuote(text[2..], quote);
        if QuoteCloses(text[2..], quote) {
          ClosesLater(text, quote, 2, QuoteLength(text[2..], quote));
        }
      }
    } else if text[0] == quote {
      ClosesNow(text, quote);
    } else {
      ParseQuote(text[1..], quote);
      if QuoteCloses(text[1..], quote) {
        ClosesLater(text, quote, 1, QuoteLength(text[1..], quote));
      }
    }
  }

  lemma ClosesNow(text: Text, quote: Byte)
    requires text != [] && text[0] == quote && !Starts(text, quote, quote)
    ensures ClosesAt(text, quote, 1)
  {
    assert text[..0] == [];
  }

  lemma Inside(text: Text, n: nat)
    requires 2 <= n <= |text|
    ensures text[..n][1..n - 1] == text[1..][..n - 2] && text[1..][n - 1..] == text[n..]
  {
  }

  lemma QuoteEnd(text: Text)
    requires text != [] && IsQuote(text[0])
    ensures var n := 1 + QuoteLength(text[1..], text[0]);
            || ClosedQuote(text[..n], text[n..])
            || (n == |text| && forall k :: 0 <= k <= |text| ==> !ClosedQuote(text[..k], text[k..]))
  {
    var quote := text[0];
    var n := 1 + QuoteLength(text[1..], quote);
    ParseQuote(text[1..], quote);
    if QuoteCloses(text[1..], quote) {
      Inside(text, n);
    } else {
      forall k | 0 <= k <= |text| ensures !ClosedQuote(text[..k], text[k..]) {
        if ClosedQuote(text[..k], text[k..]) { ClosedQuoteScanned(text, k); }
      }
    }
  }

  lemma ClosedQuoteScanned(text: Text, n: nat)
    requires n <= |text| && ClosedQuote(text[..n], text[n..])
    ensures QuoteCloses(text[1..], text[0]) && QuoteLength(text[1..], text[0]) == n - 1
  {
    var body := text[..n][1..n - 1];
    Inside(text, n);
    var after := text[1..];
    assert after == after[..n - 2] + [after[n - 2]] + after[n - 1..];
    assert text[..n][n - 1] == after[n - 2];
    ScanQuote(body, text[0], text[n..]);
  }

  lemma QuotedShape(text: Text)
    requires text != [] && IsQuote(text[0])
    ensures var n := 1 + QuoteLength(text[1..], text[0]); Shape(Quoted(text[..n]), text[n..])
  {
    QuoteEnd(text);
    assert text[..|text|] == text && text[|text|..] == [];
  }

  lemma QuotedScanned(text: Text, rest: Text)
    requires Shape(Quoted(text), rest)
    ensures text != [] && IsQuote(text[0])
    ensures QuoteLength((text + rest)[1..], text[0]) == |text| - 1
  {
    if ClosedQuote(text, rest) {
      assert (text + rest)[..|text|] == text && (text + rest)[|text|..] == rest;
      ClosedQuoteScanned(text + rest, |text|);
    } else {
      assert text + rest == text && text[..|text|] == text;
      QuoteEnd(text);
    }
  }

  // ----- dollar delimiters -----

  lemma DelimiterUnique(word: Text, text: Text)
    requires Delimiter(word) && word <= text
    ensures DelimiterLength(text) == |word|
  {
    assert forall i :: 0 <= i < |word| ==> text[i] == word[i];
    if |word| > 2 {
      var n := IdentifierLength(text[1..]);
      assert forall i :: 0 <= i < |word| - 2 ==> IdentifierByte(text[1..][i]);
      assert text[1..][|word| - 2] == DOLLAR;
    }
  }

  lemma FindUnique(text: Text, word: Text, at: nat)
    requires FirstOccurrence(word, text, at)
    ensures Find(text, word) == Found(at)
  {
    assert OccursAt(word, text, at);
  }

  // ----- the scanner computes the one grammatical reading -----

  lemma TokenOfText(text: Text, body: seq<Token>)
    requires text != [] && Print(body) == BodyText(text, HeadOf(text))
    ensures TokenText(TokenOf(text, HeadOf(text), body)) == text[..HeadOf(text).Length()]
  {
    hide HeadOf;
    var head := HeadOf(text);
    if head.DollarHead? {
      var d, f := head.d, head.f;
      DollarParts(text);
      CutDollar(text, d, f);
    }
  }

  lemma CutDollar(text: Text, d: nat, f: nat)
    requires d + f + d <= |text|
    ensures text[..d + f + d] == text[..d] + text[d..d + f] + text[d..][f..f + d]
  {
    assert text[d..][f..f + d] == text[d + f..d + f + d];
    assert text[..d + f] == text[..d] + text[d..d + f];
  }

  lemma {:induction false} LexPrints(text: Text)
    ensures Print(Lex(text)) == text
    decreases |text|
  {
    hide HeadOf, TokenOf, BodyText;
    if text != [] {
      var head := HeadOf(text);
      LexPrints(text[head.Length()..]);
      LexPrints(BodyText(text, head));
      TokenOfText(text, Lex(BodyText(text, head)));
      assert text[..head.Length()] + text[head.Length()..] == text;
    }
  }

  lemma {:induction false} LexGrammatical(text: Text)
    ensures Grammatical(Lex(text))
    decreases |text|
  {
    hide HeadOf, Shape, TokenOf, BodyText;
    if text != [] {
      var head := HeadOf(text);
      LexGrammatical(text[head.Length()..]);
      LexPrints(text[head.Length()..]);
      LexGrammatical(BodyText(text, head));
      LexPrints(BodyText(text, head));
      HeadShape(text, Lex(BodyText(text, head)));
    }
  }

  lemma HeadShape(text: Text, body: seq<Token>)
    requires text != [] && Grammatical(body) && Print(body) == BodyText(text, HeadOf(text))
    ensures Shape(TokenOf(text, HeadOf(text), body), text[HeadOf(text).Length()..])
  {
    hide HeadOf, Shape;
    match HeadOf(text) {
      case LineHead(_) => LineHeadShape(text);
      case BlockHead(_) => BlockHeadShape(text);
      case QuotedHead(_) => QuotedHeadShape(text);
      case DollarHead(d, f) => DollarShape(text, body);
      case OtherHead => OtherShape(text);
    }
  }

  lemma LineHeadShape(text: Text)
    requires text != [] && HeadOf(text).LineHead?
    ensures var n := HeadOf(text).n; Shape(Line(text[..n]), text[n..])
  {
    hide Shape;
    LineShape(text);
  }

  lemma BlockHeadShape(text: Text)
    requires text != [] && HeadOf(text).BlockHead?
    ensures var n := HeadOf(text).n; Shape(Block(text[..n]), text[n..])
  {
    hide Shape;
    BlockShape(text);
  }

  lemma QuotedHeadShape(text: Text)
    requires text != [] && HeadOf(text).QuotedHead?
    ensures var n := HeadOf(text).n; Shape(Quoted(text[..n]), text[n..])
  {
    hide Shape;
    QuotedShape(text);
  }

  lemma LineShape(text: Text)
    requires Dashes(text)
    ensures var n := LineLength(text); Shape(Line(text[..n]), text[n..])
  {
    var n := LineLength(text);
    assert text[0] == text[1] == DASH;
    assert text[1..][0] == DASH && n == 1 + LineLength(text[1..]) >= 2;
  }

  lemma DollarParts(text: Text)
    requires text != [] && HeadOf(text).DollarHead?
    ensures var h := HeadOf(text); Delimiter(text[..h.d]) && FirstOccurrence(text[..h.d], text[h.d..], h.f)
  {
    hide LineLength, CommentLength, QuoteLength, DelimiterLength, Find;
  }

  lemma DollarRejoins(text: Text)
    requires text != [] && HeadOf(text).DollarHead?
    ensures var h := HeadOf(text);
            BodyText(text, h) + text[..h.d] + text[h.Length()..] == text[h.d..] && |BodyText(text, h)| == h.f
  {
    DollarParts(text);
    hide HeadOf, Delimiter;
    var d, f := HeadOf(text).d, HeadOf(text).f;
    assert text[d..][f..f + d] == text[d + f..d + f + d];
  }

  lemma DollarShape(text: Text, body: seq<Token>)
    requires text != [] && HeadOf(text).DollarHead? && Grammatical(body) && Print(body) == BodyText(text, HeadOf(text))
    ensures Shape(TokenOf(text, HeadOf(text), body), text[HeadOf(text).Length()..])
  {
    hide HeadOf, Grammatical, FirstOccurrence, Delimiter, Print, BodyText;
    var d, f := HeadOf(text).d, HeadOf(text).f;
    DollarParts(text);
    DollarRejoins(text);
  }

  lemma OtherShape(text: Text)
    requires text != [] && HeadOf(text) == OtherHead
    ensures Shape(Other(text[0]), text[1..])
  {
    assert [text[0]] + text[1..] == text;
    forall word, at: nat | Delimiter(word) && word <= text ensures !OccursAt(word, text[|word|..], at) {
      DelimiterUnique(word, text);
      assert text[..|word|] == word;
    }
  }

  /** A token of the right shape is what the scanner decides to read. */
  lemma ShapeScanned(token: Token, rest: Text)
    requires Shape(token, rest)
    ensures TokenText(token) != []
    ensures var text := TokenText(token) + rest; var head := HeadOf(text);
            && head.Length() == |TokenText(token)| && text[head.Length()..] == rest
            && if token.Dollar? then head.DollarHead? && BodyText(text, head) == Print(token.body)
                                     && TokenOf(text, head, token.body) == token
               else TokenOf(text, head, Lex(BodyText(text, head))) == token
  {
    hide HeadOf, Lex;
    var text := TokenText(token) + rest;
    assert text[..|TokenText(token)|] == TokenText(token) && text[|TokenText(token)|..] == rest;
    if token.Dollar? {
      DollarTokenScanned(token.delimiter, token.body, rest);
      return;
    }
    match token {
      case Line(t) => LineScanned(t, rest);
      case Block(t) => BlockHeadScanned(t, rest);
      case Quoted(t) => QuotedHeadScanned(t, rest);
      case Other(b) => OtherScanned(text);
    }
    hide Shape, BodyText;
  }

  lemma DollarTokenScanned(d: Text, body: seq<Token>, rest: Text)
    requires Shape(Dollar(d, body), rest)
    ensures var text := TokenText(Dollar(d, body)) + rest; var head := HeadOf(text);
            && head == DollarHead(|d|, |Print(body)|) && text[head.Length()..] == rest
            && BodyText(text, head) == Print(body) && TokenOf(text, head, body) == Dollar(d, body)
  {
    assert TokenText(Dollar(d, body)) == d + Print(body) + d;
    DollarScanned(d, Print(body), rest);
    FourParts(d, Print(body), rest);
    hide HeadOf, Shape, Print, TokenText;
  }

  lemma FourParts(d: Text, b: Text, rest: Text)
    ensures var text := d + b + d + rest;
            text[..|d|] == d && text[|d|..|d| + |b|] == b && text[|d| + |b| + |d|..] == rest
  {
  }

  lemma {:induction false} GrammarUnique(tokens: seq<Token>)
    requires Grammatical(tokens)
    ensures Lex(Print(tokens)) == tokens
    decreases tokens
  {
    hide HeadOf, TokenOf, BodyText;
    if tokens != [] {
      var token, rest := tokens[0], Print(tokens[1..]);
      GrammarUnique(tokens[1..]);
      ShapeScanned(token, rest);
      if token.Dollar? {
        BodyGrammatical(token, rest);
        GrammarUnique(token.body);
      }
    }
  }

  lemma BodyGrammatical(token: Token, rest: Text)
    requires token.Dollar? && Shape(token, rest)
    ensures Grammatical(token.body)
  {
  }

  lemma BlockHeadScanned(text: Text, rest: Text)
    requires Shape(Block(text), rest)
    ensures HeadOf(text + rest) == BlockHead(|text|)
  {
    BlockScanned(text, rest);
    assert (text + rest)[0] == SLASH;
    assert Opens(text);
  }

  lemma QuotedHeadScanned(text: Text, rest: Text)
    requires Shape(Quoted(text), rest)
    ensures HeadOf(text + rest) == QuotedHead(|text|)
  {
    QuotedScanned(text, rest);
    assert (text + rest)[0] == text[0];
  }

  lemma LineScanned(text: Text, rest: Text)
    requires Shape(Line(text), rest)
    ensures HeadOf(text + rest) == LineHead(|text|)
  {
    var n := LineLength(text + rest);
    assert forall i :: 0 <= i < |text| ==> (text + rest)[i] == text[i];
    assert rest != [] ==> (text + rest)[|text|] == rest[0] == NEWLINE;
    assert forall i :: 0 <= i < n ==> (text + rest)[i] == (text + rest)[..n][i];
  }

  lemma DollarScanned(d: Text, body: Text, rest: Text)
    requires Delimiter(d) && FirstOccurrence(d, body + d + rest, |body|)
    ensures var text := d + body + d + rest; HeadOf(text) == DollarHead(|d|, |body|)
  {
    var text := d + body + d + rest;
    assert text[0] == DOLLAR;
    DelimiterUnique(d, text);
    assert text[..|d|] == d && text[|d|..] == body + d + rest;
    FindUnique(text[|d|..], d, |body|);
  }

  lemma OtherScanned(text: Text)
    requires text != [] && Shape(Other(text[0]), text[1..])
    ensures HeadOf(text) == OtherHead
  {
    assert [text[0]] + text[1..] == text;
  }

  /** The scanner's reading is the only token sequence the grammar allows for the text. */
  lemma LexIsTheGrammar(text: Text, tokens: seq<Token>)
    ensures tokens == Lex(text) <==> Grammatical(tokens) && Print(tokens) == text
  {
    LexPrints(text);
    LexGrammatical(text);
    if Grammatical(tokens) { GrammarUnique(tokens); }
  }

  // ----- what removal does to each byte -----

  /** `output` is `text` with some bytes other than newlines blanked. */
  ghost predicate Faded(output: Text, text: Text) {
    && |output| == |text|
    && forall i :: 0 <= i < |text| ==> output[i] == text[i] || (output[i] == SPACE && text[i] != NEWLINE)
  }

  lemma {:induction false} BlankedFades(tokens: seq<Token>)
    ensures Faded(Blanked(tokens), Print(tokens))
    decreases tokens
  {
    if tokens != [] {
      BlankedFades(tokens[1..]);
      if tokens[0].Dollar? { BlankedFades(tokens[0].body); }
    }
  }

  /** A comment byte becomes a space unless it is a newline; every other byte stays. */
  ghost predicate BlanksExactly(output: Text, text: Text, mask: seq<bool>) {
    && |output| == |text| == |mask|
    && forall i :: 0 <= i < |text| ==> output[i] == if mask[i] && text[i] != NEWLINE then SPACE else text[i]
  }

  lemma {:induction false} BlankedByMask(tokens: seq<Token>)
    ensures BlanksExactly(Blanked(tokens), Print(tokens), CommentMask(tokens))
    decreases tokens
  {
    if tokens != [] {
      BlankedByMask(tokens[1..]);
      if tokens[0].Dollar? { BlankedByMask(tokens[0].body); }
      BlankedTokenByMask(tokens[0]);
      BlanksJoin(BlankedToken(tokens[0]), TokenText(tokens[0]), TokenMask(tokens[0]),
                 Blanked(tokens[1..]), Print(tokens[1..]), CommentMask(tokens[1..]));
    }
  }

  lemma BlankedTokenByMask(token: Token)
    requires token.Dollar? ==> BlanksExactly(Blanked(token.body), Print(token.body), CommentMask(token.body))
    ensures BlanksExactly(BlankedToken(token), TokenText(token), TokenMask(token))
  {
  }

  lemma BlanksJoin(a: Text, b: Text, m: seq<bool>, c: Text, d: Text, n: seq<bool>)
    requires BlanksExactly(a, b, m) && BlanksExactly(c, d, n)
    ensures BlanksExactly(a + c, b + d, m + n)
  {
  }

  function Removed(text: Text): Text {
    Blanked(Lex(text))
  }

  /** Removal keeps the length and every newline, and blanks exactly the comment bytes of
      the grammar's reading, at every depth of dollar quoting. */
  lemma RemovedBlanksComments(text: Text, tokens: seq<Token>)
    requires Grammatical(tokens) && Print(tokens) == text
    ensures BlanksExactly(Removed(text), text, CommentMask(tokens))
    ensures forall i :: 0 <= i < |text| ==> (Removed(text)[i] == NEWLINE <==> text[i] == NEWLINE)
  {
    LexIsTheGrammar(text, tokens);
    BlankedByMask(tokens);
  }

  // ----- idempotence -----

  function Plainly(text: Text): seq<Token> {
    if text == [] then [] else [Other(text[0])] + Plainly(text[1..])
  }

  /** The reading of the blanked text: comments become blank bytes, all else stays. */
  function Bleached(tokens: seq<Token>): seq<Token> {
    if tokens == [] then []
    else
      (match tokens[0]
       case Line(text) => Plainly(Blank(text))
       case Block(text) => Plainly(Blank(text))
       case Dollar(delimiter, body) => [Dollar(delimiter, Bleached(body))]
       case Quoted(_) => [tokens[0]]
       case Other(_) => [tokens[0]]) + Bleached(tokens[1..])
  }

  lemma {:induction false} PlainlyPrints(text: Text, tokens: seq<Token>)
    ensures Print(Plainly(text) + tokens) == text + Print(tokens)
    ensures Blanked(Plainly(text) + tokens) == text + Blanked(tokens)
  {
    var all := Plainly(text) + tokens;
    if text == [] {
      assert all == tokens;
    } else {
      assert all[0] == Other(text[0]) && all[1..] == Plainly(text[1..]) + tokens;
      assert TokenText(all[0]) == [text[0]] == BlankedToken(all[0]);
      PlainlyPrints(text[1..], tokens);
      assert [text[0]] + (text[1..] + Print(tokens)) == text + Print(tokens);
      assert [text[0]] + (text[1..] + Blanked(tokens)) == text + Blanked(tokens);
    }
  }

  lemma {:induction false} BleachedPrints(tokens: seq<Token>)
    ensures Print(Bleached(tokens)) == Blanked(tokens)
    ensures Blanked(Bleached(tokens)) == Blanked(tokens)
    decreases tokens
  {
    if tokens != [] {
      var rest := Bleached(tokens[1..]);
      BleachedPrints(tokens[1..]);
      match tokens[0] {
        case Line(text) => PlainlyPrints(Blank(text), rest);
        case Block(text) => PlainlyPrints(Blank(text), rest);
        case Dollar(delimiter, body) =>
          BleachedPrints(body);
          assert ([Dollar(delimiter, Bleached(body))] + rest)[1..] == rest;
        case Quoted(_) => assert ([tokens[0]] + rest)[1..] == rest;
        case Other(_) => assert ([tokens[0]] + rest)[1..] == rest;
      }
    }
  }

  lemma OccurrenceSurvivesFading(word: Text, output: Text, text: Text, at: nat)
    requires Faded(output, text) && SPACE !in word && OccursAt(word, output, at)
    ensures OccursAt(word, text, at)
  {
    forall j | 0 <= j < |word| ensures text[at + j] == word[j] {
      assert output[at..at + |word|][j] == word[j];
      assert word[j] in word;
    }
    assert text[at..at + |word|] == word;
  }

  lemma DelimiterHasNoSpace(word: Text)
    requires Delimiter(word)
    ensures SPACE !in word
  {
  }

  /** No dollar body opens in the faded text that did not open before. */
  lemma OtherStaysOther(byte: Byte, output: Text, rest: Text)
    requires Shape(Other(byte), rest) && Faded(output, rest)
    ensures Shape(Other(byte), output)
  {
    var before, after := [byte] + rest, [byte] + output;
    assert Faded(after, before);
    if OpensDollarBody(after) {
      var word, at: nat :| Delimiter(word) && word <= after && OccursAt(word, after[|word|..], at);
      DelimiterHasNoSpace(word);
      assert OccursAt(word, after, 0);
      OccurrenceSurvivesFading(word, after, before, 0);
      assert Faded(after[|word|..], before[|word|..]);
      OccurrenceSurvivesFading(word, after[|word|..], before[|word|..], at);
    }
  }

  lemma FadedJoin(a: Text, b: Text, c: Text, d: Text)
    requires Faded(a, b) && Faded(c, d)
    ensures Faded(a + c, b + d)
  {
  }

  lemma DollarStaysDollar(delimiter: Text, body: seq<Token>, rest: Text, blanked: seq<Token>, output: Text)
    requires Shape(Dollar(delimiter, body), rest) && Faded(output, rest)
    requires Grammatical(blanked) && Faded(Print(blanked), Print(body))
    ensures Shape(Dollar(delimiter, blanked), output)
  {
    hide Delimiter, Grammatical, Print;
    var n := |Print(body)|;
    DelimiterHasNoSpace(delimiter);
    FirstStaysFirst(delimiter, Print(body), Print(blanked), rest, output);
    assert |Print(blanked)| == n;
    hide Faded, FirstOccurrence;
  }

  /** Fading what is around it brings no earlier occurrence of a word without spaces. */
  lemma FirstStaysFirst(word: Text, body: Text, faded: Text, rest: Text, output: Text)
    requires FirstOccurrence(word, body + word + rest, |body|) && SPACE !in word
    requires Faded(faded, body) && Faded(output, rest)
    ensures FirstOccurrence(word, faded + word + output, |body|)
  {
    var before, after := body + word + rest, faded + word + output;
    FadedJoin(faded, body, word + output, word + rest) by { FadedJoin(word, word, output, rest); }
    assert before == body + (word + rest) && after == faded + (word + output);
    assert after[|body|..|body| + |word|] == word;
    hide Faded;
    forall i: nat | i < |body| ensures !OccursAt(word, after, i) {
      if OccursAt(word, after, i) { OccurrenceSurvivesFading(word, after, before, i); }
    }
  }

  lemma QuotedStaysQuoted(text: Text, output: Text, rest: Text)
    requires Shape(Quoted(text), rest) && Faded(output, rest)
    ensures Shape(Quoted(text), output)
  {
  }

  lemma {:induction false} PlainlyGrammatical(text: Text, tokens: seq<Token>)
    requires Grammatical(tokens) && forall i :: 0 <= i < |text| ==> text[i] in {SPACE, NEWLINE}
    ensures Grammatical(Plainly(text) + tokens)
  {
    var all := Plainly(text) + tokens;
    if text == [] {
      assert all == tokens;
    } else {
      assert all[0] == Other(text[0]) && all[1..] == Plainly(text[1..]) + tokens;
      PlainlyGrammatical(text[1..], tokens);
      BlankIsOther(text[0], Print(all[1..]));
      hide Shape;
    }
  }

  /** A blank byte opens nothing, whatever follows. */
  lemma BlankIsOther(byte: Byte, rest: Text)
    requires byte in {SPACE, NEWLINE}
    ensures Shape(Other(byte), rest)
  {
    var text := [byte] + rest;
    assert text[0] == byte;
    assert forall word :: Delimiter(word) && word <= text ==> word[0] == text[0];
  }

  lemma {:induction false} BleachedGrammatical(tokens: seq<Token>)
    requires Grammatical(tokens)
    ensures Grammatical(Bleached(tokens))
    decreases tokens
  {
    hide Shape;
    if tokens != [] {
      var rest := tokens[1..];
      BleachedGrammatical(rest);
      BleachedPrints(rest);
      BlankedFades(rest);
      match tokens[0] {
        case Line(text) => PlainlyGrammatical(Blank(text), Bleached(rest));
        case Block(text) => PlainlyGrammatical(Blank(text), Bleached(rest));
        case Dollar(delimiter, body) =>
          BodyGrammatical(tokens[0], Print(rest));
          BleachedGrammatical(body);
          BleachedPrints(body);
          BlankedFades(body);
          DollarStaysDollar(delimiter, body, Print(rest), Bleached(body), Blanked(rest));
          assert ([Dollar(delimiter, Bleached(body))] + Bleached(rest))[1..] == Bleached(rest);
        case Quoted(text) =>
          QuotedStaysQuoted(text, Blanked(rest), Print(rest));
          assert ([tokens[0]] + Bleached(rest))[1..] == Bleached(rest);
        case Other(byte) =>
          OtherStaysOther(byte, Blanked(rest), Print(rest));
          assert ([tokens[0]] + Bleached(rest))[1..] == Bleached(rest);
      }
    }
  }

  /** A second removal changes nothing, for every text. */
  lemma RemovedIdempotent(text: Text)
    ensures Removed(Removed(text)) == Removed(text)
  {
    var tokens := Lex(text);
    LexGrammatical(text);
    BleachedGrammatical(tokens);
    BleachedPrints(tokens);
    GrammarUnique(Bleached(tokens));
  }

  // ----- the loop -----

  /** The part of the text the index has not passed; a backslash can push it one past the end. */
  function Remaining(text: Text, index: nat): Text {
    if index <= |text| then text[index..] else []
  }

  method SkipComment(text: Text, start: nat) returns (index: nat)
    requires start + 2 <= |text|
    ensures index == start + 2 + CommentLength(text[start + 2..], 1)
  {
    hide CommentLength;
    index := start + 2;
    var depth := 1;
    while index < |text| && depth > 0
      invariant start + 2 <= index <= |text| && 0 <= depth
      invariant index + CommentLength(text[index..], depth) == start + 2 + CommentLength(text[start + 2..], 1)
      decreases |text| - index
    {
      CommentStep(text, index, depth);
      var rest := text[index..];
      if Opens(rest) {
        depth, index := depth + 1, index + 2;
      } else if Closes(rest) {
        depth, index := depth - 1, index + 2;
      } else {
        index := index + 1;
      }
    }
    CommentOver(text[index..], depth);
  }

  lemma CommentStep(text: Text, index: nat, depth: nat)
    requires index < |text| && depth > 0
    ensures var rest, n := text[index..], CommentLength(text[index..], depth);
            if Opens(rest) then index + 2 <= |text| && n == 2 + CommentLength(text[index + 2..], depth + 1)
            else if Closes(rest) then index + 2 <= |text| && n == 2 + CommentLength(text[index + 2..], depth - 1)
            else n == 1 + CommentLength(text[index + 1..], depth)
  {
    var rest := text[index..];
    assert |rest| >= 2 ==> rest[2..] == text[index + 2..];
    assert rest[1..] == text[index + 1..];
  }

  lemma CommentOver(rest: Text, depth: nat)
    ensures rest == [] || depth == 0 ==> CommentLength(rest, depth) == 0
  {
  }

  function Clipped(text: Text, index: nat): nat {
    if index <= |text| then index else |text|
  }

  /** Where the quotation ends, seen from an index inside it. */
  function QuoteFinish(text: Text, index: nat, quote: Byte): nat {
    Clipped(text, index) + QuoteLength(Remaining(text, index), quote)
  }

  lemma QuoteStep(text: Text, index: nat, quote: Byte)
    requires index < |text| && IsQuote(quote)
    ensures var next := if Starts(text[index..], quote, quote) || text[index] == BACKSLASH then index + 2 else index + 1;
            if text[index] == quote && next == index + 1 then QuoteFinish(text, index, quote) == index + 1
            else QuoteFinish(text, next, quote) == QuoteFinish(text, index, quote)
  {
    var rest := text[index..];
    assert index + 1 <= |text| ==> rest[1..] == text[index + 1..];
    assert index + 2 <= |text| ==> rest[2..] == text[index + 2..];
  }

  method SkipQuoted(text: Text, start: nat) returns (index: nat)
    requires start < |text| && IsQuote(text[start])
    ensures start < index <= |text| + 1
    ensures Clipped(text, index) == start + 1 + QuoteLength(text[start + 1..], text[start])
  {
    hide QuoteLength, QuoteFinish;
    var quote := text[start];
    index := start + 1;
    QuoteBegun(text, index, quote);
    ghost var finish := QuoteFinish(text, index, quote);
    while index < |text|
      invariant start + 1 <= index <= |text| + 1
      invariant QuoteFinish(text, index, quote) == finish
      decreases |text| - index
    {
      QuoteStep(text, index, quote);
      if Starts(text[index..], quote, quote) || text[index] == BACKSLASH {
        index := index + 2;
      } else if text[index] == quote {
        return index + 1;
      } else {
        index := index + 1;
      }
    }
    QuoteFinished(text, index, quote);
  }

  lemma QuoteBegun(text: Text, index: nat, quote: Byte)
    requires index <= |text|
    ensures QuoteFinish(text, index, quote) == index + QuoteLength(text[index..], quote)
  {
  }

  lemma QuoteFinished(text: Text, index: nat, quote: Byte)
    requires index >= |text|
    ensures QuoteFinish(text, index, quote) == Clipped(text, index)
  {
    assert Remaining(text, index) == [];
  }

  /** What the loop appends when a token is read at the front of `rest`. */
  function Piece(rest: Text): Text
    requires rest != []
  {
    BlankedToken(TokenOf(rest, HeadOf(rest), Lex(BodyText(rest, HeadOf(rest)))))
  }

  lemma RemovedHead(text: Text)
    requires text != []
    ensures Removed(text) == Piece(text) + Removed(text[HeadOf(text).Length()..])
  {
    hide HeadOf, TokenOf, BodyText, BlankedToken;
  }

  /** One pass of the loop: what it appends and how far it moves. */
  lemma RemovedStep(text: Text, index: nat, next: nat)
    requires index < |text| && index < next
    requires Clipped(text, next) == index + HeadOf(text[index..]).Length()
    ensures Removed(text[index..]) == Piece(text[index..]) + Removed(Remaining(text, next))
  {
    hide HeadOf, Piece, Removed;
    var rest := text[index..];
    RemovedHead(rest);
    assert rest[HeadOf(rest).Length()..] == Remaining(text, next);
  }

  lemma LinePiece(rest: Text)
    requires Dashes(rest)
    ensures HeadOf(rest).Length() == LineLength(rest) && Piece(rest) == Blank(rest[..LineLength(rest)])
  {
    hide LineLength, Lex;
  }

  lemma BlockPiece(rest: Text)
    requires Opens(rest)
    ensures var n := 2 + CommentLength(rest[2..], 1); HeadOf(rest).Length() == n && Piece(rest) == Blank(rest[..n])
  {
    hide CommentLength, Lex;
    assert rest[0] == SLASH;
  }

  lemma QuotedPiece(rest: Text)
    requires rest != [] && IsQuote(rest[0])
    ensures var n := 1 + QuoteLength(rest[1..], rest[0]); HeadOf(rest).Length() == n && Piece(rest) == rest[..n]
  {
    hide QuoteLength, Lex;
  }

  lemma DollarPiece(rest: Text)
    requires rest != [] && !Dashes(rest) && !Opens(rest) && !IsQuote(rest[0])
    ensures var d := DelimiterLength(rest);
            if d > 0 && Find(rest[d..], rest[..d]).Found? then
              var f := Find(rest[d..], rest[..d]).at;
              && 0 < d && d + f + d == HeadOf(rest).Length() <= |rest|
              && Piece(rest) == rest[..d] + Removed(rest[d..d + f]) + rest[..d]
            else HeadOf(rest).Length() == 1 && Piece(rest) == [rest[0]]
  {
    hide DelimiterLength, Find, Lex;
    assert HeadOf(rest) == DollarHeadOf(rest);
  }

  method Remove(source: Text) returns (output: Text)
    ensures output == Removed(source)
    decreases |source|, 2
  {
    hide HeadOf, Piece, Removed;
    output := [];
    var index := 0;
    assert Remaining(source, 0) == source;
    while index < |source|
      invariant 0 <= index <= |source| + 1
      invariant output + Removed(Remaining(source, index)) == Removed(source)
      decreases |source| - index
    {
      var piece, finish := RemoveToken(source, index);
      RemovedStep(source, index, finish);
      output := output + piece;
      index := finish;
    }
    RemovedEmpty();
    assert Remaining(source, index) == [];
    assert output + [] == output;
  }

  method RemoveToken(source: Text, index: nat) returns (piece: Text, finish: nat)
    requires index < |source|
    ensures piece == Piece(source[index..])
    ensures index < finish <= |source| + 1
    ensures Clipped(source, finish) == index + HeadOf(source[index..]).Length()
    decreases |source|, 1
  {
    hide HeadOf, Piece, LineLength, CommentLength, QuoteLength, Lex;
    var rest := source[index..];
    if Dashes(rest) {
      LinePiece(rest);
      finish := index + LineLength(rest);
      piece := Blank(rest[..finish - index]);
    } else if Opens(rest) {
      BlockPiece(rest);
      assert rest[2..] == source[index + 2..];
      finish := SkipComment(source, index);
      piece := Blank(rest[..finish - index]);
    } else if IsQuote(rest[0]) {
      QuotedPiece(rest);
      assert rest[1..] == source[index + 1..];
      finish := SkipQuoted(source, index);
      piece := rest[..Clipped(source, finish) - index];
    } else {
      var n;
      piece, n := RemoveDollar(rest);
      finish := index + n;
    }
  }

  /** A dollar body is cleaned by a removal of its own; a lone dollar or other byte is kept. */
  method RemoveDollar(rest: Text) returns (piece: Text, n: nat)
    requires rest != [] && !Dashes(rest) && !Opens(rest) && !IsQuote(rest[0])
    ensures piece == Piece(rest) && n == HeadOf(rest).Length()
    decreases |rest|, 0
  {
    hide HeadOf, Piece, DelimiterLength, Find, Removed;
    DollarPiece(rest);
    var d := DelimiterLength(rest);
    var found := if d > 0 then Find(rest[d..], rest[..d]) else Absent;
    if found.Found? {
      var body := Remove(rest[d..d + found.at]);
      piece, n := rest[..d] + body + rest[..d], d + found.at + d;
    } else {
      piece, n := [rest[0]], 1;
    }
  }

  lemma RemovedEmpty()
    ensures Removed([]) == []
  {
  }
}
