/** What the lexer promises about each call: whitespace skipping, token
    positions, operator lookahead, numbers, words and strings, and that
    the text a token spans lexes to the same token kind on its own. */
module LexerProps {
  import opened Common
  import opened LexerTypes
  import opened Lexer

  /** The operators spelled with two characters, by those characters. */
  function TwoCharOperator(a: char, b: char): Option<Op> {
    match (a, b)
    case ('=', '=') => Some(EqualTo)
    case ('!', '=') => Some(NotEqual)
    case ('>', '=') => Some(GreaterThanOrEqual)
    case ('>', '>') => Some(ShiftRight)
    case ('<', '=') => Some(LessThanOrEqual)
    case ('<', '<') => Some(ShiftLeft)
    case ('&', '&') => Some(And)
    case ('|', '|') => Some(Or)
    case ('|', '>') => Some(Pipe)
    case _ => None
  }

  /** The operators spelled with one character. */
  function OneCharOperator(a: char): Option<Op> {
    match a
    case '+' => Some(Plus)
    case '-' => Some(Minus)
    case '*' => Some(Multiply)
    case '/' => Some(Divide)
    case '%' => Some(Modulo)
    case '=' => Some(Equal)
    case '!' => Some(Not)
    case '>' => Some(GreaterThan)
    case '<' => Some(LessThan)
    case '&' => Some(BitAnd)
    case '|' => Some(BitOr)
    case '^' => Some(BitXor)
    case '~' => Some(BitNot)
    case _ => None
  }

  /** Index of the first character of the token that a call from p classifies. */
  function TokenStart(s: string, p: nat): nat
    requires p <= |s|
  {
    ScanWhile(s, p, IsWhitespace)
  }

  /** Empty or all-whitespace input ends the stream without an item. */
  lemma WhitespaceOnlyEndsStream(s: string, p: nat)
    requires p <= |s|
    requires forall i :: p <= i < |s| ==> IsWhitespace(s[i])
    ensures NextToken(s, p) == Lexed(None, |s|)
    ensures Tokenize(s, p) == Ok([])
  {
  }

  /** A token is tagged with the line and column reached after its first
      character: its line is one more than the newlines before it, and its
      column counts from 1. */
  lemma {:induction false} TokenPositionAfterFirstChar(s: string, p: nat)
    requires p <= |s|
    requires NextToken(s, p).item.Some? && NextToken(s, p).item.value.Ok?
    ensures var start := TokenStart(s, p);
      && start < |s| && !IsWhitespace(s[start])
      && NextToken(s, p).item.value.value.pos == (1 + NewlineCount(s[..start]), LastLineLength(s[..start]) + 1)
  {
    var start := TokenStart(s, p);
    var t := NextToken(s, p).item.value.value;
    assert t.pos == RowCol(s[..start + 1]);
    assert s[..start + 1][..start] == s[..start];
    RowColCounts(s[..start]);
  }

  /** The characters =, !, >, <, & and | look one character ahead: a
      two-character operator consumes both characters, and otherwise the
      one-character operator is produced and the next character left unread. */
  lemma OperatorLookahead(s: string, p: nat)
    requires p <= |s|
    requires var start := TokenStart(s, p); start < |s| && OneCharOperator(s[start]).Some?
    ensures var start := TokenStart(s, p);
      var two := if start + 1 < |s| then TwoCharOperator(s[start], s[start + 1]) else None;
      var r := NextToken(s, p);
      && r.item.Some? && r.item.value.Ok?
      && (two.Some? ==> r.item.value.value.kind == Op(two.value) && r.next == start + 2)
      && (two.None? ==> r.item.value.value.kind == Op(OneCharOperator(s[start]).value) && r.next == start + 1)
  {
    var start := TokenStart(s, p);
    var c := s[start];
    var pos := RowCol(s[..start + 1]);
    if c in "=!><&|" {
      CompoundOperatorTables(s, start);
      var (op, next) := CompoundOperator(s, start);
      assert NextToken(s, p) == Lexed(Some(Ok(Token(Op(op), pos))), next);
    } else {
      assert SingleCharKind(c) == Some(Op(OneCharOperator(c).value));
      assert NextToken(s, p) == Lexed(Some(Ok(Token(Op(OneCharOperator(c).value), pos))), start + 1);
    }
  }

  /** The lookahead operators agree with the two tables: a two-character
      operator when the pair spells one, else the one-character operator. */
  lemma CompoundOperatorTables(s: string, start: nat)
    requires start < |s| && s[start] in "=!><&|"
    ensures var two := if start + 1 < |s| then TwoCharOperator(s[start], s[start + 1]) else None;
      var r := CompoundOperator(s, start);
      && (two.Some? ==> r == (two.value, start + 2))
      && (two.None? ==> r == (OneCharOperator(s[start]).value, start + 1))
  {
  }

  /** Digits not followed by a dot make an Integer, or the "Invalid integer
      literal" error when the value exceeds the i64 range; digits followed by
      a dot consume the dot and any further digits and make a Float, so `12.`
      is a Float. */
  lemma NumberLiteral(s: string, p: nat, start: nat, e: nat)
    requires p <= |s| && start == TokenStart(s, p)
    requires start < |s| && IsAsciiDigit(s[start])
    requires e == ScanWhile(s, start, IsAsciiDigit)
    ensures var pos := RowCol(s[..start + 1]);
      && (e < |s| && s[e] == '.' ==>
            var f := ScanWhile(s, e + 1, IsAsciiDigit);
            NextToken(s, p) == Lexed(Some(Ok(Token(Float(s[start..f]), pos))), f))
      && (!(e < |s| && s[e] == '.') && DigitsValue(s[start..e]) <= I64_MAX ==>
            NextToken(s, p) == Lexed(Some(Ok(Token(Integer(DigitsValue(s[start..e])), pos))), e))
      && (!(e < |s| && s[e] == '.') && DigitsValue(s[start..e]) > I64_MAX ==>
            NextToken(s, p) == Lexed(Some(Err("Invalid integer literal '" + s[start..e] + "'" + AtLineColumn(pos))), e))
  {
    DigitStartsNumber(s, start);
    assert NextToken(s, p) == LexNumber(s, start, RowCol(s[..start + 1]));
    assert e == ScanWhile(s, start + 1, IsAsciiDigit);
    LexNumberCases(s, start, RowCol(s[..start + 1]));
  }

  /** The three outcomes of a numeric literal, spelled out. */
  lemma LexNumberCases(s: string, start: nat, pos: Position)
    requires start < |s| && IsAsciiDigit(s[start])
    ensures var e := ScanWhile(s, start + 1, IsAsciiDigit);
      var r := LexNumber(s, start, pos);
      && (e < |s| && s[e] == '.' ==>
            var f := ScanWhile(s, e + 1, IsAsciiDigit);
            r == Lexed(Some(Ok(Token(Float(s[start..f]), pos))), f))
      && (!(e < |s| && s[e] == '.') && DigitsValue(s[start..e]) <= I64_MAX ==>
            r == Lexed(Some(Ok(Token(Integer(DigitsValue(s[start..e])), pos))), e))
      && (!(e < |s| && s[e] == '.') && DigitsValue(s[start..e]) > I64_MAX ==>
            r == Lexed(Some(Err("Invalid integer literal '" + s[start..e] + "'" + AtLineColumn(pos))), e))
  {
  }

  lemma DigitStartsNumber(s: string, start: nat)
    requires start < |s| && IsAsciiDigit(s[start])
    ensures Classify(s, start) == LexNumber(s, start, RowCol(s[..start + 1]))
  {
    var c := s[start];
    assert SingleCharKind(c).None? && c !in "=!><&|" && c != '"';
  }

  /** A word is a letter or underscore followed by the longest run of
      letters, digits and underscores; an exact keyword gives the keyword's
      kind (true and false give Boolean), anything else an Identifier. */
  lemma WordToken(s: string, p: nat)
    requires p <= |s|
    requires var start := TokenStart(s, p); start < |s| && IsWordStart(s[start])
    ensures var start := TokenStart(s, p);
      var r := NextToken(s, p);
      var word := s[start..r.next];
      && r.item.Some? && r.item.value.Ok?
      && |word| >= 1
      && (forall i :: 0 <= i < |word| ==> IsWordChar(word[i]))
      && (r.next < |s| ==> !IsWordChar(s[r.next]))
      && (Keyword(word).Some? ==> r.item.value.value.kind == Keyword(word).value)
      && (Keyword(word).None? ==> r.item.value.value.kind == Identifier(word))
      && (word == "true" ==> r.item.value.value.kind == Boolean(true))
      && (word == "false" ==> r.item.value.value.kind == Boolean(false))
  {
    var start := TokenStart(s, p);
    var c := s[start];
    assert SingleCharKind(c).None? && c !in "=!><&|" && c != '"' && !IsAsciiDigit(c);
    var pos := RowCol(s[..start + 1]);
    assert NextToken(s, p) == LexWord(s, start, pos);
    LexWordFacts(s, start, pos);
  }

  /** The word lexed from a word-start character, spelled out. */
  lemma LexWordFacts(s: string, start: nat, pos: Position)
    requires start < |s| && IsWordStart(s[start])
    ensures var r := LexWord(s, start, pos);
      var word := s[start..r.next];
      && r.item.Some? && r.item.value.Ok?
      && |word| >= 1
      && (forall i :: 0 <= i < |word| ==> IsWordChar(word[i]))
      && (r.next < |s| ==> !IsWordChar(s[r.next]))
      && (Keyword(word).Some? ==> r.item.value.value.kind == Keyword(word).value)
      && (Keyword(word).None? ==> r.item.value.value.kind == Identifier(word))
      && (word == "true" ==> r.item.value.value.kind == Boolean(true))
      && (word == "false" ==> r.item.value.value.kind == Boolean(false))
  {
    var e := ScanWhile(s, start + 1, IsWordChar);
    var word := s[start..e];
    assert forall i :: 0 <= i < |word| ==> word[i] == s[start + i];
  }

  /** Distinct words lex to distinct kinds: a word's kind determines its
      text, so the lexer keeps everything a word spells. */
  lemma DistinctWordsDistinctKinds(a: string, b: string)
    requires WordKind(a) == WordKind(b)
    ensures a == b
  {
    if Keyword(a).Some? {
      KeywordSpelling(a);
      KeywordSpelling(b);
    }
  }

  /** The word a keyword kind is spelled with. */
  function KeywordText(k: TokenKind): string {
    match k
    case Be => "be"
    case Mut => "mut"
    case If => "if"
    case Else => "else"
    case While => "while"
    case Fn => "fn"
    case Return => "return"
    case Boolean(b) => if b then "true" else "false"
    case Struct => "struct"
    case Enum => "enum"
    case _ => ""
  }

  lemma KeywordSpelling(w: string)
    requires Keyword(w).Some?
    ensures KeywordText(Keyword(w).value) == w
  {
  }

  /** A terminated string yields its raw contents, backslashes kept, and
      consumes the closing quote; an unterminated one ends the stream with
      no error. */
  lemma StringToken(s: string, p: nat)
    requires p <= |s|
    requires var start := TokenStart(s, p); start < |s| && s[start] == '"'
    ensures var start := TokenStart(s, p);
      var e := EscapedSpanEnd(s, start + 1, false);
      var r := NextToken(s, p);
      && (e < |s| ==> r == Lexed(Some(Ok(Token(String(s[start + 1..e]), RowCol(s[..start + 1])))), e + 1))
      && (e == |s| ==> r == Lexed(None, |s|) && Tokenize(s, p) == Ok([]))
  {
  }

  /** The characters that begin some token. */
  predicate StartsToken(c: char) {
    c in ",:;(){}[]\"" || OneCharOperator(c).Some? || IsAsciiDigit(c) || IsWordStart(c)
  }

  /** Any other character is an "Unexpected character" error at its position. */
  lemma UnexpectedCharacter(s: string, p: nat)
    requires p <= |s|
    requires var start := TokenStart(s, p); start < |s| && !IsWhitespace(s[start]) && !StartsToken(s[start])
    ensures var start := TokenStart(s, p);
      NextToken(s, p) == Lexed(Some(Err("Unexpected character '" + [s[start]] + "'" + AtLineColumn(RowCol(s[..start + 1])))), start + 1)
  {
    var start := TokenStart(s, p);
    var c := s[start];
    assert c !in ",:;(){}[]\"";
  }

  // ---------------------------------------------------------------------
  // Re-lexing the text of a token

  /** A scan over a slice stops where the scan over the whole text stops,
      when that stop lies inside the slice. */
  lemma {:induction false} ScanWhileOnSlice(s: string, lo: nat, hi: nat, p: nat, pred: char -> bool)
    requires lo <= p <= hi <= |s| && ScanWhile(s, p, pred) <= hi
    ensures ScanWhile(s[lo..hi], p - lo, pred) == ScanWhile(s, p, pred) - lo
    decreases hi - p
  {
    if p < hi {
      assert s[lo..hi][p - lo] == s[p];
      if pred(s[p]) {
        ScanWhileOnSlice(s, lo, hi, p + 1, pred);
      }
    }
  }

  /** The same for the string parser's scan, which stops at a quote inside the slice. */
  lemma {:induction false} EscapedSpanOnSlice(s: string, lo: nat, hi: nat, p: nat, skip: bool)
    requires lo <= p <= hi <= |s| && EscapedSpanEnd(s, p, skip) < hi
    ensures EscapedSpanEnd(s[lo..hi], p - lo, skip) == EscapedSpanEnd(s, p, skip) - lo
    decreases hi - p
  {
    if p < hi {
      assert s[lo..hi][p - lo] == s[p];
      if skip {
        EscapedSpanOnSlice(s, lo, hi, p + 1, false);
      } else if s[p] != '"' {
        EscapedSpanOnSlice(s, lo, hi, p + 1, s[p] == '\\');
      }
    }
  }

  /** The text of a token, lexed on its own, gives the same token kind and
      is consumed whole: a token's extent is decided by its own characters
      and the character that ends it, never by what comes later. */
  lemma TokenTextRelexes(s: string, p: nat)
    requires p <= |s|
    requires NextToken(s, p).item.Some? && NextToken(s, p).item.value.Ok?
    ensures var r := NextToken(s, p);
      var text := s[TokenStart(s, p)..r.next];
      var again := NextToken(text, 0);
      && again.next == |text|
      && again.item.Some? && again.item.value.Ok?
      && again.item.value.value.kind == r.item.value.value.kind
  {
    var start := TokenStart(s, p);
    var text := s[start..NextToken(s, p).next];
    assert text[0] == s[start];
    assert ScanWhile(text, 0, IsWhitespace) == 0;
    ClassifyRelexes(s, start);
  }

  /** A classified token's text, classified on its own, gives the same kind. */
  lemma ClassifyRelexes(s: string, start: nat)
    requires start < |s|
    requires Classify(s, start).item.Some? && Classify(s, start).item.value.Ok?
    ensures var r := Classify(s, start);
      var again := Classify(s[start..r.next], 0);
      && again.next == r.next - start
      && again.item.Some? && again.item.value.Ok?
      && again.item.value.value.kind == r.item.value.value.kind
  {
    var c := s[start];
    var n := Classify(s, start).next;
    assert s[start..n][0] == c;
    if SingleCharKind(c).Some? {
    } else if c in "=!><&|" {
      CompoundRelexes(s, start);
    } else if c == '"' {
      StringRelexes(s, start);
    } else if IsAsciiDigit(c) {
      NumberRelexes(s, start);
    } else if IsWordStart(c) {
      WordRelexes(s, start);
    }
  }

  lemma CompoundRelexes(s: string, start: nat)
    requires start < |s| && s[start] in "=!><&|" && SingleCharKind(s[start]).None?
    ensures var (op, n) := CompoundOperator(s, start);
      var again := Classify(s[start..n], 0);
      && again.next == n - start
      && again.item.Some? && again.item.value.Ok?
      && again.item.value.value.kind == Op(op)
  {
    var (op, n) := CompoundOperator(s, start);
    var text := s[start..n];
    CompoundOperatorTables(s, start);
    CompoundOperatorTables(text, 0);
    assert text[0] == s[start];
    if n == start + 2 {
      assert text[1] == s[start + 1];
    }
  }

  lemma StringRelexes(s: string, start: nat)
    requires start < |s| && s[start] == '"'
    requires Classify(s, start).item.Some?
    ensures var r := Classify(s, start);
      var again := Classify(s[start..r.next], 0);
      && again.next == r.next - start
      && again.item.Some? && again.item.value.Ok?
      && again.item.value.value.kind == r.item.value.value.kind
  {
    var e := EscapedSpanEnd(s, start + 1, false);
    assert e < |s|;
    StringTextRelexes(s, start, e, RowCol(s[start..e + 1][..1]));
  }

  /** A string literal's text, lexed as a string on its own, gives the same contents. */
  lemma StringTextRelexes(s: string, start: nat, e: nat, pos': Position)
    requires start < |s| && e == EscapedSpanEnd(s, start + 1, false) && e < |s|
    ensures var text := s[start..e + 1];
      LexString(text, 1, pos') == Lexed(Some(Ok(Token(String(s[start + 1..e]), pos'))), |text|)
  {
    var text := s[start..e + 1];
    EscapedSpanOnSlice(s, start, e + 1, start + 1, false);
    assert text[e - start] == s[e];
    assert forall i :: 1 <= i < e - start ==> text[i] == s[start + i];
    assert text[1..e - start] == s[start + 1..e];
  }

  lemma NumberRelexes(s: string, start: nat)
    requires start < |s| && IsAsciiDigit(s[start])
    requires LexNumber(s, start, RowCol(s[..start + 1])).item.value.Ok?
    ensures var r := LexNumber(s, start, RowCol(s[..start + 1]));
      var again := Classify(s[start..r.next], 0);
      && again.next == r.next - start
      && again.item.Some? && again.item.value.Ok?
      && again.item.value.value.kind == r.item.value.value.kind
  {
    var pos := RowCol(s[..start + 1]);
    var n := LexNumber(s, start, pos).next;
    DigitStartsNumber(s[start..n], 0);
    var pos' := RowCol(s[start..n][..1]);
    var e := ScanWhile(s, start + 1, IsAsciiDigit);
    if PeekAt(s, e) == Some('.') {
      FloatTextRelexes(s, start, e, pos');
    } else {
      IntegerTextRelexes(s, start, e, pos');
    }
  }

  /** A float literal's text, lexed as a number on its own, is the same Float. */
  lemma FloatTextRelexes(s: string, start: nat, e: nat, pos': Position)
    requires start < |s| && IsAsciiDigit(s[start])
    requires e == ScanWhile(s, start + 1, IsAsciiDigit) && e < |s| && s[e] == '.'
    ensures var f := ScanWhile(s, e + 1, IsAsciiDigit);
      LexNumber(s[start..f], 0, pos') == Lexed(Some(Ok(Token(Float(s[start..f]), pos'))), f - start)
  {
    var f := ScanWhile(s, e + 1, IsAsciiDigit);
    FloatTextScans(s, start, e);
    assert PeekAt(s[start..f], e - start) == Some('.');
  }

  /** An integer literal's text, lexed as a number on its own, is the same Integer. */
  lemma IntegerTextRelexes(s: string, start: nat, e: nat, pos': Position)
    requires start < |s| && IsAsciiDigit(s[start])
    requires e == ScanWhile(s, start + 1, IsAsciiDigit)
    ensures LexNumber(s[start..e], 0, pos').next == e - start
    ensures ParseI64(s[start..e]).Some? ==>
      LexNumber(s[start..e], 0, pos').item == Some(Ok(Token(Integer(ParseI64(s[start..e]).value), pos')))
  {
    IntegerTextScans(s, start, e);
    assert PeekAt(s[start..e], e - start) == None;
  }

  /** The scans of a float literal's text on its own stop where they stopped in s. */
  lemma FloatTextScans(s: string, start: nat, e: nat)
    requires start < |s| && IsAsciiDigit(s[start])
    requires e == ScanWhile(s, start + 1, IsAsciiDigit) && e < |s| && s[e] == '.'
    ensures var f := ScanWhile(s, e + 1, IsAsciiDigit);
      var text := s[start..f];
      && ScanWhile(text, 1, IsAsciiDigit) == e - start
      && e - start < |text| && text[e - start] == '.'
      && ScanWhile(text, e - start + 1, IsAsciiDigit) == |text|
      && text[0..|text|] == text
  {
    var f := ScanWhile(s, e + 1, IsAsciiDigit);
    ScanWhileOnSlice(s, start, f, start + 1, IsAsciiDigit);
    ScanWhileOnSlice(s, start, f, e + 1, IsAsciiDigit);
    assert s[start..f][e - start] == s[e];
  }

  /** The scan of an integer literal's text on its own runs to its end. */
  lemma IntegerTextScans(s: string, start: nat, e: nat)
    requires start < |s| && IsAsciiDigit(s[start])
    requires e == ScanWhile(s, start + 1, IsAsciiDigit)
    ensures var text := s[start..e];
      && ScanWhile(text, 1, IsAsciiDigit) == |text|
      && text[0..|text|] == text
  {
    ScanWhileOnSlice(s, start, e, start + 1, IsAsciiDigit);
  }

  lemma WordRelexes(s: string, start: nat)
    requires start < |s| && IsWordStart(s[start])
    ensures var r := LexWord(s, start, RowCol(s[..start + 1]));
      var again := Classify(s[start..r.next], 0);
      && again.next == r.next - start
      && again.item.Some? && again.item.value.Ok?
      && again.item.value.value.kind == r.item.value.value.kind
  {
    var n := LexWord(s, start, RowCol(s[..start + 1])).next;
    var text := s[start..n];
    ScanWhileOnSlice(s, start, n, start + 1, IsWordChar);
    assert text[0..n - start] == text;
    var c := text[0];
    assert SingleCharKind(c).None? && c !in "=!><&|" && c != '"' && !IsAsciiDigit(c);
  }
}
