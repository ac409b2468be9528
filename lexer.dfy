/** The character-level lexer: a cursor over the source text that skips
    whitespace and classifies one token at a time.

    `NextToken` and `Tokenize` state what the lexer does as functions of
    the text and a character index; `LexerCursor` is the cursor itself,
    whose methods update its fields in place and are proved to follow them. */
module Lexer {
  import opened Common
  import opened LexerTypes

  /** Rust's `char::is_whitespace`: the characters with the Unicode White_Space property. */
  predicate IsWhitespace(c: char) {
    || ('\t' <= c <= '\r')
    || c == ' '
    || c == '\U{0085}'
    || c == '\U{00A0}'
    || c == '\U{1680}'
    || ('\U{2000}' <= c <= '\U{200A}')
    || c == '\U{2028}'
    || c == '\U{2029}'
    || c == '\U{202F}'
    || c == '\U{205F}'
    || c == '\U{3000}'
  }

  predicate IsAsciiAlphabetic(c: char) {
    ('a' <= c <= 'z') || ('A' <= c <= 'Z')
  }

  /** The characters that may start an identifier or keyword. */
  predicate IsWordStart(c: char) {
    IsAsciiAlphabetic(c) || c == '_'
  }

  /** The characters that may continue an identifier or keyword. */
  predicate IsWordChar(c: char) {
    IsAsciiAlphabetic(c) || IsAsciiDigit(c) || c == '_'
  }

  // ---------------------------------------------------------------------
  // Line and column bookkeeping

  /** The (row, column) a cursor moves to when it consumes c. */
  function Advance(at: Position, c: char): Position {
    if c == '\n' then (at.0 + 1, 0) else (at.0, at.1 + 1)
  }

  /** The (row, column) of a cursor that started fresh and consumed s. */
  function RowCol(s: string): Position
    decreases |s|
  {
    if s == [] then (1, 0) else Advance(RowCol(s[..|s| - 1]), s[|s| - 1])
  }

  lemma SliceConcat(s: string, a: nat, b: nat, c: nat)
    requires a <= b <= c <= |s|
    ensures s[a..b] + s[b..c] == s[a..c]
  {
  }

  lemma SplitAtOne(s: string, a: nat, b: nat)
    requires a < b <= |s|
    ensures [s[a]] + s[a + 1..b] == s[a..b]
  {
  }

  lemma SplitAtTwo(s: string, a: nat, b: nat, c: nat)
    requires a < b < c <= |s|
    ensures [s[a]] + s[a + 1..b] + [s[b]] + s[b + 1..c] == s[a..c]
  {
    SplitAtOne(s, a, b);
    SplitAtOne(s, b, c);
    SliceConcat(s, a, b, c);
  }

  function NewlineCount(s: string): nat
    decreases |s|
  {
    if s == [] then 0 else NewlineCount(s[..|s| - 1]) + (if s[|s| - 1] == '\n' then 1 else 0)
  }

  /** Number of characters after the last newline of s (all of s when it has none). */
  function LastLineLength(s: string): nat
    decreases |s|
  {
    if s == [] || s[|s| - 1] == '\n' then 0 else LastLineLength(s[..|s| - 1]) + 1
  }

  /** The cursor's row is one more than the newlines consumed, and its
      column counts the characters consumed since the last of them. */
  lemma {:induction false} RowColCounts(s: string)
    ensures RowCol(s) == (1 + NewlineCount(s), LastLineLength(s))
    decreases |s|
  {
    if s != [] {
      RowColCounts(s[..|s| - 1]);
    }
  }

  // ---------------------------------------------------------------------
  // Scanning

  /** Where a scan from p that consumes characters while `pred` holds stops. */
  function ScanWhile(s: string, p: nat, pred: char -> bool): (e: nat)
    requires p <= |s|
    ensures p <= e <= |s|
    ensures forall i :: p <= i < e ==> pred(s[i])
    ensures e < |s| ==> !pred(s[e])
    decreases |s| - p
  {
    if p < |s| && pred(s[p]) then ScanWhile(s, p + 1, pred) else p
  }

  /** The character after index i - 1, if any: what the cursor would peek at. */
  function PeekAt(s: string, i: nat): Option<char> {
    if i < |s| then Some(s[i]) else None
  }

  /** The kind a keyword spells, if the word is one. Every keyword is
      spelled with word characters, so the word lexer can reach it, and
      none of them is an identifier. */
  function Keyword(word: string): (r: Option<TokenKind>)
    ensures r.Some? ==> |word| >= 2 && IsAsciiAlphabetic(word[0])
    ensures r.Some? ==> forall i :: 0 <= i < |word| ==> IsWordChar(word[i])
    ensures r.Some? ==> !r.value.Identifier?
  {
    match word
    case "be" => Some(Be)
    case "mut" => Some(Mut)
    case "if" => Some(If)
    case "else" => Some(Else)
    case "while" => Some(While)
    case "fn" => Some(Fn)
    case "return" => Some(Return)
    case "true" => Some(Boolean(true))
    case "false" => Some(Boolean(false))
    case "struct" => Some(Struct)
    case "enum" => Some(Enum)
    case _ => None
  }

  /** The kind of a maximal run of word characters: its keyword, or an identifier holding its text. */
  function WordKind(word: string): (r: TokenKind)
    ensures r.Identifier? <==> Keyword(word).None?
    ensures r.Identifier? ==> r.name == word
  {
    match Keyword(word)
    case Some(k) => k
    case None => Identifier(word)
  }

  /** Rust's `str::parse::<i64>` on a non-empty run of decimal digits. */
  function ParseI64(digits: string): Option<I64>
    requires forall i :: 0 <= i < |digits| ==> IsAsciiDigit(digits[i])
  {
    var v := DigitsValue(digits);
    if v <= I64_MAX then Some(v) else None
  }

  /** What one call of the lexer yields, and the index its cursor stops at. */
  datatype Lexed = Lexed(item: Option<Result<Token, string>>, next: nat)

  /** One call of the lexer from index p: skip whitespace, then classify
      the token that starts at the first other character. */
  function NextToken(s: string, p: nat): (r: Lexed)
    requires p <= |s|
    ensures p <= r.next <= |s|
    ensures r.item.Some? ==> ScanWhile(s, p, IsWhitespace) < r.next
  {
    var start := ScanWhile(s, p, IsWhitespace);
    if start == |s| then Lexed(None, start) else Classify(s, start)
  }

  /** The tokens spelled with one character and no lookahead. None of
      these characters is whitespace or starts any other kind of token, so
      looking this table up first does not change which token is made. */
  function SingleCharKind(c: char): (r: Option<TokenKind>)
    ensures r.Some? ==> !IsWhitespace(c) && c !in "=!><&|\"" && !IsAsciiDigit(c) && !IsWordChar(c)
  {
    match c
    case ',' => Some(Comma)
    case ':' => Some(Colon)
    case ';' => Some(SemiColon)
    case '(' => Some(LParen)
    case ')' => Some(RParen)
    case '{' => Some(LCurly)
    case '}' => Some(RCurly)
    case '[' => Some(LBracket)
    case ']' => Some(RBracket)
    case '+' => Some(Op(Plus))
    case '-' => Some(Op(Minus))
    case '*' => Some(Op(Multiply))
    case '/' => Some(Op(Divide))
    case '%' => Some(Op(Modulo))
    case '^' => Some(Op(BitXor))
    case '~' => Some(Op(BitNot))
    case _ => None
  }

  /** Classification of the token whose first character is s[start]; the
      token is tagged with the position reached after that character. */
  function Classify(s: string, start: nat): (r: Lexed)
    requires start < |s|
    ensures start < r.next <= |s|
  {
    var c := s[start];
    var i := start + 1;
    var pos := RowCol(s[..i]);
    if SingleCharKind(c).Some? then Lexed(Some(Ok(Token(SingleCharKind(c).value, pos))), i)
    else if c in "=!><&|" then
      var (op, next) := CompoundOperator(s, start);
      Lexed(Some(Ok(Token(Op(op), pos))), next)
    else if c == '"' then LexString(s, i, pos)
    else if IsAsciiDigit(c) then LexNumber(s, start, pos)
    else if IsWordStart(c) then LexWord(s, start, pos)
    else
      var msg := "Unexpected character '" + [c] + "'" + AtLineColumn(pos);
      Lexed(Some(Err(msg)), i)
  }

  /** The operators that look one character ahead, starting at s[start]:
      the two-character operator when the next character completes one
      (and the index after both), else the one-character operator (and the
      index after it). */
  function CompoundOperator(s: string, start: nat): (r: (Op, nat))
    requires start < |s| && s[start] in "=!><&|"
    ensures start < r.1 <= |s|
    ensures r.1 <= start + 2
  {
    var i := start + 1;
    match s[start]
    case '=' => if PeekAt(s, i) == Some('=') then (EqualTo, i + 1) else (Equal, i)
    case '!' => if PeekAt(s, i) == Some('=') then (NotEqual, i + 1) else (Not, i)
    case '>' =>
      if PeekAt(s, i) == Some('=') then (GreaterThanOrEqual, i + 1)
      else if PeekAt(s, i) == Some('>') then (ShiftRight, i + 1)
      else (GreaterThan, i)
    case '<' =>
      if PeekAt(s, i) == Some('=') then (LessThanOrEqual, i + 1)
      else if PeekAt(s, i) == Some('<') then (ShiftLeft, i + 1)
      else (LessThan, i)
    case '&' => if PeekAt(s, i) == Some('&') then (And, i + 1) else (BitAnd, i)
    case '|' =>
      if PeekAt(s, i) == Some('|') then (Or, i + 1)
      else if PeekAt(s, i) == Some('>') then (Pipe, i + 1)
      else (BitOr, i)
  }

  /** A string literal whose opening quote ends just before index i. An
      unterminated literal yields no item at all. */
  function LexString(s: string, i: nat, pos: Position): (r: Lexed)
    requires i <= |s|
    ensures i <= r.next <= |s|
  {
    var e := EscapedSpanEnd(s, i, false);
    if PeekAt(s, e) == Some('"') then Lexed(Some(Ok(Token(String(s[i..e]), pos))), e + 1)
    else Lexed(None, e)
  }

  /** A numeric literal starting with the digit s[start]. */
  function LexNumber(s: string, start: nat, pos: Position): (r: Lexed)
    requires start < |s| && IsAsciiDigit(s[start])
    ensures start < r.next <= |s|
  {
    var e := ScanWhile(s, start + 1, IsAsciiDigit);
    if PeekAt(s, e) == Some('.') then
      var f := ScanWhile(s, e + 1, IsAsciiDigit);
      Lexed(Some(Ok(Token(Float(s[start..f]), pos))), f)
    else
      var digits := s[start..e];
      match ParseI64(digits)
      case Some(v) => Lexed(Some(Ok(Token(Integer(v), pos))), e)
      case None =>
        var msg := "Invalid integer literal '" + digits + "'" + AtLineColumn(pos);
        Lexed(Some(Err(msg)), e)
  }

  /** The text a cursor collects for a float literal is the literal's slice of s. */
  lemma FloatLiteralText(s: string, start: nat, e: nat, f: nat, pos: Position, text: string)
    requires start < |s| && IsAsciiDigit(s[start])
    requires start + 1 <= e == ScanWhile(s, start + 1, IsAsciiDigit)
    requires e < |s| && s[e] == '.' && e + 1 <= f == ScanWhile(s, e + 1, IsAsciiDigit)
    requires text == s[start..f]
    ensures LexNumber(s, start, pos) == Lexed(Some(Ok(Token(Float(text), pos))), f)
  {
    assert PeekAt(s, e) == Some('.');
  }

  /** The text a cursor collects for an integer literal is the literal's slice of s. */
  lemma IntegerLiteralText(s: string, start: nat, e: nat, pos: Position, text: string)
    requires start < |s| && IsAsciiDigit(s[start])
    requires start + 1 <= e == ScanWhile(s, start + 1, IsAsciiDigit)
    requires PeekAt(s, e) != Some('.')
    requires text == s[start..e]
    ensures LexNumber(s, start, pos) == match ParseI64(text)
      case Some(v) => Lexed(Some(Ok(Token(Integer(v), pos))), e)
      case None => Lexed(Some(Err("Invalid integer literal '" + text + "'" + AtLineColumn(pos))), e)
  {
  }

  /** An identifier or keyword starting with s[start]. */
  function LexWord(s: string, start: nat, pos: Position): (r: Lexed)
    requires start < |s|
    ensures start < r.next <= |s|
  {
    var e := ScanWhile(s, start + 1, IsWordChar);
    Lexed(Some(Ok(Token(WordKind(s[start..e]), pos))), e)
  }

  /** Draining the lexer from index p, stopping at the first error: the
      whole token sequence, or the first error message. */
  function Tokenize(s: string, p: nat): (r: Result<seq<Token>, string>)
    requires p <= |s|
    ensures p == |s| ==> r == Ok([])
    ensures r.Ok? ==> |r.value| <= |s| - p
    decreases |s| - p
  {
    var r := NextToken(s, p);
    match r.item
    case None => Ok([])
    case Some(Err(e)) => Err(e)
    case Some(Ok(t)) =>
      match Tokenize(s, r.next)
      case Ok(ts) => Ok([t] + ts)
      case Err(e) => Err(e)
  }

  // ---------------------------------------------------------------------
  // The cursor

  /** The read cursor: the source, the index of the next character, and the
      row and column reached so far. */
  class LexerCursor {
    const src: string
    var position: nat
    var column: nat
    var row: nat

    /** The row and column are those reached by consuming src[..position]. */
    ghost predicate Valid()
      reads this
    {
      position <= |src| && (row, column) == RowCol(src[..position])
    }

    constructor (input: string)
      ensures Valid() && src == input
      ensures row == 1 && column == 0 && position == 0
    {
      src := input;
      position := 0;
      column := 0;
      row := 1;
    }

    /** Consumes one character, moving to the next line on a newline. */
    method Bump() returns (ch: Option<char>)
      requires Valid()
      modifies this
      ensures Valid()
      ensures ch == old(Peek())
      ensures old(position) == |src| ==> ch == None && unchanged(this)
      ensures old(position) < |src| ==>
        && ch == Some(src[old(position)])
        && position == old(position) + 1
        && (src[old(position)] == '\n' ==> row == old(row) + 1 && column == 0)
        && (src[old(position)] != '\n' ==> row == old(row) && column == old(column) + 1)
    {
      if position == |src| {
        return None;
      }
      var c := src[position];
      if c == '\n' {
        row := row + 1;
        column := 0;
      } else {
        column := column + 1;
      }
      assert src[..position + 1][..position] == src[..position];
      position := position + 1;
      ch := Some(c);
    }

    /** The character the next Bump would consume, or None at the end. */
    function Peek(): (r: Option<char>)
      reads this
      ensures r.Some? <==> position < |src|
      ensures r.Some? ==> r.value == src[position]
    {
      PeekAt(src, position)
    }

    function Pos(): (r: Position)
      reads this
      requires Valid()
      ensures r == RowCol(src[..position])
    {
      (row, column)
    }

    /** Consumes characters while `condition` holds and returns them. */
    method EatWhile(condition: char -> bool) returns (span: string)
      requires Valid()
      modifies this
      ensures Valid()
      ensures position == ScanWhile(src, old(position), condition)
      ensures span == src[old(position)..position]
      ensures forall i :: 0 <= i < |span| ==> condition(span[i])
      ensures position < |src| ==> !condition(src[position])
    {
      var start := position;
      while Peek().Some?
        invariant Valid() && start <= position
        invariant ScanWhile(src, position, condition) == ScanWhile(src, start, condition)
        decreases |src| - position
      {
        if condition(Peek().value) {
          var _ := Bump();
        } else {
          break;
        }
      }
      span := src[start..position];
    }

    /** Consumes the body of a string literal, as decided by a fresh StringParser. */
    method EatStringBody() returns (span: string)
      requires Valid()
      modifies this
      ensures Valid()
      ensures position == EscapedSpanEnd(src, old(position), false)
      ensures span == src[old(position)..position]
    {
      var parser := new StringParser();
      var start := position;
      while Peek().Some?
        invariant Valid() && start <= position
        invariant EscapedSpanEnd(src, position, parser.skipNext) == EscapedSpanEnd(src, start, false)
        decreases |src| - position
      {
        var accept := parser.Condition(Peek().value);
        if accept {
          var _ := Bump();
        } else {
          break;
        }
      }
      span := src[start..position];
    }

    /** Yields the next token or error, or nothing at the end of the input. */
    method Next() returns (item: Option<Result<Token, string>>)
      requires Valid()
      modifies this
      ensures Valid()
      ensures Lexed(item, position) == NextToken(src, old(position))
    {
      var _ := EatWhile(IsWhitespace);
      var start := position;
      var c := Bump();
      if c.None? {
        return None;
      }
      var pos := Pos();
      var ch := c.value;
      var kind: TokenKind;
      if SingleCharKind(ch).Some? {
        kind := SingleCharKind(ch).value;
      } else if ch in "=!><&|" {
        var op := EatCompoundOperator(start);
        kind := Op(op);
      } else if ch == '"' {
        item := EatString(pos);
        return;
      } else if IsAsciiDigit(ch) {
        item := EatNumber(start, pos);
        return;
      } else if IsWordStart(ch) {
        kind := EatWord(start);
      } else {
        var msg := "Unexpected character '" + [ch] + "'" + AtLineColumn(pos);
        return Some(Err(msg));
      }
      item := Some(Ok(Token(kind, pos)));
    }

    /** A string literal whose opening quote has just been consumed: its
        body up to the closing quote, which is consumed too; with no closing
        quote, nothing is yielded. */
    method EatString(pos: Position) returns (item: Option<Result<Token, string>>)
      requires Valid()
      modifies this
      ensures Valid()
      ensures Lexed(item, position) == LexString(src, old(position), pos)
    {
      var content := EatStringBody();
      if Peek() != Some('"') {
        return None;
      }
      var _ := Bump();
      item := Some(Ok(Token(String(content), pos)));
    }

    /** The operator starting with the lookahead character src[start],
        which has just been consumed. */
    method EatCompoundOperator(start: nat) returns (op: Op)
      requires Valid() && position == start + 1 && src[start] in "=!><&|"
      modifies this
      ensures Valid()
      ensures (op, position) == CompoundOperator(src, start)
    {
      match src[start] {
        case '=' =>
          if Peek() == Some('=') {
            var _ := Bump();
            op := EqualTo;
          } else {
            op := Equal;
          }
        case '!' =>
          if Peek() == Some('=') {
            var _ := Bump();
            op := NotEqual;
          } else {
            op := Not;
          }
        case '>' =>
          if Peek() == Some('=') {
            var _ := Bump();
            op := GreaterThanOrEqual;
          } else if Peek() == Some('>') {
            var _ := Bump();
            op := ShiftRight;
          } else {
            op := GreaterThan;
          }
        case '<' =>
          if Peek() == Some('=') {
            var _ := Bump();
            op := LessThanOrEqual;
          } else if Peek() == Some('<') {
            var _ := Bump();
            op := ShiftLeft;
          } else {
            op := LessThan;
          }
        case '&' =>
          if Peek() == Some('&') {
            var _ := Bump();
            op := And;
          } else {
            op := BitAnd;
          }
        case '|' =>
          if Peek() == Some('|') {
            var _ := Bump();
            op := Or;
          } else if Peek() == Some('>') {
            var _ := Bump();
            op := Pipe;
          } else {
            op := BitOr;
          }
      }
    }

    /** The digits (and fraction) of a numeric literal whose first digit,
        at index start, has just been consumed. */
    method EatNumber(start: nat, pos: Position) returns (item: Option<Result<Token, string>>)
      requires Valid() && position == start + 1 && IsAsciiDigit(src[start])
      modifies this
      ensures Valid()
      ensures Lexed(item, position) == LexNumber(src, start, pos)
    {
      var numberStr := [src[start]];
      var digits := EatWhile(IsAsciiDigit);
      ghost var e := position;
      numberStr := numberStr + digits;
      if Peek() == Some('.') {
        numberStr := numberStr + ['.'];
        var _ := Bump();
        var fraction := EatWhile(IsAsciiDigit);
        numberStr := numberStr + fraction;
        SplitAtTwo(src, start, e, position);
        FloatLiteralText(src, start, e, position, pos, numberStr);
        item := Some(Ok(Token(Float(numberStr), pos)));
      } else {
        SplitAtOne(src, start, e);
        IntegerLiteralText(src, start, e, pos, numberStr);
        match ParseI64(numberStr)
        case Some(v) =>
          item := Some(Ok(Token(Integer(v), pos)));
        case None =>
          var msg := "Invalid integer literal '" + numberStr + "'" + AtLineColumn(pos);
          item := Some(Err(msg));
      }
    }

    /** The rest of an identifier or keyword whose first character, at
        index start, has just been consumed. */
    method EatWord(start: nat) returns (kind: TokenKind)
      requires Valid() && position == start + 1
      modifies this
      ensures Valid()
      ensures position == ScanWhile(src, start + 1, IsWordChar)
      ensures kind == WordKind(src[start..position])
    {
      var identStr := [src[start]];
      var rest := EatWhile(IsWordChar);
      identStr := identStr + rest;
      assert identStr == src[start..position];
      match Keyword(identStr)
      case Some(k) => kind := k;
      case None => kind := Identifier(identStr);
    }
  }
}
