/** The lexer's vocabulary: operators, token kinds and tokens, and the
    one-flag state machine that decides where a string literal ends. */
module LexerTypes {
  import opened Common

  datatype Op =
    | Pipe
    | Plus | Minus | Multiply | Divide | Modulo
    | Equal | EqualTo | NotEqual | GreaterThan | LessThan | GreaterThanOrEqual | LessThanOrEqual
    | And | Or | Not
    | BitAnd | BitOr | BitXor | BitNot | ShiftLeft | ShiftRight

  /** A float literal is kept as its source text (digits, a dot, digits);
      its conversion to a binary64 value is not modelled. */
  datatype TokenKind =
    | Be | Mut | If | Else | While | Fn | Return
    | Struct | Enum
    | Boolean(b: bool)
    | Comma | Colon | SemiColon
    | LParen | RParen | LCurly | RCurly | LBracket | RBracket
    | Identifier(name: string)
    | String(text: string)
    | Integer(value: I64)
    | Float(literal: string)
    | Op(op: Op)
  {
    predicate IsOpener() { LParen? || LCurly? || LBracket? }
    predicate IsCloser() { RParen? || RCurly? || RBracket? }
  }

  datatype Token = Token(kind: TokenKind, pos: Position)

  /** Decides, one character at a time, whether a string literal's body
      goes on: a backslash makes the next character part of the body
      whatever it is, and an unescaped double quote ends the body. */
  class StringParser {
    var skipNext: bool

    constructor ()
      ensures !skipNext
    {
      skipNext := false;
    }

    method Condition(ch: char) returns (accept: bool)
      modifies this
      ensures old(skipNext) ==> accept && !skipNext
      ensures !old(skipNext) ==> accept == (ch != '"') && skipNext == (ch == '\\')
    {
      if skipNext {
        skipNext := false;
        return true;
      }
      match ch
      case '\\' =>
        skipNext := true;
        accept := true;
      case '"' =>
        accept := false;
      case _ =>
        accept := true;
    }
  }

  /** Where a scan of s from index p, driven by a StringParser whose flag
      is `skip`, stops: the first index the parser rejects, or |s|. */
  function EscapedSpanEnd(s: string, p: nat, skip: bool): (e: nat)
    requires p <= |s|
    ensures p <= e <= |s|
    ensures e < |s| ==> s[e] == '"'
    decreases |s| - p
  {
    if p == |s| then p
    else if skip then EscapedSpanEnd(s, p + 1, false)
    else if s[p] == '"' then p
    else EscapedSpanEnd(s, p + 1, s[p] == '\\')
  }

  /** Number of backslashes immediately before index i, looking no further back than lo. */
  function BackslashRun(s: string, lo: nat, i: nat): nat
    requires lo <= i <= |s|
    decreases i - lo
  {
    if i == lo || s[i - 1] != '\\' then 0 else 1 + BackslashRun(s, lo, i - 1)
  }

  /** The parser's flag at index p is set exactly when an odd run of
      backslashes precedes p; from there the scan stops at a quote preceded
      by an even run, and every quote it passes over is preceded by an odd run. */
  lemma {:induction false} EscapedSpanFrom(s: string, lo: nat, p: nat)
    requires lo <= p <= |s|
    ensures var e := EscapedSpanEnd(s, p, BackslashRun(s, lo, p) % 2 == 1);
      && (e < |s| ==> BackslashRun(s, lo, e) % 2 == 0)
      && (forall i :: p <= i < e && s[i] == '"' ==> BackslashRun(s, lo, i) % 2 == 1)
    decreases |s| - p
  {
    if p < |s| {
      var skip := BackslashRun(s, lo, p) % 2 == 1;
      if skip || s[p] != '"' {
        var skip' := BackslashRun(s, lo, p + 1) % 2 == 1;
        assert skip' == (!skip && s[p] == '\\');
        assert EscapedSpanEnd(s, p, skip) == EscapedSpanEnd(s, p + 1, skip');
        EscapedSpanFrom(s, lo, p + 1);
      }
    }
  }

  /** A string body scanned from p ends at the first double quote that is
      not escaped by an odd run of backslashes; with no such quote it runs
      to the end of the input. */
  lemma StringBodyEndsAtUnescapedQuote(s: string, p: nat)
    requires p <= |s|
    ensures var e := EscapedSpanEnd(s, p, false);
      && (e < |s| ==> s[e] == '"' && BackslashRun(s, p, e) % 2 == 0)
      && (forall i :: p <= i < e && s[i] == '"' ==> BackslashRun(s, p, i) % 2 == 1)
  {
    EscapedSpanFrom(s, p, p);
  }

  /** In `\\"` the second backslash is escaped, so the quote ends the body;
      in `\"` the quote is escaped and the body runs on. */
  lemma EscapedBackslashThenQuote()
    ensures EscapedSpanEnd("\\\\\"x", 0, false) == 2
    ensures EscapedSpanEnd("\\\"x", 0, false) == 3
  {
  }
}
