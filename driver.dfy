/** The composition the command-line entry point performs: drain the lexer
    over the whole input, stopping at the first lexer error, then fold the
    tokens into token trees. */
module Driver {
  import opened Common
  import opened LexerTypes
  import opened Lexer
  import opened TokenTrees
  import opened TokenTreeProps

  /** A result with some tokens put in front of its token sequence. */
  function Prepend(toks: seq<Token>, r: Result<seq<Token>, string>): Result<seq<Token>, string> {
    match r
    case Ok(ts) => Ok(toks + ts)
    case Err(e) => Err(e)
  }

  /** Collects every item of a fresh cursor over src into one result: the
      token sequence, or the first error item. */
  method Collect(src: string) returns (r: Result<seq<Token>, string>)
    ensures r == Tokenize(src, 0)
  {
    var cursor := new LexerCursor(src);
    var toks: seq<Token> := [];
    PrependNothing(Tokenize(src, 0));
    while true
      invariant cursor.Valid() && cursor.src == src
      invariant Tokenize(src, 0) == Prepend(toks, Tokenize(src, cursor.position))
      decreases |src| - cursor.position
    {
      ghost var p := cursor.position;
      var item := cursor.Next();
      match item {
        case None =>
          assert toks + [] == toks;
          return Ok(toks);
        case Some(Err(e)) =>
          return Err(e);
        case Some(Ok(t)) =>
          assert Tokenize(src, p) == Prepend([t], Tokenize(src, cursor.position));
          PrependTwice(toks, t, Tokenize(src, cursor.position));
          toks := toks + [t];
      }
    }
  }

  lemma PrependNothing(r: Result<seq<Token>, string>)
    ensures Prepend([], r) == r
  {
    if r.Ok? {
      assert [] + r.value == r.value;
    }
  }

  lemma PrependTwice(toks: seq<Token>, t: Token, r: Result<seq<Token>, string>)
    ensures Prepend(toks, Prepend([t], r)) == Prepend(toks + [t], r)
  {
    if r.Ok? {
      assert toks + ([t] + r.value) == (toks + [t]) + r.value;
    }
  }

  /** Lexing then tree building: a lexer error is reported before any
      bracket is looked at. */
  function FrontEnd(src: string): (r: Result<seq<TokenTree>, string>)
    ensures Tokenize(src, 0).Err? ==> r == Err(Tokenize(src, 0).error)
    ensures r.Ok? ==> |r.value| <= |src|
  {
    match Tokenize(src, 0)
    case Err(e) => Err(e)
    case Ok(toks) => ParseFromTokens(toks)
  }

  /** The front end succeeds exactly when lexing succeeds and the tokens are
      well bracketed, and then the trees flatten back to the tokens. */
  lemma FrontEndOutcome(src: string)
    ensures FrontEnd(src).Ok? <==> Tokenize(src, 0).Ok? && WellBracketed(Tokenize(src, 0).value)
    ensures FrontEnd(src).Ok? ==> FlattenTrees(FrontEnd(src).value) == EraseAll(Tokenize(src, 0).value)
  {
    if Tokenize(src, 0).Ok? {
      BuildSucceedsIffWellBracketed(Tokenize(src, 0).value);
      if FrontEnd(src).Ok? {
        BuildFlattensBack(Tokenize(src, 0).value);
      }
    }
  }

  /** An opening bracket with no closer is reported at the opener's position. */
  lemma UnclosedExample()
    ensures FrontEnd("(a") == Err("Unclosed bracket starting at line 1, column 1")
  {
    var toks := [Token(LParen, (1, 1)), Token(TokenKind.Identifier("a"), (1, 2))];
    LexParenA(toks);
    BuildParenA(toks);
  }

  lemma LexParenA(toks: seq<Token>)
    requires toks == [Token(LParen, (1, 1)), Token(TokenKind.Identifier("a"), (1, 2))]
    ensures Tokenize("(a", 0) == Ok(toks)
  {
    var src := "(a";
    assert ScanWhile(src, 0, IsWhitespace) == 0;
    assert src[..1] == "(";
    assert NextToken(src, 0) == Lexed(Some(Ok(toks[0])), 1);
    assert ScanWhile(src, 1, IsWhitespace) == 1;
    assert ScanWhile(src, 2, IsWordChar) == 2;
    assert src[1..2] == "a";
    assert src[..2] == "(a";
    assert NextToken(src, 1) == Lexed(Some(Ok(toks[1])), 2);
    assert NextToken(src, 2) == Lexed(None, 2);
    assert Tokenize(src, 2) == Ok([]);
    assert [toks[1]] + [] == [toks[1]];
    assert Tokenize(src, 1) == Ok([toks[1]]);
    assert [toks[0]] + [toks[1]] == toks;
  }

  lemma BuildParenA(toks: seq<Token>)
    requires toks == [Token(LParen, (1, 1)), Token(TokenKind.Identifier("a"), (1, 2))]
    ensures ParseFromTokens(toks) == Err("Unclosed bracket starting at line 1, column 1")
  {
    var leaf := TokenTree(TokenTreeKind.Identifier("a"), (1, 2));
    assert TokenToTree(toks, 1) == Ok((leaf, 2));
    assert NatToString(1) == "1";
    assert AtLineColumn((1, 1)) == " at line 1, column 1";
    assert "Unclosed bracket starting" + " at line 1, column 1" == "Unclosed bracket starting at line 1, column 1";
    assert ParseGroup(Parens, toks[0], toks, 2, [leaf]) == Err("Unclosed bracket starting at line 1, column 1");
    assert [] + [leaf] == [leaf];
    assert ParseGroup(Parens, toks[0], toks, 1, []) == Err("Unclosed bracket starting at line 1, column 1");
    assert TokenToTree(toks, 0) == Err("Unclosed bracket starting at line 1, column 1");
  }
}
