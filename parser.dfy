/** The recursive-descent parser over the token-tree stream.

    Each parse step is specified by a function of the trees still unread:
    it gives the node built (if any), the trees left unread, and the error
    messages the step appends. The `Parser` class holds the stream and the
    error list, and each of its methods is proved to follow its function. */
module Parsing {
  import opened Common
  import L = LexerTypes
  import opened TokenTrees
  import opened Ast

  /** The outcome of one parse step: the node, the unread trees, and the
      messages appended to the error list. */
  datatype Step<T> = Step(result: Option<T>, rest: seq<TokenTree>, errs: seq<string>)

  /** Every parse of a statement list: the statements built, in order, and all messages. */
  datatype Parsed = Parsed(statements: seq<Statement>, errs: seq<string>)

  /** r is what is left of s after dropping some trees from its front. */
  predicate IsSuffix(r: seq<TokenTree>, s: seq<TokenTree>) {
    |r| <= |s| && r == s[|s| - |r|..]
  }

  lemma SuffixOfSuffix(a: seq<TokenTree>, b: seq<TokenTree>, c: seq<TokenTree>)
    requires IsSuffix(a, b) && IsSuffix(b, c)
    ensures IsSuffix(a, c)
  {
    assert c[|c| - |b|..][|b| - |a|..] == c[|c| - |a|..];
  }

  predicate IsIdentifier(t: TokenTree) { t.kind.Identifier? }
  predicate IsEqualOp(t: TokenTree) { t.kind == Op(L.Equal) }

  /** Looking at the front tree: on an empty stream, "Unexpected EOF". */
  function PeekSpec(s: seq<TokenTree>): (r: Step<TokenTree>)
    ensures r.rest == s
    ensures s == [] <==> r.result.None?
    ensures s == [] ==> r.errs == ["Unexpected EOF"]
    ensures s != [] ==> r.result == Some(s[0]) && r.errs == []
  {
    if s == [] then Step(None, s, ["Unexpected EOF"]) else Step(Some(s[0]), s, [])
  }

  /** An identifier: takes the front tree whatever it is; an empty stream
      gives nothing and no message. */
  function IdentSpec(s: seq<TokenTree>): (r: Step<Ident>)
    ensures s == [] ==> r.rest == []
    ensures s != [] ==> r.rest == s[1..]
  {
    if s == [] then Step(None, s, [])
    else
      var t := s[0];
      if t.kind.Identifier? then Step(Some(Ident(t.kind.name, t.pos)), s[1..], [])
      else Step(None, s[1..], ["Expected identifier, found '" + DebugKind(t.kind) + "'" + AtLineColumn(t.pos)])
  }

  /** An expression: only an identifier is accepted; any other front tree
      is reported and left unread. */
  function ExpressionSpec(s: seq<TokenTree>): (r: Step<Expression>)
    ensures r.rest == s || (s != [] && r.rest == s[1..])
  {
    var peeked := PeekSpec(s);
    if peeked.result.None? then Step(None, s, peeked.errs)
    else
      var t := peeked.result.value;
      if IsIdentifier(t) then
        var ident := IdentSpec(s);
        Step(Some(IdentExpr(ident.result.value)), ident.rest, ident.errs)
      else
        Step(None, s, ["Unexpected token '" + DebugKind(t.kind) + "'" + AtLineColumn(t.pos)])
  }

  /** `be [mut] ident = expression ;`, called with the `be` tree in front:
      an optional `mut` is taken, then the identifier is required. */
  function BeSpec(s: seq<TokenTree>): (r: Step<BeStatement>)
    requires s != []
    ensures |r.rest| < |s|
  {
    var pos := s[0].pos;
    var s1 := s[1..];
    var isMut := s1 != [] && s1[0].kind.Mut?;
    var s2 := if isMut then s1[1..] else s1;
    if !(s2 != [] && IsIdentifier(s2[0])) then
      Step(None, s2, ["Expected identifier after 'be'" + AtLineColumn(pos)])
    else
      var id := IdentSpec(s2);
      BeEqualsSpec(pos, isMut, id.result.value, id.rest)
  }

  /** After the identifier, `=` is required. */
  function BeEqualsSpec(pos: Position, isMut: bool, ident: Ident, s: seq<TokenTree>): (r: Step<BeStatement>)
    ensures |r.rest| <= |s|
  {
    if !(s != [] && IsEqualOp(s[0])) then
      Step(None, s, ["Expected '=' after identifier" + AtLineColumn(ident.pos)])
    else
      var ex := ExpressionSpec(s[1..]);
      if ex.result.None? then Step(None, ex.rest, ex.errs)
      else BeSemicolonSpec(pos, isMut, ident, ex.result.value, ex.rest)
  }

  /** After the value expression, `;` is required, and then the statement is built. */
  function BeSemicolonSpec(pos: Position, isMut: bool, ident: Ident, value: Expression, s: seq<TokenTree>)
    : (r: Step<BeStatement>)
    ensures |r.rest| <= |s|
  {
    if !(s != [] && s[0].kind.SemiColon?) then
      Step(None, s, ["Expected ';' after expression" + AtLineColumn(value.Pos())])
    else
      Step(Some(BeStatement(ident, value, isMut, pos)), s[1..], [])
  }

  /** One statement: a `be` statement, or for any other front tree that
      tree is consumed and reported as not yet implemented. Whatever the
      input, a non-empty stream loses at least its front tree, and what is
      left is a suffix of it. */
  function StatementSpec(s: seq<TokenTree>): (r: Step<Statement>)
    ensures s != [] ==> |r.rest| < |s|
    ensures s == [] ==> r == Step(None, [], ["Unexpected EOF"])
  {
    var peeked := PeekSpec(s);
    if peeked.result.None? then Step(None, s, peeked.errs)
    else if peeked.result.value.kind.Be? then
      var b := BeSpec(s);
      Step(if b.result.Some? then Some(Statement.Be(b.result.value)) else None, b.rest, b.errs)
    else
      Step(None, s[1..], ["Not yet implemented"])
  }

  /** The node a step built, as a sequence of zero or one statements. */
  function Built(r: Option<Statement>): seq<Statement> {
    if r.Some? then [r.value] else []
  }

  /** The statement list: statements are parsed until the stream is empty,
      the built ones kept in input order. */
  function ProgramSpec(s: seq<TokenTree>): (r: Parsed)
    ensures |r.statements| <= |s|
    decreases |s|
  {
    if s == [] then Parsed([], [])
    else
      var st := StatementSpec(s);
      var more := ProgramSpec(st.rest);
      Parsed(Built(st.result) + more.statements, st.errs + more.errs)
  }

  /** The parser: the trees still unread, front first, and the messages so far. */
  class Parser {
    var stream: seq<TokenTree>
    var errors: seq<string>

    constructor (trees: seq<TokenTree>)
      ensures stream == trees && errors == []
    {
      stream := trees;
      errors := [];
    }

    method PeekToken() returns (t: Option<TokenTree>)
      modifies this
      ensures t == PeekSpec(old(stream)).result
      ensures stream == old(stream)
      ensures errors == old(errors) + PeekSpec(old(stream)).errs
    {
      if stream == [] {
        errors := errors + ["Unexpected EOF"];
        return None;
      }
      t := Some(stream[0]);
    }

    method ParseIdent() returns (ident: Option<Ident>)
      modifies this
      ensures ident == IdentSpec(old(stream)).result
      ensures stream == IdentSpec(old(stream)).rest
      ensures errors == old(errors) + IdentSpec(old(stream)).errs
    {
      if stream == [] {
        return None;
      }
      var token := stream[0];
      stream := stream[1..];
      if token.kind.Identifier? {
        ident := Some(Ident(token.kind.name, token.pos));
      } else {
        errors := errors + ["Expected identifier, found '" + DebugKind(token.kind) + "'" + AtLineColumn(token.pos)];
        ident := None;
      }
    }

    method ParseExpression() returns (expr: Option<Expression>)
      modifies this
      ensures expr == ExpressionSpec(old(stream)).result
      ensures stream == ExpressionSpec(old(stream)).rest
      ensures errors == old(errors) + ExpressionSpec(old(stream)).errs
    {
      var peeked := PeekToken();
      if peeked.None? {
        return None;
      }
      var t := peeked.value;
      if IsIdentifier(t) {
        var ident := ParseIdent();
        expr := Some(IdentExpr(ident.value));
      } else {
        errors := errors + ["Unexpected token '" + DebugKind(t.kind) + "'" + AtLineColumn(t.pos)];
        expr := None;
      }
    }

    method ParseBeStatement() returns (stmt: Option<BeStatement>)
      requires stream != []
      modifies this
      ensures stmt == BeSpec(old(stream)).result
      ensures stream == BeSpec(old(stream)).rest
      ensures errors == old(errors) + BeSpec(old(stream)).errs
    {
      ghost var s0 := stream;
      var pos := stream[0].pos;
      stream := stream[1..];
      var isMut := false;
      if stream != [] && stream[0].kind.Mut? {
        stream := stream[1..];
        isMut := true;
      }
      if !(stream != [] && IsIdentifier(stream[0])) {
        assert BeSpec(s0) == Step(None, stream, ["Expected identifier after 'be'" + AtLineColumn(pos)]);
        errors := errors + ["Expected identifier after 'be'" + AtLineColumn(pos)];
        return None;
      }
      ghost var s2 := stream;
      var ident := ParseIdent();
      assert BeSpec(s0) == BeEqualsSpec(pos, isMut, IdentSpec(s2).result.value, IdentSpec(s2).rest);
      stmt := ParseBeRest(pos, isMut, ident.value);
    }

    /** The part of a `be` statement after its identifier. */
    method ParseBeRest(pos: Position, isMut: bool, ident: Ident) returns (stmt: Option<BeStatement>)
      modifies this
      ensures stmt == BeEqualsSpec(pos, isMut, ident, old(stream)).result
      ensures stream == BeEqualsSpec(pos, isMut, ident, old(stream)).rest
      ensures errors == old(errors) + BeEqualsSpec(pos, isMut, ident, old(stream)).errs
    {
      if !(stream != [] && IsEqualOp(stream[0])) {
        errors := errors + ["Expected '=' after identifier" + AtLineColumn(ident.pos)];
        return None;
      }
      stream := stream[1..];
      var value := ParseExpression();
      if value.None? {
        return None;
      }
      if !(stream != [] && stream[0].kind.SemiColon?) {
        errors := errors + ["Expected ';' after expression" + AtLineColumn(value.value.Pos())];
        return None;
      }
      stream := stream[1..];
      stmt := Some(BeStatement(ident, value.value, isMut, pos));
    }

    method ParseStatement() returns (stmt: Option<Statement>)
      modifies this
      ensures stmt == StatementSpec(old(stream)).result
      ensures stream == StatementSpec(old(stream)).rest
      ensures errors == old(errors) + StatementSpec(old(stream)).errs
    {
      ghost var s0 := stream;
      var peeked := PeekToken();
      if peeked.None? {
        return None;
      }
      if peeked.value.kind.Be? {
        ghost var b0 := BeSpec(s0);
        assert StatementSpec(s0) == Step(if b0.result.Some? then Some(Statement.Be(b0.result.value)) else None, b0.rest, b0.errs);
        var b := ParseBeStatement();
        if b.None? {
          return None;
        }
        stmt := Some(Statement.Be(b.value));
      } else {
        stream := stream[1..];
        errors := errors + ["Not yet implemented"];
        stmt := None;
      }
    }

    /** Parses statements until the stream is empty. */
    method ParseProgram() returns (root: seq<Statement>)
      modifies this
      ensures root == ProgramSpec(old(stream)).statements
      ensures stream == []
      ensures errors == old(errors) + ProgramSpec(old(stream)).errs
    {
      root := [];
      ghost var s0 := stream;
      ghost var e0 := errors;
      while stream != []
        invariant root + ProgramSpec(stream).statements == ProgramSpec(s0).statements
        invariant errors + ProgramSpec(stream).errs == e0 + ProgramSpec(s0).errs
        decreases |stream|
      {
        ProgramStep(stream, root, errors);
        var stmt := ParseStatement();
        root := root + Built(stmt);
      }
    }
  }

  /** One turn of the statement loop, stated for whatever was built and
      reported before it. */
  lemma ProgramStep(s: seq<TokenTree>, root: seq<Statement>, errs: seq<string>)
    requires s != []
    ensures root + ProgramSpec(s).statements
      == (root + Built(StatementSpec(s).result)) + ProgramSpec(StatementSpec(s).rest).statements
    ensures errs + ProgramSpec(s).errs
      == (errs + StatementSpec(s).errs) + ProgramSpec(StatementSpec(s).rest).errs
  {
    var step := StatementSpec(s);
    var more := ProgramSpec(step.rest);
    assert ProgramSpec(s) == Parsed(Built(step.result) + more.statements, step.errs + more.errs);
    AppendAssoc(root, Built(step.result), more.statements);
    AppendAssoc(errs, step.errs, more.errs);
  }

  lemma AppendAssoc<T>(a: seq<T>, b: seq<T>, c: seq<T>)
    ensures a + (b + c) == (a + b) + c
  {
  }
}
