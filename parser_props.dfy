/** What the parser promises: how far each statement reads, which message
    each malformed `be` statement reports and where, what a well-formed one
    builds, where statement positions come from, and that rendering `be`
    statements as trees and parsing them back gives the same statements. */
module ParserProps {
  import opened Common
  import L = LexerTypes
  import opened TokenTrees
  import opened Ast
  import opened Parsing

  // ---------------------------------------------------------------------
  // The `be` statement read off the stream by index

  /** Index of the tree where a `be` statement's identifier is expected:
      right after `be`, or after `mut` when `mut` follows `be`. */
  function IdentSlot(s: seq<TokenTree>): (k: nat)
    ensures k == 1 || k == 2
    ensures k == 2 <==> |s| > 1 && s[1].kind.Mut?
  {
    if |s| > 1 && s[1].kind.Mut? then 2 else 1
  }

  /** The stage after `be`: with the identifier missing the statement stops
      there, otherwise it goes on after the identifier. */
  lemma BeStage(s: seq<TokenTree>, k: nat)
    requires s != [] && k == IdentSlot(s)
    ensures !(k < |s| && s[k].kind.Identifier?) ==>
      BeSpec(s) == Step(None, s[k..], ["Expected identifier after 'be'" + AtLineColumn(s[0].pos)])
    ensures k < |s| && s[k].kind.Identifier? ==>
      BeSpec(s) == BeEqualsSpec(s[0].pos, k == 2, Ident(s[k].kind.name, s[k].pos), s[k + 1..])
  {
    if k == 2 {
      assert s[1..][1..] == s[2..];
    }
    if k < |s| && s[k].kind.Identifier? {
      assert s[k..][1..] == s[k + 1..];
    }
  }

  /** The stage after the identifier, for every shape of what follows it. */
  lemma EqualsStage(pos: Position, isMut: bool, ident: Ident, t: seq<TokenTree>)
    ensures !(t != [] && IsEqualOp(t[0])) ==>
      BeEqualsSpec(pos, isMut, ident, t) == Step(None, t, ["Expected '=' after identifier" + AtLineColumn(ident.pos)])
    ensures |t| == 1 && IsEqualOp(t[0]) ==>
      BeEqualsSpec(pos, isMut, ident, t) == Step(None, [], ["Unexpected EOF"])
    ensures |t| >= 2 && IsEqualOp(t[0]) && !t[1].kind.Identifier? ==>
      BeEqualsSpec(pos, isMut, ident, t)
        == Step(None, t[1..], ["Unexpected token '" + DebugKind(t[1].kind) + "'" + AtLineColumn(t[1].pos)])
    ensures |t| >= 2 && IsEqualOp(t[0]) && t[1].kind.Identifier? ==>
      BeEqualsSpec(pos, isMut, ident, t)
        == BeSemicolonSpec(pos, isMut, ident, IdentExpr(Ident(t[1].kind.name, t[1].pos)), t[2..])
  {
    if |t| >= 2 {
      assert t[1..][1..] == t[2..];
    }
  }

  /** With `be` in front, the statement is the `be` statement lifted. */
  lemma BeFront(s: seq<TokenTree>)
    requires s != [] && s[0].kind.Be?
    ensures var b := BeSpec(s);
      StatementSpec(s) == Step(if b.result.Some? then Some(Statement.Be(b.result.value)) else None, b.rest, b.errs)
  {
  }

  /** A missing identifier after `be` (or after `be mut`) is reported at
      the `be` tree's position; `mut` is consumed and the offending tree is
      left unread. */
  lemma BeMissingIdentifier(s: seq<TokenTree>, k: nat)
    requires s != [] && s[0].kind.Be? && k == IdentSlot(s)
    requires !(k < |s| && s[k].kind.Identifier?)
    ensures StatementSpec(s) == Step(None, s[k..], ["Expected identifier after 'be'" + AtLineColumn(s[0].pos)])
  {
    BeFront(s);
    BeStage(s, k);
  }

  /** A missing `=` after the identifier is reported at the identifier's
      position, and the tree in its place is left unread. */
  lemma BeMissingEquals(s: seq<TokenTree>, k: nat)
    requires s != [] && s[0].kind.Be? && k == IdentSlot(s)
    requires k < |s| && s[k].kind.Identifier?
    requires !(k + 1 < |s| && IsEqualOp(s[k + 1]))
    ensures StatementSpec(s) == Step(None, s[k + 1..], ["Expected '=' after identifier" + AtLineColumn(s[k].pos)])
  {
    BeFront(s);
    BeStage(s, k);
    EqualsStage(s[0].pos, k == 2, Ident(s[k].kind.name, s[k].pos), s[k + 1..]);
  }

  /** A stream that ends right after `=` is an "Unexpected EOF" for the value. */
  lemma BeValueAtEnd(s: seq<TokenTree>, k: nat)
    requires s != [] && s[0].kind.Be? && k == IdentSlot(s)
    requires k + 2 == |s| && s[k].kind.Identifier? && IsEqualOp(s[k + 1])
    ensures StatementSpec(s) == Step(None, [], ["Unexpected EOF"])
  {
    BeFront(s);
    BeStage(s, k);
    EqualsStage(s[0].pos, k == 2, Ident(s[k].kind.name, s[k].pos), s[k + 1..]);
  }

  /** A value that is not an identifier is an "Unexpected token" at its own
      position, rendered with its kind, and it is left unread. */
  lemma BeValueNotIdentifier(s: seq<TokenTree>, k: nat)
    requires s != [] && s[0].kind.Be? && k == IdentSlot(s)
    requires k + 2 < |s| && s[k].kind.Identifier? && IsEqualOp(s[k + 1])
    requires !s[k + 2].kind.Identifier?
    ensures StatementSpec(s)
      == Step(None, s[k + 2..], ["Unexpected token '" + DebugKind(s[k + 2].kind) + "'" + AtLineColumn(s[k + 2].pos)])
  {
    BeFront(s);
    BeStage(s, k);
    var t := s[k + 1..];
    EqualsStage(s[0].pos, k == 2, Ident(s[k].kind.name, s[k].pos), t);
    assert t[1..] == s[k + 2..];
  }

  /** A missing `;` after the value is reported at the value's position,
      and the tree in its place is left unread. */
  lemma BeMissingSemicolon(s: seq<TokenTree>, k: nat)
    requires s != [] && s[0].kind.Be? && k == IdentSlot(s)
    requires k + 2 < |s| && s[k].kind.Identifier? && IsEqualOp(s[k + 1]) && s[k + 2].kind.Identifier?
    requires !(k + 3 < |s| && s[k + 3].kind.SemiColon?)
    ensures StatementSpec(s) == Step(None, s[k + 3..], ["Expected ';' after expression" + AtLineColumn(s[k + 2].pos)])
  {
    BeFront(s);
    BeStage(s, k);
    var t := s[k + 1..];
    EqualsStage(s[0].pos, k == 2, Ident(s[k].kind.name, s[k].pos), t);
    assert t[2..] == s[k + 3..];
  }

  /** A well-formed `be` statement is built with the `be` position, the
      identifier's text and position, the value identifier, and is_mut set
      exactly when `mut` follows `be`; the trees after `;` are left unread
      and no message is added. */
  lemma BeParsed(s: seq<TokenTree>, k: nat)
    requires s != [] && s[0].kind.Be? && k == IdentSlot(s)
    requires k + 3 < |s| && s[k].kind.Identifier? && IsEqualOp(s[k + 1])
    requires s[k + 2].kind.Identifier? && s[k + 3].kind.SemiColon?
    ensures StatementSpec(s).errs == [] && StatementSpec(s).rest == s[k + 4..]
    ensures StatementSpec(s).result == Some(Statement.Be(BeStatement(
      Ident(s[k].kind.name, s[k].pos),
      IdentExpr(Ident(s[k + 2].kind.name, s[k + 2].pos)),
      |s| > 1 && s[1].kind.Mut?,
      s[0].pos)))
  {
    BeFront(s);
    BeStage(s, k);
    var t := s[k + 1..];
    EqualsStage(s[0].pos, k == 2, Ident(s[k].kind.name, s[k].pos), t);
    assert t[2..] == s[k + 3..];
    assert s[k + 3..][1..] == s[k + 4..];
  }

  /** Any other front tree is consumed alone and reported as not yet
      implemented, and nothing is built. */
  lemma NonBeStatement(s: seq<TokenTree>)
    requires s != [] && !s[0].kind.Be?
    ensures StatementSpec(s) == Step(None, s[1..], ["Not yet implemented"])
  {
  }

  // ---------------------------------------------------------------------
  // How much a statement reads, and how many messages it adds

  /** A statement reads some trees from the front of a non-empty stream,
      at least one, and leaves the rest untouched. */
  lemma StatementConsumesPrefix(s: seq<TokenTree>)
    requires s != []
    ensures IsSuffix(StatementSpec(s).rest, s) && |StatementSpec(s).rest| < |s|
  {
    if s[0].kind.Be? {
      BeFront(s);
      BeConsumesPrefix(s);
    } else {
      SuffixOfSlice(s, 1);
    }
  }

  lemma BeConsumesPrefix(s: seq<TokenTree>)
    requires s != []
    ensures IsSuffix(BeSpec(s).rest, s) && |BeSpec(s).rest| < |s|
  {
    var k := IdentSlot(s);
    BeStage(s, k);
    SuffixOfSlice(s, k);
    if k < |s| && s[k].kind.Identifier? {
      var t := s[k + 1..];
      SuffixOfSlice(s, k + 1);
      EqualsConsumesPrefix(s[0].pos, k == 2, Ident(s[k].kind.name, s[k].pos), t);
      SuffixOfSuffix(BeSpec(s).rest, t, s);
    }
  }

  lemma EqualsConsumesPrefix(pos: Position, isMut: bool, ident: Ident, t: seq<TokenTree>)
    ensures IsSuffix(BeEqualsSpec(pos, isMut, ident, t).rest, t)
  {
    if t != [] && IsEqualOp(t[0]) {
      var ex := ExpressionSpec(t[1..]);
      SuffixOfSlice(t, 1);
      if ex.rest != t[1..] {
        SuffixOfSlice(t[1..], 1);
        SuffixOfSuffix(ex.rest, t[1..], t);
      }
      if ex.result.Some? {
        var r := BeSemicolonSpec(pos, isMut, ident, ex.result.value, ex.rest).rest;
        if r != ex.rest {
          SuffixOfSlice(ex.rest, 1);
          SuffixOfSuffix(r, ex.rest, t);
        }
      }
    }
  }

  lemma SuffixOfSlice(s: seq<TokenTree>, i: nat)
    requires i <= |s|
    ensures IsSuffix(s[i..], s)
  {
  }

  /** A statement is built exactly when it adds no message, and it never
      adds more than one. */
  lemma StatementMessages(s: seq<TokenTree>)
    ensures StatementSpec(s).result.Some? <==> StatementSpec(s).errs == []
    ensures |StatementSpec(s).errs| <= 1
  {
    if s != [] && s[0].kind.Be? {
      var k := IdentSlot(s);
      BeFront(s);
      BeStage(s, k);
      if k < |s| && s[k].kind.Identifier? {
        EqualsStage(s[0].pos, k == 2, Ident(s[k].kind.name, s[k].pos), s[k + 1..]);
      }
    }
  }

  /** A statement built from a non-empty stream is a `be` statement at
      the front tree's position. */
  lemma BuiltAtFront(s: seq<TokenTree>)
    requires s != []
    ensures StatementSpec(s).result.Some? ==>
      s[0].kind.Be? && StatementSpec(s).result.value.Be? && StatementSpec(s).result.value.Pos() == s[0].pos
  {
    if s[0].kind.Be? {
      var k := IdentSlot(s);
      BeFront(s);
      BeStage(s, k);
      if k < |s| && s[k].kind.Identifier? {
        EqualsStage(s[0].pos, k == 2, Ident(s[k].kind.name, s[k].pos), s[k + 1..]);
      }
    }
  }

  // ---------------------------------------------------------------------
  // The statement list

  /** The statement list has one message for each statement that was not
      built: no statement is dropped silently. */
  lemma {:induction false} ProgramMessages(s: seq<TokenTree>)
    ensures |ProgramSpec(s).errs| == Attempts(s) - |ProgramSpec(s).statements|
    decreases |s|
  {
    if s != [] {
      var st := StatementSpec(s);
      StatementMessages(s);
      ProgramMessages(st.rest);
    }
  }

  /** How many statements the loop tries: one per iteration until the
      stream is empty. */
  function Attempts(s: seq<TokenTree>): (n: nat)
    ensures n <= |s|
    ensures s != [] ==> n >= 1
    decreases |s|
  {
    if s == [] then 0 else 1 + Attempts(StatementSpec(s).rest)
  }

  /** Every statement built carries the position of a `be` tree of the input. */
  lemma {:induction false} StatementPositionsFromBe(s: seq<TokenTree>)
    ensures forall st :: st in ProgramSpec(s).statements ==>
      st.Be? && exists i :: 0 <= i < |s| && s[i].kind.Be? && s[i].pos == st.Pos()
    decreases |s|
  {
    if s != [] {
      var step := StatementSpec(s);
      var more := ProgramSpec(step.rest);
      StatementConsumesPrefix(s);
      StatementPositionsFromBe(step.rest);
      var d := |s| - |step.rest|;
      forall st | st in ProgramSpec(s).statements
        ensures st.Be? && exists i :: 0 <= i < |s| && s[i].kind.Be? && s[i].pos == st.Pos()
      {
        if st in Built(step.result) {
          BuiltAtFront(s);
        } else {
          assert st in more.statements;
          var j :| 0 <= j < |step.rest| && step.rest[j].kind.Be? && step.rest[j].pos == st.Pos();
          assert s[d + j] == step.rest[j];
        }
      }
    }
  }

  // ---------------------------------------------------------------------
  // Rendering `be` statements as trees, and parsing them back

  /** A `be` statement the parser can build: its value is an identifier. */
  predicate Renderable(b: BeStatement) {
    b.value.IdentExpr?
  }

  /** The trees of a `be` statement: `be`, `mut` when set, the identifier,
      `=`, the value identifier and `;`. The `mut`, `=` and `;` trees take
      the position of the tree before them. */
  function RenderBe(b: BeStatement): (ts: seq<TokenTree>)
    requires Renderable(b)
    ensures |ts| == if b.isMut then 6 else 5
    ensures ts[0] == TokenTree(TokenTreeKind.Be, b.pos)
  {
    [TokenTree(TokenTreeKind.Be, b.pos)]
      + (if b.isMut then [TokenTree(Mut, b.pos)] else [])
      + [ TokenTree(Identifier(b.ident.name), b.ident.pos),
          TokenTree(Op(L.Equal), b.ident.pos),
          TokenTree(Identifier(b.value.ident.name), b.value.ident.pos),
          TokenTree(SemiColon, b.value.ident.pos) ]
  }

  /** A rendered `be` statement parses back to itself, with no message,
      and whatever follows it is left unread. */
  lemma RenderThenParse(b: BeStatement, rest: seq<TokenTree>)
    requires Renderable(b)
    ensures StatementSpec(RenderBe(b) + rest) == Step(Some(Statement.Be(b)), rest, [])
  {
    var s := RenderBe(b) + rest;
    var k := IdentSlot(s);
    assert k == if b.isMut then 2 else 1;
    assert s[k] == TokenTree(Identifier(b.ident.name), b.ident.pos);
    assert s[k + 1] == TokenTree(Op(L.Equal), b.ident.pos);
    assert s[k + 2] == TokenTree(Identifier(b.value.ident.name), b.value.ident.pos);
    assert s[k + 3] == TokenTree(SemiColon, b.value.ident.pos);
    BeParsed(s, k);
    assert s[k + 4..] == rest;
  }

  /** All the statements' trees, one after the other. */
  function RenderAll(bs: seq<BeStatement>): seq<TokenTree>
    requires forall i :: 0 <= i < |bs| ==> Renderable(bs[i])
  {
    if bs == [] then [] else RenderBe(bs[0]) + RenderAll(bs[1..])
  }

  function AsStatements(bs: seq<BeStatement>): (r: seq<Statement>)
    ensures |r| == |bs|
    ensures forall i :: 0 <= i < |bs| ==> r[i] == Statement.Be(bs[i])
  {
    if bs == [] then [] else [Statement.Be(bs[0])] + AsStatements(bs[1..])
  }

  /** Parsing rendered statements gives them all back, in order, with no
      message. */
  lemma {:induction false} ProgramRoundTrip(bs: seq<BeStatement>)
    requires forall i :: 0 <= i < |bs| ==> Renderable(bs[i])
    ensures ProgramSpec(RenderAll(bs)) == Parsed(AsStatements(bs), [])
  {
    if bs != [] {
      var s := RenderAll(bs);
      RenderThenParse(bs[0], RenderAll(bs[1..]));
      ProgramRoundTrip(bs[1..]);
      assert ProgramSpec(s).statements == [Statement.Be(bs[0])] + AsStatements(bs[1..]);
    }
  }
}
