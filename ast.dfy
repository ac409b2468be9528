/** The syntax tree the parser builds, the position of each node, and the
    Debug rendering of each node, which leaves every position out. */
module Ast {
  import opened Common

  /** A float literal is kept as its source text, as in the token stream. */
  datatype Literal =
    | Int(i: I64)
    | Float(literal: string)
    | Bool(b: bool)
    | Str(s: string)

  datatype Ident = Ident(name: string, pos: Position)

  datatype LiteralExpr = LiteralExpr(value: Literal, pos: Position)

  datatype Expression =
    | IdentExpr(ident: Ident)
    | LiteralExpression(lit: LiteralExpr)
  {
    /** The position of the identifier or literal inside. */
    function Pos(): Position {
      match this
      case IdentExpr(ident) => ident.pos
      case LiteralExpression(lit) => lit.pos
    }
  }

  datatype BeStatement = BeStatement(ident: Ident, value: Expression, isMut: bool, pos: Position)

  datatype ReturnStatement = ReturnStatement(value: Expression, pos: Position)

  datatype ExpressionStatement = ExpressionStatement(expr: Expression, pos: Position)

  datatype Statement =
    | Be(be: BeStatement)
    | Return(ret: ReturnStatement)
    | ExpressionStmt(stmt: ExpressionStatement)
  {
    /** The position of the statement inside. */
    function Pos(): Position {
      match this
      case Be(b) => b.pos
      case Return(r) => r.pos
      case ExpressionStmt(e) => e.pos
    }
  }

  /** Statement and expression positions are the stored positions of the node they wrap. */
  lemma PosOfWrappedNode(b: BeStatement, r: ReturnStatement, e: ExpressionStatement, i: Ident, l: LiteralExpr)
    ensures Be(b).Pos() == b.pos && Return(r).Pos() == r.pos && ExpressionStmt(e).Pos() == e.pos
    ensures IdentExpr(i).Pos() == i.pos && LiteralExpression(l).Pos() == l.pos
  {
  }

  // ---------------------------------------------------------------------
  // Debug rendering

  function DebugLiteral(l: Literal): string {
    match l
    case Int(i) => "Int(" + IntToString(i) + ")"
    case Float(f) => "Float(" + f + ")"
    case Bool(b) => "Bool(" + DebugBool(b) + ")"
    case Str(s) => "Str(" + DebugString(s) + ")"
  }

  function DebugIdent(i: Ident): string {
    "Ident { name: " + DebugString(i.name) + " }"
  }

  function DebugLiteralExpr(l: LiteralExpr): string {
    "LiteralExpr { value: " + DebugLiteral(l.value) + " }"
  }

  function DebugExpression(e: Expression): string {
    match e
    case IdentExpr(i) => "Ident(" + DebugIdent(i) + ")"
    case LiteralExpression(l) => "Literal(" + DebugLiteralExpr(l) + ")"
  }

  function DebugBeStatement(b: BeStatement): string {
    "BeStatement { ident: " + DebugIdent(b.ident) + ", value: " + DebugExpression(b.value)
      + ", is_mut: " + DebugBool(b.isMut) + " }"
  }

  function DebugStatement(s: Statement): string {
    match s
    case Be(b) => "Be(" + DebugBeStatement(b) + ")"
    case Return(r) => "Return(ReturnStatement { value: " + DebugExpression(r.value) + " })"
    case ExpressionStmt(e) => "Expression(ExpressionStatement { expr: " + DebugExpression(e.expr) + " })"
  }

  /** The same tree with every position set to (0, 0). */
  function StripExpression(e: Expression): (r: Expression)
    ensures r.Pos() == (0, 0)
  {
    match e
    case IdentExpr(i) => IdentExpr(Ident(i.name, (0, 0)))
    case LiteralExpression(l) => LiteralExpression(LiteralExpr(l.value, (0, 0)))
  }

  function StripStatement(s: Statement): (r: Statement)
    ensures r.Pos() == (0, 0)
  {
    match s
    case Be(b) => Be(BeStatement(Ident(b.ident.name, (0, 0)), StripExpression(b.value), b.isMut, (0, 0)))
    case Return(r) => Return(ReturnStatement(StripExpression(r.value), (0, 0)))
    case ExpressionStmt(e) => ExpressionStmt(ExpressionStatement(StripExpression(e.expr), (0, 0)))
  }

  /** Positions are not part of any node's Debug rendering: two statements
      that differ only in their positions render the same. */
  lemma DebugIgnoresPositions(s: Statement, t: Statement)
    requires StripStatement(s) == StripStatement(t)
    ensures DebugStatement(s) == DebugStatement(t)
  {
    match s
    case Be(b) =>
      assert StripExpression(b.value) == StripExpression(t.be.value);
      DebugExpressionIgnoresPositions(b.value, t.be.value);
    case Return(r) =>
      DebugExpressionIgnoresPositions(r.value, t.ret.value);
    case ExpressionStmt(e) =>
      DebugExpressionIgnoresPositions(e.expr, t.stmt.expr);
  }

  lemma DebugExpressionIgnoresPositions(e: Expression, f: Expression)
    requires StripExpression(e) == StripExpression(f)
    ensures DebugExpression(e) == DebugExpression(f)
  {
  }
}
