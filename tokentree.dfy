/** The bracket-grouping pass: folds the flat token sequence into token
    trees, where every bracketed region becomes one Group node.

    The builder reads the tokens left to right through a shared iterator;
    here the iterator is the index of the next unread token, and each step
    returns the tree it built together with the index it stopped at. */
module TokenTrees {
  import opened Common
  import L = LexerTypes

  datatype GroupMode = Parens | Curly | Bracket

  /** The token kinds, with the six bracket kinds replaced by Group. */
  datatype TokenTreeKind =
    | Be | Mut | If | Else | While | Fn | Return
    | Struct | Enum
    | Boolean(b: bool)
    | Comma | Colon | SemiColon
    | Group(mode: GroupMode, children: seq<TokenTree>)
    | Identifier(name: string)
    | String(text: string)
    | Integer(value: I64)
    | Float(literal: string)
    | Op(op: L.Op)

  datatype TokenTree = TokenTree(kind: TokenTreeKind, pos: Position)

  /** The mode a bracket token opens or closes; None for every other token. */
  function TokenToGroupMode(token: L.Token): (r: Option<GroupMode>)
    ensures r.Some? <==> token.kind.IsOpener() || token.kind.IsCloser()
  {
    match token.kind
    case RParen | LParen => Some(Parens)
    case RCurly | LCurly => Some(Curly)
    case RBracket | LBracket => Some(Bracket)
    case _ => None
  }

  /** Rust's Debug rendering of a group mode, and of an optional one. */
  function DebugGroupMode(m: GroupMode): string {
    match m
    case Parens => "Parens"
    case Curly => "Curly"
    case Bracket => "Bracket"
  }

  function DebugOptionMode(m: Option<GroupMode>): string {
    match m
    case None => "None"
    case Some(mode) => "Some(" + DebugGroupMode(mode) + ")"
  }

  /** Rust's Debug rendering of the three closing-bracket kinds. */
  function DebugCloser(k: L.TokenKind): string
    requires k.IsCloser()
  {
    match k
    case RParen => "RParen"
    case RCurly => "RCurly"
    case RBracket => "RBracket"
  }

  /** Builds the whole top-level sequence of trees, or fails on the first
      bracket error, with no partial result. */
  function ParseFromTokens(toks: seq<L.Token>): (r: Result<seq<TokenTree>, string>)
    ensures toks == [] ==> r == Ok([])
    ensures r.Ok? ==> |r.value| <= |toks|
  {
    ParseSeq(toks, 0, [])
  }

  /** The top-level loop: `acc` holds the trees built so far, and the
      tokens from index i on are still unread. */
  function ParseSeq(toks: seq<L.Token>, i: nat, acc: seq<TokenTree>): (r: Result<seq<TokenTree>, string>)
    requires i <= |toks|
    ensures r.Ok? ==> |acc| <= |r.value| <= |acc| + (|toks| - i)
    ensures r.Ok? ==> r.value[..|acc|] == acc
    decreases |toks| - i
  {
    if i == |toks| then Ok(acc)
    else
      match TokenToTree(toks, i)
      case Err(e) => Err(e)
      case Ok((t, j)) => ParseSeq(toks, j, acc + [t])
  }

  /** Builds the tree that starts with toks[i] and returns the index after
      its last token. A non-bracket token becomes a leaf of the same kind and
      position; an opening bracket starts a group; a closing bracket here has
      no group to close. */
  function TokenToTree(toks: seq<L.Token>, i: nat): (r: Result<(TokenTree, nat), string>)
    requires i < |toks|
    ensures r.Ok? ==> i < r.value.1 <= |toks|
    decreases |toks| - i, 1
  {
    var token := toks[i];
    match token.kind
    case Be => Ok((TokenTree(Be, token.pos), i + 1))
    case Mut => Ok((TokenTree(Mut, token.pos), i + 1))
    case If => Ok((TokenTree(If, token.pos), i + 1))
    case Else => Ok((TokenTree(Else, token.pos), i + 1))
    case While => Ok((TokenTree(While, token.pos), i + 1))
    case Fn => Ok((TokenTree(Fn, token.pos), i + 1))
    case Return => Ok((TokenTree(Return, token.pos), i + 1))
    case Struct => Ok((TokenTree(Struct, token.pos), i + 1))
    case Enum => Ok((TokenTree(Enum, token.pos), i + 1))
    case Boolean(b) => Ok((TokenTree(Boolean(b), token.pos), i + 1))
    case Comma => Ok((TokenTree(Comma, token.pos), i + 1))
    case Colon => Ok((TokenTree(Colon, token.pos), i + 1))
    case SemiColon => Ok((TokenTree(SemiColon, token.pos), i + 1))
    case LParen | LCurly | LBracket =>
      ParseGroup(TokenToGroupMode(token).value, token, toks, i + 1, [])
    case RParen | RCurly | RBracket =>
      Err("Unmatched closing bracket" + AtLineColumn(token.pos))
    case Identifier(s) => Ok((TokenTree(Identifier(s), token.pos), i + 1))
    case String(s) => Ok((TokenTree(String(s), token.pos), i + 1))
    case Integer(n) => Ok((TokenTree(Integer(n), token.pos), i + 1))
    case Float(f) => Ok((TokenTree(Float(f), token.pos), i + 1))
    case Op(op) => Ok((TokenTree(Op(op), token.pos), i + 1))
  }

  /** Collects the children of the group opened by `opening` until a
      closing bracket: one of the opener's mode finishes the group, tagged
      with the opener's mode and position; any other closer, or the end of
      the input, is an error. */
  function ParseGroup(mode: GroupMode, opening: L.Token, toks: seq<L.Token>, j: nat, children: seq<TokenTree>)
    : (r: Result<(TokenTree, nat), string>)
    requires j <= |toks|
    ensures r.Ok? ==> j < r.value.1 <= |toks|
    ensures r.Ok? ==> var t := r.value.0;
      && t.pos == opening.pos
      && t.kind.Group? && t.kind.mode == mode
    decreases |toks| - j, 2
  {
    var closingToken := TokenToGroupMode(opening);
    if j == |toks| then
      Err("Unclosed bracket starting" + AtLineColumn(opening.pos))
    else
      var token := toks[j];
      if token.kind.IsCloser() then
        if TokenToGroupMode(token) == closingToken then
          Ok((TokenTree(Group(mode, children), opening.pos), j + 1))
        else
          var msg := "Mismatched closing bracket" + AtLineColumn(token.pos) + ": expected "
            + DebugOptionMode(closingToken) + ", found " + DebugCloser(token.kind);
          Err(msg)
      else
        match TokenToTree(toks, j)
        case Err(e) => Err(e)
        case Ok((t, k)) => ParseGroup(mode, opening, toks, k, children + [t])
  }

  // ---------------------------------------------------------------------
  // Debug rendering (positions are not part of it)

  function DebugOp(op: L.Op): string {
    match op
    case Pipe => "Pipe"
    case Plus => "Plus"
    case Minus => "Minus"
    case Multiply => "Multiply"
    case Divide => "Divide"
    case Modulo => "Modulo"
    case Equal => "Equal"
    case EqualTo => "EqualTo"
    case NotEqual => "NotEqual"
    case GreaterThan => "GreaterThan"
    case LessThan => "LessThan"
    case GreaterThanOrEqual => "GreaterThanOrEqual"
    case LessThanOrEqual => "LessThanOrEqual"
    case And => "And"
    case Or => "Or"
    case Not => "Not"
    case BitAnd => "BitAnd"
    case BitOr => "BitOr"
    case BitXor => "BitXor"
    case BitNot => "BitNot"
    case ShiftLeft => "ShiftLeft"
    case ShiftRight => "ShiftRight"
  }

  /** Rust's derived Debug rendering of a token-tree kind; a float shows its literal text. */
  function DebugKind(k: TokenTreeKind): string
    decreases k, 1
  {
    match k
    case Be => "Be"
    case Mut => "Mut"
    case If => "If"
    case Else => "Else"
    case While => "While"
    case Fn => "Fn"
    case Return => "Return"
    case Struct => "Struct"
    case Enum => "Enum"
    case Boolean(b) => "Boolean(" + DebugBool(b) + ")"
    case Comma => "Comma"
    case Colon => "Colon"
    case SemiColon => "SemiColon"
    case Group(mode, children) =>
      "Group { mode: " + DebugGroupMode(mode) + ", children: [" + DebugTrees(children) + "] }"
    case Identifier(s) => "Identifier(" + DebugString(s) + ")"
    case String(s) => "String(" + DebugString(s) + ")"
    case Integer(n) => "Integer(" + IntToString(n) + ")"
    case Float(f) => "Float(" + f + ")"
    case Op(op) => "Op(" + DebugOp(op) + ")"
  }

  /** A tree's Debug rendering shows its kind and leaves its position out. */
  function DebugTree(t: TokenTree): string
    decreases t, 2
  {
    "TokenTree { kind: " + DebugKind(t.kind) + " }"
  }

  /** The comma-separated Debug renderings of a sequence of trees. */
  function DebugTrees(ts: seq<TokenTree>): string
    decreases ts, 0
  {
    if ts == [] then ""
    else if |ts| == 1 then DebugTree(ts[0])
    else DebugTree(ts[0]) + ", " + DebugTrees(ts[1..])
  }
}
