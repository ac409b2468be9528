/** What the bracket-grouping pass promises: the leaf mapping, where each
    of its three errors is reported, that a successful build loses nothing
    and keeps the input order (flattening the trees gives back the tokens),
    and that it succeeds exactly on well-bracketed input. */
module TokenTreeProps {
  import opened Common
  import L = LexerTypes
  import opened TokenTrees

  function OpenerKind(m: GroupMode): L.TokenKind {
    match m
    case Parens => L.LParen
    case Curly => L.LCurly
    case Bracket => L.LBracket
  }

  function CloserKind(m: GroupMode): L.TokenKind {
    match m
    case Parens => L.RParen
    case Curly => L.RCurly
    case Bracket => L.RBracket
  }

  /** `(`/`)` pair with Parens, `{`/`}` with Curly and `[`/`]` with Bracket. */
  lemma ModePairs(m: GroupMode, pos: Position)
    ensures TokenToGroupMode(L.Token(OpenerKind(m), pos)) == Some(m)
    ensures TokenToGroupMode(L.Token(CloserKind(m), pos)) == Some(m)
    ensures OpenerKind(m).IsOpener() && CloserKind(m).IsCloser()
  {
  }

  /** The token kind a leaf tree was built from: the same-named kind with the same payload. */
  function LeafTokenKind(k: TokenTreeKind): L.TokenKind
    requires !k.Group?
  {
    match k
    case Be => L.Be
    case Mut => L.Mut
    case If => L.If
    case Else => L.Else
    case While => L.While
    case Fn => L.Fn
    case Return => L.Return
    case Struct => L.Struct
    case Enum => L.Enum
    case Boolean(b) => L.Boolean(b)
    case Comma => L.Comma
    case Colon => L.Colon
    case SemiColon => L.SemiColon
    case Identifier(s) => L.Identifier(s)
    case String(s) => L.String(s)
    case Integer(n) => L.Integer(n)
    case Float(f) => L.Float(f)
    case Op(op) => L.Op(op)
  }

  /** Every non-bracket token becomes a leaf of the same-named kind, with
      the same payload and position, and consumes only itself. */
  lemma LeafMapping(toks: seq<L.Token>, i: nat)
    requires i < |toks| && !toks[i].kind.IsOpener() && !toks[i].kind.IsCloser()
    ensures TokenToTree(toks, i).Ok?
    ensures var (t, j) := TokenToTree(toks, i).value;
      && j == i + 1 && t.pos == toks[i].pos
      && !t.kind.Group? && LeafTokenKind(t.kind) == toks[i].kind
  {
  }

  // ---------------------------------------------------------------------
  // The three errors

  /** A closing bracket met at top level is an "Unmatched closing bracket" error at its position. */
  lemma UnmatchedCloser(toks: seq<L.Token>, i: nat, acc: seq<TokenTree>)
    requires i < |toks| && toks[i].kind.IsCloser()
    ensures ParseSeq(toks, i, acc) == Err("Unmatched closing bracket" + AtLineColumn(toks[i].pos))
  {
  }

  /** Inside a group, a closing bracket of another mode is a "Mismatched
      closing bracket" error at the closer's position. */
  lemma MismatchedCloser(m: GroupMode, opening: L.Token, toks: seq<L.Token>, j: nat, children: seq<TokenTree>)
    requires TokenToGroupMode(opening) == Some(m)
    requires j < |toks| && toks[j].kind.IsCloser() && TokenToGroupMode(toks[j]) != Some(m)
    ensures ParseGroup(m, opening, toks, j, children)
      == Err("Mismatched closing bracket" + AtLineColumn(toks[j].pos) + ": expected "
             + DebugOptionMode(Some(m)) + ", found " + DebugCloser(toks[j].kind))
  {
  }

  /** The end of the input inside a group is an "Unclosed bracket" error at the opener's position. */
  lemma UnclosedAtEnd(m: GroupMode, opening: L.Token, toks: seq<L.Token>, children: seq<TokenTree>)
    ensures ParseGroup(m, opening, toks, |toks|, children)
      == Err("Unclosed bracket starting" + AtLineColumn(opening.pos))
  {
  }

  // ---------------------------------------------------------------------
  // Flattening: nothing is lost and the order is kept

  /** A token with the position dropped from closing brackets, whose
      position the trees do not keep. */
  type Erased = (L.TokenKind, Option<Position>)

  function Erase(t: L.Token): Erased {
    if t.kind.IsCloser() then (t.kind, None) else (t.kind, Some(t.pos))
  }

  function EraseAll(toks: seq<L.Token>): (r: seq<Erased>)
    ensures |r| == |toks|
    decreases |toks|
  {
    if toks == [] then [] else [Erase(toks[0])] + EraseAll(toks[1..])
  }

  /** The token sequence a tree stands for: a group is its opener, its
      children in order and its closer. */
  function FlattenTree(t: TokenTree): seq<Erased>
    decreases t, 1
  {
    match t.kind
    case Group(m, children) =>
      [(OpenerKind(m), Some(t.pos))] + FlattenTrees(children) + [(CloserKind(m), None)]
    case _ => [(LeafTokenKind(t.kind), Some(t.pos))]
  }

  function FlattenTrees(ts: seq<TokenTree>): seq<Erased>
    decreases ts, 0
  {
    if ts == [] then [] else FlattenTree(ts[0]) + FlattenTrees(ts[1..])
  }

  lemma {:induction false} EraseAllAppend(a: seq<L.Token>, b: seq<L.Token>)
    ensures EraseAll(a + b) == EraseAll(a) + EraseAll(b)
    decreases |a|
  {
    if a != [] {
      assert (a + b)[0] == a[0];
      assert (a + b)[1..] == a[1..] + b;
      EraseAllAppend(a[1..], b);
    } else {
      assert a + b == b;
    }
  }

  lemma {:induction false} FlattenTreesAppend(a: seq<TokenTree>, b: seq<TokenTree>)
    ensures FlattenTrees(a + b) == FlattenTrees(a) + FlattenTrees(b)
    decreases |a|
  {
    if a != [] {
      assert (a + b)[0] == a[0];
      assert (a + b)[1..] == a[1..] + b;
      FlattenTreesAppend(a[1..], b);
    } else {
      assert a + b == b;
    }
  }

  /** EraseAll of toks[i..k] splits at any j between. */
  lemma EraseAllSplit(toks: seq<L.Token>, i: nat, j: nat, k: nat)
    requires i <= j <= k <= |toks|
    ensures EraseAll(toks[i..k]) == EraseAll(toks[i..j]) + EraseAll(toks[j..k])
  {
    assert toks[i..k] == toks[i..j] + toks[j..k];
    EraseAllAppend(toks[i..j], toks[j..k]);
  }

  lemma {:induction false} TokenToTreeFlattens(toks: seq<L.Token>, i: nat)
    requires i < |toks| && TokenToTree(toks, i).Ok?
    ensures FlattenTree(TokenToTree(toks, i).value.0) == EraseAll(toks[i..TokenToTree(toks, i).value.1])
    decreases |toks| - i, 1
  {
    var token := toks[i];
    var (t, j) := TokenToTree(toks, i).value;
    if token.kind.IsOpener() {
      var m := TokenToGroupMode(token).value;
      ParseGroupFlattens(m, token, toks, i + 1, []);
      assert OpenerKind(m) == token.kind;
      EraseAllSplit(toks, i, i + 1, j);
      assert toks[i..i + 1] == [token];
      assert FlattenTrees([]) == [];
    } else {
      assert toks[i..j] == [token];
      assert EraseAll([token]) == [Erase(token)];
    }
  }

  lemma {:induction false} ParseGroupFlattens(m: GroupMode, opening: L.Token, toks: seq<L.Token>, j: nat, children: seq<TokenTree>)
    requires j <= |toks| && TokenToGroupMode(opening) == Some(m)
    requires ParseGroup(m, opening, toks, j, children).Ok?
    ensures var (t, k) := ParseGroup(m, opening, toks, j, children).value;
      FlattenTree(t) == [(OpenerKind(m), Some(opening.pos))] + FlattenTrees(children) + EraseAll(toks[j..k])
    decreases |toks| - j, 2
  {
    var (t, k) := ParseGroup(m, opening, toks, j, children).value;
    var token := toks[j];
    if token.kind.IsCloser() {
      assert TokenToGroupMode(token) == Some(m);
      assert token.kind == CloserKind(m);
      assert toks[j..k] == [token];
      assert EraseAll([token]) == [Erase(token)];
    } else {
      var (t1, k1) := TokenToTree(toks, j).value;
      TokenToTreeFlattens(toks, j);
      ParseGroupFlattens(m, opening, toks, k1, children + [t1]);
      FlattenTreesAppend(children, [t1]);
      assert FlattenTrees([t1]) == FlattenTree(t1);
      EraseAllSplit(toks, j, k1, k);
    }
  }

  lemma {:induction false} ParseSeqFlattens(toks: seq<L.Token>, i: nat, acc: seq<TokenTree>)
    requires i <= |toks| && ParseSeq(toks, i, acc).Ok?
    ensures FlattenTrees(ParseSeq(toks, i, acc).value) == FlattenTrees(acc) + EraseAll(toks[i..])
    decreases |toks| - i
  {
    if i == |toks| {
      assert toks[i..] == [];
    } else {
      var (t, j) := TokenToTree(toks, i).value;
      TokenToTreeFlattens(toks, i);
      ParseSeqFlattens(toks, j, acc + [t]);
      FlattenTreesAppend(acc, [t]);
      assert FlattenTrees([t]) == FlattenTree(t);
      EraseAllSplit(toks, i, j, |toks|);
      assert toks[i..] == toks[i..|toks|];
      assert toks[j..] == toks[j..|toks|];
      assert FlattenTrees(acc + [t]) == FlattenTrees(acc) + FlattenTree(t);
    }
  }

  /** A successful build loses no token and keeps the input order:
      flattening the trees gives back the input, closing-bracket positions aside. */
  lemma BuildFlattensBack(toks: seq<L.Token>)
    requires ParseFromTokens(toks).Ok?
    ensures FlattenTrees(ParseFromTokens(toks).value) == EraseAll(toks)
  {
    ParseSeqFlattens(toks, 0, []);
    assert toks[0..] == toks;
  }

  // ---------------------------------------------------------------------
  // Counting leaves and groups

  /** Number of non-group nodes in a forest, at every depth. */
  function LeafCount(ts: seq<TokenTree>): nat
    decreases ts, 0
  {
    if ts == [] then 0 else TreeLeafCount(ts[0]) + LeafCount(ts[1..])
  }

  function TreeLeafCount(t: TokenTree): nat
    decreases t, 1
  {
    if t.kind.Group? then LeafCount(t.kind.children) else 1
  }

  /** Number of group nodes in a forest, at every depth. */
  function GroupCount(ts: seq<TokenTree>): nat
    decreases ts, 0
  {
    if ts == [] then 0 else TreeGroupCount(ts[0]) + GroupCount(ts[1..])
  }

  function TreeGroupCount(t: TokenTree): nat
    decreases t, 1
  {
    if t.kind.Group? then 1 + GroupCount(t.kind.children) else 0
  }

  /** Number of tokens that are not brackets. */
  function NonBracketCount(toks: seq<L.Token>): nat
    decreases |toks|
  {
    if toks == [] then 0
    else (if toks[0].kind.IsOpener() || toks[0].kind.IsCloser() then 0 else 1) + NonBracketCount(toks[1..])
  }

  /** Number of opening-bracket tokens. */
  function OpenerCount(toks: seq<L.Token>): nat
    decreases |toks|
  {
    if toks == [] then 0
    else (if toks[0].kind.IsOpener() then 1 else 0) + OpenerCount(toks[1..])
  }

  function ErasedLeaves(es: seq<Erased>): nat
    decreases |es|
  {
    if es == [] then 0
    else (if es[0].0.IsOpener() || es[0].0.IsCloser() then 0 else 1) + ErasedLeaves(es[1..])
  }

  function ErasedOpeners(es: seq<Erased>): nat
    decreases |es|
  {
    if es == [] then 0 else (if es[0].0.IsOpener() then 1 else 0) + ErasedOpeners(es[1..])
  }

  lemma {:induction false} ErasedCountsAppend(a: seq<Erased>, b: seq<Erased>)
    ensures ErasedLeaves(a + b) == ErasedLeaves(a) + ErasedLeaves(b)
    ensures ErasedOpeners(a + b) == ErasedOpeners(a) + ErasedOpeners(b)
    decreases |a|
  {
    if a != [] {
      assert (a + b)[0] == a[0];
      assert (a + b)[1..] == a[1..] + b;
      ErasedCountsAppend(a[1..], b);
    } else {
      assert a + b == b;
    }
  }

  lemma {:induction false} ErasedCountsOfTokens(toks: seq<L.Token>)
    ensures ErasedLeaves(EraseAll(toks)) == NonBracketCount(toks)
    ensures ErasedOpeners(EraseAll(toks)) == OpenerCount(toks)
    decreases |toks|
  {
    if toks != [] {
      ErasedCountsOfTokens(toks[1..]);
      ErasedCountsAppend([Erase(toks[0])], EraseAll(toks[1..]));
    }
  }

  lemma {:induction false} ErasedCountsOfTree(t: TokenTree)
    ensures ErasedLeaves(FlattenTree(t)) == TreeLeafCount(t)
    ensures ErasedOpeners(FlattenTree(t)) == TreeGroupCount(t)
    decreases t, 1
  {
    if t.kind.Group? {
      var m := t.kind.mode;
      var open: seq<Erased> := [(OpenerKind(m), Some(t.pos))];
      var close: seq<Erased> := [(CloserKind(m), None)];
      ErasedCountsOfTrees(t.kind.children);
      ErasedCountsAppend(open, FlattenTrees(t.kind.children));
      ErasedCountsAppend(open + FlattenTrees(t.kind.children), close);
    } else {
      var k := LeafTokenKind(t.kind);
      assert !k.IsOpener() && !k.IsCloser();
    }
  }

  lemma {:induction false} ErasedCountsOfTrees(ts: seq<TokenTree>)
    ensures ErasedLeaves(FlattenTrees(ts)) == LeafCount(ts)
    ensures ErasedOpeners(FlattenTrees(ts)) == GroupCount(ts)
    decreases ts, 0
  {
    if ts != [] {
      ErasedCountsOfTree(ts[0]);
      ErasedCountsOfTrees(ts[1..]);
      ErasedCountsAppend(FlattenTree(ts[0]), FlattenTrees(ts[1..]));
    }
  }

  /** On success the leaves of the trees, at every depth, are as many as
      the non-bracket tokens, and the groups as many as the opening brackets. */
  lemma BuildPreservesCounts(toks: seq<L.Token>)
    requires ParseFromTokens(toks).Ok?
    ensures LeafCount(ParseFromTokens(toks).value) == NonBracketCount(toks)
    ensures GroupCount(ParseFromTokens(toks).value) == OpenerCount(toks)
  {
    BuildFlattensBack(toks);
    ErasedCountsOfTrees(ParseFromTokens(toks).value);
    ErasedCountsOfTokens(toks);
  }

  // ---------------------------------------------------------------------
  // The build succeeds exactly on well-bracketed input

  /** Whether the tokens from index i on close every bracket on `stack`
      (innermost last) and every bracket they open, each with its own mode. */
  function BracketsClose(toks: seq<L.Token>, i: nat, stack: seq<GroupMode>): bool
    requires i <= |toks|
    decreases |toks| - i
  {
    if i == |toks| then stack == []
    else
      var t := toks[i];
      if t.kind.IsOpener() then BracketsClose(toks, i + 1, stack + [TokenToGroupMode(t).value])
      else if t.kind.IsCloser() then
        && stack != []
        && stack[|stack| - 1] == TokenToGroupMode(t).value
        && BracketsClose(toks, i + 1, stack[..|stack| - 1])
      else BracketsClose(toks, i + 1, stack)
  }

  predicate WellBracketed(toks: seq<L.Token>) {
    BracketsClose(toks, 0, [])
  }

  lemma {:induction false} TokenToTreeBrackets(toks: seq<L.Token>, i: nat, stack: seq<GroupMode>)
    requires i < |toks| && !toks[i].kind.IsCloser()
    ensures TokenToTree(toks, i).Ok? ==>
      BracketsClose(toks, i, stack) == BracketsClose(toks, TokenToTree(toks, i).value.1, stack)
    ensures TokenToTree(toks, i).Err? ==> !BracketsClose(toks, i, stack)
    decreases |toks| - i, 1
  {
    var token := toks[i];
    if token.kind.IsOpener() {
      var m := TokenToGroupMode(token).value;
      ParseGroupBrackets(m, token, toks, i + 1, [], stack);
    }
  }

  lemma {:induction false} ParseGroupBrackets(m: GroupMode, opening: L.Token, toks: seq<L.Token>, j: nat,
                                              children: seq<TokenTree>, stack: seq<GroupMode>)
    requires j <= |toks| && TokenToGroupMode(opening) == Some(m)
    ensures ParseGroup(m, opening, toks, j, children).Ok? ==>
      BracketsClose(toks, j, stack + [m]) == BracketsClose(toks, ParseGroup(m, opening, toks, j, children).value.1, stack)
    ensures ParseGroup(m, opening, toks, j, children).Err? ==> !BracketsClose(toks, j, stack + [m])
    decreases |toks| - j, 2
  {
    if j < |toks| {
      var token := toks[j];
      if token.kind.IsCloser() {
        assert (stack + [m])[..|stack|] == stack;
      } else {
        TokenToTreeBrackets(toks, j, stack + [m]);
        if TokenToTree(toks, j).Ok? {
          var (t, k) := TokenToTree(toks, j).value;
          ParseGroupBrackets(m, opening, toks, k, children + [t], stack);
        }
      }
    }
  }

  lemma {:induction false} ParseSeqBrackets(toks: seq<L.Token>, i: nat, acc: seq<TokenTree>)
    requires i <= |toks|
    ensures ParseSeq(toks, i, acc).Ok? <==> BracketsClose(toks, i, [])
    decreases |toks| - i
  {
    if i < |toks| && !toks[i].kind.IsCloser() {
      TokenToTreeBrackets(toks, i, []);
      if TokenToTree(toks, i).Ok? {
        var (t, j) := TokenToTree(toks, i).value;
        ParseSeqBrackets(toks, j, acc + [t]);
      }
    }
  }

  /** The build succeeds exactly when every bracket is closed, in order, by
      a bracket of its own mode; otherwise it fails with one of the three errors. */
  lemma BuildSucceedsIffWellBracketed(toks: seq<L.Token>)
    ensures ParseFromTokens(toks).Ok? <==> WellBracketed(toks)
  {
    ParseSeqBrackets(toks, 0, []);
  }

  // ---------------------------------------------------------------------
  // Debug rendering of trees and bracket names

  /** The same tree with every position, its own and its descendants', set to (0, 0). */
  function StripTree(t: TokenTree): TokenTree
    decreases t, 2
  {
    TokenTree(StripKind(t.kind), (0, 0))
  }

  function StripKind(k: TokenTreeKind): TokenTreeKind
    decreases k, 1
  {
    if k.Group? then Group(k.mode, StripTrees(k.children)) else k
  }

  function StripTrees(ts: seq<TokenTree>): seq<TokenTree>
    decreases ts, 0
  {
    if ts == [] then [] else [StripTree(ts[0])] + StripTrees(ts[1..])
  }

  /** A tree's position is left out of its Debug rendering, and so are the
      positions of every tree nested in its groups: two trees that differ
      only in positions render the same, and so does an "Unexpected token"
      message that shows a tree's kind. */
  lemma TreeDebugIgnoresPositions(a: TokenTree, b: TokenTree)
    requires StripTree(a) == StripTree(b)
    ensures DebugTree(a) == DebugTree(b)
    ensures DebugKind(a.kind) == DebugKind(b.kind)
  {
    DebugKindStripped(a.kind);
    DebugKindStripped(b.kind);
  }

  lemma {:induction false} DebugKindStripped(k: TokenTreeKind)
    ensures DebugKind(StripKind(k)) == DebugKind(k)
    decreases k, 1
  {
    if k.Group? {
      DebugTreesStripped(k.children);
    }
  }

  lemma {:induction false} DebugTreeStripped(t: TokenTree)
    ensures DebugTree(StripTree(t)) == DebugTree(t)
    decreases t, 2
  {
    DebugKindStripped(t.kind);
  }

  lemma {:induction false} DebugTreesStripped(ts: seq<TokenTree>)
    ensures DebugTrees(StripTrees(ts)) == DebugTrees(ts)
    decreases ts, 0
  {
    if ts != [] {
      var rest := StripTrees(ts[1..]);
      assert StripTrees(ts) == [StripTree(ts[0])] + rest;
      assert StripTrees(ts)[0] == StripTree(ts[0]);
      assert StripTrees(ts)[1..] == rest;
      DebugTreeStripped(ts[0]);
      DebugTreesStripped(ts[1..]);
    }
  }

  /** The names a "Mismatched closing bracket" message gives are unambiguous:
      distinct expected modes, and distinct closers, are named differently. */
  lemma BracketNamesDistinct(a: Option<GroupMode>, b: Option<GroupMode>, x: L.TokenKind, y: L.TokenKind)
    requires x.IsCloser() && y.IsCloser()
    ensures DebugOptionMode(a) == DebugOptionMode(b) ==> a == b
    ensures DebugCloser(x) == DebugCloser(y) ==> x == y
  {
  }
}
