/**
 * What the parser promises: the precedence and left associativity of its
 * grammar (every expression tree is recovered from its printed tokens), the
 * backtracking of the statement rules, and the shape of the program it
 * builds from the lexer's tokens.
 */
module SimpleParserFacts {
  import opened Wrappers
  import opened LexerTypes
  import opened TokenStream
  import opened Ast
  import opened SimpleParser
  import SimpleLexer

  // ----- Printing expression trees back to tokens -----

  function OperatorToken(op: string): Token
  {
    if op == "+" then Token(TokenType.Plus, op)
    else if op == "-" then Token(TokenType.Minus, op)
    else if op == "*" then Token(TokenType.Star, op)
    else Token(TokenType.Slash, op)
  }

  function LeafToken(e: Node): Token
  {
    if e.kind == NodeType.IntLiteral then Token(TokenType.IntLiteral, e.text) else Token(TokenType.Identifier, e.text)
  }

  /**
   * The tokens of `e` in a context of the given precedence level (2:
   * additive, 1: multiplicative, 0: primary), with parentheses only where
   * the context binds tighter than the tree's operator; right operands are
   * printed one level tighter, which is how left associativity shows.
   */
  function Print(e: Node, level: nat): (r: seq<Token>)
    requires IsExpr(e)
    ensures |r| == Width(e, level)
    ensures StartsPrimary(At(r, 0))
  {
    if e.kind == NodeType.Additive then
      var s := Print(e.children[0], 2) + [OperatorToken(e.text)] + Print(e.children[1], 1);
      if level >= 2 then s else [Token(TokenType.LeftParen, "(")] + s + [Token(TokenType.RightParen, ")")]
    else if e.kind == NodeType.Multiplicative then
      var s := Print(e.children[0], 1) + [OperatorToken(e.text)] + Print(e.children[1], 0);
      if level >= 1 then s else [Token(TokenType.LeftParen, "(")] + s + [Token(TokenType.RightParen, ")")]
    else
      [LeafToken(e)]
  }

  predicate IsAdditiveOp(t: Option<Token>)
  {
    IsKind(t, TokenType.Plus) || IsKind(t, TokenType.Minus)
  }

  predicate IsMultiplicativeOp(t: Option<Token>)
  {
    IsKind(t, TokenType.Star) || IsKind(t, TokenType.Slash)
  }

  /** `ts` holds the tokens `s` from position `p` on. */
  predicate HoldsAt(ts: seq<Token>, p: nat, s: seq<Token>)
  {
    p + |s| <= |ts| && ts[p..p + |s|] == s
  }


  lemma HoldsSplit(ts: seq<Token>, p: nat, a: seq<Token>, t: Token, b: seq<Token>)
    requires HoldsAt(ts, p, a + [t] + b)
    ensures HoldsAt(ts, p, a) && p + |a| < |ts| && ts[p + |a|] == t && HoldsAt(ts, p + |a| + 1, b)
  {
    assert ts[p..p + |a|] == (a + [t] + b)[..|a|];
    assert ts[p + |a|] == (a + [t] + b)[|a|];
    assert ts[p + |a| + 1..p + |a| + 1 + |b|] == (a + [t] + b)[|a| + 1..];
  }

  lemma HoldsParenthesised(ts: seq<Token>, p: nat, s: seq<Token>)
    requires HoldsAt(ts, p, [Token(TokenType.LeftParen, "(")] + s + [Token(TokenType.RightParen, ")")])
    ensures p + 1 + |s| < |ts| && HoldsAt(ts, p + 1, s)
    ensures ts[p] == Token(TokenType.LeftParen, "(") && ts[p + 1 + |s|] == Token(TokenType.RightParen, ")")
  {
    var w := [Token(TokenType.LeftParen, "(")] + s + [Token(TokenType.RightParen, ")")];
    assert |w| == |s| + 2;
    forall i | 0 <= i < |w|
      ensures ts[p + i] == w[i]
    {
      assert ts[p..p + |w|][i] == ts[p + i];
    }
    assert ts[p] == w[0];
    assert ts[p + 1 + |s|] == w[1 + |s|];
    forall i | 0 <= i < |s|
      ensures ts[p + 1..p + 1 + |s|][i] == s[i]
    {
      assert ts[p + 1 + i] == w[1 + i];
    }
  }

  lemma OperatorTokenFacts(op: string)
    ensures op == "+" || op == "-" ==> IsAdditiveOp(Some(OperatorToken(op))) && OperatorToken(op).text == op
    ensures op == "*" || op == "/" ==> IsMultiplicativeOp(Some(OperatorToken(op))) && OperatorToken(op).text == op
  {
  }

  // One unfolding of each expression rule at a time.

  lemma AdditiveLoopStop(ts: seq<Token>, p: nat, acc: Node)
    requires p <= |ts| && !IsAdditiveOp(At(ts, p))
    ensures AdditiveLoop(ts, p, acc) == Attempt(Found(acc), p)
  {
  }

  lemma MultiplicativeLoopStop(ts: seq<Token>, p: nat, acc: Node)
    requires p <= |ts| && !IsMultiplicativeOp(At(ts, p))
    ensures MultiplicativeLoop(ts, p, acc) == Attempt(Found(acc), p)
  {
  }

  /** An additive operator with a complete right operand after it extends the tree on the left. */
  lemma AdditiveExtend(ts: seq<Token>, p: nat, e: Node, m: nat, n: nat)
    requires p <= m < |ts| && n <= |ts|
    requires e.kind == NodeType.Additive && |e.children| == 2
    requires AdditiveParse(ts, p) == AdditiveLoop(ts, m, e.children[0])
    requires IsAdditiveOp(At(ts, m)) && ts[m].text == e.text
    requires MultiplicativeParse(ts, m + 1) == MultiplicativeLoop(ts, n, e.children[1])
    requires !IsMultiplicativeOp(At(ts, n))
    ensures AdditiveParse(ts, p) == AdditiveLoop(ts, n, e)
  {
    assert e.children == [e.children[0], e.children[1]];
    MultiplicativeLoopStop(ts, n, e.children[1]);
  }

  /** A multiplicative operator with a primary after it extends the tree on the left. */
  lemma MultiplicativeExtend(ts: seq<Token>, p: nat, e: Node, m: nat, n: nat)
    requires p <= m < |ts| && n <= |ts|
    requires e.kind == NodeType.Multiplicative && |e.children| == 2
    requires MultiplicativeParse(ts, p) == MultiplicativeLoop(ts, m, e.children[0])
    requires IsMultiplicativeOp(At(ts, m)) && ts[m].text == e.text
    requires PrimaryParse(ts, m + 1) == Attempt(Found(e.children[1]), n)
    ensures MultiplicativeParse(ts, p) == MultiplicativeLoop(ts, n, e)
  {
    assert e.children == [e.children[0], e.children[1]];
  }

  /** A complete multiplicative expression is the first operand of an additive one. */
  lemma AdditiveFirst(ts: seq<Token>, p: nat, e: Node, n: nat)
    requires p <= n <= |ts|
    requires MultiplicativeParse(ts, p) == MultiplicativeLoop(ts, n, e)
    requires !IsMultiplicativeOp(At(ts, n))
    ensures AdditiveParse(ts, p) == AdditiveLoop(ts, n, e)
  {
    MultiplicativeLoopStop(ts, n, e);
  }

  /** A primary is the first operand of a multiplicative expression. */
  lemma MultiplicativeFirst(ts: seq<Token>, p: nat, e: Node, n: nat)
    requires p <= |ts| && PrimaryParse(ts, p) == Attempt(Found(e), n)
    ensures MultiplicativeParse(ts, p) == MultiplicativeLoop(ts, n, e)
  {
  }

  /** A complete additive expression between parentheses is a primary. */
  lemma PrimaryParenthesised(ts: seq<Token>, p: nat, e: Node, q: nat)
    requires p < q < |ts| && ts[p].kind == TokenType.LeftParen && ts[q].kind == TokenType.RightParen
    requires AdditiveParse(ts, p + 1) == AdditiveLoop(ts, q, e)
    ensures PrimaryParse(ts, p) == Attempt(Found(e), q + 1)
  {
    AdditiveLoopStop(ts, q, e);
  }

  lemma PrimaryLeaf(ts: seq<Token>, p: nat, e: Node)
    requires IsLeaf(e) && p < |ts| && ts[p] == LeafToken(e)
    ensures PrimaryParse(ts, p) == Attempt(Found(e), p + 1)
  {
  }

  /** The measure that orders the definitions and lemmas that follow `Print` on one tree. */
  function Rank(level: nat, e: Node): nat
  {
    if e.kind == NodeType.Additive then (if level == 2 then 0 else if level == 0 then 1 else 2)
    else if e.kind == NodeType.Multiplicative then (if level == 1 then 0 else if level == 2 then 1 else 2)
    else (if level == 0 then 0 else if level == 1 then 1 else 2)
  }

  /** The number of tokens `Print(e, level)` has. */
  function Width(e: Node, level: nat): nat
    requires IsExpr(e)
  {
    if e.kind == NodeType.Additive then
      Width(e.children[0], 2) + 1 + Width(e.children[1], 1) + (if level >= 2 then 0 else 2)
    else if e.kind == NodeType.Multiplicative then
      Width(e.children[0], 1) + 1 + Width(e.children[1], 0) + (if level >= 1 then 0 else 2)
    else 1
  }

  /** `Print(e, level)` stated token by token: what `ts` holds from `p` on. */
  predicate Spells(ts: seq<Token>, p: nat, e: Node, level: nat)
    requires IsExpr(e)
    decreases e, Rank(level, e)
  {
    var additive := e.kind == NodeType.Additive;
    if additive || e.kind == NodeType.Multiplicative then
      var lv := if additive then 2 else 1;
      if level >= lv then
        var left, right := e.children[0], e.children[1];
        var m := p + Width(left, lv);
        && Spells(ts, p, left, lv)
        && m < |ts| && ts[m] == OperatorToken(e.text)
        && Spells(ts, m + 1, right, lv - 1)
      else
        var q := p + 1 + Width(e, 2);
        && p < q < |ts| && ts[p] == Token(TokenType.LeftParen, "(") && ts[q] == Token(TokenType.RightParen, ")")
        && Spells(ts, p + 1, e, 2)
    else
      p < |ts| && ts[p] == LeafToken(e)
  }

  /** A tree that needs no parentheses at one level is spelled the same at the next. */
  lemma SpellsLevels(ts: seq<Token>, p: nat, e: Node)
    requires IsExpr(e)
    ensures e.kind != NodeType.Additive ==> Width(e, 2) == Width(e, 1) && (Spells(ts, p, e, 2) <==> Spells(ts, p, e, 1))
    ensures e.kind != NodeType.Multiplicative ==> Width(e, 1) == Width(e, 0) && (Spells(ts, p, e, 1) <==> Spells(ts, p, e, 0))
  {
  }

  /** The printed tokens of `e`, read token by token. */
  lemma {:induction false} PrintSpells(ts: seq<Token>, p: nat, e: Node, level: nat)
    requires IsExpr(e) && HoldsAt(ts, p, Print(e, level))
    ensures Spells(ts, p, e, level)
    decreases e, Rank(level, e), 1
  {
    var lv := if e.kind == NodeType.Additive then 2 else 1;
    if e.kind != NodeType.Additive && e.kind != NodeType.Multiplicative {
      assert ts[p] == Print(e, level)[0];
    } else if level >= lv {
      PrintSpellsOperator(ts, p, e, level, lv);
    } else {
      PrintSpellsParenthesised(ts, p, e, level, lv);
    }
  }

  lemma {:induction false} PrintSpellsOperator(ts: seq<Token>, p: nat, e: Node, level: nat, lv: nat)
    requires IsExpr(e) && (e.kind == NodeType.Additive || e.kind == NodeType.Multiplicative)
    requires lv == (if e.kind == NodeType.Additive then 2 else 1) && level >= lv
    requires HoldsAt(ts, p, Print(e, level))
    ensures Spells(ts, p, e, level)
    decreases e, Rank(level, e), 0
  {
    var left, right := e.children[0], e.children[1];
    var op := OperatorToken(e.text);
    var pl := Print(left, lv);
    assert Print(e, level) == pl + [op] + Print(right, lv - 1);
    HoldsSplit(ts, p, pl, op, Print(right, lv - 1));
    PrintSpells(ts, p, left, lv);
    PrintSpells(ts, p + |pl| + 1, right, lv - 1);
  }

  lemma {:induction false} PrintSpellsParenthesised(ts: seq<Token>, p: nat, e: Node, level: nat, lv: nat)
    requires IsExpr(e) && (e.kind == NodeType.Additive || e.kind == NodeType.Multiplicative)
    requires lv == (if e.kind == NodeType.Additive then 2 else 1) && level < lv
    requires HoldsAt(ts, p, Print(e, level))
    ensures Spells(ts, p, e, level)
    decreases e, Rank(level, e), 0
  {
    var s := Print(e, 2);
    PrintParenthesised(e, level, lv);
    HoldsParenthesised(ts, p, s);
    PrintSpells(ts, p + 1, e, 2);
    assert Spells(ts, p + 1, e, 2);
    SpellsParenthesised(ts, p, e, level, lv, s);
  }

  lemma SpellsParenthesised(ts: seq<Token>, p: nat, e: Node, level: nat, lv: nat, s: seq<Token>)
    requires IsExpr(e) && (e.kind == NodeType.Additive || e.kind == NodeType.Multiplicative)
    requires lv == (if e.kind == NodeType.Additive then 2 else 1) && level < lv
    requires s == Print(e, 2) && p + 1 + |s| < |ts| && Spells(ts, p + 1, e, 2)
    requires ts[p] == Token(TokenType.LeftParen, "(") && ts[p + 1 + |s|] == Token(TokenType.RightParen, ")")
    ensures Spells(ts, p, e, level)
  {
  }

  lemma PrintParenthesised(e: Node, level: nat, lv: nat)
    requires IsExpr(e) && (e.kind == NodeType.Additive || e.kind == NodeType.Multiplicative)
    requires lv == (if e.kind == NodeType.Additive then 2 else 1) && level < lv
    ensures Print(e, level) == [Token(TokenType.LeftParen, "(")] + Print(e, 2) + [Token(TokenType.RightParen, ")")]
  {
  }

  /**
   * Parsing an additive expression over the tokens of `e` (which end at
   * `end`) reads all of them and goes on with `e` as the left operand, as
   * long as no `*` or `/` follows.
   */
  lemma {:induction false} AdditivePrefix(ts: seq<Token>, p: nat, e: Node, end: nat)
    requires IsExpr(e) && Spells(ts, p, e, 2) && end == p + Width(e, 2) <= |ts|
    requires !IsMultiplicativeOp(At(ts, end))
    ensures AdditiveParse(ts, p) == AdditiveLoop(ts, end, e)
    decreases e, Rank(2, e), 1
  {
    if e.kind == NodeType.Additive {
      var left, right := e.children[0], e.children[1];
      var m := p + Width(left, 2);
      var n := m + 1 + Width(right, 1);
      SpellsOperator(ts, p, e, 2, 1, m);
      assert n == end;
      assert Spells(ts, p, left, 2);
      AdditivePrefix(ts, p, left, m);
      assert Spells(ts, m + 1, right, 1);
      AdditiveRightOperand(ts, p, e, m, n);
    } else {
      SpellsLevels(ts, p, e);
      assert Spells(ts, p, e, 1);
      MultiplicativePrefix(ts, p, e, end);
      AdditiveFirst(ts, p, e, end);
    }
  }

  /**
   * Once the left operand of `e` is read, the right one is a multiplicative
   * expression, and `e` becomes the left operand.
   */
  lemma {:induction false} AdditiveRightOperand(ts: seq<Token>, p: nat, e: Node, m: nat, n: nat)
    requires IsExpr(e) && e.kind == NodeType.Additive && p <= m < |ts|
    requires AdditiveParse(ts, p) == AdditiveLoop(ts, m, e.children[0])
    requires IsAdditiveOp(At(ts, m)) && ts[m].text == e.text
    requires Spells(ts, m + 1, e.children[1], 1) && n == m + 1 + Width(e.children[1], 1) <= |ts|
    requires !IsMultiplicativeOp(At(ts, n))
    ensures AdditiveParse(ts, p) == AdditiveLoop(ts, n, e)
    decreases e, Rank(2, e), 0
  {
    assert Spells(ts, m + 1, e.children[1], 1);
    MultiplicativePrefix(ts, m + 1, e.children[1], n);
    AdditiveExtend(ts, p, e, m, n);
  }

  /**
   * Parsing a multiplicative expression over the tokens of `e` (which end
   * at `end`) reads all of them and goes on with `e` as the left operand.
   */
  lemma {:induction false} MultiplicativePrefix(ts: seq<Token>, p: nat, e: Node, end: nat)
    requires IsExpr(e) && Spells(ts, p, e, 1) && end == p + Width(e, 1) <= |ts|
    ensures MultiplicativeParse(ts, p) == MultiplicativeLoop(ts, end, e)
    decreases e, Rank(1, e), 1
  {
    if e.kind == NodeType.Multiplicative {
      var left, right := e.children[0], e.children[1];
      var m := p + Width(left, 1);
      var n := m + 1 + Width(right, 0);
      SpellsOperator(ts, p, e, 1, 0, m);
      assert n == end;
      assert Spells(ts, p, left, 1);
      MultiplicativePrefix(ts, p, left, m);
      assert Spells(ts, m + 1, right, 0);
      RightOperand(ts, p, e, m, n);
    } else {
      PrimaryPrefix(ts, p, e, end);
    }
  }

  /** Once the left operand of `e` is read, the right one is a primary, and `e` becomes the left operand. */
  lemma {:induction false} RightOperand(ts: seq<Token>, p: nat, e: Node, m: nat, n: nat)
    requires IsExpr(e) && e.kind == NodeType.Multiplicative && p <= m < |ts|
    requires MultiplicativeParse(ts, p) == MultiplicativeLoop(ts, m, e.children[0])
    requires IsMultiplicativeOp(At(ts, m)) && ts[m].text == e.text
    requires Spells(ts, m + 1, e.children[1], 0) && n == m + 1 + Width(e.children[1], 0) <= |ts|
    ensures MultiplicativeParse(ts, p) == MultiplicativeLoop(ts, n, e)
    decreases e, Rank(1, e), 0
  {
    assert Spells(ts, m + 1, e.children[1], 0);
    PrimaryRoundTrip(ts, m + 1, e.children[1], n);
    MultiplicativeExtend(ts, p, e, m, n);
  }

  /** A tree with no `*` or `/` at its root is read as a primary, then as the first operand. */
  lemma {:induction false} PrimaryPrefix(ts: seq<Token>, p: nat, e: Node, end: nat)
    requires IsExpr(e) && e.kind != NodeType.Multiplicative
    requires Spells(ts, p, e, 1) && end == p + Width(e, 1) <= |ts|
    ensures MultiplicativeParse(ts, p) == MultiplicativeLoop(ts, end, e)
    decreases e, Rank(1, e), 0
  {
    SpellsLevels(ts, p, e);
    assert Spells(ts, p, e, 0);
    PrimaryRoundTrip(ts, p, e, end);
    MultiplicativeFirst(ts, p, e, end);
  }

  /** What `Spells` says of an operator node at its own level: the left operand, the operator, the right operand. */
  lemma SpellsOperator(ts: seq<Token>, p: nat, e: Node, lv: nat, rlv: nat, m: nat)
    requires IsExpr(e) && (e.kind == NodeType.Additive || e.kind == NodeType.Multiplicative)
    requires lv == (if e.kind == NodeType.Additive then 2 else 1) && rlv == lv - 1
    requires Spells(ts, p, e, lv) && m == p + Width(e.children[0], lv)
    ensures Spells(ts, p, e.children[0], lv)
    ensures m < |ts| && ts[m] == OperatorToken(e.text) && ts[m].text == e.text
    ensures lv == 2 ==> IsAdditiveOp(At(ts, m))
    ensures lv == 1 ==> IsMultiplicativeOp(At(ts, m))
    ensures Spells(ts, m + 1, e.children[1], rlv)
    ensures Width(e, lv) == m - p + 1 + Width(e.children[1], rlv)
  {
    OperatorTokenFacts(e.text);
  }

  /** What `Spells` says of an operator node at the primary level: the node at the additive level, in parentheses. */
  lemma SpellsInParentheses(ts: seq<Token>, p: nat, e: Node)
    requires IsExpr(e) && (e.kind == NodeType.Additive || e.kind == NodeType.Multiplicative)
    requires Spells(ts, p, e, 0)
    ensures var q := p + 1 + Width(e, 2);
      && q < |ts| && ts[p].kind == TokenType.LeftParen && ts[q].kind == TokenType.RightParen
      && !IsMultiplicativeOp(At(ts, q))
      && Spells(ts, p + 1, e, 2)
      && Width(e, 0) == Width(e, 2) + 2
  {
  }

  /** A primary expression is read back whole from its tokens, whatever follows. */
  lemma {:induction false} PrimaryRoundTrip(ts: seq<Token>, p: nat, e: Node, end: nat)
    requires IsExpr(e) && Spells(ts, p, e, 0) && end == p + Width(e, 0) <= |ts|
    ensures PrimaryParse(ts, p) == Attempt(Found(e), end)
    decreases e, Rank(0, e)
  {
    if e.kind == NodeType.Additive || e.kind == NodeType.Multiplicative {
      var q := end - 1;
      SpellsInParentheses(ts, p, e);
      assert Spells(ts, p + 1, e, 2);
      AdditivePrefix(ts, p + 1, e, q);
      PrimaryParenthesised(ts, p, e, q);
    } else {
      PrimaryLeaf(ts, p, e);
    }
  }

  /**
   * The round trip of the expression grammar: an additive expression parsed
   * from the printed tokens of any expression tree is that tree, and it
   * ends where the tokens do, whatever non-operator token follows.
   */
  lemma ExpressionRoundTrip(e: Node, rest: seq<Token>)
    requires IsExpr(e)
    requires !IsAdditiveOp(At(rest, 0)) && !IsMultiplicativeOp(At(rest, 0))
    ensures AdditiveParse(Print(e, 2) + rest, 0) == Attempt(Found(e), |Print(e, 2)|)
  {
    var ts := Print(e, 2) + rest;
    assert ts[..|Print(e, 2)|] == Print(e, 2);
    assert At(ts, |Print(e, 2)|) == At(rest, 0);
    PrintSpells(ts, 0, e, 2);
    assert Spells(ts, 0, e, 2);
    AdditivePrefix(ts, 0, e, |Print(e, 2)|);
  }

  /** Followed by `;`, the printed tokens of an expression make a one-statement program. */
  lemma ExpressionStatementRoundTrip(e: Node)
    requires IsExpr(e)
    ensures RootOf(Print(e, 2) + [Token(TokenType.SemiColon, ";")]) == RootResult.Program(AddChild(EmptyProgram, e))
  {
    var semi := Token(TokenType.SemiColon, ";");
    var ts := Print(e, 2) + [semi];
    var n := |Print(e, 2)|;
    ExpressionRoundTrip(e, [semi]);
    assert At(ts, 0) == At(Print(e, 2), 0);
    assert IntDeclareParse(ts, 0) == Attempt(NoMatch, 0);
    assert ts[n] == semi;
    assert ExpressionStatementParse(ts, 0) == Attempt(Found(e), n + 1);
    assert RootLoop(ts, n + 1, AddChild(EmptyProgram, e)) == RootParse(RootResult.Program(AddChild(EmptyProgram, e)), n + 1);
  }

  // ----- Precedence, associativity and backtracking, on tokens -----

  /** Tokens that spell an expression tree exactly parse back to it. */
  lemma ParsesAs(ts: seq<Token>, e: Node)
    requires IsExpr(e) && Spells(ts, 0, e, 2) && Width(e, 2) == |ts|
    ensures AdditiveParse(ts, 0) == Attempt(Found(e), |ts|)
  {
    assert Spells(ts, 0, e, 2);
    AdditivePrefix(ts, 0, e, |ts|);
    AdditiveLoopStop(ts, |ts|, e);
  }

  function Leaf(kind: NodeType, text: string): Node
  {
    Node(kind, text, [])
  }

  /** `a - b - c` groups to the left: `(a - b) - c`. */
  lemma SubtractionGroupsLeft()
    ensures
      var a, b, c := Leaf(NodeType.Identifier, "a"), Leaf(NodeType.Identifier, "b"), Leaf(NodeType.Identifier, "c");
      var ts := [Token(TokenType.Identifier, "a"), Token(TokenType.Minus, "-"), Token(TokenType.Identifier, "b"),
                 Token(TokenType.Minus, "-"), Token(TokenType.Identifier, "c")];
      AdditiveParse(ts, 0) == Attempt(Found(Node(NodeType.Additive, "-", [Node(NodeType.Additive, "-", [a, b]), c])), 5)
  {
    var a, b, c := Leaf(NodeType.Identifier, "a"), Leaf(NodeType.Identifier, "b"), Leaf(NodeType.Identifier, "c");
    var ts := [Token(TokenType.Identifier, "a"), Token(TokenType.Minus, "-"), Token(TokenType.Identifier, "b"),
               Token(TokenType.Minus, "-"), Token(TokenType.Identifier, "c")];
    var ab := Node(NodeType.Additive, "-", [a, b]);
    assert OperatorToken("-") == Token(TokenType.Minus, "-");
    assert Spells(ts, 0, ab, 2) by {
      assert Spells(ts, 0, a, 2) && Spells(ts, 2, b, 1);
    }
    assert Spells(ts, 0, Node(NodeType.Additive, "-", [ab, c]), 2) by {
      assert Width(ab, 2) == 3 && Spells(ts, 4, c, 1);
    }
    ParsesAs(ts, Node(NodeType.Additive, "-", [ab, c]));
  }

  /** `2 + 3 * 4` multiplies first: `2 + (3 * 4)`. */
  lemma ProductBindsTighter()
    ensures
      var two, three, four := Leaf(NodeType.IntLiteral, "2"), Leaf(NodeType.IntLiteral, "3"), Leaf(NodeType.IntLiteral, "4");
      var ts := [Token(TokenType.IntLiteral, "2"), Token(TokenType.Plus, "+"), Token(TokenType.IntLiteral, "3"),
                 Token(TokenType.Star, "*"), Token(TokenType.IntLiteral, "4")];
      AdditiveParse(ts, 0) == Attempt(Found(Node(NodeType.Additive, "+", [two, Node(NodeType.Multiplicative, "*", [three, four])])), 5)
  {
    var two, three, four := Leaf(NodeType.IntLiteral, "2"), Leaf(NodeType.IntLiteral, "3"), Leaf(NodeType.IntLiteral, "4");
    var ts := [Token(TokenType.IntLiteral, "2"), Token(TokenType.Plus, "+"), Token(TokenType.IntLiteral, "3"),
               Token(TokenType.Star, "*"), Token(TokenType.IntLiteral, "4")];
    var product := Node(NodeType.Multiplicative, "*", [three, four]);
    assert Spells(ts, 2, product, 1) by {
      assert OperatorToken("*") == Token(TokenType.Star, "*");
      assert Spells(ts, 2, three, 1) && Spells(ts, 4, four, 0);
    }
    assert Spells(ts, 0, Node(NodeType.Additive, "+", [two, product]), 2) by {
      assert OperatorToken("+") == Token(TokenType.Plus, "+");
      assert Spells(ts, 0, two, 2) && Width(product, 1) == 3;
    }
    ParsesAs(ts, Node(NodeType.Additive, "+", [two, product]));
  }

  /** `(2 + 3) * 4`: the parentheses leave no node of their own. */
  lemma ParenthesesGroup()
    ensures
      var two, three, four := Leaf(NodeType.IntLiteral, "2"), Leaf(NodeType.IntLiteral, "3"), Leaf(NodeType.IntLiteral, "4");
      var ts := [Token(TokenType.LeftParen, "("), Token(TokenType.IntLiteral, "2"), Token(TokenType.Plus, "+"),
                 Token(TokenType.IntLiteral, "3"), Token(TokenType.RightParen, ")"), Token(TokenType.Star, "*"),
                 Token(TokenType.IntLiteral, "4")];
      AdditiveParse(ts, 0) == Attempt(Found(Node(NodeType.Multiplicative, "*", [Node(NodeType.Additive, "+", [two, three]), four])), 7)
  {
    var two, three, four := Leaf(NodeType.IntLiteral, "2"), Leaf(NodeType.IntLiteral, "3"), Leaf(NodeType.IntLiteral, "4");
    var ts := [Token(TokenType.LeftParen, "("), Token(TokenType.IntLiteral, "2"), Token(TokenType.Plus, "+"),
               Token(TokenType.IntLiteral, "3"), Token(TokenType.RightParen, ")"), Token(TokenType.Star, "*"),
               Token(TokenType.IntLiteral, "4")];
    var sum := Node(NodeType.Additive, "+", [two, three]);
    assert Spells(ts, 1, sum, 2) by {
      assert OperatorToken("+") == Token(TokenType.Plus, "+");
      assert Spells(ts, 1, two, 2) && Spells(ts, 3, three, 1);
    }
    assert Spells(ts, 0, sum, 1) by {
      assert Width(sum, 2) == 3;
    }
    assert Spells(ts, 0, Node(NodeType.Multiplicative, "*", [sum, four]), 2) by {
      assert OperatorToken("*") == Token(TokenType.Star, "*");
      assert Width(sum, 1) == 5 && Spells(ts, 6, four, 0);
    }
    ParsesAs(ts, Node(NodeType.Multiplicative, "*", [sum, four]));
  }

  // ----- Statements and programs -----

  /** The lexer gives operator tokens their operator as text. */
  lemma LexedTokensWellTyped(alpha: char -> bool, code: string)
    ensures (SimpleLexer.LexWellFormed(alpha, code); WellTyped(SimpleLexer.TokensOf(SimpleLexer.Lex(alpha, code))))
  {
    SimpleLexer.LexWellFormed(alpha, code);
    var lexed := SimpleLexer.Lex(alpha, code);
    var ts := SimpleLexer.TokensOf(lexed);
    forall i | 0 <= i < |ts|
      ensures OperatorTextFits(ts[i])
    {
      assert SimpleLexer.WellFormedToken(alpha, lexed[i]);
      assert ts[i] == Token(lexed[i].tokenType.value, lexed[i].text);
    }
  }

  /**
   * A parsed program is a `Program` node named "SimpleParser" whose
   * children are statements: declarations with at most an expression,
   * assignments with one, and expressions.
   */
  lemma ParsedProgramShape(alpha: char -> bool, code: string)
    ensures
      var r := ParseCode(alpha, code);
      r.Program? ==>
        && r.node.kind == NodeType.Program && r.node.text == "SimpleParser"
        && AllStatements(r.node.children)
  {
    LexedTokensWellTyped(alpha, code);
  }

  /**
   * A statement that starts with neither `int` nor a token an expression can
   * start with ends the parse with "unknown statement".
   */
  lemma UnknownStatement(ts: seq<Token>, p: nat, program: Node)
    requires p < |ts| && ts[p].kind != TokenType.Int && !StartsPrimary(At(ts, p))
    ensures RootLoop(ts, p, program).result == SyntaxError("unknown statement")
  {
    assert IntDeclareParse(ts, p) == Attempt(NoMatch, p);
    assert ExpressionStatementParse(ts, p) == Attempt(NoMatch, p);
  }

  /**
   * An identifier followed by `=` is not an expression statement: the
   * expression rule backtracks to the identifier, and the assignment rule
   * takes the statement.
   */
  lemma AssignmentAfterBacktracking(ts: seq<Token>, p: nat, e: Node, end: nat)
    requires p + 2 < |ts| && ts[p].kind == TokenType.Identifier && ts[p + 1].kind == TokenType.Assignment
    requires IsExpr(e) && Spells(ts, p + 2, e, 2) && end == p + 2 + Width(e, 2)
    requires end < |ts| && ts[end].kind == TokenType.SemiColon
    ensures ExpressionStatementParse(ts, p) == Attempt(NoMatch, p)
    ensures AssignmentStatementParse(ts, p) == Attempt(Found(Node(NodeType.AssignmentStmt, ts[p].text, [e])), end + 1)
  {
    NameIsNotAStatement(ts, p);
    assert Spells(ts, p + 2, e, 2);
    AdditivePrefix(ts, p + 2, e, end);
    AdditiveLoopStop(ts, end, e);
    AssignedValue(ts, p, e, end);
  }

  /** Before `=`, the expression rule reads only the name, so the statement rule backtracks. */
  lemma NameIsNotAStatement(ts: seq<Token>, p: nat)
    requires p + 1 < |ts| && ts[p].kind == TokenType.Identifier && ts[p + 1].kind == TokenType.Assignment
    ensures ExpressionStatementParse(ts, p) == Attempt(NoMatch, p)
  {
    var name := Leaf(NodeType.Identifier, ts[p].text);
    assert ts[p] == LeafToken(name);
    PrimaryLeaf(ts, p, name);
    MultiplicativeLoopStop(ts, p + 1, name);
    AdditiveLoopStop(ts, p + 1, name);
    assert AdditiveParse(ts, p) == Attempt(Found(name), p + 1);
  }

  /** After `=`, a whole expression and `;` make the assignment node. */
  lemma AssignedValue(ts: seq<Token>, p: nat, e: Node, end: nat)
    requires p + 2 < |ts| && ts[p].kind == TokenType.Identifier && ts[p + 1].kind == TokenType.Assignment
    requires p + 2 <= end < |ts| && ts[end].kind == TokenType.SemiColon
    requires AdditiveParse(ts, p + 2) == Attempt(Found(e), end)
    ensures AssignmentStatementParse(ts, p) == Attempt(Found(Node(NodeType.AssignmentStmt, ts[p].text, [e])), end + 1)
  {
    assert AddChild(New(NodeType.AssignmentStmt, ts[p].text), e) == Node(NodeType.AssignmentStmt, ts[p].text, [e]);
    assert AssignmentStatementParse(ts, p) == AssignedValueParse(ts, ts[p].text, p + 2);
  }

  // ----- Errors -----

  /**
   * `(` must be followed by an expression and then `)`: without the
   * expression, or without the `)`, `primary` fails.
   */
  lemma ParenthesisErrors(ts: seq<Token>, p: nat)
    requires p < |ts| && ts[p].kind == TokenType.LeftParen
    ensures AdditiveParse(ts, p + 1).result.NoMatch? ==>
      PrimaryParse(ts, p).result == Fail("expecting an additive expression inside parenthesis")
    ensures var inner := AdditiveParse(ts, p + 1);
      inner.result.Found? && !IsKind(At(ts, inner.pos), TokenType.RightParen) ==>
        PrimaryParse(ts, p).result == Fail("expecting right parenthesis")
  {
  }

  /** `int` not followed by a name panics the whole parse. */
  lemma MissingDeclarationName(ts: seq<Token>, p: nat, program: Node)
    requires p < |ts| && ts[p].kind == TokenType.Int && !IsKind(At(ts, p + 1), TokenType.Identifier)
    ensures RootLoop(ts, p, program).result == Panic("get int declare statement failed: " + "variable name expected")
  {
    assert IntDeclareParse(ts, p).result == Fail("variable name expected");
    RuleErrorPanics(ts, p, program, "get int declare statement failed: " + "variable name expected");
  }

  /** A statement rule's error at `p` is the panic that ends the parse. */
  lemma RuleErrorPanics(ts: seq<Token>, p: nat, program: Node, msg: string)
    requires p < |ts| && StatementParse(ts, p).result == Fail(msg)
    ensures RootLoop(ts, p, program).result == Panic(msg)
  {
  }

  /** `x = ;`: an assignment without a value panics the whole parse. */
  lemma MissingAssignedValue(ts: seq<Token>, p: nat, program: Node)
    requires p + 2 < |ts| && ts[p].kind == TokenType.Identifier && ts[p + 1].kind == TokenType.Assignment
    requires ts[p + 2].kind == TokenType.SemiColon
    ensures RootLoop(ts, p, program).result
         == Panic("get assignment statement failed: " + "invalid assignment statement, expecting an expression")
  {
    NameIsNotAStatement(ts, p);
    EmptyAssignment(ts, p);
    var reason := "invalid assignment statement, expecting an expression";
    AssignmentError(ts, p, reason);
    RuleErrorPanics(ts, p, program, "get assignment statement failed: " + reason);
  }

  lemma EmptyAssignment(ts: seq<Token>, p: nat)
    requires p + 2 < |ts| && ts[p].kind == TokenType.Identifier && ts[p + 1].kind == TokenType.Assignment
    requires ts[p + 2].kind == TokenType.SemiColon
    ensures AssignmentStatementParse(ts, p) == Attempt(Fail("invalid assignment statement, expecting an expression"), p + 2)
  {
    assert !StartsPrimary(At(ts, p + 2));
    assert AssignmentStatementParse(ts, p) == AssignedValueParse(ts, ts[p].text, p + 2);
  }

  /** Once the declaration and the expression rules do not apply, an assignment's error is the statement's. */
  lemma AssignmentError(ts: seq<Token>, p: nat, reason: string)
    requires p < |ts| && ts[p].kind != TokenType.Int
    requires ExpressionStatementParse(ts, p) == Attempt(NoMatch, p)
    requires AssignmentStatementParse(ts, p).result == Fail(reason)
    ensures StatementParse(ts, p).result == Fail("get assignment statement failed: " + reason)
  {
    assert IntDeclareParse(ts, p) == Attempt(NoMatch, p);
  }
}
