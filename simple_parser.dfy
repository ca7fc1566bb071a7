/**
 * The recursive-descent parser (`SimpleParser` in
 * craft/src/lexer/simple_parser.rs).
 *
 * Each grammar rule is specified by a function from the token sequence and a
 * start position to the rule's outcome and the position the cursor is left
 * at; each rule's method works on the shared `SimpleTokenReader` and is
 * proved to compute exactly that function.
 */
module SimpleParser {
  import opened Wrappers
  import opened LexerTypes
  import opened TokenStream
  import opened Ast
  import SimpleLexer

  /** A rule's `Result<Option<SimpleASTNode>, io::Error>`: a node, no match, or an error. */
  datatype Parsed = Found(node: Node) | NoMatch | Fail(msg: string)

  /** A rule's outcome and where it leaves the cursor. */
  datatype Attempt = Attempt(result: Parsed, pos: nat)

  /**
   * What `get_root` ends in: a program, the one error it returns ("unknown
   * statement"), or a panic, which is what its `expect` calls make of an
   * error from a statement rule.
   */
  datatype RootResult = Program(node: Node) | SyntaxError(msg: string) | Panic(msg: string)

  datatype RootParse = RootParse(result: RootResult, pos: nat)

  predicate IsKind(t: Option<Token>, kind: TokenType)
  {
    t.Some? && t.value.kind == kind
  }

  /** The tokens a primary expression can start with. */
  predicate StartsPrimary(t: Option<Token>)
  {
    IsKind(t, TokenType.IntLiteral) || IsKind(t, TokenType.Identifier) || IsKind(t, TokenType.LeftParen)
  }

  /** Operator tokens carry their operator as text (the lexer guarantees it). */
  predicate OperatorTextFits(t: Token)
  {
    && (t.kind == TokenType.Plus ==> t.text == "+")
    && (t.kind == TokenType.Minus ==> t.text == "-")
    && (t.kind == TokenType.Star ==> t.text == "*")
    && (t.kind == TokenType.Slash ==> t.text == "/")
  }

  predicate WellTyped(ts: seq<Token>)
  {
    forall i :: 0 <= i < |ts| ==> OperatorTextFits(ts[i])
  }

  /**
   * A statement as `get_root` collects it: a declaration with at most an
   * initializer, an assignment with its expression, or an expression (an
   * expression statement is its expression node).
   */
  predicate IsStatement(n: Node)
  {
    match n.kind
    case IntDeclaration => |n.children| == 0 || (|n.children| == 1 && IsExpr(n.children[0]))
    case AssignmentStmt => |n.children| == 1 && IsExpr(n.children[0])
    case _ => IsExpr(n)
  }

  predicate AllStatements(ns: seq<Node>)
  {
    forall i :: 0 <= i < |ns| ==> IsStatement(ns[i])
  }

  const ExpectRightPart := "invalid additive expression, expecting the right part."

  // ----- Expressions -----

  /** `primary`: a literal, an identifier, or a parenthesised additive expression (the inner tree itself). */
  function PrimaryParse(ts: seq<Token>, p: nat): (r: Attempt)
    requires p <= |ts|
    ensures p <= r.pos <= |ts|
    ensures r.result.NoMatch? <==> !StartsPrimary(At(ts, p))
    ensures r.result.NoMatch? ==> r.pos == p
    ensures r.result.Found? ==> r.pos > p
    ensures r.result.Found? && WellTyped(ts) ==> IsExpr(r.result.node)
    decreases |ts| - p, 0
  {
    if p == |ts| then Attempt(NoMatch, p)
    else
      var t := ts[p];
      match t.kind
      case IntLiteral => Attempt(Found(New(NodeType.IntLiteral, t.text)), p + 1)
      case Identifier => Attempt(Found(New(NodeType.Identifier, t.text)), p + 1)
      case LeftParen =>
        var inner := AdditiveParse(ts, p + 1);
        if inner.result.Fail? then inner
        else if inner.result.NoMatch? then Attempt(Fail("expecting an additive expression inside parenthesis"), inner.pos)
        else if !IsKind(At(ts, inner.pos), TokenType.RightParen) then Attempt(Fail("expecting right parenthesis"), inner.pos)
        else Attempt(inner.result, inner.pos + 1)
      case _ => Attempt(NoMatch, p)
  }

  /** The loop of `multiplicative`: while a `*` or `/` follows, fold the next primary in on the right. */
  function MultiplicativeLoop(ts: seq<Token>, p: nat, acc: Node): (r: Attempt)
    requires p <= |ts|
    ensures p <= r.pos <= |ts|
    ensures !r.result.NoMatch?
    ensures r.result.Found? && WellTyped(ts) && IsExpr(acc) ==> IsExpr(r.result.node)
    decreases |ts| - p, 1
  {
    var t := At(ts, p);
    if !(IsKind(t, TokenType.Star) || IsKind(t, TokenType.Slash)) then Attempt(Found(acc), p)
    else
      var right := PrimaryParse(ts, p + 1);
      if right.result.Fail? then right
      else if right.result.NoMatch? then Attempt(Fail(ExpectRightPart), right.pos)
      else MultiplicativeLoop(ts, right.pos, Binary(NodeType.Multiplicative, t.value.text, acc, right.result.node))
  }

  /** `multiplicative`: a primary, then the loop. */
  function MultiplicativeParse(ts: seq<Token>, p: nat): (r: Attempt)
    requires p <= |ts|
    ensures p <= r.pos <= |ts|
    ensures r.result.NoMatch? <==> !StartsPrimary(At(ts, p))
    ensures r.result.NoMatch? ==> r.pos == p
    ensures r.result.Found? ==> r.pos > p
    ensures r.result.Found? && WellTyped(ts) ==> IsExpr(r.result.node)
    decreases |ts| - p, 1
  {
    var first := PrimaryParse(ts, p);
    if !first.result.Found? then first
    else MultiplicativeLoop(ts, first.pos, first.result.node)
  }

  /** The loop of `additive`: while a `+` or `-` follows, fold the next multiplicative expression in on the right. */
  function AdditiveLoop(ts: seq<Token>, p: nat, acc: Node): (r: Attempt)
    requires p <= |ts|
    ensures p <= r.pos <= |ts|
    ensures !r.result.NoMatch?
    ensures r.result.Found? && WellTyped(ts) && IsExpr(acc) ==> IsExpr(r.result.node)
    decreases |ts| - p, 2
  {
    var t := At(ts, p);
    if !(IsKind(t, TokenType.Plus) || IsKind(t, TokenType.Minus)) then Attempt(Found(acc), p)
    else
      var right := MultiplicativeParse(ts, p + 1);
      if right.result.Fail? then right
      else if right.result.NoMatch? then Attempt(Fail(ExpectRightPart), right.pos)
      else AdditiveLoop(ts, right.pos, Binary(NodeType.Additive, t.value.text, acc, right.result.node))
  }

  /** `additive`: a multiplicative expression, then the loop. */
  function AdditiveParse(ts: seq<Token>, p: nat): (r: Attempt)
    requires p <= |ts|
    ensures p <= r.pos <= |ts|
    ensures r.result.NoMatch? <==> !StartsPrimary(At(ts, p))
    ensures r.result.NoMatch? ==> r.pos == p
    ensures r.result.Found? ==> r.pos > p
    ensures r.result.Found? && WellTyped(ts) ==> IsExpr(r.result.node)
    decreases |ts| - p, 2
  {
    var first := MultiplicativeParse(ts, p);
    if !first.result.Found? then first
    else AdditiveLoop(ts, first.pos, first.result.node)
  }

  // ----- Statements -----

  /**
   * `expression_statement`: an additive expression and a `;`. Without the
   * `;` it restores the saved position and reports no match.
   */
  function ExpressionStatementParse(ts: seq<Token>, p: nat): (r: Attempt)
    requires p <= |ts|
    ensures p <= r.pos <= |ts|
    ensures r.result.NoMatch? ==> r.pos == p
    ensures r.result.Found? ==> r.pos > p
    ensures r.result.Found? && WellTyped(ts) ==> IsExpr(r.result.node)
  {
    var e := AdditiveParse(ts, p);
    if !e.result.Found? then e
    else if IsKind(At(ts, e.pos), TokenType.SemiColon) then Attempt(e.result, e.pos + 1)
    else Attempt(NoMatch, AfterSetPosition(ts, e.pos, p))
  }

  /**
   * `assignment_statement`: an identifier, `=`, an additive expression and
   * `;`. When no `=` follows the identifier it unreads the identifier and
   * reports no match.
   */
  function AssignmentStatementParse(ts: seq<Token>, p: nat): (r: Attempt)
    requires p <= |ts|
    ensures p <= r.pos <= |ts|
    ensures r.result.NoMatch? ==> r.pos == p
    ensures r.result.Found? ==> r.pos > p
    ensures r.result.Found? ==>
      && p + 1 < |ts| && ts[p].kind == TokenType.Identifier && ts[p + 1].kind == TokenType.Assignment
      && IsKind(At(ts, r.pos - 1), TokenType.SemiColon)
      && r.result.node.kind == NodeType.AssignmentStmt
      && r.result.node.text == ts[p].text
      && |r.result.node.children| == 1
    ensures r.result.Found? && WellTyped(ts) ==> IsExpr(r.result.node.children[0])
  {
    if !IsKind(At(ts, p), TokenType.Identifier) then Attempt(NoMatch, p)
    else
      var q := p + 1;
      if IsKind(At(ts, q), TokenType.Assignment) then AssignedValueParse(ts, ts[p].text, q + 1)
      else Attempt(NoMatch, AfterUnread(q))
  }

  /** The rest of an assignment after `=`: an additive expression, then `;`. */
  function AssignedValueParse(ts: seq<Token>, name: string, s: nat): (r: Attempt)
    requires s <= |ts|
    ensures s <= r.pos <= |ts|
    ensures !r.result.NoMatch?
    ensures r.result.Found? ==>
      && r.pos > s
      && IsKind(At(ts, r.pos - 1), TokenType.SemiColon)
      && r.result.node.kind == NodeType.AssignmentStmt
      && r.result.node.text == name
      && |r.result.node.children| == 1
    ensures r.result.Found? && WellTyped(ts) ==> IsExpr(r.result.node.children[0])
  {
    var node := New(NodeType.AssignmentStmt, name);
    var e := AdditiveParse(ts, s);
    if e.result.Fail? then e
    else if e.result.NoMatch? then Attempt(Fail("invalid assignment statement, expecting an expression"), e.pos)
    else if !IsKind(At(ts, e.pos), TokenType.SemiColon) then Attempt(Fail("invalid statement, expecting semicolon"), e.pos)
    else Attempt(Found(AddChild(node, e.result.node)), e.pos + 1)
  }

  /** The `;` that ends a declaration. */
  function ExpectSemicolon(ts: seq<Token>, node: Node, p: nat): (r: Attempt)
    requires p <= |ts|
    ensures p <= r.pos <= |ts|
    ensures r.result.Found? <==> IsKind(At(ts, p), TokenType.SemiColon)
    ensures r.result.Found? ==> r.result.node == node && r.pos == p + 1
    ensures !r.result.NoMatch?
  {
    if IsKind(At(ts, p), TokenType.SemiColon) then Attempt(Found(node), p + 1)
    else Attempt(Fail("invalid statement, expecting semicolon"), p)
  }

  /** `int_declare`: `int`, a name, optionally `=` and an additive expression, then `;`. */
  function IntDeclareParse(ts: seq<Token>, p: nat): (r: Attempt)
    requires p <= |ts|
    ensures p <= r.pos <= |ts|
    ensures r.result.NoMatch? <==> !IsKind(At(ts, p), TokenType.Int)
    ensures r.result.NoMatch? ==> r.pos == p
    ensures r.result.Found? ==> r.pos > p
    ensures r.result.Found? ==>
      && p + 1 < |ts| && ts[p + 1].kind == TokenType.Identifier
      && IsKind(At(ts, r.pos - 1), TokenType.SemiColon)
      && r.result.node.kind == NodeType.IntDeclaration
      && r.result.node.text == ts[p + 1].text
      && (|r.result.node.children| == 1 <==> IsKind(At(ts, p + 2), TokenType.Assignment))
      && |r.result.node.children| <= 1
    ensures r.result.Found? && WellTyped(ts) && |r.result.node.children| == 1 ==> IsExpr(r.result.node.children[0])
  {
    if !IsKind(At(ts, p), TokenType.Int) then Attempt(NoMatch, p)
    else
      var q := p + 1;
      if !IsKind(At(ts, q), TokenType.Identifier) then Attempt(Fail("variable name expected"), q)
      else InitializerParse(ts, ts[q].text, q + 1)
  }

  /** The rest of a declaration after its name: optionally `=` and an additive expression, then `;`. */
  function InitializerParse(ts: seq<Token>, name: string, s: nat): (r: Attempt)
    requires s <= |ts|
    ensures s <= r.pos <= |ts|
    ensures !r.result.NoMatch?
    ensures r.result.Found? ==>
      && r.pos > s
      && IsKind(At(ts, r.pos - 1), TokenType.SemiColon)
      && r.result.node.kind == NodeType.IntDeclaration
      && r.result.node.text == name
      && (|r.result.node.children| == 1 <==> IsKind(At(ts, s), TokenType.Assignment))
      && |r.result.node.children| <= 1
    ensures r.result.Found? && WellTyped(ts) && |r.result.node.children| == 1 ==> IsExpr(r.result.node.children[0])
  {
    var node := New(NodeType.IntDeclaration, name);
    if IsKind(At(ts, s), TokenType.Assignment) then
      var e := AdditiveParse(ts, s + 1);
      if e.result.Fail? then e
      else if e.result.NoMatch? then Attempt(Fail("invalid variable initialization, expecting an expression"), e.pos)
      else ExpectSemicolon(ts, AddChild(node, e.result.node), e.pos)
    else ExpectSemicolon(ts, node, s)
  }

  // ----- The program -----

  /** The root node `get_root` starts from. */
  const EmptyProgram := New(NodeType.Program, "SimpleParser")

  /**
   * The body of `get_root`'s loop: a declaration, else an expression
   * statement, else an assignment. A rule's error comes back with the text
   * of the `expect` that turns it into a panic.
   */
  function StatementParse(ts: seq<Token>, p: nat): (r: Attempt)
    requires p <= |ts|
    ensures p <= r.pos <= |ts|
    ensures r.result.NoMatch? ==> r.pos == p
    ensures r.result.Found? ==> r.pos > p
    ensures r.result.Found? && WellTyped(ts) ==> IsStatement(r.result.node)
  {
    var d := IntDeclareParse(ts, p);
    if d.result.Fail? then Attempt(Fail("get int declare statement failed: " + d.result.msg), d.pos)
    else if d.result.Found? then d
    else
      var e := ExpressionStatementParse(ts, d.pos);
      if e.result.Fail? then Attempt(Fail("get expression statement failed: " + e.result.msg), e.pos)
      else if e.result.Found? then e
      else
        var a := AssignmentStatementParse(ts, e.pos);
        if a.result.Fail? then Attempt(Fail("get assignment statement failed: " + a.result.msg), a.pos)
        else a
  }

  /**
   * The loop of `get_root`: while a token remains, parse one statement and
   * append it; a rule's error panics, and no rule applying is "unknown
   * statement".
   */
  function RootLoop(ts: seq<Token>, p: nat, program: Node): (r: RootParse)
    requires p <= |ts|
    ensures r.result.Program? ==> r.pos == |ts|
    ensures r.result.Program? ==>
      && r.result.node.kind == program.kind && r.result.node.text == program.text
      && |r.result.node.children| >= |program.children|
      && r.result.node.children[..|program.children|] == program.children
    ensures r.result.Program? && WellTyped(ts) && AllStatements(program.children) ==> AllStatements(r.result.node.children)
    decreases |ts| - p
  {
    if p == |ts| then RootParse(RootResult.Program(program), p)
    else
      var s := StatementParse(ts, p);
      match s.result
      case Fail(msg) => RootParse(Panic(msg), s.pos)
      case NoMatch => RootParse(SyntaxError("unknown statement"), s.pos)
      case Found(n) => RootLoop(ts, s.pos, AddChild(program, n))
  }

  /** `get_root` on a fresh reader. */
  function RootOf(ts: seq<Token>): RootResult
  {
    RootLoop(ts, 0, EmptyProgram).result
  }

  /** `SimpleParser::parse`: tokenize the code, then `get_root`. */
  function ParseCode(alpha: char -> bool, code: string): RootResult
  {
    SimpleLexer.LexWellFormed(alpha, code);
    RootOf(SimpleLexer.TokensOf(SimpleLexer.Lex(alpha, code)))
  }

  // ----- The imperative code -----

  method Primary(r: SimpleTokenReader) returns (res: Parsed)
    requires r.Valid()
    modifies r
    ensures r.Valid()
    ensures Attempt(res, r.pos) == PrimaryParse(r.tokens, old(r.pos))
    decreases |r.tokens| - r.pos, 0
  {
    var t := r.Peek();
    if t.None? {
      return NoMatch;
    }
    match t.value.kind {
      case IntLiteral =>
        var tok := r.Read();
        res := Found(New(NodeType.IntLiteral, tok.value.text));
      case Identifier =>
        var tok := r.Read();
        res := Found(New(NodeType.Identifier, tok.value.text));
      case LeftParen =>
        var _ := r.Read();
        var node := Additive(r);
        if node.Fail? {
          return node;
        }
        if node.NoMatch? {
          return Fail("expecting an additive expression inside parenthesis");
        }
        var close := r.Peek();
        if close.None? || close.value.kind != TokenType.RightParen {
          return Fail("expecting right parenthesis");
        }
        var _ := r.Read();
        return node;
      case _ =>
        return NoMatch;
    }
  }

  method Multiplicative(r: SimpleTokenReader) returns (res: Parsed)
    requires r.Valid()
    modifies r
    ensures r.Valid()
    ensures Attempt(res, r.pos) == MultiplicativeParse(r.tokens, old(r.pos))
    decreases |r.tokens| - r.pos, 1
  {
    var child1 := Primary(r);
    if !child1.Found? {
      return child1;
    }
    var acc := child1.node;
    while true
      invariant r.Valid()
      invariant MultiplicativeLoop(r.tokens, r.pos, acc) == MultiplicativeParse(r.tokens, old(r.pos))
      decreases |r.tokens| - r.pos
    {
      var t := r.Peek();
      if t.None? || (t.value.kind != TokenType.Star && t.value.kind != TokenType.Slash) {
        break;
      }
      var op := r.Read();
      var child2 := Primary(r);
      if child2.Fail? {
        return child2;
      }
      if child2.NoMatch? {
        return Fail(ExpectRightPart);
      }
      acc := Binary(NodeType.Multiplicative, op.value.text, acc, child2.node);
    }
    return Found(acc);
  }

  method Additive(r: SimpleTokenReader) returns (res: Parsed)
    requires r.Valid()
    modifies r
    ensures r.Valid()
    ensures Attempt(res, r.pos) == AdditiveParse(r.tokens, old(r.pos))
    decreases |r.tokens| - r.pos, 2
  {
    var child1 := Multiplicative(r);
    if !child1.Found? {
      return child1;
    }
    var acc := child1.node;
    while true
      invariant r.Valid()
      invariant AdditiveLoop(r.tokens, r.pos, acc) == AdditiveParse(r.tokens, old(r.pos))
      decreases |r.tokens| - r.pos
    {
      var t := r.Peek();
      if t.None? || (t.value.kind != TokenType.Plus && t.value.kind != TokenType.Minus) {
        break;
      }
      var op := r.Read();
      var child2 := Multiplicative(r);
      if child2.Fail? {
        return child2;
      }
      if child2.NoMatch? {
        return Fail(ExpectRightPart);
      }
      acc := Binary(NodeType.Additive, op.value.text, acc, child2.node);
    }
    return Found(acc);
  }

  method ExpressionStatement(r: SimpleTokenReader) returns (res: Parsed)
    requires r.Valid()
    modifies r
    ensures r.Valid()
    ensures Attempt(res, r.pos) == ExpressionStatementParse(r.tokens, old(r.pos))
  {
    var pos := r.GetPosition();
    var node := Additive(r);
    if !node.Found? {
      return node;
    }
    var t := r.Peek();
    if t.Some? && t.value.kind == TokenType.SemiColon {
      var _ := r.Read();
      return node;
    }
    r.SetPosition(pos);
    return NoMatch;
  }

  method AssignmentStatement(r: SimpleTokenReader) returns (res: Parsed)
    requires r.Valid()
    modifies r
    ensures r.Valid()
    ensures Attempt(res, r.pos) == AssignmentStatementParse(r.tokens, old(r.pos))
  {
    ghost var p0 := r.pos;
    var t := r.Peek();
    if t.None? || t.value.kind != TokenType.Identifier {
      return NoMatch;
    }
    var name := r.Read();
    var node := New(NodeType.AssignmentStmt, name.value.text);
    assert r.pos == p0 + 1 && node == New(NodeType.AssignmentStmt, r.tokens[p0].text);
    t := r.Peek();
    if t.Some? && t.value.kind == TokenType.Assignment {
      var _ := r.Read();
      var child := Additive(r);
      assert AssignmentStatementParse(r.tokens, p0) == AssignedValueParse(r.tokens, r.tokens[p0].text, p0 + 2);
      if child.Fail? {
        return child;
      }
      if child.NoMatch? {
        return Fail("invalid assignment statement, expecting an expression");
      }
      node := AddChild(node, child.node);
      t := r.Peek();
      if t.None? || t.value.kind != TokenType.SemiColon {
        return Fail("invalid statement, expecting semicolon");
      }
      var _ := r.Read();
      return Found(node);
    }
    r.Unread();
    return NoMatch;
  }

  method IntDeclare(r: SimpleTokenReader) returns (res: Parsed)
    requires r.Valid()
    modifies r
    ensures r.Valid()
    ensures Attempt(res, r.pos) == IntDeclareParse(r.tokens, old(r.pos))
  {
    ghost var p0 := r.pos;
    var t := r.Peek();
    if t.None? || t.value.kind != TokenType.Int {
      return NoMatch;
    }
    var _ := r.Read();
    t := r.Peek();
    if t.None? || t.value.kind != TokenType.Identifier {
      return Fail("variable name expected");
    }
    var name := r.Read();
    var node := New(NodeType.IntDeclaration, name.value.text);
    assert r.pos == p0 + 2 && node == New(NodeType.IntDeclaration, r.tokens[p0 + 1].text);
    t := r.Peek();
    if t.Some? && t.value.kind == TokenType.Assignment {
      var _ := r.Read();
      var child := Additive(r);
      if child.Fail? {
        return child;
      }
      if child.NoMatch? {
        return Fail("invalid variable initialization, expecting an expression");
      }
      node := AddChild(node, child.node);
      assert InitializerParse(r.tokens, r.tokens[p0 + 1].text, p0 + 2) == ExpectSemicolon(r.tokens, node, r.pos);
    } else {
      assert InitializerParse(r.tokens, r.tokens[p0 + 1].text, p0 + 2) == ExpectSemicolon(r.tokens, node, r.pos);
    }
    t := r.Peek();
    if t.None? || t.value.kind != TokenType.SemiColon {
      return Fail("invalid statement, expecting semicolon");
    }
    var _ := r.Read();
    return Found(node);
  }

  method GetRoot(r: SimpleTokenReader) returns (res: RootResult)
    requires r.Valid()
    modifies r
    ensures r.Valid()
    ensures RootParse(res, r.pos) == RootLoop(r.tokens, old(r.pos), EmptyProgram)
  {
    var node := New(NodeType.Program, "SimpleParser");
    while true
      invariant r.Valid()
      invariant RootLoop(r.tokens, r.pos, node) == RootLoop(r.tokens, old(r.pos), EmptyProgram)
      decreases |r.tokens| - r.pos
    {
      var t := r.Peek();
      if t.None? {
        break;
      }
      var child := IntDeclare(r);
      if child.Fail? {
        return Panic("get int declare statement failed: " + child.msg);
      }
      if child.NoMatch? {
        child := ExpressionStatement(r);
        if child.Fail? {
          return Panic("get expression statement failed: " + child.msg);
        }
      }
      if child.NoMatch? {
        child := AssignmentStatement(r);
        if child.Fail? {
          return Panic("get assignment statement failed: " + child.msg);
        }
      }
      if child.NoMatch? {
        return SyntaxError("unknown statement");
      }
      node := AddChild(node, child.node);
    }
    return RootResult.Program(node);
  }

  method Parse(alpha: char -> bool, code: string) returns (res: RootResult)
    ensures res == ParseCode(alpha, code)
  {
    var tokens := SimpleLexer.Tokenize(alpha, code);
    res := GetRoot(tokens);
  }
}
