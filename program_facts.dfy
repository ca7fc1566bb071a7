// Facts about whole programs and about declarations: statements printed
// back to tokens parse to themselves, one after the other, and a
// declaration with a missing part panics with its rule's message.

module SimpleProgramFacts {
  import opened Wrappers
  import opened LexerTypes
  import opened TokenStream
  import opened Ast
  import opened SimpleParser
  import opened SimpleParserFacts

  // ----- Printing statements -----

  const Semi := Token(TokenType.SemiColon, ";")
  const Equals := Token(TokenType.Assignment, "=")

  /**
   * The tokens of one statement: `int name;`, `int name = e;`, `name = e;`
   * or `e;`, with the expression printed as `Print` does.
   */
  function StatementTokens(s: Node): (r: seq<Token>)
    requires IsStatement(s)
    ensures |r| > 0 && r[|r| - 1] == Semi
  {
    if s.kind == NodeType.IntDeclaration then
      var init := if |s.children| == 0 then [] else [Equals] + Print(s.children[0], 2);
      [Token(TokenType.Int, "int"), Token(TokenType.Identifier, s.text)] + init + [Semi]
    else if s.kind == NodeType.AssignmentStmt then
      [Token(TokenType.Identifier, s.text), Equals] + Print(s.children[0], 2) + [Semi]
    else
      Print(s, 2) + [Semi]
  }

  /** The tokens of a sequence of statements, one after the other. */
  function ProgramTokens(ss: seq<Node>): seq<Token>
    requires AllStatements(ss)
  {
    if ss == [] then [] else StatementTokens(ss[0]) + ProgramTokens(ss[1..])
  }

  lemma {:induction false} HoldsConcat(ts: seq<Token>, p: nat, a: seq<Token>, b: seq<Token>)
    requires HoldsAt(ts, p, a + b)
    ensures HoldsAt(ts, p, a) && HoldsAt(ts, p + |a|, b)
  {
    assert ts[p..p + |a|] == (a + b)[..|a|];
    assert ts[p + |a|..p + |a| + |b|] == (a + b)[|a|..];
  }

  /** Printed tokens followed by `;` parse back to the expression, stopping at the `;`. */
  lemma {:induction false} ExpressionBeforeSemicolon(ts: seq<Token>, p: nat, e: Node)
    requires IsExpr(e) && HoldsAt(ts, p, Print(e, 2) + [Semi])
    ensures p + Width(e, 2) < |ts| && ts[p + Width(e, 2)] == Semi
    ensures AdditiveParse(ts, p) == Attempt(Found(e), p + Width(e, 2))
    ensures StartsPrimary(At(ts, p))
  {
    var printed := Print(e, 2);
    var end := p + |printed|;
    SemicolonAfter(ts, p, printed);
    assert At(ts, p) == At(printed, 0);
    PrintSpells(ts, p, e, 2);
    SpelledBeforeSemicolon(ts, p, e, end);
  }

  lemma {:induction false} SpelledBeforeSemicolon(ts: seq<Token>, p: nat, e: Node, end: nat)
    requires IsExpr(e) && Spells(ts, p, e, 2) && end == p + Width(e, 2) < |ts| && ts[end] == Semi
    ensures AdditiveParse(ts, p) == Attempt(Found(e), end)
  {
    assert At(ts, end) == Some(Semi);
    AdditivePrefix(ts, p, e, end);
    AdditiveLoopStop(ts, end, e);
  }

  /** Tokens followed by `;`: where the `;` is, and what the first token is. */
  lemma {:induction false} SemicolonAfter(ts: seq<Token>, p: nat, printed: seq<Token>)
    requires |printed| > 0 && HoldsAt(ts, p, printed + [Semi])
    ensures HoldsAt(ts, p, printed)
    ensures p + |printed| < |ts| && ts[p + |printed|] == Semi
    ensures ts[p] == printed[0]
  {
    var end := p + |printed|;
    HoldsConcat(ts, p, printed, [Semi]);
    assert ts[end] == ts[end..end + 1][0] == Semi;
    assert ts[p] == ts[p..end][0] == printed[0];
  }

  // ----- Declarations -----

  /** `int name;` declares the name with no initialiser. */
  lemma {:induction false} DeclaredWithoutValue(ts: seq<Token>, p: nat)
    requires p + 2 < |ts| && ts[p].kind == TokenType.Int && ts[p + 1].kind == TokenType.Identifier
    requires ts[p + 2].kind == TokenType.SemiColon
    ensures IntDeclareParse(ts, p) == Attempt(Found(Node(NodeType.IntDeclaration, ts[p + 1].text, [])), p + 3)
  {
    assert IntDeclareParse(ts, p) == InitializerParse(ts, ts[p + 1].text, p + 2);
  }

  /** `int name = e;` declares the name with the expression the additive rule reads after `=`. */
  lemma {:induction false} DeclaredValue(ts: seq<Token>, p: nat, e: Node, end: nat)
    requires p + 2 < |ts| && ts[p].kind == TokenType.Int && ts[p + 1].kind == TokenType.Identifier
    requires ts[p + 2].kind == TokenType.Assignment
    requires p + 3 <= end < |ts| && ts[end].kind == TokenType.SemiColon
    requires AdditiveParse(ts, p + 3) == Attempt(Found(e), end)
    ensures IntDeclareParse(ts, p) == Attempt(Found(Node(NodeType.IntDeclaration, ts[p + 1].text, [e])), end + 1)
  {
    assert AddChild(New(NodeType.IntDeclaration, ts[p + 1].text), e) == Node(NodeType.IntDeclaration, ts[p + 1].text, [e]);
    assert IntDeclareParse(ts, p) == InitializerParse(ts, ts[p + 1].text, p + 2);
  }

  /** A declaration's error becomes the statement's, behind the text of its `expect`. */
  lemma {:induction false} DeclarationError(ts: seq<Token>, p: nat, reason: string)
    requires p < |ts| && IntDeclareParse(ts, p).result == Fail(reason)
    ensures StatementParse(ts, p).result == Fail("get int declare statement failed: " + reason)
  {
  }

  /** `int x = ;`: no expression after `=` panics. */
  lemma {:induction false} MissingInitializer(ts: seq<Token>, p: nat, program: Node)
    requires p + 2 < |ts| && ts[p].kind == TokenType.Int && ts[p + 1].kind == TokenType.Identifier
    requires ts[p + 2].kind == TokenType.Assignment && !StartsPrimary(At(ts, p + 3))
    ensures RootLoop(ts, p, program).result
      == Panic("get int declare statement failed: " + "invalid variable initialization, expecting an expression")
  {
    var reason := "invalid variable initialization, expecting an expression";
    assert IntDeclareParse(ts, p) == InitializerParse(ts, ts[p + 1].text, p + 2);
    assert AdditiveParse(ts, p + 3).result.NoMatch?;
    assert IntDeclareParse(ts, p).result == Fail(reason);
    DeclarationError(ts, p, reason);
    RuleErrorPanics(ts, p, program, "get int declare statement failed: " + reason);
  }

  /** `int x = e` with no `;` after the expression panics. */
  lemma {:induction false} UnterminatedInitializer(ts: seq<Token>, p: nat, e: Node, end: nat, program: Node)
    requires p + 2 < |ts| && ts[p].kind == TokenType.Int && ts[p + 1].kind == TokenType.Identifier
    requires ts[p + 2].kind == TokenType.Assignment
    requires AdditiveParse(ts, p + 3) == Attempt(Found(e), end) && !IsKind(At(ts, end), TokenType.SemiColon)
    ensures RootLoop(ts, p, program).result
      == Panic("get int declare statement failed: " + "invalid statement, expecting semicolon")
  {
    var reason := "invalid statement, expecting semicolon";
    assert IntDeclareParse(ts, p) == InitializerParse(ts, ts[p + 1].text, p + 2);
    assert IntDeclareParse(ts, p).result == Fail(reason);
    DeclarationError(ts, p, reason);
    RuleErrorPanics(ts, p, program, "get int declare statement failed: " + reason);
  }

  /** `int x` followed by neither `=` nor `;` panics. */
  lemma {:induction false} UnterminatedDeclaration(ts: seq<Token>, p: nat, program: Node)
    requires p + 1 < |ts| && ts[p].kind == TokenType.Int && ts[p + 1].kind == TokenType.Identifier
    requires !IsKind(At(ts, p + 2), TokenType.Assignment) && !IsKind(At(ts, p + 2), TokenType.SemiColon)
    ensures RootLoop(ts, p, program).result
      == Panic("get int declare statement failed: " + "invalid statement, expecting semicolon")
  {
    var reason := "invalid statement, expecting semicolon";
    assert IntDeclareParse(ts, p) == InitializerParse(ts, ts[p + 1].text, p + 2);
    assert IntDeclareParse(ts, p).result == Fail(reason);
    DeclarationError(ts, p, reason);
    RuleErrorPanics(ts, p, program, "get int declare statement failed: " + reason);
  }

  // ----- Statements read back -----

  /** An expression followed by `;` is taken by the expression-statement rule. */
  lemma {:induction false} ExpressionStatementTaken(ts: seq<Token>, p: nat, e: Node, end: nat)
    requires p < |ts| && StartsPrimary(At(ts, p))
    requires AdditiveParse(ts, p) == Attempt(Found(e), end) && end < |ts| && ts[end].kind == TokenType.SemiColon
    ensures StatementParse(ts, p) == Attempt(Found(e), end + 1)
  {
    assert IntDeclareParse(ts, p) == Attempt(NoMatch, p);
  }

  /** A statement the first two rules do not take is the assignment rule's. */
  lemma {:induction false} AssignmentTaken(ts: seq<Token>, p: nat, n: Node, end: nat)
    requires p < |ts| && ts[p].kind != TokenType.Int
    requires ExpressionStatementParse(ts, p) == Attempt(NoMatch, p)
    requires AssignmentStatementParse(ts, p) == Attempt(Found(n), end)
    ensures StatementParse(ts, p) == Attempt(Found(n), end)
  {
    assert IntDeclareParse(ts, p) == Attempt(NoMatch, p);
  }

  lemma {:induction false} ExpressionStatementSpelled(ts: seq<Token>, p: nat, e: Node)
    requires IsExpr(e) && HoldsAt(ts, p, Print(e, 2) + [Semi])
    ensures StatementParse(ts, p) == Attempt(Found(e), p + 1 + Width(e, 2))
  {
    ExpressionBeforeSemicolon(ts, p, e);
    ExpressionStatementTaken(ts, p, e, p + Width(e, 2));
  }

  /** Where the parts of a printed assignment sit. */
  lemma {:induction false} AssignmentLayout(ts: seq<Token>, p: nat, s: Node)
    requires s.kind == NodeType.AssignmentStmt && IsStatement(s)
    requires HoldsAt(ts, p, StatementTokens(s))
    ensures p + 2 < |ts| && ts[p] == Token(TokenType.Identifier, s.text) && ts[p + 1] == Equals
    ensures HoldsAt(ts, p + 2, Print(s.children[0], 2) + [Semi])
    ensures |StatementTokens(s)| == 3 + Width(s.children[0], 2)
  {
    var head := [Token(TokenType.Identifier, s.text), Equals];
    var tail := Print(s.children[0], 2) + [Semi];
    assert StatementTokens(s) == head + tail;
    HoldsConcat(ts, p, head, tail);
    assert ts[p] == ts[p..p + 2][0] && ts[p + 1] == ts[p..p + 2][1];
  }

  lemma {:induction false} AssignmentSpelled(ts: seq<Token>, p: nat, s: Node)
    requires s.kind == NodeType.AssignmentStmt && |s.children| == 1 && IsExpr(s.children[0])
    requires p + 2 < |ts| && ts[p] == Token(TokenType.Identifier, s.text) && ts[p + 1] == Equals
    requires HoldsAt(ts, p + 2, Print(s.children[0], 2) + [Semi])
    ensures StatementParse(ts, p) == Attempt(Found(s), p + 3 + Width(s.children[0], 2))
  {
    var e := s.children[0];
    ExpressionBeforeSemicolon(ts, p + 2, e);
    NameIsNotAStatement(ts, p);
    AssignedValue(ts, p, e, p + 2 + Width(e, 2));
    assert s == Node(NodeType.AssignmentStmt, ts[p].text, [e]);
    AssignmentTaken(ts, p, s, p + 3 + Width(e, 2));
  }

  /** Where the parts of a printed declaration sit. */
  lemma {:induction false} DeclarationLayout(ts: seq<Token>, p: nat, s: Node)
    requires s.kind == NodeType.IntDeclaration && IsStatement(s)
    requires HoldsAt(ts, p, StatementTokens(s))
    ensures p + 2 < |ts| && ts[p] == Token(TokenType.Int, "int") && ts[p + 1] == Token(TokenType.Identifier, s.text)
    ensures |s.children| == 0 ==> ts[p + 2] == Semi && |StatementTokens(s)| == 3
    ensures |s.children| == 1 ==>
      && ts[p + 2] == Equals && HoldsAt(ts, p + 3, Print(s.children[0], 2) + [Semi])
      && |StatementTokens(s)| == 4 + Width(s.children[0], 2)
  {
    var name := [Token(TokenType.Int, "int"), Token(TokenType.Identifier, s.text)];
    if |s.children| == 0 {
      assert StatementTokens(s) == name + [Semi];
      assert ts[p] == ts[p..p + 3][0] && ts[p + 1] == ts[p..p + 3][1] && ts[p + 2] == ts[p..p + 3][2];
    } else {
      var head := name + [Equals];
      var tail := Print(s.children[0], 2) + [Semi];
      assert StatementTokens(s) == head + tail;
      HoldsConcat(ts, p, head, tail);
      assert ts[p] == ts[p..p + 3][0] && ts[p + 1] == ts[p..p + 3][1] && ts[p + 2] == ts[p..p + 3][2];
    }
  }

  lemma {:induction false} DeclarationSpelled(ts: seq<Token>, p: nat, s: Node)
    requires s.kind == NodeType.IntDeclaration && |s.children| == 1 && IsExpr(s.children[0])
    requires p + 2 < |ts| && ts[p] == Token(TokenType.Int, "int") && ts[p + 1] == Token(TokenType.Identifier, s.text)
    requires ts[p + 2] == Equals && HoldsAt(ts, p + 3, Print(s.children[0], 2) + [Semi])
    ensures StatementParse(ts, p) == Attempt(Found(s), p + 4 + Width(s.children[0], 2))
  {
    var e := s.children[0];
    ExpressionBeforeSemicolon(ts, p + 3, e);
    DeclaredValue(ts, p, e, p + 3 + Width(e, 2));
    assert s == Node(NodeType.IntDeclaration, ts[p + 1].text, [e]);
  }

  /** The printed tokens of any statement parse back to it and are read to the end. */
  lemma {:induction false} StatementSpelled(ts: seq<Token>, p: nat, s: Node)
    requires IsStatement(s) && HoldsAt(ts, p, StatementTokens(s))
    ensures StatementParse(ts, p) == Attempt(Found(s), p + |StatementTokens(s)|)
  {
    if s.kind == NodeType.IntDeclaration {
      DeclarationLayout(ts, p, s);
      if |s.children| == 0 {
        DeclaredWithoutValue(ts, p);
        assert s == Node(NodeType.IntDeclaration, s.text, []);
      } else {
        DeclarationSpelled(ts, p, s);
      }
    } else if s.kind == NodeType.AssignmentStmt {
      AssignmentLayout(ts, p, s);
      AssignmentSpelled(ts, p, s);
    } else {
      assert StatementTokens(s) == Print(s, 2) + [Semi];
      ExpressionStatementSpelled(ts, p, s);
    }
  }

  // ----- Programs read back -----

  /** One turn of `get_root`'s loop: a statement found is appended and the loop goes on after it. */
  lemma {:induction false} RootStep(ts: seq<Token>, p: nat, s: Node, q: nat, program: Node)
    requires p < |ts| && q <= |ts| && StatementParse(ts, p) == Attempt(Found(s), q)
    ensures RootLoop(ts, p, program) == RootLoop(ts, q, AddChild(program, s))
  {
  }

  lemma {:induction false} AllStatementsTail(ss: seq<Node>)
    requires AllStatements(ss) && ss != []
    ensures IsStatement(ss[0]) && AllStatements(ss[1..])
  {
    assert forall i :: 0 <= i < |ss| - 1 ==> ss[1..][i] == ss[i + 1];
  }

  lemma {:induction false} ProgramTokensSplit(ts: seq<Token>, p: nat, ss: seq<Node>)
    requires AllStatements(ss) && ss != [] && HoldsAt(ts, p, ProgramTokens(ss))
    ensures IsStatement(ss[0]) && AllStatements(ss[1..])
    ensures HoldsAt(ts, p, StatementTokens(ss[0]))
    ensures HoldsAt(ts, p + |StatementTokens(ss[0])|, ProgramTokens(ss[1..]))
    ensures |ProgramTokens(ss)| == |StatementTokens(ss[0])| + |ProgramTokens(ss[1..])|
  {
    AllStatementsTail(ss);
    var head, tail := StatementTokens(ss[0]), ProgramTokens(ss[1..]);
    assert ProgramTokens(ss) == head + tail;
    HoldsConcat(ts, p, head, tail);
  }

  /** The statements `ss` parse one after another from `p`, and the last ends the stream. */
  ghost predicate ParsedInTurn(ts: seq<Token>, p: nat, ss: seq<Node>)
    requires p <= |ts|
    decreases |ss|
  {
    if ss == [] then p == |ts|
    else
      var a := StatementParse(ts, p);
      p < |ts| && a.result == Found(ss[0]) && ParsedInTurn(ts, a.pos, ss[1..])
  }

  /** Printed statements that run to the end of the stream are parsed in turn. */
  lemma {:induction false} PrintedParsedInTurn(ts: seq<Token>, p: nat, ss: seq<Node>)
    requires AllStatements(ss) && HoldsAt(ts, p, ProgramTokens(ss)) && p + |ProgramTokens(ss)| == |ts|
    ensures ParsedInTurn(ts, p, ss)
    decreases |ss|
  {
    if ss != [] {
      FirstPrinted(ts, p, ss);
      PrintedParsedInTurn(ts, StatementParse(ts, p).pos, ss[1..]);
    }
  }

  /** The first printed statement is parsed, and the rest are printed after it. */
  lemma {:induction false} FirstPrinted(ts: seq<Token>, p: nat, ss: seq<Node>)
    requires AllStatements(ss) && ss != [] && HoldsAt(ts, p, ProgramTokens(ss)) && p + |ProgramTokens(ss)| == |ts|
    ensures p < |ts| && StatementParse(ts, p).result == Found(ss[0])
    ensures var q := StatementParse(ts, p).pos;
      AllStatements(ss[1..]) && HoldsAt(ts, q, ProgramTokens(ss[1..])) && q + |ProgramTokens(ss[1..])| == |ts|
  {
    ProgramTokensSplit(ts, p, ss);
    StatementSpelled(ts, p, ss[0]);
  }

  /** `get_root`'s loop over statements parsed in turn appends exactly them, in order. */
  lemma {:induction false} LoopAppends(ts: seq<Token>, p: nat, ss: seq<Node>, program: Node)
    requires p <= |ts| && ParsedInTurn(ts, p, ss)
    ensures RootLoop(ts, p, program) == RootParse(RootResult.Program(program.(children := program.children + ss)), |ts|)
    decreases |ss|
  {
    if ss == [] {
      RootEnd(ts, program);
      assert program.children + ss == program.children;
    } else {
      var a := StatementParse(ts, p);
      RootStep(ts, p, ss[0], a.pos, program);
      LoopAppends(ts, a.pos, ss[1..], AddChild(program, ss[0]));
      AppendFirst(program, ss);
    }
  }

  /**
   * `get_root`'s loop over the printed tokens of a statement sequence that
   * runs to the end of the stream appends exactly those statements, in
   * order, after the children already there.
   */
  lemma {:induction false} ProgramSpelled(ts: seq<Token>, p: nat, ss: seq<Node>, program: Node)
    requires AllStatements(ss) && HoldsAt(ts, p, ProgramTokens(ss)) && p + |ProgramTokens(ss)| == |ts|
    ensures RootLoop(ts, p, program) == RootParse(RootResult.Program(program.(children := program.children + ss)), |ts|)
  {
    PrintedParsedInTurn(ts, p, ss);
    LoopAppends(ts, p, ss, program);
  }

  lemma {:induction false} RootEnd(ts: seq<Token>, program: Node)
    ensures RootLoop(ts, |ts|, program) == RootParse(RootResult.Program(program), |ts|)
  {
  }

  lemma {:induction false} AppendFirst(program: Node, ss: seq<Node>)
    requires ss != []
    ensures var next := AddChild(program, ss[0]);
      next.(children := next.children + ss[1..]) == program.(children := program.children + ss)
  {
    assert program.children + [ss[0]] + ss[1..] == program.children + ss;
  }

  /** The round trip of the statement grammar: a program printed to tokens parses back to the same tree. */
  lemma {:induction false} ProgramRoundTrip(ss: seq<Node>)
    requires AllStatements(ss)
    ensures RootOf(ProgramTokens(ss)) == RootResult.Program(Node(NodeType.Program, "SimpleParser", ss))
  {
    var ts := ProgramTokens(ss);
    assert ts[0..|ts|] == ts;
    ProgramSpelled(ts, 0, ss, EmptyProgram);
    assert EmptyProgram.children + ss == ss;
  }
}
