/**
 * The parser's test script taken the whole way: its characters through the
 * lexer, the tokens through the parser, and the tree through the evaluator.
 */
module PipelineExamples {
  import opened Wrappers
  import opened LexerTypes
  import SimpleLexer
  import SimpleLexerExamples
  import opened Ast
  import opened SimpleParser
  import opened SimpleParserFacts
  import opened SimpleProgramFacts
  import Script
  import ScriptExamples

  /** The three statements of the script are statements the parser builds. */
  lemma AgeProgramStatements()
    ensures AllStatements(ScriptExamples.AgeProgram())
  {
  }

  /** Reading tokens as the parser sees them goes piece by piece. */
  lemma TokensOfAppend(a: seq<SimpleLexer.SimpleToken>, b: seq<SimpleLexer.SimpleToken>)
    requires forall i :: 0 <= i < |a| ==> a[i].tokenType.Some?
    requires forall i :: 0 <= i < |b| ==> b[i].tokenType.Some?
    ensures SimpleLexer.TokensOf(a + b) == SimpleLexer.TokensOf(a) + SimpleLexer.TokensOf(b)
  {
  }

  lemma AgeExpressionSpelled()
    ensures IsStatement(ScriptExamples.AgeProgram()[2])
    ensures SimpleLexer.TokensOf(SimpleLexerExamples.AgeExpressionTokens()) == StatementTokens(ScriptExamples.AgeProgram()[2])
  {
  }

  lemma Regroup<T>(a: seq<T>, b: seq<T>, c: seq<T>)
    ensures a + (b + c) == (a + b) + c
  {
  }

  lemma AgeAssignmentSpelled()
    ensures IsStatement(ScriptExamples.AgeProgram()[1]) && IsStatement(ScriptExamples.AgeProgram()[2])
    ensures SimpleLexer.TokensOf(SimpleLexerExamples.AgeAssignmentTokens())
         == StatementTokens(ScriptExamples.AgeProgram()[1]) + StatementTokens(ScriptExamples.AgeProgram()[2])
  {
    var name := [SimpleLexerExamples.Tok(TokenType.Identifier, "age"), SimpleLexerExamples.Tok(TokenType.Assignment, "=")];
    var value := [SimpleLexerExamples.Tok(TokenType.IntLiteral, "20"), SimpleLexerExamples.Tok(TokenType.SemiColon, ";")];
    var rest := SimpleLexerExamples.AgeExpressionTokens();
    TokensOfAppend(name, value + rest);
    TokensOfAppend(value, rest);
    AgeExpressionSpelled();
    AssignmentStatementSpelled();
    Regroup(SimpleLexer.TokensOf(name), SimpleLexer.TokensOf(value), SimpleLexer.TokensOf(rest));
  }

  lemma AssignmentStatementSpelled()
    ensures IsStatement(ScriptExamples.AgeProgram()[1])
    ensures SimpleLexer.TokensOf([SimpleLexerExamples.Tok(TokenType.Identifier, "age"), SimpleLexerExamples.Tok(TokenType.Assignment, "=")])
            + SimpleLexer.TokensOf([SimpleLexerExamples.Tok(TokenType.IntLiteral, "20"), SimpleLexerExamples.Tok(TokenType.SemiColon, ";")])
         == StatementTokens(ScriptExamples.AgeProgram()[1])
  {
  }

  lemma DeclarationStatementSpelled()
    ensures IsStatement(ScriptExamples.AgeProgram()[0])
    ensures SimpleLexer.TokensOf([SimpleLexerExamples.Tok(TokenType.Int, "int")])
            + (SimpleLexer.TokensOf([SimpleLexerExamples.Tok(TokenType.Identifier, "age")])
               + (SimpleLexer.TokensOf([SimpleLexerExamples.Tok(TokenType.Assignment, "=")])
                  + SimpleLexer.TokensOf([SimpleLexerExamples.Tok(TokenType.IntLiteral, "45"), SimpleLexerExamples.Tok(TokenType.Plus, "+"),
                                          SimpleLexerExamples.Tok(TokenType.IntLiteral, "2"), SimpleLexerExamples.Tok(TokenType.SemiColon, ";")])))
         == StatementTokens(ScriptExamples.AgeProgram()[0])
  {
  }

  lemma AgeDeclarationSpelled()
    ensures AllStatements(ScriptExamples.AgeProgram())
    ensures SimpleLexer.TokensOf(SimpleLexerExamples.AgeScriptTokens())
         == StatementTokens(ScriptExamples.AgeProgram()[0])
            + (StatementTokens(ScriptExamples.AgeProgram()[1]) + StatementTokens(ScriptExamples.AgeProgram()[2]))
  {
    var keyword := [SimpleLexerExamples.Tok(TokenType.Int, "int")];
    var name := [SimpleLexerExamples.Tok(TokenType.Identifier, "age")];
    var sign := [SimpleLexerExamples.Tok(TokenType.Assignment, "=")];
    var value := [SimpleLexerExamples.Tok(TokenType.IntLiteral, "45"), SimpleLexerExamples.Tok(TokenType.Plus, "+"),
                  SimpleLexerExamples.Tok(TokenType.IntLiteral, "2"), SimpleLexerExamples.Tok(TokenType.SemiColon, ";")];
    var rest := SimpleLexerExamples.AgeAssignmentTokens();
    TokensOfAppend(keyword, name + (sign + (value + rest)));
    TokensOfAppend(name, sign + (value + rest));
    TokensOfAppend(sign, value + rest);
    TokensOfAppend(value, rest);
    var k, n, g, v := SimpleLexer.TokensOf(keyword), SimpleLexer.TokensOf(name), SimpleLexer.TokensOf(sign), SimpleLexer.TokensOf(value);
    var r := SimpleLexer.TokensOf(rest);
    Regroup(g, v, r);
    Regroup(n, g + v, r);
    Regroup(k, n + (g + v), r);
    DeclarationStatementSpelled();
    AgeAssignmentSpelled();
    AgeProgramStatements();
  }

  /** The tokens the lexer produces are the tokens the statements are written with. */
  lemma AgeTokensSpellProgram()
    ensures AllStatements(ScriptExamples.AgeProgram())
    ensures SimpleLexer.TokensOf(SimpleLexerExamples.AgeScriptTokens()) == ProgramTokens(ScriptExamples.AgeProgram())
  {
    var ss := ScriptExamples.AgeProgram();
    AgeDeclarationSpelled();
    assert ss[1..][1..][1..] == [];
    assert ProgramTokens(ss[1..][1..]) == StatementTokens(ss[2]) + ProgramTokens(ss[1..][1..][1..]);
    assert ProgramTokens(ss) == StatementTokens(ss[0]) + (StatementTokens(ss[1]) + (StatementTokens(ss[2]) + []));
  }

  /**
   * `int age = 45+2; age= 20; age+10*2;` parses to the program of its three
   * statements, and running that program gives 40 with `age` bound to 20.
   */
  lemma AgeScriptEndToEnd(alpha: char -> bool)
    requires SimpleLexer.IsAlphabeticClass(alpha)
    ensures ParseCode(alpha, "int age = 45+2; age= 20; age+10*2;")
         == RootResult.Program(Node(NodeType.Program, "SimpleParser", ScriptExamples.AgeProgram()))
    ensures Script.Eval(Node(NodeType.Program, "SimpleParser", ScriptExamples.AgeProgram()), map[])
         == (Script.Outcome.Ok(40), map["age" := 20])
  {
    SimpleLexerExamples.AgeScriptLex(alpha);
    AgeTokensSpellProgram();
    ProgramRoundTrip(ScriptExamples.AgeProgram());
    ScriptExamples.AgeScript();
  }
}
