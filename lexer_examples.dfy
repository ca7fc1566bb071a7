/** Scripts run through the automaton, with the tokens it produces for each. */
module SimpleLexerExamples {
  import opened Wrappers
  import opened LexerTypes
  import opened SimpleLexer
  import opened SimpleLexerRoundTrip
  import opened SimpleLexerFacts

  function Tok(kind: TokenType, text: string): SimpleToken
  {
    SimpleToken(Some(kind), text)
  }

  /** The classes of the ASCII characters these examples use. */
  lemma Letters(alpha: char -> bool)
    requires IsAlphabeticClass(alpha)
    ensures alpha('a') && alpha('b') && alpha('c') && alpha('d') && alpha('e') && alpha('g')
    ensures alpha('i') && alpha('n') && alpha('t')
    ensures !alpha('4') && !alpha('5') && !alpha(';') && !alpha('=') && !alpha('>') && !alpha('_')
    ensures !alpha('0') && !alpha('1') && !alpha('2') && !alpha('+') && !alpha('*')
  {
    assert 'a' as int < 128 && 'b' as int < 128 && 'c' as int < 128 && 'd' as int < 128;
    assert 'e' as int < 128 && 'g' as int < 128 && 'i' as int < 128 && 'n' as int < 128 && 't' as int < 128;
    assert '4' as int < 128 && '5' as int < 128 && ';' as int < 128 && '=' as int < 128;
    assert '>' as int < 128 && '_' as int < 128;
    assert '0' as int < 128 && '1' as int < 128 && '2' as int < 128 && '+' as int < 128 && '*' as int < 128;
  }

  /** At the end of input a pending token is pushed as it stands. */
  lemma {:induction false} FinishPending(alpha: char -> bool, st: LexState)
    requires st.text != [] && !alpha('_')
    ensures Finish(alpha, st) == st.tokens + [st.token.(text := st.text)]
  {
    assert '_' as int < 128;
  }

  /** `LexSplitAtWhitespace` at a space, for a script written out in full. */
  lemma {:induction false} SplitAt(alpha: char -> bool, s1: string, s2: string, script: string)
    requires IsAlphabeticClass(alpha)
    requires script == s1 + " " + s2
    requires RunFrom(alpha, Start, s1).state != DfaState.IdInt3
    ensures Lex(alpha, script) == Lex(alpha, s1) + Lex(alpha, s2)
  {
    LexSplitAtWhitespace(alpha, s1, ' ', s2);
  }

  /** A word that does not start with `i` is one token, of the kind its first character sets. */
  lemma {:induction false} WordLex(alpha: char -> bool, w: string, kind: TokenType)
    requires IsAlphabeticClass(alpha)
    requires |w| > 0 && w[0] != 'i'
    requires forall i :: 0 <= i < |w| ==> IsWordChar(alpha, w[i])
    requires kind == (if alpha(w[0]) then TokenType.Identifier else TokenType.IntLiteral)
    ensures RunFrom(alpha, Start, w) == LexState(DfaState.Id, w, [], SimpleToken(Some(kind), ""))
    ensures Lex(alpha, w) == [Tok(kind, w)]
  {
    var c := w[0];
    assert IsAsciiDigit(c) ==> c as int < 128;
    assert '_' as int < 128;
    var s1 := LexState(DfaState.Id, [c], [], SimpleToken(Some(kind), ""));
    assert Step(alpha, Start, c) == s1;
    assert w == [c] + w[1..];
    RunCons(alpha, Start, c, w[1..]);
    RunWord(alpha, s1, w[1..]);
    assert [c] + w[1..] == w;
    FinishPending(alpha, LexState(DfaState.Id, w, [], SimpleToken(Some(kind), "")));
  }

  // ----- Pieces -----

  /** A word ends at the first character that is neither a letter nor a digit. */
  lemma {:induction false} WordSplit(alpha: char -> bool, w: string, kind: TokenType, c: char, s2: string)
    requires IsAlphabeticClass(alpha)
    requires |w| > 0 && w[0] != 'i'
    requires forall i :: 0 <= i < |w| ==> IsWordChar(alpha, w[i])
    requires kind == (if alpha(w[0]) then TokenType.Identifier else TokenType.IntLiteral)
    requires !alpha(c) && !IsAsciiDigit(c)
    ensures Lex(alpha, w + [c] + s2) == [Tok(kind, w)] + Lex(alpha, [c] + s2)
  {
    WordLex(alpha, w, kind);
    LexSplitBefore(alpha, w, c, s2);
  }

  /** An operator other than `>` is a one-character token whatever follows it. */
  lemma {:induction false} OperatorSplit(alpha: char -> bool, o: char, s2: string)
    requires IsAlphabeticClass(alpha)
    requires OperatorStart(o).Some? && o != '>'
    ensures Lex(alpha, [o] + s2) == [Tok(OperatorStart(o).value.1, [o])] + Lex(alpha, s2)
  {
    OperatorIsNotAlphabetic(alpha, o);
    var st := LexState(OperatorStart(o).value.0, [o], [], SimpleToken(Some(OperatorStart(o).value.1), ""));
    RunOne(alpha, Start, o);
    assert Step(alpha, Start, o) == st;
    FinishPending(alpha, st);
    if s2 == [] {
      assert [o] + s2 == [o];
    } else {
      assert Step(alpha, st, s2[0]) == Seed(alpha, s2[0], st);
      LexSplitBefore(alpha, [o], s2[0], s2[1..]);
      assert [o] + [s2[0]] + s2[1..] == [o] + s2;
    }
  }

  /** Only a `t` can complete a token-initial `int`. */
  lemma {:induction false} NoKeywordAfter(alpha: char -> bool, s: string)
    requires |s| > 0 && s[|s| - 1] != 't'
    ensures RunFrom(alpha, Start, s).state != DfaState.IdInt3
  {
    var last := s[|s| - 1];
    assert s == s[..|s| - 1] + [last];
    RunAppend(alpha, Start, s[..|s| - 1], [last]);
    RunOne(alpha, RunFrom(alpha, Start, s[..|s| - 1]), last);
  }

  lemma AgeWord(alpha: char -> bool)
    requires IsAlphabeticClass(alpha)
    ensures RunFrom(alpha, Start, "age").state == DfaState.Id
    ensures Lex(alpha, "age") == [Tok(TokenType.Identifier, "age")]
  {
    Letters(alpha);
    WordLex(alpha, "age", TokenType.Identifier);
  }

  lemma AssignSign(alpha: char -> bool)
    requires IsAlphabeticClass(alpha)
    ensures RunFrom(alpha, Start, "=").state == DfaState.Assignment
    ensures Lex(alpha, "=") == [Tok(TokenType.Assignment, "=")]
  {
    Letters(alpha);
    RunOne(alpha, Start, '=');
    var st := LexState(DfaState.Assignment, "=", [], SimpleToken(Some(TokenType.Assignment), ""));
    assert Step(alpha, Start, '=') == st;
    FinishPending(alpha, st);
  }

  lemma LiteralThenSemicolon(alpha: char -> bool)
    requires IsAlphabeticClass(alpha)
    ensures Lex(alpha, "45;") == [Tok(TokenType.IntLiteral, "45"), Tok(TokenType.SemiColon, ";")]
  {
    Letters(alpha);
    WordLex(alpha, "45", TokenType.IntLiteral);
    assert "45;" == "45" + ";";
    RunAppend(alpha, Start, "45", ";");
    var st := LexState(DfaState.Id, "45", [], SimpleToken(Some(TokenType.IntLiteral), ""));
    RunOne(alpha, st, ';');
    var st1 := LexState(DfaState.SemiColon, ";", [Tok(TokenType.IntLiteral, "45")], SimpleToken(Some(TokenType.SemiColon), ""));
    assert Step(alpha, st, ';') == st1;
    FinishPending(alpha, st1);
  }

  lemma AssignThen45(alpha: char -> bool)
    requires IsAlphabeticClass(alpha)
    ensures Lex(alpha, "= 45;") == [Tok(TokenType.Assignment, "="), Tok(TokenType.IntLiteral, "45"), Tok(TokenType.SemiColon, ";")]
  {
    AssignSign(alpha);
    LiteralThenSemicolon(alpha);
    SplitAt(alpha, "=", "45;", "= 45;");
  }

  /** `age = 45;`: a name, `=`, a literal and `;`. */
  lemma AgeIs45(alpha: char -> bool)
    requires IsAlphabeticClass(alpha)
    ensures Lex(alpha, "age = 45;") == AgeIs45Tokens()
  {
    AgeWord(alpha);
    AssignThen45(alpha);
    SplitJoin(alpha, "age", "= 45;", "age = 45;", [Tok(TokenType.Identifier, "age")],
              [Tok(TokenType.Assignment, "="), Tok(TokenType.IntLiteral, "45"), Tok(TokenType.SemiColon, ";")], AgeIs45Tokens());
  }

  /** `SplitAt`, with the tokens of both sides known. */
  lemma {:induction false} SplitJoin(alpha: char -> bool, s1: string, s2: string, script: string,
                                     xs: seq<SimpleToken>, ys: seq<SimpleToken>, r: seq<SimpleToken>)
    requires IsAlphabeticClass(alpha)
    requires script == s1 + " " + s2
    requires RunFrom(alpha, Start, s1).state != DfaState.IdInt3
    requires Lex(alpha, s1) == xs && Lex(alpha, s2) == ys && xs + ys == r
    ensures Lex(alpha, script) == r
  {
    SplitAt(alpha, s1, s2, script);
  }

  function AgeIs45Tokens(): seq<SimpleToken>
  {
    [Tok(TokenType.Identifier, "age"), Tok(TokenType.Assignment, "="), Tok(TokenType.IntLiteral, "45"), Tok(TokenType.SemiColon, ";")]
  }

  // ----- The examples -----

  /** A token-initial `int` and a space before `s2`: the keyword, then the tokens of `s2`. */
  lemma {:induction false} KeywordSplit(alpha: char -> bool, s2: string, script: string)
    requires IsAlphabeticClass(alpha)
    requires script == "int" + " " + s2
    ensures Lex(alpha, script) == [Tok(TokenType.Int, "int")] + Lex(alpha, s2)
  {
    IntPrefixRuns(alpha);
    KeywordAtEnd(alpha);
    LexKeywordAtWhitespace(alpha, "int", ' ', s2);
  }

  /** `int age = 45;`: the keyword `int` starts a declaration. */
  lemma Declaration(alpha: char -> bool)
    requires IsAlphabeticClass(alpha)
    ensures Lex(alpha, "int age = 45;") == [Tok(TokenType.Int, "int")] + AgeIs45Tokens()
  {
    KeywordSplit(alpha, "age = 45;", "int age = 45;");
    AgeIs45(alpha);
  }

  lemma IntaWord(alpha: char -> bool)
    requires IsAlphabeticClass(alpha)
    ensures RunFrom(alpha, Start, "inta").state == DfaState.Id
    ensures Lex(alpha, "inta") == [Tok(TokenType.Identifier, "inta")]
  {
    Letters(alpha);
    assert IsIdentifierWord(alpha, "inta");
    LongIRun(alpha, "inta");
    FinishPending(alpha, LexState(DfaState.Id, "inta", [], SimpleToken(Some(TokenType.Identifier), "")));
  }

  /** `inta age = 45;`: `int` followed by a letter is part of a name. */
  lemma NotAKeyword(alpha: char -> bool)
    requires IsAlphabeticClass(alpha)
    ensures Lex(alpha, "inta age = 45;") == [Tok(TokenType.Identifier, "inta")] + AgeIs45Tokens()
  {
    IntaSplit(alpha, "age = 45;", "inta age = 45;");
    AgeIs45(alpha);
  }

  lemma {:induction false} IntaSplit(alpha: char -> bool, s2: string, script: string)
    requires IsAlphabeticClass(alpha)
    requires script == "inta" + " " + s2
    ensures Lex(alpha, script) == [Tok(TokenType.Identifier, "inta")] + Lex(alpha, s2)
  {
    IntaWord(alpha);
    SplitAt(alpha, "inta", s2, script);
  }

  /** `int;` is the one name `int;`: only whitespace after `int` makes the keyword. */
  lemma KeywordNeedsWhitespace(alpha: char -> bool)
    requires IsAlphabeticClass(alpha)
    ensures Lex(alpha, "int;") == [Tok(TokenType.Identifier, "int;")]
  {
    Letters(alpha);
    IntPrefixRuns(alpha);
    assert "int;" == "int" + ";";
    RunAppend(alpha, Start, "int", ";");
    RunOne(alpha, IntPrefixState(3), ';');
    var st := LexState(DfaState.Id, "int;", [], SimpleToken(Some(TokenType.Identifier), ""));
    assert Step(alpha, IntPrefixState(3), ';') == st;
    FinishPending(alpha, st);
  }

  /** `int` at the end of the input is a name. */
  lemma KeywordAtEnd(alpha: char -> bool)
    requires IsAlphabeticClass(alpha)
    ensures Lex(alpha, "int") == [Tok(TokenType.Identifier, "int")]
  {
    Letters(alpha);
    IntPrefixRuns(alpha);
    FinishPending(alpha, IntPrefixState(3));
  }

  /** `in age` is the names `in` and `age`. */
  lemma ShortPrefix(alpha: char -> bool)
    requires IsAlphabeticClass(alpha)
    ensures Lex(alpha, "in age") == [Tok(TokenType.Identifier, "in"), Tok(TokenType.Identifier, "age")]
  {
    Letters(alpha);
    IntPrefixRuns(alpha);
    FinishPending(alpha, IntPrefixState(2));
    AgeWord(alpha);
    SplitJoin(alpha, "in", "age", "in age", [Tok(TokenType.Identifier, "in")], [Tok(TokenType.Identifier, "age")],
              [Tok(TokenType.Identifier, "in"), Tok(TokenType.Identifier, "age")]);
  }

  /** `id` is split into the names `i` and `d`. */
  lemma SplitAfterI(alpha: char -> bool)
    requires IsAlphabeticClass(alpha)
    ensures Lex(alpha, "id") == [Tok(TokenType.Identifier, "i"), Tok(TokenType.Identifier, "d")]
  {
    Letters(alpha);
    IntPrefixRuns(alpha);
    assert "id" == "i" + "d";
    RunAppend(alpha, Start, "i", "d");
    RunOne(alpha, IntPrefixState(1), 'd');
    var st := LexState(DfaState.Id, "d", [Tok(TokenType.Identifier, "i")], SimpleToken(Some(TokenType.Identifier), ""));
    assert Step(alpha, IntPrefixState(1), 'd') == st;
    FinishPending(alpha, st);
  }

  /** `45abc` is one literal: a digit starts a word that letters go on extending. */
  lemma LiteralRunsIntoLetters(alpha: char -> bool)
    requires IsAlphabeticClass(alpha)
    ensures Lex(alpha, "45abc") == [Tok(TokenType.IntLiteral, "45abc")]
  {
    Letters(alpha);
    WordLex(alpha, "45abc", TokenType.IntLiteral);
  }

  lemma Greater(alpha: char -> bool)
    requires IsAlphabeticClass(alpha)
    ensures RunFrom(alpha, Start, ">").state == DfaState.GT
    ensures RunFrom(alpha, Start, ">=").state == DfaState.GE
    ensures Lex(alpha, ">") == [Tok(TokenType.GT, ">")]
    ensures Lex(alpha, ">=") == [Tok(TokenType.GE, ">=")]
  {
    Letters(alpha);
    RunOne(alpha, Start, '>');
    var gt := LexState(DfaState.GT, ">", [], SimpleToken(Some(TokenType.GT), ""));
    assert Step(alpha, Start, '>') == gt;
    FinishPending(alpha, gt);
    assert ">=" == ">" + "=";
    RunAppend(alpha, Start, ">", "=");
    RunOne(alpha, gt, '=');
    var ge := LexState(DfaState.GE, ">=", [], SimpleToken(Some(TokenType.GE), ""));
    assert Step(alpha, gt, '=') == ge;
    FinishPending(alpha, ge);
  }

  lemma GreaterThen45(alpha: char -> bool)
    requires IsAlphabeticClass(alpha)
    ensures Lex(alpha, ">= 45;") == [Tok(TokenType.GE, ">="), Tok(TokenType.IntLiteral, "45"), Tok(TokenType.SemiColon, ";")]
    ensures Lex(alpha, "> 45;") == [Tok(TokenType.GT, ">"), Tok(TokenType.IntLiteral, "45"), Tok(TokenType.SemiColon, ";")]
  {
    Greater(alpha);
    LiteralThenSemicolon(alpha);
    var lit := [Tok(TokenType.IntLiteral, "45"), Tok(TokenType.SemiColon, ";")];
    SplitJoin(alpha, ">=", "45;", ">= 45;", [Tok(TokenType.GE, ">=")], lit, [Tok(TokenType.GE, ">="), Tok(TokenType.IntLiteral, "45"), Tok(TokenType.SemiColon, ";")]);
    SplitJoin(alpha, ">", "45;", "> 45;", [Tok(TokenType.GT, ">")], lit, [Tok(TokenType.GT, ">"), Tok(TokenType.IntLiteral, "45"), Tok(TokenType.SemiColon, ";")]);
  }

  /** `age >= 45;` has the one token `>=`. */
  lemma GreaterOrEqual(alpha: char -> bool)
    requires IsAlphabeticClass(alpha)
    ensures Lex(alpha, "age >= 45;") == [Tok(TokenType.Identifier, "age"), Tok(TokenType.GE, ">="), Tok(TokenType.IntLiteral, "45"), Tok(TokenType.SemiColon, ";")]
  {
    AgeWord(alpha);
    GreaterThen45(alpha);
    SplitJoin(alpha, "age", ">= 45;", "age >= 45;", [Tok(TokenType.Identifier, "age")],
              [Tok(TokenType.GE, ">="), Tok(TokenType.IntLiteral, "45"), Tok(TokenType.SemiColon, ";")],
              [Tok(TokenType.Identifier, "age"), Tok(TokenType.GE, ">="), Tok(TokenType.IntLiteral, "45"), Tok(TokenType.SemiColon, ";")]);
  }

  /** In `age > 45;` the `>` stands alone. */
  lemma GreaterThan(alpha: char -> bool)
    requires IsAlphabeticClass(alpha)
    ensures Lex(alpha, "age > 45;") == [Tok(TokenType.Identifier, "age"), Tok(TokenType.GT, ">"), Tok(TokenType.IntLiteral, "45"), Tok(TokenType.SemiColon, ";")]
  {
    AgeWord(alpha);
    GreaterThen45(alpha);
    SplitJoin(alpha, "age", "> 45;", "age > 45;", [Tok(TokenType.Identifier, "age")],
              [Tok(TokenType.GT, ">"), Tok(TokenType.IntLiteral, "45"), Tok(TokenType.SemiColon, ";")],
              [Tok(TokenType.Identifier, "age"), Tok(TokenType.GT, ">"), Tok(TokenType.IntLiteral, "45"), Tok(TokenType.SemiColon, ";")]);
  }

  // ----- The script the parser's test reads -----

  /** A word, then an operator other than `>`: two tokens, whatever follows. */
  lemma {:induction false} WordThenOperator(alpha: char -> bool, w: string, kind: TokenType, o: char, rest: string)
    requires IsAlphabeticClass(alpha)
    requires |w| > 0 && w[0] != 'i'
    requires forall i :: 0 <= i < |w| ==> IsWordChar(alpha, w[i])
    requires kind == (if alpha(w[0]) then TokenType.Identifier else TokenType.IntLiteral)
    requires OperatorStart(o).Some? && o != '>'
    ensures Lex(alpha, w + [o] + rest) == [Tok(kind, w), Tok(OperatorStart(o).value.1, [o])] + Lex(alpha, rest)
  {
    OperatorIsNotAlphabetic(alpha, o);
    WordSplit(alpha, w, kind, o, rest);
    OperatorSplit(alpha, o, rest);
  }

  /** `2;`: a literal, then `;`. */
  lemma TwoThenSemicolon(alpha: char -> bool)
    requires IsAlphabeticClass(alpha)
    ensures Lex(alpha, "2;") == [Tok(TokenType.IntLiteral, "2"), Tok(TokenType.SemiColon, ";")]
  {
    Letters(alpha);
    assert "2;" == "2" + [';'] + "";
    WordThenOperator(alpha, "2", TokenType.IntLiteral, ';', "");
  }

  /** `45+2;`: no whitespace is needed around an operator. */
  lemma SumThenSemicolon(alpha: char -> bool)
    requires IsAlphabeticClass(alpha)
    ensures Lex(alpha, "45+2;")
         == [Tok(TokenType.IntLiteral, "45"), Tok(TokenType.Plus, "+"), Tok(TokenType.IntLiteral, "2"), Tok(TokenType.SemiColon, ";")]
  {
    Letters(alpha);
    assert "45+2;" == "45" + ['+'] + "2;";
    WordThenOperator(alpha, "45", TokenType.IntLiteral, '+', "2;");
    TwoThenSemicolon(alpha);
  }

  /** `age=`: a name, then `=`. */
  lemma AgeThenAssign(alpha: char -> bool)
    requires IsAlphabeticClass(alpha)
    ensures Lex(alpha, "age=") == [Tok(TokenType.Identifier, "age"), Tok(TokenType.Assignment, "=")]
  {
    Letters(alpha);
    assert "age=" == "age" + ['='] + "";
    WordThenOperator(alpha, "age", TokenType.Identifier, '=', "");
  }

  /** `20;`: a literal, then `;`. */
  lemma TwentyThenSemicolon(alpha: char -> bool)
    requires IsAlphabeticClass(alpha)
    ensures Lex(alpha, "20;") == [Tok(TokenType.IntLiteral, "20"), Tok(TokenType.SemiColon, ";")]
  {
    Letters(alpha);
    assert "20;" == "20" + [';'] + "";
    WordThenOperator(alpha, "20", TokenType.IntLiteral, ';', "");
  }

  /** `10*2;`: no whitespace is needed around an operator. */
  lemma ProductThenSemicolon(alpha: char -> bool)
    requires IsAlphabeticClass(alpha)
    ensures Lex(alpha, "10*2;")
         == [Tok(TokenType.IntLiteral, "10"), Tok(TokenType.Star, "*"), Tok(TokenType.IntLiteral, "2"), Tok(TokenType.SemiColon, ";")]
  {
    Letters(alpha);
    assert "10*2;" == "10" + ['*'] + "2;";
    WordThenOperator(alpha, "10", TokenType.IntLiteral, '*', "2;");
    TwoThenSemicolon(alpha);
  }

  /** The tokens of `age+10*2;`, grouped as they are read. */
  function AgeExpressionTokens(): seq<SimpleToken>
  {
    [Tok(TokenType.Identifier, "age"), Tok(TokenType.Plus, "+")]
    + [Tok(TokenType.IntLiteral, "10"), Tok(TokenType.Star, "*"), Tok(TokenType.IntLiteral, "2"), Tok(TokenType.SemiColon, ";")]
  }

  /** The tokens of `age= 20; age+10*2;`. */
  function AgeAssignmentTokens(): seq<SimpleToken>
  {
    [Tok(TokenType.Identifier, "age"), Tok(TokenType.Assignment, "=")]
    + ([Tok(TokenType.IntLiteral, "20"), Tok(TokenType.SemiColon, ";")] + AgeExpressionTokens())
  }

  /** The tokens of `int age = 45+2; age= 20; age+10*2;`. */
  function AgeScriptTokens(): seq<SimpleToken>
  {
    [Tok(TokenType.Int, "int")]
    + ([Tok(TokenType.Identifier, "age")]
       + ([Tok(TokenType.Assignment, "=")]
          + ([Tok(TokenType.IntLiteral, "45"), Tok(TokenType.Plus, "+"), Tok(TokenType.IntLiteral, "2"), Tok(TokenType.SemiColon, ";")]
             + AgeAssignmentTokens())))
  }

  /** `age+10*2;`: a name and two operators, written without spaces. */
  lemma AgeExpressionThenSemicolon(alpha: char -> bool)
    requires IsAlphabeticClass(alpha)
    ensures Lex(alpha, "age+10*2;") == AgeExpressionTokens()
  {
    Letters(alpha);
    assert "age+10*2;" == "age" + ['+'] + "10*2;";
    WordThenOperator(alpha, "age", TokenType.Identifier, '+', "10*2;");
    ProductThenSemicolon(alpha);
  }

  /** `age= 20; age+10*2;`: the last two statements. */
  lemma AgeAssignmentThenExpression(alpha: char -> bool)
    requires IsAlphabeticClass(alpha)
    ensures Lex(alpha, "age=" + " " + ("20;" + " " + "age+10*2;")) == AgeAssignmentTokens()
  {
    TwentyThenSemicolon(alpha);
    AgeExpressionThenSemicolon(alpha);
    NoKeywordAfter(alpha, "20;");
    SplitAt(alpha, "20;", "age+10*2;", "20;" + " " + "age+10*2;");
    AgeThenAssign(alpha);
    NoKeywordAfter(alpha, "age=");
    SplitAt(alpha, "age=", "20;" + " " + "age+10*2;", "age=" + " " + ("20;" + " " + "age+10*2;"));
  }

  /** The script of the parser's test, cut at its spaces. */
  function AgeScriptPieces(): string
  {
    "int" + " " + ("age" + " " + ("=" + " " + ("45+2;" + " " + ("age=" + " " + ("20;" + " " + "age+10*2;")))))
  }

  lemma AgeScriptCut()
    ensures AgeScriptPieces() == "int age = 45+2; age= 20; age+10*2;"
  {
  }

  /** `int age = 45+2; age= 20; age+10*2;`: three statements, seventeen tokens. */
  lemma AgeScriptLex(alpha: char -> bool)
    requires IsAlphabeticClass(alpha)
    ensures Lex(alpha, "int age = 45+2; age= 20; age+10*2;") == AgeScriptTokens()
  {
    var r3 := "age=" + " " + ("20;" + " " + "age+10*2;");
    AgeAssignmentThenExpression(alpha);
    SumThenSemicolon(alpha);
    NoKeywordAfter(alpha, "45+2;");
    SplitAt(alpha, "45+2;", r3, "45+2;" + " " + r3);
    AssignSign(alpha);
    SplitAt(alpha, "=", "45+2;" + " " + r3, "=" + " " + ("45+2;" + " " + r3));
    AgeWord(alpha);
    SplitAt(alpha, "age", "=" + " " + ("45+2;" + " " + r3), "age" + " " + ("=" + " " + ("45+2;" + " " + r3)));
    KeywordSplit(alpha, "age" + " " + ("=" + " " + ("45+2;" + " " + r3)), AgeScriptPieces());
    AgeScriptCut();
  }
}
