/**
 * How `tokenize` splits text at whitespace, how it scans words and the
 * keyword `int`, and the round trip from tokens to text and back
 * (craft/src/lexer/simple_lexer.rs).
 */
module SimpleLexerRoundTrip {
  import opened Wrappers
  import opened LexerTypes
  import opened SimpleLexer

  // ----- Running the automaton over concatenated text -----

  lemma {:induction false} RunAppend(alpha: char -> bool, st: LexState, a: string, b: string)
    requires st.state.Handled()
    ensures RunFrom(alpha, st, a + b) == RunFrom(alpha, RunFrom(alpha, st, a), b)
    decreases |a|
  {
    if a == [] {
      assert a + b == b;
    } else {
      assert (a + b)[0] == a[0];
      assert (a + b)[1..] == a[1..] + b;
      RunAppend(alpha, Step(alpha, st, a[0]), a[1..], b);
    }
  }

  lemma RunOne(alpha: char -> bool, st: LexState, c: char)
    requires st.state.Handled()
    ensures RunFrom(alpha, st, [c]) == Step(alpha, st, c)
  {
    assert [c][1..] == [];
  }

  /** `st` with the tokens `prefix` pushed before its own. */
  function Behind(prefix: seq<SimpleToken>, st: LexState): LexState
  {
    st.(tokens := prefix + st.tokens)
  }

  lemma SeedFrame(alpha: char -> bool, ch: char, st: LexState, prefix: seq<SimpleToken>)
    ensures Seed(alpha, ch, Behind(prefix, st)) == Behind(prefix, Seed(alpha, ch, st))
  {
    assert (prefix + st.tokens) + [st.token.(text := st.text)] == prefix + (st.tokens + [st.token.(text := st.text)]);
  }

  /** Tokens already pushed play no part in what the automaton does next. */
  lemma StepFrame(alpha: char -> bool, st: LexState, ch: char, prefix: seq<SimpleToken>)
    requires st.state.Handled()
    ensures Step(alpha, Behind(prefix, st), ch) == Behind(prefix, Step(alpha, st, ch))
  {
    match st.state
    case IdInt3 =>
      if IsAsciiWhitespace(ch) {
        SeedFrame(alpha, ch, st.(token := st.token.(tokenType := Some(TokenType.Int))), prefix);
      }
    case _ =>
      SeedFrame(alpha, ch, st, prefix);
  }

  lemma {:induction false} RunFrame(alpha: char -> bool, st: LexState, s: string, prefix: seq<SimpleToken>)
    requires st.state.Handled()
    ensures RunFrom(alpha, Behind(prefix, st), s) == Behind(prefix, RunFrom(alpha, st, s))
    decreases |s|
  {
    if s != [] {
      StepFrame(alpha, st, s[0], prefix);
      RunFrame(alpha, Step(alpha, st, s[0]), s[1..], prefix);
    }
  }

  lemma FinishFrame(alpha: char -> bool, st: LexState, prefix: seq<SimpleToken>)
    ensures Finish(alpha, Behind(prefix, st)) == prefix + Finish(alpha, st)
  {
    SeedFrame(alpha, '_', st, prefix);
  }

  // ----- Whitespace -----

  lemma WhitespaceFacts(alpha: char -> bool, w: char)
    requires IsAlphabeticClass(alpha)
    requires IsAsciiWhitespace(w)
    ensures !alpha(w) && !IsAsciiDigit(w) && OperatorStart(w).None?
    ensures w != '=' && w != 'n' && w != 't' && w != 'i'
  {
    assert w as int < 128;
  }

  /** Whitespace ends the pending token, as the end of input does, and leaves the automaton as it starts. */
  lemma WhitespaceStep(alpha: char -> bool, st: LexState, w: char)
    requires IsAlphabeticClass(alpha)
    requires LexInv(alpha, st)
    requires IsAsciiWhitespace(w)
    requires st.state != DfaState.IdInt3
    ensures Step(alpha, st, w) == Behind(Finish(alpha, st), Start)
  {
    WhitespaceFacts(alpha, w);
    assert '_' as int < 128;
    assert st.text == [] ==> st.token == NewToken;
  }

  /** After a token-initial `int`, whitespace pushes the keyword `Int`. */
  lemma KeywordStep(alpha: char -> bool, st: LexState, w: char)
    requires IsAlphabeticClass(alpha)
    requires LexInv(alpha, st)
    requires IsAsciiWhitespace(w)
    requires st.state == DfaState.IdInt3
    ensures Step(alpha, st, w) == Behind(st.tokens + [SimpleToken(Some(TokenType.Int), "int")], Start)
    ensures Finish(alpha, st) == st.tokens + [SimpleToken(Some(TokenType.Identifier), "int")]
  {
    WhitespaceFacts(alpha, w);
    assert '_' as int < 128;
  }

  /**
   * A whitespace character splits the script: the tokens of the whole are the
   * tokens of the two sides, unless the left side ends in a token-initial `int`
   * (see `LexKeywordAtWhitespace`).
   */
  lemma LexSplitAtWhitespace(alpha: char -> bool, s1: string, w: char, s2: string)
    requires IsAlphabeticClass(alpha)
    requires IsAsciiWhitespace(w)
    requires RunFrom(alpha, Start, s1).state != DfaState.IdInt3
    ensures Lex(alpha, s1 + [w] + s2) == Lex(alpha, s1) + Lex(alpha, s2)
  {
    var st := RunFrom(alpha, Start, s1);
    RunInv(alpha, Start, s1);
    RunAppend(alpha, Start, s1 + [w], s2);
    RunAppend(alpha, Start, s1, [w]);
    RunOne(alpha, st, w);
    WhitespaceStep(alpha, st, w);
    RunFrame(alpha, Start, s2, Lex(alpha, s1));
    FinishFrame(alpha, RunFrom(alpha, Start, s2), Lex(alpha, s1));
  }

  /**
   * A token-initial `int` followed by whitespace is the keyword `Int`; the same
   * `int` at the end of input is the identifier `int`.
   */
  lemma LexKeywordAtWhitespace(alpha: char -> bool, s1: string, w: char, s2: string)
    requires IsAlphabeticClass(alpha)
    requires IsAsciiWhitespace(w)
    requires RunFrom(alpha, Start, s1).state == DfaState.IdInt3
    ensures |Lex(alpha, s1)| > 0
    ensures Lex(alpha, s1)[|Lex(alpha, s1)| - 1] == SimpleToken(Some(TokenType.Identifier), "int")
    ensures Lex(alpha, s1 + [w] + s2)
         == Lex(alpha, s1)[..|Lex(alpha, s1)| - 1] + [SimpleToken(Some(TokenType.Int), "int")] + Lex(alpha, s2)
  {
    var st := RunFrom(alpha, Start, s1);
    RunInv(alpha, Start, s1);
    RunAppend(alpha, Start, s1 + [w], s2);
    RunAppend(alpha, Start, s1, [w]);
    RunOne(alpha, st, w);
    KeywordStep(alpha, st, w);
    var before := st.tokens + [SimpleToken(Some(TokenType.Int), "int")];
    RunFrame(alpha, Start, s2, before);
    FinishFrame(alpha, RunFrom(alpha, Start, s2), before);
    assert Lex(alpha, s1)[..|Lex(alpha, s1)| - 1] == st.tokens;
  }

  /** `init_token` pushes the pending token, then starts afresh as from the start state. */
  lemma SeedAfter(alpha: char -> bool, c: char, st: LexState)
    requires LexInv(alpha, st)
    ensures Seed(alpha, c, st) == Behind(Finish(alpha, st), Seed(alpha, c, Start))
  {
    assert Seed(alpha, c, st) == Seed(alpha, c, Behind(Finish(alpha, st), Start));
    SeedFrame(alpha, c, Start, Finish(alpha, st));
  }

  /**
   * Where the running token cannot take `c`, so that the automaton hands `c`
   * to `init_token`, the script splits in front of `c`: the tokens of the
   * whole are the tokens of `s1` followed by the tokens of `[c] + s2`.
   */
  lemma {:induction false} LexSplitBefore(alpha: char -> bool, s1: string, c: char, s2: string)
    requires Step(alpha, RunFrom(alpha, Start, s1), c) == Seed(alpha, c, RunFrom(alpha, Start, s1))
    ensures Lex(alpha, s1 + [c] + s2) == Lex(alpha, s1) + Lex(alpha, [c] + s2)
  {
    var st := RunFrom(alpha, Start, s1);
    var first := Seed(alpha, c, Start);
    RunInv(alpha, Start, s1);
    SeedAfter(alpha, c, st);
    assert s1 + [c] + s2 == s1 + ([c] + s2);
    RunAppend(alpha, Start, s1, [c] + s2);
    RunCons(alpha, st, c, s2);
    RunCons(alpha, Start, c, s2);
    assert RunFrom(alpha, Start, s1 + [c] + s2) == RunFrom(alpha, Behind(Lex(alpha, s1), first), s2);
    assert RunFrom(alpha, Start, [c] + s2) == RunFrom(alpha, first, s2);
    RunFrame(alpha, first, s2, Lex(alpha, s1));
    FinishFrame(alpha, RunFrom(alpha, first, s2), Lex(alpha, s1));
  }

  // ----- Words -----

  predicate IsWordChar(alpha: char -> bool, c: char)
  {
    alpha(c) || IsAsciiDigit(c)
  }

  /** Inside a word the automaton only extends the pending text. */
  lemma {:induction false} RunWord(alpha: char -> bool, st: LexState, w: string)
    requires st.state == DfaState.Id
    requires forall i :: 0 <= i < |w| ==> IsWordChar(alpha, w[i])
    ensures RunFrom(alpha, st, w) == st.(text := st.text + w)
    decreases |w|
  {
    if w != [] {
      assert st.text + w == (st.text + [w[0]]) + w[1..];
      RunWord(alpha, Step(alpha, st, w[0]), w[1..]);
    }
  }

  /** An identifier the automaton reads back as one token: the quirk splits `i` and `in` followed by other letters, and `int` alone is the keyword. */
  predicate IsIdentifierWord(alpha: char -> bool, w: string)
  {
    && |w| > 0
    && alpha(w[0])
    && (forall i :: 0 <= i < |w| ==> IsWordChar(alpha, w[i]))
    && (w[0] == 'i' ==> |w| == 1 || (w[1] == 'n' && (|w| == 2 || (w[2] == 't' && |w| > 3))))
  }

  predicate IsLiteralWord(alpha: char -> bool, w: string)
  {
    && |w| > 0
    && IsAsciiDigit(w[0])
    && (forall i :: 0 <= i < |w| ==> IsWordChar(alpha, w[i]))
  }

  /** A token that reads back as itself when followed by whitespace. */
  predicate Lexable(alpha: char -> bool, t: SimpleToken)
  {
    && t.tokenType.Some?
    && match t.tokenType.value
       case Identifier => IsIdentifierWord(alpha, t.text)
       case IntLiteral => IsLiteralWord(alpha, t.text)
       case EQ | LE | LT | If | Else | StringLiteral => false
       case _ => KindMatchesText(alpha, t.tokenType.value, t.text)
  }

  /** A word that starts with a digit, or with a letter other than `i`, is one token of the kind its first character sets. */
  lemma {:induction false} WordThenSpace(alpha: char -> bool, t: SimpleToken, w: char)
    requires IsAlphabeticClass(alpha)
    requires IsAsciiWhitespace(w)
    requires t.tokenType == Some(TokenType.Identifier) || t.tokenType == Some(TokenType.IntLiteral)
    requires |t.text| > 0 && t.text[0] != 'i'
    requires forall i :: 0 <= i < |t.text| ==> IsWordChar(alpha, t.text[i])
    requires t.tokenType == Some(TokenType.Identifier) <==> alpha(t.text[0])
    ensures RunFrom(alpha, Start, t.text + [w]) == Behind([t], Start)
  {
    var c := t.text[0];
    var s1 := LexState(DfaState.Id, [c], [], SimpleToken(t.tokenType, ""));
    WordStart(alpha, t, c);
    RunAppend(alpha, Start, t.text, [w]);
    assert t.text == [c] + t.text[1..];
    RunCons(alpha, Start, c, t.text[1..]);
    RunWord(alpha, s1, t.text[1..]);
    var st := s1.(text := t.text);
    assert [c] + t.text[1..] == t.text;
    RunOne(alpha, st, w);
    WordEnd(alpha, t, w);
  }

  /** Whitespace after a whole word pushes it as one token. */
  lemma WordEnd(alpha: char -> bool, t: SimpleToken, w: char)
    requires IsAlphabeticClass(alpha)
    requires IsAsciiWhitespace(w)
    requires t.tokenType == Some(TokenType.Identifier) || t.tokenType == Some(TokenType.IntLiteral)
    requires |t.text| > 0
    requires forall i :: 0 <= i < |t.text| ==> IsWordChar(alpha, t.text[i])
    requires t.tokenType == Some(TokenType.Identifier) <==> alpha(t.text[0])
    ensures Step(alpha, LexState(DfaState.Id, t.text, [], SimpleToken(t.tokenType, "")), w) == Behind([t], Start)
  {
    var st := LexState(DfaState.Id, t.text, [], SimpleToken(t.tokenType, ""));
    assert LexInv(alpha, st);
    WhitespaceStep(alpha, st, w);
    assert Finish(alpha, st) == [t];
  }

  /** The first character of a word starts a name or a literal. */
  lemma WordStart(alpha: char -> bool, t: SimpleToken, c: char)
    requires IsAlphabeticClass(alpha)
    requires c != 'i' && IsWordChar(alpha, c)
    requires t.tokenType == Some(TokenType.Identifier) || t.tokenType == Some(TokenType.IntLiteral)
    requires t.tokenType == Some(TokenType.Identifier) <==> alpha(c)
    ensures Step(alpha, Start, c) == LexState(DfaState.Id, [c], [], SimpleToken(t.tokenType, ""))
  {
    assert IsAsciiDigit(c) ==> c as int < 128;
  }

  lemma RunCons(alpha: char -> bool, st: LexState, c: char, s: string)
    requires st.state.Handled()
    ensures RunFrom(alpha, st, [c] + s) == RunFrom(alpha, Step(alpha, st, c), s)
  {
    assert ([c] + s)[1..] == s;
  }

  /** The state after a token-initial `i`, `in` and `int`. */
  function IntPrefixState(n: nat): LexState
    requires 1 <= n <= 3
  {
    var tok := SimpleToken(Some(TokenType.Identifier), "");
    if n == 1 then LexState(DfaState.IdInt1, "i", [], tok)
    else if n == 2 then LexState(DfaState.IdInt2, "in", [], tok)
    else LexState(DfaState.IdInt3, "int", [], tok)
  }

  lemma IntPrefixRuns(alpha: char -> bool)
    requires IsAlphabeticClass(alpha)
    ensures RunFrom(alpha, Start, "i") == IntPrefixState(1)
    ensures RunFrom(alpha, Start, "in") == IntPrefixState(2)
    ensures RunFrom(alpha, Start, "int") == IntPrefixState(3)
  {
    assert 'i' as int < 128;
    RunOne(alpha, Start, 'i');
    RunAppend(alpha, Start, "i", "n");
    RunOne(alpha, IntPrefixState(1), 'n');
    assert "in" == "i" + "n";
    RunAppend(alpha, Start, "in", "t");
    RunOne(alpha, IntPrefixState(2), 't');
    assert "int" == "in" + "t";
  }

  /** Whitespace after a token-initial `i` or `in` pushes it as an identifier. */
  lemma PrefixThenWhitespace(alpha: char -> bool, n: nat, w: char)
    requires IsAlphabeticClass(alpha)
    requires IsAsciiWhitespace(w)
    requires 1 <= n <= 2
    ensures Step(alpha, IntPrefixState(n), w)
         == Behind([SimpleToken(Some(TokenType.Identifier), IntPrefixState(n).text)], Start)
  {
    WhitespaceFacts(alpha, w);
    assert '_' as int < 128;
  }

  /** `i` or `in` followed by whitespace is an identifier. */
  lemma ShortIThenSpace(alpha: char -> bool, t: SimpleToken, w: char)
    requires IsAlphabeticClass(alpha)
    requires IsAsciiWhitespace(w)
    requires t == SimpleToken(Some(TokenType.Identifier), "i") || t == SimpleToken(Some(TokenType.Identifier), "in")
    ensures RunFrom(alpha, Start, t.text + [w]) == Behind([t], Start)
  {
    IntPrefixRuns(alpha);
    RunAppend(alpha, Start, t.text, [w]);
    var n := if t.text == "i" then 1 else 2;
    assert RunFrom(alpha, Start, t.text) == IntPrefixState(n);
    PrefixThenWhitespace(alpha, n, w);
    RunOne(alpha, IntPrefixState(n), w);
  }

  lemma LongIRun(alpha: char -> bool, word: string)
    requires IsAlphabeticClass(alpha)
    requires IsIdentifierWord(alpha, word) && |word| > 3 && word[..3] == "int"
    ensures RunFrom(alpha, Start, word) == LexState(DfaState.Id, word, [], SimpleToken(Some(TokenType.Identifier), ""))
  {
    var rest := word[3..];
    assert word == "int" + rest;
    assert forall i :: 0 <= i < |rest| ==> rest[i] == word[i + 3];
    IntPrefixRuns(alpha);
    RunAppend(alpha, Start, "int", rest);
    RunAfterInt(alpha, IntPrefixState(3), rest);
  }

  /** After a token-initial `int`, word characters make it an identifier. */
  lemma RunAfterInt(alpha: char -> bool, st: LexState, rest: string)
    requires IsAlphabeticClass(alpha)
    requires st.state == DfaState.IdInt3
    requires |rest| > 0 && forall i :: 0 <= i < |rest| ==> IsWordChar(alpha, rest[i])
    ensures RunFrom(alpha, st, rest) == st.(state := DfaState.Id, text := st.text + rest)
  {
    var c, tail := rest[0], rest[1..];
    assert IsWordChar(alpha, c);
    WordCharIsNotWhitespace(alpha, c);
    assert rest == [c] + tail;
    RunCons(alpha, st, c, tail);
    var s4 := st.(state := DfaState.Id, text := st.text + [c]);
    assert Step(alpha, st, c) == s4;
    assert forall i :: 0 <= i < |tail| ==> tail[i] == rest[i + 1];
    RunWord(alpha, s4, tail);
    SeqAssoc(st.text, [c], tail);
  }

  lemma SeqAssoc(a: string, b: string, c: string)
    ensures a + b + c == a + (b + c)
  {
  }

  lemma WordCharIsNotWhitespace(alpha: char -> bool, c: char)
    requires IsAlphabeticClass(alpha)
    requires IsWordChar(alpha, c)
    ensures !IsAsciiWhitespace(c)
  {
    if IsAsciiWhitespace(c) {
      WhitespaceFacts(alpha, c);
    }
  }

  /** An identifier that starts with `int` and goes on is one identifier. */
  lemma LongIThenSpace(alpha: char -> bool, t: SimpleToken, w: char)
    requires IsAlphabeticClass(alpha)
    requires IsAsciiWhitespace(w)
    requires t.tokenType == Some(TokenType.Identifier) && IsIdentifierWord(alpha, t.text) && |t.text| > 3
    requires t.text[..3] == "int"
    ensures RunFrom(alpha, Start, t.text + [w]) == Behind([t], Start)
  {
    LongIRun(alpha, t.text);
    var st := RunFrom(alpha, Start, t.text);
    RunAppend(alpha, Start, t.text, [w]);
    RunInv(alpha, Start, t.text);
    RunOne(alpha, st, w);
    WhitespaceStep(alpha, st, w);
  }

  /** `int` followed by whitespace is the keyword. */
  lemma KeywordThenSpace(alpha: char -> bool, w: char)
    requires IsAlphabeticClass(alpha)
    requires IsAsciiWhitespace(w)
    ensures RunFrom(alpha, Start, "int" + [w]) == Behind([SimpleToken(Some(TokenType.Int), "int")], Start)
  {
    IntPrefixRuns(alpha);
    RunAppend(alpha, Start, "int", [w]);
    RunOne(alpha, IntPrefixState(3), w);
    RunInv(alpha, Start, "int");
    KeywordStep(alpha, IntPrefixState(3), w);
  }

  /** `>=` followed by whitespace is one `GE` token. */
  lemma GreaterEqualThenSpace(alpha: char -> bool, w: char)
    requires IsAlphabeticClass(alpha)
    requires IsAsciiWhitespace(w)
    ensures RunFrom(alpha, Start, ">=" + [w]) == Behind([SimpleToken(Some(TokenType.GE), ">=")], Start)
  {
    WhitespaceFacts(alpha, w);
    assert '>' as int < 128;
    var s1 := LexState(DfaState.GT, ">", [], SimpleToken(Some(TokenType.GT), ""));
    var s2 := LexState(DfaState.GE, ">=", [], SimpleToken(Some(TokenType.GE), ""));
    assert ">=" + [w] == ['>'] + (['='] + [w]);
    RunCons(alpha, Start, '>', ['='] + [w]);
    assert Step(alpha, Start, '>') == s1;
    RunCons(alpha, s1, '=', [w]);
    assert Step(alpha, s1, '=') == s2;
    RunOne(alpha, s2, w);
    var ge := SimpleToken(Some(TokenType.GE), ">=");
    assert Step(alpha, s2, w) == Seed(alpha, w, s2);
    assert [] + [ge] == [ge] && [ge] + [] == [ge];
    assert Seed(alpha, w, s2) == LexState(DfaState.Initial, "", [ge], NewToken);
  }

  /** A one-character operator followed by whitespace is one token of its kind. */
  lemma OperatorThenSpace(alpha: char -> bool, t: SimpleToken, w: char)
    requires IsAlphabeticClass(alpha)
    requires IsAsciiWhitespace(w)
    requires |t.text| == 1 && OperatorStart(t.text[0]).Some?
    requires t.tokenType == Some(OperatorStart(t.text[0]).value.1)
    ensures RunFrom(alpha, Start, t.text + [w]) == Behind([t], Start)
  {
    WhitespaceFacts(alpha, w);
    var c := t.text[0];
    assert c as int < 128;
    var s1 := LexState(OperatorStart(c).value.0, [c], [], SimpleToken(t.tokenType, ""));
    assert t.text + [w] == [c] + [w];
    RunCons(alpha, Start, c, [w]);
    assert Step(alpha, Start, c) == s1;
    RunOne(alpha, s1, w);
    assert Step(alpha, s1, w) == Seed(alpha, w, s1);
    assert t == SimpleToken(t.tokenType, [c]);
    assert [t] + [] == [t];
  }

  lemma OneTokenThenSpace(alpha: char -> bool, t: SimpleToken, w: char)
    requires IsAlphabeticClass(alpha)
    requires IsAsciiWhitespace(w)
    requires Lexable(alpha, t)
    ensures RunFrom(alpha, Start, t.text + [w]) == Behind([t], Start)
  {
    match t.tokenType.value
    case Identifier =>
      if t.text[0] != 'i' {
        WordThenSpace(alpha, t, w);
      } else if |t.text| <= 2 {
        assert t.text == "i" || t.text == "in";
        ShortIThenSpace(alpha, t, w);
      } else {
        assert t.text[..3] == "int";
        LongIThenSpace(alpha, t, w);
      }
    case IntLiteral =>
      assert t.text[0] as int < 128;
      WordThenSpace(alpha, t, w);
    case Int =>
      KeywordThenSpace(alpha, w);
    case GE =>
      GreaterEqualThenSpace(alpha, w);
    case _ =>
      OperatorThenSpace(alpha, t, w);
  }

  /** The tokens' texts, each followed by a space. */
  function Render(ts: seq<SimpleToken>): string
  {
    if ts == [] then "" else ts[0].text + " " + Render(ts[1..])
  }

  lemma {:induction false} RunRender(alpha: char -> bool, ts: seq<SimpleToken>)
    requires IsAlphabeticClass(alpha)
    requires forall i :: 0 <= i < |ts| ==> Lexable(alpha, ts[i])
    ensures RunFrom(alpha, Start, Render(ts)) == Behind(ts, Start)
  {
    if ts != [] {
      var rest := ts[1..];
      OneTokenThenSpace(alpha, ts[0], ' ');
      RunAppend(alpha, Start, ts[0].text + " ", Render(rest));
      RunRender(alpha, rest);
      RunFrame(alpha, Start, Render(rest), [ts[0]]);
      assert [ts[0]] + rest == ts;
    }
  }

  /**
   * Writing tokens out with a space after each and tokenizing the text gives
   * the same tokens back, for every token the automaton can produce as such.
   */
  lemma LexRenderRoundTrip(alpha: char -> bool, ts: seq<SimpleToken>)
    requires IsAlphabeticClass(alpha)
    requires forall i :: 0 <= i < |ts| ==> Lexable(alpha, ts[i])
    ensures Lex(alpha, Render(ts)) == ts
  {
    RunRender(alpha, ts);
    assert ts + [] == ts;
  }
}
