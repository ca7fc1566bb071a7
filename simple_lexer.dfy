/**
 * The hand-written automaton that splits a script into tokens
 * (`SimpleLexer::tokenize` and `init_token` in craft/src/lexer/simple_lexer.rs).
 *
 * The automaton is specified by the functions `Seed` (one call of
 * `init_token`), `Step` (one iteration of the character loop), `RunFrom`
 * (the loop) and `Lex` (the loop plus the final flush); the methods
 * `InitToken` and `Tokenize` are the imperative code, proved equal to them.
 */
module SimpleLexer {
  import opened Wrappers
  import opened LexerTypes
  import opened TokenStream

  // ----- Character classes -----

  predicate IsAsciiDigit(c: char)
  {
    '0' <= c <= '9'
  }

  predicate IsAsciiLetter(c: char)
  {
    ('a' <= c <= 'z') || ('A' <= c <= 'Z')
  }

  /** `char::is_ascii_whitespace`: space, tab, line feed, form feed, carriage return. */
  predicate IsAsciiWhitespace(c: char)
  {
    c == ' ' || c == '\t' || c == '\n' || c == '\U{000C}' || c == '\r'
  }

  /**
   * `char::is_alphabetic` is a Unicode property; the lexer takes it as the
   * parameter `alpha`. Every such parameter is assumed to agree with it on
   * ASCII, where the alphabetic characters are exactly the letters.
   */
  ghost predicate IsAlphabeticClass(alpha: char -> bool)
  {
    forall c: char :: c as int < 128 ==> (alpha(c) <==> IsAsciiLetter(c))
  }

  /** The characters that start a one-character token (or `>`/`>=`), with the state and kind they set. */
  function OperatorStart(ch: char): Option<(DfaState, TokenType)>
  {
    match ch
    case '>' => Some((DfaState.GT, TokenType.GT))
    case '+' => Some((DfaState.Plus, TokenType.Plus))
    case '-' => Some((DfaState.Minus, TokenType.Minus))
    case '*' => Some((DfaState.Star, TokenType.Star))
    case '/' => Some((DfaState.Slash, TokenType.Slash))
    case ';' => Some((DfaState.SemiColon, TokenType.SemiColon))
    case '(' => Some((DfaState.LeftParen, TokenType.LeftParen))
    case ')' => Some((DfaState.RightParen, TokenType.RightParen))
    case '=' => Some((DfaState.Assignment, TokenType.Assignment))
    case _ => None
  }

  // ----- Tokens and the automaton's state -----

  /** `SimpleToken`: the kind stays unset until the automaton sets it. */
  datatype SimpleToken = SimpleToken(tokenType: Option<TokenType>, text: string)
  {
    /** `get_type` (which unwraps the kind) and `get_text`, as the `Token` trait presents them. */
    function AsToken(): Token
      requires tokenType.Some?
    {
      Token(tokenType.value, text)
    }
  }

  const NewToken := SimpleToken(None, "")

  /** The loop's variables: `state`, `token_text`, `tokens` and the pending `token`. */
  datatype LexState = LexState(state: DfaState, text: string, tokens: seq<SimpleToken>, token: SimpleToken)

  const Start := LexState(DfaState.Initial, "", [], NewToken)

  // ----- The automaton -----

  /**
   * `init_token(ch, ...)`: pushes the pending token when its text is
   * non-empty, then starts a new token with `ch`, or drops `ch` when it
   * starts no token. The incoming `st.state` plays no part.
   */
  function Seed(alpha: char -> bool, ch: char, st: LexState): (r: LexState)
    ensures r.state.Handled()
  {
    var tokens1 := if st.text != [] then st.tokens + [st.token.(text := st.text)] else st.tokens;
    var token1 := if st.text != [] then NewToken else st.token;
    var text1 := if st.text != [] then "" else st.text;
    if alpha(ch) then
      LexState(if ch == 'i' then DfaState.IdInt1 else DfaState.Id, text1 + [ch], tokens1,
               token1.(tokenType := Some(TokenType.Identifier)))
    else if IsAsciiDigit(ch) then
      LexState(DfaState.Id, text1 + [ch], tokens1, token1.(tokenType := Some(TokenType.IntLiteral)))
    else if OperatorStart(ch).Some? then
      LexState(OperatorStart(ch).value.0, text1 + [ch], tokens1, token1.(tokenType := Some(OperatorStart(ch).value.1)))
    else
      LexState(DfaState.Initial, text1, tokens1, token1)
  }

  /** One iteration of the loop of `tokenize`: the arm of the match for the current state. */
  function Step(alpha: char -> bool, st: LexState, ch: char): (r: LexState)
    requires st.state.Handled()
    ensures r.state.Handled()
  {
    match st.state
    case Initial => Seed(alpha, ch, st)
    case Id =>
      if alpha(ch) || IsAsciiDigit(ch) then st.(text := st.text + [ch]) else Seed(alpha, ch, st)
    case GT =>
      if ch == '=' then
        LexState(DfaState.GE, st.text + [ch], st.tokens, st.token.(tokenType := Some(TokenType.GE)))
      else Seed(alpha, ch, st)
    case IntLiteral =>
      if IsAsciiDigit(ch) then st.(text := st.text + [ch]) else Seed(alpha, ch, st)
    case IdInt1 =>
      if ch == 'n' then st.(state := DfaState.IdInt2, text := st.text + [ch]) else Seed(alpha, ch, st)
    case IdInt2 =>
      if ch == 't' then st.(state := DfaState.IdInt3, text := st.text + [ch]) else Seed(alpha, ch, st)
    case IdInt3 =>
      if IsAsciiWhitespace(ch) then Seed(alpha, ch, st.(token := st.token.(tokenType := Some(TokenType.Int))))
      else st.(state := DfaState.Id, text := st.text + [ch])
    case _ => Seed(alpha, ch, st)
  }

  /** The character loop of `tokenize`, run over `s` from state `st`. */
  function RunFrom(alpha: char -> bool, st: LexState, s: string): (r: LexState)
    requires st.state.Handled()
    ensures r.state.Handled()
    decreases |s|
  {
    if s == [] then st else RunFrom(alpha, Step(alpha, st, s[0]), s[1..])
  }

  /** At the end of input a pending token is pushed by `init_token('_', ...)`. */
  function Finish(alpha: char -> bool, st: LexState): seq<SimpleToken>
  {
    if st.text != [] then Seed(alpha, '_', st).tokens else st.tokens
  }

  /** The tokens `tokenize` produces for `script`. */
  function Lex(alpha: char -> bool, script: string): seq<SimpleToken>
  {
    Finish(alpha, RunFrom(alpha, Start, script))
  }

  // ----- What every produced token satisfies -----

  /** The text each kind the automaton produces can have. */
  predicate KindMatchesText(alpha: char -> bool, kind: TokenType, text: string)
  {
    match kind
    case Int => text == "int"
    case GE => text == ">="
    case GT => text == ">"
    case Plus => text == "+"
    case Minus => text == "-"
    case Star => text == "*"
    case Slash => text == "/"
    case SemiColon => text == ";"
    case LeftParen => text == "("
    case RightParen => text == ")"
    case Assignment => text == "="
    case Identifier => |text| > 0 && alpha(text[0])
    case IntLiteral => |text| > 0 && IsAsciiDigit(text[0])
    case _ => false
  }

  /** A token whose kind is set (so `get_type`'s unwrap succeeds) and whose text is non-empty and fits its kind. */
  predicate WellFormedToken(alpha: char -> bool, t: SimpleToken)
  {
    t.tokenType.Some? && |t.text| > 0 && KindMatchesText(alpha, t.tokenType.value, t.text)
  }

  /** What the pending token looks like in each state. */
  predicate PendingFits(alpha: char -> bool, st: LexState)
    requires st.token.tokenType.Some?
  {
    var kind := st.token.tokenType.value;
    match st.state
    case Id => (kind == TokenType.Identifier || kind == TokenType.IntLiteral) && KindMatchesText(alpha, kind, st.text)
    case IdInt1 => kind == TokenType.Identifier && st.text == "i" && alpha('i')
    case IdInt2 => kind == TokenType.Identifier && st.text == "in" && alpha('i')
    case IdInt3 => kind == TokenType.Identifier && st.text == "int" && alpha('i')
    case GT => kind == TokenType.GT && st.text == ">"
    case _ => KindMatchesText(alpha, kind, st.text)
  }

  /** The invariant of the character loop. */
  predicate LexInv(alpha: char -> bool, st: LexState)
  {
    && st.state.Handled()
    && st.state != DfaState.IntLiteral
    && (forall i :: 0 <= i < |st.tokens| ==> WellFormedToken(alpha, st.tokens[i]))
    && st.token.text == ""
    && (st.state == DfaState.Initial <==> st.text == [])
    && (st.text == [] ==> st.token.tokenType == None)
    && (st.text != [] ==> st.token.tokenType.Some? && PendingFits(alpha, st))
  }

  lemma SeedInv(alpha: char -> bool, ch: char, st: LexState)
    requires st.state.Handled()
    requires forall i :: 0 <= i < |st.tokens| ==> WellFormedToken(alpha, st.tokens[i])
    requires st.token.text == ""
    requires st.text == [] ==> st.token.tokenType == None
    requires st.text != [] ==> WellFormedToken(alpha, st.token.(text := st.text))
    ensures LexInv(alpha, Seed(alpha, ch, st))
  {
    SeedTokens(alpha, ch, st);
    var r := Seed(alpha, ch, st);
    if !alpha(ch) && !IsAsciiDigit(ch) && OperatorStart(ch).Some? {
      OperatorSeed(alpha, ch);
      assert r.text == [ch];
    } else if alpha(ch) || IsAsciiDigit(ch) {
      assert r.text == [ch];
    }
  }

  /** The tokens `init_token` leaves are the ones before and, when there was one, the pending token. */
  lemma SeedTokens(alpha: char -> bool, ch: char, st: LexState)
    requires forall i :: 0 <= i < |st.tokens| ==> WellFormedToken(alpha, st.tokens[i])
    requires st.text != [] ==> WellFormedToken(alpha, st.token.(text := st.text))
    ensures var r := Seed(alpha, ch, st);
      forall i :: 0 <= i < |r.tokens| ==> WellFormedToken(alpha, r.tokens[i])
  {
    var r := Seed(alpha, ch, st);
    if st.text != [] {
      var pushed := st.token.(text := st.text);
      assert r.tokens == st.tokens + [pushed];
      assert forall i :: 0 <= i < |r.tokens| ==> r.tokens[i] == pushed || r.tokens[i] == st.tokens[i];
    }
  }

  /** A character that starts an operator token leaves a state with an arm of its own and a text that fits the kind. */
  lemma OperatorSeed(alpha: char -> bool, ch: char)
    requires OperatorStart(ch).Some?
    ensures var (state, kind) := OperatorStart(ch).value;
      && state.Handled() && state != DfaState.Initial && state != DfaState.IntLiteral
      && state != DfaState.Id && state != DfaState.IdInt1 && state != DfaState.IdInt2 && state != DfaState.IdInt3
      && KindMatchesText(alpha, kind, [ch])
      && (state == DfaState.GT ==> kind == TokenType.GT && [ch] == ">")
  {
  }

  /** The pending token, with its text, would be pushed well formed. */
  lemma PendingWellFormed(alpha: char -> bool, st: LexState)
    requires LexInv(alpha, st)
    ensures st.text != [] ==> WellFormedToken(alpha, st.token.(text := st.text))
  {
  }

  /** The arms of the loop that keep the pending token going, rather than call `init_token`. */
  predicate Extends(alpha: char -> bool, st: LexState, ch: char)
  {
    match st.state
    case Id => alpha(ch) || IsAsciiDigit(ch)
    case GT => ch == '='
    case IdInt1 => ch == 'n'
    case IdInt2 => ch == 't'
    case IdInt3 => !IsAsciiWhitespace(ch)
    case _ => false
  }

  lemma StepInv(alpha: char -> bool, st: LexState, ch: char)
    requires LexInv(alpha, st)
    ensures LexInv(alpha, Step(alpha, st, ch))
  {
    if Extends(alpha, st, ch) {
      ExtendInv(alpha, st, ch);
    } else if st.state == DfaState.IdInt3 {
      PendingWellFormed(alpha, st);
      SeedInv(alpha, ch, st.(token := st.token.(tokenType := Some(TokenType.Int))));
    } else {
      PendingWellFormed(alpha, st);
      assert Step(alpha, st, ch) == Seed(alpha, ch, st);
      SeedInv(alpha, ch, st);
    }
  }

  lemma ExtendInv(alpha: char -> bool, st: LexState, ch: char)
    requires LexInv(alpha, st)
    requires Extends(alpha, st, ch)
    ensures LexInv(alpha, Step(alpha, st, ch))
  {
    var r := Step(alpha, st, ch);
    match st.state
    case Id =>
      assert r == st.(text := st.text + [ch]);
      assert (st.text + [ch])[0] == st.text[0];
    case GT =>
      assert r.text == ">=";
    case IdInt3 =>
      assert r == st.(state := DfaState.Id, text := st.text + [ch]);
      assert (st.text + [ch])[0] == 'i';
    case _ =>
  }

  lemma {:induction false} RunInv(alpha: char -> bool, st: LexState, s: string)
    requires LexInv(alpha, st)
    ensures LexInv(alpha, RunFrom(alpha, st, s))
    decreases |s|
  {
    if s != [] {
      StepInv(alpha, st, s[0]);
      RunInv(alpha, Step(alpha, st, s[0]), s[1..]);
    }
  }

  /**
   * Every token `tokenize` pushes has its kind set and a non-empty text that
   * fits the kind, so `get_type`'s unwrap never fails on lexer output.
   */
  lemma LexWellFormed(alpha: char -> bool, script: string)
    ensures forall i :: 0 <= i < |Lex(alpha, script)| ==> WellFormedToken(alpha, Lex(alpha, script)[i])
  {
    RunInv(alpha, Start, script);
    var st := RunFrom(alpha, Start, script);
    if st.text != [] {
      SeedInv(alpha, '_', st);
    }
  }

  /** The tokens as the reader holds them (`Box<dyn Token>`). */
  function TokensOf(ts: seq<SimpleToken>): (r: seq<Token>)
    requires forall i :: 0 <= i < |ts| ==> ts[i].tokenType.Some?
    ensures |r| == |ts|
    ensures forall i :: 0 <= i < |ts| ==> r[i] == ts[i].AsToken()
  {
    seq(|ts|, i requires 0 <= i < |ts| => ts[i].AsToken())
  }

  // ----- The imperative code -----

  /** `init_token`: `text` and `tokens` are the `&mut` arguments, `token` the pending token passed by value. */
  method InitToken(alpha: char -> bool, ch: char, text: string, tokens: seq<SimpleToken>, token: SimpleToken)
    returns (newState: DfaState, newText: string, newTokens: seq<SimpleToken>, newToken: SimpleToken)
    ensures LexState(newState, newText, newTokens, newToken) == Seed(alpha, ch, LexState(DfaState.Initial, text, tokens, token))
  {
    newText, newTokens, newToken := text, tokens, token;
    if newText != [] {
      newToken := newToken.(text := newText);
      newTokens := newTokens + [newToken];
      newText := "";
      newToken := NewToken;
    }
    newState := DfaState.Initial;
    newText := newText + [ch];
    if alpha(ch) {
      if ch == 'i' {
        newState := DfaState.IdInt1;
      } else {
        newState := DfaState.Id;
      }
      newToken := newToken.(tokenType := Some(TokenType.Identifier));
    } else if IsAsciiDigit(ch) {
      newState := DfaState.Id;
      newToken := newToken.(tokenType := Some(TokenType.IntLiteral));
    } else {
      match ch {
        case '>' =>
          newState := DfaState.GT;
          newToken := newToken.(tokenType := Some(TokenType.GT));
        case '+' =>
          newState := DfaState.Plus;
          newToken := newToken.(tokenType := Some(TokenType.Plus));
        case '-' =>
          newState := DfaState.Minus;
          newToken := newToken.(tokenType := Some(TokenType.Minus));
        case '*' =>
          newState := DfaState.Star;
          newToken := newToken.(tokenType := Some(TokenType.Star));
        case '/' =>
          newState := DfaState.Slash;
          newToken := newToken.(tokenType := Some(TokenType.Slash));
        case ';' =>
          newState := DfaState.SemiColon;
          newToken := newToken.(tokenType := Some(TokenType.SemiColon));
        case '(' =>
          newState := DfaState.LeftParen;
          newToken := newToken.(tokenType := Some(TokenType.LeftParen));
        case ')' =>
          newState := DfaState.RightParen;
          newToken := newToken.(tokenType := Some(TokenType.RightParen));
        case '=' =>
          newState := DfaState.Assignment;
          newToken := newToken.(tokenType := Some(TokenType.Assignment));
        case _ =>
          newState := DfaState.Initial;
          newText := newText[..|newText| - 1];
      }
    }
  }

  /** `tokenize`: one left-to-right pass, then the pending token is flushed; the reader starts at 0. */
  method Tokenize(alpha: char -> bool, script: string) returns (reader: SimpleTokenReader)
    ensures fresh(reader) && reader.Valid() && reader.pos == 0
    ensures forall i :: 0 <= i < |Lex(alpha, script)| ==> Lex(alpha, script)[i].tokenType.Some?
    ensures reader.tokens == TokensOf(Lex(alpha, script))
  {
    var state := DfaState.Initial;
    var text: string := "";
    var tokens: seq<SimpleToken> := [];
    var token := NewToken;
    var i := 0;
    while i < |script|
      invariant 0 <= i <= |script|
      invariant state.Handled()
      invariant RunFrom(alpha, LexState(state, text, tokens, token), script[i..]) == RunFrom(alpha, Start, script)
    {
      var ch := script[i];
      ghost var before := LexState(state, text, tokens, token);
      match state {
        case Initial =>
          state, text, tokens, token := InitToken(alpha, ch, text, tokens, token);
        case Id =>
          if alpha(ch) || IsAsciiDigit(ch) {
            text := text + [ch];
          } else {
            state, text, tokens, token := InitToken(alpha, ch, text, tokens, token);
          }
        case GT =>
          if ch == '=' {
            token := token.(tokenType := Some(TokenType.GE));
            text := text + [ch];
            state := DfaState.GE;
          } else {
            state, text, tokens, token := InitToken(alpha, ch, text, tokens, token);
          }
        case GE | Assignment | Plus | Minus | Star | Slash | SemiColon | LeftParen | RightParen =>
          state, text, tokens, token := InitToken(alpha, ch, text, tokens, token);
        case IntLiteral =>
          if IsAsciiDigit(ch) {
            text := text + [ch];
          } else {
            state, text, tokens, token := InitToken(alpha, ch, text, tokens, token);
          }
        case IdInt1 =>
          if ch == 'n' {
            text := text + [ch];
            state := DfaState.IdInt2;
          } else {
            state, text, tokens, token := InitToken(alpha, ch, text, tokens, token);
          }
        case IdInt2 =>
          if ch == 't' {
            text := text + [ch];
            state := DfaState.IdInt3;
          } else {
            state, text, tokens, token := InitToken(alpha, ch, text, tokens, token);
          }
        case IdInt3 =>
          if IsAsciiWhitespace(ch) {
            token := token.(tokenType := Some(TokenType.Int));
            state, text, tokens, token := InitToken(alpha, ch, text, tokens, token);
          } else {
            text := text + [ch];
            state := DfaState.Id;
          }
        case _ =>
          assert false;
      }
      assert LexState(state, text, tokens, token) == Step(alpha, before, ch);
      assert script[i..][1..] == script[i + 1..];
      i := i + 1;
    }
    assert script[i..] == [];
    if text != [] {
      var _, _, flushed, _ := InitToken(alpha, '_', text, tokens, token);
      tokens := flushed;
    }
    assert tokens == Lex(alpha, script);
    LexWellFormed(alpha, script);
    reader := new SimpleTokenReader(TokensOf(tokens));
  }
}
