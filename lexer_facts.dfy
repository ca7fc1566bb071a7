/** Properties of the tokens `tokenize` produces (craft/src/lexer/simple_lexer.rs). */
module SimpleLexerFacts {
  import opened Wrappers
  import opened LexerTypes
  import opened SimpleLexer

  // ----- Which characters end up in the tokens -----

  /** The concatenated texts of a token sequence. */
  function Concat(ts: seq<SimpleToken>): string
  {
    if ts == [] then "" else Concat(ts[..|ts| - 1]) + ts[|ts| - 1].text
  }

  /** Everything the automaton has kept so far: pushed tokens, then the pending text. */
  function Flat(st: LexState): string
  {
    Concat(st.tokens) + st.text
  }

  /** A character that begins or continues a token: a letter, an ASCII digit or an operator character. */
  predicate TokenChar(alpha: char -> bool, c: char)
  {
    alpha(c) || IsAsciiDigit(c) || OperatorStart(c).Some?
  }

  /**
   * Whether the automaton in `state` keeps `c`: token characters always, and
   * any other character except whitespace right after a token-initial `int`.
   */
  predicate Keeps(alpha: char -> bool, state: DfaState, c: char)
  {
    TokenChar(alpha, c) || (state == DfaState.IdInt3 && !IsAsciiWhitespace(c))
  }

  /** For each character of `s`, whether the automaton started in `st` keeps it. */
  function KeepMask(alpha: char -> bool, st: LexState, s: string): (m: seq<bool>)
    requires st.state.Handled()
    ensures |m| == |s|
    decreases |s|
  {
    if s == [] then [] else [Keeps(alpha, st.state, s[0])] + KeepMask(alpha, Step(alpha, st, s[0]), s[1..])
  }

  /** The characters of `s` whose mask entry is set, in order. */
  function Select(s: string, m: seq<bool>): string
    requires |m| == |s|
  {
    if s == [] then "" else (if m[0] then [s[0]] else "") + Select(s[1..], m[1..])
  }

  function NonWhitespace(s: string): string
  {
    if s == [] then "" else (if IsAsciiWhitespace(s[0]) then "" else [s[0]]) + NonWhitespace(s[1..])
  }

  lemma ConcatSnoc(ts: seq<SimpleToken>, t: SimpleToken)
    ensures Concat(ts + [t]) == Concat(ts) + t.text
  {
    assert (ts + [t])[..|ts|] == ts;
  }

  lemma WhitespaceIsNotTokenChar(alpha: char -> bool, c: char)
    requires IsAlphabeticClass(alpha)
    requires IsAsciiWhitespace(c)
    ensures !TokenChar(alpha, c)
  {
    assert c as int < 128;
  }

  lemma OperatorIsNotAlphabetic(alpha: char -> bool, c: char)
    requires IsAlphabeticClass(alpha)
    requires OperatorStart(c).Some?
    ensures !alpha(c) && !IsAsciiDigit(c)
  {
    assert c as int < 128;
  }

  /** `init_token` keeps `ch` exactly when it is a token character. */
  lemma SeedFlat(alpha: char -> bool, ch: char, st: LexState)
    ensures Flat(Seed(alpha, ch, st)) == Flat(st) + (if TokenChar(alpha, ch) then [ch] else "")
  {
    if st.text != [] {
      ConcatSnoc(st.tokens, st.token.(text := st.text));
    }
  }

  /** One step of the loop appends the character to the kept text exactly when `Keeps` says so. */
  lemma StepFlat(alpha: char -> bool, st: LexState, ch: char)
    requires IsAlphabeticClass(alpha)
    requires st.state.Handled()
    ensures Flat(Step(alpha, st, ch)) == Flat(st) + (if Keeps(alpha, st.state, ch) then [ch] else "")
  {
    assert 'n' as int < 128 && 't' as int < 128 && '=' as int < 128;
    match st.state
    case IdInt3 =>
      if IsAsciiWhitespace(ch) {
        WhitespaceIsNotTokenChar(alpha, ch);
        SeedFlat(alpha, ch, st.(token := st.token.(tokenType := Some(TokenType.Int))));
      }
    case _ =>
      SeedFlat(alpha, ch, st);
  }

  lemma {:induction false} RunFlat(alpha: char -> bool, st: LexState, s: string)
    requires IsAlphabeticClass(alpha)
    requires st.state.Handled()
    ensures Flat(RunFrom(alpha, st, s)) == Flat(st) + Select(s, KeepMask(alpha, st, s))
    decreases |s|
  {
    if s != [] {
      var next := Step(alpha, st, s[0]);
      var kept := if Keeps(alpha, st.state, s[0]) then [s[0]] else "";
      var rest := Select(s[1..], KeepMask(alpha, next, s[1..]));
      KeepMaskCons(alpha, st, s);
      assert Select(s, KeepMask(alpha, st, s)) == kept + rest;
      StepFlat(alpha, st, s[0]);
      assert Flat(next) == Flat(st) + kept;
      RunFlat(alpha, next, s[1..]);
      assert Flat(RunFrom(alpha, next, s[1..])) == Flat(next) + rest;
      assert RunFrom(alpha, st, s) == RunFrom(alpha, next, s[1..]);
      SeqAssoc(Flat(st), kept, rest);
    }
  }

  lemma SeqAssoc(a: string, b: string, c: string)
    ensures a + b + c == a + (b + c)
  {
  }

  /** The mask's first entry, and the selection it makes, one character at a time. */
  lemma KeepMaskCons(alpha: char -> bool, st: LexState, s: string)
    requires st.state.Handled() && s != []
    ensures var next := Step(alpha, st, s[0]);
      Select(s, KeepMask(alpha, st, s))
        == (if Keeps(alpha, st.state, s[0]) then [s[0]] else "") + Select(s[1..], KeepMask(alpha, next, s[1..]))
  {
    var m := KeepMask(alpha, st, s);
    assert m[1..] == KeepMask(alpha, Step(alpha, st, s[0]), s[1..]);
  }

  /** The end-of-input flush keeps the pending text and adds nothing. */
  lemma FinishFlat(alpha: char -> bool, st: LexState)
    requires IsAlphabeticClass(alpha)
    ensures Concat(Finish(alpha, st)) == Flat(st)
  {
    assert '_' as int < 128;
    if st.text != [] {
      ConcatSnoc(st.tokens, st.token.(text := st.text));
    }
  }

  lemma {:induction false} KeepMaskFacts(alpha: char -> bool, st: LexState, s: string, i: nat)
    requires IsAlphabeticClass(alpha)
    requires st.state.Handled()
    requires i < |s|
    ensures TokenChar(alpha, s[i]) ==> KeepMask(alpha, st, s)[i]
    ensures IsAsciiWhitespace(s[i]) ==> !KeepMask(alpha, st, s)[i]
    decreases i
  {
    if i == 0 {
      if IsAsciiWhitespace(s[0]) {
        WhitespaceIsNotTokenChar(alpha, s[0]);
      }
    } else {
      KeepMaskFacts(alpha, Step(alpha, st, s[0]), s[1..], i - 1);
    }
  }

  /**
   * The token texts, concatenated, are the script with some characters
   * removed: every letter, ASCII digit and operator character is kept, no
   * whitespace is kept, and any other character is kept only right after a
   * token-initial `int`.
   */
  lemma LexText(alpha: char -> bool, script: string)
    requires IsAlphabeticClass(alpha)
    ensures Concat(Lex(alpha, script)) == Select(script, KeepMask(alpha, Start, script))
    ensures forall i :: 0 <= i < |script| && TokenChar(alpha, script[i]) ==> KeepMask(alpha, Start, script)[i]
    ensures forall i :: 0 <= i < |script| && IsAsciiWhitespace(script[i]) ==> !KeepMask(alpha, Start, script)[i]
  {
    var st := RunFrom(alpha, Start, script);
    assert Flat(Start) == "";
    RunFlat(alpha, Start, script);
    FinishFlat(alpha, st);
    assert Lex(alpha, script) == Finish(alpha, st);
    forall i | 0 <= i < |script|
      ensures TokenChar(alpha, script[i]) ==> KeepMask(alpha, Start, script)[i]
      ensures IsAsciiWhitespace(script[i]) ==> !KeepMask(alpha, Start, script)[i]
    {
      KeepMaskFacts(alpha, Start, script, i);
    }
  }

  lemma {:induction false} SelectClean(alpha: char -> bool, st: LexState, s: string)
    requires IsAlphabeticClass(alpha)
    requires st.state.Handled()
    requires forall i :: 0 <= i < |s| ==> TokenChar(alpha, s[i]) || IsAsciiWhitespace(s[i])
    ensures Select(s, KeepMask(alpha, st, s)) == NonWhitespace(s)
    decreases |s|
  {
    if s != [] {
      KeepMaskFacts(alpha, st, s, 0);
      assert forall i :: 0 <= i < |s[1..]| ==> s[1..][i] == s[i + 1];
      SelectClean(alpha, Step(alpha, st, s[0]), s[1..]);
    }
  }

  /** A script made only of token characters and whitespace loses exactly its whitespace. */
  lemma LexDropsOnlyWhitespace(alpha: char -> bool, script: string)
    requires IsAlphabeticClass(alpha)
    requires forall i :: 0 <= i < |script| ==> TokenChar(alpha, script[i]) || IsAsciiWhitespace(script[i])
    ensures Concat(Lex(alpha, script)) == NonWhitespace(script)
  {
    LexText(alpha, script);
    SelectClean(alpha, Start, script);
  }
}
