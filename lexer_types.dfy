/**
 * Token kinds, automaton states and the token view shared by the lexer and
 * the parser (craft/src/lexer/mod.rs).
 */
module LexerTypes {

  /** The classification of a token. */
  datatype TokenType =
    | Plus | Minus | Star | Slash
    | GE | GT | EQ | LE | LT
    | SemiColon | LeftParen | RightParen | Assignment
    | If | Else | Int
    | Identifier | IntLiteral | StringLiteral

  /**
   * The states of the lexer's automaton. `If`, `IdIf1`, `IdIf2`, `Else`,
   * `IdElse1`..`IdElse4` and `Int` are declared but never entered.
   */
  datatype DfaState =
    | Initial
    | If | IdIf1 | IdIf2
    | Else | IdElse1 | IdElse2 | IdElse3 | IdElse4
    | Int | IdInt1 | IdInt2 | IdInt3
    | Id
    | GT | GE
    | Assignment | Plus | Minus | Star | Slash
    | SemiColon | LeftParen | RightParen
    | IntLiteral
  {
    /** The states the lexer's match statement has an arm for. */
    predicate Handled()
    {
      !(If? || IdIf1? || IdIf2? || Else? || IdElse1? || IdElse2? || IdElse3? || IdElse4? || Int?)
    }
  }

  /**
   * What the parser sees of a token: the `Token` trait's `get_type` and
   * `get_text`.
   */
  datatype Token = Token(kind: TokenType, text: string)
}
