# A verified model of the craft lexer, parser and script evaluator

This project models the interpreter pipeline for the toy integer language in
`craft/src/lexer`, in Dafny. The pipeline has five parts:

- **The DFA lexer.** `SimpleLexer::tokenize` with `init_token` makes one left-to-right pass over the characters. It turns them into `(TokenType, text)` tokens and recognises the keyword `int` one character at a time.
- **The token cursor.** `SimpleTokenReader` is a token vector with a read position. It offers read, peek, unread, get position and set position.
- **The syntax tree node.** `SimpleASTNode` holds a kind, a text and an ordered list of children.
- **The recursive-descent parser.** `SimpleParser` reads `int x [= e];`, `e;` and `x = e;`. Its expressions are left-associative `+ -` over left-associative `* /` over literals, identifiers and parenthesised expressions. It tries the statement forms in a fixed order and backtracks with the cursor when a form fails.
- **The tree-walking evaluator.** `SimpleScript::evaluate` walks the tree over a map from variable names to `i32` values.

## How the code is modelled

Each operation has a specification function, and the imperative code is modelled by methods proved equal to it.

- **Lexer.**
  - `Seed` is one call of `init_token`, and `Step` is one iteration of the character loop.
  - `RunFrom` is the loop, and `Lex` is the loop plus the final flush.
  - The methods `InitToken` and `Tokenize` are the imperative code. `Tokenize` returns a token reader.
- **Token cursor.** The reader is a class with a `pos` field, and its methods update that field.
- **Parser.**
  - Each grammar rule is a function from a token sequence and a position to an `Attempt`: the rule's result plus the cursor position afterwards.
  - The result is `Found(node)`, `NoMatch` (the Rust `Ok(None)`) or `Fail(msg)` (the Rust `Err`).
  - The methods `Primary`, `Multiplicative`, `Additive`, `ExpressionStatement`, `AssignmentStatement`, `IntDeclare`, `GetRoot` and `Parse` drive a `SimpleTokenReader` exactly as the Rust code does. Each is proved to return the function's result and to leave the cursor at the function's position.
- **Evaluator.**
  - `Eval` maps a node and the variables before it to an `Outcome` and the variables after it.
  - `SimpleScript.Evaluate` is the recursive method that updates the `variables` field in place. Its `Program` arm is a loop.
- **End to end.** `SimpleProgramFacts` proves that the tokens of any sequence of statements parse back to exactly those statements. `PipelineExamples` takes the script of the parser's test from its characters through the lexer and the parser to the evaluator's result.

### Semantics carried over from the code

- **Debug-build `i32` arithmetic.**
  - `+`, `-` and `*` panic on overflow, and `/` panics on division by zero.
  - `/` truncates toward zero: `TruncDiv` is written out because Dafny's `/` is Euclidean.
  - A panic is the `Abort` outcome. A missing operand child also panics, because of the `expect` calls in the Additive/Multiplicative arm.
- **Errors in the parser.**
  - `get_root` calls `.expect(...)` on every rule's result, so a rule's `Err` becomes a panic. In the model it is `RootResult.Panic` carrying the `expect` text followed by the rule's message.
  - Only "unknown statement" is returned as an error, as `RootResult.SyntaxError`.
- **Unicode letters.** `char::is_alphabetic` is a Unicode property. The lexer takes it as a parameter `alpha`, and `IsAlphabeticClass(alpha)` requires it to agree with the ASCII letters on ASCII characters.

### Behaviour worth knowing

- **A literal that does not fit `i32`.** `evaluate` prints a message and uses 0, and evaluation goes on (`simple_script.rs:131-136`).
- **Rule errors panic.** `get_root` calls `expect` on each rule's result (`simple_parser.rs:82-89`). A malformed declaration of the forms in the doc comment of `int_declare` (`simple_parser.rs:160-162`), such as `int x = ;` or `int x = 1` with no `;`, therefore ends in a panic and is not returned. Only a token that starts no statement gives the returned error "unknown statement".
- **An expression statement whose expression fails.** `expression_statement` passes the error of `additive` on with `?` (`simple_parser.rs:106`), so `1 + ;` panics as well. Only a complete expression with no `;` after it rolls the cursor back (`simple_parser.rs:119`).
- **Left-nested trees.** The grammar comment `add -> mul (+ mul)*` (`simple_parser.rs:204-205`) is implemented by a loop that makes each new operator the parent of the tree so far, so `a - b - c` is `(a - b) - c`.
- **The keyword `int`.** It is recognised only before ASCII whitespace (`simple_lexer.rs:142-151`). Before any other character it stays part of an identifier, so `int;` is one Identifier, and `int` at the end of the input is the identifier `int`.
- **Integer literals.** A digit starts the identifier state with kind IntLiteral (`simple_lexer.rs:202-205`), so letters after digits extend the literal: `45abc` is one IntLiteral.

## Model

| member | source | states |
|---|---|---|
| SimpleLexer.InitToken | craft/src/lexer/simple_lexer.rs:176-250 | `init_token` as written. It pushes the pending token when its text is non-empty, then starts a token with `ch`: a letter gives an Identifier (state IdInt1 for `i`), a digit gives an IntLiteral in state Id, and an operator character gives its one-character kind. Any other character is dropped. The result equals `Seed` |
| SimpleLexer.Tokenize | craft/src/lexer/simple_lexer.rs:69-163 | The loop with its state machine, then the final flush. The returned reader is new, at position 0, and holds exactly `TokensOf(Lex(script))`. Every token's type is set, so `get_type`'s unwrap cannot fail |
| SimpleLexer.TokensOf | craft/src/lexer/simple_lexer.rs:276-280 | Tokens whose type is set present the same kind and text through the `Token` trait, in the same order |
| SimpleLexer.SeedInv | craft/src/lexer/simple_lexer.rs:176-250 | After `init_token`, the loop invariant holds: every pushed token is well formed, and the pending token fits the new state |
| SimpleLexer.OperatorSeed | craft/src/lexer/simple_lexer.rs:206-241 | `> + - * / ; ( ) =` each open a one-character token whose kind matches the character. `>` opens GT |
| SimpleLexer.StepInv | craft/src/lexer/simple_lexer.rs:78-155 | One iteration of the loop, in any reachable state, preserves the invariant |
| SimpleLexer.RunInv | craft/src/lexer/simple_lexer.rs:78-155 | The whole loop preserves the invariant |
| SimpleLexer.LexWellFormed | craft/src/lexer/simple_lexer.rs:157-160 | Every token `tokenize` produces has its type set and non-empty text that fits the kind. Operators and `int` have their fixed text; identifiers start with a letter; literals start with a digit |
| SimpleLexerFacts.SeedFlat | craft/src/lexer/simple_lexer.rs:180-245 | `init_token` keeps `ch` exactly when it is a letter, a digit or an operator character |
| SimpleLexerFacts.StepFlat | craft/src/lexer/simple_lexer.rs:78-155 | One iteration appends the character to the kept text exactly when it is a token character, or a non-whitespace character in state IdInt3 |
| SimpleLexerFacts.RunFlat | craft/src/lexer/simple_lexer.rs:78-155 | Over the whole loop, the kept text grows by exactly the characters the mask selects, in order |
| SimpleLexerFacts.FinishFlat | craft/src/lexer/simple_lexer.rs:157-160 | The final flush pushes the pending text and adds nothing |
| SimpleLexerFacts.LexText | craft/src/lexer/simple_lexer.rs:69-163 | The token texts, concatenated, are the script with characters removed. Every token character is kept and no whitespace is kept. Any other character is kept only right after a token-initial `int` |
| SimpleLexerFacts.LexDropsOnlyWhitespace | craft/src/lexer/simple_lexer.rs:69-163 | For a script made of token characters and whitespace only, the concatenated token texts are the script without its whitespace |
| SimpleLexerRoundTrip.RunAppend | craft/src/lexer/simple_lexer.rs:78-155 | Running the loop over `a + b` is running it over `a`, then over `b` |
| SimpleLexerRoundTrip.StepFrame | craft/src/lexer/simple_lexer.rs:78-155 | An iteration never looks at the tokens already pushed |
| SimpleLexerRoundTrip.RunFrame | craft/src/lexer/simple_lexer.rs:78-155 | The loop never looks at the tokens already pushed |
| SimpleLexerRoundTrip.WhitespaceStep | craft/src/lexer/simple_lexer.rs:80-141 | Outside state IdInt3, whitespace closes the pending token and returns to the initial state |
| SimpleLexerRoundTrip.KeywordStep | craft/src/lexer/simple_lexer.rs:142-160 | After a token-initial `int`, whitespace makes the pending token the keyword Int. At end of input the same text is flushed as the Identifier `int` |
| SimpleLexerRoundTrip.LexSplitAtWhitespace | craft/src/lexer/simple_lexer.rs:78-160 | Unless the text before it ends in a token-initial `int`, a whitespace character splits the token list exactly in two |
| SimpleLexerRoundTrip.LexSplitBefore | craft/src/lexer/simple_lexer.rs:78-160 | Where the running token cannot take the next character and `init_token` is called, the token list splits exactly in two at that character |
| SimpleLexerRoundTrip.LexKeywordAtWhitespace | craft/src/lexer/simple_lexer.rs:142-160 | When the text before the whitespace ends in a token-initial `int`, that token becomes the keyword and the rest is split off |
| SimpleLexerRoundTrip.RunWord | craft/src/lexer/simple_lexer.rs:85-94 | In state Id, letters and digits only extend the token (maximal munch) |
| SimpleLexerRoundTrip.IntPrefixRuns | craft/src/lexer/simple_lexer.rs:194-201 | `i`, `in` and `int` at the start of a token lead to states IdInt1, IdInt2 and IdInt3 |
| SimpleLexerRoundTrip.PrefixThenWhitespace | craft/src/lexer/simple_lexer.rs:122-141 | `i` or `in` followed by whitespace is closed as an Identifier |
| SimpleLexerRoundTrip.RunAfterInt | craft/src/lexer/simple_lexer.rs:142-152 | After `int`, further letters and digits turn the token into an ordinary identifier |
| SimpleLexerRoundTrip.LongIRun | craft/src/lexer/simple_lexer.rs:122-152 | A word beginning with `int` and longer than three characters is one Identifier |
| SimpleLexerRoundTrip.KeywordThenSpace | craft/src/lexer/simple_lexer.rs:142-151 | `int` followed by whitespace is the keyword token Int |
| SimpleLexerRoundTrip.GreaterEqualThenSpace | craft/src/lexer/simple_lexer.rs:95-105 | `>=` is one GE token |
| SimpleLexerRoundTrip.OperatorThenSpace | craft/src/lexer/simple_lexer.rs:106-111 | Each operator character is one token of its kind |
| SimpleLexerRoundTrip.WordThenSpace | craft/src/lexer/simple_lexer.rs:85-94 | A word not starting with `i` is one token. Its kind is set by its first character, so `45abc` is one IntLiteral |
| SimpleLexerRoundTrip.OneTokenThenSpace | craft/src/lexer/simple_lexer.rs:78-160 | Every token the automaton can produce is read back as itself when whitespace follows it |
| SimpleLexerRoundTrip.LexRenderRoundTrip | craft/src/lexer/simple_lexer.rs:69-163 | Writing such tokens out with a space after each, then tokenizing, gives exactly the same tokens back |
| SimpleLexerExamples.Declaration | craft/src/lexer/simple_lexer.rs:13 | `int age = 45;` gives Int, Identifier, Assignment, IntLiteral, SemiColon |
| SimpleLexerExamples.NotAKeyword | craft/src/lexer/simple_lexer.rs:19 | `inta age = 45;` starts with the Identifier `inta` |
| SimpleLexerExamples.ShortPrefix | craft/src/lexer/simple_lexer.rs:25 | `in age` gives the Identifiers `in` and `age` |
| SimpleLexerExamples.SplitAfterI | craft/src/lexer/simple_lexer.rs:122-131 | `id` gives the Identifiers `i` and `d` |
| SimpleLexerExamples.KeywordNeedsWhitespace | craft/src/lexer/simple_lexer.rs:142-151 | `int;` is the single Identifier `int;` |
| SimpleLexerExamples.KeywordAtEnd | craft/src/lexer/simple_lexer.rs:157-160 | `int` at end of input is the Identifier `int` |
| SimpleLexerExamples.LiteralRunsIntoLetters | craft/src/lexer/simple_lexer.rs:202-205 | `45abc` is one IntLiteral |
| SimpleLexerExamples.GreaterOrEqual | craft/src/lexer/simple_lexer.rs:32 | `age >= 45;` gives Identifier, GE, IntLiteral, SemiColon |
| SimpleLexerExamples.GreaterThan | craft/src/lexer/simple_lexer.rs:39 | `age > 45;` gives Identifier, GT, IntLiteral, SemiColon |
| SimpleLexerExamples.WordSplit | craft/src/lexer/simple_lexer.rs:85-94 | A word ends at the first character that is neither a letter nor a digit, whatever follows |
| SimpleLexerExamples.OperatorSplit | craft/src/lexer/simple_lexer.rs:210-241 | An operator other than `>` is a one-character token, whatever follows it |
| SimpleLexerExamples.NoKeywordAfter | craft/src/lexer/simple_lexer.rs:122-151 | Only a `t` can leave the automaton in the state of a token-initial `int` |
| SimpleLexerExamples.AgeScriptLex | craft/src/lexer/simple_parser.rs:28 | `int age = 45+2; age= 20; age+10*2;` gives the seventeen tokens of its three statements, with no whitespace needed around operators |
| TokenStream.At | craft/src/lexer/mod.rs:16-17 | `peek` is the token at the position, or none exactly when the stream is exhausted |
| TokenStream.AfterRead | craft/src/lexer/simple_lexer.rs:306-313 | `read` advances exactly when a token remains |
| TokenStream.AfterUnread | craft/src/lexer/simple_lexer.rs:323-327 | `unread` steps back one position, saturating at 0 |
| TokenStream.AfterSetPosition | craft/src/lexer/simple_lexer.rs:333-337 | `set_position` moves to a position that names a token and ignores any other |
| TokenStream.SimpleTokenReader.Read | craft/src/lexer/simple_lexer.rs:306-313 | Returns the token at the old position and moves past it. On an exhausted stream it returns none and stays put. `pos <= len` is kept |
| TokenStream.SimpleTokenReader.Peek | craft/src/lexer/simple_lexer.rs:315-321 | Returns the token `read` would return, and does not move |
| TokenStream.SimpleTokenReader.Unread | craft/src/lexer/simple_lexer.rs:323-327 | Moves back one position, never below 0 |
| TokenStream.SimpleTokenReader.GetPosition | craft/src/lexer/simple_lexer.rs:329-331 | Returns the current position, which is at most the length |
| TokenStream.SimpleTokenReader.SetPosition | craft/src/lexer/simple_lexer.rs:333-337 | Moves to `position` when it is below the length; otherwise nothing changes |
| TokenStreamFacts.ReadUnread | craft/src/lexer/mod.rs:14-19 | Unreading right after a successful read delivers the same token again |
| TokenStreamFacts.SaveRestore | craft/src/lexer/mod.rs:20-23 | A position saved while a token was ahead is restored exactly |
| TokenStreamFacts.PositionStaysInRange | craft/src/lexer/simple_lexer.rs:306-337 | No cursor operation takes the position past the end |
| Ast.New | craft/src/lexer/simple_calculator.rs:36-43 | A new node has the given kind and text and no children |
| Ast.AddChild | craft/src/lexer/simple_calculator.rs:45-50 | The child goes last. Earlier children keep their order, the length grows by one, and kind and text do not change |
| Ast.Binary | craft/src/lexer/simple_parser.rs:228-234 | A binary node built by `new` and two `add_child` calls has exactly the left and the right operand as children |
| SimpleParser.PrimaryParse | craft/src/lexer/simple_parser.rs:275-313 | Returns no match, without consuming anything, exactly when the next token is not a literal, an identifier or `(`. A match consumes at least one token and, over lexer output, is an expression tree |
| SimpleParser.MultiplicativeLoop | craft/src/lexer/simple_parser.rs:250-271 | The loop never reports no match and keeps trees well formed |
| SimpleParser.MultiplicativeParse | craft/src/lexer/simple_parser.rs:244-272 | Returns no match, without consuming anything, exactly when no primary can start; otherwise the same guarantees as `primary` |
| SimpleParser.AdditiveLoop | craft/src/lexer/simple_parser.rs:212-239 | The loop never reports no match and keeps trees well formed |
| SimpleParser.AdditiveParse | craft/src/lexer/simple_parser.rs:206-240 | Returns no match, without consuming anything, exactly when no primary can start; otherwise the same guarantees as `primary` |
| SimpleParser.ExpressionStatementParse | craft/src/lexer/simple_parser.rs:104-121 | When no match is reported, the cursor is back where it started. A match is an expression tree |
| SimpleParser.AssignmentStatementParse | craft/src/lexer/simple_parser.rs:124-157 | When no match is reported, the cursor is back where it started. A match is an AssignmentStmt named by the identifier, with one expression child |
| SimpleParser.AssignedValueParse | craft/src/lexer/simple_parser.rs:135-153 | After `=`, the result is either an error or an AssignmentStmt with one expression child |
| SimpleParser.ExpectSemicolon | craft/src/lexer/simple_parser.rs:193-198 | Succeeds with the node exactly when a `;` follows, and consumes it |
| SimpleParser.IntDeclareParse | craft/src/lexer/simple_parser.rs:163-201 | Returns no match exactly when the next token is not `int`. A match is an IntDeclaration whose name is the text of the Identifier after `int`, and it consumes the `;` that ends the declaration. It has one expression child exactly when `=` follows the name, and none otherwise |
| SimpleParser.InitializerParse | craft/src/lexer/simple_parser.rs:184-200 | After the name, the result is an error, or an IntDeclaration with a child exactly when `=` follows |
| SimpleParser.StatementParse | craft/src/lexer/simple_parser.rs:80-94 | Tries declaration, then expression statement, then assignment. No match leaves the cursor in place. A match is a statement |
| SimpleParser.RootLoop | craft/src/lexer/simple_parser.rs:79-100 | A successful parse consumes every token and appends statements after the existing children, in source order. All of them are statements |
| SimpleProgramFacts.ProgramRoundTrip | craft/src/lexer/simple_parser.rs:76-101 | Any sequence of statements, written out as tokens, parses back to the Program node with exactly those statements as its children, in order |
| SimpleProgramFacts.ProgramSpelled | craft/src/lexer/simple_parser.rs:79-100 | From any position, the tokens of a sequence of statements running to the end of the input make the loop append exactly those statements to the node built so far |
| SimpleProgramFacts.LoopAppends | craft/src/lexer/simple_parser.rs:79-100 | When statements are parsed one after another up to the end of the input, the loop ends with a program holding the node built so far followed by exactly those statements, in order |
| SimpleProgramFacts.PrintedParsedInTurn | craft/src/lexer/simple_parser.rs:80-97 | The tokens of a sequence of statements that run to the end of the input parse as those statements, one after another |
| SimpleProgramFacts.StatementSpelled | craft/src/lexer/simple_parser.rs:80-97 | The tokens of any statement parse as that statement, and the cursor moves past its `;` |
| SimpleProgramFacts.DeclarationSpelled | craft/src/lexer/simple_parser.rs:163-201 | `int x = e;` parses as the declaration of `x` with the tree of `e` as its child |
| SimpleProgramFacts.AssignmentSpelled | craft/src/lexer/simple_parser.rs:124-157 | `x = e;` parses as the assignment of the tree of `e` to `x`, after the expression rule has backtracked |
| SimpleProgramFacts.ExpressionStatementSpelled | craft/src/lexer/simple_parser.rs:104-116 | `e;` parses as the tree of `e` when `e` is an expression statement |
| SimpleProgramFacts.ExpressionBeforeSemicolon | craft/src/lexer/simple_parser.rs:206-240 | The tokens of an expression followed by `;` give exactly that expression's tree, and the cursor stops at the `;` |
| SimpleProgramFacts.DeclaredWithoutValue | craft/src/lexer/simple_parser.rs:178-199 | `int x;` is the IntDeclaration of `x` with no child, and the cursor moves past the `;` |
| SimpleProgramFacts.DeclaredValue | craft/src/lexer/simple_parser.rs:184-199 | `int x = e;` is the IntDeclaration of `x` whose one child is the tree the expression rule gives for `e` |
| SimpleProgramFacts.DeclarationError | craft/src/lexer/simple_parser.rs:82 | An error from the declaration rule is the statement's error, prefixed with the text of the `expect` |
| SimpleProgramFacts.MissingInitializer | craft/src/lexer/simple_parser.rs:184-191 | `int x =` followed by no expression (`int x = ;`) panics the whole parse with "invalid variable initialization, expecting an expression" |
| SimpleProgramFacts.UnterminatedInitializer | craft/src/lexer/simple_parser.rs:193-196 | `int x = e` with no `;` after it panics the whole parse with "invalid statement, expecting semicolon" |
| SimpleProgramFacts.UnterminatedDeclaration | craft/src/lexer/simple_parser.rs:193-196 | `int x` followed by neither `=` nor `;` panics the whole parse with "invalid statement, expecting semicolon" |
| SimpleProgramFacts.RootStep | craft/src/lexer/simple_parser.rs:79-97 | When a statement is found at a position, the loop goes on from after it with that statement appended |
| SimpleParser.Primary | craft/src/lexer/simple_parser.rs:275-313 | The imperative rule returns `PrimaryParse`'s result and leaves the cursor at its position |
| SimpleParser.Multiplicative | craft/src/lexer/simple_parser.rs:244-272 | Equals `MultiplicativeParse`, result and cursor |
| SimpleParser.Additive | craft/src/lexer/simple_parser.rs:206-240 | Equals `AdditiveParse`, result and cursor |
| SimpleParser.ExpressionStatement | craft/src/lexer/simple_parser.rs:104-121 | Equals `ExpressionStatementParse`, result and cursor |
| SimpleParser.AssignmentStatement | craft/src/lexer/simple_parser.rs:124-157 | Equals `AssignmentStatementParse`, result and cursor |
| SimpleParser.IntDeclare | craft/src/lexer/simple_parser.rs:163-201 | Equals `IntDeclareParse`, result and cursor |
| SimpleParser.GetRoot | craft/src/lexer/simple_parser.rs:76-101 | Equals `RootLoop` from an empty Program node |
| SimpleParser.Parse | craft/src/lexer/simple_parser.rs:69-73 | Tokenizes the code and parses the tokens; the result equals `ParseCode` |
| SimpleParserFacts.AdditivePrefix | craft/src/lexer/simple_parser.rs:206-240 | The additive rule reads back any expression tree from its printed tokens, folding left |
| SimpleParserFacts.MultiplicativePrefix | craft/src/lexer/simple_parser.rs:244-272 | The multiplicative rule reads back any product tree from its printed tokens, folding left |
| SimpleParserFacts.PrimaryRoundTrip | craft/src/lexer/simple_parser.rs:275-313 | A leaf, or a parenthesised tree, is read back by `primary` as the tree itself, with no wrapper node |
| SimpleParserFacts.PrintSpells | craft/src/lexer/simple_parser.rs:206-313 | The printed tokens of a tree, with parentheses where precedence needs them, follow the grammar |
| SimpleParserFacts.ExpressionRoundTrip | craft/src/lexer/simple_parser.rs:206-240 | Parsing the printed tokens of any expression tree gives that tree back and consumes exactly those tokens |
| SimpleParserFacts.ExpressionStatementRoundTrip | craft/src/lexer/simple_parser.rs:76-121 | `e;` parses to a Program whose only child is `e` |
| SimpleParserFacts.ParsesAs | craft/src/lexer/simple_parser.rs:206-240 | Tokens that spell a tree parse to that tree |
| SimpleParserFacts.SubtractionGroupsLeft | craft/src/lexer/simple_parser.rs:212-239 | `a-b-c` is `(a-b)-c` |
| SimpleParserFacts.ProductBindsTighter | craft/src/lexer/simple_parser.rs:207-231 | `2+3*4` has `+` at the root |
| SimpleParserFacts.ParenthesesGroup | craft/src/lexer/simple_parser.rs:293-309 | `(2+3)*4` has `*` at the root and the sum as its left operand |
| SimpleParserFacts.LexedTokensWellTyped | craft/src/lexer/simple_parser.rs:69-73 | The lexer's operator tokens carry their operator as text |
| SimpleParserFacts.ParsedProgramShape | craft/src/lexer/simple_parser.rs:69-101 | A successful parse of any code is a Program node named "SimpleParser" whose children are all statements |
| SimpleParserFacts.UnknownStatement | craft/src/lexer/simple_parser.rs:92-94 | A statement starting with neither `int` nor an expression token (`+2;`) ends with "unknown statement" |
| SimpleParserFacts.AssignmentAfterBacktracking | craft/src/lexer/simple_parser.rs:104-157 | For `a = e;` the expression rule backtracks to `a`, and the assignment rule builds the assignment of `e` |
| SimpleParserFacts.NameIsNotAStatement | craft/src/lexer/simple_parser.rs:104-121 | An identifier followed by `=` is not an expression statement, and the cursor is restored |
| SimpleParserFacts.AssignedValue | craft/src/lexer/simple_parser.rs:124-157 | After `name =`, a whole expression and `;` give the AssignmentStmt of that expression |
| SimpleParserFacts.ParenthesisErrors | craft/src/lexer/simple_parser.rs:293-306 | `(` without an expression, or an expression without `)`, is an error |
| SimpleParserFacts.MissingDeclarationName | craft/src/lexer/simple_parser.rs:171-177 | `int` not followed by a name is the error "variable name expected", and the `expect` at line 82 turns it into a panic of the whole parse |
| SimpleParserFacts.RuleErrorPanics | craft/src/lexer/simple_parser.rs:80-91 | Any rule error at a statement is the panic that ends the parse |
| SimpleParserFacts.MissingAssignedValue | craft/src/lexer/simple_parser.rs:136-141 | `x = ;` panics the parse with the assignment rule's message |
| Script.ParseI32 | craft/src/lexer/simple_script.rs:131-136 | `i32::from_str` succeeds only on a non-empty text. On a text of digits it gives their value |
| Script.Checked | craft/src/lexer/simple_script.rs:123-127 | An operation's value is kept exactly when it fits in `i32`; otherwise it panics |
| Script.SimpleScript.Evaluate | craft/src/lexer/simple_script.rs:101-186 | The method's outcome and the new variables are those of `Eval` on the old variables |
| ScriptFacts.DecimalRoundTrip | craft/src/lexer/simple_script.rs:131-136 | Every `i32` written in decimal (and with a `+` when non-negative) parses back to itself |
| ScriptFacts.NegativeRoundTrip | craft/src/lexer/simple_script.rs:131-136 | `-` followed by digits parses to the negative value, down to `i32::MIN` |
| ScriptFacts.ParseRejects | craft/src/lexer/simple_script.rs:131-136 | Digits followed by anything else, or a value too large, do not parse; the literal then evaluates to 0 |
| ScriptFacts.TruncDivRemainder | craft/src/lexer/simple_script.rs:127 | Truncating division leaves a remainder smaller than the divisor and with the dividend's sign |
| ScriptFacts.EvalExpression | craft/src/lexer/simple_script.rs:114-147 | An expression tree never changes the variables and never returns an error. It has a value exactly when every intermediate result fits in `i32`, and that value is the tree's arithmetic value (unbound names are 0) |
| ScriptFacts.DeclarationBinds | craft/src/lexer/simple_script.rs:148-171 | A declaration binds the name to its initialiser's value (0 without one), overwriting any old value, and returns it |
| ScriptFacts.AssignmentBinds | craft/src/lexer/simple_script.rs:148-171 | An assignment is an error, with the variables unchanged, exactly when the name is undeclared. Otherwise it binds the name to the value and returns it |
| ScriptFacts.VariablesStay | craft/src/lexer/simple_script.rs:101-186 | Evaluation never removes a variable |
| ScriptFacts.ProgramSequencing | craft/src/lexer/simple_script.rs:109-113 | A program's statements run in order. An error or panic stops the rest but keeps earlier updates, and the value is the last statement's |
| ScriptExamples.OneStatement | craft/src/lexer/simple_script.rs:109-113 | A one-statement program comes to that statement |
| ScriptExamples.AgeScript | craft/src/lexer/simple_parser.rs:28 | The program of the three statements of `int age = 45+2; age= 20; age+10*2;` evaluates to 40, with `age` bound to 20 |
| PipelineExamples.AgeScriptEndToEnd | craft/src/lexer/simple_parser.rs:28 | The text `int age = 45+2; age= 20; age+10*2;` lexes and parses to the Program of its three statements, and running that Program gives 40 with `age` bound to 20 |
| ScriptExamples.LeftToRight | craft/src/lexer/simple_script.rs:114-130 | `1+2-3` is 0 |
| ScriptExamples.Precedence | craft/src/lexer/simple_script.rs:114-130 | `2+3*4` is 14 |
| ScriptExamples.ReadAfterAssign | craft/src/lexer/simple_script.rs:137-171 | A read sees the latest assignment |
| ScriptExamples.UndeclaredAssignment | craft/src/lexer/simple_script.rs:152-156 | `b = 1;` without a declaration is the error "you dont define variable b", and nothing is bound |
| ScriptExamples.ErrorKeepsEarlierBindings | craft/src/lexer/simple_script.rs:109-113 | An error stops the program but keeps the earlier bindings |
| ScriptExamples.DivideByZero | craft/src/lexer/simple_script.rs:127 | `1/0` panics |
| ScriptExamples.MultiplyOverflow | craft/src/lexer/simple_script.rs:126 | `1000*1000*1000*10` panics with a multiply overflow |
| ScriptExamples.DivisionTowardZero | craft/src/lexer/simple_script.rs:127 | `-7/2` and `7/-2` are -3 |

## Left out

- `script_demo` (`simple_script.rs:14-84`) is a stdin/stdout read-eval loop with `-v` handling. It is I/O only.
- The verbose tracing and result printing in `evaluate` are console output only. So are the "unsupported operator", "parse failed" and "not found variable" messages, `SimpleLexer::dump` and `dump_ast`. They are left out.
- `Rc`, `RefCell`, `Weak` parent links and `set_parent` are left out. `add_child` never sets a parent, so the tree is a plain value and `add_child` returns the extended node.
- `Box<dyn Token>` trait objects are not modelled; a token is a value of kind and text.
- The abandoned parser sketch in `simple_calculator.rs:56-186` is never called and is not modelled.
- The `DfaState` variants that are never entered (`If`, `IdIf*`, `Else`, `IdElse*`, `Int`) are left out. So is the `panic!` arm that covers them; the loop requires a handled state.
- `char::is_alphabetic` on non-ASCII characters is left open. Its Unicode tables are not modelled, and the lexer takes the letter test as a parameter.
- Panic messages: a rule error inside `get_root` is modelled as the `expect` text, then `": "`, then the rule's message. Rust also prints the error's debug form. Overflow panics use Rust's message texts.
- Release-build wrap-around arithmetic is not modelled; the model follows debug-build semantics.
- `ASTNodeType`, `invalid_input_err` and the `ASTNode` trait are not part of this model's sources. They are defined from their uses: the node kinds, and an error carrying a message.
- The test modules only print, so their inputs appear as example lemmas.
- TokenStreamFacts.ReadUnread, TokenStreamFacts.SaveRestore and TokenStreamFacts.PositionStaysInRange follow directly from the cursor functions' contracts and need no proof steps.
- Script.ParseI32: the contract states the digit-string case and emptiness. The signed cases are stated as the lemmas `ScriptFacts.DecimalRoundTrip`, `NegativeRoundTrip` and `PlusRoundTrip`.
