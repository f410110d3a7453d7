# Ponos grammar in Dafny

Ponos is a small language with Cyrillic keywords. Its syntax is defined by
one tree-sitter grammar, `grammar.js`. This project models that grammar as a
deterministic front end with five parts:

- **Character classes and tokens** (`chars.dfy`, `tokens.dfy`):
  - the `identifier`, `number`, `string` and `bool` rules;
  - the reserved words (`пер`, `возврат`, `функ`, `конец`, `если`, `иначе`, `пока`, `класс`, `наследует`, `реализует`, `и`, `или`);
  - the punctuation.
- **The lexer** (`lexer.dfy`). Whitespace and `//` comments are the grammar's `extras` and are dropped. Every other token is the longest match. A whole word that is a reserved word becomes that keyword, because keywords take priority over `identifier`.
- **The `PREC` table** (`precedence.dfy`): the level of every operator, and the level at which each kind of expression binds.
- **The parser** (`parser.dfy`). Recursive descent reads the statements. Precedence climbing reads the left-associative binary operators. A postfix loop reads calls and field accesses. `sepBy`/`sepBy1` are in `lists.dfy`.
- **The source-file entry point**, `Ponos.ParseSource` (`source.dfy`): text → tokens → `source_file`.

The syntax tree (`ast.dfy`) has one constructor per rule. Optional parts of a rule are explicit:

- the `иначе` branch is `ElseClause`;
- the `наследует` and `реализует` names are `Option`s;
- the `возврат` value is an `Option`.

The central results are the round trips:

- a printer (`printer.dfy`) writes a tree back as tokens;
- for every *canonical* tree, the parser reads those tokens back as exactly that tree and leaves the following tokens untouched (`roundtrip.dfy`);
- `Lex(Unlex(ts)) == Ok(ts)` holds for every sequence of valid tokens;
- together these give a text-level round trip, `Ponos.SourceRoundTrip`.

The other direction is stated too:

- whatever a parse function accepts is exactly the printed text of the tree it returns, followed by the tokens it leaves (`soundness.dfy`);
- so every `;`, `конец`, `)` and separator a rule demands was present;
- whatever the lexer accepts is its tokens' spellings with only whitespace and comments between them (`LexerProperties.LexSound`);
- `Ponos.ProgramExactly` combines both directions: a token sequence is accepted as a program exactly when the program is canonical and the tokens are its text.

Two places where the generated tree-sitter parser reads the grammar differently from its evident intent are modelled as written, next to the intended reading (see Findings):

- the boundary after an `если`/`пока` condition, for the outermost statement (`condition.dfy`);
- extras inside a string literal (`string_extras.dfy`).

A canonical tree is one the model's parser produces (`Ponos.ProgramExactly`). This revision has no parentheses, so the operand levels have to respect the precedence table. `если`/`пока` bodies that lead with `-` come only from the generated reading of conditions (`condition.dfy`). `properties.dfy` derives the grammar's promises from these results:

- operator grouping and associativity;
- prefix nesting;
- the two list forms;
- how blocks close;
- which first tokens select each kind of statement.

## Model

| member | source | states |
|---|---|---|
| Chars.ClassesDisjoint | grammar.js:168 | a digit never starts an identifier; no identifier character is whitespace, `"`, `/` or `.` |
| Tokens.ReservedWord | grammar.js:168-181 | a word that is reserved denotes a keyword or bool token spelled exactly as that word |
| Tokens.ReservedWordOfSpelling | grammar.js:178-181 | every keyword and both bool words are recognised as themselves |
| Lexer.ScanNumber | grammar.js:176 | the scanned prefix matches `[0-9]+(\.[0-9]+)?`; it is the longest match: no digit follows, and `.digit` follows only if the dot is already used |
| Lexer.ScanString | grammar.js:183-190 | a found closing quote is a `"` whose preceding text is a valid string body |
| Lexer.ScanSym | grammar.js:138-159 | the symbol read spells exactly the consumed prefix |
| Lexer.ClassifyWord | grammar.js:168 | the token spells the word; it is an identifier exactly when the word is not reserved |
| Lexer.NextToken | grammar.js:168-190 | the token spells the consumed prefix and is valid; a word is read to its end; a failure is an unterminated string exactly when the text starts with `"` |
| Lexer.Lex | grammar.js:25-36 | every token produced is valid |
| LexerProperties.LexSound | grammar.js:25-36 | an accepted text is its tokens' spellings in order, separated by gaps that hold only whitespace and `//` comments |
| LexerProperties.LexUnlexThen | grammar.js:25-36 | lexing spelled tokens followed by any text gives those tokens followed by the text's tokens, or the text's error |
| LexerProperties.IllegalCharacterRejected | grammar.js:25-36 | a character no token and no extra starts with is reported as an illegal character, after any valid tokens |
| LexerProperties.UnterminatedStringRejected | grammar.js:183-190 | a `"` whose body has no closing quote on its line is reported as an unterminated string, after any valid tokens |
| LexerProperties.StringBodyShape | grammar.js:183-190 | a string body has no raw newline, and each `"` in it is escaped by a backslash before it |
| LexerProperties.ScanStringFindsClosingQuote | grammar.js:183-190 | the string scan stops at the first quote that closes a valid body |
| LexerProperties.ReservedSpellingIsWord | grammar.js:168 | every reserved word is spelled like an identifier, so keyword priority is needed |
| LexerProperties.WordRunStopsAtBoundary | grammar.js:168 | an identifier is read up to the first non-identifier character |
| LexerProperties.NumberScanStopsAtBoundary | grammar.js:176 | a number is read up to its end when no digit or `.` follows |
| LexerProperties.NextTokenOfSpelling | grammar.js:168-190 | the first token of a token's spelling followed by a space is that token |
| LexerProperties.LexUnlex | grammar.js:25-36 | lexing the spelled tokens, separated by spaces, gives the same tokens back |
| LexerProperties.WordLexesAsOneToken | grammar.js:168 | a whole word lexes as one token: the keyword if it is reserved, an identifier otherwise |
| LexerProperties.CommentIsTrivia | grammar.js:33-36 | a `//` comment up to the end of its line is dropped |
| LexerProperties.StringBodyMayHoldCommentMarker | grammar.js:183-190 | every valid string body between quotes lexes as one string token holding that body, `//` included |
| StringExtras.ScanStringAsWritten | grammar.js:25-36 | as written, with extras allowed between the pieces of `string`, a found closing quote is a `"` |
| StringExtras.AsWrittenAgrees | grammar.js:183-190 | on a line without `//`, the as-written string rule and the single-token reading find the same closing quote |
| StringExtras.CommentSwallowsClosingQuote | grammar.js:183-190 | as written, `"//b"` has no closing quote because the comment runs over it; the single-token reading closes it after `//b` |
| StringExtras.RawNewlineAccepted | grammar.js:183-190 | as written, a raw newline inside quotes is skipped as whitespace; the single-token reading rejects it |
| Lists.SepBy1Shape | grammar.js:203-205 | `sepBy1` over n separator-free items holds n-1 separators, and the separator is neither first nor last |
| Precedence.BinaryPrec | grammar.js:10-20 | every binary level lies between `or` and `multiplicative` |
| Precedence.BinaryOpOf | grammar.js:138-144 | the operator a token denotes is printed as that token |
| Precedence.UnaryOpOf | grammar.js:130-136 | `-` and `!` are exactly the prefix operator tokens |
| Precedence.BinaryOpOfToken | grammar.js:138-144 | every binary operator is read back from its token; only `-` is both prefix and binary |
| Precedence.Level | grammar.js:10-20 | binary expressions bind at level 5 or below, prefix expressions at level 6, and everything else above |
| Parser.ParseName | grammar.js:168 | succeeds exactly on an identifier token and consumes only it |
| Parser.ParseParams | grammar.js:71-75 | an accepted parameter list consumes at least one token |
| Parser.ParamsTail | grammar.js:203-205 | the `(, identifier)*` loop consumes at least one token |
| Parser.ParseStmts | grammar.js:31 | accepted statements are canonical, and the body stops only at `конец`, `иначе` or the end |
| Parser.ParseStmt | grammar.js:38-47 | an accepted statement is canonical and consumes at least one token |
| Parser.ParseVar | grammar.js:49-55 | an accepted declaration is a `пер` statement whose name and `=` are its first tokens |
| Parser.ParseReturn | grammar.js:57-61 | an accepted statement is a `возврат` statement |
| Parser.ParseAssign | grammar.js:77-82 | an accepted assignment starts with its target name and then `=` |
| Parser.ParseExprStmt | grammar.js:115-118 | an accepted statement is an expression statement |
| Parser.ParseIf | grammar.js:84-90 | an accepted statement is an `если` statement with a canonical tree |
| Parser.ParseWhile | grammar.js:92-97 | an accepted statement is a `пока` statement with a canonical tree |
| Parser.ParseFunction | grammar.js:63-69 | an accepted function has a canonical body |
| Parser.ParseClause | grammar.js:102-103 | an absent clause consumes nothing, and the keyword is then not next |
| Parser.ParseClass | grammar.js:99-106 | an accepted statement is a `класс` declaration |
| Parser.ParseMembers | grammar.js:108-113 | the members list is maximal: after it comes neither a name nor `функ` |
| Parser.ParseExpr | grammar.js:120-128 | the expression is canonical and binds at the requested level or tighter; the next token continues no such expression |
| Parser.Climb | grammar.js:138-144 | climbing keeps the result canonical and stops before any operator below the requested level |
| Parser.ParseUnary | grammar.js:130-136 | a prefix expression binds at the unary level or tighter, and no call or field access follows it |
| Parser.ParsePostfix | grammar.js:146-152 | a postfix chain binds at the field level or tighter and is read as long as `(` or `.` follows |
| Parser.PostfixLoop | grammar.js:146-152 | the loop stops only when neither `(` nor `.` follows |
| Parser.ParseArgs | grammar.js:154-159 | accepted arguments are canonical |
| Parser.ArgsTail | grammar.js:154-159 | accepted arguments are canonical |
| Parser.ParsePrimary | grammar.js:161-181 | a primary (identifier, literal or closure) is canonical, binds at the primary level and never starts with `-` |
| Parser.ParseProgram | grammar.js:31 | an accepted program is canonical |
| Spines.ExprFirst | grammar.js:120-128 | the first token of an expression's text can start an expression; it is `-` exactly when the tree leads with a negation |
| Spines.StmtStart | grammar.js:38-47 | the text of a statement never starts with `конец`, `иначе`, `(` or `.`, nor with a binary operator other than `-` |
| Spines.BodyAfterConditionStops | grammar.js:84-97 | a block whose first statement does not lead with `-` cannot continue its `если`/`пока` condition |
| RoundTrip.ParamsRoundTrip | grammar.js:71-75 | a printed parameter list is read back as the same names |
| RoundTrip.ParamsReadAll | grammar.js:71-75 | after `(`, all names of a nonempty list are read, whatever follows |
| RoundTrip.ParamsTailRoundTrip | grammar.js:203-205 | the `(, identifier)*` loop reads every further name and stops at what follows |
| GrammarProperties.ReadsWhole | grammar.js:120-128 | the tokens of a canonical expression read back as exactly that expression, with nothing left |
| RoundTrip.ExprRoundTrip | grammar.js:120-166 | a canonical expression is read back from its tokens, at any level it satisfies, whatever non-continuing tokens follow |
| RoundTrip.ClimbRoundTrip | grammar.js:138-144 | climbing from the leftmost operand over the operator tail rebuilds the left-nested tree |
| RoundTrip.ClimbStep | grammar.js:138-144 | one climbing round reads an operator and its tighter-binding right operand |
| RoundTrip.UnaryRoundTrip | grammar.js:130-136 | a canonical prefix expression is read back from its tokens |
| RoundTrip.PostfixRoundTrip | grammar.js:146-152 | a canonical call/field chain is read back from its tokens |
| RoundTrip.PostfixLoopRoundTrip | grammar.js:146-159 | the postfix loop rebuilds the chain of calls and field accesses |
| RoundTrip.PrimaryRoundTrip | grammar.js:161-190 | identifiers, literals and closures are read back from their tokens |
| RoundTrip.ArgsRoundTrip | grammar.js:154-159 | printed arguments, with or without one trailing comma, followed by `)` are read back as the same arguments and the same comma flag |
| RoundTrip.ArgsReadAll | grammar.js:154-159 | all arguments of a nonempty list are read, whatever non-continuing tokens follow |
| RoundTrip.ArgsTailRoundTrip | grammar.js:203-205 | the `(, expression)*` loop reads every further argument and stops at what follows |
| RoundTrip.StmtsRoundTrip | grammar.js:31 | canonical statements are read back up to `конец`, `иначе` or the end |
| RoundTrip.StmtRoundTrip | grammar.js:38-47 | every canonical statement is read back from its tokens |
| RoundTrip.VarRoundTrip | grammar.js:49-55 | a `пер` declaration is read back from its tokens |
| RoundTrip.ReturnRoundTrip | grammar.js:57-61 | a `возврат` statement, with or without a value, is read back from its tokens |
| RoundTrip.AssignRoundTrip | grammar.js:77-82 | an assignment is read back from its tokens |
| RoundTrip.ExprStmtRoundTrip | grammar.js:115-118 | an expression statement is read back from its tokens |
| RoundTrip.IfRoundTrip | grammar.js:84-90 | an `если` statement, with or without `иначе`, is read back from its tokens |
| RoundTrip.WhileRoundTrip | grammar.js:92-97 | a `пока` statement is read back from its tokens |
| RoundTrip.FunctionRoundTrip | grammar.js:63-69 | a function declaration is read back from its tokens |
| RoundTrip.ClassRoundTrip | grammar.js:99-106 | a class declaration, with each clause present or absent, is read back from its tokens |
| RoundTrip.ClauseRoundTrip | grammar.js:102-103 | an optional `наследует`/`реализует` clause is read back when the same keyword does not follow |
| RoundTrip.MembersRoundTrip | grammar.js:108-113 | methods and field names are read back up to `конец` |
| Ponos.ParseSource | grammar.js:22-31 | an accepted file is a canonical program, and is what the statement rules give for its tokens; a token error is reported as such |
| Ponos.ProgramRoundTrip | grammar.js:31 | a canonical program is read back from its tokens with nothing left over |
| Ponos.SourceRoundTrip | grammar.js:25-31 | a canonical program with valid names, numbers and strings is read back from its text |
| Ponos.TrailingTokensRejected | grammar.js:31 | a stray `конец` or `иначе` after the statements is an error naming that token |
| Ponos.ProgramExactly | grammar.js:31 | a token sequence is accepted as a program exactly when the program is canonical and the tokens are its text |
| Ponos.SourceExactly | grammar.js:22-31 | a text is accepted as a program exactly when the program is canonical and the text lexes to the program's tokens |
| Ponos.SourceSound | grammar.js:25-36 | an accepted text is the accepted program's tokens spelled in order, with only whitespace and comments between them |
| Soundness.ParamsSound | grammar.js:71-75 | an accepted parameter list is exactly `(`, the names separated by `,`, and `)`, followed by the tokens left |
| Soundness.ParamsTailSound | grammar.js:203-205 | the `(, identifier)*` loop accepts only `, name` pairs up to `)`, continuing the list read so far |
| Soundness.ExprSound | grammar.js:120-128 | an accepted expression is exactly the text of its tree, followed by the tokens left |
| Soundness.ClimbSound | grammar.js:138-144 | climbing accepts only operator and operand texts that print the tree it builds |
| Soundness.UnarySound | grammar.js:130-136 | an accepted prefix expression is exactly the text of its tree |
| Soundness.PostfixSound | grammar.js:146-152 | an accepted call/field chain is exactly the text of its tree |
| Soundness.PostfixLoopSound | grammar.js:146-152 | each `(arguments)` or `.name` the loop reads is exactly the text it appends to the tree |
| Soundness.ArgsSound | grammar.js:154-159 | accepted arguments are exactly the expressions separated by `,`, the recorded trailing comma if any, and `)` |
| Soundness.ArgsTailSound | grammar.js:203-205 | the `(, expression)*` loop accepts only `, expression` pairs up to `)` or `,)` |
| Soundness.PrimarySound | grammar.js:161-190 | an accepted primary is exactly the text of its tree |
| Soundness.StmtsSound | grammar.js:31 | accepted statements are exactly their texts in order, followed by the tokens left |
| Soundness.StmtSound | grammar.js:38-47 | an accepted statement is exactly the text of its tree |
| Soundness.KeywordStmtSound | grammar.js:38-47 | a statement led by its keyword is exactly the text of its tree |
| Soundness.VarSound | grammar.js:49-55 | an accepted `пер` is exactly `пер name = expression ;` |
| Soundness.ReturnSound | grammar.js:57-61 | an accepted `возврат` is exactly `возврат`, the optional value and `;` |
| Soundness.AssignSound | grammar.js:77-82 | an accepted assignment is exactly `name = expression ;` |
| Soundness.ExprStmtSound | grammar.js:115-118 | an accepted expression statement is exactly the expression and `;` |
| Soundness.IfSound | grammar.js:84-90 | an accepted `если` is exactly the condition, the body, the optional `иначе` body and one `конец` |
| Soundness.WhileSound | grammar.js:92-97 | an accepted `пока` is exactly the condition, the body and one `конец` |
| Soundness.FunctionSound | grammar.js:63-69 | an accepted function is exactly `функ name`, the parameter list, the body and `конец` |
| Soundness.ClauseSound | grammar.js:102-103 | an accepted clause is exactly its keyword and name when present, and nothing when absent |
| Soundness.ClassSound | grammar.js:99-106 | an accepted class is exactly `класс name`, the clauses in order, the members and `конец` |
| Soundness.MembersSound | grammar.js:108-113 | the accepted members are exactly the methods' and fields' texts in order |
| Soundness.ProgramSound | grammar.js:31 | an accepted program is exactly the text of its statements |
| Condition.CondClimb | grammar.js:84-97 | the outermost climbing loop of a condition, where no operator waits for a right operand, stops before a `-` whose prefix operand is followed by `;` or a binary operator |
| Condition.ParseIfAsWritten | grammar.js:84-90 | the generated parser's `если`, with the generated reading of its own condition and greedy bodies: consumes input and yields an `если` statement |
| Condition.ParseWhileAsWritten | grammar.js:92-97 | the generated parser's `пока`, with the generated reading of its own condition and a greedy body: consumes input and yields a `пока` statement |
| Condition.ExprAgrees | grammar.js:84-97 | where no `-` stands in the tokens, the generated and the greedy condition readings agree |
| Condition.IfAgrees | grammar.js:84-90 | where no `-` stands in the tokens, the generated and the greedy `если` agree |
| Condition.WhileAgrees | grammar.js:92-97 | where no `-` stands in the tokens, the generated and the greedy `пока` agree |
| Condition.ClimbAgrees | grammar.js:138-144 | where no `-` stands in the tokens, climbing inside a condition agrees with ordinary climbing |
| Condition.MinusOpensBody | grammar.js:84-90 | `если a - b; конец` is `если a` with body `-b;` as generated; the greedy reading rejects it |
| Condition.ComparisonConditionRejected | grammar.js:84-90 | `если n - 1 > 0 f(); конец` is rejected as generated; the greedy reading takes `n - 1 > 0` as the condition |
| Condition.WaitingOperandTakesMinus | grammar.js:84-90 | in `если a < b - c; конец` the `-` stands inside the right operand of `<`, so both readings take `a < b - c` as the condition and reject the body `;` |
| GrammarProperties.ThreeOperands | grammar.js:138-144 | in `a op1 b op2 c`, the tighter operator takes its operands first; of two equal levels, the left one does |
| GrammarProperties.SubtractionGroupsLeft | grammar.js:140 | example of ThreeOperands on tokens: `x - y - z` is `(x - y) - z` |
| GrammarProperties.ProductBindsTighterThanSum | grammar.js:139-140 | example of ThreeOperands on tokens: `1 + 2 * 3` is `1 + (2 * 3)` |
| GrammarProperties.AndBindsTighterThanOr | grammar.js:142-143 | example of ThreeOperands on tokens: `a или b и c` is `a или (b и c)` |
| GrammarProperties.PrefixBindsTighterThanBinary | grammar.js:130-144 | `-a op b` is `(-a) op b` for every binary operator |
| GrammarProperties.PrefixNests | grammar.js:130-136 | prefix operators nest to the right |
| GrammarProperties.PostfixBindsTighterThanPrefix | grammar.js:130-152 | `-a.b` is `-(a.b)` and `-f()` is `-(f())` |
| GrammarProperties.DoubleNegation | grammar.js:133 | example of PrefixNests on tokens: `- - a` is `-(-a)` |
| GrammarProperties.NegatedFactor | grammar.js:133-139 | example of PrefixBindsTighterThanBinary on tokens: `-a * b` is `(-a) * b` |
| GrammarProperties.ParamsTrailingCommaRejected | grammar.js:71-75 | a comma after the last parameter is rejected, the parser asking for a name |
| GrammarProperties.ParamsLeadingCommaRejected | grammar.js:71-75 | a parameter list cannot start with a comma |
| GrammarProperties.ArgsTrailingCommaAccepted | grammar.js:154-159 | arguments are read as the same list with or without one trailing comma, and the tree records which |
| GrammarProperties.ArgsLoneComma | grammar.js:154-159 | `f(,)` is a call with no arguments and a recorded trailing comma; a comma before the first argument is rejected |
| GrammarProperties.ArgsAreSepBy | grammar.js:154-159 | the printed inside of `arguments` is `sepBy(",", expression)` over the arguments' texts |
| GrammarProperties.NamesSeparated | grammar.js:216-218 | a parameter list's `sepBy` text has one comma fewer than names, none first and none last |
| GrammarProperties.SecondElseRejected | grammar.js:84-90 | a second `иначе` is rejected where `конец` is due |
| GrammarProperties.MissingEndRejected | grammar.js:92-97 | a loop without `конец` is rejected at the end of input |
| GrammarProperties.SecondExtendsRejected | grammar.js:99-106 | a second `наследует` is rejected where `конец` is due |
| GrammarProperties.ClausesInOrder | grammar.js:99-106 | `реализует` before `наследует` is rejected |
| GrammarProperties.StatementKinds | grammar.js:38-47 | the first tokens decide the kind of every accepted statement, in both directions: its keyword, `функ` plus a name for a function, a name plus `=` for an assignment, anything else an expression statement |
| GrammarProperties.VarNeedsInitializer | grammar.js:49-55 | an accepted `пер` has a name and `=` after the keyword; `пер x;` is rejected at the `;` |
| GrammarProperties.AssignTargetIsName | grammar.js:77-82 | an assignment's target is its first token; any other expression before `=` is rejected |

## Left out

- Positions, byte ranges and node spans are not modelled. Neither are tree-sitter's error recovery, GLR conflict handling and incremental re-parsing.
- The generated C parser, the language bindings and the highlighting queries are generated or glue code; they are not part of this model.
- XID_Start and XID_Continue cover only the Basic Latin, Latin-1 and Cyrillic blocks. The full Unicode tables are a data dependency.
- `PREC.closure` is 0, which is tree-sitter's default, and a closure ends in `конец`. The level therefore changes no grouping, and the model treats a closure as a primary expression.
- The `prec.left` around `identifier` in `_expression` has no effect on a deterministic reading and is not modelled.
- This revision of the grammar has none of the following, so none is modelled:
  - parentheses;
  - equality operators;
  - index access;
  - array and dict literals;
  - interfaces, annotations, `try`/`throw` and imports;
  - type annotations.

  Its precedence numbers are those of `PREC` (or = 1 … call = 8).
- Parser.ParseIf reads the condition greedily. That is the intended reading, not the generated parser's (see Findings); Condition.ParseIfAsWritten models the generated reading of one statement's own condition.
- Parser.ParseWhile reads the condition greedily, like Parser.ParseIf; Condition.ParseWhileAsWritten models the generated reading of one statement's own condition.
- RoundTrip.IfRoundTrip requires `FitsAfterCondition`: the body must not start with a statement that leads with `-`, which the greedy condition would take as a subtraction. Bodies that start with `-` are covered by the Condition lemmas instead.
- RoundTrip.WhileRoundTrip requires `FitsAfterCondition`, for the same reason as RoundTrip.IfRoundTrip.
- Condition.ParseIfAsWritten: the generated reading covers only the outermost condition. Its bodies, including the `иначе` branch, are read with the greedy Parser.ParseStmts, so a nested `если`/`пока` and every function or closure body inside them take the greedy reading. A parser that is as-written throughout would repeat the whole statement and expression parser (closure bodies sit inside expressions), and the discrepancy already shows at the outermost statement. Its own contract states only progress and the statement kind. Condition.IfAgrees, Condition.MinusOpensBody, Condition.ComparisonConditionRejected and Condition.WaitingOperandTakesMinus relate it to Parser.ParseIf.
- Condition.ParseWhileAsWritten: like Condition.ParseIfAsWritten, the generated reading covers only the outermost condition, and the body is read with the greedy Parser.ParseStmts. Its own contract states only progress and the statement kind; Condition.WhileAgrees relates it to Parser.ParseWhile.
- Condition.IfAgrees and Condition.WhileAgrees assume no `-` anywhere in the remaining tokens, which is stronger than needed; the readings part only at a `-` whose prefix reading wins (Condition.CondClimb).
- Lexer.ClassifyWord gives reserved words priority everywhere. The generated lexer considers only the tokens valid in the current parse state, and the grammar declares no `word` token. So a reserved word where only a name can stand (`пер и = 1;`, `a.конец`) would probably be read as a name; the model rejects it.
- Lexer.ScanString reads a string as one token, the intended reading. The as-written rule allows extras inside the quotes; StringExtras models that rule (see Findings).
- Lexer.Lex: its own contract states only that the tokens are valid. LexerProperties.LexSound states that the text is those tokens with only whitespace and comments between them. LexerProperties.LexUnlexThen, IllegalCharacterRejected and UnterminatedStringRejected state the outcomes.
- Parser.ParseParams: its own contract states only progress. Soundness.ParamsSound and RoundTrip.ParamsRoundTrip state the list shape in both directions.
- Parser.ParamsTail: its own contract states only progress. Soundness.ParamsTailSound and RoundTrip.ParamsTailRoundTrip state that a `,` separates every two names.
- Parser.ParseArgs: its own contract states only canonicity. Soundness.ArgsSound and RoundTrip.ArgsRoundTrip state the list shape in both directions.
- Parser.ArgsTail: its own contract states only canonicity. Soundness.ArgsTailSound and RoundTrip.ArgsTailRoundTrip state that a `,` separates every two arguments.
- Parser.ParseStmts: its own contract states canonicity and where a body stops. Soundness.StmtsSound ties the tokens to the statements.
- Parser.ParseProgram: its own contract states canonicity. Soundness.ProgramSound and Ponos.ProgramExactly tie the tokens to the program.
- Parser.ParseStmt: its own contract states canonicity and progress. Soundness.StmtSound and GrammarProperties.StatementKinds state the whole text and the kind.
- Parser.ParseVar: its own contract states the kind and the first tokens, not the initializer or `;`. Soundness.VarSound states the whole text.
- Parser.ParseReturn: its own contract states the kind, not the `;`. Soundness.ReturnSound states the whole text.
- Parser.ParseAssign: its own contract states the first two tokens, not the value or `;`. Soundness.AssignSound states the whole text.
- Parser.ParseExprStmt: its own contract states the kind, not the `;`. Soundness.ExprStmtSound states the whole text.
- Parser.ParseIf: its own contract states the kind and canonicity. Soundness.IfSound states the whole text, the one closing `конец` included.
- Parser.ParseWhile: its own contract states the kind and canonicity. Soundness.WhileSound states the whole text, the closing `конец` included.
- Parser.ParseFunction: its own contract states a canonical body. Soundness.FunctionSound states the whole text: the name, the parameter list, the body and `конец`.
- Parser.ParseClass: its own contract states the kind. Soundness.ClassSound states the whole text: the clauses in order, the members and `конец`.
- Parser.ParseClause: its own contract states only the absent case. Soundness.ClauseSound states the present case.
- Parser.ParseMembers: its own contract states only that the list is maximal. Soundness.MembersSound states which members were read.
- Parser.ParseExpr: its own contract bounds the level and canonicity of the result. Grouping is stated by RoundTrip.ExprRoundTrip, the GrammarProperties operator lemmas and Soundness.ExprSound.
- Parser.Climb: its own contract states canonicity and the stopping level. RoundTrip.ClimbRoundTrip and Soundness.ClimbSound state the left-nested result.
- Parser.ParseUnary: its own contract bounds the level. RoundTrip.UnaryRoundTrip and Soundness.UnarySound state the nesting.
- Parser.ParsePostfix: its own contract bounds the level. RoundTrip.PostfixRoundTrip and Soundness.PostfixSound state the chain.
- Parser.PostfixLoop: its own contract states where it stops. RoundTrip.PostfixLoopRoundTrip and Soundness.PostfixLoopSound state the chain.
- Parser.ParsePrimary: its own contract bounds the level. RoundTrip.PrimaryRoundTrip and Soundness.PrimarySound state the content.
- Precedence.BinaryPrec and Precedence.Level: their contracts bound the levels rather than list them; the exact numbers are the constants of `PREC`.
- RoundTrip lemmas cover canonical trees only. By Ponos.ProgramExactly these are exactly the trees the parser accepts.

## Findings

| source | as written | input that shows it | evidently intended | confidence | as-written member | corrected member |
|---|---|---|---|---|---|---|
| grammar.js:84-97 | the `если`/`пока` condition is followed directly by statements. When the condition read so far is complete (no comparison, `и` or `или` waits for its right operand), a following `-` may be binary, or a prefix `-` starting the body. When the operand after it is followed by `;` or a binary operator, `unary_expression` (6) beats `additive` (4), so the condition ends before the `-` | `если n - 1 > 0 f(); конец` is rejected; `если a - b; конец` has condition `a` and body `-b;` | the condition is the longest expression, `n - 1 > 0` | medium, not executed | Condition.ParseIfAsWritten, for the outermost condition only (Condition.ComparisonConditionRejected, Condition.MinusOpensBody) | Parser.ParseIf (RoundTrip.IfRoundTrip, Soundness.IfSound) |
| grammar.js:183-190 | `string` is a `seq` of pieces, not a `token(...)`, so the extras may stand between them. A raw newline is skipped as whitespace, and `//` starts a comment that runs over the closing quote | `"//b"` finds no closing quote; `"` newline `b"` is a string | a string is one token on one line, as the pieces' comment says ("any character except a quote, a backslash and a newline") | medium, not executed | StringExtras.ScanStringAsWritten (StringExtras.CommentSwallowsClosingQuote, StringExtras.RawNewlineAccepted) | Lexer.ScanString (LexerProperties.StringBodyMayHoldCommentMarker) |
