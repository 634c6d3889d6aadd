# Monkey interpreter in C — a Dafny model

This project models the core of a tree-walking interpreter for the Monkey language, written in
C, together with the small utilities it is built on. The pipeline runs as follows:

- **Lexer** (`lexer.c`, with the keyword table of `token.c`). Turns a NUL-terminated string into
  tokens.
- **Pratt parser** (`parser.c`). Turns a token stream into a syntax tree. It collects its errors
  as strings.
- **Printers** (`ast.c`). Turn a tree back into fully parenthesised text.
- **Evaluator** (`evaluator.c`). Runs a tree over scoped environments (`environment.c`) and a
  small object model (`object.c`).
- **Utilities.** The string helpers of `string.c`, the text-backed branches of `stream.c`, and
  the growable-array macros of `buffer.h` and `vector.h`.

Each source file is a module. The lexer, parser, printers and evaluator are pure functions with
termination measures:

- the lexer's measure is the input position;
- the parser's is the token position, then a rank per parse function;
- the evaluator's is an explicit fuel count, then the size of the tree.

Tokens, trees, objects and environments are immutable datatypes. A C pointer that may be NULL is
an `Option`. An environment is a map from names to (possibly NULL) objects plus an optional outer
environment. Lemma modules state the properties:

- `AstProperties`: printed text.
- `ParserProperties`: operator precedence and expression round trips.
- `ParserPrograms`: whole programs and the let-statement error paths.
- `EvaluatorProperties`: evaluator laws.
- `EvaluatorExamples`: the evaluator test tables, as lemmas.
- `Ownership`: who owns a scope's entries, and what destroying a copied scope frees (see
  "Findings").

The evaluator's outcome is one of three kinds:

- `Done(value, env)`: evaluation finished.
- `Undefined`: the C program would hit undefined behaviour. This covers:
  - dereferencing a NULL child or object;
  - `int64_t` overflow;
  - division by zero;
  - a call with fewer arguments than parameters.
- `OutOfFuel`: the fuel ran out. Monkey programs can diverge, for example `fn(g){ g(g) }`
  applied to itself.

Two repository inconsistencies shape the model.

- **Token types.** `token.h` lists fourteen token types. `token.c` and `parser.c` use thirteen
  more (`-`, `!`, `*`, `/`, `<`, `>`, `==`, `!=` and the keywords IF, ELSE, TRUE, FALSE, RETURN).
  - The model declares all of them.
  - The display texts of the thirteen extra types are the model's choice: the operator itself,
    or the keyword in capitals.
- **The lexer.** It recognises only `= ; ( ) , + { }`, letters and digits, and it is modelled
  exactly so.
  - Every other character, `-` and `!` included, is a one-character ILLEGAL token.
  - The parser is therefore driven by a token stream that ends in EOF, not by the lexer.
  - The parser's properties are stated over token streams.

## Model

| member | source | states |
|---|---|---|
| LibC.StrLen | source/monkey/lexer.c:66-76 | strlen: the length is the index of the first NUL, or the whole string when it has none |
| LibC.CString | source/monkey/lexer.c:66-76 | a C string is the prefix before the first NUL; it holds no NUL and is unchanged when there is none |
| LibC.TruncDiv | source/monkey/evaluator.c:212-214 | C99 `/`: the remainder is smaller than the divisor in magnitude and has the sign of the dividend (or is zero) |
| LibC.NatToDecimal | source/monkey/object.c:132-134 | the decimal digits of n: all digits, no leading zero, and their value is n |
| LibC.FormatInt64 | source/monkey/object.c:132-134 | `%PRId64` text starts with '-' exactly when the value is negative |
| LibC.Saturate | source/monkey/parser.c:128-140 | strtoll's out-of-range result: the value itself in range, INT64_MAX above, INT64_MIN below |
| LibC.StrToLL | source/monkey/parser.c:128-140 | strtoll reads a value within int64 and stops inside the string |
| LibC.StrToLLInvertsFormat | source/monkey/parser.c:128-140 | strtoll reads back exactly what `%PRId64` printed, consuming the whole text |
| Strings.Strdup | source/monkey/string.c:11-17 | the copy is the string up to its first NUL, so a NUL-free string is copied exactly |
| Strings.Strndup | source/monkey/string.c:19-24 | the copy is exactly the first n characters |
| Strings.ConcatLength | source/monkey/string.c:58-70 | the joined length is the sum of the lengths |
| Strings.ConcatAppend | source/monkey/string.c:57-73 | joining is a homomorphism: join(a + b) is join(a) followed by join(b) |
| Strings.MeasureLengths | source/monkey/string.c:58-63 | the first loop records each string's `strlen` and their total, which is the length of the C strings joined |
| Strings.StringJoin | source/monkey/string.c:57-73 | the result is the C strings (each cut at its first NUL) concatenated in order, of their total length, and exactly the strings concatenated when none holds a NUL |
| Strings.JoinWithLength | source/monkey/object.c:214-232 | joining with a separator adds one separator between each pair of strings |
| Buffers.Init | source/buffer.h:16-17 | BUFFER_INIT is empty with capacity 0, which satisfies the growth invariant of the pushes |
| Buffers.Expand | source/buffer.h:21-28 | growth happens only when full, to 2*capacity + 1, and never changes the elements |
| Buffers.Push | source/buffer.h:30-34 | the value lands at the old length, the length grows by one, earlier elements stay, length ≤ capacity is kept |
| Buffers.AsSpan | source/buffer.h:36 | the span has the buffer's length and its first `length` elements |
| Buffers.PushAllAppends | source/buffer.h:30-34 | pushing a sequence appends exactly that sequence |
| Buffers.PushKeepsGrown | source/buffer.h:21-34 | a buffer grown only by pushes keeps a capacity of the form 2^k - 1 below twice its length |
| Buffers.PushAllFromInit | source/buffer.h:16-34 | pushes from BUFFER_INIT hold exactly the pushed values, with such a capacity |
| Buffers.PushAllKeepsGrown | source/buffer.h:21-34 | any number of pushes keeps that capacity invariant |
| Buffers.PushEach | source/buffer.h:30-34 | a loop of BUFFER_PUSH appends the values and agrees with the functional definition |
| Vectors.Init | source/monkey/vector.h:10-11 | VECTOR_INIT is empty with capacity 0, which satisfies the growth invariant of the pushes |
| Vectors.Grow | source/monkey/vector.h:15-18 | a full vector grows from 0 to 1, otherwise doubles |
| Vectors.Push | source/monkey/vector.h:13-20 | the value lands at index size, size grows by one, earlier elements stay; capacity changes only when full |
| Vectors.Free | source/monkey/vector.h:22-28 | VECTOR_FREE leaves the empty vector of VECTOR_INIT |
| Vectors.PushAllAppends | source/monkey/vector.h:13-20 | pushing a sequence appends exactly that sequence |
| Vectors.PushKeepsGrown | source/monkey/vector.h:13-20 | a vector grown only by pushes keeps a power-of-two capacity below twice its size |
| Vectors.PushAllKeepsGrown | source/monkey/vector.h:13-20 | any number of pushes keeps that invariant |
| Vectors.PushAllFromInit | source/monkey/vector.h:10-20 | pushes from VECTOR_INIT hold exactly the pushed values, with such a capacity |
| Vectors.PushEach | source/monkey/vector.h:13-20 | a loop of VECTOR_PUSH appends the values and agrees with the functional definition |
| Streams.FromText | source/monkey/stream.c:15-21 | a text stream starts at position 0 over the text |
| Streams.Read | source/monkey/stream.c:27-38 | -1 exactly at the end, with nothing changed; otherwise min(buffer size, remaining) bytes, the very bytes at the position, and the position advances past them |
| Streams.ReadChunksIsRest | source/monkey/stream.c:27-38 | reading to the end chunk by chunk yields exactly the rest of the text |
| Streams.LineEnd | source/monkey/stream.c:48-75 | the end of a line is the first '\n' from the position, or the end of the text |
| Streams.ReadLine | source/monkey/stream.c:42-76 | -1 exactly when nothing is left; otherwise the bytes up to the newline, NUL-terminated, the newline consumed but not stored, and a buffer of 256 bytes or at most twice the line |
| Streams.LineEndFirst | source/monkey/stream.c:48-75 | the first newline is unique: any index with no newline before it and a newline (or end) at it is the line end |
| Streams.Write | source/monkey/stream.c:78-89 | -1 exactly when nothing can be copied; otherwise min(n, remaining) bytes replace the text at the position, the rest of the text is untouched |
| Streams.Rewind | source/monkey/stream.c:108-114 | rewinding returns to position 0 over the same text |
| Streams.RewindRereads | test/source/stream_test.cpp:58-66 | after a rewind a read gives the whole text again |
| Streams.WriteRewindRead | source/monkey/stream.c:78-114 | what was written is what a rewind and a read give back |
| Tokens.TokenTypeTextInjective | source/monkey/token.c:56-67 | distinct token types have distinct display texts |
| Tokens.KeywordTextsDistinct | source/monkey/token.c:25-39 | the seven keyword strings are pairwise distinct |
| Tokens.TableMapOfDistinct | source/monkey/token.c:20-40 | inserting distinct keys builds a map holding each pair and nothing else |
| Tokens.FillKeywords | source/monkey/token.c:20-40 | fillKeywords builds the table mapping each keyword string to its token type |
| Tokens.KeywordTableKinds | source/monkey/token.c:25-33 | the table only yields keyword token types |
| Tokens.LookupIdent | source/monkey/token.c:81-88 | a lookup gives IDENT or a keyword type |
| Tokens.LookupIdentKeywords | source/monkey/token.c:81-88 | a word is a keyword exactly when it is one of the seven table strings, and then it gets that string's type |
| Tokens.LookupIdentExamples | source/monkey/token.c:25-33 | "fn", "let", "if", "else", "return", "true" and "false" map to their keyword types |
| Tokens.LookupIdentNonKeywords | source/monkey/token.c:84-86 | other words, even "Let" or "", are IDENT |
| Tokens.CopyToken | source/monkey/token.c:69-75 | a copy keeps the type, and equals the original when its literal has no NUL |
| Lexing.ReadChar | source/monkey/lexer.c:10-18 | readChar advances by exactly one character over the same input |
| Lexing.CreateLexer | source/monkey/lexer.c:66-76 | a new lexer starts at position 0 over the C string of its input |
| Lexing.ReadWhile | source/monkey/lexer.c:42-62 | the identifier, number and whitespace loops stop at the first character outside the class, having passed only characters inside it |
| Lexing.SkipWhitespace | source/monkey/lexer.c:58-62 | skipWhitespace passes only spaces, tabs, newlines and carriage returns and stops at something else |
| Lexing.NextToken | source/monkey/lexer.c:78-129 | after whitespace: EOF with "" at the end; one of `= ; ( ) , + { }` as a one-character token; a maximal letter run looked up as a keyword; a maximal digit run as INT; anything else one-character ILLEGAL; every call consumes at least one character |
| Lexing.Tokenize | source/monkey/lexer.c:78-129 | lexing to EOF yields exactly one EOF token, at the end |
| Lexing.StripWhitespaceAppend | source/monkey/lexer.c:58-62 | removing whitespace distributes over concatenation |
| Lexing.EndOfFileLiteral | source/monkey/lexer.c:108-111 | EOF is produced only when nothing but whitespace remains |
| Lexing.TokenLiteral | source/monkey/lexer.c:78-129 | a token's literal is the input it consumed, without whitespace |
| Lexing.TokenizeLiterals | source/monkey/lexer.c:78-129 | the literals of all tokens, concatenated, are the input with its whitespace removed |
| Lexing.EndOfFileForever | source/monkey/lexer.c:10-18 | once at EOF, the lexer keeps returning EOF with an empty literal |
| Lexing.LexIllegal | test/source/lexer_test.cpp:11-21 | "@" lexes to one ILLEGAL token "@" followed by EOF |
| Ast.StatementStrings | source/monkey/ast.c:171-182 | one printed string per statement, in order |
| Ast.ProgramTokenLiteral | source/monkey/ast.c:163-169 | "" for an empty program, otherwise the first statement's token literal |
| AstProperties.ProgramStringAppend | source/monkey/ast.c:171-182 | a program prints as its statements printed one after another, with no separator |
| AstProperties.ProgramStringSingle | source/monkey/ast.c:171-182 | a one-statement program prints as that statement |
| AstProperties.LetProgramString | test/source/ast_test.cpp:17-33 | the let statement of the printer test prints as "let myVar = anotherVar;" |
| AstProperties.PrefixLiterals | source/monkey/ast.c:269-281 | the token form of a prefix expression is "(", the operator, the operand, ")" |
| AstProperties.InfixLiterals | source/monkey/ast.c:304-319 | the token form of an infix expression is "(", left, operator, right, ")" |
| AstProperties.PrintedLiterals | source/monkey/ast.c:132-155 | the printed text of an operator expression and its token form agree once whitespace is removed |
| Parsing.InfixPrecedence | source/monkey/parser.c:33-52 | binary operators sit strictly between LOWEST and PREFIX, "(" is CALL, everything else LOWEST |
| Parsing.CreateParser | source/monkey/parser.c:111-119 | a new parser sits on the first token with no errors |
| Parsing.Next | source/monkey/parser.c:68-72 | advancing makes the peek token current |
| Parsing.ExpectPeek | source/monkey/parser.c:101-109 | advances exactly when the peek token has the expected type; otherwise records "expected next token to be X, got Y instead" and stays |
| Parsing.ParseIdentifier | source/monkey/parser.c:123-126 | an identifier node named by the current token, without advancing |
| Parsing.ParseIntegerLiteral | source/monkey/parser.c:128-140 | a literal within int64, or no node exactly when the "could not parse" error is recorded |
| Parsing.ParseBoolean | source/monkey/parser.c:142-146 | a boolean node that is true exactly for TRUE |
| Parsing.ParsePrefixExpression | source/monkey/parser.c:148-157 | always a prefix node, even with a missing operand |
| Parsing.ParseGroupedExpression | source/monkey/parser.c:159-170 | without new errors, a node |
| Parsing.ParseIfExpression | source/monkey/parser.c:174-207 | an if node, or no node only with a new error |
| Parsing.ParseFunctionParameters | source/monkey/parser.c:209-241 | a parameter list exactly when no error was recorded, ending on ")" |
| Parsing.ParseFunctionLiteral | source/monkey/parser.c:243-268 | a function node, or no node only with a new error |
| Parsing.ParseInfixExpression | source/monkey/parser.c:270-279 | an infix node over the given left operand |
| Parsing.ParseCallArguments | source/monkey/parser.c:281-309 | without new errors, a list of present arguments; no list only with an error |
| Parsing.ParseCallExpression | source/monkey/parser.c:311-321 | a call node over the given callee, or no node only with a new error |
| Parsing.ParseExpression | source/monkey/parser.c:323-344 | with no prefix parser, no node and "no prefix parse function for X found"; the loop stops only at ";" or at an operator that binds no tighter than the precedence |
| Parsing.SkipSemicolon | source/monkey/parser.c:384-386 | a following ";" is consumed, otherwise nothing moves |
| Parsing.ParseLetStatement | source/monkey/parser.c:365-389 | no statement exactly when the name or "=" is missing, with the matching expectPeek error and position; otherwise a let of that name |
| Parsing.ParseLetValue | source/monkey/parser.c:380-389 | after "=", a let statement carrying the keyword and name, its value present without new errors |
| Parsing.ParseReturnStatement | source/monkey/parser.c:391-402 | always a return statement; its value is present when no error was recorded |
| Parsing.ParseExpressionStatement | source/monkey/parser.c:404-414 | always an expression statement; its expression is present when no error was recorded |
| Parsing.ParseStatement | source/monkey/parser.c:416-425 | never a block; no statement only for a failed let, which records an error |
| Parsing.ParseBlockStatement | source/monkey/parser.c:348-363 | stops at "}" or EOF and keeps only built statements |
| Parsing.ProgramLoop | source/monkey/parser.c:427-439 | runs to EOF, keeping earlier statements as a prefix |
| Parsing.ParseProgram | source/monkey/parser.c:427-439 | the program holds only statements the parser built |
| ParserProperties.IdentifierStops | source/monkey/parser.c:323-344 | an identifier followed by an operator that binds no tighter parses alone |
| ParserProperties.LoopStops | source/monkey/parser.c:335-342 | the Pratt loop absorbs nothing when the next operator binds no tighter |
| ParserProperties.AbsorbStep | source/monkey/parser.c:270-279 | a tighter operator is absorbed: its right operand is parsed at its own precedence and the loop continues with the new node |
| ParserProperties.GroupsLeft | test/source/evaluator_test.cpp:75 | `x o1 y o2 z` groups as `(x o1 y) o2 z` when o1 binds at least as tightly |
| ParserProperties.GroupsRight | test/source/evaluator_test.cpp:76 | and as `x o1 (y o2 z)` when o2 binds more tightly |
| ParserProperties.OperatorGrouping | source/monkey/parser.c:323-344 | for any two binary operators: left-associative at equal precedence, tighter binds first, no errors, all five tokens consumed |
| ParserProperties.PrefixRoundTrip | source/monkey/parser.c:148-170 | a parenthesised expression's tokens are read back by the prefix parsers into the same tree |
| ParserProperties.ExpressionRoundTrip | source/monkey/parser.c:323-344 | any well-formed operator expression is parsed back from its fully parenthesised tokens into the same tree, ending on its last token |
| ParserPrograms.ProgramRoundTrip | source/monkey/parser.c:427-439 | a program of let, return and expression statements is parsed back from its tokens into the same statements, in order, with no errors |
| ParserPrograms.StmtRoundTrip | source/monkey/parser.c:416-425 | each statement kind is read back from its tokens, its ";" consumed |
| ParserPrograms.LetNameMissing | source/monkey/parser.c:365-380 | "let" without a name yields no statement and the error for IDENT, staying on "let" |
| ParserPrograms.LetAssignMissing | source/monkey/parser.c:365-380 | a name without "=" yields no statement and the error for "=", staying on the name |
| ParserPrograms.ExpressionMissing | source/monkey/parser.c:323-328 | a token with no prefix parser gives an expression statement without an expression and the "no prefix parse function" error |
| ParserPrograms.LetMissingName | test/source/parser_test.cpp:79-81 | "let = 5;" records the IDENT error, then "no prefix parse function for =", and keeps an empty expression statement for "=" and the statement "5" |
| ParserPrograms.LetMissingAssign | test/source/parser_test.cpp:82-84 | "let x 5;" records the "=" error and keeps the statement "5" |
| ParserPrograms.FiveStatement | source/monkey/parser.c:404-414 | "5;" is an expression statement ending on its ";" |
| Objects.ObjectTypeTextInjective | source/monkey/object.c:18-29 | distinct object types have distinct names |
| Objects.ParameterPiecesJoin | source/monkey/object.c:214-232 | the parameter loop builds the names joined by ", " |
| Objects.InspectFunctionText | source/monkey/object.c:214-232 | a function inspects as "fn(" + parameters joined by ", " + ") {\n" + body + "\n}" |
| Objects.CopyObject | source/monkey/object.c:101-122 | a copy keeps the type, returns interned booleans and null as they are, equals a NUL-free original and inspects alike |
| Objects.CreateFunctionObject | source/monkey/object.c:206-212 | a function object keeps the literal's parameters and body and the given environment |
| Objects.InspectCreatedFunction | source/monkey/object.c:214-232 | a function object inspects as its literal's printed head, then the body in braces |
| Objects.InspectUnwraps | source/monkey/object.c:180-182 | a return value, however deeply wrapped, inspects as the value it wraps |
| Objects.InspectIntegerReadsBack | source/monkey/object.c:132-134 | an integer's inspected text reads back as the integer |
| Objects.InspectScalarInjective | source/monkey/object.c:31-51 | missing objects, integers, booleans, null and errors never share an inspected text unless equal |
| Objects.ScalarLeads | source/monkey/object.c:31-51 | "<NULL>", decimal text, "true"/"false", "null" and "ERROR: " texts each start distinctively |
| Environments.CreateEnvironment | source/monkey/environment.c:19-24 | a new environment has no bindings and the given outer, so every name reads as it does in the outer (or is unbound) |
| Environments.CopyEnvironment | source/monkey/environment.c:36-40 | a copy has the same outer and the same bindings |
| Environments.PutEnvironment | source/monkey/environment.c:53-55 | Put stores the name in the innermost store, changes no other name and keeps the outer |
| Environments.GetIsInnermost | source/monkey/environment.c:42-51 | Get finds a binding exactly when some scope has one, and returns the innermost |
| Environments.CreateLooksOutward | source/monkey/environment.c:19-24 | a fresh scope reads everything from its outer |
| Environments.Shadowing | source/monkey/environment.c:42-55 | after Put, Get returns the new value, shadowing outer bindings |
| Environments.PutOtherName | source/monkey/environment.c:53-55 | Put leaves lookups of other names alone |
| Environments.PutReplaces | source/monkey/environment.c:53-55 | a second Put of a name replaces the first |
| Environments.PutNullLooksOutward | source/monkey/environment.c:42-51 | a name bound to NULL falls through to the outer scopes |
| Environments.PutKeepsOuterScopes | source/monkey/environment.c:53-55 | Put never changes an outer scope |
| Environments.CopyReadsAlike | source/monkey/environment.c:36-40 | a copy reads alike, and a Put on the copy only adds its name to the copy's keys |
| Ownership.Read | source/monkey/environment.c:42-51 | a lookup finds no entry exactly when the name is unbound, reads freed memory exactly when its entry's allocation is gone, and otherwise yields the entry |
| Ownership.Destroy | source/monkey/environment.c:26-29 | destroying a table frees exactly the allocations it holds and leaves every other one as it was |
| Ownership.SharedCopy | source/monkey/environment.c:31-40 | the copy as written holds the original's very allocations, and reads every name alike |
| Ownership.SharedCopyDangles | source/monkey/environment.c:19-40 | as written, destroying a copy leaves every bound name of the original reading freed memory |
| Ownership.LetCallLookup | source/monkey/evaluator.c:139-148 | after `let a = 5;` a called function literal's destroyed closure takes `a` with it: `a` read 5 before and reads freed memory after |
| Ownership.SharedCopyOutlived | source/monkey/environment.c:31-40 | as written, destroying the original frees every entry of its shared copy: each bound name of the copy reads freed memory |
| Ownership.ClosureCallLookup | source/monkey/evaluator.c:139-148 | in `fn(x){ fn(y){ x + y } }(1)(2)` the inner closure's `x` reads 1 while the call runs and freed memory once its scope is destroyed |
| Ownership.DeepCopy | source/monkey/environment.h:24-30 | the corrected copy puts every entry in a new allocation, keeps the old ones, and reads every name as the original does |
| Ownership.DeepCopyKeepsOriginal | source/monkey/environment.h:24-30 | with the corrected copy, destroying the copy changes no lookup of the original |
| Ownership.DeepCopyOutlivesOriginal | source/monkey/environment.h:24-30 | with the corrected copy, destroying the original changes no lookup of the copy, so a closure may outlive its scope |
| Ownership.DeepCopyIsValueCopy | source/monkey/environment.c:36-40 | the corrected copy, and the original after the copy is destroyed, denote exactly the store of the environment model's copy |
| Evaluator.EvalIdentifier | source/monkey/evaluator.c:151-158 | reading a name leaves the environment unchanged |
| Evaluator.ExtendFunctionEnv | source/monkey/evaluator.c:106-114 | a call scope is enclosed by the closure's environment |
| Evaluator.ApplyFunction | source/monkey/evaluator.c:127-149 | a call that finishes hands back the caller's environment unchanged |
| Evaluator.EvalExpr | source/monkey/evaluator.c:278-341 | evaluation never changes which environment encloses the current one |
| Evaluator.Eval | source/monkey/evaluator.c:343-358 | the same for any node |
| EvaluatorProperties.PureAgrees | source/monkey/evaluator.c:201-247 | operator expressions over literals evaluate to their meaning under C's int64 arithmetic with truncating division and boolean comparisons |
| EvaluatorProperties.PureCondition | source/monkey/evaluator.c:160-175 | an if takes its consequence for any integer (zero too) and for true, its alternative or null otherwise |
| EvaluatorProperties.BangNegatesTruthiness | source/monkey/evaluator.c:177-179 | `!x` is the negation of x's truthiness and `!!x` its truthiness |
| EvaluatorProperties.MinusNonInteger | source/monkey/evaluator.c:181-188 | unary minus of a non-integer is "unknown operator: -T" |
| EvaluatorProperties.MixedOperands | source/monkey/evaluator.c:230-247 | for operands not both integers, "==" and "!=" compare identity without error; other operators give "type mismatch" for different types and "unknown operator" for equal ones |
| EvaluatorProperties.ProgramSequence | source/monkey/evaluator.c:38-57 | a program stops at the first return, unwrapping it, or at the first error; otherwise it goes on with the next statement |
| EvaluatorProperties.LoopForgetsResult | source/monkey/evaluator.c:38-57 | a statement's value replaces the previous one |
| EvaluatorProperties.BlockSequence | source/monkey/evaluator.c:59-72 | a block stops at the first return or error and passes the wrapper up unchanged |
| EvaluatorProperties.BlockForgetsResult | source/monkey/evaluator.c:59-72 | the same replacement within a block |
| EvaluatorProperties.LetBinds | source/monkey/evaluator.c:261-270 | let yields null and binds the value in the current scope, where the name then reads it back |
| EvaluatorProperties.UnboundIdentifier | source/monkey/evaluator.c:151-158 | an unbound name gives "identifier not found: name" |
| EvaluatorProperties.BindKeepsOthers | source/monkey/evaluator.c:106-114 | binding parameters leaves every other name as it was |
| EvaluatorProperties.BindPositional | source/monkey/evaluator.c:106-114 | each parameter is bound to the argument at its position (the last of repeated names wins) |
| EvaluatorProperties.ExtendedEnvironment | source/monkey/evaluator.c:106-114 | the call scope encloses the closure's environment and binds the parameters positionally |
| EvaluatorProperties.NotAFunction | source/monkey/evaluator.c:127-136 | calling a non-function with any argument list that evaluates without an error gives "not a function: T", in the environment the arguments left |
| EvaluatorProperties.IdentityCall | source/monkey/evaluator.c:319-337 | calling `fn(x) { x }` gives back its argument's value |
| EvaluatorProperties.CallStep | source/monkey/evaluator.c:319-337 | a call of a function literal applies a closure over the current environment to the evaluated argument |
| EvaluatorExamples.IntegerExample | test/source/evaluator_test.cpp:82 | `(5 + 10 * 2 + 15 / 3) * 2 + -10` is 50 |
| EvaluatorExamples.BooleanExample | test/source/evaluator_test.cpp:110-113 | `(1 < 2) == true` is true and `(1 > 2) == true` is false |
| EvaluatorExamples.BangExample | test/source/evaluator_test.cpp:128-131 | `!5` is false and `!!5` is true |
| EvaluatorExamples.IfExample | test/source/evaluator_test.cpp:146-148 | `if (1) { 10 }` is 10 and `if (1 > 2) { 10 }` is null |
| EvaluatorExamples.ReturnExample | test/source/evaluator_test.cpp:166 | `9; return 2 * 5; 9;` is 10 |
| EvaluatorExamples.NestedReturnExample | test/source/evaluator_test.cpp:167-176 | a return inside nested ifs escapes both blocks |
| EvaluatorExamples.TypeMismatchExample | test/source/evaluator_test.cpp:190 | `5 + true; 5;` is the error "type mismatch: INTEGER + BOOLEAN" |
| EvaluatorExamples.MinusBooleanExample | test/source/evaluator_test.cpp:191 | `-true` is the error "unknown operator: -BOOLEAN" |
| EvaluatorExamples.BooleanPlusExample | test/source/evaluator_test.cpp:192 | `true + false` is the error "unknown operator: BOOLEAN + BOOLEAN" |
| EvaluatorExamples.UnboundExample | test/source/evaluator_test.cpp:205 | `foobar` is the error "identifier not found: foobar" |
| EvaluatorExamples.LetExample | test/source/evaluator_test.cpp:224 | `let a = 5; let b = a; let c = a + b + 5; c;` is 15 |

## Left out

- Memory management is not modelled outside module Ownership. This covers every `Destroy*`, `free`,
  `calloc` and `realloc`, the `freeable` flag, `astOwnership`, and interning by address. Objects
  and environments are values. The C evaluator allocates integers, errors, return values and
  functions, and shares table entries between a scope and its copies, so the two readings part
  where C frees something still in use. The known cases are in "Findings".
  - The destroy slip at `evaluator.c:92-93` (it frees `rawResult[i]` where `rawResult[j]` is
    meant) is a memory error only, so it is not modelled either.
- Evaluator.ApplyFunction: the model promises that a finished call hands back the caller's
  environment unchanged. That holds for the corrected, value-copying `CopyEnvironment` only.
  - As written, destroying the function object after the call (`evaluator.c:144`, through
    `object.c:242`) frees the entries of the scope the closure was copied from.
  - As written, destroying the call's own scope (`evaluator.c:146`) frees the entries of every
    closure made during the call (`evaluator.c:321`), so a returned closure such as the inner
    function of `fn(x){ fn(y){ x + y } }(1)(2)` reads freed memory when it looks up `x`.
  - A later lookup of those names is undefined behaviour in C. The model does not report it
    as `Undefined`; see "Findings".
- Evaluator.EvalProgram: a function value that a statement yields and the next statement
  discards is destroyed in C as well (`evaluator.c:42`), with the same effect on the scope it
  closes over. The model keeps the scope intact.
- Objects.CreateFunctionObject: the C function moves the parameters and body out of the literal,
  so evaluating the same literal twice yields a second function with no parameters and a NULL
  body. The model's syntax tree is immutable, so every evaluation captures the full literal.
- Environments.PutEnvironment: the boolean result is not modelled. Its documentation in
  `environment.h` disagrees with the hash table's insert semantics.
- Evaluator.EvalExpr: evaluation takes a fuel argument and reports `OutOfFuel` when it runs out.
  Programs that do not terminate in C have no other model.
- Evaluator.ExtendFunctionEnv: a call with fewer arguments than parameters reads past the
  argument list in C. It is modelled as `Undefined` and required away where a contract needs it.
- Evaluator.EvalExpr: `int64_t` overflow and division by zero are undefined behaviour in C. They
  are modelled as `Undefined`, not as wrap-around.
- LibC.StrToLL: out-of-range literals saturate, as strtoll does. `errno` is not modelled, and
  neither is the parser, which ignores it.
- The printers (`ExprString` and the rest) require their expression children to be present:
  the C printers dereference them without a check.
- ParserProperties.ExpressionRoundTrip: the round trip covers identifiers, integer and boolean
  literals, and prefix and infix expressions. If expressions, function literals and calls are
  left out of the round trip; their parse functions are still modelled and carry contracts.
- ParserProperties.ExpressionRoundTrip: the printed form is not fed back through the lexer. The
  lexer does not know the operator characters, so the round trip is stated over token streams.
- Parsing.ParseExpression: the loop's `break` for a token with no infix parser is unreachable,
  because every token that passes the precedence test has an infix parser.
- Parsing.ParseProgram: the parser's position is clamped at the end of the token stream. Every
  position past the end reads EOF, as the lexer keeps returning EOF.
- `%s` arguments of the error messages are assumed to contain no NUL.
- Lexing.NextToken: a model character stands for one byte of the C input. Text with characters
  at or above 256 (a multi-byte UTF-8 sequence) lexes one ILLEGAL token per byte in C, but one
  per character here.
- AstProperties.ProgramStringAppend: the printers join their pieces with plain concatenation.
  This equals `MonkeyStringJoin` when no piece holds a NUL (Strings.StringJoin), which holds
  whenever identifiers and literals hold none.
- The interactive loop (`repl.c`), the program entry point (`main.c`), the user-name lookup
  (`user.c`) and the build script (`tools/run.py`) are I/O and are not modelled.
- The file-backed branches of `stream.c` are not modelled (`fread`, `fwrite`, `fgetc`, `fseek`,
  `fclose`). Neither are `StreamPrintf` and `MonkeyAsprintf`/`MonkeyAvsprintf`, which are stdio
  and printf formatting.
- GLib hash tables are modelled as Dafny maps.
- `TokenTypeText` on out-of-range enum values is not modelled: a datatype has no such values.

## Findings

| source | as written | input that shows it | evidently intended | confidence | as-written member | corrected member |
|---|---|---|---|---|---|---|
| source/monkey/environment.c:31-40 | `CopyEnvironment` inserts the original's key and value pointers into a table that frees keys and destroys values (`environment.c:22`). Destroying the copy, as `DestroyFunctionObject` does after every call (`object.c:242`, `evaluator.c:144`), frees entries the original still holds. Destroying the original, as `applyFunction` does to the call's scope (`evaluator.c:146`), frees entries of every closure copied from it during the call (`evaluator.c:321`). | `let a = 5; fn(x){x}(1); a` (the copy destroyed); `fn(x){ fn(y){ x + y } }(1)(2)` (the original destroyed) | a copy "including its data" (`environment.h:25`): new allocations for every entry, so destroying either table leaves the other intact | high; not executed | Ownership.SharedCopyDangles, Ownership.LetCallLookup, Ownership.SharedCopyOutlived, Ownership.ClosureCallLookup | Ownership.DeepCopy, Ownership.DeepCopyKeepsOriginal, Ownership.DeepCopyOutlivesOriginal, Ownership.DeepCopyIsValueCopy |
