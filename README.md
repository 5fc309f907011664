# Boaz tokenizer and parser, modelled in Dafny

Boaz is a small teaching language: a program is `program NAME`, declarations
`int a, b;` / `char c;`, then `begin`, statements (`x := e;`, `if e then ... fi;`,
`while e do ... od;`, `print e;`, with an optional `else` that only continues the
list), and a closing `end`. The front end has two parts:

- `tokenizer.py` turns the source text into `(kind, lexeme)` tokens. The kinds are
  KEYWORD, IDENTIFIER, INT_CONST, CHAR_CONST and SYMBOL. It works in one
  left-to-right pass:
  - whitespace is skipped;
  - a run that starts with a letter or `_` becomes a keyword or an identifier;
  - a run that starts with a digit becomes a number;
  - `"x"` becomes a character constant;
  - anything else is a one- or two-character symbol, the two-character one tried first.
  Runs stop at whitespace, at a one-character literal and at `:`. It raises
  `TokenizeException` on text it cannot place. The parser reads the tokens through a
  forward-only cursor.
- `myparser.py` is a predictive recursive-descent parser. It enters declared names
  in a flat symbol table. It infers an expression's type from the expression's text
  alone:
  - identifiers are replaced by their type names;
  - any relational or boolean operator, or `!`, makes the expression "bool";
  - otherwise a quote or the word `char` makes it "char";
  - anything else is "int".
  It raises `ParserException` on grammar errors and `ParserSemanticException` on
  undeclared names and type mismatches.

The Dafny project has these modules:

| module | file | what it holds |
|---|---|---|
| `Constants` | constants.dfy | the operator tables |
| `CharClass` | charclass.dfy | the ASCII part of `isspace` / `isalpha` / `isdigit` / `isalnum` and of `in` on strings |
| `Lexer` | lexer.dfy | the scan, stated as functions on the unread text (`StepAt`, `Lex`), and the class `Tokenizer` (text, token list, cursor), whose methods are proved against those functions |
| `LexerProofs` | lexer_proofs.dfy | the shape of every token; each branch of the scan; that the scan keeps all non-blank text in order; that it reads back any well-formed token list written out with blanks |
| `LexerExamples` | lexer_examples.dfy | concrete inputs |
| `Parsing` | parsing.dfy | one specification function per `parse_*` rule over (tokens, position, table), and the class `Parser`, whose methods share the tokenizer's cursor, own the table and are proved against those functions |
| `ParsingProofs` | parsing_proofs.dfy | identifier and type rules; where each rule stops; what declarations put in the table; the error cases; that each rule reads only the tokens it consumes |
| `ParserExamples` | parser_examples.dfy | cases of tests/test_parser.py |

### A symbol or quote at the end of the text

Two branches of the scan in tokenizer.py look ahead without checking the length of
the text:

- The symbol branch reads `CODE[i+1]` (tokenizer.py:83) before it tries the
  one-character literal. So a symbol in the last position raises `IndexError`.
- The character-constant branch reads `CODE[i+2]` (tokenizer.py:73). So a quote in
  either of the last two positions raises `IndexError`.

The model follows the code: such an input ends in `LexError.OutOfRange`.

- `num:=4+4;` with the `;` as the very last character gives the first five tokens
  and then that error: `LexerProofs.FinalSymbolNeedsLookahead` and
  `LexerExamples.AssignmentAtEnd`.
- With a line break after the `;` (as files normally end), all six tokens come
  out, ending with SYMBOL `;`: `LexerExamples.AssignmentLine`.
- main.py:26-31 catches only `TokenizeException`, and main.py:39-43 only the two
  parser exceptions. So a `.boaz` file whose last character is a symbol stops
  main.py with an uncaught `IndexError` instead of printing `error` or `ok`.

## Model

| member | source | states |
|---|---|---|
| Lexer.RunLength | tokenizer.py:27-39 | the run `gather_chars` collects is non-empty, holds no stop character after its first, and ends at a stop character or at the end of the text |
| Lexer.StepAt | tokenizer.py:46-94 | one pass of the scan loop skips exactly when the character is whitespace; a token it emits has as lexeme exactly the text read, and has its kind's shape |
| Lexer.WordStep | tokenizer.py:55-61 | a letter or `_` always yields a token whose length is that of the run |
| Lexer.NumberStep | tokenizer.py:64-69 | a digit yields a token or an error, never a skip |
| Lexer.CharStep | tokenizer.py:72-78 | a quote yields a token or an error, never a skip |
| Lexer.SymbolStep | tokenizer.py:81-93 | any other character yields a token or an error, never a skip |
| Lexer.Tokenizer.constructor | tokenizer.py:4-7 | a fresh tokenizer has the given text, no tokens and the cursor at 0 |
| Lexer.Tokenizer.GatherChars | tokenizer.py:27-39 | returns the run starting at `i` and the index of its last character, so that the caller's `i += 1` lands on the stop character |
| Lexer.Tokenizer.Tokenize | tokenizer.py:41-94 | appends to the token list exactly the tokens of the scan of the whole text, up to the first error, and returns that error |
| Lexer.Tokenizer.ScanAt | tokenizer.py:46-94 | one loop pass appends the token the step at `i` emits (if any), returns the index where the next pass starts, and reports the step's error |
| Lexer.Tokenizer.NextToken | tokenizer.py:96-100 | returns the token under the cursor and moves the cursor one place on; past the end it returns nothing (the `IndexError`) and leaves the cursor |
| Lexer.RunLengthIs | tokenizer.py:31-37 | the run length is exactly the index of the first stop character after the first position, or the length of the text |
| Lexer.IsLiteral | tokenizer.py:19-21 | every literal is one or two characters and starts with a character that is not whitespace, a letter, a digit, `_` or a quote |
| Lexer.IsKeyword | tokenizer.py:23-25 | every keyword is a non-empty string of letters |
| Lexer.IsStop | tokenizer.py:32 | a character that stops a run is never a letter, a digit, `_` or a quote, so words, numbers and char constants are never cut short by one |
| Lexer.Lex | tokenizer.py:41-94 | the scan emits at most one token per character of the text |
| LexerProofs.LexWellFormed | tokenizer.py:41-94 | every token the scan produces is well formed: a keyword is one of `KEYWORDS`, an identifier is not, a number is all digits, a char constant is quote-character-quote, and a symbol is one of `LITERALS` |
| LexerProofs.BlankLexesToNothing | tokenizer.py:50-52 | empty or all-whitespace text gives no tokens and no error |
| LexerProofs.WordRunsToStop | tokenizer.py:55-61 | a word runs to the first stop character, which is left for the next pass, and it is a keyword exactly when it is in `KEYWORDS` |
| LexerProofs.NumberRunsToStop | tokenizer.py:64-69 | a number runs like a word; it is an INT_CONST when all digits, and otherwise the run is the error text |
| LexerProofs.CharConstantShape | tokenizer.py:72-78 | the first three characters after a quote become a CHAR_CONST exactly when they have the shape of one (quote, a non-quote, quote), and are the error otherwise; fewer than three remaining characters fail the look-ahead |
| LexerProofs.SymbolPrefersTwoCharacters | tokenizer.py:81-93 | a symbol is emitted exactly when some prefix of the text is a literal, and it is the longest such prefix; otherwise the first character is the error; the last character of the text fails the look-ahead |
| LexerProofs.LongestLiteral | tokenizer.py:9-11 | literals have at most two characters, so a literal prefix not followed by a two-character literal is the longest one |
| LexerProofs.FinalSymbolNeedsLookahead | tokenizer.py:83 | `;` at the very end of the text fails with the out-of-range error, while `;` followed by a line break gives one SYMBOL token |
| LexerProofs.LexKeepsText | tokenizer.py:41-94 | with whitespace dropped, the emitted lexemes are a prefix of the input, and all of it when the scan ends without an error |
| LexerProofs.LexUnlex | tokenizer.py:41-94 | any list of well-formed tokens, written out with one blank after each lexeme, is scanned back into the same list with no error |
| LexerProofs.StepOnLexeme | tokenizer.py:46-94 | a well-formed token followed by a blank is read back as that token, consuming exactly its lexeme |
| LexerProofs.Unblank | tokenizer.py:50-52 | the text with every whitespace character removed (the characters the scan skips dropped): no whitespace remains in it |
| LexerProofs.LiteralShape | tokenizer.py:9-11 | no literal is a character followed by a blank, so a lexeme written out with a blank after it is not read as a longer symbol |
| LexerExamples.AssignmentLine | tokenizer.py:55-93 | `num:=4+4;` followed by a line break gives IDENTIFIER num, SYMBOL `:=`, INT_CONST 4, SYMBOL `+`, INT_CONST 4, SYMBOL `;` and no error |
| LexerExamples.AssignmentAtEnd | tokenizer.py:83 | `num:=4+4;` at the very end of the text gives the first five tokens and then the out-of-range error |
| LexerExamples.AssignmentPrefix | tokenizer.py:55-93 | `num:=4+4` followed by any text starting with `;` gives the five tokens IDENTIFIER num, SYMBOL `:=`, INT_CONST 4, SYMBOL `+`, INT_CONST 4, followed by the scan of that text |
| LexerExamples.SumPrefix | tokenizer.py:64-93 | `4+4` followed by `;` gives INT_CONST 4, SYMBOL `+`, INT_CONST 4, followed by the scan of the rest |
| LexerExamples.LexFront | tokenizer.py:46-94 | a pass that emits the token for a prefix puts that token in front of the scan of what follows |
| LexerExamples.DigitFront | tokenizer.py:64-69 | `4` before a stop character is the INT_CONST `4` in front of the rest |
| LexerExamples.PlusFront | tokenizer.py:81-93 | `+` before a digit is the one-character SYMBOL `+` in front of the rest |
| LexerExamples.AssignFront | tokenizer.py:81-86 | `:=` is the two-character SYMBOL `:=` in front of the rest |
| LexerExamples.NumFront | tokenizer.py:55-61 | `num` before `:` is the IDENTIFIER `num` in front of the rest |
| LexerExamples.DotStaysInWord | tokenizer.py:32 | `.` is not a stop character, so `x.y;` starts with the IDENTIFIER `x.y` |
| LexerExamples.DigitsThenLetters | tokenizer.py:65-67 | `12ab` is one run that is not all digits, and it is raised whole |
| LexerExamples.LoneColon | tokenizer.py:87-93 | a `:` not followed by `=` is untokenizable |
| LexerExamples.BadCharConstants | tokenizer.py:73-78 | `""` followed by another character, and `"ab"`, are both refused with their first three characters |
| Parsing.Term | myparser.py:169-185 | a term that succeeds consumes at least one token and never passes the end |
| Parsing.Expression | myparser.py:153-167 | an expression that succeeds consumes at least one token and never passes the end |
| Parsing.Conditional | myparser.py:120-129 | an `if`/`while` body that succeeds consumes at least one token and never passes the end |
| Parsing.Assign | myparser.py:131-140 | an assignment that succeeds consumes at least one token and never passes the end |
| Parsing.Statement | myparser.py:105-116 | a statement that succeeds consumes at least one token and never passes the end |
| Parsing.Statements | myparser.py:88-118 | a statement list that succeeds consumes at least one token and never passes the end |
| Parsing.VarList | myparser.py:63-86 | a variable list that succeeds consumes at least one token and never passes the end |
| Parsing.VarDecs | myparser.py:52-61 | declarations that succeed consume at least one token and never pass the end |
| Parsing.Program | myparser.py:41-50 | a program that succeeds consumes at least one token and never passes the end |
| Parsing.IsValidIdentifier | myparser.py:16-26 | a name is valid exactly when it is non-empty, starts with a letter, and has only letters, digits and `_` |
| Parsing.MarkersByCharacters | myparser.py:31-33 | one of the relational or boolean operators, or `!`, occurs in the text exactly when one of the characters `=`, `<`, `>`, `&`, `!` or a vertical bar does |
| Parsing.TypeOf | myparser.py:28-39 | the three outcomes, each as an if-and-only-if: "bool" when one of `=`, `<`, `>`, `&`, `!` or a vertical bar occurs; else "char" when a quote or the word `char` occurs; else "int" |
| Parsing.CheckMatchingTypes | myparser.py:28-39 | only `bool`, `char` and `int` can ever match, and `bool` matches exactly the texts holding one of `=`, `<`, `>`, `&`, `!` or a vertical bar |
| CharClass.RemoveUnderscores | myparser.py:23 | `replace("_", "")` keeps exactly the characters of the text other than `_` |
| CharClass.RemoveUnderscoresAlnum | myparser.py:23 | what is left after removing `_` is all letters and digits exactly when the text holds only letters, digits and `_` |
| CharClass.OccursShift | myparser.py:32 | an occurrence of a string is either at the front or an occurrence in the rest |
| CharClass.Contains | myparser.py:32 | `sub in s` holds exactly when `sub` occurs at some offset of `s` |
| CharClass.ContainsAny | myparser.py:31-33 | the operator loop finds a match exactly when one of the operators occurs in the text |
| CharClass.CharInText | myparser.py:36 | a one-character string occurs in the text exactly when the character is one of its characters |
| CharClass.FirstCharInText | myparser.py:31-33 | when a string occurs in the text, its first character is one of the text's characters |
| Parsing.Parser.constructor | myparser.py:5-7 | a fresh parser reads through the given tokenizer and starts with an empty symbol table |
| Parsing.Parser.ParseTerm | myparser.py:169-185 | returns the text and moves the cursor as `Term` specifies, or raises its error |
| Parsing.Parser.ParseExpression | myparser.py:153-167 | returns the text and moves the cursor as `Expression` specifies, or raises its error |
| Parsing.Parser.ParseIf | myparser.py:120-129 | agrees with `Conditional` with the `if` error: a non-boolean condition is a semantic error, then the body and a `;` |
| Parsing.Parser.ParseWhile | myparser.py:142-151 | agrees with `Conditional` with the `while` error |
| Parsing.Parser.ExpectSemicolon | myparser.py:127-129 | reads one token; the missing token or anything but `;` is a syntax error |
| Parsing.Parser.ParseAssign | myparser.py:131-140 | agrees with `Assign`: `:=` and an expression of the declared type |
| Parsing.Parser.ParseStatements | myparser.py:88-118 | agrees with `Statements`, and cannot change the symbol table (it modifies only the cursor) |
| Parsing.Parser.ParseVarList | myparser.py:63-86 | on success leaves the table and cursor that `VarList` gives, else raises its error |
| Parsing.Parser.ParseVarDecs | myparser.py:52-61 | on success leaves the table and cursor that `VarDecs` gives, else raises its error |
| Parsing.Parser.Parse | myparser.py:41-50 | on success leaves the table after the declarations and the cursor after the closing word, as `Program` gives, else raises its error |
| ParsingProofs.UnderscoreIdentifierRejected | myparser.py:22-26 | a word starting with `_` is scanned as an IDENTIFIER but is never a valid identifier to the parser |
| ParsingProofs.OperatorCharConstantIsBool | myparser.py:31-37 | the text of a char constant holding an operator character, such as `"<"`, is typed "bool", so `check_matching_types("char", ...)` fails on it |
| ParsingProofs.OperatorCharConstantRefused | myparser.py:131-140 | so the statement `c := "<";` (or any operator character in place of `<`) with `c` declared `char` raises the wrong-type error for `char` |
| ParsingProofs.UndeclaredStatement | myparser.py:111-114 | a valid identifier in statement position that is not in the table raises the undeclared-identifier error |
| ParsingProofs.UndeclaredTerm | myparser.py:178-180 | an undeclared identifier used as a term raises the undeclared-identifier error from the term and from the expression |
| ParsingProofs.IfConditionMustBeBool | myparser.py:121-129 | an `if` whose condition is not "bool" raises the if-condition error; with a "bool" condition, an error in its body is the statement list's error |
| ParsingProofs.WhileConditionMustBeBool | myparser.py:143-151 | the same for `while` with the while-condition error |
| ParsingProofs.AssignmentTypeMustMatch | myparser.py:132-138 | an assignment to a declared name continues with the next statement exactly when the right side has the declared type, and raises the wrong-type error otherwise |
| ParsingProofs.PrintIsNotTypeChecked | myparser.py:109-110 | `print` continues with the next statement whatever the type of its expression |
| ParsingProofs.StatementRejectsOther | myparser.py:111-116 | a token that neither starts a statement nor is identifier-shaped raises the syntax error naming that token |
| ParsingProofs.TermRejectsOther | myparser.py:173-182 | a token that is not a constant, `(`, a unary operator or identifier-shaped raises the syntax error naming it, from the term and from the expression |
| ParsingProofs.ExpressionRejectsOther | myparser.py:157-165 | after a term, a token that neither ends nor continues the expression raises the syntax error naming that token |
| ParsingProofs.AssignmentNeedsColonEquals | myparser.py:133-140 | an assignment to a declared name whose next token is not `:=` raises the syntax error naming that token |
| ParsingProofs.ExpressionEndsAtTerminator | myparser.py:157-160 | an expression that succeeds has just read one of `;`, `then`, `do`, `)` |
| ParsingProofs.StatementsEndAtCloser | myparser.py:98-101 | a statement list that succeeds has just read one of `end`, `od`, `fi` |
| ParsingProofs.VarListShape | myparser.py:70-86 | a variable list is valid IDENTIFIER tokens at even offsets, `,` between them, and `;` last |
| ParsingProofs.VarListTable | myparser.py:78 | a variable list keeps every earlier name in the table, and each entry afterwards is the list's type or its earlier value |
| ParsingProofs.VarListAccepts | myparser.py:63-86 | conversely, every stretch of valid IDENTIFIER tokens separated by `,` and ended by `;` is accepted as a variable list and read to its `;` |
| ParsingProofs.BeginOnly | myparser.py:55-56 | declarations that start with `begin` are empty: the table is unchanged and the cursor stands after `begin` |
| ParsingProofs.VarDecsAccepts | myparser.py:52-61 | any run of `int`/`char` declarations, each a well-formed variable list, followed by `begin`, including none, is accepted and read to just after `begin` |
| ParsingProofs.VarDecsShape | myparser.py:52-61 | conversely, declarations that succeed are such a run followed by `begin`, and end just after it |
| ParsingProofs.VarListNames | myparser.py:78-84 | every name of the list ends up in the table with the list's type, and every new key is one of its names |
| ParsingProofs.DeclarationsKeepTypeNames | myparser.py:52-61 | declarations end by reading `begin`, keep every earlier name, and, starting from type names, leave only `int` or `char` entries |
| ParsingProofs.VarListNeverSemantic | myparser.py:63-86 | a variable list that fails raises a syntax error or runs out of tokens, never a semantic error |
| ParsingProofs.VarDecsNeverSemantic | myparser.py:52-61 | the same for declarations |
| ParsingProofs.ProgramHeader | myparser.py:43-47 | a program succeeds only with `program` followed by a valid IDENTIFIER; otherwise the syntax error names both lexemes; fewer than two tokens is the missing-token error |
| ParsingProofs.ProgramFromParts | myparser.py:49-50 | a good header, declarations and a statement list that succeed make a program whose value is the declared table |
| ParsingProofs.ProgramBodyFails | myparser.py:49-50 | after a good header and declarations, the statement list's error is the program's |
| ParsingProofs.ProgramTable | myparser.py:41-50 | a whole program ends by reading a closer, and its table holds only `int` and `char` |
| ParsingProofs.TermLocal | myparser.py:169-185 | a term that succeeds gives the same result on any token list that agrees on the tokens it consumed |
| ParsingProofs.ExpressionLocal | myparser.py:153-167 | the same for an expression |
| ParsingProofs.ExpressionSplit | myparser.py:155-163 | a successful expression is a term followed by a terminator, or by a binary operator and another expression that ends at the same place |
| ParsingProofs.ExpressionTerminated | myparser.py:159-160 | a term followed by a terminator is a whole expression with the term's text |
| ParsingProofs.ExpressionContinued | myparser.py:161-163 | a term, a binary operator and an expression give the concatenated text and end where the inner expression ends |
| ParsingProofs.ConditionalLocal | myparser.py:120-129 | an `if`/`while` that succeeds gives the same result on any token list that agrees on the tokens it consumed |
| ParsingProofs.AssignLocal | myparser.py:131-140 | the same for an assignment |
| ParsingProofs.AssignParts | myparser.py:133-138 | a successful assignment is `:=` followed by an expression of the declared type, ending where that expression ends |
| ParsingProofs.AssignFromParts | myparser.py:133-138 | those parts make a successful assignment |
| ParsingProofs.StatementLocal | myparser.py:105-116 | the same locality for one statement |
| ParsingProofs.StatementsLocal | myparser.py:88-118 | the same for a statement list |
| ParsingProofs.VarDecsLocal | myparser.py:52-61 | the same for declarations |
| ParsingProofs.VarListLocal | myparser.py:63-86 | the same for a variable list |
| ParsingProofs.ProgramLocal | myparser.py:41-50 | `parse` reads nothing after the closing word of the top-level statement list |
| ParsingProofs.AnyCloserEnds | myparser.py:100-101 | closers are not matched to their openers: replacing the closer that ends a statement list by any of `end`, `od`, `fi` gives the same result |
| ParsingProofs.ConditionalParts | myparser.py:122-129 | a successful `if`/`while` is a boolean condition, a statement list ending at a closer, and `;` |
| ParsingProofs.ConditionalFromParts | myparser.py:122-129 | those parts make a successful `if`/`while` that ends after the `;` |
| ParsingProofs.IfClosedByAnyCloser | myparser.py:120-129 | so an `if` may be closed by `od` or `end` and a `while` by `fi` with the same result |
| ParserExamples.SumIsValid | myparser.py:16-26 | `sum` is a valid identifier |
| ParserExamples.MissingOperand | tests/test_parser.py:55-56 | `4 + ;` raises a syntax error on the `;` |
| ParserExamples.MissingSemicolon | tests/test_parser.py:61-62 | `4 / 5 end` raises a syntax error on `end` |
| ParserExamples.MissingProgramKeyword | tests/test_parser.py:16-17 | a program starting `example char` raises a syntax error with the kind of the second token and the text `exampleor char` |
| ParserExamples.EmptyIfCondition | tests/test_parser.py:67-68 | the condition `1<1` is read up to `then` and is "bool" |
| ParserExamples.EmptyIf | tests/test_parser.py:67-68 | `if 1<1 then fi; end` is a statement list that succeeds and reads all of its tokens |
| ParserExamples.UndeclaredTarget | tests/test_parser.py:105-106 | `sum := 0;` with nothing declared raises the undeclared-identifier error for `sum` |
| ParserExamples.SumDeclaredInt | tests/test_parser.py:111-112 | `int sum; begin` enters `sum` with type `int` and stops after `begin` |
| ParserExamples.SumComparison | tests/test_parser.py:111-112 | `sum<2` with `sum` an `int` reads as the text `int<2`, which is "bool" |
| ParserExamples.BoolAssignedToInt | tests/test_parser.py:111-112 | `sum := sum<2;` with `sum` an `int` raises the wrong-type error for `int` |
| ParserExamples.ExampleIsValid | myparser.py:16-26 | `example` is a valid identifier |
| ParserExamples.ExampleProgram | myparser.py:41-50 | a program that starts `program example begin` is accepted, with the empty table, exactly where its statement list succeeds |
| ParserExamples.ExampleProgramFails | myparser.py:41-50 | such a program is refused with the error of its statement list |
| ParserExamples.EmptyWhileCondition | tests/test_parser.py:64-65 | the condition `1<1` is read up to `do` and is "bool" |
| ParserExamples.EmptyWhileBody | tests/test_parser.py:64-65 | the statements of SYN17, `while 1<1 do od; end`, succeed and read every token |
| ParserExamples.EmptyWhileProgram | tests/test_parser.py:64-65 | the whole program SYN17, from `program` to `end`, is accepted with an empty table |
| ParserExamples.UndeclaredProgram | tests/test_parser.py:105-106 | the whole program SEM1 is refused with the undeclared-identifier error for `sum` |

## Left out

- main.py: the command line, file reading and the printing of results are outside the model. The text is a parameter of the `Tokenizer` constructor.
- analyser.py, an earlier single-file draft of the tokenizer and parser, is not part of this model. Its list of literals is the source of the values in `Constants`.
- constants.py is not part of this model. The four operator tables of `Constants` hold together exactly the operators of the flat `LITERALS` list of analyser.py:22-28, which also holds `:=`, `,`, `;`, `(` and `)`. The split into `ARITHMETIC_OP`, `BOOLEAN_OP`, `RELATIONAL_OP` and `UNARY_OP` is inferred from the tables' names. It decides which operators continue an expression (`BINARY_OP`), which start a unary term, and which make an expression "bool" (`BOOL_MARKERS`).
- The test cases of tests/test_parser.py fix part of that split, and the model agrees with them: `+ - * /` continue an expression and do not make it "bool" (SYN9 parses); `-` and `!` are unary (SYN11, SYN12) and `=` is not (SYN8 is refused); `<` and `>` make an expression "bool" (SEM3 is refused, SYN27 parses). No test case decides whether `=`, `&` or `|` alone make an expression "bool".
- exceptions.py: the three exception classes are modelled as error values, not raised exceptions. `TokenizeException(text)` is `LexError.Untokenizable(text)`. `ParserException(kind, lexeme)` is `ParseError.Syntax`. `ParserSemanticException` is `ParseError.Semantic`, with one constructor per message instead of the message text.
- Python's `IndexError` is an error value too. In the tokenizer's look-ahead it is `LexError.OutOfRange`. When the parser reads past the last token it is `ParseError.Missing`, which matches the `ParserException("MISSING", "MISSING")` that tests/test_parser.py:137-145 raises.
- Unicode: `isspace`, `isalpha`, `isdigit` and `isalnum` are modelled for ASCII only. Letters, digits and spaces outside ASCII are treated as punctuation.
- The class-level state of `Tokenizer` (`CODE`, `TOKENS`, `CURRENT_TOKEN`) and of `Parser` (`SYMBOL_TABLE`) is shared across every use in Python. The model keeps it in the fields of one `Tokenizer` and one `Parser` object. Resetting it between runs, as the tests do, is not modelled.
- Parsing.Parser.ParseVarList: after an error, the contract does not say where the cursor stands or what the table holds. Python writes the name into the table before it reads the `,` or `;` after it, and that partial state is not described. The same holds for ParseVarDecs and Parse. The other parse methods never change the table.
- Parsing.Parser.ParseTerm: after an error, the cursor position is not stated. The same holds for the other parse methods. A parse that raises is abandoned.
- Lexer.Tokenizer.Tokenize: the token list is stated, but the index at which the scan stopped is not, because Python drops it when it raises.
- `is_valid_identifier("")` raises `IndexError` in Python. The model returns false instead. The tokenizer never produces an empty lexeme (`LexerProofs.LexWellFormed`), so the parser never meets this case.
- tests/test_parser.py defines 37 token lists (SYN1-SYN29, SEM1-SEM8). Only these are represented in the model:
  - replayed whole, from the first token: SYN1 (`ParserExamples.MissingProgramKeyword`), SYN17 (`ParserExamples.EmptyWhileProgram`) and SEM1 (`ParserExamples.UndeclaredProgram`, through `ProgramBodyFails`);
  - replayed from the expression or the statement list on: SYN14 (`ParserExamples.MissingOperand`), SYN16 (`ParserExamples.MissingSemicolon`) and SYN18 (`ParserExamples.EmptyIfCondition`, `ParserExamples.EmptyIf`);
  - replayed as its declarations and its statement list: SEM3 (`ParserExamples.SumDeclaredInt`, `ParserExamples.SumComparison`, `ParserExamples.BoolAssignedToInt`).
  The other 30 are not replayed. The general lemmas cover their kinds of error (`StatementRejectsOther`, `ExpressionRejectsOther`, `IfConditionMustBeBool`, `WhileConditionMustBeBool`, `AssignmentTypeMustMatch`, `VarDecsShape`), but no lemma states their outcome token by token.
- tests/test_tokenizer.py reads `.boaz` files that are not part of this model. Its empty-file case is covered by `LexerProofs.BlankLexesToNothing`.
