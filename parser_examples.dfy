/** Cases from tests/test_parser.py, worked through the specification. */
module ParserExamples {
  import opened Constants
  import opened CharClass
  import opened Lexer
  import opened Parsing
  import opened ParsingProofs

  /** `sum` is a valid identifier and not a word that starts a statement. */
  lemma SumIsValid()
    ensures IsValidIdentifier("sum") && !IsStatementWord("sum")
  {
  }

  /** SYN14: a binary operator with no second operand. */
  lemma MissingOperand()
    ensures Expression([Token(IntConst, "4"), Token(Symbol, "+"), Token(Symbol, ";")], 0, map[])
      == Failed(Syntax(Symbol, ";"))
  {
    var ts := [Token(IntConst, "4"), Token(Symbol, "+"), Token(Symbol, ";")];
    assert Term(ts, 0, map[]) == Done("4", 1);
    assert "+" !in TERMINATORS && "+" in BINARY_OP;
    assert ";" != "(" && ";" !in UNARY_OP && !IsValidIdentifier(";");
  }

  /** SYN16: an expression that runs into `end` instead of `;`. */
  lemma MissingSemicolon()
    ensures Expression([Token(IntConst, "4"), Token(Symbol, "/"), Token(IntConst, "5"), Token(Keyword, "end")], 0, map[])
      == Failed(Syntax(Keyword, "end"))
  {
    var ts := [Token(IntConst, "4"), Token(Symbol, "/"), Token(IntConst, "5"), Token(Keyword, "end")];
    assert Term(ts, 0, map[]) == Done("4", 1);
    assert "/" !in TERMINATORS && "/" in BINARY_OP;
    assert Term(ts, 2, map[]) == Done("5", 3);
    assert "end" !in TERMINATORS && "end" !in BINARY_OP;
  }

  /** SYN1: a program that does not start with `program`; the error carries
      the second token's kind and both lexemes. */
  lemma MissingProgramKeyword()
    ensures Program([Token(Identifier, "example"), Token(Keyword, "char"), Token(Identifier, "ch"),
      Token(Symbol, ";"), Token(Keyword, "begin"), Token(Keyword, "end")], 0, map[])
      == Failed(Syntax(Keyword, "exampleor char"))
  {
    assert "example" != "program";
    assert "example" + "or " + "char" == "exampleor char";
  }

  /** The statements of SYN18: `if 1<1 then fi; end`. */
  const EMPTY_IF: seq<Token> := [Token(Keyword, "if"), Token(IntConst, "1"), Token(Symbol, "<"), Token(IntConst, "1"),
    Token(Keyword, "then"), Token(Keyword, "fi"), Token(Symbol, ";"), Token(Keyword, "end")]

  /** The condition of SYN18 reads as `1<1`, which is boolean. */
  lemma EmptyIfCondition()
    ensures Expression(EMPTY_IF, 1, map[]) == Done("1<1", 5)
    ensures CheckMatchingTypes("bool", "1<1")
  {
    var ts := EMPTY_IF;
    assert Term(ts, 1, map[]) == Done("1", 2);
    assert "<" !in TERMINATORS && "<" in BINARY_OP;
    assert Term(ts, 3, map[]) == Done("1", 4);
    assert "then" in TERMINATORS;
    assert Expression(ts, 3, map[]) == Done("1", 5);
    assert "1" + "<" + "1" == "1<1";
    assert IsBoolMark("1<1"[1]);
  }

  /** SYN18: an empty `if` with a boolean condition is accepted, and the
      list ends at `end`. */
  lemma EmptyIf()
    ensures Statements(EMPTY_IF, 0, map[]).Done? && Statements(EMPTY_IF, 0, map[]).pos == |EMPTY_IF|
  {
    var ts := EMPTY_IF;
    EmptyIfCondition();
    assert "fi" in CLOSERS;
    assert Statements(ts, 5, map[]) == Done((), 6);
    ConditionalFromParts(ts, 1, map[], IfNotBool, 5);
    assert Statement(ts, 0, map[]) == Done((), 7);
    assert "end" in CLOSERS;
    assert Statements(ts, 7, map[]) == Done((), 8);
  }

  /** A program that starts `program example begin` has no declarations
      and is accepted, with the empty table, where its statement list is. */
  lemma ExampleProgram(ts: seq<Token>, p: nat)
    requires |ts| > 3 && ts[0] == Token(Keyword, "program") && ts[1] == Token(Identifier, "example")
    requires ts[2] == Token(Keyword, "begin")
    requires Statements(ts, 3, map[]).Done? && Statements(ts, 3, map[]).pos == p
    ensures Program(ts, 0, map[]) == Done(map[], p)
  {
    ExampleIsValid();
    BeginOnly(ts, 0 + 2, map[]);
    ProgramFromParts(ts, 0, map[], map[], 3, p);
  }

  /** Such a program is refused with the error of its statement list. */
  lemma ExampleProgramFails(ts: seq<Token>, e: ParseError)
    requires |ts| > 3 && ts[0] == Token(Keyword, "program") && ts[1] == Token(Identifier, "example")
    requires ts[2] == Token(Keyword, "begin")
    requires Statements(ts, 3, map[]) == Failed(e)
    ensures Program(ts, 0, map[]) == Failed(e)
  {
    ExampleIsValid();
    BeginOnly(ts, 0 + 2, map[]);
    ProgramBodyFails(ts, 0, map[], map[], 3, e);
  }

  /** `example`, the program name of the whole-program cases, is valid. */
  lemma ExampleIsValid()
    ensures IsValidIdentifier("example")
  {
    var s := "example";
    assert forall k :: 0 <= k < |s| ==> IsLetter(s[k]);
  }

  /** SYN17, a whole program: `program example begin while 1<1 do od; end`. */
  const EMPTY_WHILE: seq<Token> := [Token(Keyword, "program"), Token(Identifier, "example"), Token(Keyword, "begin"),
    Token(Keyword, "while"), Token(IntConst, "1"), Token(Symbol, "<"), Token(IntConst, "1"), Token(Keyword, "do"),
    Token(Keyword, "od"), Token(Symbol, ";"), Token(Keyword, "end")]

  /** The condition of SYN17 reads as `1<1` and stops after `do`. */
  lemma EmptyWhileCondition()
    ensures Expression(EMPTY_WHILE, 4, map[]) == Done("1<1", 8)
    ensures CheckMatchingTypes("bool", "1<1")
  {
    var ts := EMPTY_WHILE;
    assert Term(ts, 4, map[]) == Done("1", 5);
    assert "<" !in TERMINATORS && "<" in BINARY_OP;
    assert Term(ts, 6, map[]) == Done("1", 7);
    assert "do" in TERMINATORS;
    assert Expression(ts, 6, map[]) == Done("1", 8);
    assert "1" + "<" + "1" == "1<1";
    assert IsBoolMark("1<1"[1]);
  }

  /** The statement list of SYN17, `while 1<1 do od; end`, is accepted. */
  lemma EmptyWhileBody()
    ensures Statements(EMPTY_WHILE, 3, map[]) == Done((), |EMPTY_WHILE|)
  {
    var ts := EMPTY_WHILE;
    EmptyWhileCondition();
    assert "od" in CLOSERS;
    assert Statements(ts, 8, map[]) == Done((), 9);
    ConditionalFromParts(ts, 4, map[], WhileNotBool, 8);
    assert Statement(ts, 3, map[]) == Done((), 10);
    assert "end" in CLOSERS;
    assert Statements(ts, 10, map[]) == Done((), 11);
  }

  /** SYN17: the whole program is accepted, with no declarations, and the
      parse ends at its last token. */
  lemma EmptyWhileProgram()
    ensures Program(EMPTY_WHILE, 0, map[]) == Done(map[], |EMPTY_WHILE|)
  {
    EmptyWhileBody();
    ExampleProgram(EMPTY_WHILE, |EMPTY_WHILE|);
  }

  /** SEM1, a whole program: `program example begin sum := 0; end`. */
  const SEM1_PROGRAM: seq<Token> := [Token(Keyword, "program"), Token(Identifier, "example"),
    Token(Keyword, "begin"), Token(Identifier, "sum"), Token(Symbol, ":="), Token(IntConst, "0"),
    Token(Symbol, ";"), Token(Keyword, "end")]

  /** SEM1: the whole program is refused because `sum` was never declared. */
  lemma UndeclaredProgram()
    ensures Program(SEM1_PROGRAM, 0, map[]) == Failed(Semantic(Undeclared("sum")))
  {
    var ts := SEM1_PROGRAM;
    SumIsValid();
    assert ts[3] == Token(Identifier, "sum");
    UndeclaredStatement(ts, 3, map[]);
    ExampleProgramFails(ts, Semantic(Undeclared("sum")));
  }

  /** The statements of SEM1: `sum := 0; end`. */
  const ASSIGN_SUM: seq<Token> := [Token(Identifier, "sum"), Token(Symbol, ":="), Token(IntConst, "0"),
    Token(Symbol, ";"), Token(Keyword, "end")]

  /** SEM1: assignment to a name that was never declared. */
  lemma UndeclaredTarget()
    ensures Statements(ASSIGN_SUM, 0, map[]) == Failed(Semantic(Undeclared("sum")))
  {
    SumIsValid();
    assert ASSIGN_SUM[0].lexeme == "sum" && !IsStatementWord("sum");
    UndeclaredStatement(ASSIGN_SUM, 0, map[]);
  }

  /** The declarations of SEM3: `int sum; begin`. */
  const DECLARE_SUM: seq<Token> := [Token(Keyword, "int"), Token(Identifier, "sum"), Token(Symbol, ";"),
    Token(Keyword, "begin")]

  /** SEM3's declarations give `sum` the type `int`. */
  lemma SumDeclaredInt()
    ensures VarDecs(DECLARE_SUM, 0, map[]) == Done(map["sum" := "int"], 4)
  {
    var ts := DECLARE_SUM;
    SumIsValid();
    assert VarList(ts, 1, map[], "int") == Done(map["sum" := "int"], 3);
    assert VarDecs(ts, 3, map["sum" := "int"]) == Done(map["sum" := "int"], 4);
  }

  /** The statements of SEM3: `sum := sum<2; end`. */
  const COMPARE_SUM: seq<Token> := [Token(Identifier, "sum"), Token(Symbol, ":="), Token(Identifier, "sum"),
    Token(Symbol, "<"), Token(IntConst, "2"), Token(Symbol, ";"), Token(Keyword, "end")]

  /** The right side of the assignment in SEM3 reads as `int<2`. */
  lemma SumComparison()
    ensures Expression(COMPARE_SUM, 2, map["sum" := "int"]) == Done("int<2", 6)
    ensures TypeOf("int<2") == "bool"
  {
    var ts, table := COMPARE_SUM, map["sum" := "int"];
    SumIsValid();
    assert Term(ts, 2, table) == Done("int", 3);
    assert "<" !in TERMINATORS && "<" in BINARY_OP;
    assert Term(ts, 4, table) == Done("2", 5);
    assert ";" in TERMINATORS;
    assert Expression(ts, 4, table) == Done("2", 6);
    assert "int" + "<" + "2" == "int<2";
    assert IsBoolMark("int<2"[3]);
  }

  /** SEM3: a boolean expression assigned to an `int` variable. */
  lemma BoolAssignedToInt()
    ensures Statements(COMPARE_SUM, 0, map["sum" := "int"]) == Failed(Semantic(WrongAssignType("int")))
  {
    SumIsValid();
    SumComparison();
  }
}
