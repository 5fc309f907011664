/** The operator tables shared by the tokenizer and the parser (constants.py).
    constants.py is not part of this model. Together the four tables hold
    exactly the operators of the flat literal list in the earlier single-file
    draft (analyser.py:22-28); how they are split among the tables is
    inferred from the tables' names, and the parser's test cases in
    tests/test_parser.py agree with it:
    - `+ - * /` continue an expression and do not make it boolean (SYN9);
    - `-` and `!` are unary (SYN11, SYN12), and `=` is not (SYN8);
    - `<` and `>` make an expression boolean (SEM3, SYN27).
    No test case decides whether `=`, `&` or `|` alone make an expression
    boolean. */
module Constants {

  const ARITHMETIC_OP: seq<string> := ["+", "-", "*", "/"]
  const BOOLEAN_OP: seq<string> := ["&", "|"]
  const RELATIONAL_OP: seq<string> := ["=", "!=", "<", "<=", ">", ">="]
  const UNARY_OP: seq<string> := ["-", "!"]

}
