/** The predictive recursive-descent parser of myparser.py, with its flat
    symbol table and its textual type inference.

    The functions `Term`, `Expression`, `Conditional`, `Assign`, `Statements`,
    `VarList`, `VarDecs` and `Program` specify each `parse_*` rule on the token
    list read from position `pos`: they give the value the rule returns and
    the position of the cursor after it, or the error it raises. The class
    `Parser` is the imperative parser, proved against them. */
module Parsing {
  import opened Constants
  import opened CharClass
  import opened Lexer

  /** SYMBOL_TABLE: variable name to declared type name ("int" or "char"). */
  type Table = map<string, string>

  /** The messages of `ParserSemanticException`. */
  datatype SemanticError =
    | Undeclared(name: string)
    | IfNotBool
    | WhileNotBool
    | WrongAssignType(declared: string)

  /** `ParserException(kind, lexeme)`, `ParserSemanticException(message)`, or
      a token list that ends where a token is still needed. */
  datatype ParseError = Syntax(kind: Kind, lexeme: string) | Semantic(reason: SemanticError) | Missing

  /** What a rule read from a position does: its value and the position after
      it, or the error it raises. */
  datatype Parsed<T> = Done(value: T, pos: nat) | Failed(error: ParseError)

  /** What a `parse_*` method returns, or the exception it raises. */
  datatype Result<T> = Ok(value: T) | Err(error: ParseError)

  /** Tokens that end an expression. */
  const TERMINATORS: seq<string> := [";", "then", "do", ")"]

  /** Tokens that continue an expression. */
  const BINARY_OP: seq<string> := ARITHMETIC_OP + BOOLEAN_OP + RELATIONAL_OP

  /** Tokens that end a statement list. */
  const CLOSERS: seq<string> := ["end", "od", "fi"]

  /** Text whose presence makes an expression boolean. */
  const BOOL_MARKERS: seq<string> := RELATIONAL_OP + BOOLEAN_OP + ["!"]

  /** `is_valid_identifier`: the first character is a letter and, with the
      underscores removed, the rest is letters and digits; that is, a letter
      followed by letters, digits and underscores. */
  predicate IsValidIdentifier(s: string)
    ensures IsValidIdentifier(s)
        <==> |s| > 0 && IsLetter(s[0]) && forall k :: 0 <= k < |s| ==> IsWordChar(s[k])
  {
    RemoveUnderscoresAlnum(s);
    |s| > 0 && IsLetter(s[0]) && AllAlnum(RemoveUnderscores(s))
  }

  /** A character that makes an expression boolean: the first character of
      every relational or boolean operator, and `!`. */
  predicate IsBoolMark(c: char) {
    c == '=' || c == '<' || c == '>' || c == '&' || c == '|' || c == '!'
  }

  /** Some character of `s` is one of `= < > & | !`. */
  predicate HasBoolMark(s: string) {
    exists k :: 0 <= k < |s| && IsBoolMark(s[k])
  }

  /** Each operator that makes an expression boolean starts with a mark. */
  lemma MarkerStartsWithMark(i: int)
    requires 0 <= i < |BOOL_MARKERS|
    ensures |BOOL_MARKERS[i]| > 0 && IsBoolMark(BOOL_MARKERS[i][0])
  {
    assert BOOL_MARKERS == ["=", "!=", "<", "<=", ">", ">=", "&", "|", "!"];
  }

  /** Each mark is itself one of the operators. */
  lemma MarkIsMarker(c: char)
    requires IsBoolMark(c)
    ensures exists i :: 0 <= i < |BOOL_MARKERS| && BOOL_MARKERS[i] == [c]
  {
    var marks := ["=", "!=", "<", "<=", ">", ">=", "&", "|", "!"];
    assert BOOL_MARKERS == marks;
    var i := if c == '=' then 0 else if c == '<' then 2 else if c == '>' then 4
      else if c == '&' then 6 else if c == '|' then 7 else 8;
    assert BOOL_MARKERS[i] == [c];
  }

  /** One of the operators occurs in the text exactly when one of the marks
      `= < > & | !` does. */
  lemma MarkersByCharacters(text: string)
    ensures ContainsAny(text, BOOL_MARKERS) <==> HasBoolMark(text)
  {
    if ContainsAny(text, BOOL_MARKERS) {
      var i :| 0 <= i < |BOOL_MARKERS| && Contains(text, BOOL_MARKERS[i]);
      MarkerStartsWithMark(i);
      FirstCharInText(text, BOOL_MARKERS[i]);
    }
    if HasBoolMark(text) {
      var k :| 0 <= k < |text| && IsBoolMark(text[k]);
      MarkIsMarker(text[k]);
      var i :| 0 <= i < |BOOL_MARKERS| && BOOL_MARKERS[i] == [text[k]];
      CharInText(text, text[k]);
    }
  }

  /** The type `check_matching_types` reads off an expression's text: any
      relational or boolean operator or `!` makes it "bool", else a quote or
      the word `char` makes it "char", else it is "int". By characters: it is
      "bool" exactly when one of `= < > & | !` occurs. */
  function TypeOf(text: string): (r: string)
    ensures r == "bool" <==> HasBoolMark(text)
    ensures r == "char" <==> !HasBoolMark(text) && (Contains(text, "\"") || Contains(text, "char"))
    ensures r == "int" <==> !HasBoolMark(text) && !Contains(text, "\"") && !Contains(text, "char")
  {
    MarkersByCharacters(text);
    if ContainsAny(text, BOOL_MARKERS) then "bool"
    else if Contains(text, "\"") || Contains(text, "char") then "char"
    else "int"
  }

  /** `check_matching_types(intended, expression)`: only the three type
      names can ever match, and "bool" matches exactly the texts holding one
      of `= < > & | !`. */
  predicate CheckMatchingTypes(intended: string, text: string)
    ensures CheckMatchingTypes(intended, text) ==> intended in ["bool", "char", "int"]
    ensures intended == "bool" ==> (CheckMatchingTypes(intended, text) <==> HasBoolMark(text))
  {
    TypeOf(text) == intended
  }

  /** `parse_term`: a constant gives its lexeme; `(` gives the text of the
      expression after it followed by `(`; a unary operator gives the text of
      the term after it followed by the operator; a declared identifier gives
      its type name. */
  function Term(ts: seq<Token>, pos: nat, table: Table): (r: Parsed<string>)
    ensures r.Done? ==> pos < r.pos <= |ts|
    decreases |ts| - pos, 0
  {
    if pos >= |ts| then Failed(Missing)
    else
      var t := ts[pos];
      if t.kind != IntConst && t.kind != CharConst then
        if t.lexeme == "(" then
          match Expression(ts, pos + 1, table)
          case Failed(e) => Failed(e)
          case Done(inner, q) => Done(inner + t.lexeme, q)
        else if t.lexeme in UNARY_OP then
          match Term(ts, pos + 1, table)
          case Failed(e) => Failed(e)
          case Done(inner, q) => Done(inner + t.lexeme, q)
        else if IsValidIdentifier(t.lexeme) then
          if t.lexeme in table then Done(table[t.lexeme], pos + 1)
          else Failed(Semantic(Undeclared(t.lexeme)))
        else Failed(Syntax(t.kind, t.lexeme))
      else Done(t.lexeme, pos + 1)
  }

  /** `parse_expression`: a term, then either a terminator (read, not part of
      the text) or a binary operator and another expression. */
  function Expression(ts: seq<Token>, pos: nat, table: Table): (r: Parsed<string>)
    ensures r.Done? ==> pos < r.pos <= |ts|
    decreases |ts| - pos, 1
  {
    match Term(ts, pos, table)
    case Failed(e) => Failed(e)
    case Done(text, p) =>
      if p >= |ts| then Failed(Missing)
      else
        var t := ts[p];
        if t.lexeme in TERMINATORS then Done(text, p + 1)
        else if t.lexeme in BINARY_OP then
          match Expression(ts, p + 1, table)
          case Failed(e) => Failed(e)
          case Done(more, q) => Done(text + t.lexeme + more, q)
        else Failed(Syntax(t.kind, t.lexeme))
  }

  /** `parse_if` and `parse_while` (after the keyword): a boolean condition,
      a statement list, and `;`. */
  function Conditional(ts: seq<Token>, pos: nat, table: Table, notBool: SemanticError): (r: Parsed<()>)
    ensures r.Done? ==> pos < r.pos <= |ts|
    decreases |ts| - pos, 2
  {
    match Expression(ts, pos, table)
    case Failed(e) => Failed(e)
    case Done(text, q) =>
      if !CheckMatchingTypes("bool", text) then Failed(Semantic(notBool))
      else
        match Statements(ts, q, table)
        case Failed(e) => Failed(e)
        case Done(_, p) =>
          if p >= |ts| then Failed(Missing)
          else if ts[p].lexeme != ";" then Failed(Syntax(ts[p].kind, ts[p].lexeme))
          else Done((), p + 1)
  }

  /** `parse_assign(declared)` (after the identifier): `:=` and an expression
      whose type is the declared one. */
  function Assign(ts: seq<Token>, pos: nat, table: Table, declared: string): (r: Parsed<()>)
    ensures r.Done? ==> pos < r.pos <= |ts|
    decreases |ts| - pos, 2
  {
    if pos >= |ts| then Failed(Missing)
    else if ts[pos].lexeme != ":=" then Failed(Syntax(ts[pos].kind, ts[pos].lexeme))
    else
      match Expression(ts, pos + 1, table)
      case Failed(e) => Failed(e)
      case Done(text, q) =>
        if CheckMatchingTypes(declared, text) then Done((), q)
        else Failed(Semantic(WrongAssignType(declared)))
  }

  /** One statement of `parse_statements`, after its first token: `while`
      and `if` with their condition, `print` with an expression that is not
      type-checked, or an assignment to a declared identifier. */
  function Statement(ts: seq<Token>, pos: nat, table: Table): (r: Parsed<()>)
    requires pos < |ts|
    ensures r.Done? ==> pos < r.pos <= |ts|
    decreases |ts| - pos, 3
  {
    var t := ts[pos];
    if t.lexeme == "while" then Conditional(ts, pos + 1, table, WhileNotBool)
    else if t.lexeme == "if" then Conditional(ts, pos + 1, table, IfNotBool)
    else if t.lexeme == "print" then
      (match Expression(ts, pos + 1, table)
       case Failed(e) => Failed(e)
       case Done(_, q) => Done((), q))
    else if IsValidIdentifier(t.lexeme) then
      if t.lexeme in table then Assign(ts, pos + 1, table, table[t.lexeme])
      else Failed(Semantic(Undeclared(t.lexeme)))
    else Failed(Syntax(t.kind, t.lexeme))
  }

  /** `parse_statements`: statements up to the first `end`, `od` or `fi`;
      `else` just goes on with the list. */
  function Statements(ts: seq<Token>, pos: nat, table: Table): (r: Parsed<()>)
    ensures r.Done? ==> pos < r.pos <= |ts|
    decreases |ts| - pos, 4
  {
    if pos >= |ts| then Failed(Missing)
    else if ts[pos].lexeme in CLOSERS then Done((), pos + 1)
    else if ts[pos].lexeme == "else" then Statements(ts, pos + 1, table)
    else
      match Statement(ts, pos, table)
      case Failed(e) => Failed(e)
      case Done(_, q) => Statements(ts, q, table)
  }

  /** `parse_var_list(varType)`: identifiers separated by `,` and ended by
      `;`, each entered in the table with `varType`. */
  function VarList(ts: seq<Token>, pos: nat, table: Table, varType: string): (r: Parsed<Table>)
    ensures r.Done? ==> pos < r.pos <= |ts|
    decreases |ts| - pos
  {
    if pos >= |ts| then Failed(Missing)
    else
      var t := ts[pos];
      if t.kind != Identifier || !IsValidIdentifier(t.lexeme) then Failed(Syntax(t.kind, t.lexeme))
      else
        var table' := table[t.lexeme := varType];
        if pos + 1 >= |ts| then Failed(Missing)
        else
          var u := ts[pos + 1];
          if u.lexeme == ";" then Done(table', pos + 2)
          else if u.lexeme == "," then VarList(ts, pos + 2, table', varType)
          else Failed(Syntax(u.kind, u.lexeme))
  }

  /** `parse_var_decs`: `int` or `char` declarations until `begin`. */
  function VarDecs(ts: seq<Token>, pos: nat, table: Table): (r: Parsed<Table>)
    ensures r.Done? ==> pos < r.pos <= |ts|
    decreases |ts| - pos
  {
    if pos >= |ts| then Failed(Missing)
    else
      var t := ts[pos];
      if t.lexeme == "begin" then Done(table, pos + 1)
      else if t.lexeme == "int" || t.lexeme == "char" then
        match VarList(ts, pos + 1, table, t.lexeme)
        case Failed(e) => Failed(e)
        case Done(table', q) => VarDecs(ts, q, table')
      else Failed(Syntax(t.kind, t.lexeme))
  }

  /** `parse`: `program`, a valid identifier, the declarations and the
      statement list; the table after the declarations is the value. */
  function Program(ts: seq<Token>, pos: nat, table: Table): (r: Parsed<Table>)
    ensures r.Done? ==> pos < r.pos <= |ts|
  {
    if pos + 1 >= |ts| then Failed(Missing)
    else
      var first, second := ts[pos], ts[pos + 1];
      if first.lexeme != "program" || second.kind != Identifier || !IsValidIdentifier(second.lexeme) then
        Failed(Syntax(second.kind, first.lexeme + "or " + second.lexeme))
      else
        match VarDecs(ts, pos + 2, table)
        case Failed(e) => Failed(e)
        case Done(table', q) =>
          match Statements(ts, q, table')
          case Failed(e) => Failed(e)
          case Done(_, p) => Done(table', p)
  }

  /** A method's result and cursor agree with the rule's specification. */
  predicate Agrees<T(==)>(r: Result<T>, spec: Parsed<T>, cursor: nat) {
    match spec
    case Done(v, p) => r == Ok(v) && cursor == p
    case Failed(e) => r == Err(e)
  }

  /** A declaration method's result, table and cursor agree with the rule's
      specification. */
  predicate Declares(r: Result<()>, spec: Parsed<Table>, table: Table, cursor: nat) {
    match spec
    case Done(t, p) => r == Ok(()) && table == t && cursor == p
    case Failed(e) => r == Err(e)
  }

  /** The parser object: it reads tokens through the tokenizer's cursor and
      owns the symbol table. */
  class Parser {
    const lexer: Tokenizer
    var table: Table

    constructor (lexer: Tokenizer)
      ensures this.lexer == lexer && table == map[]
    {
      this.lexer := lexer;
      table := map[];
    }

    method ParseTerm() returns (r: Result<string>)
      requires lexer.Valid()
      modifies lexer`cursor
      ensures lexer.Valid()
      ensures Agrees(r, Term(lexer.tokens, old(lexer.cursor), table), lexer.cursor)
      decreases |lexer.tokens| - lexer.cursor, 0
    {
      var next := lexer.NextToken();
      if next.None? {
        return Err(Missing);
      }
      var t := next.value;
      if t.kind == IntConst || t.kind == CharConst {
        return Ok(t.lexeme);
      }
      if t.lexeme == "(" {
        var inner := ParseExpression();
        if inner.Err? {
          return inner;
        }
        r := Ok(inner.value + t.lexeme);
      } else if t.lexeme in UNARY_OP {
        var inner := ParseTerm();
        if inner.Err? {
          return inner;
        }
        r := Ok(inner.value + t.lexeme);
      } else if IsValidIdentifier(t.lexeme) {
        if t.lexeme !in table {
          return Err(Semantic(Undeclared(t.lexeme)));
        }
        r := Ok(table[t.lexeme]);
      } else {
        r := Err(Syntax(t.kind, t.lexeme));
      }
    }

    method ParseExpression() returns (r: Result<string>)
      requires lexer.Valid()
      modifies lexer`cursor
      ensures lexer.Valid()
      ensures Agrees(r, Expression(lexer.tokens, old(lexer.cursor), table), lexer.cursor)
      decreases |lexer.tokens| - lexer.cursor, 1
    {
      var term := ParseTerm();
      if term.Err? {
        return term;
      }
      var next := lexer.NextToken();
      if next.None? {
        return Err(Missing);
      }
      var t := next.value;
      if t.lexeme in TERMINATORS {
        r := Ok(term.value);
      } else if t.lexeme in BINARY_OP {
        var rest := ParseExpression();
        if rest.Err? {
          return rest;
        }
        r := Ok(term.value + t.lexeme + rest.value);
      } else {
        r := Err(Syntax(t.kind, t.lexeme));
      }
    }

    method ParseIf() returns (r: Result<()>)
      requires lexer.Valid()
      modifies lexer`cursor
      ensures lexer.Valid()
      ensures Agrees(r, Conditional(lexer.tokens, old(lexer.cursor), table, IfNotBool), lexer.cursor)
      decreases |lexer.tokens| - lexer.cursor, 2
    {
      var line := ParseExpression();
      if line.Err? {
        return Err(line.error);
      }
      if !CheckMatchingTypes("bool", line.value) {
        return Err(Semantic(IfNotBool));
      }
      r := ParseStatements();
      if r.Err? {
        return;
      }
      r := ExpectSemicolon();
    }

    method ParseWhile() returns (r: Result<()>)
      requires lexer.Valid()
      modifies lexer`cursor
      ensures lexer.Valid()
      ensures Agrees(r, Conditional(lexer.tokens, old(lexer.cursor), table, WhileNotBool), lexer.cursor)
      decreases |lexer.tokens| - lexer.cursor, 2
    {
      var line := ParseExpression();
      if line.Err? {
        return Err(line.error);
      }
      if !CheckMatchingTypes("bool", line.value) {
        return Err(Semantic(WhileNotBool));
      }
      r := ParseStatements();
      if r.Err? {
        return;
      }
      r := ExpectSemicolon();
    }

    /** The `;` that ends an `if` or a `while`. */
    method ExpectSemicolon() returns (r: Result<()>)
      requires lexer.Valid()
      modifies lexer`cursor
      ensures lexer.Valid()
      ensures var ts, pos := lexer.tokens, old(lexer.cursor);
        if pos >= |ts| then r == Err(Missing)
        else if ts[pos].lexeme != ";" then r == Err(Syntax(ts[pos].kind, ts[pos].lexeme))
        else r == Ok(()) && lexer.cursor == pos + 1
    {
      var next := lexer.NextToken();
      if next.None? {
        return Err(Missing);
      }
      if next.value.lexeme != ";" {
        return Err(Syntax(next.value.kind, next.value.lexeme));
      }
      return Ok(());
    }

    method ParseAssign(declared: string) returns (r: Result<()>)
      requires lexer.Valid()
      modifies lexer`cursor
      ensures lexer.Valid()
      ensures Agrees(r, Assign(lexer.tokens, old(lexer.cursor), table, declared), lexer.cursor)
      decreases |lexer.tokens| - lexer.cursor, 2
    {
      var next := lexer.NextToken();
      if next.None? {
        return Err(Missing);
      }
      var t := next.value;
      if t.lexeme == ":=" {
        var line := ParseExpression();
        if line.Err? {
          return Err(line.error);
        }
        if !CheckMatchingTypes(declared, line.value) {
          return Err(Semantic(WrongAssignType(declared)));
        }
        return Ok(());
      } else {
        return Err(Syntax(t.kind, t.lexeme));
      }
    }

    method ParseStatements() returns (r: Result<()>)
      requires lexer.Valid()
      modifies lexer`cursor
      ensures lexer.Valid()
      ensures Agrees(r, Statements(lexer.tokens, old(lexer.cursor), table), lexer.cursor)
      decreases |lexer.tokens| - lexer.cursor, 4
    {
      var next := lexer.NextToken();
      if next.None? {
        return Err(Missing);
      }
      var t := next.value;
      if t.lexeme in CLOSERS {
        return Ok(());
      } else if t.lexeme == "else" {
        r := ParseStatements();
        return;
      } else if t.lexeme == "while" {
        r := ParseWhile();
      } else if t.lexeme == "if" {
        r := ParseIf();
      } else if t.lexeme == "print" {
        var line := ParseExpression();
        r := if line.Ok? then Ok(()) else Err(line.error);
      } else if IsValidIdentifier(t.lexeme) {
        if t.lexeme !in table {
          return Err(Semantic(Undeclared(t.lexeme)));
        }
        r := ParseAssign(table[t.lexeme]);
      } else {
        return Err(Syntax(t.kind, t.lexeme));
      }
      if r.Err? {
        return;
      }
      r := ParseStatements();
    }

    method ParseVarList(varType: string) returns (r: Result<()>)
      requires lexer.Valid()
      modifies this`table, lexer`cursor
      ensures lexer.Valid()
      ensures Declares(r, VarList(lexer.tokens, old(lexer.cursor), old(table), varType), table, lexer.cursor)
      decreases |lexer.tokens| - lexer.cursor
    {
      var next := lexer.NextToken();
      if next.None? {
        return Err(Missing);
      }
      var t := next.value;
      if t.kind != Identifier {
        return Err(Syntax(t.kind, t.lexeme));
      }
      if !IsValidIdentifier(t.lexeme) {
        return Err(Syntax(t.kind, t.lexeme));
      }
      table := table[t.lexeme := varType];
      next := lexer.NextToken();
      if next.None? {
        return Err(Missing);
      }
      t := next.value;
      if t.lexeme == ";" {
        return Ok(());
      } else if t.lexeme == "," {
        r := ParseVarList(varType);
      } else {
        return Err(Syntax(t.kind, t.lexeme));
      }
    }

    method ParseVarDecs() returns (r: Result<()>)
      requires lexer.Valid()
      modifies this`table, lexer`cursor
      ensures lexer.Valid()
      ensures Declares(r, VarDecs(lexer.tokens, old(lexer.cursor), old(table)), table, lexer.cursor)
      decreases |lexer.tokens| - lexer.cursor
    {
      var next := lexer.NextToken();
      if next.None? {
        return Err(Missing);
      }
      var t := next.value;
      if t.lexeme == "begin" {
        return Ok(());
      } else if t.lexeme == "int" || t.lexeme == "char" {
        r := ParseVarList(t.lexeme);
        if r.Err? {
          return;
        }
        r := ParseVarDecs();
      } else {
        return Err(Syntax(t.kind, t.lexeme));
      }
    }

    method Parse() returns (r: Result<()>)
      requires lexer.Valid()
      modifies this`table, lexer`cursor
      ensures lexer.Valid()
      ensures Declares(r, Program(lexer.tokens, old(lexer.cursor), old(table)), table, lexer.cursor)
    {
      var first := lexer.NextToken();
      var second := lexer.NextToken();
      if first.None? || second.None? {
        return Err(Missing);
      }
      var programToken, idToken := first.value, second.value;
      if programToken.lexeme != "program" || idToken.kind != Identifier || !IsValidIdentifier(idToken.lexeme) {
        return Err(Syntax(idToken.kind, programToken.lexeme + "or " + idToken.lexeme));
      }
      r := ParseVarDecs();
      if r.Err? {
        return;
      }
      var body := ParseStatements();
      if body.Err? {
        return Err(body.error);
      }
      return Ok(());
    }
  }

}
