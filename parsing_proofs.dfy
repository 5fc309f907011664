/** Properties of the parser specification in module Parsing. */
module ParsingProofs {
  import opened Constants
  import opened CharClass
  import opened Lexer
  import opened Parsing

  // ---------------------------------------------------------------------
  // Identifiers

  /** A word that starts with `_` is an IDENTIFIER to the tokenizer but is
      rejected by the parser. */
  lemma UnderscoreIdentifierRejected(s: string)
    requires |s| > 0 && s[0] == '_'
    ensures StepAt(s).Emit? && StepAt(s).token.kind == Identifier
    ensures !IsValidIdentifier(StepAt(s).token.lexeme)
  {
    var t := StepAt(s).token;
    assert t.lexeme[0] == '_';
  }

  // ---------------------------------------------------------------------
  // Expression types

  /** A character constant holding an operator character makes the text
      boolean, so `c := "<";` is refused for a `char` variable. */
  lemma OperatorCharConstantIsBool(x: char)
    requires IsBoolMark(x)
    ensures TypeOf(['"', x, '"']) == "bool"
    ensures !CheckMatchingTypes("char", ['"', x, '"'])
  {
    assert ['"', x, '"'][1] == x;
  }

  /** So the parser refuses `c := "<";` (any operator character in place of
      `<`) when `c` is declared `char`. */
  lemma OperatorCharConstantRefused(ts: seq<Token>, pos: nat, table: Table, x: char)
    requires pos + 3 < |ts| && !IsStatementWord(ts[pos].lexeme)
    requires IsValidIdentifier(ts[pos].lexeme) && ts[pos].lexeme in table && table[ts[pos].lexeme] == "char"
    requires ts[pos + 1].lexeme == ":=" && ts[pos + 2] == Token(CharConst, ['"', x, '"'])
    requires ts[pos + 3].lexeme == ";" && IsBoolMark(x)
    ensures Statements(ts, pos, table) == Failed(Semantic(WrongAssignType("char")))
  {
    OperatorCharConstantIsBool(x);
    assert Term(ts, pos + 2, table) == Done(['"', x, '"'], pos + 3);
    assert Expression(ts, pos + 2, table) == Done(['"', x, '"'], pos + 4);
    AssignmentTypeMustMatch(ts, pos, table);
  }

  // ---------------------------------------------------------------------
  // Errors in statements and terms

  /** The words that begin a statement of their own. */
  predicate IsStatementWord(w: string) {
    w in CLOSERS || w == "else" || w == "while" || w == "if" || w == "print"
  }

  /** An identifier-shaped word in statement position that is not declared
      raises the semantic error, never a syntax error; keywords such as
      `begin` or `then` are identifier-shaped too. */
  lemma UndeclaredStatement(ts: seq<Token>, pos: nat, table: Table)
    requires pos < |ts| && !IsStatementWord(ts[pos].lexeme)
    requires IsValidIdentifier(ts[pos].lexeme) && ts[pos].lexeme !in table
    ensures Statements(ts, pos, table) == Failed(Semantic(Undeclared(ts[pos].lexeme)))
  {
  }

  /** The same for an undeclared identifier used as a term. */
  lemma UndeclaredTerm(ts: seq<Token>, pos: nat, table: Table)
    requires pos < |ts| && ts[pos].kind != IntConst && ts[pos].kind != CharConst
    requires ts[pos].lexeme != "(" && ts[pos].lexeme !in UNARY_OP
    requires IsValidIdentifier(ts[pos].lexeme) && ts[pos].lexeme !in table
    ensures Term(ts, pos, table) == Failed(Semantic(Undeclared(ts[pos].lexeme)))
    ensures Expression(ts, pos, table) == Failed(Semantic(Undeclared(ts[pos].lexeme)))
  {
  }

  /** An `if` whose condition is not boolean raises the semantic error; with
      a boolean one, an error in the body is the statement's error. */
  lemma IfConditionMustBeBool(ts: seq<Token>, pos: nat, table: Table)
    requires pos < |ts| && ts[pos].lexeme == "if"
    requires Expression(ts, pos + 1, table).Done?
    ensures !CheckMatchingTypes("bool", Expression(ts, pos + 1, table).value)
        ==> Statements(ts, pos, table) == Failed(Semantic(IfNotBool))
    ensures var body := Statements(ts, Expression(ts, pos + 1, table).pos, table);
      (CheckMatchingTypes("bool", Expression(ts, pos + 1, table).value) && body.Failed?)
      ==> Statements(ts, pos, table) == body
  {
    assert Statement(ts, pos, table) == Conditional(ts, pos + 1, table, IfNotBool);
  }

  /** The same for `while`. */
  lemma WhileConditionMustBeBool(ts: seq<Token>, pos: nat, table: Table)
    requires pos < |ts| && ts[pos].lexeme == "while"
    requires Expression(ts, pos + 1, table).Done?
    ensures !CheckMatchingTypes("bool", Expression(ts, pos + 1, table).value)
        ==> Statements(ts, pos, table) == Failed(Semantic(WhileNotBool))
    ensures var body := Statements(ts, Expression(ts, pos + 1, table).pos, table);
      (CheckMatchingTypes("bool", Expression(ts, pos + 1, table).value) && body.Failed?)
      ==> Statements(ts, pos, table) == body
  {
    assert Statement(ts, pos, table) == Conditional(ts, pos + 1, table, WhileNotBool);
  }

  /** An assignment goes on with the next statement exactly when its right
      side has the declared type of the target, and otherwise raises the
      semantic error naming that type. */
  lemma AssignmentTypeMustMatch(ts: seq<Token>, pos: nat, table: Table)
    requires pos + 1 < |ts| && !IsStatementWord(ts[pos].lexeme)
    requires IsValidIdentifier(ts[pos].lexeme) && ts[pos].lexeme in table
    requires ts[pos + 1].lexeme == ":=" && Expression(ts, pos + 2, table).Done?
    ensures var declared, rhs := table[ts[pos].lexeme], Expression(ts, pos + 2, table);
      if TypeOf(rhs.value) == declared then Statements(ts, pos, table) == Statements(ts, rhs.pos, table)
      else Statements(ts, pos, table) == Failed(Semantic(WrongAssignType(declared)))
  {
  }

  /** `print` goes on with the next statement whatever the type of its
      expression. */
  lemma PrintIsNotTypeChecked(ts: seq<Token>, pos: nat, table: Table)
    requires pos < |ts| && ts[pos].lexeme == "print"
    requires Expression(ts, pos + 1, table).Done?
    ensures Statements(ts, pos, table) == Statements(ts, Expression(ts, pos + 1, table).pos, table)
  {
  }

  /** A token that cannot start a statement and is not identifier-shaped is
      the syntax error of that token. */
  lemma StatementRejectsOther(ts: seq<Token>, pos: nat, table: Table)
    requires pos < |ts| && !IsStatementWord(ts[pos].lexeme) && !IsValidIdentifier(ts[pos].lexeme)
    ensures Statements(ts, pos, table) == Failed(Syntax(ts[pos].kind, ts[pos].lexeme))
  {
  }

  /** A token that cannot start a term (not a constant, `(`, a unary operator
      or an identifier-shaped word) is the syntax error of that token. */
  lemma TermRejectsOther(ts: seq<Token>, pos: nat, table: Table)
    requires pos < |ts| && ts[pos].kind != IntConst && ts[pos].kind != CharConst
    requires ts[pos].lexeme != "(" && ts[pos].lexeme !in UNARY_OP && !IsValidIdentifier(ts[pos].lexeme)
    ensures Term(ts, pos, table) == Failed(Syntax(ts[pos].kind, ts[pos].lexeme))
    ensures Expression(ts, pos, table) == Failed(Syntax(ts[pos].kind, ts[pos].lexeme))
  {
  }

  /** After a term, a token that neither ends nor continues the expression is
      the syntax error of that token. */
  lemma ExpressionRejectsOther(ts: seq<Token>, pos: nat, table: Table, p: nat)
    requires Term(ts, pos, table).Done? && Term(ts, pos, table).pos == p && p < |ts|
    requires ts[p].lexeme !in TERMINATORS && ts[p].lexeme !in BINARY_OP
    ensures Expression(ts, pos, table) == Failed(Syntax(ts[p].kind, ts[p].lexeme))
  {
  }

  /** An assignment to a declared name without `:=` after it is the syntax
      error of the token found instead. */
  lemma AssignmentNeedsColonEquals(ts: seq<Token>, pos: nat, table: Table)
    requires pos + 1 < |ts| && !IsStatementWord(ts[pos].lexeme)
    requires IsValidIdentifier(ts[pos].lexeme) && ts[pos].lexeme in table
    requires ts[pos + 1].lexeme != ":="
    ensures Statements(ts, pos, table) == Failed(Syntax(ts[pos + 1].kind, ts[pos + 1].lexeme))
  {
  }

  // ---------------------------------------------------------------------
  // Where expressions and statement lists end

  /** An expression ends by reading one of `;`, `then`, `do`, `)`. */
  lemma {:induction false} ExpressionEndsAtTerminator(ts: seq<Token>, pos: nat, table: Table)
    requires Expression(ts, pos, table).Done?
    ensures ts[Expression(ts, pos, table).pos - 1].lexeme in TERMINATORS
    decreases |ts| - pos
  {
    ExpressionSplit(ts, pos, table);
    var p := Term(ts, pos, table).pos;
    if ts[p].lexeme !in TERMINATORS {
      ExpressionEndsAtTerminator(ts, p + 1, table);
    }
  }

  /** A statement list ends by reading one of `end`, `od`, `fi`. */
  lemma {:induction false} StatementsEndAtCloser(ts: seq<Token>, pos: nat, table: Table)
    requires Statements(ts, pos, table).Done?
    ensures ts[Statements(ts, pos, table).pos - 1].lexeme in CLOSERS
    decreases |ts| - pos
  {
    if ts[pos].lexeme in CLOSERS {
    } else if ts[pos].lexeme == "else" {
      StatementsEndAtCloser(ts, pos + 1, table);
    } else {
      StatementsEndAtCloser(ts, Statement(ts, pos, table).pos, table);
    }
  }

  // ---------------------------------------------------------------------
  // Declarations

  /** The type names a declaration can give. */
  predicate IsTypeName(s: string) {
    s == "int" || s == "char"
  }

  /** Offsets from `pos` and from `pos + 2` have the same parity. */
  lemma ParityShift(k: int, pos: int)
    ensures (k - pos) % 2 == (k - (pos + 2)) % 2
  {
  }

  /** Tokens `pos` up to, not including, `q` have the shape of a variable
      list: valid IDENTIFIER tokens at the even offsets, `,` at the odd
      offsets and `;` last. */
  predicate ListShape(ts: seq<Token>, pos: nat, q: nat) {
    && pos + 2 <= q <= |ts| && (q - pos) % 2 == 0 && ts[q - 1].lexeme == ";"
    && (forall k :: pos <= k < q - 1 && (k - pos) % 2 == 1 ==> ts[k].lexeme == ",")
    && (forall k :: pos <= k < q && (k - pos) % 2 == 0 ==>
          ts[k].kind == Identifier && IsValidIdentifier(ts[k].lexeme))
  }

  /** A variable list is `IDENT (, IDENT)* ;`: valid IDENTIFIER tokens at the
      even offsets, `,` at the odd offsets and `;` last. */
  lemma {:induction false} VarListShape(ts: seq<Token>, pos: nat, table: Table, varType: string)
    requires VarList(ts, pos, table, varType).Done?
    ensures ListShape(ts, pos, VarList(ts, pos, table, varType).pos)
    decreases |ts| - pos
  {
    var table' := table[ts[pos].lexeme := varType];
    if ts[pos + 1].lexeme == "," {
      VarListShape(ts, pos + 2, table', varType);
      var q := VarList(ts, pos, table, varType).pos;
      ParityShift(q, pos);
      forall k | pos <= k < q - 1 && (k - pos) % 2 == 1
        ensures ts[k].lexeme == ","
      {
        ParityShift(k, pos);
      }
      forall k | pos <= k < q && (k - pos) % 2 == 0
        ensures ts[k].kind == Identifier && IsValidIdentifier(ts[k].lexeme)
      {
        ParityShift(k, pos);
      }
    }
  }

  /** Every token run of that shape is accepted as a variable list, and the
      list ends right after its `;`. */
  lemma {:induction false} VarListAccepts(ts: seq<Token>, pos: nat, q: nat, table: Table, varType: string)
    requires ListShape(ts, pos, q)
    ensures VarList(ts, pos, table, varType).Done? && VarList(ts, pos, table, varType).pos == q
    decreases q - pos
  {
    var table' := table[ts[pos].lexeme := varType];
    assert (pos - pos) % 2 == 0;
    if q == pos + 2 {
      assert ts[pos + 1].lexeme == ";";
    } else {
      assert (pos + 1 - pos) % 2 == 1;
      assert ts[pos + 1].lexeme == ",";
      ParityShift(q, pos);
      forall k | pos + 2 <= k < q - 1 && (k - (pos + 2)) % 2 == 1
        ensures ts[k].lexeme == ","
      {
        ParityShift(k, pos);
      }
      forall k | pos + 2 <= k < q && (k - (pos + 2)) % 2 == 0
        ensures ts[k].kind == Identifier && IsValidIdentifier(ts[k].lexeme)
      {
        ParityShift(k, pos);
      }
      VarListAccepts(ts, pos + 2, q, table', varType);
    }
  }

  /** A variable list enters its names with `varType`, overwriting earlier
      entries, and keeps every other entry. */
  lemma {:induction false} VarListTable(ts: seq<Token>, pos: nat, table: Table, varType: string)
    requires VarList(ts, pos, table, varType).Done?
    ensures var t := VarList(ts, pos, table, varType).value;
      && (forall x :: x in table ==> x in t)
      && (forall x :: x in t ==> t[x] == varType || (x in table && t[x] == table[x]))
    decreases |ts| - pos
  {
    var table' := table[ts[pos].lexeme := varType];
    if ts[pos + 1].lexeme == "," {
      VarListTable(ts, pos + 2, table', varType);
    }
  }

  /** Every name of a variable list ends up in the table with `varType`, and
      every new entry is one of those names. */
  lemma {:induction false} VarListNames(ts: seq<Token>, pos: nat, table: Table, varType: string)
    requires VarList(ts, pos, table, varType).Done?
    ensures var r := VarList(ts, pos, table, varType);
      && (forall k :: pos <= k < r.pos && (k - pos) % 2 == 0 ==>
            ts[k].lexeme in r.value && r.value[ts[k].lexeme] == varType)
      && (forall x :: x in r.value && x !in table ==>
            exists k :: pos <= k < r.pos && (k - pos) % 2 == 0 && ts[k].lexeme == x)
    decreases |ts| - pos
  {
    var table' := table[ts[pos].lexeme := varType];
    var r := VarList(ts, pos, table, varType);
    if ts[pos + 1].lexeme == "," {
      VarListNames(ts, pos + 2, table', varType);
      VarListTable(ts, pos + 2, table', varType);
      forall k | pos <= k < r.pos && (k - pos) % 2 == 0
        ensures ts[k].lexeme in r.value && r.value[ts[k].lexeme] == varType
      {
        if k != pos {
          ParityShift(k, pos);
        }
      }
      forall x | x in r.value && x !in table
        ensures exists k :: pos <= k < r.pos && (k - pos) % 2 == 0 && ts[k].lexeme == x
      {
        if x == ts[pos].lexeme {
          assert (pos - pos) % 2 == 0;
        } else {
          var k :| pos + 2 <= k < r.pos && (k - (pos + 2)) % 2 == 0 && ts[k].lexeme == x;
          ParityShift(k, pos);
        }
      }
    }
  }

  /** Declarations run up to `begin` and keep every table entry a type name;
      names declared before stay declared. */
  lemma {:induction false} DeclarationsKeepTypeNames(ts: seq<Token>, pos: nat, table: Table)
    requires forall x :: x in table ==> IsTypeName(table[x])
    requires VarDecs(ts, pos, table).Done?
    ensures var r := VarDecs(ts, pos, table);
      && ts[r.pos - 1].lexeme == "begin"
      && (forall x :: x in table ==> x in r.value)
      && (forall x :: x in r.value ==> IsTypeName(r.value[x]))
    decreases |ts| - pos
  {
    var t := ts[pos];
    if t.lexeme != "begin" {
      var list := VarList(ts, pos + 1, table, t.lexeme);
      VarListTable(ts, pos + 1, table, t.lexeme);
      DeclarationsKeepTypeNames(ts, list.pos, list.value);
    }
  }

  /** A variable list fails only with a syntax error or for want of tokens:
      it raises no semantic error. */
  lemma {:induction false} VarListNeverSemantic(ts: seq<Token>, pos: nat, table: Table, varType: string)
    ensures VarList(ts, pos, table, varType).Failed? ==> !VarList(ts, pos, table, varType).error.Semantic?
    decreases |ts| - pos
  {
    if pos + 1 < |ts| && ts[pos].kind == Identifier && IsValidIdentifier(ts[pos].lexeme)
      && ts[pos + 1].lexeme == ","
    {
      VarListNeverSemantic(ts, pos + 2, table[ts[pos].lexeme := varType], varType);
    }
  }

  /** Nor do declarations. */
  lemma {:induction false} VarDecsNeverSemantic(ts: seq<Token>, pos: nat, table: Table)
    ensures VarDecs(ts, pos, table).Failed? ==> !VarDecs(ts, pos, table).error.Semantic?
    decreases |ts| - pos
  {
    if pos < |ts| && (ts[pos].lexeme == "int" || ts[pos].lexeme == "char") {
      var list := VarList(ts, pos + 1, table, ts[pos].lexeme);
      VarListNeverSemantic(ts, pos + 1, table, ts[pos].lexeme);
      if list.Done? {
        VarDecsNeverSemantic(ts, list.pos, list.value);
      }
    }
  }

  /** `begin` straight away: no declarations, the table unchanged. */
  lemma BeginOnly(ts: seq<Token>, pos: nat, table: Table)
    requires pos < |ts| && ts[pos].lexeme == "begin"
    ensures VarDecs(ts, pos, table) == Done(table, pos + 1)
  {
  }

  /** `bounds` splits the tokens from `bounds[0]` into declarations: each
      bound but the last is an `int` or `char` token followed by a variable
      list that runs up to the next bound, and the last bound is `begin`. */
  predicate Declarations(ts: seq<Token>, bounds: seq<nat>) {
    && |bounds| > 0 && bounds[|bounds| - 1] < |ts| && ts[bounds[|bounds| - 1]].lexeme == "begin"
    && forall i :: 0 <= i < |bounds| - 1 ==>
         ListShape(ts, bounds[i] + 1, bounds[i + 1])
         && (ts[bounds[i]].lexeme == "int" || ts[bounds[i]].lexeme == "char")
  }

  /** Any run of `int`/`char` declarations followed by `begin`, none
      included, is accepted, and the declarations end right after `begin`. */
  lemma {:induction false} VarDecsAccepts(ts: seq<Token>, table: Table, bounds: seq<nat>)
    requires Declarations(ts, bounds)
    ensures VarDecs(ts, bounds[0], table).Done?
    ensures VarDecs(ts, bounds[0], table).pos == bounds[|bounds| - 1] + 1
    decreases |bounds|
  {
    var pos := bounds[0];
    if |bounds| > 1 {
      var t := ts[pos];
      VarListAccepts(ts, pos + 1, bounds[1], table, t.lexeme);
      var table' := VarList(ts, pos + 1, table, t.lexeme).value;
      DeclarationsTail(ts, bounds);
      VarDecsAccepts(ts, table', bounds[1..]);
    }
  }

  /** Conversely, declarations that are accepted have that shape. */
  lemma {:induction false} VarDecsShape(ts: seq<Token>, pos: nat, table: Table) returns (bounds: seq<nat>)
    requires VarDecs(ts, pos, table).Done?
    ensures Declarations(ts, bounds) && bounds[0] == pos
    ensures VarDecs(ts, pos, table).pos == bounds[|bounds| - 1] + 1
    decreases |ts| - pos
  {
    if ts[pos].lexeme == "begin" {
      bounds := [pos];
    } else {
      var list := VarList(ts, pos + 1, table, ts[pos].lexeme);
      VarListShape(ts, pos + 1, table, ts[pos].lexeme);
      var rest := VarDecsShape(ts, list.pos, list.value);
      DeclarationsCons(ts, pos, rest);
      bounds := [pos] + rest;
    }
  }

  /** The declarations after the first one. */
  lemma DeclarationsTail(ts: seq<Token>, bounds: seq<nat>)
    requires Declarations(ts, bounds) && |bounds| > 1
    ensures Declarations(ts, bounds[1..])
  {
    forall i | 0 <= i < |bounds[1..]| - 1
      ensures ListShape(ts, bounds[1..][i] + 1, bounds[1..][i + 1])
        && (ts[bounds[1..][i]].lexeme == "int" || ts[bounds[1..][i]].lexeme == "char")
    {
      assert bounds[1..][i] == bounds[i + 1] && bounds[1..][i + 1] == bounds[i + 2];
    }
  }

  /** One more declaration in front. */
  lemma DeclarationsCons(ts: seq<Token>, pos: nat, rest: seq<nat>)
    requires Declarations(ts, rest) && ListShape(ts, pos + 1, rest[0])
    requires ts[pos].lexeme == "int" || ts[pos].lexeme == "char"
    ensures Declarations(ts, [pos] + rest)
  {
    var bounds := [pos] + rest;
    forall i | 0 <= i < |bounds| - 1
      ensures ListShape(ts, bounds[i] + 1, bounds[i + 1])
        && (ts[bounds[i]].lexeme == "int" || ts[bounds[i]].lexeme == "char")
    {
      if i > 0 {
        assert bounds[i] == rest[i - 1] && bounds[i + 1] == rest[i];
      }
    }
  }

  /** `parse` fails with a syntax error naming both tokens unless the program
      starts with `program` and a valid IDENTIFIER. */
  lemma ProgramHeader(ts: seq<Token>, pos: nat, table: Table)
    ensures Program(ts, pos, table).Done? ==>
      pos + 1 < |ts| && ts[pos].lexeme == "program" && ts[pos + 1].kind == Identifier
      && IsValidIdentifier(ts[pos + 1].lexeme)
    ensures pos + 1 < |ts|
      && !(ts[pos].lexeme == "program" && ts[pos + 1].kind == Identifier && IsValidIdentifier(ts[pos + 1].lexeme))
      ==> Program(ts, pos, table) == Failed(Syntax(ts[pos + 1].kind, ts[pos].lexeme + "or " + ts[pos + 1].lexeme))
    ensures pos + 1 >= |ts| ==> Program(ts, pos, table) == Failed(Missing)
  {
  }

  /** The header `program NAME` with NAME a valid IDENTIFIER. */
  predicate GoodHeader(ts: seq<Token>, pos: nat) {
    pos + 1 < |ts| && ts[pos].lexeme == "program" && ts[pos + 1].kind == Identifier
    && IsValidIdentifier(ts[pos + 1].lexeme)
  }

  /** After a good header and declarations, the statement list decides:
      its success is the program's, with the declared table. */
  lemma ProgramFromParts(ts: seq<Token>, pos: nat, table: Table, declared: Table, q: nat, p: nat)
    requires GoodHeader(ts, pos) && VarDecs(ts, pos + 2, table) == Done(declared, q)
    requires Statements(ts, q, declared).Done? && Statements(ts, q, declared).pos == p
    ensures Program(ts, pos, table) == Done(declared, p)
  {
  }

  /** ... and its error is the program's. */
  lemma ProgramBodyFails(ts: seq<Token>, pos: nat, table: Table, declared: Table, q: nat, e: ParseError)
    requires GoodHeader(ts, pos) && VarDecs(ts, pos + 2, table) == Done(declared, q)
    requires Statements(ts, q, declared) == Failed(e)
    ensures Program(ts, pos, table) == Failed(e)
  {
  }

  /** A whole program, parsed from the empty table, ends at a closer and
      leaves a table of type names. */
  lemma ProgramTable(ts: seq<Token>)
    requires Program(ts, 0, map[]).Done?
    ensures var r := Program(ts, 0, map[]);
      ts[r.pos - 1].lexeme in CLOSERS && forall x :: x in r.value ==> IsTypeName(r.value[x])
  {
    var decs := VarDecs(ts, 2, map[]);
    DeclarationsKeepTypeNames(ts, 2, map[]);
    StatementsEndAtCloser(ts, decs.pos, decs.value);
  }

  // ---------------------------------------------------------------------
  // What a successful parse reads

  /** `ts'` holds the same tokens as `ts` from `lo` up to (not including) `hi`. */
  predicate SameOn(ts: seq<Token>, ts': seq<Token>, lo: nat, hi: nat) {
    lo <= hi <= |ts| && hi <= |ts'| && forall k :: lo <= k < hi ==> ts'[k] == ts[k]
  }

  /** Agreement on a range gives agreement on any range inside it. */
  lemma SameOnWithin(ts: seq<Token>, ts': seq<Token>, lo: nat, hi: nat, lo': nat, hi': nat)
    requires SameOn(ts, ts', lo, hi) && lo <= lo' <= hi' <= hi
    ensures SameOn(ts, ts', lo', hi')
  {
  }

  /** A term that succeeds reads only the tokens it consumes. */
  lemma {:induction false} TermLocal(ts: seq<Token>, ts': seq<Token>, pos: nat, table: Table)
    requires Term(ts, pos, table).Done? && SameOn(ts, ts', pos, Term(ts, pos, table).pos)
    ensures Term(ts', pos, table) == Term(ts, pos, table)
    decreases |ts| - pos, 0
  {
    var t := ts[pos];
    assert ts'[pos] == t;
    if t.kind != IntConst && t.kind != CharConst {
      if t.lexeme == "(" {
        ExpressionLocal(ts, ts', pos + 1, table);
      } else if t.lexeme in UNARY_OP {
        TermLocal(ts, ts', pos + 1, table);
      }
    }
  }

  /** An expression that succeeds reads only the tokens it consumes. */
  lemma {:induction false} ExpressionLocal(ts: seq<Token>, ts': seq<Token>, pos: nat, table: Table)
    requires Expression(ts, pos, table).Done? && SameOn(ts, ts', pos, Expression(ts, pos, table).pos)
    ensures Expression(ts', pos, table) == Expression(ts, pos, table)
    decreases |ts| - pos, 1
  {
    var r := Expression(ts, pos, table);
    ExpressionSplit(ts, pos, table);
    var p := Term(ts, pos, table).pos;
    SameOnWithin(ts, ts', pos, r.pos, pos, p);
    TermLocal(ts, ts', pos, table);
    assert ts'[p] == ts[p];
    if ts[p].lexeme !in TERMINATORS {
      SameOnWithin(ts, ts', pos, r.pos, p + 1, r.pos);
      ExpressionLocal(ts, ts', p + 1, table);
    }
    ExpressionSameParts(ts, ts', pos, table, p);
  }

  /** A successful expression is a term followed by a terminator, or by a
      binary operator and a successful expression that ends where it ends. */
  lemma ExpressionSplit(ts: seq<Token>, pos: nat, table: Table)
    requires Expression(ts, pos, table).Done?
    ensures Term(ts, pos, table).Done? && Term(ts, pos, table).pos < Expression(ts, pos, table).pos
    ensures var p := Term(ts, pos, table).pos;
      if ts[p].lexeme in TERMINATORS then Expression(ts, pos, table).pos == p + 1
      else (ts[p].lexeme in BINARY_OP && Expression(ts, p + 1, table).Done? &&
            Expression(ts, p + 1, table).pos == Expression(ts, pos, table).pos)
  {
  }

  /** Two token lists on which an expression's first term, the token after
      it and (after a binary operator) the rest of the expression agree give
      the same expression. */
  lemma ExpressionSameParts(ts: seq<Token>, ts': seq<Token>, pos: nat, table: Table, p: nat)
    requires Expression(ts, pos, table).Done? && Term(ts, pos, table).Done? && Term(ts, pos, table).pos == p
    requires Term(ts', pos, table) == Term(ts, pos, table)
    requires p < |ts| && p < |ts'| && ts'[p] == ts[p]
    requires ts[p].lexeme !in TERMINATORS ==> Expression(ts', p + 1, table) == Expression(ts, p + 1, table)
    ensures Expression(ts', pos, table) == Expression(ts, pos, table)
  {
    ExpressionSplit(ts, pos, table);
    if ts[p].lexeme in TERMINATORS {
      ExpressionTerminated(ts, pos, table, p);
      ExpressionTerminated(ts', pos, table, p);
    } else {
      ExpressionContinued(ts, pos, table, p);
      ExpressionContinued(ts', pos, table, p);
    }
  }

  /** A term followed by a terminator is a whole expression. */
  lemma ExpressionTerminated(ts: seq<Token>, pos: nat, table: Table, p: nat)
    requires Term(ts, pos, table).Done? && Term(ts, pos, table).pos == p
    requires p < |ts| && ts[p].lexeme in TERMINATORS
    ensures Expression(ts, pos, table) == Done(Term(ts, pos, table).value, p + 1)
  {
  }

  /** A term, a binary operator and an expression make an expression that
      ends where the inner one ends. */
  lemma ExpressionContinued(ts: seq<Token>, pos: nat, table: Table, p: nat)
    requires Term(ts, pos, table).Done? && Term(ts, pos, table).pos == p
    requires p < |ts| && ts[p].lexeme !in TERMINATORS && ts[p].lexeme in BINARY_OP
    requires Expression(ts, p + 1, table).Done?
    ensures Expression(ts, pos, table)
      == Done(Term(ts, pos, table).value + ts[p].lexeme + Expression(ts, p + 1, table).value, Expression(ts, p + 1, table).pos)
  {
  }

  /** An `if` or `while` that succeeds reads only the tokens it consumes. */
  lemma {:induction false} ConditionalLocal(ts: seq<Token>, ts': seq<Token>, pos: nat, table: Table, notBool: SemanticError)
    requires Conditional(ts, pos, table, notBool).Done?
    requires SameOn(ts, ts', pos, Conditional(ts, pos, table, notBool).pos)
    ensures Conditional(ts', pos, table, notBool) == Conditional(ts, pos, table, notBool)
    decreases |ts| - pos, 2
  {
    ExpressionLocal(ts, ts', pos, table);
    var q := Expression(ts, pos, table).pos;
    StatementsLocal(ts, ts', q, table);
    var p := Statements(ts, q, table).pos;
    assert ts'[p] == ts[p];
  }

  /** An assignment that succeeds reads only the tokens it consumes. */
  lemma {:induction false} AssignLocal(ts: seq<Token>, ts': seq<Token>, pos: nat, table: Table, declared: string)
    requires Assign(ts, pos, table, declared).Done?
    requires SameOn(ts, ts', pos, Assign(ts, pos, table, declared).pos)
    ensures Assign(ts', pos, table, declared) == Assign(ts, pos, table, declared)
    decreases |ts| - pos, 2
  {
    var end := Assign(ts, pos, table, declared).pos;
    AssignParts(ts, pos, table, declared);
    assert ts'[pos] == ts[pos];
    SameOnWithin(ts, ts', pos, end, pos + 1, end);
    ExpressionWithin(ts, ts', pos + 1, table, end);
    AssignFromParts(ts, pos, table, declared);
    AssignFromParts(ts', pos, table, declared);
  }

  /** An assignment that succeeds is `:=` and an expression of the declared
      type, and ends where the expression ends. */
  lemma AssignParts(ts: seq<Token>, pos: nat, table: Table, declared: string)
    requires Assign(ts, pos, table, declared).Done?
    ensures pos < |ts| && ts[pos].lexeme == ":="
    ensures Expression(ts, pos + 1, table).Done?
    ensures Expression(ts, pos + 1, table).pos == Assign(ts, pos, table, declared).pos
    ensures CheckMatchingTypes(declared, Expression(ts, pos + 1, table).value)
  {
  }

  /** Those parts make an assignment that succeeds. */
  lemma AssignFromParts(ts: seq<Token>, pos: nat, table: Table, declared: string)
    requires pos < |ts| && ts[pos].lexeme == ":=" && Expression(ts, pos + 1, table).Done?
    requires CheckMatchingTypes(declared, Expression(ts, pos + 1, table).value)
    ensures Assign(ts, pos, table, declared) == Done((), Expression(ts, pos + 1, table).pos)
  {
  }

  /** A statement that succeeds reads only the tokens it consumes. */
  lemma {:induction false} StatementLocal(ts: seq<Token>, ts': seq<Token>, pos: nat, table: Table)
    requires pos < |ts| && Statement(ts, pos, table).Done?
    requires SameOn(ts, ts', pos, Statement(ts, pos, table).pos)
    ensures Statement(ts', pos, table) == Statement(ts, pos, table)
    decreases |ts| - pos, 4
  {
    var t := ts[pos];
    assert ts'[pos] == t;
    if t.lexeme == "while" {
      ConditionalLocal(ts, ts', pos + 1, table, WhileNotBool);
    } else if t.lexeme == "if" {
      ConditionalLocal(ts, ts', pos + 1, table, IfNotBool);
    } else if t.lexeme == "print" {
      ExpressionLocal(ts, ts', pos + 1, table);
    } else {
      AssignLocal(ts, ts', pos + 1, table, table[t.lexeme]);
    }
  }

  /** A statement list that succeeds reads only the tokens it consumes. */
  lemma {:induction false} StatementsLocal(ts: seq<Token>, ts': seq<Token>, pos: nat, table: Table)
    requires Statements(ts, pos, table).Done? && SameOn(ts, ts', pos, Statements(ts, pos, table).pos)
    ensures Statements(ts', pos, table) == Statements(ts, pos, table)
    decreases |ts| - pos, 5
  {
    var t := ts[pos];
    assert ts'[pos] == t;
    if t.lexeme in CLOSERS {
    } else if t.lexeme == "else" {
      StatementsLocal(ts, ts', pos + 1, table);
    } else {
      StatementLocal(ts, ts', pos, table);
      StatementsLocal(ts, ts', Statement(ts, pos, table).pos, table);
    }
  }

  /** Declarations that succeed read only the tokens they consume. */
  lemma {:induction false} VarDecsLocal(ts: seq<Token>, ts': seq<Token>, pos: nat, table: Table)
    requires VarDecs(ts, pos, table).Done? && SameOn(ts, ts', pos, VarDecs(ts, pos, table).pos)
    ensures VarDecs(ts', pos, table) == VarDecs(ts, pos, table)
    decreases |ts| - pos
  {
    var t := ts[pos];
    assert ts'[pos] == t;
    if t.lexeme != "begin" {
      VarListLocal(ts, ts', pos + 1, table, t.lexeme);
      var list := VarList(ts, pos + 1, table, t.lexeme);
      VarDecsLocal(ts, ts', list.pos, list.value);
    }
  }

  /** A variable list that succeeds reads only the tokens it consumes. */
  lemma {:induction false} VarListLocal(ts: seq<Token>, ts': seq<Token>, pos: nat, table: Table, varType: string)
    requires VarList(ts, pos, table, varType).Done?
    requires SameOn(ts, ts', pos, VarList(ts, pos, table, varType).pos)
    ensures VarList(ts', pos, table, varType) == VarList(ts, pos, table, varType)
    decreases |ts| - pos
  {
    assert ts'[pos] == ts[pos] && ts'[pos + 1] == ts[pos + 1];
    if ts[pos + 1].lexeme == "," {
      VarListLocal(ts, ts', pos + 2, table[ts[pos].lexeme := varType], varType);
    }
  }

  /** `parse` reads nothing after the closer of the top-level statement
      list: any tokens may follow, or none. */
  lemma ProgramLocal(ts: seq<Token>, ts': seq<Token>, pos: nat, table: Table)
    requires Program(ts, pos, table).Done? && SameOn(ts, ts', pos, Program(ts, pos, table).pos)
    ensures Program(ts', pos, table) == Program(ts, pos, table)
  {
    assert ts'[pos] == ts[pos] && ts'[pos + 1] == ts[pos + 1];
    VarDecsLocal(ts, ts', pos + 2, table);
    var decs := VarDecs(ts, pos + 2, table);
    StatementsLocal(ts, ts', decs.pos, decs.value);
  }

  /** The closer is not matched to its opener: a statement list that ends
      with `end` at index `c` ends the same way with `od` or `fi` there. */
  lemma {:induction false} AnyCloserEnds(ts: seq<Token>, ts': seq<Token>, pos: nat, table: Table, c: nat)
    requires Statements(ts, pos, table).Done? && Statements(ts, pos, table).pos == c + 1
    requires SameOn(ts, ts', pos, c) && c < |ts'| && ts'[c].lexeme in CLOSERS
    ensures Statements(ts', pos, table) == Statements(ts, pos, table)
    decreases |ts| - pos
  {
    var t := ts[pos];
    if t.lexeme in CLOSERS {
      assert c == pos;
    } else {
      assert ts'[pos] == t;
      if t.lexeme == "else" {
        SameOnWithin(ts, ts', pos, c, pos + 1, c);
        AnyCloserEnds(ts, ts', pos + 1, table, c);
      } else {
        var q := Statement(ts, pos, table).pos;
        assert Statements(ts, pos, table) == Statements(ts, q, table);
        StatementsEndAtCloser(ts, q, table);
        SameOnWithin(ts, ts', pos, c, pos, q);
        StatementLocal(ts, ts', pos, table);
        SameOnWithin(ts, ts', pos, c, q, c);
        AnyCloserEnds(ts, ts', q, table, c);
      }
    }
  }

  /** A conditional that succeeds is a condition, a body that ends at a
      closer, and `;` right after the closer. */
  lemma ConditionalParts(ts: seq<Token>, pos: nat, table: Table, notBool: SemanticError)
    requires Conditional(ts, pos, table, notBool).Done?
    ensures var e := Expression(ts, pos, table);
      && e.Done? && CheckMatchingTypes("bool", e.value)
      && Statements(ts, e.pos, table).Done?
      && Statements(ts, e.pos, table).pos + 1 == Conditional(ts, pos, table, notBool).pos
      && ts[Statements(ts, e.pos, table).pos].lexeme == ";"
  {
  }

  /** Those parts make a conditional that succeeds; `c` is the closer's index. */
  lemma ConditionalFromParts(ts: seq<Token>, pos: nat, table: Table, notBool: SemanticError, c: nat)
    requires var e := Expression(ts, pos, table);
      && e.Done? && CheckMatchingTypes("bool", e.value)
      && Statements(ts, e.pos, table).Done? && Statements(ts, e.pos, table).pos == c + 1
      && c + 1 < |ts| && ts[c + 1].lexeme == ";"
    ensures Conditional(ts, pos, table, notBool) == Done((), c + 2)
  {
  }

  /** So `if c then ... fi;`, `if c then ... od;` and `if c then ... end;`
      parse alike, and so do the three forms of `while`: the closer at
      index `c` may be replaced by any other. */
  lemma IfClosedByAnyCloser(ts: seq<Token>, ts': seq<Token>, pos: nat, table: Table, notBool: SemanticError, c: nat)
    requires Conditional(ts, pos, table, notBool).Done? && Conditional(ts, pos, table, notBool).pos == c + 2
    requires SameOn(ts, ts', pos, c) && c + 1 < |ts'| && ts'[c].lexeme in CLOSERS && ts'[c + 1] == ts[c + 1]
    ensures Conditional(ts', pos, table, notBool) == Conditional(ts, pos, table, notBool)
  {
    ConditionalParts(ts, pos, table, notBool);
    ExpressionWithin(ts, ts', pos, table, c);
    BodyWithin(ts, ts', pos, Expression(ts, pos, table).pos, table, c);
    ConditionalFromParts(ts, pos, table, notBool, c);
    ConditionalFromParts(ts', pos, table, notBool, c);
  }

  /** An expression is unchanged on a token list that agrees with the
      original up to some index past the expression's end. */
  lemma ExpressionWithin(ts: seq<Token>, ts': seq<Token>, pos: nat, table: Table, hi: nat)
    requires Expression(ts, pos, table).Done? && Expression(ts, pos, table).pos <= hi
    requires SameOn(ts, ts', pos, hi)
    ensures Expression(ts', pos, table) == Expression(ts, pos, table)
  {
    SameOnWithin(ts, ts', pos, hi, pos, Expression(ts, pos, table).pos);
    ExpressionLocal(ts, ts', pos, table);
  }

  /** A statement list starting at `q` inside the agreeing range, and
      ending at the closer at index `c`, carries over too. */
  lemma BodyWithin(ts: seq<Token>, ts': seq<Token>, lo: nat, q: nat, table: Table, c: nat)
    requires lo <= q && Statements(ts, q, table).Done? && Statements(ts, q, table).pos == c + 1
    requires SameOn(ts, ts', lo, c) && c < |ts'| && ts'[c].lexeme in CLOSERS
    ensures Statements(ts', q, table) == Statements(ts, q, table)
  {
    SameOnWithin(ts, ts', lo, c, q, c);
    AnyCloserEnds(ts, ts', q, table, c);
  }
}
