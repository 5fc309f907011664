/** Inputs worked through the scan of tokenizer.py. */
module LexerExamples {
  import opened CharClass
  import opened Lexer
  import opened LexerProofs

  /** A step that emits a token puts it in front of the scan of the rest. */
  lemma LexEmits(s: string, t: Token, n: nat)
    requires |s| > 0 && StepAt(s) == Emit(t, n)
    ensures Lex(s) == Scan([t] + Lex(s[n..]).tokens, Lex(s[n..]).error)
  {
  }

  /** The tokens of `num:=4+4;` up to, not including, the final `;`. */
  const ASSIGNMENT: seq<Token> := [Token(Identifier, "num"), Token(Symbol, ":="), Token(IntConst, "4"),
    Token(Symbol, "+"), Token(IntConst, "4")]

  /** `num:=4+4;` followed by a line break: the word stops at `:`, `:=` is
      taken whole, and the six tokens come out with no error. */
  lemma AssignmentLine()
    ensures Lex("num:=4+4;\n") == Scan(ASSIGNMENT + [Token(Symbol, ";")], None)
  {
    assert "num:=4+4;\n" == "num:=4+4" + ";\n";
    FinalSymbolNeedsLookahead();
    AssignmentPrefix(";\n");
  }

  /** Without the line break the scan appends the first five tokens and
      then fails on the look-ahead after the final `;`. */
  lemma AssignmentAtEnd()
    ensures Lex("num:=4+4;") == Scan(ASSIGNMENT, Some(OutOfRange))
  {
    assert "num:=4+4;" == "num:=4+4" + ";";
    FinalSymbolNeedsLookahead();
    AssignmentPrefix(";");
  }

  /** `num:=4+4` followed by text starting with `;` scans as the five tokens
      followed by the scan of that text. */
  lemma AssignmentPrefix(tail: string)
    requires |tail| > 0 && tail[0] == ';'
    ensures Lex("num:=4+4" + tail) == Scan(ASSIGNMENT + Lex(tail).tokens, Lex(tail).error)
  {
    var sum := SumPrefix(tail);
    var k4 := [Token(Symbol, ":=")] + sum;
    AssignFront("4" + ("+" + ("4" + tail)), sum, tail);
    NumFront(":=" + ("4" + ("+" + ("4" + tail))), k4, tail);
    FiveInFront(Token(Identifier, "num"), Token(Symbol, ":="), Token(IntConst, "4"), Token(Symbol, "+"),
      Token(IntConst, "4"));
    AssignmentText(tail);
  }

  /** `4+4` followed by text starting with `;`: the tokens `4`, `+`, `4`,
      put in front one by one, then the scan of that text. */
  lemma SumPrefix(tail: string) returns (sum: seq<Token>)
    requires |tail| > 0 && tail[0] == ';'
    ensures sum == [Token(IntConst, "4")] + ([Token(Symbol, "+")] + ([Token(IntConst, "4")] + []))
    ensures Lex("4" + ("+" + ("4" + tail))) == Scan(sum + Lex(tail).tokens, Lex(tail).error)
  {
    var four, plus := Token(IntConst, "4"), Token(Symbol, "+");
    var k0: seq<Token> := [];
    assert k0 + Lex(tail).tokens == Lex(tail).tokens;
    DigitFront(tail, k0, tail);
    var k1 := [four] + k0;
    PlusFront("4" + tail, k1, tail);
    var k2 := [plus] + k1;
    DigitFront("+" + ("4" + tail), k2, tail);
    sum := [four] + k2;
  }

  /** The text `num:=4+4` taken apart the way the scan reads it. */
  lemma AssignmentText(tail: string)
    ensures "num" + (":=" + ("4" + ("+" + ("4" + tail)))) == "num:=4+4" + tail
  {
  }

  /** Five tokens put in front of nothing, one by one. */
  lemma FiveInFront(a: Token, b: Token, c: Token, d: Token, e: Token)
    ensures [a] + ([b] + ([c] + ([d] + ([e] + [])))) == [a, b, c, d, e]
  {
  }

  /** A step that emits the token made of `x` puts it in front of tokens
      already known to come after `x`. */
  lemma LexFront(x: string, s: string, t: Token, known: seq<Token>, tail: string)
    requires |x| > 0 && StepAt(x + s) == Emit(t, |x|)
    requires Lex(s) == Scan(known + Lex(tail).tokens, Lex(tail).error)
    ensures Lex(x + s) == Scan(([t] + known) + Lex(tail).tokens, Lex(tail).error)
  {
    assert (x + s)[|x|..] == s;
    LexEmits(x + s, t, |x|);
    assert [t] + (known + Lex(tail).tokens) == ([t] + known) + Lex(tail).tokens;
  }

  /** `4` before a stop character is the constant `4`. */
  lemma DigitFront(tail: string, known: seq<Token>, rest: string)
    requires |tail| > 0 && IsStop(tail[0])
    requires Lex(tail) == Scan(known + Lex(rest).tokens, Lex(rest).error)
    ensures Lex("4" + tail) == Scan([Token(IntConst, "4")] + known + Lex(rest).tokens, Lex(rest).error)
  {
    var s := "4" + tail;
    assert s[..1] == "4" && s[1] == tail[0];
    NumberRunsToStop(s, 1);
    LexFront("4", tail, Token(IntConst, "4"), known, rest);
  }

  /** `+` before `4` is the one-character symbol `+`. */
  lemma PlusFront(tail: string, known: seq<Token>, rest: string)
    requires |tail| > 0 && tail[0] == '4'
    requires Lex(tail) == Scan(known + Lex(rest).tokens, Lex(rest).error)
    ensures Lex("+" + tail) == Scan([Token(Symbol, "+")] + known + Lex(rest).tokens, Lex(rest).error)
  {
    var s := "+" + tail;
    assert s[..2] == "+4" && !IsLiteral("+4") && [s[0]] == "+";
    SymbolCases(s);
    LexFront("+", tail, Token(Symbol, "+"), known, rest);
  }

  /** `:=` is taken whole. */
  lemma AssignFront(tail: string, known: seq<Token>, rest: string)
    requires Lex(tail) == Scan(known + Lex(rest).tokens, Lex(rest).error)
    ensures Lex(":=" + tail) == Scan([Token(Symbol, ":=")] + known + Lex(rest).tokens, Lex(rest).error)
  {
    var s := ":=" + tail;
    assert s[..2] == ":=";
    SymbolCases(s);
    LexFront(":=", tail, Token(Symbol, ":="), known, rest);
  }

  /** `num` before `:` is the identifier `num`. */
  lemma NumFront(tail: string, known: seq<Token>, rest: string)
    requires |tail| > 0 && tail[0] == ':'
    requires Lex(tail) == Scan(known + Lex(rest).tokens, Lex(rest).error)
    ensures Lex("num" + tail) == Scan([Token(Identifier, "num")] + known + Lex(rest).tokens, Lex(rest).error)
  {
    var s := "num" + tail;
    assert s[..3] == "num" && s[3] == ':' && !IsKeyword("num");
    WordRunsToStop(s, 3);
    LexFront("num", tail, Token(Identifier, "num"), known, rest);
  }

  /** Characters outside the stop set, such as `.`, stay inside a word. */
  lemma DotStaysInWord()
    ensures StepAt("x.y;") == Emit(Token(Identifier, "x.y"), 3)
  {
    var s := "x.y;";
    assert forall k :: 0 < k < 3 ==> !IsStop(s[k]) by {
      assert s[1] == '.' && s[2] == 'y';
    }
    assert IsStop(s[3]) && s[..3] == "x.y";
    NotKeyword(s[..3], 1);
    WordRunsToStop(s, 3);
  }

  /** A word with a character other than a letter is not a keyword. */
  lemma NotKeyword(w: string, k: nat)
    requires k < |w| && !IsLetter(w[k])
    ensures !IsKeyword(w)
  {
  }

  /** `12ab` is one run that is not all digits, and the run is the error. */
  lemma DigitsThenLetters()
    ensures StepAt("12ab ") == Fail(Untokenizable("12ab"))
  {
    var s := "12ab ";
    assert forall k :: 0 < k < 4 ==> !IsStop(s[k]) by {
      assert s[1] == '2' && s[2] == 'a' && s[3] == 'b';
    }
    assert IsStop(s[4]) && s[..4] == "12ab" && !IsDigit(s[2]);
    NumberRunsToStop(s, 4);
  }

  /** A `:` not followed by `=` is not a literal. */
  lemma LoneColon()
    ensures StepAt(": ") == Fail(Untokenizable(":"))
  {
    var s := ": ";
    assert s[..2] == ": " && !IsLiteral(": ") && !IsLiteral([':']);
    SymbolCases(s);
  }

  /** The empty constant `""` and the two-character `"ab"` are both refused. */
  lemma BadCharConstants()
    ensures StepAt("\"\";") == Fail(Untokenizable("\"\";"))
    ensures StepAt("\"ab\"") == Fail(Untokenizable("\"ab"))
  {
    var e, ab := "\"\";", "\"ab\"";
    assert e[..3] == e;
    assert ab[..3] == "\"ab";
    CharConstantShape(e);
    CharConstantShape(ab);
  }
}
