/** What the scan of tokenizer.py guarantees about its output, and how the
    character classes decide each token. */
module LexerProofs {
  import opened CharClass
  import opened Lexer

  /** Every token the scan produces has its kind's shape: a non-empty lexeme,
      keywords from `KEYWORDS`, symbols from `LITERALS`, digit-only numbers,
      three-character char constants. */
  lemma {:induction false} LexWellFormed(s: string)
    ensures forall t :: t in Lex(s).tokens ==> WellFormed(t) && |t.lexeme| > 0
    decreases |s|
  {
    if s != [] {
      match StepAt(s)
      case Skip => LexWellFormed(s[1..]);
      case Emit(t, n) => LexWellFormed(s[n..]);
      case Fail(_) =>
    }
  }

  /** Empty or blank input gives no tokens and no error. */
  lemma {:induction false} BlankLexesToNothing(s: string)
    requires forall k :: 0 <= k < |s| ==> IsSpace(s[k])
    ensures Lex(s) == Scan([], None)
    decreases |s|
  {
    if s != [] {
      BlankLexesToNothing(s[1..]);
    }
  }

  /** A word (starting with a letter or `_`) runs to the first stop character
      after its first character, or to the end; that stop character is left for
      the next step. It is a keyword exactly when it is one of `KEYWORDS`. */
  lemma WordRunsToStop(s: string, n: nat)
    requires 0 < n <= |s| && (IsLetter(s[0]) || s[0] == '_')
    requires forall k :: 0 < k < n ==> !IsStop(s[k])
    requires n < |s| ==> IsStop(s[n])
    ensures StepAt(s) == Emit(Token(if IsKeyword(s[..n]) then Keyword else Identifier, s[..n]), n)
  {
    RunLengthIs(s, n);
  }

  /** A number runs like a word and is an integer constant only when the whole
      run is digits; otherwise the run is the error. */
  lemma NumberRunsToStop(s: string, n: nat)
    requires 0 < n <= |s| && IsDigit(s[0])
    requires forall k :: 0 < k < n ==> !IsStop(s[k])
    requires n < |s| ==> IsStop(s[n])
    ensures AllDigits(s[..n]) ==> StepAt(s) == Emit(Token(IntConst, s[..n]), n)
    ensures !AllDigits(s[..n]) ==> StepAt(s) == Fail(Untokenizable(s[..n]))
  {
    RunLengthIs(s, n);
  }

  /** A quote starts a char constant: its first three characters are taken
      as a token exactly when they have the shape of one, and are the error
      otherwise; a quote too close to the end to look two characters ahead
      fails the look-ahead. */
  lemma CharConstantShape(s: string)
    requires |s| > 0 && s[0] == '"'
    ensures |s| < 3 ==> StepAt(s) == Fail(OutOfRange)
    ensures |s| >= 3 && WellFormed(Token(CharConst, s[..3])) ==> StepAt(s) == Emit(Token(CharConst, s[..3]), 3)
    ensures |s| >= 3 && !WellFormed(Token(CharConst, s[..3])) ==> StepAt(s) == Fail(Untokenizable(s[..3]))
  {
  }

  /** Anything else is a symbol, read as the longest literal that starts the
      text: a token is emitted exactly when some prefix is a literal, its
      lexeme is such a prefix, and no longer prefix is one. Otherwise the
      first character is the error. The second character must exist even
      when only the first is used. */
  lemma SymbolPrefersTwoCharacters(s: string)
    requires |s| > 0 && !IsSpace(s[0]) && !IsLetter(s[0]) && s[0] != '_' && !IsDigit(s[0]) && s[0] != '"'
    ensures |s| < 2 ==> StepAt(s) == Fail(OutOfRange)
    ensures |s| >= 2 ==> (StepAt(s).Emit? <==> exists m :: 0 < m <= |s| && IsLiteral(s[..m]))
    ensures |s| >= 2 && StepAt(s).Emit? ==> var n := StepAt(s).length;
      && 0 < n <= |s| && StepAt(s).token == Token(Symbol, s[..n]) && IsLiteral(s[..n])
      && forall m :: n < m <= |s| ==> !IsLiteral(s[..m])
    ensures |s| >= 2 && !StepAt(s).Emit? ==> StepAt(s) == Fail(Untokenizable([s[0]]))
  {
    if |s| >= 2 {
      assert s[..1] == [s[0]];
      if IsLiteral(s[..2]) {
        LongestLiteral(s, 2);
      } else if IsLiteral([s[0]]) {
        LongestLiteral(s, 1);
      }
      if exists m :: 0 < m <= |s| && IsLiteral(s[..m]) {
        var m :| 0 < m <= |s| && IsLiteral(s[..m]);
        assert m == 1 || m == 2;
      }
    }
  }

  /** The same outcomes of the symbol branch, case by case. */
  lemma SymbolCases(s: string)
    requires |s| >= 2 && !IsSpace(s[0]) && !IsLetter(s[0]) && s[0] != '_' && !IsDigit(s[0]) && s[0] != '"'
    ensures IsLiteral(s[..2]) ==> StepAt(s) == Emit(Token(Symbol, s[..2]), 2)
    ensures !IsLiteral(s[..2]) && IsLiteral([s[0]]) ==> StepAt(s) == Emit(Token(Symbol, [s[0]]), 1)
    ensures !IsLiteral(s[..2]) && !IsLiteral([s[0]]) ==> StepAt(s) == Fail(Untokenizable([s[0]]))
  {
    SymbolPrefersTwoCharacters(s);
    assert s[..1] == [s[0]];
  }

  /** A literal prefix that is not followed by a two-character one is the
      longest literal prefix, since literals have at most two characters. */
  lemma LongestLiteral(s: string, n: nat)
    requires 0 < n <= 2 <= |s| && (n == 1 ==> !IsLiteral(s[..2]))
    ensures forall m :: n < m <= |s| ==> !IsLiteral(s[..m])
  {
    forall m | n < m <= |s|
      ensures !IsLiteral(s[..m])
    {
      if m > 2 {
        assert |s[..m]| == m;
      }
    }
  }

  /** The symbol branch looks one character ahead before it matches, so a
      program whose last character is `;` fails, while the same program
      with a line break after the `;` lexes. */
  lemma FinalSymbolNeedsLookahead()
    ensures Lex(";") == Scan([], Some(OutOfRange))
    ensures Lex(";\n") == Scan([Token(Symbol, ";")], None)
  {
    var s := ";\n";
    BlankLexesToNothing(s[1..]);
    SymbolCases(s);
    assert s[..2] == ";\n";
  }

  /** The lexemes of a token list, one after the other. */
  function Concat(ts: seq<Token>): string {
    if ts == [] then [] else ts[0].lexeme + Concat(ts[1..])
  }

  /** The text with its whitespace characters dropped. */
  function Unblank(s: string): (r: string)
    ensures forall k :: 0 <= k < |r| ==> !IsSpace(r[k])
  {
    if s == [] then [] else (if IsSpace(s[0]) then [] else [s[0]]) + Unblank(s[1..])
  }

  /** Dropping whitespace distributes over concatenation. */
  lemma {:induction false} UnblankAppend(a: string, b: string)
    ensures Unblank(a + b) == Unblank(a) + Unblank(b)
  {
    if a == [] {
      assert a + b == b;
    } else {
      var head := if IsSpace(a[0]) then [] else [a[0]];
      assert (a + b)[0] == a[0] && (a + b)[1..] == a[1..] + b;
      UnblankAppend(a[1..], b);
      assert Unblank(a) == head + Unblank(a[1..]);
      assert head + (Unblank(a[1..]) + Unblank(b)) == (head + Unblank(a[1..])) + Unblank(b);
    }
  }

  /** The scan loses and invents no text but whitespace: apart from blanks,
      the lexemes it emits spell the start of the input in order, and all of
      it when the scan succeeds. */
  lemma {:induction false} LexKeepsText(s: string)
    ensures Unblank(Concat(Lex(s).tokens)) <= Unblank(s)
    ensures Lex(s).error == None ==> Unblank(Concat(Lex(s).tokens)) == Unblank(s)
    decreases |s|
  {
    if s != [] {
      match StepAt(s)
      case Skip =>
        LexKeepsText(s[1..]);
        UnblankSplit(s, 1);
      case Emit(t, n) =>
        LexKeepsText(s[n..]);
        KeepsTextStep(s, t, n, Lex(s[n..]).tokens);
      case Fail(_) =>
    }
  }

  /** One emitted lexeme in front of text the rest of the scan keeps. */
  lemma KeepsTextStep(s: string, t: Token, n: nat, rest: seq<Token>)
    requires 0 < n <= |s| && t.lexeme == s[..n]
    requires Unblank(Concat(rest)) <= Unblank(s[n..])
    ensures Unblank(Concat([t] + rest)) <= Unblank(s)
    ensures Unblank(Concat(rest)) == Unblank(s[n..]) ==> Unblank(Concat([t] + rest)) == Unblank(s)
  {
    assert Concat([t] + rest) == t.lexeme + Concat(rest) by {
      assert ([t] + rest)[1..] == rest;
    }
    UnblankAppend(t.lexeme, Concat(rest));
    UnblankSplit(s, n);
  }

  /** Dropping whitespace from the two halves of a text. */
  lemma UnblankSplit(s: string, n: nat)
    requires n <= |s|
    ensures Unblank(s) == Unblank(s[..n]) + Unblank(s[n..])
  {
    assert s == s[..n] + s[n..];
    UnblankAppend(s[..n], s[n..]);
  }

  /** Source text for a token list: every lexeme followed by one blank. */
  function Unlex(ts: seq<Token>): (s: string)
  {
    if ts == [] then [] else ts[0].lexeme + [' '] + Unlex(ts[1..])
  }

  /** The scan undoes `Unlex` on every list of well-formed tokens: each lexeme
      is read back as the same token, in the same order, with no error. */
  lemma {:induction false} LexUnlex(ts: seq<Token>)
    requires forall t :: t in ts ==> WellFormed(t)
    ensures Lex(Unlex(ts)) == Scan(ts, None)
  {
    if ts != [] {
      var t, rest := ts[0], Unlex(ts[1..]);
      var s := t.lexeme + [' '] + rest;
      StepOnLexeme(t, rest);
      BlankAfterLexeme(t.lexeme, rest);
      LexUnlex(ts[1..]);
      assert [t] + ts[1..] == ts;
    }
  }

  /** After a lexeme the scan meets the blank and skips it. */
  lemma BlankAfterLexeme(w: string, rest: string)
    ensures (w + [' '] + rest)[|w|..] == [' '] + rest
    ensures Lex([' '] + rest) == Lex(rest)
  {
    assert ([' '] + rest)[1..] == rest;
  }

  /** A well-formed token followed by a blank is scanned back as itself. */
  lemma StepOnLexeme(t: Token, rest: string)
    requires WellFormed(t)
    ensures StepAt(t.lexeme + [' '] + rest) == Emit(t, |t.lexeme|)
  {
    var w := t.lexeme;
    var s := w + [' '] + rest;
    assert s[..|w|] == w;
    match t.kind
    case Keyword =>
      assert forall k :: 0 < k < |w| ==> s[k] == w[k];
      RunLengthIs(s, |w|);
    case Identifier =>
      RunLengthIs(s, |w|);
    case IntConst =>
      assert forall k :: 0 < k < |w| ==> s[k] == w[k];
      RunLengthIs(s, |w|);
    case CharConst =>
    case Symbol =>
      LiteralShape(w);
      if |w| == 1 {
        assert s[..2] == [w[0], ' '];
      } else {
        assert s[..2] == w;
      }
  }

  /** No literal is a character followed by a blank, so a one-character
      symbol before a blank is read alone. */
  lemma LiteralShape(w: string)
    requires IsLiteral(w)
    ensures !IsLiteral([w[0], ' '])
  {
  }

}
