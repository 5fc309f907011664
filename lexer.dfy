/** The tokenizer of tokenizer.py: one left-to-right pass over the source text
    that appends `(kind, lexeme)` tokens, and the forward-only cursor through
    which the parser reads them.

    `Step` and `Lex` specify the scan on the part of the text not yet read;
    the class `Tokenizer` is the imperative scanner, proved against them. */
module Lexer {
  import opened Constants
  import opened CharClass

  datatype Option<T> = None | Some(value: T)

  datatype Kind = Keyword | Identifier | IntConst | CharConst | Symbol

  /** A token: its kind and the exact text it was made from. */
  datatype Token = Token(kind: Kind, lexeme: string)

  /** `TokenizeException(text)`, or the `IndexError` of the unchecked
      look-ahead past the end of the text. */
  datatype LexError = Untokenizable(text: string) | OutOfRange

  const LITERALS: seq<string> :=
    [":=", ",", ";", ")", "("] + ARITHMETIC_OP + BOOLEAN_OP + RELATIONAL_OP + UNARY_OP

  const KEYWORDS: seq<string> :=
    ["begin", "char", "do", "else", "end", "fi", "if", "int", "od",
     "print", "program", "then", "while"]

  /** `is_literal`: one of the symbols, each one or two characters of
      punctuation, so no literal starts like a word, a number, a character
      constant or a blank. */
  predicate IsLiteral(s: string)
    ensures IsLiteral(s) ==> 1 <= |s| <= 2 && !IsSpace(s[0]) && !IsWordChar(s[0]) && s[0] != '"'
  {
    s in LITERALS
  }

  /** `is_keyword`: one of the reserved words, each made of letters only. */
  predicate IsKeyword(s: string)
    ensures IsKeyword(s) ==> |s| > 0 && forall k :: 0 <= k < |s| ==> IsLetter(s[k])
  {
    s in KEYWORDS
  }

  /** A character at which `gather_chars` stops: whitespace, a one-character
      literal, or `:`. No letter, digit, `_` or `"` is one, so words,
      numbers and constants run on past them. */
  predicate IsStop(c: char)
    ensures IsStop(c) ==> !IsWordChar(c) && c != '"'
  {
    IsSpace(c) || IsLiteral([c]) || c == ':'
  }

  /** The shape every token the scanner emits has. */
  predicate WellFormed(t: Token) {
    var w := t.lexeme;
    match t.kind
    case Keyword => IsKeyword(w)
    case Identifier =>
      |w| > 0 && (IsLetter(w[0]) || w[0] == '_') && !IsKeyword(w) &&
      forall k :: 0 < k < |w| ==> !IsStop(w[k])
    case IntConst => AllDigits(w)
    case CharConst => |w| == 3 && w[0] == '"' && w[1] != '"' && w[2] == '"'
    case Symbol => IsLiteral(w)
  }

  /** The length of the run `gather_chars` collects from the start of `s`:
      the first character, then everything up to the first stop character. */
  function RunLength(s: string): (n: nat)
    requires |s| > 0
    ensures 0 < n <= |s|
    ensures forall k :: 0 < k < n ==> !IsStop(s[k])
    ensures n < |s| ==> IsStop(s[n])
  {
    if |s| > 1 && !IsStop(s[1]) then 1 + RunLength(s[1..]) else 1
  }

  /** What one pass of the `while i < end` loop does at the start of `s`. */
  datatype Step = Skip | Emit(token: Token, length: nat) | Fail(error: LexError) {
    /** How many characters the step reads (none when it fails). */
    function Length(): nat {
      match this
      case Skip => 1
      case Emit(_, n) => n
      case Fail(_) => 0
    }

    /** The tokens the step appends. */
    function Emitted(): seq<Token> {
      if Emit? then [token] else []
    }
  }

  function StepAt(s: string): (r: Step)
    requires |s| > 0
    ensures r.Skip? <==> IsSpace(s[0])
    ensures r.Emit? ==>
      0 < r.length <= |s| && r.token.lexeme == s[..r.length] && WellFormed(r.token)
  {
    var c := s[0];
    if IsSpace(c) then Skip
    else if IsLetter(c) || c == '_' then WordStep(s)
    else if IsDigit(c) then NumberStep(s)
    else if c == '"' then CharStep(s)
    else SymbolStep(s)
  }

  /** A word: a keyword when it is one of `KEYWORDS`, otherwise an identifier. */
  function WordStep(s: string): (r: Step)
    requires |s| > 0 && (IsLetter(s[0]) || s[0] == '_')
    ensures r.Emit? && r.length == RunLength(s)
  {
    var w := s[..RunLength(s)];
    Emit(Token(if IsKeyword(w) then Keyword else Identifier, w), |w|)
  }

  /** A number: the whole run must be digits. */
  function NumberStep(s: string): (r: Step)
    requires |s| > 0 && IsDigit(s[0])
    ensures r.Emit? || r.Fail?
  {
    var w := s[..RunLength(s)];
    if AllDigits(w) then Emit(Token(IntConst, w), |w|) else Fail(Untokenizable(w))
  }

  /** A character constant: exactly a quote, one character other than a
      quote, and a quote; both look-ahead characters must exist. */
  function CharStep(s: string): (r: Step)
    requires |s| > 0 && s[0] == '"'
    ensures r.Emit? || r.Fail?
  {
    if |s| < 3 then Fail(OutOfRange)
    else if s[1] != '"' && s[2] == '"' then Emit(Token(CharConst, s[..3]), 3)
    else Fail(Untokenizable(s[..3]))
  }

  /** A symbol: the two-character literal is tried before the one-character
      one; the second character must exist even when only the first is used. */
  function SymbolStep(s: string): (r: Step)
    requires |s| > 0
    ensures r.Emit? || r.Fail?
  {
    if |s| < 2 then Fail(OutOfRange)
    else if IsLiteral(s[..2]) then Emit(Token(Symbol, s[..2]), 2)
    else if IsLiteral([s[0]]) then Emit(Token(Symbol, [s[0]]), 1)
    else Fail(Untokenizable([s[0]]))
  }

  /** The tokens appended by a scan, and the error that stopped it, if any. */
  datatype Scan = Scan(tokens: seq<Token>, error: Option<LexError>)

  /** The scan of `s` from its first character to its end or its first error. */
  function Lex(s: string): (r: Scan)
    ensures |r.tokens| <= |s|
    decreases |s|
  {
    if s == [] then Scan([], None)
    else match StepAt(s)
      case Skip => Lex(s[1..])
      case Emit(t, n) => var rest := Lex(s[n..]); Scan([t] + rest.tokens, rest.error)
      case Fail(e) => Scan([], Some(e))
  }

  /** The scanner object: the source text, the token list it appends to, and
      the read cursor over that list. */
  class Tokenizer {
    const code: string
    var tokens: seq<Token>
    var cursor: nat

    /** The cursor never passes the end of the token list. */
    predicate Valid()
      reads this
    {
      cursor <= |tokens|
    }

    constructor (code: string)
      ensures this.code == code && tokens == [] && cursor == 0
      ensures Valid()
    {
      this.code := code;
      tokens := [];
      cursor := 0;
    }

    /** `gather_chars`: the run starting at `i`, and the index of its last
        character (so that the caller's `i += 1` lands on the stop character). */
    method GatherChars(i: nat) returns (word: string, last: nat)
      requires i < |code|
      ensures last + 1 == i + RunLength(code[i..])
      ensures word == code[i..last + 1]
    {
      word := [code[i]];
      var j := i + 1;
      while j < |code|
        invariant i < j <= |code|
        invariant word == code[i..j]
        invariant forall k :: i < k < j ==> !IsStop(code[k])
      {
        if IsStop(code[j]) {
          break;
        }
        word := word + [code[j]];
        j := j + 1;
      }
      last := j - 1;
      RunLengthIs(code[i..], j - i);
    }

    /** `tokenize`: appends the tokens of the whole text, stopping at the
        first error, which it returns. */
    method Tokenize() returns (error: Option<LexError>)
      modifies this`tokens
      ensures tokens == old(tokens) + Lex(code).tokens
      ensures error == Lex(code).error
    {
      var i := 0;
      var end := |code|;
      ghost var done: seq<Token> := [];
      ghost var total := Lex(code);
      assert code[0..] == code;
      while i < end
        invariant 0 <= i <= end
        invariant tokens == old(tokens) + done
        invariant total == Scan(done + Lex(code[i..]).tokens, Lex(code[i..]).error)
        decreases end - i
      {
        var next;
        ghost var step;
        next, error, step := ScanAt(i);
        if error.Some? {
          FailStop(code, i, done, total);
          return;
        }
        Advance(code, i, done, total, step, next);
        done := done + step.Emitted();
        i := next;
      }
      assert code[i..] == [];
      error := None;
    }

    /** One pass of the body of the `while i < end` loop of `tokenize`: the
        token (if any) that starts at `i` is appended, and the index at which
        the next pass starts is returned. */
    method ScanAt(i: nat) returns (next: nat, error: Option<LexError>, ghost step: Step)
      requires i < |code|
      modifies this`tokens
      ensures step == StepAt(code[i..])
      ensures error == (if step.Fail? then Some(step.error) else None)
      ensures next == i + step.Length()
      ensures tokens == old(tokens) + step.Emitted()
    {
      var end := |code|;
      var c := code[i];
      ghost var s := code[i..];
      assert s[0] == c;
      error := None;
      step := StepAt(s);
      if IsSpace(c) {
        return i + 1, None, step;
      }
      if IsLetter(c) || c == '_' {
        var word, last := GatherChars(i);
        assert word == s[..RunLength(s)];
        if IsKeyword(word) {
          tokens := tokens + [Token(Keyword, word)];
        } else {
          tokens := tokens + [Token(Identifier, word)];
        }
        next := last;
      } else if IsDigit(c) {
        var word, last := GatherChars(i);
        assert word == s[..RunLength(s)];
        if !AllDigits(word) {
          return i, Some(Untokenizable(word)), step;
        }
        tokens := tokens + [Token(IntConst, word)];
        next := last;
      } else if c == '"' {
        if i + 2 >= end {
          return i, Some(OutOfRange), step;
        }
        var word := [c, code[i + 1], code[i + 2]];
        assert word == s[..3];
        if code[i + 1] != '"' && code[i + 2] == '"' {
          tokens := tokens + [Token(CharConst, word)];
          next := i + 2;
        } else {
          return i, Some(Untokenizable(word)), step;
        }
      } else {
        if i + 1 >= end {
          return i, Some(OutOfRange), step;
        }
        var pair := [c, code[i + 1]];
        assert pair == s[..2];
        if IsLiteral(pair) {
          tokens := tokens + [Token(Symbol, pair)];
          next := i + 1;
        } else if IsLiteral([c]) {
          tokens := tokens + [Token(Symbol, [c])];
          next := i;
        } else {
          return i, Some(Untokenizable([c])), step;
        }
      }
      next := next + 1;
    }

    /** `get_next_token`: the token under the cursor, moving the cursor one
        place on; `None` stands for the `IndexError` past the end. */
    method NextToken() returns (t: Option<Token>)
      modifies this`cursor
      ensures old(cursor) < |tokens| ==> t == Some(tokens[old(cursor)]) && cursor == old(cursor) + 1
      ensures old(cursor) >= |tokens| ==> t == None && cursor == old(cursor)
    {
      if cursor < |tokens| {
        t := Some(tokens[cursor]);
        cursor := cursor + 1;
      } else {
        t := None;
      }
    }
  }

  /** The loop invariant of `Tokenize` survives a step that does not fail. */
  lemma Advance(code: string, i: nat, done: seq<Token>, total: Scan, step: Step, j: nat)
    requires i < |code| && step == StepAt(code[i..]) && !step.Fail?
    requires j == i + step.Length()
    requires total == Scan(done + Lex(code[i..]).tokens, Lex(code[i..]).error)
    ensures j <= |code|
    ensures total == Scan((done + step.Emitted()) + Lex(code[j..]).tokens, Lex(code[j..]).error)
  {
    assert code[i..][step.Length()..] == code[j..];
    if step.Emit? {
      assert done + ([step.token] + Lex(code[j..]).tokens) == (done + [step.token]) + Lex(code[j..]).tokens;
    } else {
      assert done + [] == done;
    }
  }

  /** The loop invariant of `Tokenize` gives the result when a step fails. */
  lemma FailStop(code: string, i: nat, done: seq<Token>, total: Scan)
    requires i < |code| && StepAt(code[i..]).Fail?
    requires total == Scan(done + Lex(code[i..]).tokens, Lex(code[i..]).error)
    ensures total == Scan(done, Some(StepAt(code[i..]).error))
  {
    assert done + [] == done;
  }

  /** `RunLength` is determined by where the first stop character after the
      first position is. */
  lemma {:induction false} RunLengthIs(s: string, n: nat)
    requires 0 < n <= |s|
    requires forall k :: 0 < k < n ==> !IsStop(s[k])
    requires n < |s| ==> IsStop(s[n])
    ensures RunLength(s) == n
  {
    if n > 1 {
      RunLengthIs(s[1..], n - 1);
    }
  }

}
