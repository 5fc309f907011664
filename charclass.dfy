/** The ASCII part of the string predicates the source borrows from Python
    (`str.isspace`, `str.isalpha`, `str.isdigit`, `str.isalnum`, `in` on
    strings). */
module CharClass {

  /** `c.isspace()` for ASCII: tab, line feed, vertical tab, form feed,
      carriage return, the four separators 0x1C-0x1F, and space. */
  predicate IsSpace(c: char) {
    ('\t' <= c <= '\r') || ('\U{1C}' <= c <= '\U{1F}') || c == ' '
  }

  /** `c.isalpha()` for ASCII. */
  predicate IsLetter(c: char) {
    ('a' <= c <= 'z') || ('A' <= c <= 'Z')
  }

  /** `c.isdigit()` for ASCII. */
  predicate IsDigit(c: char) {
    '0' <= c <= '9'
  }

  /** `s.isdigit()`: non-empty and every character a digit. */
  predicate AllDigits(s: string) {
    |s| > 0 && forall k :: 0 <= k < |s| ==> IsDigit(s[k])
  }

  /** `s.isalnum()`: non-empty and every character a letter or a digit. */
  predicate AllAlnum(s: string) {
    |s| > 0 && forall k :: 0 <= k < |s| ==> IsLetter(s[k]) || IsDigit(s[k])
  }

  /** A letter, a digit or `_`. */
  predicate IsWordChar(c: char) {
    IsLetter(c) || IsDigit(c) || c == '_'
  }

  /** `s.replace("_", "")`: the characters of `s` other than `_`, in order. */
  function RemoveUnderscores(s: string): (r: string)
    ensures forall c :: c in r <==> c in s && c != '_'
  {
    if s == [] then []
    else (if s[0] == '_' then [] else [s[0]]) + RemoveUnderscores(s[1..])
  }

  /** Removing the underscores leaves only letters and digits exactly when
      the string held only letters, digits and underscores. */
  lemma {:induction false} RemoveUnderscoresAlnum(s: string)
    ensures (forall c :: c in RemoveUnderscores(s) ==> IsLetter(c) || IsDigit(c))
        <==> (forall k :: 0 <= k < |s| ==> IsWordChar(s[k]))
  {
    if forall k :: 0 <= k < |s| ==> IsWordChar(s[k]) {
      forall c | c in RemoveUnderscores(s) ensures IsLetter(c) || IsDigit(c) {
        var k :| 0 <= k < |s| && s[k] == c;
      }
    }
  }

  /** `sub` sits in `s` at offset `k`. */
  predicate OccursAt(s: string, sub: string, k: int) {
    0 <= k && k + |sub| <= |s| && s[k..k + |sub|] == sub
  }

  /** An occurrence is either at offset 0 or an occurrence in the tail. */
  lemma OccursShift(s: string, sub: string)
    ensures (exists k :: OccursAt(s, sub, k))
        <==> OccursAt(s, sub, 0) || (|s| > 0 && exists k :: OccursAt(s[1..], sub, k))
  {
    if exists k :: OccursAt(s, sub, k) {
      var k :| OccursAt(s, sub, k);
      if k != 0 {
        assert s[1..][k - 1..k - 1 + |sub|] == s[k..k + |sub|];
        assert OccursAt(s[1..], sub, k - 1);
      }
    }
    if |s| > 0 && exists k :: OccursAt(s[1..], sub, k) {
      var k :| OccursAt(s[1..], sub, k);
      assert s[k + 1..k + 1 + |sub|] == s[1..][k..k + |sub|];
      assert OccursAt(s, sub, k + 1);
    }
  }

  /** `sub in s` for strings: `sub` occurs as a contiguous piece of `s`,
      looked for from the left. */
  predicate Contains(s: string, sub: string)
    ensures Contains(s, sub) <==> exists k :: OccursAt(s, sub, k)
    decreases |s|
  {
    OccursShift(s, sub);
    |sub| <= |s| && (s[..|sub|] == sub || (|s| > 0 && Contains(s[1..], sub)))
  }

  /** `any(op in s for op in ops)`: one of `ops` occurs in `s`, tried in order. */
  predicate ContainsAny(s: string, ops: seq<string>)
    ensures ContainsAny(s, ops) <==> exists i :: 0 <= i < |ops| && Contains(s, ops[i])
  {
    |ops| > 0 && (Contains(s, ops[0]) || ContainsAny(s, ops[1..]))
  }

  /** The one-character text `[c]` occurs exactly where `c` does. */
  lemma CharInText(s: string, c: char)
    ensures Contains(s, [c]) <==> exists k :: 0 <= k < |s| && s[k] == c
  {
    if exists k :: 0 <= k < |s| && s[k] == c {
      var k :| 0 <= k < |s| && s[k] == c;
      assert s[k..k + 1] == [c];
      assert OccursAt(s, [c], k);
    }
    if exists k :: OccursAt(s, [c], k) {
      var k :| OccursAt(s, [c], k);
      assert s[k] == s[k..k + 1][0];
    }
  }

  /** Where a non-empty text occurs, its first character occurs. */
  lemma FirstCharInText(s: string, sub: string)
    requires |sub| > 0 && Contains(s, sub)
    ensures exists k :: 0 <= k < |s| && s[k] == sub[0]
  {
    var k :| OccursAt(s, sub, k);
    assert s[k] == s[k..k + |sub|][0];
  }

}
