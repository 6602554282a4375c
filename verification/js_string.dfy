/**
  The few JavaScript string primitives the page relies on, over Dafny strings
  (sequences of Unicode scalar values, so a JavaScript string holding a lone
  surrogate has no counterpart here):
  - `length`, which JavaScript counts in UTF-16 code units;
  - `trim`, which strips JavaScript white space and line terminators at both ends;
  - `startsWith`.
 */
module JsString {

  /** UTF-16 code units needed for one scalar value: two above the Basic Multilingual Plane. */
  function CodeUnits(c: char): nat {
    if c as int > 0xFFFF then 2 else 1
  }

  /** JavaScript's `s.length`: the number of UTF-16 code units of `s`. */
  function Length(s: string): (n: nat)
    ensures |s| <= n <= 2 * |s|
    ensures n == 0 <==> s == []
  {
    if s == [] then 0 else CodeUnits(s[0]) + Length(s[1..])
  }

  /** True when every character of `s` lies in the Basic Multilingual Plane. */
  predicate InBmp(s: string) {
    forall i :: 0 <= i < |s| ==> s[i] as int <= 0xFFFF
  }

  /** For text without astral characters, JavaScript's length is the character count. */
  lemma {:induction false} BmpLength(s: string)
    requires InBmp(s)
    ensures Length(s) == |s|
  {
    if s != [] {
      assert InBmp(s[1..]) by {
        forall i | 0 <= i < |s[1..]| ensures s[1..][i] as int <= 0xFFFF {
          assert s[1..][i] == s[i + 1];
        }
      }
      BmpLength(s[1..]);
    }
  }

  /**
    The characters `String.prototype.trim` removes: the ECMAScript WhiteSpace
    code points (tab, vertical tab, form feed, space, no-break space, the byte
    order mark and every Unicode space separator) and the LineTerminator code
    points (line feed, carriage return, line and paragraph separators).
   */
  predicate IsWhiteSpace(c: char) {
    var n := c as int;
    || n == 0x09 || n == 0x0A || n == 0x0B || n == 0x0C || n == 0x0D
    || n == 0x20 || n == 0xA0 || n == 0x1680
    || (0x2000 <= n <= 0x200A)
    || n == 0x2028 || n == 0x2029 || n == 0x202F || n == 0x205F
    || n == 0x3000 || n == 0xFEFF
  }

  /** True when `s` consists of white space only (the empty string included). */
  predicate IsBlank(s: string) {
    forall i :: 0 <= i < |s| ==> IsWhiteSpace(s[i])
  }

  /** Drops the leading white space of `s`: what is left is a suffix of `s`. */
  function TrimStart(s: string): (r: string)
    ensures |r| <= |s| && r == s[|s| - |r|..]
  {
    if s != [] && IsWhiteSpace(s[0]) then TrimStart(s[1..]) else s
  }

  /** Everything `TrimStart` drops is white space. */
  lemma {:induction false} TrimStartDropsWhiteSpace(s: string)
    ensures forall i :: 0 <= i < |s| - |TrimStart(s)| ==> IsWhiteSpace(s[i])
  {
    if s != [] && IsWhiteSpace(s[0]) {
      TrimStartDropsWhiteSpace(s[1..]);
      forall i | 1 <= i < |s| - |TrimStart(s)| ensures IsWhiteSpace(s[i]) {
        assert s[i] == s[1..][i - 1];
      }
    }
  }

  /** What `TrimStart` keeps does not start with white space. */
  lemma {:induction false} TrimStartKeepsNoWhiteSpaceFirst(s: string)
    ensures TrimStart(s) == [] || !IsWhiteSpace(TrimStart(s)[0])
  {
    if s != [] && IsWhiteSpace(s[0]) {
      TrimStartKeepsNoWhiteSpaceFirst(s[1..]);
    }
  }

  /** Drops the trailing white space of `s`: what is left is a prefix of `s`. */
  function TrimEnd(s: string): (r: string)
    ensures |r| <= |s| && r == s[..|r|]
  {
    if s != [] && IsWhiteSpace(s[|s| - 1]) then TrimEnd(s[..|s| - 1]) else s
  }

  /** Everything `TrimEnd` drops is white space. */
  lemma {:induction false} TrimEndDropsWhiteSpace(s: string)
    ensures forall i :: |TrimEnd(s)| <= i < |s| ==> IsWhiteSpace(s[i])
  {
    if s != [] && IsWhiteSpace(s[|s| - 1]) {
      TrimEndDropsWhiteSpace(s[..|s| - 1]);
      forall i | |TrimEnd(s)| <= i < |s| - 1 ensures IsWhiteSpace(s[i]) {
        assert s[i] == s[..|s| - 1][i];
      }
    }
  }

  /** What `TrimEnd` keeps does not end with white space. */
  lemma {:induction false} TrimEndKeepsNoWhiteSpaceLast(s: string)
    ensures TrimEnd(s) == [] || !IsWhiteSpace(TrimEnd(s)[|TrimEnd(s)| - 1])
  {
    if s != [] && IsWhiteSpace(s[|s| - 1]) {
      TrimEndKeepsNoWhiteSpaceLast(s[..|s| - 1]);
    }
  }

  /** True when `r` occurs in `s` starting at index `i`. */
  predicate InfixAt(r: string, s: string, i: int) {
    0 <= i && i + |r| <= |s| && s[i..i + |r|] == r
  }

  /** True when `r` occurs in `s` at index `i` with nothing but white space before and after it. */
  predicate BetweenBlanks(r: string, s: string, i: int) {
    InfixAt(r, s, i) && IsBlank(s[..i]) && IsBlank(s[i + |r|..])
  }

  /**
    JavaScript's `s.trim()`: the piece of `s` left once the white space
    before and after it is removed, with no white space at either of its
    own ends, and empty exactly when `s` is all white space.
   */
  function Trim(s: string): (r: string)
    ensures exists i :: BetweenBlanks(r, s, i)
    ensures r == [] || (!IsWhiteSpace(r[0]) && !IsWhiteSpace(r[|r| - 1]))
    ensures r == [] <==> IsBlank(s)
  {
    TrimFacts(s);
    TrimEnd(TrimStart(s))
  }

  /** What `Trim` promises, about its body. */
  lemma TrimFacts(s: string)
    ensures BetweenBlanks(TrimEnd(TrimStart(s)), s, |s| - |TrimStart(s)|)
    ensures var r := TrimEnd(TrimStart(s));
      r == [] || (!IsWhiteSpace(r[0]) && !IsWhiteSpace(r[|r| - 1]))
    ensures TrimEnd(TrimStart(s)) == [] <==> IsBlank(s)
  {
    TrimRemovesOnlyWhiteSpace(s);
    TrimEnds(s);
    TrimEmptyIffBlank(s);
  }

  /** Trimming keeps the contiguous piece of `s` that starts after the dropped leading white space. */
  lemma TrimIsInfix(s: string)
    ensures InfixAt(TrimEnd(TrimStart(s)), s, |s| - |TrimStart(s)|)
  {
    var t := TrimStart(s);
    var r := TrimEnd(t);
    var k := |s| - |t|;
    assert t == s[k..];
    assert r == t[..|r|];
    PrefixOfSuffix(s, k, |r|);
  }

  /** Everything trimming removes, before and after the kept piece, is white space. */
  lemma TrimRemovesOnlyWhiteSpace(s: string)
    ensures BetweenBlanks(TrimEnd(TrimStart(s)), s, |s| - |TrimStart(s)|)
  {
    var t := TrimStart(s);
    var r := TrimEnd(t);
    var i := |s| - |t|;
    TrimIsInfix(s);
    TrimStartDropsWhiteSpace(s);
    TrimEndDropsWhiteSpace(t);
    var before, after := s[..i], s[i + |r|..];
    forall j | 0 <= j < |before| ensures IsWhiteSpace(before[j]) {
      assert before[j] == s[j];
    }
    forall j | 0 <= j < |after| ensures IsWhiteSpace(after[j]) {
      assert after[j] == t[|r| + j];
    }
  }

  /**
    `Trim`'s contract pins its result down: any piece of `s` with only white
    space around it and none at its own ends is `Trim(s)`.
   */
  lemma TrimUnique(s: string, r: string, i: int)
    requires BetweenBlanks(r, s, i)
    requires r == [] || (!IsWhiteSpace(r[0]) && !IsWhiteSpace(r[|r| - 1]))
    ensures r == Trim(s)
  {
    TrimFacts(s);
    BetweenBlanksUnique(s, r, i, TrimEnd(TrimStart(s)), |s| - |TrimStart(s)|);
  }

  /** A string has at most one piece with only white space around it and none at its own ends. */
  lemma BetweenBlanksUnique(s: string, r: string, i: int, q: string, k: int)
    requires BetweenBlanks(r, s, i) && (r == [] || (!IsWhiteSpace(r[0]) && !IsWhiteSpace(r[|r| - 1])))
    requires BetweenBlanks(q, s, k) && (q == [] || (!IsWhiteSpace(q[0]) && !IsWhiteSpace(q[|q| - 1])))
    ensures r == q
  {
    if r == [] || q == [] {
      if r == [] {
        BlankAroundNothing(s, i);
      } else {
        BlankAroundNothing(s, k);
      }
    } else {
      SameStart(s, r, i, q, k);
      SameEnd(s, r, i, q, k);
    }
  }

  /** When only white space surrounds an empty piece, the whole string is white space. */
  lemma BlankAroundNothing(s: string, i: int)
    requires BetweenBlanks([], s, i)
    ensures IsBlank(s)
  {
    var before, after := s[..i], s[i..];
    forall j | 0 <= j < |s| ensures IsWhiteSpace(s[j]) {
      if j < i {
        assert s[j] == before[j];
      } else {
        assert s[j] == after[j - i];
      }
    }
  }

  /** Two non-empty pieces with only white space before them, each starting with a non-white character, start at the same index. */
  lemma SameStart(s: string, r: string, i: int, q: string, k: int)
    requires BetweenBlanks(r, s, i) && r != [] && !IsWhiteSpace(r[0])
    requires BetweenBlanks(q, s, k) && q != [] && !IsWhiteSpace(q[0])
    ensures i == k
  {
    assert r[0] == s[i];
    assert q[0] == s[k];
  }

  /** Two non-empty pieces with only white space after them, each ending with a non-white character, end at the same index. */
  lemma SameEnd(s: string, r: string, i: int, q: string, k: int)
    requires BetweenBlanks(r, s, i) && r != [] && !IsWhiteSpace(r[|r| - 1])
    requires BetweenBlanks(q, s, k) && q != [] && !IsWhiteSpace(q[|q| - 1])
    ensures i + |r| == k + |q|
  {
    assert r[|r| - 1] == s[i + |r| - 1];
    assert q[|q| - 1] == s[k + |q| - 1];
  }

  /** Trimming leaves no white space at either end. */
  lemma TrimEnds(s: string)
    ensures var r := TrimEnd(TrimStart(s));
      r == [] || (!IsWhiteSpace(r[0]) && !IsWhiteSpace(r[|r| - 1]))
  {
    var t := TrimStart(s);
    var r := TrimEnd(t);
    TrimStartKeepsNoWhiteSpaceFirst(s);
    TrimEndKeepsNoWhiteSpaceLast(t);
    if r != [] {
      assert r[0] == t[0];
    }
  }

  /** The first `n` elements of the suffix of `s` from `k` are `s[k..k + n]`. */
  lemma PrefixOfSuffix(s: string, k: nat, n: nat)
    requires k + n <= |s|
    ensures s[k..][..n] == s[k..k + n]
  {
  }

  /** `s.trim()` is empty exactly when `s` is all white space. */
  lemma TrimEmptyIffBlank(s: string)
    ensures TrimEnd(TrimStart(s)) == [] <==> IsBlank(s)
  {
    TrimStartEmptyIffBlank(s);
    TrimStartKeepsNoWhiteSpaceFirst(s);
    TrimEndEmptyIffEmpty(TrimStart(s));
  }

  /** Dropping leading white space leaves nothing exactly when `s` is all white space. */
  lemma TrimStartEmptyIffBlank(s: string)
    ensures TrimStart(s) == [] <==> IsBlank(s)
  {
    var t := TrimStart(s);
    TrimStartDropsWhiteSpace(s);
    TrimStartKeepsNoWhiteSpaceFirst(s);
    if t != [] {
      assert t[0] == s[|s| - |t|];
    }
  }

  /** Dropping trailing white space from a string that does not start with it leaves something. */
  lemma TrimEndEmptyIffEmpty(t: string)
    requires t == [] || !IsWhiteSpace(t[0])
    ensures TrimEnd(t) == [] <==> t == []
  {
    TrimEndDropsWhiteSpace(t);
  }

  /** JavaScript's `s.startsWith(p)`: `s` is `p` followed by some rest. */
  predicate StartsWith(s: string, p: string)
    ensures StartsWith(s, p) <==> exists rest :: s == p + rest
  {
    assert |p| <= |s| && s[..|p|] == p ==> s == p + s[|p|..];
    |p| <= |s| && s[..|p|] == p
  }
}
