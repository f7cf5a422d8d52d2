/**
 * Character classes, ASCII case mapping, trimming, substring search, line
 * splitting, token splitting and decimal numerals: the string operations that
 * the workout parser in src/app/write-workout/page.tsx takes from JavaScript
 * (`toLowerCase`, `trim`, `includes`, `split`, `parseInt`, template strings).
 */
module Text {

  // ---------------------------------------------------------------------------
  // Character classes
  // ---------------------------------------------------------------------------

  /** JavaScript's white space (the class `\s`, and what `trim` removes). */
  predicate IsSpace(c: char) {
    c == ' ' || c == '\t' || c == '\n' || c == '\U{B}' || c == '\U{C}' || c == '\r'
    || c == '\U{A0}' || c == '\U{1680}' || ('\U{2000}' <= c <= '\U{200A}')
    || c == '\U{2028}' || c == '\U{2029}' || c == '\U{202F}' || c == '\U{205F}'
    || c == '\U{3000}' || c == '\U{FEFF}'
  }

  /** The class `[+\s]` on which set lines are split into parts. */
  predicate IsSeparator(c: char) {
    IsSpace(c) || c == '+'
  }

  /** The class `\d`. */
  predicate IsDigit(c: char) {
    '0' <= c <= '9'
  }

  /** The repeat operators `[x×*]`. */
  predicate IsTimes(c: char) {
    c == 'x' || c == '\U{D7}' || c == '*'
  }

  predicate IsOpenBracket(c: char) {
    c == '(' || c == '[' || c == '{'
  }

  predicate IsCloseBracket(c: char) {
    c == ')' || c == ']' || c == '}'
  }

  predicate AllDigits(s: string) {
    forall i :: 0 <= i < |s| ==> IsDigit(s[i])
  }

  predicate AllSpaces(s: string) {
    forall i :: 0 <= i < |s| ==> IsSpace(s[i])
  }

  predicate NoSeparator(s: string) {
    forall i :: 0 <= i < |s| ==> !IsSeparator(s[i])
  }

  predicate HasDigit(s: string) {
    exists i :: 0 <= i < |s| && IsDigit(s[i])
  }

  /** A slice of a text without digits has no digits. */
  lemma DigitFreeSlice(s: string, i: nat, j: nat)
    requires i <= j <= |s| && !HasDigit(s)
    ensures !HasDigit(s[i..j])
  {
    forall k | 0 <= k < j - i
      ensures !IsDigit(s[i..j][k])
    {
      assert s[i..j][k] == s[i + k];
    }
  }

  /** Two texts without digits joined by a newline have no digits. */
  lemma DigitFreeJoin(a: string, b: string)
    requires !HasDigit(a) && !HasDigit(b)
    ensures !HasDigit(a + "\n" + b)
  {
    var s := a + "\n" + b;
    forall k | 0 <= k < |s|
      ensures !IsDigit(s[k])
    {
      if k > |a| { assert s[k] == b[k - |a| - 1]; }
    }
  }

  // ---------------------------------------------------------------------------
  // Case mapping (ASCII letters only)
  // ---------------------------------------------------------------------------

  function LowerChar(c: char): char {
    if 'A' <= c <= 'Z' then (c as int + 32) as char else c
  }

  function UpperChar(c: char): char {
    if 'a' <= c <= 'z' then (c as int - 32) as char else c
  }

  /** `toLowerCase`, restricted to ASCII letters. */
  function Lower(s: string): (r: string)
    ensures |r| == |s|
    ensures forall i :: 0 <= i < |s| ==> r[i] == LowerChar(s[i])
  {
    if s == [] then [] else [LowerChar(s[0])] + Lower(s[1..])
  }

  // ---------------------------------------------------------------------------
  // Trimming
  // ---------------------------------------------------------------------------

  /** Number of leading white-space characters. */
  function LeadingSpaces(s: string): (n: nat)
    ensures n <= |s| && AllSpaces(s[..n])
    ensures n < |s| ==> !IsSpace(s[n])
  {
    if s != [] && IsSpace(s[0]) then 1 + LeadingSpaces(s[1..]) else 0
  }

  /** Number of trailing white-space characters. */
  function TrailingSpaces(s: string): (n: nat)
    ensures n <= |s| && AllSpaces(s[|s| - n..])
    ensures n < |s| ==> !IsSpace(s[|s| - n - 1])
  {
    if s != [] && IsSpace(s[|s| - 1]) then 1 + TrailingSpaces(s[..|s| - 1]) else 0
  }

  /**
   * `trim`: the slice of `s` left once the leading and the trailing white
   * space are removed; it neither starts nor ends with white space.
   */
  function Trim(s: string): (r: string)
    ensures LeadingSpaces(s) + |r| <= |s|
    ensures r == [] || (!IsSpace(r[0]) && !IsSpace(r[|r| - 1]))
    ensures r == s[LeadingSpaces(s)..LeadingSpaces(s) + |r|]
    ensures AllSpaces(s[..LeadingSpaces(s)]) && AllSpaces(s[LeadingSpaces(s) + |r|..])
  {
    var front := s[LeadingSpaces(s)..];
    assert front == [] || !IsSpace(front[0]);
    front[..|front| - TrailingSpaces(front)]
  }

  // ---------------------------------------------------------------------------
  // Substring search
  // ---------------------------------------------------------------------------

  /** `w` occurs in `s` at position `i`. */
  predicate OccursAt(s: string, w: string, i: int) {
    0 <= i && i + |w| <= |s| && s[i..i + |w|] == w
  }

  /** `includes`: `w` occurs somewhere in `s`. */
  predicate Contains(s: string, w: string) {
    exists i | 0 <= i <= |s| - |w| :: OccursAt(s, w, i)
  }

  /** Containment is transitive. */
  lemma ContainsTransitive(s: string, w: string, v: string)
    requires Contains(s, w) && Contains(w, v)
    ensures Contains(s, v)
  {
    var i :| 0 <= i <= |s| - |w| && OccursAt(s, w, i);
    var j :| 0 <= j <= |w| - |v| && OccursAt(w, v, j);
    assert forall k :: 0 <= k < |v| ==> s[i + j + k] == s[i..i + |w|][j + k] == w[j + k] == v[k];
    assert s[i + j..i + j + |v|] == v;
    assert OccursAt(s, v, i + j);
  }

  /** A word holding a character that `s` does not hold cannot occur in `s`. */
  lemma {:induction false} AbsentCharNotContained(s: string, w: string, k: nat)
    requires k < |w| && w[k] !in s
    ensures !Contains(s, w)
  {
    assert forall i :: OccursAt(s, w, i) ==> s[i + k] == s[i..i + |w|][k] == w[k];
  }

  // ---------------------------------------------------------------------------
  // Lines: `split('\n')`
  // ---------------------------------------------------------------------------

  /** Index of the first newline in `s`, if any. */
  function NewlineIndex(s: string): (r: Option<nat>)
    ensures r.Some? ==> r.value < |s| && s[r.value] == '\n' && '\n' !in s[..r.value]
    ensures r.None? ==> '\n' !in s
  {
    if s == [] then None
    else if s[0] == '\n' then Some(0)
    else match NewlineIndex(s[1..])
      case None => None
      case Some(i) =>
        assert s[..i + 1] == [s[0]] + s[1..][..i];
        Some(i + 1)
  }

  lemma {:induction false} NewlineIndexAt(s: string, n: nat)
    requires n < |s| && s[n] == '\n' && '\n' !in s[..n]
    ensures NewlineIndex(s) == Some(n)
  {
    if n > 0 {
      assert s[0] == s[..n][0];
      assert s[1..][..n - 1] == s[1..n];
      NewlineIndexAt(s[1..], n - 1);
    }
  }

  /** The pieces between the newlines of `s`, empty pieces included. */
  function SplitLines(s: string): (lines: seq<string>)
    ensures |lines| >= 1
    ensures forall k :: 0 <= k < |lines| ==> '\n' !in lines[k]
    decreases |s|
  {
    match NewlineIndex(s)
    case None => [s]
    case Some(i) => [s[..i]] + SplitLines(s[i + 1..])
  }

  /** The lines put back together with a newline between consecutive ones. */
  function JoinLines(lines: seq<string>): string
    requires |lines| >= 1
  {
    if |lines| == 1 then lines[0] else lines[0] + "\n" + JoinLines(lines[1..])
  }

  /** The lines of a text without digits have no digits. */
  lemma {:induction false} SplitLinesDigitFree(s: string)
    requires !HasDigit(s)
    ensures forall k :: 0 <= k < |SplitLines(s)| ==> !HasDigit(SplitLines(s)[k])
    decreases |s|
  {
    match NewlineIndex(s)
    case None =>
    case Some(i) =>
      DigitFreeSlice(s, 0, i);
      DigitFreeSlice(s, i + 1, |s|);
      SplitLinesDigitFree(s[i + 1..]);
      var rest := SplitLines(s[i + 1..]);
      assert SplitLines(s) == [s[..i]] + rest;
      forall k | 0 <= k < |SplitLines(s)|
        ensures !HasDigit(SplitLines(s)[k])
      {
        if k > 0 { assert SplitLines(s)[k] == rest[k - 1]; }
      }
  }

  /** Splitting loses nothing: joining the lines gives the text back. */
  lemma {:induction false} JoinSplitLines(s: string)
    ensures JoinLines(SplitLines(s)) == s
    decreases |s|
  {
    match NewlineIndex(s)
    case None =>
    case Some(i) =>
      var rest := SplitLines(s[i + 1..]);
      assert SplitLines(s) == [s[..i]] + rest;
      JoinSplitLines(s[i + 1..]);
      assert ([s[..i]] + rest)[1..] == rest;
      assert JoinLines(SplitLines(s)) == s[..i] + "\n" + JoinLines(rest);
      assert s == s[..i] + "\n" + s[i + 1..];
  }

  /** And splitting a join of newline-free lines gives those lines back. */
  lemma {:induction false} SplitJoinLines(lines: seq<string>)
    requires |lines| >= 1 && forall k :: 0 <= k < |lines| ==> '\n' !in lines[k]
    ensures SplitLines(JoinLines(lines)) == lines
  {
    if |lines| == 1 {
    } else {
      var s := JoinLines(lines);
      var n := |lines[0]|;
      var rest := JoinLines(lines[1..]);
      assert s == lines[0] + "\n" + rest;
      assert s[..n] == lines[0] && s[n + 1..] == rest;
      assert NewlineIndex(s) == Some(n) by {
        NewlineIndexAt(s, n);
      }
      assert SplitLines(s) == [lines[0]] + SplitLines(rest);
      SplitJoinLines(lines[1..]);
      assert lines == [lines[0]] + lines[1..];
    }
  }

  // ---------------------------------------------------------------------------
  // Parts: `split(/[+\s]+/)` with the empty parts dropped
  // ---------------------------------------------------------------------------

  /** Length of the leading run of non-separator characters. */
  function RunLength(s: string): (n: nat)
    ensures n <= |s| && NoSeparator(s[..n])
    ensures n < |s| ==> IsSeparator(s[n])
  {
    if s == [] || IsSeparator(s[0]) then 0 else 1 + RunLength(s[1..])
  }

  /**
   * The maximal runs of non-separator characters of `s`, left to right.
   * JavaScript's split also yields an empty first or last part when `s`
   * starts or ends with a separator; both callers discard empty parts.
   */
  function Tokens(s: string): (ts: seq<string>)
    ensures forall k :: 0 <= k < |ts| ==> ts[k] != [] && NoSeparator(ts[k])
    decreases |s|
  {
    if s == [] then []
    else if IsSeparator(s[0]) then Tokens(s[1..])
    else
      var n := RunLength(s);
      [s[..n]] + Tokens(s[n..])
  }

  /** The parts of two texts joined by a separator are the parts of each. */
  lemma {:induction false} TokensSplitAt(a: string, c: char, b: string)
    requires IsSeparator(c)
    ensures Tokens(a + [c] + b) == Tokens(a) + Tokens(b)
    decreases |a|
  {
    var s := a + [c] + b;
    if a == [] {
      assert s[1..] == b;
    } else if IsSeparator(a[0]) {
      assert s[1..] == a[1..] + [c] + b;
      TokensSplitAt(a[1..], c, b);
    } else {
      var n := RunLength(a);
      RunLengthPrefix(a, [c] + b);
      assert s == a + ([c] + b);
      assert s[..n] == a[..n];
      assert s[n..] == a[n..] + [c] + b;
      TokensSplitAt(a[n..], c, b);
    }
  }

  /** The leading run of `a + rest` is that of `a` when `a` holds a separator. */
  lemma {:induction false} RunLengthPrefix(a: string, rest: string)
    requires RunLength(a) < |a| || (rest != [] && IsSeparator(rest[0]))
    ensures RunLength(a + rest) == RunLength(a)
    decreases |a|
  {
    if a == [] {
    } else if IsSeparator(a[0]) {
    } else {
      assert (a + rest)[1..] == a[1..] + rest;
      RunLengthPrefix(a[1..], rest);
    }
  }

  /** Separators appended to a text add no part. */
  lemma {:induction false} TokensTrailingSpaces(a: string, sp: string)
    requires AllSpaces(sp)
    ensures Tokens(a + sp) == Tokens(a)
    decreases |sp|
  {
    if sp != [] {
      var last := |sp| - 1;
      assert IsSeparator(sp[last]);
      assert a + sp == (a + sp[..last]) + [sp[last]] + [];
      TokensSplitAt(a + sp[..last], sp[last], []);
      assert Tokens([]) == [];
      TokensTrailingSpaces(a, sp[..last]);
    } else {
      assert a + sp == a;
    }
  }

  /** Separators prepended to a text add no part. */
  lemma {:induction false} TokensLeadingSpaces(sp: string, a: string)
    requires AllSpaces(sp)
    ensures Tokens(sp + a) == Tokens(a)
    decreases |sp|
  {
    if sp != [] {
      assert (sp + a)[0] == sp[0] && IsSeparator(sp[0]);
      assert (sp + a)[1..] == sp[1..] + a;
      assert Tokens(sp + a) == Tokens(sp[1..] + a);
      TokensLeadingSpaces(sp[1..], a);
    } else {
      assert sp + a == a;
    }
  }

  /** Trimming never changes the parts. */
  lemma TokensTrim(s: string)
    ensures Tokens(Trim(s)) == Tokens(s)
  {
    var a := LeadingSpaces(s);
    var t := Trim(s);
    var front, back := s[..a], s[a + |t|..];
    assert AllSpaces(front) && AllSpaces(back);
    assert s == front + (t + back) by {
      assert t == s[a..a + |t|];
    }
    TokensLeadingSpaces(front, t + back);
    TokensTrailingSpaces(t, back);
  }

  /**
   * Two texts that agree outside their separators, and put separators in the
   * same places, have the same parts.
   */
  lemma {:induction false} TokensSameShape(s: string, u: string)
    requires |s| == |u|
    requires forall i :: 0 <= i < |s| ==> (IsSeparator(s[i]) <==> IsSeparator(u[i]))
    requires forall i :: 0 <= i < |s| && !IsSeparator(s[i]) ==> s[i] == u[i]
    ensures Tokens(s) == Tokens(u)
    decreases |s|
  {
    if s == [] {
    } else if IsSeparator(s[0]) {
      TokensSameShape(s[1..], u[1..]);
    } else {
      var n := RunLength(s);
      RunLengthSameShape(s, u);
      assert s[..n] == u[..n];
      TokensSameShape(s[n..], u[n..]);
    }
  }

  lemma {:induction false} RunLengthSameShape(s: string, u: string)
    requires |s| == |u|
    requires forall i :: 0 <= i < |s| ==> (IsSeparator(s[i]) <==> IsSeparator(u[i]))
    ensures RunLength(s) == RunLength(u)
    decreases |s|
  {
    if s != [] && !IsSeparator(s[0]) {
      RunLengthSameShape(s[1..], u[1..]);
    }
  }

  /** Joins parts with one space between consecutive parts. */
  function JoinParts(ts: seq<string>): string {
    if ts == [] then [] else if |ts| == 1 then ts[0] else ts[0] + " " + JoinParts(ts[1..])
  }

  /** Splitting a space-joined list of non-empty parts gives the parts back. */
  lemma {:induction false} TokensJoinParts(ts: seq<string>)
    requires forall k :: 0 <= k < |ts| ==> ts[k] != [] && NoSeparator(ts[k])
    ensures Tokens(JoinParts(ts)) == ts
  {
    if ts == [] {
    } else {
      TokensOfPart(ts[0]);
      if |ts| > 1 {
        TokensSplitAt(ts[0], ' ', JoinParts(ts[1..]));
        assert ts[0] + " " + JoinParts(ts[1..]) == ts[0] + [' '] + JoinParts(ts[1..]);
        TokensJoinParts(ts[1..]);
      }
    }
  }

  lemma TokensOfPart(t: string)
    requires t != [] && NoSeparator(t)
    ensures Tokens(t) == [t]
  {
    RunLengthWhole(t);
    assert t[|t|..] == [] && t[..|t|] == t;
  }

  lemma {:induction false} RunLengthWhole(t: string)
    requires NoSeparator(t)
    ensures RunLength(t) == |t|
  {
    if t != [] {
      assert !IsSeparator(t[0]);
      RunLengthWhole(t[1..]);
    }
  }

  // ---------------------------------------------------------------------------
  // Decimal numerals: `parseInt` on digit strings, and `${n}`
  // ---------------------------------------------------------------------------

  function DigitValue(c: char): nat
    requires IsDigit(c)
  {
    c as int - '0' as int
  }

  function DigitChar(d: nat): (c: char)
    requires d < 10
    ensures IsDigit(c) && DigitValue(c) == d
  {
    ('0' as int + d) as char
  }

  /** The product of two naturals, named so that it is checked to be a natural once. */
  function Product(a: nat, b: nat): nat {
    a * b
  }

  /** `parseInt` of a string of decimal digits. */
  function DigitsValue(s: string): nat
    requires AllDigits(s)
  {
    if s == [] then 0 else DigitsValue(s[..|s| - 1]) * 10 + DigitValue(s[|s| - 1])
  }

  /**
   * The decimal numeral of `n`, as a template string prints it: digits only,
   * no leading zero, and `parseInt` reads `n` back from it.
   */
  function NatToDecimal(n: nat): (s: string)
    ensures s != [] && AllDigits(s)
    ensures s[0] != '0' || n == 0
    ensures DigitsValue(s) == n
  {
    if n < 10 then [DigitChar(n)]
    else
      var p := NatToDecimal(n / 10);
      var s := p + [DigitChar(n % 10)];
      assert s[..|s| - 1] == p;
      s
  }

  /** A numeral with one digit dropped from its end is worth a tenth, rounded down. */
  lemma DigitsValueDropLast(s: string)
    requires AllDigits(s) && s != []
    ensures DigitsValue(s[..|s| - 1]) == DigitsValue(s) / 10
  {
  }

  datatype Option<T> = None | Some(value: T)
}
