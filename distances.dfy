/**
 * The distance parsers of the workout parser (src/app/write-workout/page.tsx):
 * the repeat patterns, the value of one part, `parseLine` and
 * `parseBracketContent`.
 */
module Distances {
  import opened Text
  import opened Classifiers

  /** `ParsedSet`: what `parseLine` makes of one line. */
  datatype ParsedSet = ParsedSet(distance: nat, stroke: Stroke, strokeType: StrokeType, intensity: Option<Intensity>)

  // ---------------------------------------------------------------------------
  // The repeat head `^(\d+)\s*[x×*]\s*` shared by the three repeat patterns
  // ---------------------------------------------------------------------------

  /** A repeat head, given by the lengths of its digits and of the white space around the operator. */
  datatype RepeatHead = RepeatHead(digits: nat, spacesBefore: nat, spacesAfter: nat) {
    /** Index of the operator. */
    function Times(): nat { digits + spacesBefore }
    /** Index just past the head. */
    function End(): nat { digits + spacesBefore + 1 + spacesAfter }
  }

  /** `t` starts with the repeat head `h`: digits, white space, an operator, white space. */
  predicate HeadAt(t: string, h: RepeatHead) {
    0 < h.digits && h.End() <= |t|
    && AllDigits(t[..h.digits])
    && AllSpaces(t[h.digits..h.Times()])
    && IsTimes(t[h.Times()])
    && AllSpaces(t[h.Times() + 1..h.End()])
  }

  /** The repeat head `h` cannot be extended: no white space follows it. */
  predicate Maximal(t: string, h: RepeatHead) {
    h.End() < |t| ==> !IsSpace(t[h.End()])
  }

  /** Length of the run of decimal digits starting at `i`. */
  function DigitsFrom(t: string, i: nat): (n: nat)
    requires i <= |t|
    ensures i + n <= |t|
    decreases |t| - i
  {
    if i < |t| && IsDigit(t[i]) then 1 + DigitsFrom(t, i + 1) else 0
  }

  /** Length of the run of white space starting at `i`. */
  function SpacesFrom(t: string, i: nat): (n: nat)
    requires i <= |t|
    ensures i + n <= |t|
    decreases |t| - i
  {
    if i < |t| && IsSpace(t[i]) then 1 + SpacesFrom(t, i + 1) else 0
  }

  /** The longest repeat head at the start of `t`, the one a backtracking matcher settles on. */
  function MatchRepeatHead(t: string): Option<RepeatHead> {
    var d := DigitsFrom(t, 0);
    var p := d + SpacesFrom(t, d);
    if d == 0 || p == |t| || !IsTimes(t[p]) then None
    else Some(RepeatHead(d, p - d, SpacesFrom(t, p + 1)))
  }

  /** What `MatchRepeatHead` finds is a repeat head that cannot be extended. */
  lemma MatchRepeatHeadSound(t: string)
    ensures MatchRepeatHead(t).Some? ==> HeadAt(t, MatchRepeatHead(t).value) && Maximal(t, MatchRepeatHead(t).value)
  {
    if MatchRepeatHead(t).Some? {
      var d := DigitsFrom(t, 0);
      var p := d + SpacesFrom(t, d);
      DigitsFromSlice(t, 0);
      SpacesFromSlice(t, d);
      SpacesFromSlice(t, p + 1);
      assert MatchRepeatHead(t).value == RepeatHead(d, p - d, SpacesFrom(t, p + 1));
    }
  }

  /** The run of digits from `i` is a numeral. */
  lemma DigitsFromSlice(t: string, i: nat)
    requires i <= |t|
    ensures AllDigits(t[i..i + DigitsFrom(t, i)])
  {
    DigitsFromRun(t, i);
    DigitSlice(t, i, i + DigitsFrom(t, i));
  }

  /** The run of white space from `i` is white space, and is not followed by white space. */
  lemma SpacesFromSlice(t: string, i: nat)
    requires i <= |t|
    ensures AllSpaces(t[i..i + SpacesFrom(t, i)])
    ensures i + SpacesFrom(t, i) < |t| ==> !IsSpace(t[i + SpacesFrom(t, i)])
  {
    SpacesFromRun(t, i);
    SpaceSlice(t, i, i + SpacesFrom(t, i));
  }

  lemma DigitSlice(t: string, i: nat, j: nat)
    requires i <= j <= |t| && forall k :: i <= k < j ==> IsDigit(t[k])
    ensures AllDigits(t[i..j])
  {
    forall k | 0 <= k < j - i ensures IsDigit(t[i..j][k]) { assert t[i..j][k] == t[i + k]; }
  }

  lemma SpaceSlice(t: string, i: nat, j: nat)
    requires i <= j <= |t| && forall k :: i <= k < j ==> IsSpace(t[k])
    ensures AllSpaces(t[i..j])
  {
    forall k | 0 <= k < j - i ensures IsSpace(t[i..j][k]) { assert t[i..j][k] == t[i + k]; }
  }

  lemma {:induction false} DigitsFromRun(t: string, i: nat)
    requires i <= |t|
    ensures forall k :: i <= k < i + DigitsFrom(t, i) ==> IsDigit(t[k])
    ensures i + DigitsFrom(t, i) < |t| ==> !IsDigit(t[i + DigitsFrom(t, i)])
    decreases |t| - i
  {
    if i < |t| && IsDigit(t[i]) {
      DigitsFromRun(t, i + 1);
    }
  }

  lemma {:induction false} SpacesFromRun(t: string, i: nat)
    requires i <= |t|
    ensures forall k :: i <= k < i + SpacesFrom(t, i) ==> IsSpace(t[k])
    ensures i + SpacesFrom(t, i) < |t| ==> !IsSpace(t[i + SpacesFrom(t, i)])
    decreases |t| - i
  {
    if i < |t| && IsSpace(t[i]) {
      SpacesFromRun(t, i + 1);
    }
  }

  lemma {:induction false} DigitsFromExact(t: string, i: nat, n: nat)
    requires i + n <= |t| && (forall k :: i <= k < i + n ==> IsDigit(t[k]))
    requires i + n < |t| ==> !IsDigit(t[i + n])
    ensures DigitsFrom(t, i) == n
    decreases n
  {
    if n > 0 {
      DigitsFromExact(t, i + 1, n - 1);
    }
  }

  lemma {:induction false} SpacesFromExact(t: string, i: nat, n: nat)
    requires i + n <= |t| && (forall k :: i <= k < i + n ==> IsSpace(t[k]))
    requires i + n < |t| ==> !IsSpace(t[i + n])
    ensures SpacesFrom(t, i) == n
    decreases n
  {
    if n > 0 {
      SpacesFromExact(t, i + 1, n - 1);
    }
  }

  /** A maximal repeat head is the one `MatchRepeatHead` finds: the match is unique. */
  lemma RepeatHeadComplete(t: string, h: RepeatHead)
    requires HeadAt(t, h) && Maximal(t, h)
    ensures MatchRepeatHead(t) == Some(h)
  {
    var d, p := h.digits, h.Times();
    assert DigitsFrom(t, 0) == d by {
      forall k | 0 <= k < d ensures IsDigit(t[k]) { assert t[..d][k] == t[k]; }
      if h.spacesBefore > 0 { assert t[d..p][0] == t[d]; }
      DigitsFromExact(t, 0, d);
    }
    assert SpacesFrom(t, d) == h.spacesBefore by {
      forall k | d <= k < p ensures IsSpace(t[k]) { assert t[d..p][k - d] == t[k]; }
      SpacesFromExact(t, d, h.spacesBefore);
    }
    assert SpacesFrom(t, p + 1) == h.spacesAfter by {
      forall k | p + 1 <= k < h.End() ensures IsSpace(t[k]) { assert t[p + 1..h.End()][k - p - 1] == t[k]; }
      SpacesFromExact(t, p + 1, h.spacesAfter);
    }
  }

  // ---------------------------------------------------------------------------
  // The three repeat patterns
  // ---------------------------------------------------------------------------

  /** `^(\d+)\s*[x×*]\s*$`: a line holding only a repeat count; the count. */
  function StandaloneMultiplier(t: string): (r: Option<nat>)
    ensures r.Some? ==> exists h :: HeadAt(t, h) && h.End() == |t| && r.value == DigitsValue(t[..h.digits])
  {
    MatchRepeatHeadSound(t);
    match MatchRepeatHead(t)
    case Some(h) => if h.End() == |t| then Some(DigitsValue(t[..h.digits])) else None
    case None => None
  }

  /**
   * `^(\d+)\s*[x×*]\s*[\(\[\{]`: a repeat count with a bracket group opening on
   * the same line; the count and the index of the opening bracket.
   */
  function MultiplierBracket(t: string): (r: Option<(nat, nat)>)
    ensures r.Some? ==> r.value.1 < |t| && IsOpenBracket(t[r.value.1])
    ensures r.Some? ==> exists h :: HeadAt(t, h) && h.End() == r.value.1 && r.value.0 == DigitsValue(t[..h.digits])
  {
    MatchRepeatHeadSound(t);
    match MatchRepeatHead(t)
    case Some(h) =>
      if h.End() < |t| && IsOpenBracket(t[h.End()]) then Some((DigitsValue(t[..h.digits]), h.End())) else None
    case None => None
  }

  /** `^\d+\s*[x×*]\s*\d+$`: a part of the form `4x100`; its two numerals. */
  function ProductOperands(t: string): (r: Option<(string, string)>)
    ensures r.Some? ==> r.value.0 != [] && AllDigits(r.value.0) && r.value.1 != [] && AllDigits(r.value.1)
    ensures r.Some? ==> exists h :: HeadAt(t, h) && t[..h.digits] == r.value.0 && t[h.End()..] == r.value.1
  {
    MatchRepeatHeadSound(t);
    match MatchRepeatHead(t)
    case Some(h) =>
      if h.End() < |t| && AllDigits(t[h.End()..]) then Some((t[..h.digits], t[h.End()..])) else None
    case None => None
  }

  /** Every way of reading `t` as the standalone pattern gives the count found. */
  lemma StandaloneMultiplierComplete(t: string, h: RepeatHead)
    requires HeadAt(t, h) && h.End() == |t|
    ensures StandaloneMultiplier(t) == Some(DigitsValue(t[..h.digits]))
  {
    RepeatHeadComplete(t, h);
  }

  /** Every way of reading `t` as the bracket pattern gives the count and bracket found. */
  lemma MultiplierBracketComplete(t: string, h: RepeatHead)
    requires HeadAt(t, h) && h.End() < |t| && IsOpenBracket(t[h.End()])
    ensures MultiplierBracket(t) == Some((DigitsValue(t[..h.digits]), h.End()))
  {
    RepeatHeadComplete(t, h);
  }

  /** Every way of reading `t` as the product pattern gives the numerals found. */
  lemma ProductOperandsComplete(t: string, h: RepeatHead)
    requires HeadAt(t, h) && h.End() < |t| && AllDigits(t[h.End()..])
    ensures ProductOperands(t) == Some((t[..h.digits], t[h.End()..]))
  {
    assert IsDigit(t[h.End()..][0]);
    RepeatHeadComplete(t, h);
  }

  /** No repeat pattern matches a text without digits. */
  lemma NoDigitNoRepeat(t: string)
    requires !HasDigit(t)
    ensures MatchRepeatHead(t).None?
  {
    if t != [] { assert !IsDigit(t[0]); }
  }

  // ---------------------------------------------------------------------------
  // Distance of parts, lines and bracket groups
  // ---------------------------------------------------------------------------

  /** `^\d+$`. */
  predicate IsNumeral(t: string) {
    t != [] && AllDigits(t)
  }

  /** The distance one part contributes: `a×b` for a product, `n` for a numeral, else nothing. */
  function PartDistance(part: string): nat {
    match ProductOperands(part)
    case Some((reps, dist)) => Product(DigitsValue(reps), DigitsValue(dist))
    case None => if IsNumeral(part) then DigitsValue(part) else 0
  }

  /** The distances of `parts`, summed left to right. */
  function PartsDistance(parts: seq<string>): nat {
    if parts == [] then 0 else PartsDistance(parts[..|parts| - 1]) + PartDistance(parts[|parts| - 1])
  }

  /** The distance of a text: the sum over its lower-cased parts. */
  function SetDistance(text: string): nat {
    PartsDistance(Tokens(Lower(text)))
  }

  /** The text with every `(`, `[`, `{`, `)`, `]` and `}` deleted. */
  function RemoveBrackets(s: string): (r: string)
    ensures |r| <= |s|
    ensures forall k :: 0 <= k < |r| ==> !IsOpenBracket(r[k]) && !IsCloseBracket(r[k])
  {
    if s == [] then []
    else if IsOpenBracket(s[0]) || IsCloseBracket(s[0]) then RemoveBrackets(s[1..])
    else [s[0]] + RemoveBrackets(s[1..])
  }

  /** `replace(/\n/g, ' ')`. */
  function NewlinesToSpaces(s: string): (r: string)
    ensures |r| == |s|
    ensures forall k :: 0 <= k < |s| ==> r[k] == if s[k] == '\n' then ' ' else s[k]
  {
    if s == [] then [] else [if s[0] == '\n' then ' ' else s[0]] + NewlinesToSpaces(s[1..])
  }

  /** The distance of a bracket group: that of its text with the brackets deleted. */
  function GroupDistance(content: string): nat {
    SetDistance(RemoveBrackets(content))
  }

  // ---------------------------------------------------------------------------
  // The two parsers
  // ---------------------------------------------------------------------------

  /**
   * `parseLine`: lower-cases and trims the line, sums the distances of its
   * parts, and classifies the whole lower-cased line.
   */
  method ParseLine(line: string, system: IntensitySystem) returns (parsed: ParsedSet)
    ensures parsed.distance == SetDistance(line)
    ensures var text := Trim(Lower(line));
      text == [] ==> parsed == ParsedSet(0, Freestyle, Normal, None)
    ensures var text := Trim(Lower(line));
      text != [] ==> (parsed.stroke == GetStroke(text) && parsed.strokeType == GetStrokeType(text)
        && parsed.intensity == GetIntensity(text, system))
  {
    var text := Trim(Lower(line));
    TokensTrim(Lower(line));
    if text == [] {
      return ParsedSet(0, Freestyle, Normal, None);
    }
    var distance := 0;
    var parts := Tokens(text);
    var i := 0;
    while i < |parts|
      invariant 0 <= i <= |parts|
      invariant distance == PartsDistance(parts[..i])
    {
      PartsDistanceStep(parts, i);
      var part := parts[i];
      match ProductOperands(part) {
        case Some((reps, dist)) =>
          distance := distance + Product(DigitsValue(reps), DigitsValue(dist));
        case None =>
          if IsNumeral(part) {
            distance := distance + DigitsValue(part);
          }
      }
      i := i + 1;
    }
    assert parts[..i] == parts;
    parsed := ParsedSet(distance, GetStroke(text), GetStrokeType(text), GetIntensity(text, system));
  }

  /**
   * `parseBracketContent`: deletes the brackets, turns newlines into spaces,
   * lower-cases and trims, and sums the distances of the non-empty parts.
   */
  method ParseBracketContent(content: string) returns (distance: nat)
    ensures distance == GroupDistance(content)
  {
    var stripped := RemoveBrackets(content);
    var text := Trim(Lower(NewlinesToSpaces(stripped)));
    var parts := Tokens(text);
    if text == [] {
      BracketTextParts(stripped);
      return 0;
    }
    distance := 0;
    for i := 0 to |parts|
      invariant distance == PartsDistance(parts[..i])
    {
      PartsDistanceStep(parts, i);
      var part := parts[i];
      match ProductOperands(part) {
        case Some((reps, dist)) =>
          distance := distance + Product(DigitsValue(reps), DigitsValue(dist));
        case None =>
          if IsNumeral(part) {
            distance := distance + DigitsValue(part);
          }
      }
    }
    assert parts[..|parts|] == parts;
    BracketTextParts(stripped);
  }

  lemma PartsDistanceStep(parts: seq<string>, i: nat)
    requires i < |parts|
    ensures PartsDistance(parts[..i + 1]) == PartsDistance(parts[..i]) + PartDistance(parts[i])
  {
    assert parts[..i + 1][..i] == parts[..i];
  }

  /** Replacing newlines by spaces and trimming do not change the parts. */
  lemma BracketTextParts(s: string)
    ensures Tokens(Trim(Lower(NewlinesToSpaces(s)))) == Tokens(Lower(s))
  {
    TokensTrim(Lower(NewlinesToSpaces(s)));
    TokensSameShape(Lower(NewlinesToSpaces(s)), Lower(s));
  }

  // ---------------------------------------------------------------------------
  // Properties of the distance
  // ---------------------------------------------------------------------------

  /** A product part `a×b` is worth `a·b`, whichever operator it uses. */
  lemma ProductPartDistance(a: string, op: char, b: string)
    requires IsNumeral(a) && IsTimes(op) && IsNumeral(b)
    ensures PartDistance(a + [op] + b) == Product(DigitsValue(a), DigitsValue(b))
  {
    var t := a + [op] + b;
    var h := RepeatHead(|a|, 0, 0);
    assert t[..|a|] == a && t[h.End()..] == b;
    ProductOperandsComplete(t, h);
  }

  /** A numeral part is worth its value. */
  lemma NumeralPartDistance(n: string)
    requires IsNumeral(n)
    ensures PartDistance(n) == DigitsValue(n)
  {
    assert forall h :: HeadAt(n, h) ==> IsDigit(n[h.Times()]);
  }

  /** A part without a digit is worth nothing. */
  lemma DigitFreePartDistance(part: string)
    requires !HasDigit(part)
    ensures PartDistance(part) == 0
  {
    NoDigitNoRepeat(part);
    if part != [] { assert !IsDigit(part[0]); }
  }

  lemma {:induction false} PartsDistanceAppend(xs: seq<string>, ys: seq<string>)
    ensures PartsDistance(xs + ys) == PartsDistance(xs) + PartsDistance(ys)
    decreases |ys|
  {
    if ys == [] {
      assert xs + ys == xs;
    } else {
      var n := |ys| - 1;
      assert (xs + ys)[..|xs + ys| - 1] == xs + ys[..n];
      PartsDistanceAppend(xs, ys[..n]);
    }
  }

  lemma LowerAppend(a: string, b: string)
    ensures Lower(a + b) == Lower(a) + Lower(b)
  {
  }

  /**
   * Distance is additive over separators: the distance of two texts joined by
   * white space or `+` is the sum of their distances.
   */
  lemma {:induction false} SetDistanceSplit(a: string, c: char, b: string)
    requires IsSeparator(c)
    ensures SetDistance(a + [c] + b) == SetDistance(a) + SetDistance(b)
  {
    LowerAppend(a + [c], b);
    LowerAppend(a, [c]);
    assert Lower([c]) == [c];
    TokensSplitAt(Lower(a), c, Lower(b));
    PartsDistanceAppend(Tokens(Lower(a)), Tokens(Lower(b)));
  }

  /** A text without digits has distance 0. */
  lemma {:induction false} DigitFreeSetDistance(text: string)
    requires !HasDigit(text)
    ensures SetDistance(text) == 0
  {
    var l := Lower(text);
    assert !HasDigit(l) by {
      forall k | 0 <= k < |l| ensures !IsDigit(l[k]) { assert !IsDigit(text[k]); }
    }
    DigitFreeParts(l);
    DigitFreePartsDistance(Tokens(l));
  }

  lemma {:induction false} DigitFreeParts(s: string)
    requires !HasDigit(s)
    ensures forall k :: 0 <= k < |Tokens(s)| ==> !HasDigit(Tokens(s)[k])
    decreases |s|
  {
    if s == [] {
    } else if IsSeparator(s[0]) {
      assert !HasDigit(s[1..]) by {
        forall k | 0 <= k < |s| - 1 ensures !IsDigit(s[1..][k]) { assert s[1..][k] == s[k + 1]; }
      }
      DigitFreeParts(s[1..]);
    } else {
      var n := RunLength(s);
      assert !HasDigit(s[..n]) by {
        forall k | 0 <= k < n ensures !IsDigit(s[..n][k]) { assert s[..n][k] == s[k]; }
      }
      assert !HasDigit(s[n..]) by {
        forall k | 0 <= k < |s| - n ensures !IsDigit(s[n..][k]) { assert s[n..][k] == s[n + k]; }
      }
      DigitFreeParts(s[n..]);
    }
  }

  lemma {:induction false} DigitFreePartsDistance(parts: seq<string>)
    requires forall k :: 0 <= k < |parts| ==> !HasDigit(parts[k])
    ensures PartsDistance(parts) == 0
    decreases |parts|
  {
    if parts != [] {
      DigitFreePartDistance(parts[|parts| - 1]);
      DigitFreePartsDistance(parts[..|parts| - 1]);
    }
  }

  /** A bracket group without digits has distance 0. */
  lemma DigitFreeGroupDistance(content: string)
    requires !HasDigit(content)
    ensures GroupDistance(content) == 0
  {
    RemoveBracketsDigitFree(content);
    DigitFreeSetDistance(RemoveBrackets(content));
  }

  lemma {:induction false} RemoveBracketsDigitFree(s: string)
    requires !HasDigit(s)
    ensures !HasDigit(RemoveBrackets(s))
    decreases |s|
  {
    if s != [] {
      DigitFreeSlice(s, 1, |s|);
      RemoveBracketsDigitFree(s[1..]);
      assert !IsDigit(s[0]);
      var r := RemoveBrackets(s[1..]);
      forall k | 0 <= k < |[s[0]] + r|
        ensures !IsDigit(([s[0]] + r)[k])
      {
        if k > 0 { assert ([s[0]] + r)[k] == r[k - 1]; }
      }
    }
  }

  /** One character is deleted when it is a bracket and kept otherwise. */
  lemma RemoveBracketsChar(c: char)
    ensures RemoveBrackets([c]) == if IsOpenBracket(c) || IsCloseBracket(c) then [] else [c]
  {
    assert [c][1..] == [];
  }

  /**
   * Deleting brackets works character by character: on a concatenation it is
   * the concatenation of the two results, so every other character is kept,
   * in order.
   */
  lemma {:induction false} RemoveBracketsAppend(a: string, b: string)
    ensures RemoveBrackets(a + b) == RemoveBrackets(a) + RemoveBrackets(b)
    decreases |a|
  {
    if a == [] {
      assert a + b == b;
    } else {
      assert (a + b)[0] == a[0] && (a + b)[1..] == a[1..] + b;
      RemoveBracketsAppend(a[1..], b);
    }
  }

  /** On text without brackets, `parseBracketContent` and `parseLine` agree on the distance. */
  lemma {:induction false} GroupDistanceWithoutBrackets(s: string)
    requires forall k :: 0 <= k < |s| ==> !IsOpenBracket(s[k]) && !IsCloseBracket(s[k])
    ensures GroupDistance(s) == SetDistance(s)
    decreases |s|
  {
    RemoveBracketsNone(s);
  }

  lemma {:induction false} RemoveBracketsNone(s: string)
    requires forall k :: 0 <= k < |s| ==> !IsOpenBracket(s[k]) && !IsCloseBracket(s[k])
    ensures RemoveBrackets(s) == s
    decreases |s|
  {
    if s != [] {
      assert !IsOpenBracket(s[0]) && !IsCloseBracket(s[0]);
      RemoveBracketsNone(s[1..]);
    }
  }
}
