/**
 * The keyword classifiers of the workout parser (src/app/write-workout/page.tsx):
 * the stroke, the stroke type and the intensity of a piece of workout text,
 * and the label under which an intensity is summed.
 */
module Classifiers {
  import opened Text

  datatype Stroke = Freestyle | Backstroke | Breaststroke | Butterfly | IM | Choice

  datatype StrokeType = Drill | Kick | Scull | Normal

  /** The colour-zone vocabulary the user has selected. */
  datatype IntensitySystem = Polar | International

  /** `IntensityType` without its `null`, which is `None` of an `Option<Intensity>`. */
  datatype Intensity =
    | HeartRate(value: nat)
    | HeartRateBy10(value: nat)
    | Standard(word: string)
    | PolarZone(word: string)
    | InternationalZone(word: string)

  const HeartRateValues: seq<nat> := [150, 155, 160, 165, 170, 175, 180, 185, 190]
  const HeartRateBy10Values: seq<nat> := [24, 25, 26, 27, 28, 29, 30]
  const StandardWords: seq<string> := ["easy", "moderate", "strong", "fast"]
  const PolarColours: seq<string> := ["grey", "blue", "green", "orange", "red"]
  const InternationalColours: seq<string> := ["yellow", "white", "pink", "red", "blue", "brown", "purple"]

  /** The colour words of a system, in the order they are tried. */
  function Colours(system: IntensitySystem): seq<string> {
    if system == Polar then PolarColours else InternationalColours
  }

  // ---------------------------------------------------------------------------
  // First match over an ordered keyword table
  // ---------------------------------------------------------------------------

  /** Some keyword of `words` occurs in `l`. */
  predicate AnyContained(l: string, words: seq<string>) {
    exists k :: 0 <= k < |words| && Contains(l, words[k])
  }

  /** Index of the first row of `table` one of whose keywords occurs in `l`. */
  function FirstHit<T>(table: seq<(T, seq<string>)>, l: string): (r: Option<nat>)
    ensures r.Some? ==> r.value < |table| && AnyContained(l, table[r.value].1)
    ensures r.Some? ==> forall j :: 0 <= j < r.value ==> !AnyContained(l, table[j].1)
    ensures r.None? ==> forall j :: 0 <= j < |table| ==> !AnyContained(l, table[j].1)
  {
    if table == [] then None
    else if AnyContained(l, table[0].1) then Some(0)
    else match FirstHit(table[1..], l)
      case None => None
      case Some(i) => Some(i + 1)
  }

  /** The label of the first row that `l` hits, or `default`. */
  function Classify<T>(table: seq<(T, seq<string>)>, l: string, default: T): T {
    match FirstHit(table, l)
    case Some(i) => table[i].0
    case None => default
  }

  // ---------------------------------------------------------------------------
  // Stroke
  // ---------------------------------------------------------------------------

  /** `getStroke`: a fixed-priority, first-match test, freestyle by default. */
  function GetStroke(text: string): Stroke {
    var l := Lower(text);
    if Contains(l, "fr") || Contains(l, "free") then Freestyle
    else if Contains(l, "bk") || Contains(l, "back") then Backstroke
    else if Contains(l, "br") || Contains(l, "breast") then Breaststroke
    else if Contains(l, "fl") || Contains(l, "fly") || Contains(l, "butterfly") then Butterfly
    else if Contains(l, "im") || Contains(l, "medley") then IM
    else if Contains(l, "ch") || Contains(l, "choice") then Choice
    else Freestyle
  }

  /** The stroke keywords, in the order `getStroke` tries them. */
  const StrokeTable: seq<(Stroke, seq<string>)> := [
    (Freestyle, ["fr", "free"]),
    (Backstroke, ["bk", "back"]),
    (Breaststroke, ["br", "breast"]),
    (Butterfly, ["fl", "fly", "butterfly"]),
    (IM, ["im", "medley"]),
    (Choice, ["ch", "choice"])
  ]

  /** The same table without the keywords that contain an earlier keyword of their row. */
  const ShortStrokeTable: seq<(Stroke, seq<string>)> := [
    (Freestyle, ["fr"]),
    (Backstroke, ["bk", "back"]),
    (Breaststroke, ["br"]),
    (Butterfly, ["fl"]),
    (IM, ["im", "medley"]),
    (Choice, ["ch"])
  ]

  /** `getStroke` returns the stroke of the first row of its table that the text hits. */
  lemma GetStrokeIsFirstHit(text: string)
    ensures GetStroke(text) == Classify(StrokeTable, Lower(text), Freestyle)
  {
    var l := Lower(text);
    AnyContained2(l, "fr", "free");
    AnyContained2(l, "bk", "back");
    AnyContained2(l, "br", "breast");
    AnyContained3(l, "fl", "fly", "butterfly");
    AnyContained2(l, "im", "medley");
    AnyContained2(l, "ch", "choice");
    UnfoldFirstHit(StrokeTable, l);
    UnfoldFirstHit(StrokeTable[1..], l);
    UnfoldFirstHit(StrokeTable[2..], l);
    UnfoldFirstHit(StrokeTable[3..], l);
    UnfoldFirstHit(StrokeTable[4..], l);
    UnfoldFirstHit(StrokeTable[5..], l);
    assert StrokeTable[1..][1..] == StrokeTable[2..];
    assert StrokeTable[2..][1..] == StrokeTable[3..];
    assert StrokeTable[3..][1..] == StrokeTable[4..];
    assert StrokeTable[4..][1..] == StrokeTable[5..];
    assert StrokeTable[5..][1..] == [];
  }

  /**
   * `free`, `breast`, `fly`, `butterfly` and `choice` never decide the stroke:
   * each contains a shorter keyword tried in the same test.
   */
  lemma {:induction false} StrokeLongKeywordsRedundant(text: string)
    ensures GetStroke(text) == Classify(ShortStrokeTable, Lower(text), Freestyle)
  {
    var l := Lower(text);
    Implies(l, "free", "fr", 0);
    Implies(l, "breast", "br", 0);
    Implies(l, "fly", "fl", 0);
    Implies(l, "butterfly", "fl", 6);
    Implies(l, "choice", "ch", 0);
    ShortStrokeTableTests(l);
  }

  /** The short table, read as the chain of tests it stands for. */
  lemma ShortStrokeTableTests(l: string)
    ensures Classify(ShortStrokeTable, l, Freestyle) ==
      if Contains(l, "fr") then Freestyle
      else if Contains(l, "bk") || Contains(l, "back") then Backstroke
      else if Contains(l, "br") then Breaststroke
      else if Contains(l, "fl") then Butterfly
      else if Contains(l, "im") || Contains(l, "medley") then IM
      else if Contains(l, "ch") then Choice
      else Freestyle
  {
    AnyContained1(l, "fr");
    AnyContained2(l, "bk", "back");
    AnyContained1(l, "br");
    AnyContained1(l, "fl");
    AnyContained2(l, "im", "medley");
    AnyContained1(l, "ch");
    UnfoldFirstHit(ShortStrokeTable, l);
    UnfoldFirstHit(ShortStrokeTable[1..], l);
    UnfoldFirstHit(ShortStrokeTable[2..], l);
    UnfoldFirstHit(ShortStrokeTable[3..], l);
    UnfoldFirstHit(ShortStrokeTable[4..], l);
    UnfoldFirstHit(ShortStrokeTable[5..], l);
    assert ShortStrokeTable[1..][1..] == ShortStrokeTable[2..];
    assert ShortStrokeTable[2..][1..] == ShortStrokeTable[3..];
    assert ShortStrokeTable[3..][1..] == ShortStrokeTable[4..];
    assert ShortStrokeTable[4..][1..] == ShortStrokeTable[5..];
    assert ShortStrokeTable[5..][1..] == [];
  }

  // ---------------------------------------------------------------------------
  // Stroke type
  // ---------------------------------------------------------------------------

  /** `getStrokeType`: drill, then kick, then scull, else normal. */
  function GetStrokeType(text: string): StrokeType {
    var l := Lower(text);
    if Contains(l, "drill") || Contains(l, "dr") then Drill
    else if Contains(l, "kick") || Contains(l, "k") then Kick
    else if Contains(l, "scull") then Scull
    else Normal
  }

  const StrokeTypeTable: seq<(StrokeType, seq<string>)> := [
    (Drill, ["drill", "dr"]),
    (Kick, ["kick", "k"]),
    (Scull, ["scull"])
  ]

  /**
   * `getStrokeType` returns the type of the first row its text hits; and only
   * `dr`, `k` and `scull` matter, since `drill` holds `dr` and `kick` holds `k`.
   */
  lemma {:induction false} GetStrokeTypeIsFirstHit(text: string)
    ensures GetStrokeType(text) == Classify(StrokeTypeTable, Lower(text), Normal)
    ensures GetStrokeType(text) ==
      (var l := Lower(text);
       if Contains(l, "dr") then Drill
       else if Contains(l, "k") then Kick
       else if Contains(l, "scull") then Scull
       else Normal)
  {
    var l := Lower(text);
    Implies(l, "drill", "dr", 0);
    Implies(l, "kick", "k", 0);
    AnyContained2(l, "drill", "dr");
    AnyContained2(l, "kick", "k");
    AnyContained1(l, "scull");
    UnfoldFirstHit(StrokeTypeTable, l);
    UnfoldFirstHit(StrokeTypeTable[1..], l);
    UnfoldFirstHit(StrokeTypeTable[2..], l);
    assert StrokeTypeTable[1..][1..] == StrokeTypeTable[2..];
    assert StrokeTypeTable[2..][1..] == [];
  }

  // ---------------------------------------------------------------------------
  // Helpers for the table lemmas
  // ---------------------------------------------------------------------------

  lemma UnfoldFirstHit<T>(table: seq<(T, seq<string>)>, l: string)
    requires table != []
    ensures FirstHit(table, l) ==
      if AnyContained(l, table[0].1) then Some(0)
      else match FirstHit(table[1..], l) case None => None case Some(i) => Some(i + 1)
  {
  }

  lemma AnyContained1(l: string, a: string)
    ensures AnyContained(l, [a]) <==> Contains(l, a)
  {
    assert [a][0] == a;
  }

  lemma AnyContained2(l: string, a: string, b: string)
    ensures AnyContained(l, [a, b]) <==> Contains(l, a) || Contains(l, b)
  {
    assert [a, b][0] == a && [a, b][1] == b;
  }

  lemma AnyContained3(l: string, a: string, b: string, c: string)
    ensures AnyContained(l, [a, b, c]) <==> Contains(l, a) || Contains(l, b) || Contains(l, c)
  {
    assert [a, b, c][0] == a && [a, b, c][1] == b && [a, b, c][2] == c;
  }

  /** `v` occurs in `w` at `i`, so every text containing `w` contains `v`. */
  lemma Implies(l: string, w: string, v: string, i: nat)
    requires OccursAt(w, v, i)
    ensures Contains(l, w) ==> Contains(l, v)
  {
    if Contains(l, w) { ContainsTransitive(l, w, v); }
  }

  // ---------------------------------------------------------------------------
  // Intensity
  // ---------------------------------------------------------------------------

  /** `hr` followed by `n` decimal digits starts at position `p` of the lower-cased text `l`. */
  predicate HrAt(l: string, p: nat, n: nat) {
    p + 2 + n <= |l| && l[p] == 'h' && l[p + 1] == 'r' && AllDigits(l[p + 2..p + 2 + n])
  }

  /** The value of the `n` digits after the `hr` at `p`. */
  function HrValue(l: string, p: nat, n: nat): nat
    requires HrAt(l, p, n)
  {
    DigitsValue(l[p + 2..p + 2 + n])
  }

  /** The leftmost match at or after `from` of the pattern `/hr(\d{n})/i` in lower-cased text. */
  function LeftmostHr(l: string, n: nat, from: nat): (r: Option<nat>)
    ensures r.Some? ==> from <= r.value && HrAt(l, r.value, n)
    ensures r.Some? ==> forall q: nat :: from <= q < r.value ==> !HrAt(l, q, n)
    ensures r.None? ==> forall q: nat :: from <= q ==> !HrAt(l, q, n)
    decreases |l| - from
  {
    if from + 2 + n > |l| then None
    else if HrAt(l, from, n) then Some(from)
    else LeftmostHr(l, n, from + 1)
  }

  /** Index of the first word of `words` that occurs in `l`. */
  function FirstWord(l: string, words: seq<string>): (r: Option<nat>)
    ensures r.Some? ==> r.value < |words| && Contains(l, words[r.value])
    ensures r.Some? ==> forall j :: 0 <= j < r.value ==> !Contains(l, words[j])
    ensures r.None? ==> forall j :: 0 <= j < |words| ==> !Contains(l, words[j])
  {
    if words == [] then None
    else if Contains(l, words[0]) then Some(0)
    else match FirstWord(l, words[1..])
      case None => None
      case Some(i) => Some(i + 1)
  }

  /** An intensity `getIntensity` can return while `system` is selected. */
  predicate IsIntensityOf(i: Intensity, system: IntensitySystem) {
    match i
    case HeartRate(v) => v in HeartRateValues
    case HeartRateBy10(v) => v in HeartRateBy10Values
    case Standard(w) => w in StandardWords
    case PolarZone(w) => system == Polar && w in PolarColours
    case InternationalZone(w) => system == International && w in InternationalColours
  }

  /**
   * `getIntensity`: the leftmost `hr` with three digits when they are one of
   * the listed heart rates; else the leftmost `hr` with two digits when they
   * are 24 to 30; else the first standard word; else the first colour word of
   * the selected system; else none. The result belongs to the selected system
   * and its word occurs in the text.
   */
  function GetIntensity(text: string, system: IntensitySystem): (r: Option<Intensity>)
    ensures r.Some? ==> IsIntensityOf(r.value, system)
    ensures r.Some? && !r.value.HeartRate? && !r.value.HeartRateBy10? ==> Contains(Lower(text), r.value.word)
  {
    var l := Lower(text);
    var hr3 := LeftmostHr(l, 3, 0);
    if hr3.Some? && HrValue(l, hr3.value, 3) in HeartRateValues then
      Some(HeartRate(HrValue(l, hr3.value, 3)))
    else
      var hr2 := LeftmostHr(l, 2, 0);
      if hr2.Some? && HrValue(l, hr2.value, 2) in HeartRateBy10Values then
        Some(HeartRateBy10(HrValue(l, hr2.value, 2)))
      else match FirstWord(l, StandardWords)
        case Some(k) => Some(Standard(StandardWords[k]))
        case None =>
          match FirstWord(l, Colours(system))
          case Some(k) =>
            Some(if system == Polar then PolarZone(PolarColours[k]) else InternationalZone(InternationalColours[k]))
          case None => None
  }

  /** The heart-rate rule for `n` digits fires: its leftmost match reads one of `values`. */
  predicate HrRuleFires(l: string, n: nat, values: seq<nat>) {
    LeftmostHr(l, n, 0).Some? && HrValue(l, LeftmostHr(l, n, 0).value, n) in values
  }

  /**
   * The five rules of `getIntensity`, tried in order: only the leftmost
   * three-digit and the leftmost two-digit `hr` match are read; a word or a
   * colour counts only when neither heart-rate rule fired; the result is
   * null exactly when no rule fires, that is when no qualifying `hr` match
   * exists and no standard word and no colour of the system occurs.
   */
  lemma GetIntensityRules(text: string, system: IntensitySystem)
    ensures var l := Lower(text);
      HrRuleFires(l, 3, HeartRateValues) ==>
        GetIntensity(text, system) == Some(HeartRate(HrValue(l, LeftmostHr(l, 3, 0).value, 3)))
    ensures var l := Lower(text);
      !HrRuleFires(l, 3, HeartRateValues) && HrRuleFires(l, 2, HeartRateBy10Values) ==>
        GetIntensity(text, system) == Some(HeartRateBy10(HrValue(l, LeftmostHr(l, 2, 0).value, 2)))
    ensures var l := Lower(text);
      !HrRuleFires(l, 3, HeartRateValues) && !HrRuleFires(l, 2, HeartRateBy10Values)
      && FirstWord(l, StandardWords).Some? ==>
        GetIntensity(text, system) == Some(Standard(StandardWords[FirstWord(l, StandardWords).value]))
    ensures var l := Lower(text);
      !HrRuleFires(l, 3, HeartRateValues) && !HrRuleFires(l, 2, HeartRateBy10Values)
      && FirstWord(l, StandardWords).None? && FirstWord(l, Colours(system)).Some? ==>
        (var w := Colours(system)[FirstWord(l, Colours(system)).value];
         GetIntensity(text, system) == Some(if system == Polar then PolarZone(w) else InternationalZone(w)))
    ensures var l := Lower(text);
      GetIntensity(text, system).None? <==>
        !HrRuleFires(l, 3, HeartRateValues) && !HrRuleFires(l, 2, HeartRateBy10Values)
        && (forall k :: 0 <= k < |StandardWords| ==> !Contains(l, StandardWords[k]))
        && (forall k :: 0 <= k < |Colours(system)| ==> !Contains(l, Colours(system)[k]))
  {
  }

  /**
   * A three-digit `hr` match always has a two-digit match at or before it,
   * and when both start at the same place the two-digit value is the first two
   * digits: a three-digit rate outside the list falls back to its first two
   * digits unless an earlier two-digit `hr` comes first.
   */
  lemma {:induction false} HrThreeDigitFallback(l: string)
    requires LeftmostHr(l, 3, 0).Some?
    ensures LeftmostHr(l, 2, 0).Some? && LeftmostHr(l, 2, 0).value <= LeftmostHr(l, 3, 0).value
    ensures var p := LeftmostHr(l, 3, 0).value;
      LeftmostHr(l, 2, 0) == Some(p) ==> HrAt(l, p, 2) && HrValue(l, p, 2) == HrValue(l, p, 3) / 10
  {
    var p := LeftmostHr(l, 3, 0).value;
    assert l[p + 2..p + 4] == l[p + 2..p + 5][..2];
    assert HrAt(l, p, 2);
    DigitsValueDropLast(l[p + 2..p + 5]);
  }

  // ---------------------------------------------------------------------------
  // Display name
  // ---------------------------------------------------------------------------

  /** `charAt(0).toUpperCase() + slice(1)`. */
  function Capitalize(w: string): string {
    if w == [] then [] else [UpperChar(w[0])] + w[1..]
  }

  /** `getIntensityDisplayName`: the key under which an intensity's distance is summed. */
  function DisplayName(i: Option<Intensity>): (r: Option<string>)
    ensures r.Some? <==> i.Some?
  {
    match i
    case None => None
    case Some(HeartRate(v)) => Some("HR " + NatToDecimal(v))
    case Some(HeartRateBy10(v)) => Some("HR " + NatToDecimal(v))
    case Some(Standard(w)) => Some(Capitalize(w))
    case Some(PolarZone(w)) => Some(Capitalize(w))
    case Some(InternationalZone(w)) => Some(Capitalize(w))
  }

  /** Reads an intensity back from its display name, under a selected system. */
  function IntensityNamed(name: string, system: IntensitySystem): Option<Intensity> {
    if |name| > 3 && name[..3] == "HR " && AllDigits(name[3..]) then
      var v := DigitsValue(name[3..]);
      if v in HeartRateValues then Some(HeartRate(v))
      else if v in HeartRateBy10Values then Some(HeartRateBy10(v))
      else None
    else
      var w := Lower(name);
      if w in StandardWords then Some(Standard(w))
      else if system == Polar && w in PolarColours then Some(PolarZone(w))
      else if system == International && w in InternationalColours then Some(InternationalZone(w))
      else None
  }

  /**
   * Display names lose nothing: under one system, the intensity is read back
   * from its display name, so two intensities never share a key.
   */
  lemma DisplayNameRoundTrip(i: Intensity, system: IntensitySystem)
    requires IsIntensityOf(i, system)
    ensures IntensityNamed(DisplayName(Some(i)).value, system) == Some(i)
  {
    match i
    case HeartRate(v) =>
      assert DisplayName(Some(i)).value == "HR " + NatToDecimal(v);
      HeartRateNameRoundTrip(v, system);
    case HeartRateBy10(v) =>
      assert DisplayName(Some(i)).value == "HR " + NatToDecimal(v);
      HeartRateNameRoundTrip(v, system);
    case Standard(w) =>
      assert DisplayName(Some(i)).value == Capitalize(w);
      WordNameRoundTrip(w, system);
    case PolarZone(w) =>
      assert DisplayName(Some(i)).value == Capitalize(w);
      ColoursAreNotStandard(w);
      WordNameRoundTrip(w, system);
    case InternationalZone(w) =>
      assert DisplayName(Some(i)).value == Capitalize(w);
      ColoursAreNotStandard(w);
      WordNameRoundTrip(w, system);
  }

  /** A capitalized word of the vocabulary is read back through its lower-cased form. */
  lemma WordNameRoundTrip(w: string, system: IntensitySystem)
    requires w in StandardWords || w in PolarColours || w in InternationalColours
    ensures IntensityNamed(Capitalize(w), system) ==
      if w in StandardWords then Some(Standard(w))
      else if system == Polar && w in PolarColours then Some(PolarZone(w))
      else if system == International && w in InternationalColours then Some(InternationalZone(w))
      else None
  {
    CapitalizedWord(w);
  }

  lemma HeartRateNameRoundTrip(v: nat, system: IntensitySystem)
    requires v in HeartRateValues || v in HeartRateBy10Values
    ensures v in HeartRateValues ==> IntensityNamed("HR " + NatToDecimal(v), system) == Some(HeartRate(v))
    ensures v in HeartRateBy10Values ==> IntensityNamed("HR " + NatToDecimal(v), system) == Some(HeartRateBy10(v))
  {
    var name := "HR " + NatToDecimal(v);
    assert name[..3] == "HR " && name[3..] == NatToDecimal(v);
  }

  /** A word of one of the vocabularies: lower-case ASCII letters, not starting with `h`. */
  predicate LowerWord(w: string) {
    w != [] && w[0] != 'h' && forall k :: 0 <= k < |w| ==> 'a' <= w[k] <= 'z'
  }

  lemma VocabularyIsLowerWords(w: string)
    requires w in StandardWords || w in PolarColours || w in InternationalColours
    ensures LowerWord(w)
  {
  }

  lemma ColoursAreNotStandard(w: string)
    requires w in PolarColours || w in InternationalColours
    ensures w !in StandardWords
  {
  }

  /** A vocabulary word's display name lower-cases back to the word and does not start with `HR `. */
  lemma CapitalizedWord(w: string)
    requires w in StandardWords || w in PolarColours || w in InternationalColours
    ensures Lower(Capitalize(w)) == w
    ensures !(|Capitalize(w)| > 3 && Capitalize(w)[..3] == "HR ")
  {
    VocabularyIsLowerWords(w);
    var c := Capitalize(w);
    assert c[0] == UpperChar(w[0]) != 'H';
    assert c[..3][0] == c[0];
    forall k | 0 <= k < |w| ensures Lower(c)[k] == w[k] {
      if k > 0 { assert c[k] == w[k]; }
    }
  }
}
