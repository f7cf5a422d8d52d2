/**
 * The line scanner of `updateWorkoutSummary` in src/app/write-workout/page.tsx:
 * a state machine over the trimmed lines that tracks a pending repeat count
 * and an open bracket group, and scores plain lines and closed groups.
 */
module Scanner {
  import opened Text
  import opened Classifiers
  import opened Distances
  import opened Summary

  /** The four variables the scan carries from line to line. */
  datatype ScanState = ScanState(
    pendingMultiplier: nat, bracketContent: string, bracketCount: int, collectingBracket: bool)

  const InitialState := ScanState(1, "", 0, false)

  // ---------------------------------------------------------------------------
  // Bracket balance
  // ---------------------------------------------------------------------------

  /** Number of `(`, `[` and `{` in `s`. */
  function OpenCount(s: string): nat {
    if s == [] then 0 else (if IsOpenBracket(s[0]) then 1 else 0) + OpenCount(s[1..])
  }

  /** Number of `)`, `]` and `}` in `s`. */
  function CloseCount(s: string): nat {
    if s == [] then 0 else (if IsCloseBracket(s[0]) then 1 else 0) + CloseCount(s[1..])
  }

  /** Opening brackets minus closing brackets, kinds not distinguished. */
  function Balance(s: string): int {
    OpenCount(s) - CloseCount(s)
  }

  lemma {:induction false} OpenCountAppend(a: string, b: string)
    ensures OpenCount(a + b) == OpenCount(a) + OpenCount(b)
    decreases |a|
  {
    if a == [] {
      assert a + b == b;
    } else {
      assert (a + b)[0] == a[0] && (a + b)[1..] == a[1..] + b;
      OpenCountAppend(a[1..], b);
    }
  }

  lemma {:induction false} CloseCountAppend(a: string, b: string)
    ensures CloseCount(a + b) == CloseCount(a) + CloseCount(b)
    decreases |a|
  {
    if a == [] {
      assert a + b == b;
    } else {
      assert (a + b)[0] == a[0] && (a + b)[1..] == a[1..] + b;
      CloseCountAppend(a[1..], b);
    }
  }

  /**
   * The balance is additive, so a count kept line by line, as the scan does,
   * is the balance of the joined lines; the newline between them is not a
   * bracket.
   */
  lemma BalanceJoin(a: string, b: string)
    ensures Balance(a + "\n" + b) == Balance(a) + Balance(b)
  {
    OpenCountAppend(a + "\n", b);
    CloseCountAppend(a + "\n", b);
    OpenCountAppend(a, "\n");
    CloseCountAppend(a, "\n");
  }

  // ---------------------------------------------------------------------------
  // One line
  // ---------------------------------------------------------------------------

  /**
   * The effect of one line on the scan: the next state and the unit the line
   * scores, if any. The tests run in the order of the source: blank line,
   * standalone repeat count, repeat count opening a group, group opening,
   * line inside a group, plain line; the first three apply only outside a
   * group, so a line is read either as a line outside a group or as a line
   * of the open group.
   */
  function ScanLine(st: ScanState, line: string): (ScanState, Option<Unit>) {
    var t := Trim(line);
    if t == [] then (st, None)
    else if st.collectingBracket then GroupLine(st, t)
    else OutsideLine(st, t)
  }

  /** A non-blank trimmed line read outside a bracket group. */
  function OutsideLine(st: ScanState, t: string): (ScanState, Option<Unit>)
    requires t != []
  {
    if StandaloneMultiplier(t).Some? then
      (st.(pendingMultiplier := StandaloneMultiplier(t).value), None)
    else if MultiplierBracket(t).Some? then
      var content := t[MultiplierBracket(t).value.1..];
      (ScanState(MultiplierBracket(t).value.0, content, Balance(content), true), None)
    else if IsOpenBracket(t[0]) then
      (st.(bracketContent := t, bracketCount := Balance(t), collectingBracket := true), None)
    else
      PlainLine(st, t)
  }

  /** A plain line: scored when its distance is positive, which also resets the repeat count. */
  function PlainLine(st: ScanState, t: string): (ScanState, Option<Unit>) {
    var d := SetDistance(t);
    if d > 0 then (st.(pendingMultiplier := 1), Some(Unit(Trim(Lower(t)), d, st.pendingMultiplier)))
    else (st, None)
  }

  /**
   * A non-blank trimmed line read inside a bracket group: appended to the
   * group; when the count of open brackets comes back to 0 the group is
   * scored (if its distance is positive) and the scan leaves the group with
   * the repeat count reset.
   */
  function GroupLine(st: ScanState, t: string): (ScanState, Option<Unit>) {
    var content := st.bracketContent + "\n" + t;
    var count := st.bracketCount + Balance(t);
    if count == 0 then
      var d := GroupDistance(content);
      (ScanState(1, "", count, false), if d > 0 then Some(Unit(content, d, st.pendingMultiplier)) else None)
    else
      (st.(bracketContent := content, bracketCount := count), None)
  }

  /**
   * The scan of a sequence of lines from the initial state: the final state
   * and the units scored, in order. Every unit scored has a positive distance.
   */
  function Scan(lines: seq<string>): (r: (ScanState, seq<Unit>))
    ensures forall k :: 0 <= k < |r.1| ==> r.1[k].distance > 0
  {
    if lines == [] then (InitialState, [])
    else
      var before := Scan(lines[..|lines| - 1]);
      var step := ScanLine(before.0, lines[|lines| - 1]);
      ScanLineScoresPositive(before.0, lines[|lines| - 1]);
      (step.0, if step.1.Some? then before.1 + [step.1.value] else before.1)
  }

  /** A line scores only a unit with a positive distance. */
  lemma ScanLineScoresPositive(st: ScanState, line: string)
    ensures ScanLine(st, line).1.Some? ==> ScanLine(st, line).1.value.distance > 0
  {
  }

  /** The summary of a workout text. */
  function ParseWorkout(text: string, system: IntensitySystem): WorkoutSummary {
    Aggregate(Scan(SplitLines(text)).1, system)
  }

  /** The summary of every workout text keeps the summary's invariant. */
  lemma ParseWorkoutConsistent(text: string, system: IntensitySystem)
    ensures Consistent(ParseWorkout(text, system))
  {
    AggregateConsistent(Scan(SplitLines(text)).1, system);
  }

  /** Scanning one more line is one more step of `ScanLine`. */
  lemma ScanStep(lines: seq<string>, i: nat)
    requires i < |lines|
    ensures var before := Scan(lines[..i]);
      var step := ScanLine(before.0, lines[i]);
      Scan(lines[..i + 1]) == (step.0, if step.1.Some? then before.1 + [step.1.value] else before.1)
  {
    assert lines[..i + 1][..i] == lines[..i];
  }

  /** Adding one more unit is one more step of `AddUnit`. */
  lemma AggregateStep(units: seq<Unit>, u: Option<Unit>, system: IntensitySystem)
    ensures u.Some? ==> Aggregate(units + [u.value], system) == AddUnit(Aggregate(units, system), u.value, system)
  {
    if u.Some? {
      assert (units + [u.value])[..|units|] == units;
    }
  }

  // ---------------------------------------------------------------------------
  // The loop
  // ---------------------------------------------------------------------------

  /** The summary with the unit a line scored added, if it scored one. */
  function Score(s: WorkoutSummary, u: Option<Unit>, system: IntensitySystem): WorkoutSummary {
    if u.Some? then AddUnit(s, u.value, system) else s
  }

  /**
   * `updateWorkoutSummary`: scans the lines of the text once, updating the
   * summary in place; the result is the summary of the text and keeps the
   * summary's invariant.
   */
  method UpdateWorkoutSummary(text: string, system: IntensitySystem) returns (summary: WorkoutSummary)
    ensures summary == ParseWorkout(text, system)
    ensures Consistent(summary)
  {
    var lines := SplitLines(text);
    summary := WorkoutSummary(0, StrokeDistances(0, 0, 0, 0, 0, 0), []);
    var state := ScanState(1, "", 0, false);
    for i := 0 to |lines|
      invariant state == Scan(lines[..i]).0
      invariant summary == Aggregate(Scan(lines[..i]).1, system)
    {
      LoopStep(lines, i, system);
      var trimmedLine := Trim(lines[i]);
      if trimmedLine == [] {
        continue;
      }
      if !state.collectingBracket {
        state, summary := ReadOutsideLine(state, summary, trimmedLine, system);
      } else {
        state, summary := ReadGroupLine(state, summary, trimmedLine, system);
      }
    }
    assert lines[..|lines|] == lines;
    AggregateConsistent(Scan(lines).1, system);
  }

  /** One turn of the loop: the state and the summary after line `i` follow from those before it. */
  lemma LoopStep(lines: seq<string>, i: nat, system: IntensitySystem)
    requires i < |lines|
    ensures var before := Scan(lines[..i]);
      var step := ScanLine(before.0, lines[i]);
      Scan(lines[..i + 1]).0 == step.0
      && Aggregate(Scan(lines[..i + 1]).1, system) == Score(Aggregate(before.1, system), step.1, system)
  {
    ScanStep(lines, i);
    AggregateStep(Scan(lines[..i]).1, ScanLine(Scan(lines[..i]).0, lines[i]).1, system);
  }

  /**
   * One non-blank trimmed line outside a bracket group: a standalone repeat
   * count, a repeat count opening a group, a group opening, or a plain line
   * scored through `parseLine`.
   */
  method ReadOutsideLine(st: ScanState, summary: WorkoutSummary, trimmedLine: string, system: IntensitySystem)
    returns (next: ScanState, updated: WorkoutSummary)
    requires trimmedLine != []
    ensures next == OutsideLine(st, trimmedLine).0
    ensures updated == Score(summary, OutsideLine(st, trimmedLine).1, system)
  {
    next, updated := st, summary;
    var multiplierMatch := StandaloneMultiplier(trimmedLine);
    if multiplierMatch.Some? {
      next := next.(pendingMultiplier := multiplierMatch.value);
      return;
    }

    var multiplierBracketMatch := MultiplierBracket(trimmedLine);
    if multiplierBracketMatch.Some? {
      var bracketContent := trimmedLine[multiplierBracketMatch.value.1..];
      next := ScanState(multiplierBracketMatch.value.0, bracketContent, Balance(bracketContent), true);
      return;
    }

    if IsOpenBracket(trimmedLine[0]) {
      next := next.(bracketContent := trimmedLine, bracketCount := Balance(trimmedLine), collectingBracket := true);
      return;
    }

    next, updated := ReadPlainLine(st, summary, trimmedLine, system);
  }

  /** A plain line, scored through `parseLine` when its distance is positive. */
  method ReadPlainLine(st: ScanState, summary: WorkoutSummary, trimmedLine: string, system: IntensitySystem)
    returns (next: ScanState, updated: WorkoutSummary)
    ensures next == PlainLine(st, trimmedLine).0
    ensures updated == Score(summary, PlainLine(st, trimmedLine).1, system)
  {
    next, updated := st, summary;
    var parsed := ParseLine(trimmedLine, system);
    if parsed.distance > 0 {
      var totalDistance := Product(parsed.distance, st.pendingMultiplier);
      var intensityName := DisplayName(parsed.intensity);
      updated := Record(updated, totalDistance, parsed.stroke, intensityName);
      assert PlainLine(st, trimmedLine).1 == Some(Unit(Trim(Lower(trimmedLine)), parsed.distance, st.pendingMultiplier));
      next := next.(pendingMultiplier := 1);
    }
  }

  /**
   * One non-blank trimmed line inside a bracket group: appended to the group,
   * which is scored through `parseBracketContent` once its brackets balance.
   */
  method ReadGroupLine(st: ScanState, summary: WorkoutSummary, trimmedLine: string, system: IntensitySystem)
    returns (next: ScanState, updated: WorkoutSummary)
    ensures next == GroupLine(st, trimmedLine).0
    ensures updated == Score(summary, GroupLine(st, trimmedLine).1, system)
  {
    var bracketContent := st.bracketContent + "\n" + trimmedLine;
    var openBrackets: int := OpenCount(trimmedLine);
    var closeBrackets: int := CloseCount(trimmedLine);
    var bracketCount := st.bracketCount + (openBrackets - closeBrackets);
    next, updated := st.(bracketContent := bracketContent, bracketCount := bracketCount), summary;
    if bracketCount == 0 {
      var bracketDistance := ParseBracketContent(bracketContent);
      if bracketDistance > 0 {
        var totalDistance := Product(bracketDistance, st.pendingMultiplier);
        var stroke := GetStroke(bracketContent);
        var intensityName := DisplayName(GetIntensity(bracketContent, system));
        updated := Record(updated, totalDistance, stroke, intensityName);
        assert GroupLine(st, trimmedLine).1 == Some(Unit(bracketContent, bracketDistance, st.pendingMultiplier));
      }
      next := ScanState(1, "", bracketCount, false);
    }
  }

  // ---------------------------------------------------------------------------
  // Properties of the scan
  // ---------------------------------------------------------------------------

  /**
   * Outside a group, a line with no digit that does not open a group changes
   * nothing: heading lines such as `Main Set:` score nothing and keep the
   * pending repeat count.
   */
  lemma HeadingLineKeepsState(st: ScanState, line: string)
    requires !st.collectingBracket && !HasDigit(line)
    requires Trim(line) != [] ==> !IsOpenBracket(Trim(line)[0])
    ensures ScanLine(st, line) == (st, None)
  {
    var t := Trim(line);
    if t != [] {
      DigitFreeSlice(line, LeadingSpaces(line), LeadingSpaces(line) + |t|);
      NoDigitNoRepeat(t);
      DigitFreeSetDistance(t);
    }
  }

  /** Outside a group, a line `N x` sets the pending repeat count to N and scores nothing. */
  lemma RepeatCountLine(st: ScanState, line: string, h: RepeatHead)
    requires !st.collectingBracket
    requires HeadAt(Trim(line), h) && h.End() == |Trim(line)|
    ensures ScanLine(st, line) == (st.(pendingMultiplier := DigitsValue(Trim(line)[..h.digits])), None)
  {
    StandaloneMultiplierComplete(Trim(line), h);
  }

  /**
   * Outside a group, a line `N x (...` opens a group holding the text from
   * the bracket on, with repeat count N and its own bracket balance.
   */
  lemma RepeatCountGroupLine(st: ScanState, line: string, h: RepeatHead)
    requires !st.collectingBracket
    requires var t := Trim(line); HeadAt(t, h) && h.End() < |t| && IsOpenBracket(t[h.End()])
    ensures var t := Trim(line); var content := t[h.End()..];
      ScanLine(st, line) == (ScanState(DigitsValue(t[..h.digits]), content, Balance(content), true), None)
  {
    var t := Trim(line);
    RepeatHeadComplete(t, h);
    MultiplierBracketComplete(t, h);
  }

  /**
   * Outside a group, a line starting with a bracket opens a group holding the
   * whole line; the repeat count is kept, and the line's own balance is not
   * tested.
   */
  lemma BracketLineOpensGroup(st: ScanState, line: string)
    requires !st.collectingBracket && Trim(line) != [] && IsOpenBracket(Trim(line)[0])
    ensures ScanLine(st, line)
      == (st.(bracketContent := Trim(line), bracketCount := Balance(Trim(line)), collectingBracket := true), None)
  {
    assert DigitsFrom(Trim(line), 0) == 0;
  }

  /**
   * A group opened and closed on one line stays open, and absorbs the next
   * non-blank line: a balanced next line closes the merged group, which is
   * scored as a whole at the repeat count pending before the group.
   */
  lemma OneLineGroupAbsorbsNextLine(st: ScanState, line: string, next: string)
    requires !st.collectingBracket && Trim(line) != [] && IsOpenBracket(Trim(line)[0])
    requires Balance(Trim(line)) == 0 && Trim(next) != []
    ensures var after := ScanLine(ScanLine(st, line).0, next);
      var content := Trim(line) + "\n" + Trim(next);
      var d := GroupDistance(content);
      if Balance(Trim(next)) == 0 then
        after == (ScanState(1, "", 0, false), if d > 0 then Some(Unit(content, d, st.pendingMultiplier)) else None)
      else
        after == (ScanState(st.pendingMultiplier, content, Balance(Trim(next)), true), None)
  {
    BracketLineOpensGroup(st, line);
  }

  /**
   * Outside a group, a line that opens a group, with or without a repeat
   * count before its bracket, scores nothing and leaves the group open, even
   * when the group closes on that same line.
   */
  lemma GroupOpeningScoresNothing(st: ScanState, line: string)
    requires var t := Trim(line);
      !st.collectingBracket && t != [] && (IsOpenBracket(t[0]) || MultiplierBracket(t).Some?)
    ensures ScanLine(st, line).1 == None && ScanLine(st, line).0.collectingBracket
  {
    var t := Trim(line);
    if !IsOpenBracket(t[0]) {
      MatchRepeatHeadSound(t);
    }
  }

  /**
   * A group opened on line `n` adds nothing when that line is the last: a
   * text ending in `4x (100 fly + 100 free)`, with or without its repeat
   * count on the line before, ends with that group open and unscored.
   */
  lemma TrailingGroupIsDropped(lines: seq<string>, n: nat)
    requires n < |lines|
    requires var t := Trim(lines[n]);
      !Scan(lines[..n]).0.collectingBracket && t != [] && (IsOpenBracket(t[0]) || MultiplierBracket(t).Some?)
    ensures Scan(lines[..n + 1]).0.collectingBracket
    ensures Scan(lines[..n + 1]).1 == Scan(lines[..n]).1
  {
    ScanStep(lines, n);
    GroupOpeningScoresNothing(Scan(lines[..n]).0, lines[n]);
  }

  /**
   * While a group is open, the running bracket count is the balance of the
   * group text collected so far: adding each line's opening minus closing
   * brackets recounts the whole group.
   */
  lemma CountIsBalance(st: ScanState, line: string)
    requires st.collectingBracket ==> st.bracketCount == Balance(st.bracketContent)
    ensures var next := ScanLine(st, line).0;
      next.collectingBracket ==> next.bracketCount == Balance(next.bracketContent)
  {
    var t := Trim(line);
    if t != [] && st.collectingBracket {
      BalanceJoin(st.bracketContent, t);
    }
  }

  /** After every prefix of the text, an open group's count is the balance of its text. */
  lemma {:induction false} ScanCountIsBalance(lines: seq<string>)
    ensures var st := Scan(lines).0;
      st.collectingBracket ==> st.bracketCount == Balance(st.bracketContent)
    decreases |lines|
  {
    if lines != [] {
      var n := |lines| - 1;
      ScanCountIsBalance(lines[..n]);
      CountIsBalance(Scan(lines[..n]).0, lines[n]);
    }
  }

  /**
   * While a group stays open, the lines read score nothing: from line `i` to
   * line `n`, if the group is open after every line, the units scored are
   * those scored before line `i`. A group still open at the end of the text
   * adds nothing to the summary.
   */
  lemma {:induction false} OpenGroupScoresNothing(lines: seq<string>, i: nat, n: nat)
    requires i <= n <= |lines|
    requires forall j :: i <= j <= n ==> Scan(lines[..j]).0.collectingBracket
    ensures Scan(lines[..n]).1 == Scan(lines[..i]).1
    decreases n - i
  {
    if i < n {
      var k := n - 1;
      OpenGroupScoresNothing(lines, i, k);
      assert Scan(lines[..k]).0.collectingBracket && Scan(lines[..k + 1]).0.collectingBracket;
      OpenGroupStep(lines, k);
      assert Scan(lines[..k + 1]).1 == Scan(lines[..k]).1;
    }
  }

  /** A line after which the group is still open scores nothing. */
  lemma OpenGroupStep(lines: seq<string>, k: nat)
    requires k < |lines| && Scan(lines[..k]).0.collectingBracket && Scan(lines[..k + 1]).0.collectingBracket
    ensures Scan(lines[..k + 1]).1 == Scan(lines[..k]).1
  {
    ScanStep(lines, k);
  }

  /**
   * The pending repeat count changes only on a repeat-count line outside a
   * group, on a scored line, or when a group closes.
   */
  lemma MultiplierChangesOnlyOnEvents(st: ScanState, line: string)
    ensures var r := ScanLine(st, line);
      r.0.pendingMultiplier != st.pendingMultiplier ==>
        (!st.collectingBracket && (StandaloneMultiplier(Trim(line)).Some? || MultiplierBracket(Trim(line)).Some?))
        || r.1.Some?
        || (st.collectingBracket && !r.0.collectingBracket)
  {
  }

  /** A line without digits scores nothing and keeps the group text digit-free. */
  lemma ScanLineDigitFree(st: ScanState, line: string)
    requires !HasDigit(st.bracketContent) && !HasDigit(line)
    ensures ScanLine(st, line).1 == None && !HasDigit(ScanLine(st, line).0.bracketContent)
  {
    var t := Trim(line);
    if t != [] {
      DigitFreeSlice(line, LeadingSpaces(line), LeadingSpaces(line) + |t|);
      if st.collectingBracket {
        DigitFreeJoin(st.bracketContent, t);
        DigitFreeGroupDistance(st.bracketContent + "\n" + t);
      } else {
        NoDigitNoRepeat(t);
        DigitFreeSetDistance(t);
      }
    }
  }

  /** Scanning lines without digits scores nothing. */
  lemma {:induction false} ScanDigitFree(lines: seq<string>)
    requires forall k :: 0 <= k < |lines| ==> !HasDigit(lines[k])
    ensures Scan(lines).1 == [] && !HasDigit(Scan(lines).0.bracketContent)
    decreases |lines|
  {
    if lines != [] {
      var n := |lines| - 1;
      ScanDigitFree(lines[..n]);
      ScanLineDigitFree(Scan(lines[..n]).0, lines[n]);
    }
  }

  /** A text without digits, whatever its words and brackets, has the zeroed summary. */
  lemma DigitFreeTextIsEmpty(text: string, system: IntensitySystem)
    requires !HasDigit(text)
    ensures ParseWorkout(text, system) == EmptySummary
  {
    SplitLinesDigitFree(text);
    ScanDigitFree(SplitLines(text));
  }

  /**
   * Every intensity label of a summary is the label of a unit the scan
   * scored, and that unit has a positive distance.
   */
  lemma ParseWorkoutLabels(text: string, system: IntensitySystem, key: string)
    requires key in Keys(ParseWorkout(text, system).intensityDistances)
    ensures exists u ::
      u in Scan(SplitLines(text)).1 && u.distance > 0 && DisplayName(GetIntensity(u.text, system)) == Some(key)
  {
    var units := Scan(SplitLines(text)).1;
    AggregateLabelsFromUnits(units, system, key);
    var k :| 0 <= k < |units| && DisplayName(GetIntensity(units[k].text, system)) == Some(key);
    assert units[k] in units;
  }
}
