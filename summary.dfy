/**
 * The workout summary of src/app/write-workout/page.tsx and the aggregation
 * that adds one scored unit (a plain line or a closed bracket group) to it.
 */
module Summary {
  import opened Text
  import opened Classifiers

  /** `strokeDistances`: one counter per stroke, all six always present. */
  datatype StrokeDistances = StrokeDistances(
    freestyle: nat, backstroke: nat, breaststroke: nat, butterfly: nat, im: nat, choice: nat)
  {
    function Get(s: Stroke): nat {
      match s
      case Freestyle => freestyle
      case Backstroke => backstroke
      case Breaststroke => breaststroke
      case Butterfly => butterfly
      case IM => im
      case Choice => choice
    }

    function Sum(): nat {
      freestyle + backstroke + breaststroke + butterfly + im + choice
    }

    /** `strokeDistances[s] += d`: only the counter of `s` grows, and by `d`. */
    function Add(s: Stroke, d: nat): (r: StrokeDistances)
      ensures r.Get(s) == Get(s) + d
      ensures forall t: Stroke :: t != s ==> r.Get(t) == Get(t)
      ensures r.Sum() == Sum() + d
    {
      match s
      case Freestyle => this.(freestyle := freestyle + d)
      case Backstroke => this.(backstroke := backstroke + d)
      case Breaststroke => this.(breaststroke := breaststroke + d)
      case Butterfly => this.(butterfly := butterfly + d)
      case IM => this.(im := im + d)
      case Choice => this.(choice := choice + d)
    }
  }

  /** `intensityDistances`: display label to distance, in the order labels were first seen. */
  type IntensityDistances = seq<(string, nat)>

  function Keys(m: IntensityDistances): (ks: seq<string>)
    ensures |ks| == |m|
  {
    if m == [] then [] else [m[0].0] + Keys(m[1..])
  }

  predicate UniqueKeys(m: IntensityDistances) {
    forall i, j :: 0 <= i < j < |m| ==> m[i].0 != m[j].0
  }

  /** `m[key] || 0`. */
  function Lookup(m: IntensityDistances, key: string): nat {
    if m == [] then 0 else if m[0].0 == key then m[0].1 else Lookup(m[1..], key)
  }

  function ValuesSum(m: IntensityDistances): nat {
    if m == [] then 0 else m[0].1 + ValuesSum(m[1..])
  }

  /**
   * `m[key] = (m[key] || 0) + d`: an existing key keeps its place and grows by
   * `d`; a new key is appended with `d`; every other key keeps its value.
   */
  function AddTo(m: IntensityDistances, key: string, d: nat): (r: IntensityDistances)
    ensures Keys(r) == if key in Keys(m) then Keys(m) else Keys(m) + [key]
    ensures Lookup(r, key) == Lookup(m, key) + d
    ensures forall k :: k != key ==> Lookup(r, k) == Lookup(m, k)
    ensures ValuesSum(r) == ValuesSum(m) + d
    ensures UniqueKeys(m) ==> UniqueKeys(r)
  {
    if m == [] then [(key, d)]
    else if m[0].0 == key then [(key, m[0].1 + d)] + m[1..]
    else
      var rest := AddTo(m[1..], key, d);
      assert UniqueKeys(m) ==> UniqueKeys([m[0]] + rest) by {
        if UniqueKeys(m) {
          KeysIndex(m);
          KeysIndex(m[1..]);
          KeysIndex(rest);
          UniqueKeysCons(m[0], rest);
        }
      }
      [m[0]] + rest
  }

  /** Prepending a pair whose key is new keeps the keys unique. */
  lemma UniqueKeysCons(p: (string, nat), rest: IntensityDistances)
    requires UniqueKeys(rest)
    requires forall i :: 0 <= i < |rest| ==> rest[i].0 != p.0
    ensures UniqueKeys([p] + rest)
  {
    var m := [p] + rest;
    forall i, j | 0 <= i < j < |m|
      ensures m[i].0 != m[j].0
    {
      assert m[j] == rest[j - 1];
      if i > 0 {
        assert m[i] == rest[i - 1];
      }
    }
  }

  lemma {:induction false} KeysIndex(m: IntensityDistances)
    ensures forall i :: 0 <= i < |m| ==> Keys(m)[i] == m[i].0
  {
    if m != [] {
      KeysIndex(m[1..]);
    }
  }

  /** `WorkoutSummary`. */
  datatype WorkoutSummary = WorkoutSummary(
    totalDistance: nat, strokeDistances: StrokeDistances, intensityDistances: IntensityDistances)

  /** The freshly zeroed summary every parse starts from. */
  const EmptySummary := WorkoutSummary(0, StrokeDistances(0, 0, 0, 0, 0, 0), [])

  /**
   * The summary's invariant: the total is the sum of the six stroke counters,
   * the intensity labels sum to at most the total, and no label is repeated.
   */
  predicate Consistent(s: WorkoutSummary) {
    s.totalDistance == s.strokeDistances.Sum()
    && ValuesSum(s.intensityDistances) <= s.totalDistance
    && UniqueKeys(s.intensityDistances)
  }

  /**
   * A scored unit: the text that is classified, its distance before the
   * repeat count, and the repeat count pending when it was scored.
   */
  datatype Unit = Unit(text: string, distance: nat, multiplier: nat)

  /**
   * The summary with `amount` added to the total, to the counter of
   * `stroke` and, when there is a label, to that intensity label: the update
   * both scoring sites of the scan make.
   */
  function Recorded(s: WorkoutSummary, amount: nat, stroke: Stroke, name: Option<string>): WorkoutSummary {
    WorkoutSummary(
      s.totalDistance + amount,
      s.strokeDistances.Add(stroke, amount),
      if name.Some? then AddTo(s.intensityDistances, name.value, amount) else s.intensityDistances)
  }

  /**
   * Adds a unit: its amount, for the stroke and the intensity label of its
   * text.
   */
  function AddUnit(s: WorkoutSummary, u: Unit, system: IntensitySystem): WorkoutSummary {
    Recorded(s, Product(u.distance, u.multiplier), GetStroke(u.text), DisplayName(GetIntensity(u.text, system)))
  }

  /**
   * Recording an amount keeps the summary's invariant: the total and the
   * stroke counters grow by the same amount, the labels by at most that, and
   * a label already present is not repeated.
   */
  lemma RecordedConsistent(s: WorkoutSummary, amount: nat, stroke: Stroke, name: Option<string>)
    requires Consistent(s)
    ensures var r := Recorded(s, amount, stroke, name);
      Consistent(r) && r.totalDistance == s.totalDistance + amount
      && r.strokeDistances.Get(stroke) == s.strokeDistances.Get(stroke) + amount
  {
  }

  /**
   * The in-place summary update of a scored line or group, specified by
   * `Recorded`.
   */
  method Record(summary: WorkoutSummary, totalDistance: nat, stroke: Stroke, intensityName: Option<string>)
    returns (updated: WorkoutSummary)
    ensures updated == Recorded(summary, totalDistance, stroke, intensityName)
  {
    updated := summary.(totalDistance := summary.totalDistance + totalDistance);
    updated := updated.(strokeDistances := updated.strokeDistances.Add(stroke, totalDistance));
    if intensityName.Some? {
      updated := updated.(intensityDistances := AddTo(updated.intensityDistances, intensityName.value, totalDistance));
    }
  }

  /** The summary of a sequence of units, added left to right to the zeroed summary. */
  function Aggregate(units: seq<Unit>, system: IntensitySystem): WorkoutSummary {
    if units == [] then EmptySummary
    else AddUnit(Aggregate(units[..|units| - 1], system), units[|units| - 1], system)
  }

  /** Sum of distance times repeat count over the units. */
  function UnitsTotal(units: seq<Unit>): nat {
    if units == [] then 0 else UnitsTotal(units[..|units| - 1]) + Product(units[|units| - 1].distance, units[|units| - 1].multiplier)
  }

  /** Every aggregate keeps the summary's invariant. */
  lemma {:induction false} AggregateConsistent(units: seq<Unit>, system: IntensitySystem)
    ensures Consistent(Aggregate(units, system))
    decreases |units|
  {
    if units != [] {
      AggregateConsistent(units[..|units| - 1], system);
      var u := units[|units| - 1];
      RecordedConsistent(Aggregate(units[..|units| - 1], system), Product(u.distance, u.multiplier), GetStroke(u.text), DisplayName(GetIntensity(u.text, system)));
    }
  }

  /** The total is the sum over the units of distance times repeat count. */
  lemma {:induction false} AggregateTotal(units: seq<Unit>, system: IntensitySystem)
    ensures Aggregate(units, system).totalDistance == UnitsTotal(units)
    decreases |units|
  {
    if units != [] {
      AggregateTotal(units[..|units| - 1], system);
    }
  }

  /** Every intensity label of an aggregate is the label of one of its units. */
  lemma {:induction false} AggregateLabelsFromUnits(units: seq<Unit>, system: IntensitySystem, key: string)
    requires key in Keys(Aggregate(units, system).intensityDistances)
    ensures exists k :: 0 <= k < |units| && DisplayName(GetIntensity(units[k].text, system)) == Some(key)
    decreases |units|
  {
    var n := |units| - 1;
    var before := Aggregate(units[..n], system);
    var name := DisplayName(GetIntensity(units[n].text, system));
    if name == Some(key) {
      assert DisplayName(GetIntensity(units[n].text, system)) == Some(key);
    } else {
      assert key in Keys(before.intensityDistances);
      AggregateLabelsFromUnits(units[..n], system, key);
      var k :| 0 <= k < n && DisplayName(GetIntensity(units[..n][k].text, system)) == Some(key);
      assert units[..n][k] == units[k];
    }
  }
}
