/**
 * Cases of `getIntensity` in src/app/write-workout/page.tsx worked out in
 * full: a three-digit heart rate outside the list falls back to its first two
 * digits, only the leftmost heart-rate match is read, and a colour word
 * counts only under the system that lists it.
 */
module IntensityCases {
  import opened Text
  import opened Classifiers

  /** `hr250`: 250 is not a listed rate, so the two-digit reading 25 wins. */
  lemma Hr250(system: IntensitySystem)
    ensures GetIntensity("hr250", system) == Some(HeartRateBy10(25))
  {
    assert "hr250" + [] == "hr250";
    Hr250First([], system);
  }

  /**
   * Whatever follows `hr250`, the result is 25: only the leftmost
   * three-digit match is read and 250 is not a listed rate, so a listed rate
   * later in the text, as in `hr250 hr165`, is never seen.
   */
  lemma Hr250First(rest: string, system: IntensitySystem)
    ensures GetIntensity("hr250" + rest, system) == Some(HeartRateBy10(25))
  {
    var l := Lower("hr250" + rest);
    assert l[..5] == "hr250" by {
      forall k | 0 <= k < 5 ensures l[k] == "hr250"[k] {
        assert ("hr250" + rest)[k] == "hr250"[k];
      }
    }
    assert l[0] == 'h' && l[1] == 'r';
    assert l[2..5] == "250" && l[2..4] == "25" by {
      assert l[2..5] == l[..5][2..5] && l[2..4] == l[..5][2..4];
    }
    assert "250"[..2] == "25" && "25"[..1] == "2" && "2"[..0] == [];
    assert DigitsValue("2") == 2;
    assert DigitsValue("25") == 25;
    assert HrAt(l, 0, 3) && HrValue(l, 0, 3) == 250;
    assert LeftmostHr(l, 3, 0) == Some(0);
    assert HrAt(l, 0, 2) && HrValue(l, 0, 2) == 25;
    assert LeftmostHr(l, 2, 0) == Some(0);
  }

  /** `hr250 hr165` is `HR 25`, never `HR 165`. */
  lemma Hr250BeforeHr165(system: IntensitySystem)
    ensures GetIntensity("hr250 hr165", system) == Some(HeartRateBy10(25))
  {
    assert "hr250 hr165" == "hr250" + " hr165";
    Hr250First(" hr165", system);
  }

  /** `grey` is a Polar zone. */
  lemma GreyUnderPolar()
    ensures GetIntensity("grey", Polar) == Some(PolarZone("grey"))
  {
    assert Lower("grey") == "grey";
    GreyNoHeartRate();
    GreyNotStandard();
    assert OccursAt("grey", "grey", 0);
  }

  /** `grey` is not an international colour, so under that system it yields nothing. */
  lemma GreyUnderInternational()
    ensures GetIntensity("grey", International) == None
  {
    assert Lower("grey") == "grey";
    GreyNoHeartRate();
    GreyNotStandard();
    GreyNotInternational();
  }

  lemma GreyNoHeartRate()
    ensures LeftmostHr("grey", 3, 0) == None && LeftmostHr("grey", 2, 0) == None
  {
    assert 'h' !in "grey";
  }

  lemma GreyNotStandard()
    ensures FirstWord("grey", StandardWords) == None
  {
    AbsentCharNotContained("grey", "easy", 1);
    AbsentCharNotContained("grey", "moderate", 0);
    AbsentCharNotContained("grey", "strong", 0);
    AbsentCharNotContained("grey", "fast", 0);
  }

  lemma GreyNotInternational()
    ensures FirstWord("grey", InternationalColours) == None
  {
    AbsentCharNotContained("grey", "yellow", 2);
    AbsentCharNotContained("grey", "white", 0);
    AbsentCharNotContained("grey", "pink", 0);
    AbsentCharNotContained("grey", "red", 2);
    AbsentCharNotContained("grey", "blue", 0);
    AbsentCharNotContained("grey", "brown", 0);
    AbsentCharNotContained("grey", "purple", 0);
  }
}
