/** Which diagnoses of `Correlate` can appear together: the table of exclusions is exact. */
module CoOccurrence {
  import opened Correlate
  import opened Insights
  import opened SampleReadings

  /** Two different rules fire together on some insight list, or one fires at all, exactly unless they are excluded. */
  lemma CoOccurIffNotExcluded(r1: Rule, r2: Rule)
    ensures (exists l :: Fires(r1, l) && Fires(r2, l)) <==> !Excludes(r1, r2)
  {
    if Excludes(r1, r2) {
      forall l: seq<Insight> ensures !(Fires(r1, l) && Fires(r2, l)) {
        ContradictionsNeverCoOccur(r1, r2, l);
      }
    } else {
      var levels := LevelsFor(r1, r2);
      var l := Readings(levels);
      ReadingsMatch(levels);
      SuitableLevelsWarrant(r1, levels, Reported(l));
      SuitableLevelsWarrant(r2, levels, Reported(l));
      FiresIffWarranted(r1, l);
      FiresIffWarranted(r2, l);
    }
  }
}
