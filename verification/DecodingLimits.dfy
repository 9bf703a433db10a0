/** A run that does not decode (decode.go). */
module DecodingLimits {
  import opened Text
  import opened Uuids
  import opened Timestamps
  import opened Evidence
  import opened Comparisons
  import opened Decoding
  import opened SampleEvidence

  lemma MidnightDay(day: int)
    ensures ClockOf(WallMicros(Time(day * DAY, 0))).date == CivilOf(day)
  {
    hide CivilOf;
    var micros := WallMicros(Time(day * DAY, 0));
    assert micros == day * 86_400_000_000;
    var seconds := micros / 1_000_000;
    assert seconds == day * 86_400;
    assert seconds / 60 == day * 1_440;
    assert seconds / 60 / 60 == day * 24;
    assert seconds / 60 / 60 / 24 == day;
  }

  lemma LateDay(day: int)
    requires day >= YearStart(10_000)
    ensures Year(Time(day * DAY, 0)) >= 10_000
  {
    hide CivilOf, ClockOf, YearStart;
    MidnightDay(day);
    var c := CivilOf(day);
    DayWithinYear(c);
    if c.year + 1 <= 10_000 { YearStartMonotone(c.year + 1, 10_000); }
  }

  lemma LateIsPositive(day: int)
    requires day >= YearStart(10_000)
    ensures day > 0
  {
  }

  /** From the year ten thousand on a comparison succeeds and its payload is refused. */
  lemma LateRunNotDecoded(p: Platform, account: Uuid, day: int)
    requires PlainPlatform(p) && account != NIL && day >= YearStart(10_000)
    ensures Comparable(p, SampleComparison(p, account, day))
    ensures DecodedRun(p, BuildRun(p, SampleComparison(p, account, day)).payload) == None
  {
    hide Comparable, BuildRun, DecodedRun, YearStart, Year;
    LateIsPositive(day);
    SampleComparable(p, account, day);
    LateDay(day);
    RunRoundTrip(p, SampleComparison(p, account, day));
  }
}
