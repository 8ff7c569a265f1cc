/** The overlap test that both the availability create and the booking create
    put to the database: an existing interval [es, ee) blocks a requested
    interval [ns, ne) when
      (es <= ns && ee > ns) || (es < ne && ee >= ne)
    with every comparison made on the stored text. The lemmas relate it to the
    half-open overlap of the minute intervals. */
module Conflict {
  import opened TimeOfDay

  /** The two-clause filter of availability.service.ts and booking.service.ts. */
  predicate Blocks(es: string, ee: string, ns: string, ne: string) {
    || (AtMost(es, ns) && Less(ns, ee))
    || (Less(es, ne) && AtMost(ne, ee))
  }

  /** Half-open intervals [s1, e1) and [s2, e2) share a minute. */
  predicate Overlaps(s1: int, e1: int, s2: int, e2: int) {
    s1 < e2 && s2 < e1
  }

  /** Zero-padded "HH:MM" text: the form in which text order and minute order agree. */
  predicate Padded(t: string) {
    IsTime(t) && |t| == 5
  }

  /** For zero-padded times and non-empty intervals, the filter blocks exactly the
      overlapping existing intervals that are NOT strictly inside the requested one. */
  lemma BlocksCharacterized(es: string, ee: string, ns: string, ne: string)
    requires Padded(es) && Padded(ee) && Padded(ns) && Padded(ne)
    requires Minutes(es) < Minutes(ee) && Minutes(ns) < Minutes(ne)
    ensures Blocks(es, ee, ns, ne) <==>
      && Overlaps(Minutes(es), Minutes(ee), Minutes(ns), Minutes(ne))
      && !(Minutes(ns) < Minutes(es) && Minutes(ee) < Minutes(ne))
  {
    TwoDigitOrder(es, ns);
    TwoDigitOrder(ns, ee);
    TwoDigitOrder(es, ne);
    TwoDigitOrder(ne, ee);
    TwoDigitRoundTrip(es);
    TwoDigitRoundTrip(ns);
    TwoDigitRoundTrip(ne);
    TwoDigitRoundTrip(ee);
  }

  /** Soundness: with zero-padded times and a non-empty requested interval, a
      blocking interval really overlaps it. */
  lemma BlocksSound(es: string, ee: string, ns: string, ne: string)
    requires Padded(es) && Padded(ee) && Padded(ns) && Padded(ne)
    requires Minutes(ns) < Minutes(ne)
    requires Blocks(es, ee, ns, ne)
    ensures Overlaps(Minutes(es), Minutes(ee), Minutes(ns), Minutes(ne))
  {
    TwoDigitOrder(es, ns);
    TwoDigitOrder(ns, ee);
    TwoDigitOrder(es, ne);
    TwoDigitOrder(ne, ee);
    TwoDigitRoundTrip(es);
    TwoDigitRoundTrip(ns);
    TwoDigitRoundTrip(ne);
    TwoDigitRoundTrip(ee);
  }

  /** Touching intervals never block, in either direction, whatever the text:
      an interval ending where the request starts, or starting where it ends. */
  lemma TouchingNeverBlocks(es: string, ee: string, ns: string, ne: string)
    requires Less(ns, ne)
    requires ee == ns || es == ne
    ensures !Blocks(es, ee, ns, ne)
  {
    LessIrreflexive(ns);
    LessIrreflexive(ne);
    LessAsymmetric(ns, ne);
  }

  /** Incompleteness: an existing interval strictly inside the requested one is
      not blocked although it overlaps (09:30-10:00 against 09:00-11:00). */
  lemma ContainedIntervalMissed()
    ensures Padded("09:30") && Padded("10:00") && Padded("09:00") && Padded("11:00")
    ensures Overlaps(Minutes("09:30"), Minutes("10:00"), Minutes("09:00"), Minutes("11:00"))
    ensures !Blocks("09:30", "10:00", "09:00", "11:00")
  {
    assert Padded("09:30") && Padded("10:00") && Padded("09:00") && Padded("11:00");
    PaddedMinutes("09:30");
    PaddedMinutes("10:00");
    PaddedMinutes("09:00");
    PaddedMinutes("11:00");
    BlocksCharacterized("09:30", "10:00", "09:00", "11:00");
  }

  /** Mixed padding makes the filter refuse intervals that do not overlap:
      09:00-9:30 lies wholly before 10:00-11:00 in minutes, yet "10:00" sorts
      before "9:30" and the first clause blocks. */
  lemma MixedPaddingBlocksDisjoint()
    ensures IsTime("09:00") && IsTime("9:30") && IsTime("10:00") && IsTime("11:00")
    ensures !Overlaps(Minutes("09:00"), Minutes("9:30"), Minutes("10:00"), Minutes("11:00"))
    ensures Minutes("09:00") < Minutes("9:30") && Minutes("10:00") < Minutes("11:00")
    ensures Blocks("09:00", "9:30", "10:00", "11:00")
  {
    OneDigitValue(HourText("9:30"));
    TwoDigitValue(HourText("09:00"));
    TwoDigitValue(HourText("10:00"));
    TwoDigitValue(HourText("11:00"));
    TwoDigitValue(MinuteText("09:00"));
    TwoDigitValue(MinuteText("9:30"));
    TwoDigitValue(MinuteText("10:00"));
    TwoDigitValue(MinuteText("11:00"));
    assert Less("09:00", "10:00");
    assert Less("10:00", "9:30");
  }

  /** With one-digit hours text order misleads the filter: 8:00-10:00 overlaps
      9:00-9:30 in minutes, yet "10:00" sorts before "9:00" and nothing blocks. */
  lemma OneDigitOverlapMissed()
    ensures IsTime("8:00") && IsTime("10:00") && IsTime("9:00") && IsTime("9:30")
    ensures Overlaps(Minutes("8:00"), Minutes("10:00"), Minutes("9:00"), Minutes("9:30"))
    ensures !Blocks("8:00", "10:00", "9:00", "9:30")
  {
    OneDigitValue(HourText("8:00"));
    OneDigitValue(HourText("9:00"));
    OneDigitValue(HourText("9:30"));
    TwoDigitValue(HourText("10:00"));
    TwoDigitValue(MinuteText("8:00"));
    TwoDigitValue(MinuteText("9:00"));
    TwoDigitValue(MinuteText("9:30"));
    TwoDigitValue(MinuteText("10:00"));
    assert Less("10:00", "9:00");
    assert Less("10:00", "9:30");
    LessAsymmetric("10:00", "9:00");
    LessAsymmetric("10:00", "9:30");
  }
}
