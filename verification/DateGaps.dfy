/** Gaps in the match calendar of one season. Dates are day numbers. */
module DateGaps {

  /** A gap longer than this many days may hide missing data. */
  const MAX_GAP := 10

  /** A missing range longer than this many days is worth scraping again. */
  const SIGNIFICANT := 30

  datatype Range = Range(start: int, end: int)

  predicate Increasing(dates: seq<int>) { forall i, j | 0 <= i < j < |dates| :: dates[i] < dates[j] }

  predicate Covers(ranges: seq<Range>, day: int) {
    exists k | 0 <= k < |ranges| :: ranges[k].start <= day <= ranges[k].end
  }

  /** The day lies strictly between neighbouring dates more than MAX_GAP days apart. */
  predicate InWideGap(dates: seq<int>, day: int) {
    exists i | 0 <= i < |dates| - 1 :: dates[i] < day < dates[i + 1] && dates[i + 1] - dates[i] > MAX_GAP
  }

  /** The inside of every wide gap, in order. */
  function MissingRanges(dates: seq<int>): seq<Range> {
    if |dates| <= 1 then []
    else
      var init, current, next := MissingRanges(dates[..|dates| - 1]), dates[|dates| - 2], dates[|dates| - 1];
      if next - current > MAX_GAP then init + [Range(current + 1, next - 1)] else init
  }

  /** get_missing_date_ranges over the season's distinct dates in order. */
  method GetMissingDateRanges(dates: seq<int>) returns (missing: seq<Range>)
    ensures missing == MissingRanges(dates)
  {
    missing := [];
    if dates == [] {
      return;
    }
    var i := 0;
    while i < |dates| - 1
      invariant 0 <= i <= |dates| - 1
      invariant missing == MissingRanges(dates[..i + 1])
    {
      assert dates[..i + 2][..i + 1] == dates[..i + 1];
      var current, next := dates[i], dates[i + 1];
      if next - current > MAX_GAP {
        missing := missing + [Range(current + 1, next - 1)];
      }
      i := i + 1;
    }
    assert dates[..|dates|] == dates;
  }

  lemma CoversAppend(ranges: seq<Range>, range: Range, day: int)
    ensures Covers(ranges + [range], day) <==> Covers(ranges, day) || range.start <= day <= range.end
  {
    var all := ranges + [range];
    if Covers(ranges, day) {
      var k :| 0 <= k < |ranges| && ranges[k].start <= day <= ranges[k].end;
      assert all[k] == ranges[k];
    }
    assert all[|ranges|] == range;
  }

  lemma WideGapAppend(dates: seq<int>, day: int)
    requires |dates| > 1
    ensures var init, current, next := dates[..|dates| - 1], dates[|dates| - 2], dates[|dates| - 1];
            InWideGap(dates, day) <==> InWideGap(init, day) || (current < day < next && next - current > MAX_GAP)
  {
    var init := dates[..|dates| - 1];
    if InWideGap(init, day) {
      var i :| 0 <= i < |init| - 1 && init[i] < day < init[i + 1] && init[i + 1] - init[i] > MAX_GAP;
      assert dates[i] == init[i] && dates[i + 1] == init[i + 1];
    }
    if InWideGap(dates, day) {
      var i :| 0 <= i < |dates| - 1 && dates[i] < day < dates[i + 1] && dates[i + 1] - dates[i] > MAX_GAP;
      assert i < |init| - 1 ==> dates[i] == init[i] && dates[i + 1] == init[i + 1];
    }
    var last := |dates| - 2;
    assert dates[last] == dates[|dates| - 2] && dates[last + 1] == dates[|dates| - 1];
  }

  /** The ranges cover exactly the missing days inside wide gaps. */
  lemma {:induction false} RangesCoverWideGaps(dates: seq<int>, day: int)
    ensures Covers(MissingRanges(dates), day) <==> InWideGap(dates, day)
  {
    if |dates| <= 1 {
    } else {
      var init := dates[..|dates| - 1];
      RangesCoverWideGaps(init, day);
      WideGapAppend(dates, day);
      CoversAppend(MissingRanges(init), Range(dates[|dates| - 2] + 1, dates[|dates| - 1] - 1), day);
    }
  }

  /** None of the existing dates falls into a range. */
  lemma RangesAvoidDates(dates: seq<int>, k: nat)
    requires Increasing(dates) && k < |dates|
    ensures !Covers(MissingRanges(dates), dates[k])
  {
    RangesCoverWideGaps(dates, dates[k]);
  }

  /** Non-empty ranges, each after the one before. */
  predicate Ordered(ranges: seq<Range>) {
    && (forall k | 0 <= k < |ranges| :: ranges[k].start <= ranges[k].end)
    && (forall j, k | 0 <= j < k < |ranges| :: ranges[j].end < ranges[k].start)
  }

  predicate EndBefore(ranges: seq<Range>, day: int) { forall k | 0 <= k < |ranges| :: ranges[k].end < day }

  lemma OrderedAppend(ranges: seq<Range>, range: Range, day: int)
    requires Ordered(ranges) && EndBefore(ranges, range.start) && range.start <= range.end < day
    ensures Ordered(ranges + [range]) && EndBefore(ranges + [range], day)
  {
  }

  /** The ranges are non-empty, come in order and do not overlap. */
  lemma {:induction false} RangesAreOrdered(dates: seq<int>)
    requires Increasing(dates)
    ensures Ordered(MissingRanges(dates))
    ensures dates != [] ==> EndBefore(MissingRanges(dates), dates[|dates| - 1])
  {
    if |dates| <= 1 {
    } else {
      var init := dates[..|dates| - 1];
      var current, next := init[|init| - 1], dates[|dates| - 1];
      RangesAreOrdered(init);
      if next - current > MAX_GAP {
        OrderedAppend(MissingRanges(init), Range(current + 1, next - 1), next);
      }
    }
  }

  /** A range as wide as a neighbouring pair of dates allows. */
  predicate WiderThan(dates: seq<int>, days: int) {
    exists i | 0 <= i < |dates| - 1 :: dates[i + 1] - dates[i] > days
  }

  predicate SomeLonger(ranges: seq<Range>, days: int) {
    exists k | 0 <= k < |ranges| :: ranges[k].end - ranges[k].start > days
  }

  lemma {:induction false} LongRangeIffWideGap(dates: seq<int>)
    ensures SomeLonger(MissingRanges(dates), SIGNIFICANT) <==> WiderThan(dates, SIGNIFICANT + 2)
  {
    if |dates| <= 1 {
    } else {
      var init, current, next := dates[..|dates| - 1], dates[|dates| - 2], dates[|dates| - 1];
      LongRangeIffWideGap(init);
      var before, after := MissingRanges(init), MissingRanges(dates);
      assert forall k | 0 <= k < |before| :: after[k] == before[k];
      assert next - current > MAX_GAP ==> after[|before|] == Range(current + 1, next - 1);
      if WiderThan(init, SIGNIFICANT + 2) {
        var i :| 0 <= i < |init| - 1 && init[i + 1] - init[i] > SIGNIFICANT + 2;
        assert dates[i + 1] - dates[i] > SIGNIFICANT + 2;
      }
      if WiderThan(dates, SIGNIFICANT + 2) {
        var i :| 0 <= i < |dates| - 1 && dates[i + 1] - dates[i] > SIGNIFICANT + 2;
        assert i < |init| - 1 ==> init[i + 1] - init[i] > SIGNIFICANT + 2;
      }
      if next - current > SIGNIFICANT + 2 {
        var last := |dates| - 2;
        assert dates[last + 1] - dates[last] > SIGNIFICANT + 2;
      }
    }
  }

  /** has_significant_gaps: since a range leaves out both neighbouring dates, the neighbours must be
      more than 32 days apart. */
  method HasSignificantGaps(dates: seq<int>) returns (significant: bool)
    ensures significant <==> WiderThan(dates, SIGNIFICANT + 2)
  {
    var ranges := GetMissingDateRanges(dates);
    LongRangeIffWideGap(dates);
    for k := 0 to |ranges|
      invariant forall j | 0 <= j < k :: ranges[j].end - ranges[j].start <= SIGNIFICANT
    {
      if ranges[k].end - ranges[k].start > SIGNIFICANT {
        return true;
      }
    }
    return false;
  }
}
