/** The diurnal rate table: hourly ratios whose average is exactly one. */
module RateTable {
  import opened Reals
  import opened Wrappers

  const BLOCKS_PER_HOUR: nat := 180
  const DAY: nat := 24 * 180

  /**
   * Rescale a raw table so that it averages one. None stands for a table that sums to
   * zero and has no average to divide by: floats yield infinities there.
   */
  method NormalizeRateTable(raw: seq<real>) returns (normalized: Option<seq<real>>)
    requires |raw| == 24
    ensures normalized.None? <==> SumReal(raw) == 0.0
    ensures normalized.Some? ==> |normalized.value| == 24 && SumReal(normalized.value) == 24.0
    ensures normalized.Some? ==> forall i, j :: 0 <= i < 24 && 0 <= j < 24 ==>
              normalized.value[i] * raw[j] == normalized.value[j] * raw[i]
  {
    var sum := 0.0;
    for i := 0 to |raw|
      invariant sum == SumReal(raw[..i])
    {
      assert raw[..i + 1] == raw[..i] + [raw[i]];
      SumRealSnoc(raw[..i], raw[i]);
      sum := sum + raw[i];
    }
    assert raw[..|raw|] == raw;
    if sum == 0.0 {
      return None;
    }
    var avg := sum / 24.0;
    TwentyFour(sum, avg);
    var table := DivideAll(raw, avg);
    SumRealScale(raw, 1.0 / avg);
    forall i, j | 0 <= i < 24 && 0 <= j < 24 ensures table[i] * raw[j] == table[j] * raw[i] {
      CrossScale(raw[i], raw[j], 1.0 / avg);
    }
    normalized := Some(table);
  }

  method DivideAll(raw: seq<real>, avg: real) returns (table: seq<real>)
    requires avg != 0.0
    ensures table == Scale(raw, 1.0 / avg)
  {
    var out := new real[|raw|](_ => 0.0);
    for i := 0 to |raw|
      invariant forall j :: 0 <= j < i ==> out[j] == Scale(raw, 1.0 / avg)[j]
    {
      DivideIsScale(raw[i], avg);
      out[i] := raw[i] / avg;
    }
    table := out[..];
  }

  lemma DivideIsScale(x: real, avg: real)
    requires avg != 0.0
    ensures x / avg == x * (1.0 / avg)
  {}

  lemma TwentyFour(sum: real, avg: real)
    requires sum != 0.0 && avg == sum / 24.0
    ensures avg != 0.0 && sum * (1.0 / avg) == 24.0
  {
    assert sum == 24.0 * avg;
    assert avg * (1.0 / avg) == 1.0;
  }

  lemma CrossScale(x: real, y: real, c: real)
    ensures x * c * y == y * c * x
  {}

  function HourOfHeight(height: nat): (hour: nat)
    ensures hour < 24
  {
    height / BLOCKS_PER_HOUR % 24
  }

  /** The hour repeats every day of 4320 blocks. */
  lemma HourRepeats(height: nat)
    ensures HourOfHeight(height + DAY) == HourOfHeight(height)
  {
    assert (height + DAY) / BLOCKS_PER_HOUR == height / BLOCKS_PER_HOUR + 24;
  }

  function BusyMeanAt(table: seq<real>, height: nat, baseMean: real): real
    requires |table| == 24
  {
    baseMean * table[HourOfHeight(height)]
  }

  /** The ratios of n consecutive heights. */
  function Ratios(table: seq<real>, start: nat, n: nat): seq<real>
    requires |table| == 24
  {
    seq(n, i requires 0 <= i < n => table[HourOfHeight(start + i)])
  }

  function Means(table: seq<real>, start: nat, n: nat, baseMean: real): seq<real>
    requires |table| == 24
  {
    seq(n, i requires 0 <= i < n => BusyMeanAt(table, start + i, baseMean))
  }

  /** A block of 180 heights that starts on the hour has one ratio. */
  lemma {:induction false} WithinHour(table: seq<real>, hour: nat, n: nat)
    requires |table| == 24 && hour < 24 && n <= BLOCKS_PER_HOUR
    ensures SumReal(Ratios(table, hour * BLOCKS_PER_HOUR, n)) == n as real * table[hour]
  {
    if n > 0 {
      WithinHour(table, hour, n - 1);
      var start := hour * BLOCKS_PER_HOUR;
      HourOf(hour, n - 1);
      assert Ratios(table, start, n) == Ratios(table, start, n - 1) + [table[hour]];
      SumRealSnoc(Ratios(table, start, n - 1), table[hour]);
      assert n as real == (n - 1) as real + 1.0;
      OneMore((n - 1) as real, table[hour]);
    }
  }

  lemma OneMore(k: real, x: real)
    ensures (k + 1.0) * x == k * x + x
  {}

  lemma HourOf(hour: nat, i: nat)
    requires hour < 24 && i < BLOCKS_PER_HOUR
    ensures HourOfHeight(hour * BLOCKS_PER_HOUR + i) == hour
  {
    assert (hour * BLOCKS_PER_HOUR + i) / BLOCKS_PER_HOUR == hour;
  }

  /** The first hours of an aligned day add up 180 times their ratios. */
  lemma {:induction false} AlignedHours(table: seq<real>, hours: nat)
    requires |table| == 24 && hours <= 24
    ensures SumReal(Ratios(table, 0, hours * BLOCKS_PER_HOUR)) == 180.0 * SumReal(table[..hours])
  {
    if hours > 0 {
      var h := hours - 1;
      AlignedHours(table, h);
      WithinHour(table, h, BLOCKS_PER_HOUR);
      var before := Ratios(table, 0, h * BLOCKS_PER_HOUR);
      var lastHour := Ratios(table, h * BLOCKS_PER_HOUR, BLOCKS_PER_HOUR);
      assert Ratios(table, 0, hours * BLOCKS_PER_HOUR) == before + lastHour;
      SumRealConcat(before, lastHour);
      assert table[..hours] == table[..h] + [table[h]];
      SumRealSnoc(table[..h], table[h]);
    }
  }

  /** A day's sum does not depend on where the day starts. */
  lemma {:induction false} AnyStart(table: seq<real>, start: nat)
    requires |table| == 24
    ensures SumReal(Ratios(table, start, DAY)) == SumReal(Ratios(table, 0, DAY))
  {
    if start > 0 {
      AnyStart(table, start - 1);
      var first := table[HourOfHeight(start - 1)];
      var shared := Ratios(table, start, DAY - 1);
      HourRepeats(start - 1);
      assert Ratios(table, start - 1, DAY) == [first] + shared;
      assert Ratios(table, start, DAY) == shared + [first];
      SumRealConcat([first], shared);
      SumRealSnoc(shared, first);
      SumRealSnoc([], first);
      assert [] + [first] == [first];
    }
  }

  /** Calibration: over any 4320 consecutive heights, aligned or not, the hourly means
      of a normalized table sum to exactly 4320 base means. */
  lemma DiurnalCalibration(table: seq<real>, start: nat, baseMean: real)
    requires |table| == 24 && SumReal(table) == 24.0
    ensures SumReal(Means(table, start, DAY, baseMean)) == 4320.0 * baseMean
  {
    AnyStart(table, start);
    AlignedHours(table, 24);
    assert table[..24] == table;
    var ratios, means := Ratios(table, start, DAY), Means(table, start, DAY, baseMean);
    forall i | 0 <= i < DAY ensures means[i] == Scale(ratios, baseMean)[i] {
      assert means[i] == baseMean * table[HourOfHeight(start + i)];
    }
    assert means == Scale(ratios, baseMean);
    SumRealScale(ratios, baseMean);
    assert SumReal(ratios) == 4320.0;
  }

  /** The hours of a day are 180 heights each: the mean of a height is the base mean at the
      ratio of its hour. */
  lemma MeanOfHour(table: seq<real>, day: nat, hour: nat, i: nat, baseMean: real)
    requires |table| == 24 && hour < 24 && i < 180
    ensures BusyMeanAt(table, day * 4320 + hour * 180 + i, baseMean) == baseMean * table[hour]
  {
    var height := day * 4320 + hour * 180 + i;
    assert height / 180 == day * 24 + hour;
    assert (day * 24 + hour) % 24 == hour;
  }

}
