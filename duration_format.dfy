/**
 * The arithmetic and label of `fmtDuration` in app.js, from the elapsed
 * milliseconds between the start and end dates onwards. The source's
 * floating-point expressions are evaluated here in exact rational
 * arithmetic (`real`).
 */
module DurationFormat {
  import opened Wrappers
  import opened Text

  /**
   * The divisor chain `/ 24 / 30 / 3600 / 100 / 12` of app.js:35 multiplied
   * out: the milliseconds in one tenth of a 360-day year.
   */
  const MsPerTenthYear: int := 24 * 30 * 3600 * 100 * 12

  /** `Math.ceil` on an exact rational. */
  function Ceil(x: real): (r: int)
    ensures r as real - 1.0 < x <= r as real
  {
    -((-x).Floor)
  }

  /**
   * `Math.ceil(elapsed / 24 / 30 / 3600 / 100 / 12)`: the elapsed time
   * rounded up to whole tenths of a 360-day year.
   */
  function TenthsElapsed(elapsedMs: int): (t: int)
    ensures (t - 1) * MsPerTenthYear < elapsedMs <= t * MsPerTenthYear
  {
    var x := elapsedMs as real / 24.0 / 30.0 / 3600.0 / 100.0 / 12.0;
    assert x * MsPerTenthYear as real == elapsedMs as real;
    Ceil(x)
  }

  /** The two figures shown: whole years, and the figure labelled "mo". */
  datatype Span = Span(years: int, mo: int)

  /**
   * app.js:35-37 after the ceiling: `duration = t / 10`,
   * `yrDuration = Math.floor(duration)` and
   * `moDuration = Math.ceil((duration - yrDuration) * 10)`.
   */
  function SplitTenths(t: int): (s: Span)
    ensures 0 <= s.mo <= 9
    ensures t == 10 * s.years + s.mo
  {
    var duration := t as real / 10.0;
    var yrDuration := duration.Floor;
    var moDuration := Ceil((duration - yrDuration as real) * 10.0);
    Span(yrDuration, moDuration)
  }

  /** `yrDuration > 1 ? 'yrs' : 'yr'`. */
  function YearUnit(n: int): string {
    if n > 1 then "yrs" else "yr"
  }

  /** `moDuration > 1 ? 'mos' : 'mo'`. */
  function MonthUnit(n: int): string {
    if n > 1 then "mos" else "mo"
  }

  /** The template string of app.js:38. */
  function SpanLabel(s: Span): string {
    IntText(s.years) + " " + YearUnit(s.years) + " " + IntText(s.mo) + " " + MonthUnit(s.mo)
  }

  /** fmtDuration, given the milliseconds between its two dates. */
  function FormatDuration(elapsedMs: int): string {
    SpanLabel(SplitTenths(TenthsElapsed(elapsedMs)))
  }

  /** Reads a duration label back into its two figures; the units must agree with them. */
  function ParseSpanLabel(shown: string): Option<Span> {
    var parts := Split(shown);
    if |parts| != 4 then None
    else
      match (ParseInt(parts[0]), ParseInt(parts[2]))
      case (Some(y), Some(m)) =>
        if parts[1] == YearUnit(y) && parts[3] == MonthUnit(m) then Some(Span(y, m)) else None
      case _ => None
  }

  /** The ceiling is the integer ceiling division by the constant. */
  lemma TenthsElapsedIsCeilDiv(elapsedMs: int)
    ensures TenthsElapsed(elapsedMs) ==
      if elapsedMs % MsPerTenthYear == 0 then elapsedMs / MsPerTenthYear
      else elapsedMs / MsPerTenthYear + 1
  {
  }

  /** The years are the tenths divided by ten, the "mo" figure the remaining tenth digit. */
  lemma SplitTenthsIsDivMod(t: int)
    ensures SplitTenths(t) == Span(t / 10, t % 10)
  {
  }

  /** A unit takes the plural "s" exactly when its count is greater than 1; 0 and 1 are singular. */
  lemma PluralOnlyAboveOne(n: int)
    ensures YearUnit(n) == "yrs" <==> n > 1
    ensures YearUnit(n) == "yr" <==> n <= 1
    ensures MonthUnit(n) == "mos" <==> n > 1
    ensures MonthUnit(n) == "mo" <==> n <= 1
  {
  }

  /** A label is exactly four space-separated tokens: a number and its unit, twice. */
  lemma SpanLabelTokens(s: Span)
    ensures Split(SpanLabel(s)) ==
      [IntText(s.years), YearUnit(s.years), IntText(s.mo), MonthUnit(s.mo)]
  {
    var parts := [IntText(s.years), YearUnit(s.years), IntText(s.mo), MonthUnit(s.mo)];
    assert Join(parts) == SpanLabel(s) by {
      assert Join(parts[3..]) == MonthUnit(s.mo);
      assert Join(parts[2..]) == IntText(s.mo) + " " + MonthUnit(s.mo);
      assert Join(parts[1..]) == YearUnit(s.years) + " " + (IntText(s.mo) + " " + MonthUnit(s.mo));
    }
    SplitOfJoin(parts);
  }

  /** Each label reads back as the figures it was made from. */
  lemma ParseSpanLabelOfLabel(s: Span)
    ensures ParseSpanLabel(SpanLabel(s)) == Some(s)
  {
    SpanLabelTokens(s);
    ParseIntOfText(s.years);
    ParseIntOfText(s.mo);
  }

  /** Whatever `ParseSpanLabel` accepts is the label of the figures it returns. */
  lemma LabelOfParseSpanLabel(shown: string, s: Span)
    requires ParseSpanLabel(shown) == Some(s)
    ensures SpanLabel(s) == shown
  {
    var parts := Split(shown);
    TextOfParseInt(parts[0], s.years);
    TextOfParseInt(parts[2], s.mo);
    JoinOfSplit(shown);
    assert parts == [parts[0], parts[1], parts[2], parts[3]];
    assert Join(parts[3..]) == parts[3];
    assert Join(parts[2..]) == parts[2] + " " + parts[3];
    assert Join(parts[1..]) == parts[1] + " " + (parts[2] + " " + parts[3]);
  }

  /**
   * The whole of fmtDuration's label: with `t` the elapsed time in tenths of
   * a 360-day year rounded up, it shows `t / 10` years and `t % 10` in 0..9,
   * which together give back `t`.
   */
  lemma FormatDurationFigures(elapsedMs: int)
    ensures var t := TenthsElapsed(elapsedMs);
      ParseSpanLabel(FormatDuration(elapsedMs)) == Some(Span(t / 10, t % 10))
  {
    var t := TenthsElapsed(elapsedMs);
    SplitTenthsIsDivMod(t);
    ParseSpanLabelOfLabel(SplitTenths(t));
  }

  /** One day in milliseconds, for the examples. */
  const MsPerDay: int := 24 * 3600 * 1000

  /** The label of an elapsed time, by way of its tenths and their split. */
  lemma FormatDurationVia(elapsedMs: int, t: int, years: int, mo: int)
    requires (t - 1) * MsPerTenthYear < elapsedMs <= t * MsPerTenthYear
    requires 0 <= mo <= 9 && t == 10 * years + mo
    ensures TenthsElapsed(elapsedMs) == t && SplitTenths(t) == Span(years, mo)
    ensures FormatDuration(elapsedMs) == SpanLabel(Span(years, mo))
  {
  }

  /**
   * Concrete labels for whole-day spans, in exact arithmetic: 720 days is
   * exactly two 360-day years; 1 January 2018 to 28 January 2020 is 757
   * calendar days; 1 January 2020 to 28 July 2020 is 209 calendar days (one
   * hour less under daylight saving time, which leaves t = 6).
   */
  lemma FormatDurationExamples()
    ensures FormatDuration(720 * MsPerDay) == "2 yrs 0 mo"
    ensures FormatDuration(757 * MsPerDay) == "2 yrs 2 mos"
    ensures FormatDuration(209 * MsPerDay) == "0 yr 6 mos"
    ensures FormatDuration(0) == "0 yr 0 mo"
  {
    FormatDurationVia(720 * MsPerDay, 20, 2, 0);
    FormatDurationVia(757 * MsPerDay, 22, 2, 2);
    FormatDurationVia(209 * MsPerDay, 6, 0, 6);
    FormatDurationVia(0, 0, 0, 0);
  }
}
