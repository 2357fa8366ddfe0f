/** The configuration an extraction run is given: the record range, the field
    delimiter and the decimal convention, each derived from the form's
    widgets by a plain conditional mapping. */
module Settings {

  /** `std::numeric_limits<long long>::max()`, the "no upper bound" stop. */
  const LLONG_MAX: int := 0x7fff_ffff_ffff_ffff

  /** The inclusive 1-based range of record ordinals to write out. */
  datatype Range = Range(start: int, stop: int)

  /** The range at the top of `extractValues`: without range mode every record
      from the first on, unbounded; in range mode the two spin boxes, with a
      stop of 0 read as unbounded. */
  function NormalizeRange(inRange: bool, startSpin: int, stopSpin: int): (r: Range)
    ensures !inRange ==> r == Range(1, LLONG_MAX)
    ensures inRange ==> r.start == startSpin
    ensures stopSpin == 0 ==> r.stop == LLONG_MAX
    ensures inRange && stopSpin != 0 ==> r.stop == stopSpin
    ensures r.stop != 0
  {
    var start := if inRange then startSpin else 1;
    var stop := if inRange then stopSpin else LLONG_MAX;
    Range(start, if stop == 0 then LLONG_MAX else stop)
  }

  /** With a non-negative stop spin box the normalised stop is a positive bound. */
  lemma NormalizedStopPositive(inRange: bool, startSpin: int, stopSpin: int)
    requires 0 <= stopSpin
    ensures 1 <= NormalizeRange(inRange, startSpin, stopSpin).stop
  {
  }

  /** The smallest 1-based ordinal at or above `bound`. It is both the first
      ordinal a range starting at `bound` selects (the test `numValues >= start`
      never fails for the first record when start is below 1) and the count at
      which an extractor stops reading (the loop breaks right after the record
      that brings the count to `bound` or beyond, which for a bound below 1 is
      already the first record). */
  function LowestOrdinal(bound: int): (n: nat)
    ensures 1 <= n && bound <= n
    ensures n == 1 || n == bound
    ensures 1 <= bound ==> n == bound
    ensures bound < 1 ==> n == 1
  {
    if bound < 1 then 1 else bound
  }

  function Min(a: int, b: int): int {
    if a <= b then a else b
  }

  /** The four entries of the delimiter combo box. */
  const DelimiterTabulator: string := "    (tabulator)"
  const DelimiterSemikolon: string := "; (semikolon)"
  const DelimiterKomma: string := ", (komma)"
  const DelimiterWhitespace: string := "  (whitespace)"

  /** The two entries of the decimal-convention combo box. */
  const UsePoint: string := ". (use point)"
  const UseKomma: string := ", (use komma)"

  /** `getDelimiter`: the field separator selected by the combo box entry. */
  function GetDelimiter(entry: string): (d: string)
    ensures |d| == 1
    ensures d == "\t" || d == ";" || d == "," || d == " "
    ensures entry == DelimiterTabulator <==> d == "\t"
    ensures entry == DelimiterKomma <==> d == ","
    ensures entry == DelimiterWhitespace <==> d == " "
    ensures entry in {DelimiterTabulator, DelimiterKomma, DelimiterWhitespace} <==> d != ";"
  {
    if entry == DelimiterTabulator then "\t"
    else if entry == DelimiterSemikolon then ";"
    else if entry == DelimiterKomma then ","
    else if entry == DelimiterWhitespace then " "
    else ";"
  }

  /** `useKomma`: the comma convention is used exactly when its entry is selected. */
  predicate UsesKomma(entry: string) {
    entry == UseKomma
  }
}
