/** `extractValues` once the input file is open: the range, the delimiter and
    the decimal convention are taken from the form, the extractor the radio
    buttons choose reads the lines, and the outcome is reported in one status
    line. */
module Extraction {
  import opened Strings
  import opened LineClassifier
  import opened Settings
  import opened Selection
  import opened SingleValue
  import opened PairValue

  /** The two radio buttons: one value per record, or a pair of values. */
  datatype Mode = OneValue | TwoValues

  /** The status line when the text is empty. */
  const NoValuesRead: string := "No values read!"

  /** The status line when there is text to write. */
  function ValuesExtracted(count: nat): string {
    "Data file read, " + DecimalString(count) + " values extracted."
  }

  /** The status line reports the empty-text decision faithfully: its two
      outcomes never give the same line, and the "values extracted" line
      determines the count it was given. */
  lemma StatusNamesCount(m: nat, n: nat)
    ensures ValuesExtracted(m) != NoValuesRead
    ensures ValuesExtracted(m) == ValuesExtracted(n) ==> m == n
  {
    assert ValuesExtracted(m)[0] == 'D';
    if ValuesExtracted(m) == ValuesExtracted(n) {
      var head := "Data file read, ";
      var dm, dn := DecimalString(m), DecimalString(n);
      assert |dm| == |dn|;
      assert ValuesExtracted(m)[|head|..|head| + |dm|] == dm;
      assert ValuesExtracted(n)[|head|..|head| + |dn|] == dn;
      DecimalStringInjective(m, n);
    }
  }

  /** The records the chosen extractor counts over the whole input. */
  function Counted(mode: Mode, lines: seq<string>, value1: string, value2: string): nat {
    match mode
    case OneValue => |Values(lines, |lines|, value1)|
    case TwoValues => |Pairs(lines, |lines|, value1, value2)|
  }

  /** The records the chosen extractor writes: those counted whose ordinal
      lies in the range. */
  function Written(mode: Mode, lines: seq<string>, value1: string, value2: string, r: Range): nat {
    match mode
    case OneValue => |Selected(Values(lines, |lines|, value1), r.start, r.stop)|
    case TwoValues => |Selected(Pairs(lines, |lines|, value1, value2), r.start, r.stop)|
  }

  /** The text the chosen extractor writes over the whole input: the
      rendering of the counted records whose ordinal lies in the range. */
  function ExtractedText(mode: Mode, lines: seq<string>, value1: string, value2: string,
                         r: Range, delimiter: string, useKomma: bool): string
  {
    match mode
    case OneValue => Render(SingleWindow(lines, |lines|, value1, r.start, r.stop), delimiter, useKomma)
    case TwoValues => PairRender(Selected(Pairs(lines, |lines|, value1, value2), r.start, r.stop), delimiter, useKomma)
  }

  /** The records written are those counted with ordinal from max(start, 1)
      to min(stop, count). */
  lemma WrittenCount(mode: Mode, lines: seq<string>, value1: string, value2: string, r: Range)
    ensures var c := Counted(mode, lines, value1, value2);
            Written(mode, lines, value1, value2, r)
            == if LowestOrdinal(r.start) <= Min(r.stop, c) then Min(r.stop, c) - LowestOrdinal(r.start) + 1 else 0
  {
    match mode
    case OneValue => SelectedCount(Values(lines, |lines|, value1), r.start, r.stop);
    case TwoValues => SelectedCount(Pairs(lines, |lines|, value1, value2), r.start, r.stop);
  }

  /** The text is empty exactly when no record is written: every record
      carries at least its line end. */
  lemma TextEmptyIffNothingWritten(mode: Mode, lines: seq<string>, value1: string, value2: string,
                                   r: Range, delimiter: string, useKomma: bool)
    ensures ExtractedText(mode, lines, value1, value2, r, delimiter, useKomma) == ""
            <==> Written(mode, lines, value1, value2, r) == 0
  {
    match mode
    case OneValue =>
      RenderEmpty(SingleWindow(lines, |lines|, value1, r.start, r.stop), delimiter, useKomma);
    case TwoValues =>
      var ps := Pairs(lines, |lines|, value1, value2);
      var sel := Selected(ps, r.start, r.stop);
      forall j | 0 <= j < |sel|
        ensures Complete(sel[j])
      {
        SelectedItems(ps, r.start, r.stop, j);
      }
      PairRenderEmpty(sel, delimiter, useKomma);
  }

  /** An input in which no line carries the first prefix yields no record in
      either mode, so the run ends with "No values read!". */
  lemma NoMatchNoValuesRead(mode: Mode, lines: seq<string>, value1: string, value2: string,
                            r: Range, delimiter: string, useKomma: bool)
    requires forall k :: 0 <= k < |lines| ==> !Matches(lines[k], value1)
    ensures Counted(mode, lines, value1, value2) == 0
    ensures ExtractedText(mode, lines, value1, value2, r, delimiter, useKomma) == ""
  {
    match mode {
      case OneValue => NoMatchNoValues(lines, |lines|, value1);
      case TwoValues => FirstNeverMatchesNoPairs(lines, |lines|, value1, value2);
    }
    TextEmptyIffNothingWritten(mode, lines, value1, value2, r, delimiter, useKomma);
  }

  /** Without range mode, or with a stop spin box of 0, the stop is the
      largest long long, so no input the stream can hold ends reading early:
      the count returned is the count of every record. */
  lemma UnboundedStopCountsAll(mode: Mode, lines: seq<string>, value1: string, value2: string,
                               inRange: bool, startSpin: int, stopSpin: int)
    requires !inRange || stopSpin == 0
    requires |lines| <= LLONG_MAX
    ensures Min(Counted(mode, lines, value1, value2), LowestOrdinal(NormalizeRange(inRange, startSpin, stopSpin).stop))
            == Counted(mode, lines, value1, value2)
  {
  }

  /** `extractValues` from the range normalisation to the status line: the
      text and count of the extractor the mode selects, and the message the
      text decides. */
  method ExtractValues(lines: seq<string>, mode: Mode, inRange: bool, startSpin: int, stopSpin: int,
                       value1: string, value2: string, delimiterEntry: string, decimalEntry: string)
    returns (text: string, numValues: nat, message: string)
    ensures var r := NormalizeRange(inRange, startSpin, stopSpin);
            text == ExtractedText(mode, lines, value1, value2, r, GetDelimiter(delimiterEntry), UsesKomma(decimalEntry))
            && numValues == Min(Counted(mode, lines, value1, value2), LowestOrdinal(r.stop))
    ensures text == "" ==> message == NoValuesRead
    ensures text != "" ==> message == ValuesExtracted(numValues)
  {
    var r := NormalizeRange(inRange, startSpin, stopSpin);
    var useKomma := UsesKomma(decimalEntry);
    var delimiter := GetDelimiter(delimiterEntry);
    var count: int, linesRead: nat;
    match mode {
      case OneValue =>
        text, count, linesRead := Read1Value(lines, value1, delimiter, r.start, r.stop, useKomma);
        SingleTextWindow(lines, |lines|, value1, r.start, r.stop, delimiter, useKomma);
      case TwoValues =>
        text, count, linesRead := Read2Values(lines, value1, value2, delimiter, r.start, r.stop, useKomma);
    }
    numValues := count;
    if text == "" {
      message := NoValuesRead;
    } else {
      message := ValuesExtracted(numValues);
    }
  }
}
