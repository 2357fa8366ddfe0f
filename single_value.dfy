/** `read1Value`: single-value extraction. Every line that carries the value
    prefix is a match; the matches whose ordinal lies in [start, stop] are
    written as "<ordinal - start><delimiter><value>\r\n", and reading stops
    right after the match that brings the count to `stop`. */
module SingleValue {
  import opened Strings
  import opened LineClassifier
  import opened Locale
  import opened Settings
  import opened Selection

  /** The values carried by the first `n` lines, in input order. */
  function Values(lines: seq<string>, n: nat, prefix: string): (vs: seq<string>)
    requires n <= |lines|
    ensures |vs| <= n
  {
    if n == 0 then []
    else if Matches(lines[n - 1], prefix) then Values(lines, n - 1, prefix) + [Field(lines[n - 1], prefix)]
    else Values(lines, n - 1, prefix)
  }

  /** Reading one more line appends its value when it matches. */
  lemma ValuesStep(lines: seq<string>, i: nat, n: nat, prefix: string)
    requires n == i + 1 <= |lines|
    ensures Matches(lines[i], prefix) ==> Values(lines, n, prefix) == Values(lines, i, prefix) + [Field(lines[i], prefix)]
    ensures !Matches(lines[i], prefix) ==> Values(lines, n, prefix) == Values(lines, i, prefix)
  {
    assert n - 1 == i;
  }

  /** Reading more lines only adds values at the end. */
  lemma {:induction false} ValuesGrow(lines: seq<string>, n: nat, m: nat, prefix: string)
    requires n <= m <= |lines|
    ensures Values(lines, n, prefix) <= Values(lines, m, prefix)
  {
    if n < m {
      ValuesGrow(lines, n, m - 1, prefix);
    }
  }

  /** An input where no line carries the prefix yields no values. */
  lemma {:induction false} NoMatchNoValues(lines: seq<string>, n: nat, prefix: string)
    requires n <= |lines|
    requires forall i :: 0 <= i < |lines| ==> !Matches(lines[i], prefix)
    ensures Values(lines, n, prefix) == []
  {
    if n > 0 {
      NoMatchNoValues(lines, n - 1, prefix);
    }
  }

  /** One rendered output record. */
  function Record(index: nat, delimiter: string, value: string): string {
    DecimalString(index) + delimiter + value + CRLF
  }

  /** The text of a list of numbered values, in order, each written in the
      chosen decimal convention. */
  function Render(items: seq<Item<string>>, delimiter: string, useKomma: bool): string {
    if items == [] then ""
    else
      var last := items[|items| - 1];
      Render(items[..|items| - 1], delimiter, useKomma) + Record(last.index, delimiter, Localize(useKomma, last.value))
  }

  lemma RenderSnoc(items: seq<Item<string>>, item: Item<string>, delimiter: string, useKomma: bool)
    ensures Render(items + [item], delimiter, useKomma)
            == Render(items, delimiter, useKomma) + Record(item.index, delimiter, Localize(useKomma, item.value))
  {
    assert (items + [item])[..|items|] == items;
  }

  /** Every record holds at least its index and its line end, so the text is
      empty exactly when there is no record. */
  lemma {:induction false} RenderEmpty(items: seq<Item<string>>, delimiter: string, useKomma: bool)
    ensures |Render(items, delimiter, useKomma)| >= 3 * |items|
    ensures Render(items, delimiter, useKomma) == "" <==> items == []
  {
    if items != [] {
      RenderEmpty(items[..|items| - 1], delimiter, useKomma);
    }
  }

  /** The text written for the first `n` lines when none is skipped: each
      matching line whose ordinal k lies in the range adds record k - start. */
  function SingleText(lines: seq<string>, n: nat, prefix: string,
                      start: int, stop: int, delimiter: string, useKomma: bool): string
    requires n <= |lines|
  {
    if n == 0 then ""
    else
      var k := |Values(lines, n, prefix)|;
      var before := SingleText(lines, n - 1, prefix, start, stop, delimiter, useKomma);
      if Matches(lines[n - 1], prefix) && start <= k <= stop
      then before + Record(k - start, delimiter, Localize(useKomma, Field(lines[n - 1], prefix)))
      else before
  }

  /** Reading a matching line whose ordinal is in range appends its record. */
  lemma SingleTextAppend(lines: seq<string>, i: nat, n: nat, prefix: string,
                         start: int, stop: int, delimiter: string, useKomma: bool)
    requires n == i + 1 <= |lines|
    requires Matches(lines[i], prefix) && start <= |Values(lines, n, prefix)| <= stop
    ensures SingleText(lines, n, prefix, start, stop, delimiter, useKomma)
            == SingleText(lines, i, prefix, start, stop, delimiter, useKomma)
               + Record(|Values(lines, n, prefix)| - start, delimiter, Localize(useKomma, Field(lines[i], prefix)))
  {
    assert n - 1 == i;
  }

  /** The same step in the terms the extractor holds: the text so far, the
      count and the value as written. */
  lemma SingleTextAppendValue(lines: seq<string>, i: nat, n: nat, prefix: string, start: int, stop: int,
                              delimiter: string, useKomma: bool, text: string, k: int, value: string)
    requires n == i + 1 <= |lines|
    requires Matches(lines[i], prefix) && k == |Values(lines, n, prefix)| && start <= k <= stop
    requires text == SingleText(lines, i, prefix, start, stop, delimiter, useKomma)
    requires value == Localize(useKomma, Field(lines[i], prefix))
    ensures text + Record(k - start, delimiter, value) == SingleText(lines, n, prefix, start, stop, delimiter, useKomma)
  {
    SingleTextAppend(lines, i, n, prefix, start, stop, delimiter, useKomma);
  }

  /** Reading any other line leaves the text as it is. */
  lemma SingleTextKeep(lines: seq<string>, i: nat, n: nat, prefix: string,
                       start: int, stop: int, delimiter: string, useKomma: bool)
    requires n == i + 1 <= |lines|
    requires !(Matches(lines[i], prefix) && start <= |Values(lines, n, prefix)| <= stop)
    ensures SingleText(lines, n, prefix, start, stop, delimiter, useKomma)
            == SingleText(lines, i, prefix, start, stop, delimiter, useKomma)
  {
    assert n - 1 == i;
  }

  /** The numbered records selected from the values of the first `n` lines. */
  function SingleWindow(lines: seq<string>, n: nat, prefix: string, start: int, stop: int): seq<Item<string>>
    requires n <= |lines|
  {
    Window(Values(lines, n, prefix), start, stop)
  }

  /** Rendering the window of one more value whose ordinal is in range
      appends that value's record. */
  lemma RenderWindowSnocIn(vs: seq<string>, x: string, start: int, stop: int, delimiter: string, useKomma: bool)
    requires start <= |vs| + 1 <= stop
    ensures Render(Window(vs + [x], start, stop), delimiter, useKomma)
            == Render(Window(vs, start, stop), delimiter, useKomma) + Record(|vs| + 1 - start, delimiter, Localize(useKomma, x))
  {
    var item := Item.Item(|vs| + 1 - start, x);
    WindowSnocIn(vs, x, start, stop);
    RenderSnoc(Window(vs, start, stop), item, delimiter, useKomma);
  }

  /** A line whose value is selected extends text and window alike. */
  lemma SingleTextWindowStepIn(lines: seq<string>, i: nat, n: nat, prefix: string,
                               start: int, stop: int, delimiter: string, useKomma: bool)
    requires n == i + 1 <= |lines|
    requires Matches(lines[i], prefix) && start <= |Values(lines, i, prefix)| + 1 <= stop
    requires SingleText(lines, i, prefix, start, stop, delimiter, useKomma)
             == Render(SingleWindow(lines, i, prefix, start, stop), delimiter, useKomma)
    ensures SingleText(lines, n, prefix, start, stop, delimiter, useKomma)
            == Render(SingleWindow(lines, n, prefix, start, stop), delimiter, useKomma)
  {
    var vs := Values(lines, i, prefix);
    var x := Field(lines[i], prefix);
    ValuesStep(lines, i, n, prefix);
    SingleTextAppend(lines, i, n, prefix, start, stop, delimiter, useKomma);
    RenderWindowSnocIn(vs, x, start, stop, delimiter, useKomma);
    assert |Values(lines, n, prefix)| == |vs| + 1;
  }

  /** A line whose value is not selected changes neither text nor window. */
  lemma SingleTextWindowStepOut(lines: seq<string>, i: nat, n: nat, prefix: string,
                                start: int, stop: int, delimiter: string, useKomma: bool)
    requires n == i + 1 <= |lines|
    requires !(Matches(lines[i], prefix) && start <= |Values(lines, i, prefix)| + 1 <= stop)
    requires SingleText(lines, i, prefix, start, stop, delimiter, useKomma)
             == Render(SingleWindow(lines, i, prefix, start, stop), delimiter, useKomma)
    ensures SingleText(lines, n, prefix, start, stop, delimiter, useKomma)
            == Render(SingleWindow(lines, n, prefix, start, stop), delimiter, useKomma)
  {
    var vs := Values(lines, i, prefix);
    ValuesStep(lines, i, n, prefix);
    SingleTextKeep(lines, i, n, prefix, start, stop, delimiter, useKomma);
    if Matches(lines[i], prefix) {
      WindowSnocOut(vs, Field(lines[i], prefix), start, stop);
    }
  }

  /** The text is the rendering of the window: the values with ordinals from
      max(start, 1) to min(stop, number of matches), in input order, numbered
      from their offset to `start`. */
  lemma {:induction false} SingleTextWindow(lines: seq<string>, n: nat, prefix: string,
                                            start: int, stop: int, delimiter: string, useKomma: bool)
    requires n <= |lines|
    ensures SingleText(lines, n, prefix, start, stop, delimiter, useKomma)
            == Render(SingleWindow(lines, n, prefix, start, stop), delimiter, useKomma)
  {
    if n == 0 {
      assert Values(lines, n, prefix) == [];
    } else {
      SingleTextWindow(lines, n - 1, prefix, start, stop, delimiter, useKomma);
      if Matches(lines[n - 1], prefix) && start <= |Values(lines, n - 1, prefix)| + 1 <= stop {
        SingleTextWindowStepIn(lines, n - 1, n, prefix, start, stop, delimiter, useKomma);
      } else {
        SingleTextWindowStepOut(lines, n - 1, n, prefix, start, stop, delimiter, useKomma);
      }
    }
  }

  /** Once `stop` values have been seen, later lines add no record. */
  lemma {:induction false} SingleTextSettled(lines: seq<string>, r: nat, m: nat, prefix: string,
                                             start: int, stop: int, delimiter: string, useKomma: bool)
    requires r <= m <= |lines|
    requires stop <= |Values(lines, r, prefix)|
    ensures SingleText(lines, m, prefix, start, stop, delimiter, useKomma)
            == SingleText(lines, r, prefix, start, stop, delimiter, useKomma)
  {
    if r < m {
      SingleTextSettled(lines, r, m - 1, prefix, start, stop, delimiter, useKomma);
      ValuesGrow(lines, r, m - 1, prefix);
      ValuesStep(lines, m - 1, m, prefix);
      SingleTextKeep(lines, m - 1, m, prefix, start, stop, delimiter, useKomma);
    }
  }

  /** Where reading ends, by exhaustion or by reaching the stop count, the
      count and the text are those the whole input determines. */
  lemma ReadFinished(lines: seq<string>, linesRead: nat, prefix: string, numValues: int,
                     start: int, stop: int, delimiter: string, useKomma: bool)
    requires linesRead <= |lines|
    requires numValues == |Values(lines, linesRead, prefix)| <= LowestOrdinal(stop)
    requires linesRead == |lines| || numValues == LowestOrdinal(stop)
    ensures numValues == Min(|Values(lines, |lines|, prefix)|, LowestOrdinal(stop))
    ensures SingleText(lines, linesRead, prefix, start, stop, delimiter, useKomma)
            == SingleText(lines, |lines|, prefix, start, stop, delimiter, useKomma)
  {
    if linesRead < |lines| {
      ValuesGrow(lines, linesRead, |lines|, prefix);
      SingleTextSettled(lines, linesRead, |lines|, prefix, start, stop, delimiter, useKomma);
    }
  }

  /** `read1Value` over the lines of the input stream. Besides the text and
      the count it returns how many lines were taken from the stream. */
  method Read1Value(lines: seq<string>, value1: string, delimiter: string, start: int, stop: int, useKomma: bool)
    returns (text: string, numValues: int, linesRead: nat)
    ensures linesRead <= |lines|
    ensures numValues == |Values(lines, linesRead, value1)|
    ensures numValues == Min(|Values(lines, |lines|, value1)|, LowestOrdinal(stop))
    ensures text == SingleText(lines, |lines|, value1, start, stop, delimiter, useKomma)
    ensures linesRead < |lines| ==>
              0 < linesRead && numValues == LowestOrdinal(stop) && Matches(lines[linesRead - 1], value1)
    ensures numValues == LowestOrdinal(stop) ==>
              0 < linesRead && |Values(lines, linesRead - 1, value1)| < numValues
  {
    text, numValues, linesRead := "", 0, 0;
    while linesRead < |lines|
      invariant linesRead <= |lines|
      invariant numValues == |Values(lines, linesRead, value1)| < LowestOrdinal(stop)
      invariant text == SingleText(lines, linesRead, value1, start, stop, delimiter, useKomma)
    {
      var line := lines[linesRead];
      ValuesStep(lines, linesRead, linesRead + 1, value1);
      linesRead := linesRead + 1;
      if Matches(line, value1) {
        numValues := numValues + 1;
        if start <= numValues <= stop {
          var value := Field(line, value1);
          if useKomma {
            value := ReplacePointWithKomma(value);
          }
          SingleTextAppendValue(lines, linesRead - 1, linesRead, value1, start, stop, delimiter, useKomma,
                                text, numValues, value);
          text := text + Record(numValues - start, delimiter, value);
        } else {
          SingleTextKeep(lines, linesRead - 1, linesRead, value1, start, stop, delimiter, useKomma);
        }
        if numValues >= stop {
          break;
        }
      } else {
        SingleTextKeep(lines, linesRead - 1, linesRead, value1, start, stop, delimiter, useKomma);
      }
    }
    ReadFinished(lines, linesRead, value1, numValues, start, stop, delimiter, useKomma);
  }
}
