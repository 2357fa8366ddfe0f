/** `read2Values`: paired-value extraction. Two values are held while the
    lines are read: a line carrying the first prefix sets the first, a line
    carrying the second prefix sets the second, and the block lines "{" and
    "}" forget both. After every line on which both are held, a record
    "<first><delimiter><second>\r\n" is counted, and written when its ordinal
    lies in [start, stop]; reading stops right after the record that brings
    the count to `stop`. */
module PairValue {
  import opened Strings
  import opened LineClassifier
  import opened Locale
  import opened Settings
  import opened Selection

  /** The line that opens a block, and the one that closes it. */
  const OpenLine: string := "{"
  const CloseLine: string := "}"

  /** The two values held between lines, `v1` and `v2`; the empty string
      stands for "not seen". */
  datatype Held = Held(v1: string, v2: string)

  const Forgotten: Held := Held("", "")

  /** A record is due when both values are held. */
  predicate Complete(h: Held) {
    h.v1 != "" && h.v2 != ""
  }

  /** What one line does to the held values: "{" forgets both before the
      prefixes are looked at, a matching line sets the value of its prefix,
      and "}" forgets both after the prefixes are looked at. */
  function Step(h: Held, line: string, prefix1: string, prefix2: string): Held {
    var kept := if line == OpenLine then Forgotten else h;
    var v1 := if Matches(line, prefix1) then Field(line, prefix1) else kept.v1;
    var v2 := if Matches(line, prefix2) then Field(line, prefix2) else kept.v2;
    if line == CloseLine then Forgotten else Held(v1, v2)
  }

  /** The held values after the first `n` lines. */
  function HeldAfter(lines: seq<string>, n: nat, prefix1: string, prefix2: string): Held
    requires n <= |lines|
  {
    if n == 0 then Forgotten
    else Step(HeldAfter(lines, n - 1, prefix1, prefix2), lines[n - 1], prefix1, prefix2)
  }

  /** The records counted over the first `n` lines: the held values after
      every line that leaves both of them held, in input order. */
  function Pairs(lines: seq<string>, n: nat, prefix1: string, prefix2: string): (ps: seq<Held>)
    requires n <= |lines|
    ensures |ps| <= n
    ensures forall j :: 0 <= j < |ps| ==> Complete(ps[j])
  {
    if n == 0 then []
    else
      var h := HeldAfter(lines, n, prefix1, prefix2);
      if Complete(h) then Pairs(lines, n - 1, prefix1, prefix2) + [h] else Pairs(lines, n - 1, prefix1, prefix2)
  }

  /** Reading one more line moves the held values by one step. */
  lemma HeldStep(lines: seq<string>, i: nat, n: nat, prefix1: string, prefix2: string)
    requires n == i + 1 <= |lines|
    ensures HeldAfter(lines, n, prefix1, prefix2) == Step(HeldAfter(lines, i, prefix1, prefix2), lines[i], prefix1, prefix2)
  {
    assert n - 1 == i;
  }

  /** A line after which both values are held counts one more record. */
  lemma PairsCount(lines: seq<string>, i: nat, n: nat, prefix1: string, prefix2: string)
    requires n == i + 1 <= |lines|
    requires Complete(HeldAfter(lines, n, prefix1, prefix2))
    ensures Pairs(lines, n, prefix1, prefix2) == Pairs(lines, i, prefix1, prefix2) + [HeldAfter(lines, n, prefix1, prefix2)]
  {
    assert n - 1 == i;
  }

  /** Any other line counts nothing. */
  lemma PairsSkip(lines: seq<string>, i: nat, n: nat, prefix1: string, prefix2: string)
    requires n == i + 1 <= |lines|
    requires !Complete(HeldAfter(lines, n, prefix1, prefix2))
    ensures Pairs(lines, n, prefix1, prefix2) == Pairs(lines, i, prefix1, prefix2)
  {
    assert n - 1 == i;
  }

  /** Reading more lines only adds records at the end. */
  lemma {:induction false} PairsGrow(lines: seq<string>, n: nat, m: nat, prefix1: string, prefix2: string)
    requires n <= m <= |lines|
    ensures Pairs(lines, n, prefix1, prefix2) <= Pairs(lines, m, prefix1, prefix2)
  {
    if n < m {
      PairsGrow(lines, n, m - 1, prefix1, prefix2);
    }
  }

  /** A "}" line forgets both values whatever it matches, so it never
      completes a record. */
  lemma CloseLineNeverCompletes(lines: seq<string>, n: nat, prefix1: string, prefix2: string)
    requires 0 < n <= |lines| && lines[n - 1] == CloseLine
    ensures HeldAfter(lines, n, prefix1, prefix2) == Forgotten
    ensures Pairs(lines, n, prefix1, prefix2) == Pairs(lines, n - 1, prefix1, prefix2)
  {
  }

  /** After a "{" line nothing read before it is held: only what the "{"
      line itself carries. */
  lemma OpenLineForgets(lines: seq<string>, n: nat, prefix1: string, prefix2: string)
    requires 0 < n <= |lines| && lines[n - 1] == OpenLine
    ensures HeldAfter(lines, n, prefix1, prefix2)
            == Held(if Matches(OpenLine, prefix1) then Field(OpenLine, prefix1) else "",
                    if Matches(OpenLine, prefix2) then Field(OpenLine, prefix2) else "")
  {
  }

  /** A line other than "}" that carries both prefixes sets both values. */
  lemma BothPrefixesSetBoth(lines: seq<string>, n: nat, prefix1: string, prefix2: string)
    requires 0 < n <= |lines| && lines[n - 1] != CloseLine
    requires Matches(lines[n - 1], prefix1) && Matches(lines[n - 1], prefix2)
    ensures HeldAfter(lines, n, prefix1, prefix2) == Held(Field(lines[n - 1], prefix1), Field(lines[n - 1], prefix2))
  {
  }

  /** Values are not forgotten after a record: once both are held, every
      further line that is no block line and carries neither prefix counts
      the same record again. */
  lemma RetentionRepeatsRecord(lines: seq<string>, n: nat, prefix1: string, prefix2: string)
    requires 0 < n <= |lines|
    requires Complete(HeldAfter(lines, n - 1, prefix1, prefix2))
    requires lines[n - 1] != OpenLine && lines[n - 1] != CloseLine
    requires !Matches(lines[n - 1], prefix1) && !Matches(lines[n - 1], prefix2)
    ensures Pairs(lines, n, prefix1, prefix2)
            == Pairs(lines, n - 1, prefix1, prefix2) + [HeldAfter(lines, n - 1, prefix1, prefix2)]
  {
  }

  /** A block in which the second value never shows up counts no record:
      from a "{" line at `open` up to line `n`, no line carries the second
      prefix, so the second value stays forgotten and no record is counted. */
  lemma {:induction false} OneSidedBlockEmitsNothing(lines: seq<string>, open: nat, n: nat, prefix1: string, prefix2: string)
    requires open < n <= |lines| && lines[open] == OpenLine
    requires forall k :: open <= k < n ==> !Matches(lines[k], prefix2)
    ensures HeldAfter(lines, n, prefix1, prefix2).v2 == ""
    ensures Pairs(lines, n, prefix1, prefix2) == Pairs(lines, open, prefix1, prefix2)
  {
    HeldStep(lines, n - 1, n, prefix1, prefix2);
    if n - 1 > open {
      OneSidedBlockEmitsNothing(lines, open, n - 1, prefix1, prefix2);
    }
    PairsSkip(lines, n - 1, n, prefix1, prefix2);
  }

  /** The mirror case: from a "{" line at `open` up to line `n`, no line
      carries the first prefix, so the first value stays forgotten and no
      record is counted. */
  lemma {:induction false} BlockWithoutFirstEmitsNothing(lines: seq<string>, open: nat, n: nat, prefix1: string, prefix2: string)
    requires open < n <= |lines| && lines[open] == OpenLine
    requires forall k :: open <= k < n ==> !Matches(lines[k], prefix1)
    ensures HeldAfter(lines, n, prefix1, prefix2).v1 == ""
    ensures Pairs(lines, n, prefix1, prefix2) == Pairs(lines, open, prefix1, prefix2)
  {
    HeldStep(lines, n - 1, n, prefix1, prefix2);
    if n - 1 > open {
      BlockWithoutFirstEmitsNothing(lines, open, n - 1, prefix1, prefix2);
    }
    PairsSkip(lines, n - 1, n, prefix1, prefix2);
  }

  /** Where no line carries the first prefix the first value is never held,
      so no record is counted. */
  lemma {:induction false} FirstNeverMatchesNoPairs(lines: seq<string>, n: nat, prefix1: string, prefix2: string)
    requires n <= |lines|
    requires forall k :: 0 <= k < |lines| ==> !Matches(lines[k], prefix1)
    ensures HeldAfter(lines, n, prefix1, prefix2).v1 == ""
    ensures Pairs(lines, n, prefix1, prefix2) == []
  {
    if n > 0 {
      FirstNeverMatchesNoPairs(lines, n - 1, prefix1, prefix2);
      HeldStep(lines, n - 1, n, prefix1, prefix2);
      FirstStaysForgotten(HeldAfter(lines, n - 1, prefix1, prefix2), lines[n - 1], prefix1, prefix2);
      PairsSkip(lines, n - 1, n, prefix1, prefix2);
    }
  }

  /** A line without the first prefix leaves a forgotten first value
      forgotten, whatever else it does. */
  lemma FirstStaysForgotten(h: Held, line: string, prefix1: string, prefix2: string)
    requires h.v1 == "" && !Matches(line, prefix1)
    ensures Step(h, line, prefix1, prefix2).v1 == ""
    ensures !Complete(Step(h, line, prefix1, prefix2))
  {
  }

  /** One written record: the two values, each in the chosen decimal
      convention, separated by the delimiter. */
  function PairRecord(v1: string, v2: string, delimiter: string): string {
    v1 + delimiter + v2 + CRLF
  }

  /** The text of a list of counted records, in order. */
  function PairRender(hs: seq<Held>, delimiter: string, useKomma: bool): string {
    if hs == [] then ""
    else
      var last := hs[|hs| - 1];
      PairRender(hs[..|hs| - 1], delimiter, useKomma)
      + PairRecord(Localize(useKomma, last.v1), Localize(useKomma, last.v2), delimiter)
  }

  lemma PairRenderSnoc(hs: seq<Held>, h: Held, delimiter: string, useKomma: bool)
    ensures PairRender(hs + [h], delimiter, useKomma)
            == PairRender(hs, delimiter, useKomma) + PairRecord(Localize(useKomma, h.v1), Localize(useKomma, h.v2), delimiter)
  {
    assert (hs + [h])[..|hs|] == hs;
  }

  /** Every record holds at least its two non-empty values and its line end,
      so the text is empty exactly when no record is written. */
  lemma {:induction false} PairRenderEmpty(hs: seq<Held>, delimiter: string, useKomma: bool)
    requires forall j :: 0 <= j < |hs| ==> Complete(hs[j])
    ensures |PairRender(hs, delimiter, useKomma)| >= 4 * |hs|
    ensures PairRender(hs, delimiter, useKomma) == "" <==> hs == []
  {
    if hs != [] {
      PairRenderEmpty(hs[..|hs| - 1], delimiter, useKomma);
    }
  }

  /** A value as the extractor keeps it: as read, or already rewritten to the
      comma convention by an earlier record (which only happens with it). */
  predicate Agrees(actual: string, held: string, useKomma: bool) {
    actual == held || (useKomma && actual == CommaDecimal(held))
  }

  /** A kept value is empty exactly when the held one is. */
  lemma AgreesEmpty(actual: string, held: string, useKomma: bool)
    requires Agrees(actual, held, useKomma)
    ensures actual == "" <==> held == ""
  {
  }

  /** A line moves kept and held values alike. */
  lemma StepAgrees(kept: Held, held: Held, line: string, prefix1: string, prefix2: string, useKomma: bool)
    requires Agrees(kept.v1, held.v1, useKomma) && Agrees(kept.v2, held.v2, useKomma)
    ensures Agrees(Step(kept, line, prefix1, prefix2).v1, Step(held, line, prefix1, prefix2).v1, useKomma)
    ensures Agrees(Step(kept, line, prefix1, prefix2).v2, Step(held, line, prefix1, prefix2).v2, useKomma)
  {
  }

  /** Writing a kept value in the chosen convention gives the held value so
      written, and the result is still kept: rewriting an already rewritten
      value changes nothing. */
  lemma AgreesWritten(actual: string, held: string, useKomma: bool)
    requires Agrees(actual, held, useKomma)
    ensures Localize(useKomma, actual) == Localize(useKomma, held)
    ensures Agrees(Localize(useKomma, actual), held, useKomma)
  {
    if useKomma {
      CommaDecimalIdempotent(held);
    }
  }

  /** The extractor's state between lines: the values it keeps (rewritten in
      place once written with the comma convention), the count of records,
      and the text written so far. */
  datatype Progress = Progress(kept: Held, count: int, text: string)

  const Begin: Progress := Progress(Forgotten, 0, "")

  /** One line of `read2Values`: the held values move by one step; when both
      are then held a record is counted, and when its ordinal lies in
      [start, stop] both values are written in the chosen convention, kept
      so, and their record is appended. */
  function Advance(p: Progress, line: string, prefix1: string, prefix2: string,
                   start: int, stop: int, delimiter: string, useKomma: bool): Progress
  {
    var h := Step(p.kept, line, prefix1, prefix2);
    if !Complete(h) then Progress(h, p.count, p.text)
    else if start <= p.count + 1 <= stop then
      var w := Held(Localize(useKomma, h.v1), Localize(useKomma, h.v2));
      Progress(w, p.count + 1, p.text + PairRecord(w.v1, w.v2, delimiter))
    else Progress(h, p.count + 1, p.text)
  }

  /** The state after the first `n` lines when none is skipped. */
  function Run(lines: seq<string>, n: nat, prefix1: string, prefix2: string,
               start: int, stop: int, delimiter: string, useKomma: bool): Progress
    requires n <= |lines|
  {
    if n == 0 then Begin
    else Advance(Run(lines, n - 1, prefix1, prefix2, start, stop, delimiter, useKomma), lines[n - 1],
                 prefix1, prefix2, start, stop, delimiter, useKomma)
  }

  lemma RunStep(lines: seq<string>, i: nat, n: nat, prefix1: string, prefix2: string,
                start: int, stop: int, delimiter: string, useKomma: bool)
    requires n == i + 1 <= |lines|
    ensures Run(lines, n, prefix1, prefix2, start, stop, delimiter, useKomma)
            == Advance(Run(lines, i, prefix1, prefix2, start, stop, delimiter, useKomma), lines[i],
                       prefix1, prefix2, start, stop, delimiter, useKomma)
  {
    assert n - 1 == i;
  }

  /** The state follows the declarative reading: the kept values agree with
      the held ones and the count is that of the counted records. */
  predicate Tracks(lines: seq<string>, n: nat, prefix1: string, prefix2: string,
                   start: int, stop: int, delimiter: string, useKomma: bool)
    requires n <= |lines|
  {
    var p := Run(lines, n, prefix1, prefix2, start, stop, delimiter, useKomma);
    var h := HeldAfter(lines, n, prefix1, prefix2);
    Agrees(p.kept.v1, h.v1, useKomma) && Agrees(p.kept.v2, h.v2, useKomma)
    && p.count == |Pairs(lines, n, prefix1, prefix2)|
  }

  lemma TracksStep(lines: seq<string>, i: nat, n: nat, prefix1: string, prefix2: string,
                   start: int, stop: int, delimiter: string, useKomma: bool)
    requires n == i + 1 <= |lines|
    requires Tracks(lines, i, prefix1, prefix2, start, stop, delimiter, useKomma)
    ensures Tracks(lines, n, prefix1, prefix2, start, stop, delimiter, useKomma)
  {
    var p := Run(lines, i, prefix1, prefix2, start, stop, delimiter, useKomma);
    var k := Step(p.kept, lines[i], prefix1, prefix2);
    var h := Step(HeldAfter(lines, i, prefix1, prefix2), lines[i], prefix1, prefix2);
    RunStep(lines, i, n, prefix1, prefix2, start, stop, delimiter, useKomma);
    HeldStep(lines, i, n, prefix1, prefix2);
    StepAgrees(p.kept, HeldAfter(lines, i, prefix1, prefix2), lines[i], prefix1, prefix2, useKomma);
    AgreesEmpty(k.v1, h.v1, useKomma);
    AgreesEmpty(k.v2, h.v2, useKomma);
    if Complete(h) {
      PairsCount(lines, i, n, prefix1, prefix2);
      AgreesWritten(k.v1, h.v1, useKomma);
      AgreesWritten(k.v2, h.v2, useKomma);
    } else {
      PairsSkip(lines, i, n, prefix1, prefix2);
    }
  }

  /** The text after one more line, when it writes a record. */
  lemma RunTextIn(lines: seq<string>, i: nat, n: nat, prefix1: string, prefix2: string,
                  start: int, stop: int, delimiter: string, useKomma: bool)
    requires n == i + 1 <= |lines|
    requires Tracks(lines, i, prefix1, prefix2, start, stop, delimiter, useKomma)
    requires Complete(HeldAfter(lines, n, prefix1, prefix2))
    requires start <= |Pairs(lines, i, prefix1, prefix2)| + 1 <= stop
    requires Run(lines, i, prefix1, prefix2, start, stop, delimiter, useKomma).text
             == PairRender(Selected(Pairs(lines, i, prefix1, prefix2), start, stop), delimiter, useKomma)
    ensures Run(lines, n, prefix1, prefix2, start, stop, delimiter, useKomma).text
            == PairRender(Selected(Pairs(lines, n, prefix1, prefix2), start, stop), delimiter, useKomma)
  {
    var p := Run(lines, i, prefix1, prefix2, start, stop, delimiter, useKomma);
    var k := Step(p.kept, lines[i], prefix1, prefix2);
    var h := HeldAfter(lines, n, prefix1, prefix2);
    var ps := Pairs(lines, i, prefix1, prefix2);
    RunStep(lines, i, n, prefix1, prefix2, start, stop, delimiter, useKomma);
    HeldStep(lines, i, n, prefix1, prefix2);
    StepAgrees(p.kept, HeldAfter(lines, i, prefix1, prefix2), lines[i], prefix1, prefix2, useKomma);
    AgreesEmpty(k.v1, h.v1, useKomma);
    AgreesEmpty(k.v2, h.v2, useKomma);
    AgreesWritten(k.v1, h.v1, useKomma);
    AgreesWritten(k.v2, h.v2, useKomma);
    PairsCount(lines, i, n, prefix1, prefix2);
    SelectedSnoc(ps, h, start, stop);
    PairRenderSnoc(Selected(ps, start, stop), h, delimiter, useKomma);
  }

  /** The text after one more line, when it writes nothing. */
  lemma RunTextOut(lines: seq<string>, i: nat, n: nat, prefix1: string, prefix2: string,
                   start: int, stop: int, delimiter: string, useKomma: bool)
    requires n == i + 1 <= |lines|
    requires Tracks(lines, i, prefix1, prefix2, start, stop, delimiter, useKomma)
    requires !(Complete(HeldAfter(lines, n, prefix1, prefix2)) && start <= |Pairs(lines, i, prefix1, prefix2)| + 1 <= stop)
    requires Run(lines, i, prefix1, prefix2, start, stop, delimiter, useKomma).text
             == PairRender(Selected(Pairs(lines, i, prefix1, prefix2), start, stop), delimiter, useKomma)
    ensures Run(lines, n, prefix1, prefix2, start, stop, delimiter, useKomma).text
            == PairRender(Selected(Pairs(lines, n, prefix1, prefix2), start, stop), delimiter, useKomma)
  {
    var p := Run(lines, i, prefix1, prefix2, start, stop, delimiter, useKomma);
    var k := Step(p.kept, lines[i], prefix1, prefix2);
    var h := HeldAfter(lines, n, prefix1, prefix2);
    var ps := Pairs(lines, i, prefix1, prefix2);
    RunStep(lines, i, n, prefix1, prefix2, start, stop, delimiter, useKomma);
    HeldStep(lines, i, n, prefix1, prefix2);
    StepAgrees(p.kept, HeldAfter(lines, i, prefix1, prefix2), lines[i], prefix1, prefix2, useKomma);
    AgreesEmpty(k.v1, h.v1, useKomma);
    AgreesEmpty(k.v2, h.v2, useKomma);
    if Complete(h) {
      PairsCount(lines, i, n, prefix1, prefix2);
      SelectedSnoc(ps, h, start, stop);
    } else {
      PairsSkip(lines, i, n, prefix1, prefix2);
    }
  }

  lemma RunTextStep(lines: seq<string>, i: nat, n: nat, prefix1: string, prefix2: string,
                    start: int, stop: int, delimiter: string, useKomma: bool)
    requires n == i + 1 <= |lines|
    requires Tracks(lines, i, prefix1, prefix2, start, stop, delimiter, useKomma)
    requires Run(lines, i, prefix1, prefix2, start, stop, delimiter, useKomma).text
             == PairRender(Selected(Pairs(lines, i, prefix1, prefix2), start, stop), delimiter, useKomma)
    ensures Run(lines, n, prefix1, prefix2, start, stop, delimiter, useKomma).text
            == PairRender(Selected(Pairs(lines, n, prefix1, prefix2), start, stop), delimiter, useKomma)
  {
    if Complete(HeldAfter(lines, n, prefix1, prefix2)) && start <= |Pairs(lines, i, prefix1, prefix2)| + 1 <= stop {
      RunTextIn(lines, i, n, prefix1, prefix2, start, stop, delimiter, useKomma);
    } else {
      RunTextOut(lines, i, n, prefix1, prefix2, start, stop, delimiter, useKomma);
    }
  }

  /** Before any line is read nothing is held, counted or written. */
  lemma RunBegins(lines: seq<string>, prefix1: string, prefix2: string,
                  start: int, stop: int, delimiter: string, useKomma: bool)
    ensures Modelled(lines, 0, prefix1, prefix2, start, stop, delimiter, useKomma)
  {
    assert |Pairs(lines, 0, prefix1, prefix2)| == 0;
  }

  /** The state follows the declarative reading and the text is the
      rendering of the counted records whose ordinal lies in [start, stop],
      in input order. */
  predicate Modelled(lines: seq<string>, n: nat, prefix1: string, prefix2: string,
                     start: int, stop: int, delimiter: string, useKomma: bool)
    requires n <= |lines|
  {
    Tracks(lines, n, prefix1, prefix2, start, stop, delimiter, useKomma)
    && Run(lines, n, prefix1, prefix2, start, stop, delimiter, useKomma).text
       == PairRender(Selected(Pairs(lines, n, prefix1, prefix2), start, stop), delimiter, useKomma)
  }

  /** One more line keeps the state modelled. */
  lemma ModelStep(lines: seq<string>, i: nat, n: nat, prefix1: string, prefix2: string,
                  start: int, stop: int, delimiter: string, useKomma: bool)
    requires n == i + 1 <= |lines|
    requires Modelled(lines, i, prefix1, prefix2, start, stop, delimiter, useKomma)
    ensures Modelled(lines, n, prefix1, prefix2, start, stop, delimiter, useKomma)
  {
    TracksStep(lines, i, n, prefix1, prefix2, start, stop, delimiter, useKomma);
    RunTextStep(lines, i, n, prefix1, prefix2, start, stop, delimiter, useKomma);
  }

  /** Over any prefix of the input the state of the reading loop is
      modelled by the declarative reading. */
  lemma {:induction false} RunModel(lines: seq<string>, n: nat, prefix1: string, prefix2: string,
                                    start: int, stop: int, delimiter: string, useKomma: bool)
    requires n <= |lines|
    ensures Modelled(lines, n, prefix1, prefix2, start, stop, delimiter, useKomma)
  {
    if n == 0 {
      RunBegins(lines, prefix1, prefix2, start, stop, delimiter, useKomma);
    } else {
      RunModel(lines, n - 1, prefix1, prefix2, start, stop, delimiter, useKomma);
      ModelStep(lines, n - 1, n, prefix1, prefix2, start, stop, delimiter, useKomma);
    }
  }

  /** The loop's count is the number of records counted so far. */
  lemma RunCounts(lines: seq<string>, n: nat, prefix1: string, prefix2: string,
                  start: int, stop: int, delimiter: string, useKomma: bool)
    requires n <= |lines|
    ensures Run(lines, n, prefix1, prefix2, start, stop, delimiter, useKomma).count == |Pairs(lines, n, prefix1, prefix2)|
  {
    RunModel(lines, n, prefix1, prefix2, start, stop, delimiter, useKomma);
  }

  /** Where reading ends, by exhaustion or by reaching the stop count, the
      count and the text are those the whole input determines. */
  lemma RunFinished(lines: seq<string>, linesRead: nat, prefix1: string, prefix2: string,
                    start: int, stop: int, delimiter: string, useKomma: bool)
    requires linesRead <= |lines|
    requires Run(lines, linesRead, prefix1, prefix2, start, stop, delimiter, useKomma).count <= LowestOrdinal(stop)
    requires linesRead == |lines| || Run(lines, linesRead, prefix1, prefix2, start, stop, delimiter, useKomma).count == LowestOrdinal(stop)
    ensures Run(lines, linesRead, prefix1, prefix2, start, stop, delimiter, useKomma).count == |Pairs(lines, linesRead, prefix1, prefix2)|
    ensures Run(lines, linesRead, prefix1, prefix2, start, stop, delimiter, useKomma).count
            == Min(|Pairs(lines, |lines|, prefix1, prefix2)|, LowestOrdinal(stop))
    ensures Run(lines, linesRead, prefix1, prefix2, start, stop, delimiter, useKomma).text
            == PairRender(Selected(Pairs(lines, |lines|, prefix1, prefix2), start, stop), delimiter, useKomma)
    ensures Complete(Run(lines, linesRead, prefix1, prefix2, start, stop, delimiter, useKomma).kept)
            <==> Complete(HeldAfter(lines, linesRead, prefix1, prefix2))
  {
    var p := Run(lines, linesRead, prefix1, prefix2, start, stop, delimiter, useKomma);
    var h := HeldAfter(lines, linesRead, prefix1, prefix2);
    RunModel(lines, linesRead, prefix1, prefix2, start, stop, delimiter, useKomma);
    AgreesEmpty(p.kept.v1, h.v1, useKomma);
    AgreesEmpty(p.kept.v2, h.v2, useKomma);
    if linesRead < |lines| {
      PairsGrow(lines, linesRead, |lines|, prefix1, prefix2);
      SelectedSettled(Pairs(lines, linesRead, prefix1, prefix2), Pairs(lines, |lines|, prefix1, prefix2), start, stop);
    }
  }

  /** The held values after one line, as `read2Values` updates them in
      place: "{" forgets both, a matching line sets its value, "}" forgets
      both. */
  method TakeLine(line: string, v1: string, v2: string, value1: string, value2: string)
    returns (v1': string, v2': string)
    ensures Held(v1', v2') == Step(Held(v1, v2), line, value1, value2)
  {
    v1', v2' := v1, v2;
    if line == OpenLine {
      v1', v2' := "", "";
    }
    if Matches(line, value1) {
      v1' := Field(line, value1);
    }
    if Matches(line, value2) {
      v2' := Field(line, value2);
    }
    if line == CloseLine {
      v1', v2' := "", "";
    }
  }

  /** The body of the `read2Values` loop for one line: the held values are
      updated, and when both are then held the record is counted and, when
      its ordinal lies in [start, stop], both values are rewritten in place
      in the chosen convention and their record is appended. */
  method ReadLine(line: string, v1: string, v2: string, numValues: int, text: string,
                  value1: string, value2: string, start: int, stop: int, delimiter: string, useKomma: bool)
    returns (v1': string, v2': string, numValues': int, text': string)
    ensures Progress(Held(v1', v2'), numValues', text')
            == Advance(Progress(Held(v1, v2), numValues, text), line, value1, value2, start, stop, delimiter, useKomma)
  {
    v1', v2' := TakeLine(line, v1, v2, value1, value2);
    numValues', text' := numValues, text;
    if v1' != "" && v2' != "" {
      numValues' := numValues' + 1;
      if start <= numValues' <= stop {
        if useKomma {
          v1' := ReplacePointWithKomma(v1');
          v2' := ReplacePointWithKomma(v2');
        }
        text' := text' + PairRecord(v1', v2', delimiter);
      }
    }
  }

  /** `read2Values` over the lines of the input stream. Besides the text and
      the count it returns how many lines were taken from the stream. */
  method Read2Values(lines: seq<string>, value1: string, value2: string, delimiter: string,
                     start: int, stop: int, useKomma: bool)
    returns (text: string, numValues: int, linesRead: nat)
    ensures linesRead <= |lines|
    ensures numValues == |Pairs(lines, linesRead, value1, value2)|
    ensures numValues == Min(|Pairs(lines, |lines|, value1, value2)|, LowestOrdinal(stop))
    ensures text == PairRender(Selected(Pairs(lines, |lines|, value1, value2), start, stop), delimiter, useKomma)
    ensures linesRead < |lines| ==>
              0 < linesRead && numValues == LowestOrdinal(stop) && Complete(HeldAfter(lines, linesRead, value1, value2))
    ensures numValues == LowestOrdinal(stop) ==>
              0 < linesRead && |Pairs(lines, linesRead - 1, value1, value2)| < numValues
  {
    var v1, v2 := "", "";
    text, numValues, linesRead := "", 0, 0;
    while linesRead < |lines|
      invariant linesRead <= |lines|
      invariant Run(lines, linesRead, value1, value2, start, stop, delimiter, useKomma) == Progress(Held(v1, v2), numValues, text)
      invariant numValues < LowestOrdinal(stop)
    {
      RunStep(lines, linesRead, linesRead + 1, value1, value2, start, stop, delimiter, useKomma);
      ghost var before, counted := linesRead, numValues;
      v1, v2, numValues, text := ReadLine(lines[linesRead], v1, v2, numValues, text,
                                          value1, value2, start, stop, delimiter, useKomma);
      linesRead := linesRead + 1;
      assert Run(lines, linesRead, value1, value2, start, stop, delimiter, useKomma) == Progress(Held(v1, v2), numValues, text);
      if v1 != "" && v2 != "" && numValues >= stop {
        RunCounts(lines, before, value1, value2, start, stop, delimiter, useKomma);
        assert |Pairs(lines, linesRead - 1, value1, value2)| == counted < LowestOrdinal(stop);
        break;
      }
    }
    RunFinished(lines, linesRead, value1, value2, start, stop, delimiter, useKomma);
  }
}
