/** Worked inputs for the two extractors, stated over the functions their
    methods are proved against: the text each writes and the count each
    returns. */
module Scenarios {
  import opened LineClassifier
  import opened Locale
  import opened Settings
  import opened SingleValue
  import opened PairValue
  import opened Selection

  const SingleLines: seq<string> := ["A:1", "B:x", "A:2", "A:3"]

  /** The values of the single-value input, line by line. */
  lemma SingleLinesValues(lines: seq<string>)
    requires lines == SingleLines
    ensures Values(lines, 1, "A:") == ["1"]
    ensures Values(lines, 2, "A:") == ["1"]
    ensures Values(lines, 3, "A:") == ["1", "2"]
    ensures Values(lines, 4, "A:") == ["1", "2", "3"]
  {
    assert Matches(lines[0], "A:") && Field(lines[0], "A:") == "1";
    assert Head(lines[1], 2)[0] == 'B';
    assert Matches(lines[2], "A:") && Field(lines[2], "A:") == "2";
    assert Matches(lines[3], "A:") && Field(lines[3], "A:") == "3";
    ValuesStep(lines, 0, 1, "A:");
    ValuesStep(lines, 1, 2, "A:");
    ValuesStep(lines, 2, 3, "A:");
    ValuesStep(lines, 3, 4, "A:");
  }

  /** Every match from the first on: three records numbered from 0. */
  lemma SingleAllRecords(lines: seq<string>)
    requires lines == SingleLines
    ensures SingleText(lines, 4, "A:", 1, LLONG_MAX, ",", false) == "0,1\r\n1,2\r\n2,3\r\n"
    ensures Min(|Values(lines, 4, "A:")|, LowestOrdinal(LLONG_MAX)) == 3
  {
    SingleLinesValues(lines);
    assert Record(0, ",", Localize(false, "1")) == "0,1\r\n";
    assert Record(1, ",", Localize(false, "2")) == "1,2\r\n";
    assert Record(2, ",", Localize(false, "3")) == "2,3\r\n";
    SingleTextAppend(lines, 0, 1, "A:", 1, LLONG_MAX, ",", false);
    SingleTextKeep(lines, 1, 2, "A:", 1, LLONG_MAX, ",", false);
    SingleTextAppend(lines, 2, 3, "A:", 1, LLONG_MAX, ",", false);
    assert SingleText(lines, 3, "A:", 1, LLONG_MAX, ",", false) == "0,1\r\n1,2\r\n";
    SingleTextAppend(lines, 3, 4, "A:", 1, LLONG_MAX, ",", false);
  }

  /** The range [2, 2]: only the second match is written, numbered 0 (its
      ordinal minus start), and reading stops right after it, so the count
      returned is 2. */
  lemma SingleSecondRecordOnly(lines: seq<string>)
    requires lines == SingleLines
    ensures SingleText(lines, 4, "A:", 2, 2, ",", false) == "0,2\r\n"
    ensures Min(|Values(lines, 4, "A:")|, LowestOrdinal(2)) == 2
  {
    SingleLinesValues(lines);
    assert Record(0, ",", Localize(false, "2")) == "0,2\r\n";
    SingleTextKeep(lines, 0, 1, "A:", 2, 2, ",", false);
    SingleTextKeep(lines, 1, 2, "A:", 2, 2, ",", false);
    SingleTextAppend(lines, 2, 3, "A:", 2, 2, ",", false);
    SingleTextKeep(lines, 3, 4, "A:", 2, 2, ",", false);
  }

  const PairLines: seq<string> := ["{", "X=1", "Y=2", "}", "{", "X=3", "Y=4", "}"]

  /** The held values of the two-block input, line by line. */
  lemma PairLinesHeld(lines: seq<string>)
    requires lines == PairLines
    ensures HeldAfter(lines, 1, "X=", "Y=") == Forgotten
    ensures HeldAfter(lines, 2, "X=", "Y=") == Held("1", "")
    ensures HeldAfter(lines, 3, "X=", "Y=") == Held("1", "2")
    ensures HeldAfter(lines, 4, "X=", "Y=") == Forgotten
    ensures HeldAfter(lines, 5, "X=", "Y=") == Forgotten
    ensures HeldAfter(lines, 6, "X=", "Y=") == Held("3", "")
    ensures HeldAfter(lines, 7, "X=", "Y=") == Held("3", "4")
    ensures HeldAfter(lines, 8, "X=", "Y=") == Forgotten
  {
    assert Head(lines[0], 2) == "{" && Head(lines[4], 2) == "{";
    assert Head(lines[3], 2) == "}" && Head(lines[7], 2) == "}";
    assert Matches(lines[1], "X=") && Field(lines[1], "X=") == "1" && Head(lines[1], 2)[0] == 'X';
    assert Matches(lines[2], "Y=") && Field(lines[2], "Y=") == "2" && Head(lines[2], 2)[0] == 'Y';
    assert Matches(lines[5], "X=") && Field(lines[5], "X=") == "3" && Head(lines[5], 2)[0] == 'X';
    assert Matches(lines[6], "Y=") && Field(lines[6], "Y=") == "4" && Head(lines[6], 2)[0] == 'Y';
    HeldStep(lines, 0, 1, "X=", "Y=");
    HeldStep(lines, 1, 2, "X=", "Y=");
    HeldStep(lines, 2, 3, "X=", "Y=");
    HeldStep(lines, 3, 4, "X=", "Y=");
    HeldStep(lines, 4, 5, "X=", "Y=");
    HeldStep(lines, 5, 6, "X=", "Y=");
    HeldStep(lines, 6, 7, "X=", "Y=");
    HeldStep(lines, 7, 8, "X=", "Y=");
  }

  /** Two blocks, each with both values: two records, "1;2" and "3;4". */
  lemma PairTwoBlocks(lines: seq<string>)
    requires lines == PairLines
    ensures Pairs(lines, 8, "X=", "Y=") == [Held("1", "2"), Held("3", "4")]
    ensures PairRender(Selected(Pairs(lines, 8, "X=", "Y="), 1, LLONG_MAX), ";", false) == "1;2\r\n3;4\r\n"
  {
    PairLinesHeld(lines);
    PairsSkip(lines, 0, 1, "X=", "Y=");
    PairsSkip(lines, 1, 2, "X=", "Y=");
    PairsCount(lines, 2, 3, "X=", "Y=");
    PairsSkip(lines, 3, 4, "X=", "Y=");
    PairsSkip(lines, 4, 5, "X=", "Y=");
    PairsSkip(lines, 5, 6, "X=", "Y=");
    PairsCount(lines, 6, 7, "X=", "Y=");
    PairsSkip(lines, 7, 8, "X=", "Y=");
    var first := [Held("1", "2")];
    assert first == [] + [Held("1", "2")];
    SelectedSnoc([], Held("1", "2"), 1, LLONG_MAX);
    SelectedSnoc(first, Held("3", "4"), 1, LLONG_MAX);
    PairRenderSnoc([], Held("1", "2"), ";", false);
    PairRenderSnoc(first, Held("3", "4"), ";", false);
    assert PairRecord(Localize(false, "1"), Localize(false, "2"), ";") == "1;2\r\n";
    assert PairRecord(Localize(false, "3"), Localize(false, "4"), ";") == "3;4\r\n";
  }
}
