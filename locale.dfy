/** The decimal-separator rewrite applied to extracted values when the comma
    convention is chosen: every point becomes a comma. */
module Locale {
  import opened Strings

  function CommaChar(c: char): char {
    if c == '.' then ',' else c
  }

  /** The text `replacePointWithKomma` produces, built from the end. */
  function CommaDecimal(s: string): (r: string)
    ensures |r| == |s|
  {
    if s == [] then [] else CommaDecimal(s[..|s| - 1]) + [CommaChar(s[|s| - 1])]
  }

  /** Character by character: a point becomes a comma, everything else stays. */
  lemma {:induction false} CommaDecimalChars(s: string)
    ensures forall i :: 0 <= i < |s| ==> CommaDecimal(s)[i] == CommaChar(s[i])
  {
    if s != [] {
      CommaDecimalChars(s[..|s| - 1]);
    }
  }

  /** No point survives the rewrite. */
  lemma NoPointLeft(s: string)
    ensures '.' !in CommaDecimal(s)
  {
    CommaDecimalChars(s);
  }

  /** Text without a point is left as it is. */
  lemma PointFreeUnchanged(s: string)
    requires '.' !in s
    ensures CommaDecimal(s) == s
  {
    CommaDecimalChars(s);
  }

  /** Rewriting twice is rewriting once. */
  lemma CommaDecimalIdempotent(s: string)
    ensures CommaDecimal(CommaDecimal(s)) == CommaDecimal(s)
  {
    NoPointLeft(s);
    PointFreeUnchanged(CommaDecimal(s));
  }

  /** A value as it is written out: comma-converted when the comma convention
      is selected, verbatim otherwise. */
  function Localize(useKomma: bool, s: string): (r: string)
    ensures |r| == |s|
  {
    if useKomma then CommaDecimal(s) else s
  }

  /** `replacePointWithKomma`: find the first point, replace it by a comma,
      and repeat until no point is found. */
  method ReplacePointWithKomma(text: string) returns (r: string)
    ensures r == CommaDecimal(text)
  {
    r := text;
    var at := Find(r, '.');
    while at.Some?
      invariant |r| == |text|
      invariant forall i :: 0 <= i < |r| ==> r[i] == text[i] || (text[i] == '.' && r[i] == ',')
      invariant at == Find(r, '.')
      decreases multiset(r)['.']
    {
      r := r[at.value := ','];
      at := Find(r, '.');
    }
    CommaDecimalChars(text);
  }
}
