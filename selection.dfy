/** Range selection: both extractors keep the records whose 1-based ordinal
    lies in the inclusive range [start, stop]. */
module Selection {
  import opened Settings

  /** The items of `xs` whose ordinal lies in [start, stop], in order. */
  function Selected<T>(xs: seq<T>, start: int, stop: int): (s: seq<T>)
    ensures |s| <= |xs|
  {
    if xs == [] then []
    else if start <= |xs| <= stop then Selected(xs[..|xs| - 1], start, stop) + [xs[|xs| - 1]]
    else Selected(xs[..|xs| - 1], start, stop)
  }

  /** The number of selected items: those with ordinal from LowestOrdinal(start) to
      min(stop, |xs|). */
  lemma {:induction false} SelectedCount<T>(xs: seq<T>, start: int, stop: int)
    ensures |Selected(xs, start, stop)| == if LowestOrdinal(start) <= Min(stop, |xs|) then Min(stop, |xs|) - LowestOrdinal(start) + 1 else 0
  {
    if xs != [] {
      SelectedCount(xs[..|xs| - 1], start, stop);
    }
  }

  /** Every selected item is the item with ordinal LowestOrdinal(start) + i, and that
      ordinal is in range: the selection is the contiguous run of items with
      ordinals from LowestOrdinal(start) to min(stop, |xs|). */
  lemma {:induction false} SelectedItems<T>(xs: seq<T>, start: int, stop: int, i: int)
    requires 0 <= i < |Selected(xs, start, stop)|
    ensures start <= LowestOrdinal(start) + i <= stop
    ensures LowestOrdinal(start) + i <= |xs|
    ensures Selected(xs, start, stop)[i] == xs[LowestOrdinal(start) + i - 1]
  {
    var ys := xs[..|xs| - 1];
    SelectedCount(ys, start, stop);
    if i < |Selected(ys, start, stop)| {
      SelectedItems(ys, start, stop, i);
    }
  }

  /** One more item is selected exactly when its ordinal is in range; it then
      comes last, after |xs| + 1 - LowestOrdinal(start) earlier selected items. */
  lemma SelectedSnoc<T>(xs: seq<T>, x: T, start: int, stop: int)
    ensures start <= |xs| + 1 <= stop ==>
              Selected(xs + [x], start, stop) == Selected(xs, start, stop) + [x]
              && |Selected(xs, start, stop)| == |xs| + 1 - LowestOrdinal(start)
    ensures !(start <= |xs| + 1 <= stop) ==>
              Selected(xs + [x], start, stop) == Selected(xs, start, stop)
  {
    assert (xs + [x])[..|xs|] == xs;
    if start <= |xs| + 1 <= stop {
      SelectedCount(xs, start, stop);
    }
  }

  /** Once `stop` items have been seen, more items change nothing selected. */
  lemma {:induction false} SelectedSettled<T>(xs: seq<T>, ys: seq<T>, start: int, stop: int)
    requires xs <= ys
    requires stop <= |xs|
    ensures Selected(ys, start, stop) == Selected(xs, start, stop)
  {
    if |ys| > |xs| {
      SelectedSettled(xs, ys[..|ys| - 1], start, stop);
    } else {
      assert ys == xs;
    }
  }

  /** One output record before it is rendered: its index and its value. */
  datatype Item<T> = Item(index: nat, value: T)

  /** The values of `vs` as records numbered consecutively from `first`. */
  function Indexed<T>(vs: seq<T>, first: nat): (items: seq<Item<T>>)
    ensures |items| == |vs|
  {
    if vs == [] then []
    else Indexed(vs[..|vs| - 1], first) + [Item(first + |vs| - 1, vs[|vs| - 1])]
  }

  /** Record i of the numbered list is value i with index first + i. */
  lemma {:induction false} IndexedItems<T>(vs: seq<T>, first: nat, i: int)
    requires 0 <= i < |vs|
    ensures Indexed(vs, first)[i] == Item(first + i, vs[i])
  {
    if i < |vs| - 1 {
      IndexedItems(vs[..|vs| - 1], first, i);
    }
  }

  lemma IndexedSnoc<T>(vs: seq<T>, x: T, first: nat)
    ensures Indexed(vs + [x], first) == Indexed(vs, first) + [Item(first + |vs|, x)]
  {
    assert (vs + [x])[..|vs|] == vs;
  }

  /** The records an extractor writes for the values `vs`: those whose
      ordinal lies in [start, stop], numbered from their offset to `start`, so
      that with a range starting at 1 or later the first record gets index 0. */
  function Window<T>(vs: seq<T>, start: int, stop: int): seq<Item<T>> {
    Indexed(Selected(vs, start, stop), LowestOrdinal(start) - start)
  }

  /** Record i of the window is the value with ordinal LowestOrdinal(start) + i, which
      lies in the range, and its index is that ordinal minus `start`. */
  lemma WindowItems<T>(vs: seq<T>, start: int, stop: int, i: int)
    requires 0 <= i < |Window(vs, start, stop)|
    ensures start <= LowestOrdinal(start) + i <= stop && LowestOrdinal(start) + i <= |vs|
    ensures Window(vs, start, stop)[i] == Item(LowestOrdinal(start) + i - start, vs[LowestOrdinal(start) + i - 1])
  {
    SelectedItems(vs, start, stop, i);
    IndexedItems(Selected(vs, start, stop), LowestOrdinal(start) - start, i);
  }

  /** One more value in range adds its numbered record to the window. */
  lemma WindowSnocIn<T>(vs: seq<T>, x: T, start: int, stop: int)
    requires start <= |vs| + 1 <= stop
    ensures Window(vs + [x], start, stop) == Window(vs, start, stop) + [Item(|vs| + 1 - start, x)]
  {
    var s := Selected(vs, start, stop);
    SelectedSnoc(vs, x, start, stop);
    IndexedSnoc(s, x, LowestOrdinal(start) - start);
    assert LowestOrdinal(start) - start + |s| == |vs| + 1 - start;
  }

  /** One more value out of range leaves the window as it is. */
  lemma WindowSnocOut<T>(vs: seq<T>, x: T, start: int, stop: int)
    requires !(start <= |vs| + 1 <= stop)
    ensures Window(vs + [x], start, stop) == Window(vs, start, stop)
  {
    SelectedSnoc(vs, x, start, stop);
  }
}
