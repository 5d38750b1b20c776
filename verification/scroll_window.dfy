/** The scroll window of the library queue list: which rows of the queue are
    shown for a given selection (src/ui/components/library.rs). */
module ScrollWindow {

  /** Saturating subtraction on `usize`. */
  function Sub(a: nat, b: nat): (r: nat)
    ensures r <= a
    ensures b <= a ==> r + b == a
    ensures b > a ==> r == 0
  {
    if a >= b then a - b else 0
  }

  function Min(a: nat, b: nat): nat {
    if a <= b then a else b
  }

  /** Rows available for list content: the panel height minus the eight
      rows taken by the title and footer. */
  function ContentHeight(panelHeight: nat): (r: nat)
    ensures panelHeight >= 8 ==> r + 8 == panelHeight
    ensures panelHeight < 8 ==> r == 0
  {
    Sub(panelHeight, 8)
  }

  /** First visible row: centre the selection, but never scroll past the point
      where the last row of the list reaches the bottom of the window. */
  function StartIndex(selected: nat, len: nat, height: nat): (start: nat)
    ensures start <= selected
    ensures height > 0 && selected < len ==> selected < start + height
    ensures len >= height ==> len - start >= height
    ensures start <= Sub(len, height)
  {
    Min(Sub(selected, height / 2), Sub(len, height))
  }

  /** The rows rendered: `iter().skip(start).take(height)`. */
  function VisibleRows<T>(items: seq<T>, start: nat, height: nat): (rows: seq<T>)
    ensures |rows| <= height
    ensures start <= |items| ==> |rows| == Min(height, |items| - start)
    ensures forall i :: 0 <= i < |rows| ==> start + i < |items| && rows[i] == items[start + i]
  {
    if start >= |items| then []
    else if |items| - start <= height then items[start..]
    else items[start..start + height]
  }

  /** With the window placed by `StartIndex`, the selected row is among the
      rendered rows, and the window is full whenever the list is long enough. */
  lemma SelectionIsRendered<T>(items: seq<T>, selected: nat, height: nat)
    requires height > 0 && selected < |items|
    ensures var start := StartIndex(selected, |items|, height);
      var rows := VisibleRows(items, start, height);
      && start <= selected < start + |rows|
      && rows[selected - start] == items[selected]
      && (|items| >= height ==> |rows| == height)
  {
  }

  /** The scenario of the repository's `test_scroll_clamping`: 50 rows, a
      30-row panel, the last row selected. */
  lemma ScrollClampingScenario()
    ensures ContentHeight(30) == 22
    ensures StartIndex(49, 50, 22) == 28
    ensures 50 - StartIndex(49, 50, 22) == 22
  {
  }
}
