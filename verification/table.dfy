/** The selectable table: ordered rows with an optional selected index,
    clamped navigation (no wrap at either end) and a refresh that keeps the
    operator's place whenever the selected row still exists. */
module Tables {
  import opened Scroll

  datatype StatefulTable<T> = StatefulTable(items: seq<T>, selected: Option<nat>)

  /** A non-empty table always has a selected row inside its items. An empty
      table may carry any selection: a refresh with no rows leaves the old
      one in place. */
  predicate Inv<T>(t: StatefulTable<T>)
  {
    |t.items| > 0 ==> t.selected.Some? && t.selected.value < |t.items|
  }

  /** An empty table with nothing selected. */
  function New<T>(): (t: StatefulTable<T>)
    ensures |t.items| == 0 && t.selected.None?
    ensures Inv(t)
  {
    StatefulTable([], None)
  }

  /** Replaces the rows. With new rows present, a selection that still
      names an existing row is kept, one at or past the end is pulled back to the
      last row, and no selection becomes the first row. With no rows the old
      selection is left untouched. */
  function SetItems<T>(t: StatefulTable<T>, items: seq<T>): (r: StatefulTable<T>)
    ensures r.items == items
    ensures |items| == 0 ==> r.selected == t.selected
    ensures |items| > 0 && t.selected.None? ==> r.selected == Some(0)
    ensures |items| > 0 && t.selected.Some? && t.selected.value < |items| ==>
      r.selected == t.selected
    ensures |items| > 0 && t.selected.Some? && t.selected.value >= |items| ==>
      r.selected == Some(|items| - 1)
    ensures Inv(r)
  {
    var len := |items|;
    if len > 0 then
      var i := (match t.selected
        case None => 0
        case Some(i) => if i > 0 && i < len then i else if i >= len then len - 1 else 0);
      StatefulTable(items, Some(i))
    else
      t.(items := items)
  }

  /** A table over `items`, built as a fresh table that selects the first
      row when there is one and then takes `items` in. */
  function WithItems<T>(items: seq<T>): (t: StatefulTable<T>)
    ensures t.items == items
    ensures t.selected == Some(0) <==> |items| > 0
    ensures t.selected.None? <==> |items| == 0
    ensures Inv(t)
  {
    var blank := New();
    var primed := if |items| > 0 then blank.(selected := Some(0)) else blank;
    SetItems(primed, items)
  }

  /** Moves the selection `n` rows down, sticking at the last row; an
      unselected table stays unselected. */
  function ScrollDown<T>(t: StatefulTable<T>, n: nat): (r: StatefulTable<T>)
    ensures r.items == t.items
    ensures t.selected.None? ==> r == t
    ensures t.selected.Some? && |t.items| > 0 ==>
      r.selected == Some(Min(t.selected.value + n, |t.items| - 1))
    ensures t.selected.Some? && |t.items| == 0 ==> r.selected == Some(0)
    ensures Inv(t) ==> Inv(r)
  {
    match t.selected
    case Some(i) =>
      if i + n < |t.items| then t.(selected := Some(i + n))
      else t.(selected := Some(SatSub(|t.items|, 1)))
    case None => t
  }

  /** Moves the selection `n` rows up, stopping at the first row; an
      unselected table and a table on its first row are left alone. */
  function ScrollUp<T>(t: StatefulTable<T>, n: nat): (r: StatefulTable<T>)
    ensures r.items == t.items
    ensures t.selected.None? || t.selected == Some(0) ==> r == t
    ensures t.selected.Some? ==> r.selected.Some? && r.selected.value <= t.selected.value
    ensures t.selected.Some? && n <= t.selected.value ==>
      r.selected == Some(t.selected.value - n)
    ensures t.selected.Some? && n > t.selected.value ==> r.selected == Some(0)
    ensures Inv(t) ==> Inv(r)
  {
    match t.selected
    case Some(i) => if i != 0 then t.(selected := Some(SatSub(i, n))) else t
    case None => t
  }

  /** The `Scrollable` entry point: a line or page step up or down. */
  function HandleScroll<T>(t: StatefulTable<T>, up: bool, page: bool): (r: StatefulTable<T>)
    ensures r.items == t.items
    ensures r.selected.None? <==> t.selected.None?
    ensures Inv(t) ==> Inv(r)
    ensures up ==> r == ScrollUp(t, if page then PageStep else LineStep)
    ensures !up ==> r == ScrollDown(t, if page then PageStep else LineStep)
  {
    match Resolve(up, page)
    case Up(n) => ScrollUp(t, n)
    case Down(n) => ScrollDown(t, n)
  }

  /** A copy of the selected row: nothing when the table is empty or
      unselected. The requirement is exactly what keeps the row lookup in
      bounds, and every table that keeps `Inv` meets it. */
  function GetSelectedItemCopy<T>(t: StatefulTable<T>): (r: Option<T>)
    requires t.selected.Some? && |t.items| > 0 ==> t.selected.value < |t.items|
    ensures r.None? <==> |t.items| == 0 || t.selected.None?
    ensures r.Some? ==> t.selected.Some? && r.value == t.items[t.selected.value]
    ensures Inv(t) && |t.items| > 0 ==> r.Some? && r.value in t.items
  {
    if |t.items| > 0 then
      match t.selected
      case Some(i) => Some(t.items[i])
      case None => None
    else None
  }

  function Min(a: nat, b: nat): (m: nat)
    ensures m <= a && m <= b && (m == a || m == b)
  {
    if a <= b then a else b
  }

  /** Refreshing with rows that still contain the selected position keeps
      the same row number, so the operator's place survives a refresh. */
  lemma RefreshKeepsPlace<T>(t: StatefulTable<T>, items: seq<T>)
    requires t.selected.Some? && t.selected.value < |items|
    ensures SetItems(t, items).selected == t.selected
    ensures GetSelectedItemCopy(SetItems(t, items)) == Some(items[t.selected.value])
  {
  }

  /** Clamping: from the last row any downward step stays on the last row,
      and from the first row any upward step stays on the first row. */
  lemma ClampsAtBothEnds<T>(t: StatefulTable<T>, n: nat)
    requires t.selected.Some? && |t.items| > 0
    ensures t.selected.value == |t.items| - 1 ==> ScrollDown(t, n) == t
    ensures t.selected.value == 0 ==> ScrollUp(t, n) == t
  {
  }

  /** A refresh or a key press, as the surrounding update loop applies them. */
  datatype Event<T> = Refresh(rows: seq<T>) | Press(key: Key)

  function Apply<T>(t: StatefulTable<T>, e: Event<T>): (r: StatefulTable<T>)
    ensures Inv(t) ==> Inv(r)
  {
    match e
    case Refresh(rows) => SetItems(t, rows)
    case Press(k) => HandleScroll(t, k.up, k.page)
  }

  /** Applies a sequence of events in order. */
  function Run<T>(t: StatefulTable<T>, events: seq<Event<T>>): (r: StatefulTable<T>)
    decreases |events|
  {
    if |events| == 0 then t else Run(Apply(t, events[0]), events[1..])
  }

  /** No interleaving of refreshes and key presses breaks the table's
      invariant, so reading the selected row never goes out of bounds. */
  lemma {:induction false} RunKeepsInv<T>(t: StatefulTable<T>, events: seq<Event<T>>)
    requires Inv(t)
    ensures Inv(Run(t, events))
    decreases |events|
  {
    if |events| > 0 {
      RunKeepsInv(Apply(t, events[0]), events[1..]);
    }
  }

  /** The selection-retaining refresh trace: two rows select the first,
      growing to three keeps row 1, shrinking to two pulls row 2 back to
      row 1; then line steps and a ten-row step clamp at both ends. */
  lemma RefreshAndStepTrace()
    ensures var t0 := New<int>();
      && |t0.items| == 0 && t0.selected.None?
      && var t1 := SetItems(t0, [0, 0]);
      && |t1.items| == 2 && t1.selected == Some(0)
      && var t2 := SetItems(t1.(selected := Some(1)), [0, 0, 0]);
      && |t2.items| == 3 && t2.selected == Some(1)
      && var t3 := SetItems(t2.(selected := Some(2)), [0, 0]);
      && |t3.items| == 2 && t3.selected == Some(1)
      && var t4 := ScrollDown(t3.(selected := Some(0)), 1);
      && t4.selected == Some(1)
      && var t5 := ScrollDown(t4, 1);
      && t5.selected == Some(1)
      && var t6 := ScrollUp(t5, 1);
      && t6.selected == Some(0)
      && var t7 := ScrollUp(t6, 1);
      && t7.selected == Some(0)
      && ScrollDown(t7, 10).selected == Some(1)
    ensures WithItems([0, 0]).selected == Some(0)
  {
  }

  /** The key-press trace over three rows: line steps down stop at the last
      row, a line up moves back one, a page down clamps to the last row and
      a page up clamps to the first. */
  lemma KeyPressTrace()
    ensures var t0 := SetItems(New(), ["A", "B", "C"]);
      && t0.selected == Some(0)
      && var t1 := HandleScroll(t0, false, false);
      && t1.selected == Some(1)
      && var t2 := HandleScroll(t1, false, false);
      && t2.selected == Some(2)
      && var t3 := HandleScroll(t2, false, false);
      && t3.selected == Some(2)
      && var t4 := HandleScroll(t3, true, false);
      && t4.selected == Some(1)
      && var t5 := HandleScroll(t4, false, true);
      && t5.selected == Some(2)
      && HandleScroll(t5, true, true).selected == Some(0)
  {
  }
}
