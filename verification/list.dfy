/** The selectable list: ordered items with an optional selected index and
    cyclic navigation (stepping past the end lands back on the first item,
    stepping up from the first item lands near the end). */
module Lists {
  import opened Scroll

  datatype StatefulList<T> = StatefulList(items: seq<T>, selected: Option<nat>)

  /** The bound every reachable list keeps. A selection lies inside the
      items, except that scrolling an empty list selects index 0. */
  predicate Inv<T>(l: StatefulList<T>)
  {
    l.selected.Some? ==> l.selected.value < |l.items| || l.selected.value == 0
  }

  /** An empty list with nothing selected. */
  function New<T>(): (l: StatefulList<T>)
    ensures |l.items| == 0 && l.selected.None?
    ensures Inv(l)
  {
    StatefulList([], None)
  }

  /** A list over `items`, with the first item selected exactly when there
      is one. */
  function WithItems<T>(items: seq<T>): (l: StatefulList<T>)
    ensures l.items == items
    ensures l.selected == Some(0) <==> |items| > 0
    ensures l.selected.None? <==> |items| == 0
    ensures Inv(l)
  {
    StatefulList(items, if |items| > 0 then Some(0) else None)
  }

  /** Moves the selection `n` items down, wrapping to the first item when
      that would reach or pass the end; an unselected list selects 0. */
  function ScrollDown<T>(l: StatefulList<T>, n: nat): (r: StatefulList<T>)
    ensures r.items == l.items
    ensures l.selected.None? ==> r.selected == Some(0)
    ensures l.selected.Some? ==>
      r.selected == Some(if l.selected.value + n < |l.items| then l.selected.value + n else 0)
    ensures r.selected.Some? && (r.selected.value < |l.items| || r.selected.value == 0)
  {
    var i := match l.selected
      case Some(i) => if i >= SatSub(|l.items|, n) then 0 else i + n
      case None => 0;
    l.(selected := Some(i))
  }

  /** Moves the selection `n` items up, stopping at the first item; from the
      first item it wraps to `n` items before the end (or to 0 when the list
      is shorter than `n`); an unselected list selects 0. */
  function ScrollUp<T>(l: StatefulList<T>, n: nat): (r: StatefulList<T>)
    ensures r.items == l.items
    ensures l.selected.None? ==> r.selected == Some(0)
    ensures l.selected == Some(0) ==>
      r.selected == Some(if n <= |l.items| then |l.items| - n else 0)
    ensures l.selected.Some? && l.selected.value > 0 ==>
      r.selected == Some(if n <= l.selected.value then l.selected.value - n else 0)
    ensures n >= 1 && Inv(l) ==> Inv(r)
  {
    var i := match l.selected
      case Some(i) => if i == 0 then SatSub(|l.items|, n) else SatSub(i, n)
      case None => 0;
    l.(selected := Some(i))
  }

  /** The `Scrollable` entry point: a line or page step up or down. */
  function HandleScroll<T>(l: StatefulList<T>, up: bool, page: bool): (r: StatefulList<T>)
    ensures r.items == l.items
    ensures r.selected.Some?
    ensures Inv(l) ==> Inv(r)
    ensures up ==> r == ScrollUp(l, if page then PageStep else LineStep)
    ensures !up ==> r == ScrollDown(l, if page then PageStep else LineStep)
  {
    match Resolve(up, page)
    case Up(n) => ScrollUp(l, n)
    case Down(n) => ScrollDown(l, n)
  }

  /** On a non-empty list with an in-range selection, both directions keep
      the selection in range for every step of at least one. */
  lemma ScrollStaysInRange<T>(l: StatefulList<T>, n: nat)
    requires |l.items| > 0 && n >= 1
    requires l.selected.Some? && l.selected.value < |l.items|
    ensures ScrollDown(l, n).selected.value < |l.items|
    ensures ScrollUp(l, n).selected.value < |l.items|
  {
  }

  /** A single step down is the successor modulo the length, and a single
      step up is the predecessor modulo the length. */
  lemma SingleStepIsCyclic<T>(l: StatefulList<T>)
    requires |l.items| > 0
    requires l.selected.Some? && l.selected.value < |l.items|
    ensures ScrollDown(l, 1).selected == Some((l.selected.value + 1) % |l.items|)
    ensures ScrollUp(l, 1).selected == Some((l.selected.value + |l.items| - 1) % |l.items|)
  {
    var i, len := l.selected.value, |l.items|;
    ModBelowTwice(i + 1, len);
    ModBelowTwice(i + len - 1, len);
  }

  /** Reduction modulo `m` of a value below `2 * m`. */
  lemma ModBelowTwice(a: nat, m: nat)
    requires 0 < m && a < 2 * m
    ensures a % m == if a < m then a else a - m
  {
  }

  /** A line step up undoes a line step down, and the other way round. */
  lemma LineStepsAreInverse<T>(l: StatefulList<T>)
    requires l.selected.Some? && l.selected.value < |l.items|
    ensures ScrollUp(ScrollDown(l, 1), 1) == l
    ensures ScrollDown(ScrollUp(l, 1), 1) == l
  {
  }

  /** Applies a sequence of key presses in order. */
  function Run<T>(l: StatefulList<T>, keys: seq<Key>): (r: StatefulList<T>)
    ensures r.items == l.items
    decreases |keys|
  {
    if |keys| == 0 then l
    else Run(HandleScroll(l, keys[0].up, keys[0].page), keys[1..])
  }

  /** No sequence of key presses takes a list out of its bound. */
  lemma {:induction false} RunKeepsInv<T>(l: StatefulList<T>, keys: seq<Key>)
    requires Inv(l)
    ensures Inv(Run(l, keys))
    decreases |keys|
  {
    if |keys| > 0 {
      RunKeepsInv(HandleScroll(l, keys[0].up, keys[0].page), keys[1..]);
    }
  }

  /** The three-item scenario: a page down from the first item wraps to the
      first item, a line down from the last item wraps to the first, and a
      line up from the first wraps to the last. */
  lemma ThreeItemScenario()
    ensures HandleScroll(StatefulList([1, 2, 3], Some(0)), false, true).selected == Some(0)
    ensures HandleScroll(StatefulList([1, 2, 3], Some(2)), false, false).selected == Some(0)
    ensures HandleScroll(StatefulList([1, 2, 3], Some(0)), true, false).selected == Some(2)
  {
  }
}
