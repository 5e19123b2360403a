/** The tab bar: a non-empty ordered set of (title, route) pairs with a
    mandatory current index that cycles in both directions. The route is an
    opaque payload. */
module Tabs {

  datatype TabRoute<R> = TabRoute(title: string, route: R)

  datatype TabsState<R> = TabsState(items: seq<TabRoute<R>>, index: nat)

  /** The current index names an existing tab; this needs a tab to exist. */
  predicate Valid<R>(t: TabsState<R>)
  {
    t.index < |t.items|
  }

  /** A tab bar over `items`, on the first tab. */
  function New<R>(items: seq<TabRoute<R>>): (t: TabsState<R>)
    ensures t.items == items && t.index == 0
    ensures Valid(t) <==> |items| > 0
  {
    TabsState(items, 0)
  }

  /** The route of the current tab: the route of the tab that jumping to
      the current index hands back. */
  function GetActiveRoute<R>(t: TabsState<R>): (r: R)
    requires Valid(t)
    ensures r == SetIndex(t, t.index).1.route
  {
    t.items[t.index].route
  }

  /** Jumps to tab `k` and hands back that tab; the caller picks `k` among
      the existing tabs. */
  function SetIndex<R>(t: TabsState<R>, k: nat): (r: (TabsState<R>, TabRoute<R>))
    requires k < |t.items|
    ensures r.0.items == t.items && r.0.index == k && Valid(r.0)
    ensures r.1 == t.items[k]
  {
    var s := t.(index := k);
    (s, s.items[s.index])
  }

  /** After a jump to tab `k`, the active route is tab `k`'s route, and
      jumping to the current index changes nothing. */
  lemma SetIndexActivates<R>(t: TabsState<R>, k: nat)
    requires k < |t.items|
    ensures GetActiveRoute(SetIndex(t, k).0) == t.items[k].route
    ensures Valid(t) ==> SetIndex(t, t.index).0 == t
  {
  }

  /** Moves to the following tab, from the last tab back to the first. */
  function Next<R>(t: TabsState<R>): (r: TabsState<R>)
    requires |t.items| > 0
    ensures r.items == t.items && Valid(r)
    ensures Valid(t) && t.index + 1 < |t.items| ==> r.index == t.index + 1
    ensures Valid(t) && t.index + 1 == |t.items| ==> r.index == 0
  {
    t.(index := (t.index + 1) % |t.items|)
  }

  /** Moves to the preceding tab, from the first tab round to the last. */
  function Previous<R>(t: TabsState<R>): (r: TabsState<R>)
    requires |t.items| > 0
    ensures r.items == t.items
    ensures Valid(t) ==> Valid(r)
    ensures t.index > 0 ==> r.index + 1 == t.index
    ensures t.index == 0 ==> r.index + 1 == |t.items|
  {
    if t.index > 0 then t.(index := t.index - 1) else t.(index := |t.items| - 1)
  }

  /** Stepping back undoes stepping forward, and the other way round. */
  lemma PreviousUndoesNext<R>(t: TabsState<R>)
    requires Valid(t)
    ensures Previous(Next(t)) == t
    ensures Next(Previous(t)) == t
  {
  }

  /** `k` steps forward. */
  function NextTimes<R>(t: TabsState<R>, k: nat): (r: TabsState<R>)
    requires |t.items| > 0
    ensures r.items == t.items
    decreases k
  {
    if k == 0 then t else Next(NextTimes(t, k - 1))
  }

  /** `k` steps forward land on the tab `k` places further on, counting
      round the bar modulo its length. */
  lemma {:induction false} NextTimesIndex<R>(t: TabsState<R>, k: nat)
    requires Valid(t)
    ensures NextTimes(t, k).index == (t.index + k) % |t.items|
    decreases k
  {
    var len := |t.items|;
    if k > 0 {
      NextTimesIndex(t, k - 1);
      var a := t.index + k - 1;
      ModStep(a, len);
    }
  }

  /** Going forward once per tab comes back to where it started. */
  lemma FullCycle<R>(t: TabsState<R>)
    requires Valid(t)
    ensures NextTimes(t, |t.items|) == t
  {
    NextTimesIndex(t, |t.items|);
    ModShift(t.index, |t.items|);
  }

  lemma ModStep(a: nat, m: nat)
    requires 0 < m
    ensures (a % m + 1) % m == (a + 1) % m
  {
    var q, r := a / m, a % m;
    assert a == q * m + r;
    if r + 1 < m {
      assert a + 1 == q * m + (r + 1);
      ModUnique(a + 1, m, q, r + 1);
    } else {
      assert a + 1 == (q + 1) * m;
      ModUnique(a + 1, m, q + 1, 0);
    }
  }

  lemma ModShift(a: nat, m: nat)
    requires a < m
    ensures (a + m) % m == a
  {
  }

  /** Euclidean division has exactly one remainder. */
  lemma ModUnique(a: nat, m: nat, q: int, r: int)
    requires 0 < m && 0 <= r < m && a == q * m + r
    ensures a % m == r
  {
    var q', r' := a / m, a % m;
    var d := q - q';
    assert d * m == r' - r by {
      assert q * m - q' * m == (q - q') * m;
    }
    MulSign(d, m);
  }

  lemma MulSign(d: int, m: int)
    requires 0 < m
    ensures d >= 1 ==> d * m >= m
    ensures d <= -1 ==> d * m <= -m
  {
  }

  /** The two-tab trace: forward to the second tab, forward round to the
      first, back round to the second, back to the first, with the active
      route following the index. */
  lemma TwoTabTrace()
    ensures var t0 := New([TabRoute("Hello", "Pods"), TabRoute("Test", "Nodes")]);
      && t0.index == 0 && GetActiveRoute(t0) == "Pods"
      && var t1 := Next(t0);
      && t1.index == 1 && GetActiveRoute(t1) == "Nodes"
      && var t2 := Next(t1);
      && t2.index == 0 && GetActiveRoute(t2) == "Pods"
      && var t3 := Previous(t2);
      && t3.index == 1 && GetActiveRoute(t3) == "Nodes"
      && var t4 := Previous(t3);
      && t4.index == 0 && GetActiveRoute(t4) == "Pods"
  {
  }
}
