/** The scrollable text pane: a block of text kept as its lines, with a
    vertical offset that moves down only while a guard band of two lines
    stays below the advance point, and up until it reaches the top. */
module Txt {
  import opened Scroll
  import opened Lines

  /** Lines kept below the advance point when scrolling down. */
  const GuardBand: nat := 2

  datatype ScrollableTxt = ScrollableTxt(lines: seq<string>, offset: nat)

  /** The bound every reachable pane keeps: either at the top, or with at
      least the guard band and one more line from the offset onward. */
  predicate Inv(t: ScrollableTxt)
  {
    t.offset == 0 || t.offset + GuardBand + 1 <= |t.lines|
  }

  /** A pane over `text`, at the top: one line per line break plus one, and
      the text it shows is exactly `text`. */
  function New(text: string): (t: ScrollableTxt)
    ensures t.offset == 0 && Inv(t)
    ensures |t.lines| == Breaks(text) + 1
    ensures NoBreaks(t.lines)
    ensures GetTxt(t) == text
  {
    JoinSplit(text);
    ScrollableTxt(Split(text), 0)
  }

  /** The whole text of the pane, lines rejoined with line breaks. On a pane
      whose lines came from a split, splitting the result again gives the
      same lines. */
  function GetTxt(t: ScrollableTxt): (text: string)
    ensures |t.lines| > 0 && NoBreaks(t.lines) ==> Split(text) == t.lines
  {
    if |t.lines| > 0 && NoBreaks(t.lines) then SplitJoin(t.lines); Join(t.lines)
    else Join(t.lines)
  }

  /** Moves the offset `n` lines down when that keeps the guard band and one
      more line below it, and leaves the pane alone otherwise. */
  function ScrollDown(t: ScrollableTxt, n: nat): (r: ScrollableTxt)
    ensures r.lines == t.lines
    ensures t.offset + n + GuardBand < |t.lines| ==> r.offset == t.offset + n
    ensures t.offset + n + GuardBand >= |t.lines| ==> r == t
    ensures Inv(t) ==> Inv(r)
  {
    if t.offset < SatSub(|t.lines|, n + GuardBand) then t.(offset := t.offset + n) else t
  }

  /** Moves the offset `n` lines up, stopping at the top. */
  function ScrollUp(t: ScrollableTxt, n: nat): (r: ScrollableTxt)
    ensures r.lines == t.lines
    ensures r.offset <= t.offset
    ensures t.offset >= n ==> r.offset + n == t.offset
    ensures t.offset < n ==> r.offset == 0
    ensures Inv(t) ==> Inv(r)
  {
    if t.offset > 0 then t.(offset := SatSub(t.offset, n)) else t
  }

  /** The `Scrollable` entry point: a line or page step up or down. */
  function HandleScroll(t: ScrollableTxt, up: bool, page: bool): (r: ScrollableTxt)
    ensures r.lines == t.lines
    ensures Inv(t) ==> Inv(r)
    ensures up ==> r == ScrollUp(t, if page then PageStep else LineStep)
    ensures !up ==> r == ScrollDown(t, if page then PageStep else LineStep)
  {
    match Resolve(up, page)
    case Up(n) => ScrollUp(t, n)
    case Down(n) => ScrollDown(t, n)
  }

  /** Applies a sequence of key presses in order. */
  function Run(t: ScrollableTxt, keys: seq<Key>): (r: ScrollableTxt)
    ensures r.lines == t.lines
    decreases |keys|
  {
    if |keys| == 0 then t else Run(HandleScroll(t, keys[0].up, keys[0].page), keys[1..])
  }

  /** However the pane is scrolled after construction, its text is unchanged
      and the offset never passes the last line that still has the guard
      band below it. */
  lemma {:induction false} RunKeepsInv(text: string, keys: seq<Key>)
    ensures GetTxt(Run(New(text), keys)) == text
    ensures Inv(Run(New(text), keys))
  {
    RunFrom(New(text), keys);
  }

  lemma {:induction false} RunFrom(t: ScrollableTxt, keys: seq<Key>)
    requires Inv(t)
    ensures Inv(Run(t, keys))
    decreases |keys|
  {
    if |keys| > 0 {
      RunFrom(HandleScroll(t, keys[0].up, keys[0].page), keys[1..]);
    }
  }

  /** Repeated single-line steps down stop exactly at `|lines| - 3`: one step
      moves while below that offset and none moves at or past it. */
  lemma LineStepStopsAtGuard(t: ScrollableTxt)
    requires Inv(t)
    ensures ScrollDown(t, 1) != t <==> t.offset + 1 + GuardBand < |t.lines|
    ensures ScrollDown(t, 1).offset <= if |t.lines| > 3 then |t.lines| - 3 else t.offset
  {
  }

  /** A three-line text cannot scroll down by one line: the guard band
      leaves no room. */
  lemma ShortTextTrace()
    ensures var s := New("test\n multiline\n string");
      && s.offset == 0 && |s.lines| == 3
      && GetTxt(s) == "test\n multiline\n string"
      && ScrollDown(s, 1).offset == 0
  {
    var lines := ["test", " multiline", " string"];
    JoinCons(" multiline", [" string"]);
    JoinCons("test", [" multiline", " string"]);
    assert Join(lines) == "test\n multiline\n string";
    SplitJoin(lines);
  }

  /** A ten-line text (the lines below joined with line breaks) steps down
      1, 1 and 5 to offset 7 and stops there, then steps up 1 and 6 back to
      the top and stays there. */
  lemma TenLineTrace()
    ensures var s := New(Join(["te", "st", "mul", "til", "i", "ne", "str", "i", "n", "g"]));
      && |s.lines| == 10
      && var s1 := ScrollDown(s, 1);
      && s1.offset == 1
      && var s2 := ScrollDown(s1, 1);
      && s2.offset == 2
      && var s3 := ScrollDown(s2, 5);
      && s3.offset == 7
      && var s4 := ScrollDown(s3, 1);
      && s4.offset == 7
      && var s5 := ScrollUp(s4, 1);
      && s5.offset == 6
      && var s6 := ScrollUp(s5, 6);
      && s6.offset == 0
      && ScrollUp(s6, 1).offset == 0
  {
    SplitJoin(["te", "st", "mul", "til", "i", "ne", "str", "i", "n", "g"]);
  }

  /** Reduction to a 16-bit unsigned value, as a truncating cast does. */
  function U16(x: nat): (r: nat)
    ensures r < 0x1_0000
    ensures x < 0x1_0000 ==> r == x
  {
    x % 0x1_0000
  }

  /** The downward step with the offset held in 16 bits: the bound is cast
      to 16 bits before the comparison and the step is added in 16 bits. */
  function ScrollDownU16(t: ScrollableTxt, n: nat): (r: ScrollableTxt)
    requires t.offset < 0x1_0000
    ensures r.lines == t.lines && r.offset < 0x1_0000
  {
    if t.offset < U16(SatSub(|t.lines|, n + GuardBand)) then t.(offset := U16(t.offset + U16(n)))
    else t
  }

  /** Up to 65536 lines the 16-bit step is the unbounded one. */
  lemma U16StepAgrees(t: ScrollableTxt, n: nat)
    requires t.offset < 0x1_0000 && |t.lines| <= 0x1_0000
    ensures ScrollDownU16(t, n) == ScrollDown(t, n)
  {
  }

  /** A text of 65539 lines cannot scroll down by a line step with the
      16-bit bound, which wraps to 0, although it has tens of thousands of
      lines below the guard band. A page step still moves it, since its
      bound of 65527 fits in 16 bits; from there line steps are stuck
      again. */
  lemma U16StepStuck()
    ensures var t := ScrollableTxt(seq(0x1_0003, i => []), 0);
      && ScrollDownU16(t, 1) == t
      && ScrollDown(t, 1).offset == 1
      && var p := ScrollDownU16(t, PageStep);
      && p.offset == 10 && p == ScrollDown(t, PageStep)
      && ScrollDownU16(p, 1) == p
      && ScrollDown(p, 1).offset == 11
  {
  }
}
