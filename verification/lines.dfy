/** Splitting a block of text at line breaks and joining lines back with
    line breaks, with the semantics of splitting on a single character:
    every line break separates two (possibly empty) lines, so the text
    always yields at least one line. */
module Lines {

  const Newline: char := '\n'

  /** No line carries a line break of its own. */
  predicate NoBreaks(lines: seq<string>)
  {
    forall i :: 0 <= i < |lines| ==> Newline !in lines[i]
  }

  /** The number of line breaks in `s`. */
  function Breaks(s: string): (k: nat)
    ensures k <= |s|
    decreases |s|
  {
    if |s| == 0 then 0 else (if s[0] == Newline then 1 else 0) + Breaks(s[1..])
  }

  /** The lines of `s`: one more than it has line breaks, none of them
      containing a line break. */
  function Split(s: string): (lines: seq<string>)
    ensures |lines| == Breaks(s) + 1
    ensures NoBreaks(lines)
    decreases |s|
  {
    if |s| == 0 then [[]]
    else
      var rest := Split(s[1..]);
      if s[0] == Newline then [[]] + rest
      else [[s[0]] + rest[0]] + rest[1..]
  }

  /** The lines glued together with a line break between neighbours; no
      lines give the empty text. */
  function Join(lines: seq<string>): (s: string)
    ensures |lines| == 1 ==> s == lines[0]
    decreases |lines|
  {
    if |lines| == 0 then []
    else if |lines| == 1 then lines[0]
    else lines[0] + [Newline] + Join(lines[1..])
  }

  /** Joining the lines of a text gives the text back. */
  lemma {:induction false} JoinSplit(s: string)
    ensures Join(Split(s)) == s
    decreases |s|
  {
    if |s| > 0 {
      var c, tail := s[0], s[1..];
      var rest := Split(tail);
      JoinSplit(tail);
      assert s == [c] + tail;
      if c == Newline {
        SplitOnBreak(c, tail);
        JoinCons([], rest);
      } else {
        SplitOnOther(c, tail);
        if |rest| == 1 {
          assert Join(Split(s)) == [c] + rest[0];
        } else {
          JoinCons([c] + rest[0], rest[1..]);
          JoinCons(rest[0], rest[1..]);
          assert rest == [rest[0]] + rest[1..];
        }
      }
    }
  }

  lemma SplitOnBreak(c: char, tail: string)
    requires c == Newline
    ensures Split([c] + tail) == [[]] + Split(tail)
  {
    assert ([c] + tail)[1..] == tail;
  }

  lemma SplitOnOther(c: char, tail: string)
    requires c != Newline
    ensures Split([c] + tail) == [[c] + Split(tail)[0]] + Split(tail)[1..]
  {
    assert ([c] + tail)[1..] == tail;
  }

  lemma JoinCons(first: string, rest: seq<string>)
    requires |rest| > 0
    ensures Join([first] + rest) == first + [Newline] + Join(rest)
  {
    assert ([first] + rest)[1..] == rest;
  }

  /** Splitting a line with no break in front of more text extends the
      first line of that text. */
  lemma {:induction false} SplitPrefix(a: string, b: string)
    requires Newline !in a
    ensures Split(a + b) == [a + Split(b)[0]] + Split(b)[1..]
    decreases |a|
  {
    if |a| == 0 {
      var lines := Split(b);
      assert a + b == b && a + lines[0] == lines[0];
      assert lines == [lines[0]] + lines[1..];
    } else {
      var c, tail := a[0], a[1..];
      SplitPrefix(tail, b);
      assert a + b == [c] + (tail + b);
      SplitOnOther(c, tail + b);
      assert [c] + (tail + Split(b)[0]) == a + Split(b)[0];
    }
  }

  /** Splitting the join of break-free lines gives those lines back. */
  lemma {:induction false} SplitJoin(lines: seq<string>)
    requires |lines| > 0 && NoBreaks(lines)
    ensures Split(Join(lines)) == lines
    decreases |lines|
  {
    if |lines| == 1 {
      SplitPrefix(lines[0], []);
      assert lines[0] + [] == lines[0];
    } else {
      var tail := lines[1..];
      SplitJoin(tail);
      var b := [Newline] + Join(tail);
      assert Join(lines) == lines[0] + b;
      SplitPrefix(lines[0], b);
      SplitOnBreak(Newline, Join(tail));
      var sb := Split(b);
      assert sb == [[]] + tail;
      assert sb[0] == [] && sb[1..] == tail;
      assert lines[0] + sb[0] == lines[0];
      assert lines == [lines[0]] + tail;
    }
  }
}
