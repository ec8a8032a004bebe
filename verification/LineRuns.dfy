/** A list grouped into alternating runs of gap lines and content lines. */
module LineRuns {

  /** A run of content lines, or of gap lines. */
  datatype Run<T> = Run(gap: bool, lines: seq<T>)

  function Push<T>(runs: seq<Run<T>>, gap: bool, line: T): seq<Run<T>> {
    var n := |runs| - 1;
    if n >= 0 && runs[n].gap == gap then runs[..n] + [Run(gap, runs[n].lines + [line])]
    else runs + [Run(gap, [line])]
  }

  function Grouped<T>(blank: T -> bool, ls: seq<T>): seq<Run<T>> {
    if ls == [] then []
    else
      var n := |ls| - 1;
      Push(Grouped(blank, ls[..n]), blank(ls[n]), ls[n])
  }

  function Flat<T>(runs: seq<Run<T>>): seq<T> {
    if runs == [] then [] else Flat(runs[..|runs| - 1]) + runs[|runs| - 1].lines
  }

  ghost predicate OfSort<T>(blank: T -> bool, gap: bool, lines: seq<T>) {
    lines == [] || (blank(lines[|lines| - 1]) == gap && OfSort(blank, gap, lines[..|lines| - 1]))
  }

  /** A run holds lines of its own sort, and at least one. */
  ghost predicate Sorted<T>(blank: T -> bool, run: Run<T>) {
    run.lines != [] && OfSort(blank, run.gap, run.lines)
  }

  /** Runs are of one sort each, and alternate. */
  ghost predicate WellFormed<T>(blank: T -> bool, runs: seq<Run<T>>) {
    runs == [] ||
    var n := |runs| - 1;
    Sorted(blank, runs[n]) && (n > 0 ==> runs[n - 1].gap != runs[n].gap) && WellFormed(blank, runs[..n])
  }

  lemma {:induction false} WellFormedAt<T>(blank: T -> bool, runs: seq<Run<T>>, i: nat)
    requires WellFormed(blank, runs) && i < |runs|
    ensures Sorted(blank, runs[i]) && (i > 0 ==> runs[i - 1].gap != runs[i].gap)
  {
    if i < |runs| - 1 {
      WellFormedAt(blank, runs[..|runs| - 1], i);
    }
  }

  lemma Neighbours<T>(blank: T -> bool, runs: seq<Run<T>>, i: nat)
    requires WellFormed(blank, runs) && 0 < i < |runs| - 1
    ensures runs[i - 1].gap == runs[i + 1].gap == !runs[i].gap
    ensures runs[i - 1].lines != [] && runs[i + 1].lines != []
  {
    WellFormedAt(blank, runs, i - 1);
    WellFormedAt(blank, runs, i);
    WellFormedAt(blank, runs, i + 1);
  }

  /** Replacing runs by runs of the same sort keeps the shape. */
  lemma {:induction false} WellFormedLike<T>(blank: T -> bool, a: seq<Run<T>>, b: seq<Run<T>>)
    requires WellFormed(blank, a) && |a| == |b|
    requires forall i :: 0 <= i < |a| ==> a[i].gap == b[i].gap && Sorted(blank, b[i])
    ensures WellFormed(blank, b)
  {
    if a != [] {
      WellFormedLike(blank, a[..|a| - 1], b[..|b| - 1]);
    }
  }

  lemma FlatSnoc<T>(runs: seq<Run<T>>, run: Run<T>)
    ensures Flat(runs + [run]) == Flat(runs) + run.lines
  {
    assert (runs + [run])[..|runs|] == runs;
  }

  lemma SortedSnoc<T>(blank: T -> bool, lines: seq<T>, line: T)
    requires OfSort(blank, blank(line), lines)
    ensures Sorted(blank, Run(blank(line), lines + [line]))
  {
    assert (lines + [line])[..|lines|] == lines;
  }

  lemma WellFormedSnoc<T>(blank: T -> bool, runs: seq<Run<T>>, run: Run<T>)
    requires WellFormed(blank, runs) && Sorted(blank, run) && (runs != [] ==> runs[|runs| - 1].gap != run.gap)
    ensures WellFormed(blank, runs + [run]) && Flat(runs + [run]) == Flat(runs) + run.lines
  {
    assert (runs + [run])[..|runs|] == runs;
  }

  /** A line of the last run's sort extends that run. */
  lemma ExtendKeeps<T>(blank: T -> bool, front: seq<Run<T>>, last: Run<T>, line: T)
    requires WellFormed(blank, front) && Sorted(blank, last) && (front != [] ==> front[|front| - 1].gap != last.gap)
    requires last.gap == blank(line)
    ensures var grown := front + [Run(last.gap, last.lines + [line])];
      WellFormed(blank, grown) && Flat(grown) == Flat(front) + last.lines + [line]
  {
    SortedSnoc(blank, last.lines, line);
    WellFormedSnoc(blank, front, Run(last.gap, last.lines + [line]));
  }

  lemma PushKeeps<T>(blank: T -> bool, runs: seq<Run<T>>, line: T)
    requires WellFormed(blank, runs)
    ensures WellFormed(blank, Push(runs, blank(line), line))
    ensures Flat(Push(runs, blank(line), line)) == Flat(runs) + [line]
  {
    var n := |runs| - 1;
    if n >= 0 && runs[n].gap == blank(line) {
      ExtendKeeps(blank, runs[..n], runs[n], line);
    } else {
      assert OfSort(blank, blank(line), []);
      SortedSnoc(blank, [], line);
      assert [] + [line] == [line];
      WellFormedSnoc(blank, runs, Run(blank(line), [line]));
    }
  }

  /** Grouping loses nothing, and its runs alternate. */
  lemma {:induction false} GroupedWellFormed<T>(blank: T -> bool, ls: seq<T>)
    ensures WellFormed(blank, Grouped(blank, ls)) && Flat(Grouped(blank, ls)) == ls
  {
    if ls != [] {
      var n := |ls| - 1;
      GroupedWellFormed(blank, ls[..n]);
      PushKeeps(blank, Grouped(blank, ls[..n]), ls[n]);
      assert ls == ls[..n] + [ls[n]];
    }
  }

  lemma GroupedSnoc<T>(blank: T -> bool, ls: seq<T>, line: T)
    ensures Grouped(blank, ls + [line]) == Push(Grouped(blank, ls), blank(line), line)
  {
    assert (ls + [line])[..|ls|] == ls;
  }

  lemma PushExtends<T>(runs: seq<Run<T>>, gap: bool, lines: seq<T>, line: T)
    ensures Push(runs + [Run(gap, lines)], gap, line) == runs + [Run(gap, lines + [line])]
  {
    assert (runs + [Run(gap, lines)])[..|runs|] == runs;
  }

  lemma GroupedStarts<T>(blank: T -> bool, ls: seq<T>, runs: seq<Run<T>>, line: T)
    requires Grouped(blank, ls) == runs && (runs != [] ==> runs[|runs| - 1].gap != blank(line))
    ensures Grouped(blank, ls + [line]) == runs + [Run(blank(line), [line])]
  {
    GroupedSnoc(blank, ls, line);
  }

  lemma GroupedExtends<T>(blank: T -> bool, ls: seq<T>, before: seq<T>, runs: seq<Run<T>>, line: T)
    requires Grouped(blank, ls + before) == runs + [Run(blank(line), before)]
    ensures Grouped(blank, ls + (before + [line])) == runs + [Run(blank(line), before + [line])]
  {
    GroupedSnoc(blank, ls + before, line);
    PushExtends(runs, blank(line), before, line);
    assert ls + (before + [line]) == (ls + before) + [line];
  }

  /** Appending lines of one sort after runs that end in the other adds one run. */
  lemma {:induction false} GroupedAppend<T>(blank: T -> bool, ls: seq<T>, runs: seq<Run<T>>, gap: bool, lines: seq<T>)
    requires Grouped(blank, ls) == runs && (runs != [] ==> runs[|runs| - 1].gap != gap)
    requires lines != [] && OfSort(blank, gap, lines)
    ensures Grouped(blank, ls + lines) == runs + [Run(gap, lines)]
  {
    var n := |lines| - 1;
    var front, line := lines[..n], lines[n];
    assert lines == front + [line];
    if n == 0 {
      assert lines == [line];
      GroupedStarts(blank, ls, runs, line);
    } else {
      GroupedAppend(blank, ls, runs, gap, front);
      GroupedExtends(blank, ls, front, runs, line);
    }
  }

  lemma WellFormedParts<T>(blank: T -> bool, runs: seq<Run<T>>, front: seq<Run<T>>, last: Run<T>)
    requires WellFormed(blank, runs) && runs == front + [last]
    ensures WellFormed(blank, front) && Sorted(blank, last) && (front != [] ==> front[|front| - 1].gap != last.gap)
    ensures Flat(runs) == Flat(front) + last.lines
  {
    assert runs[..|front|] == front;
  }

  lemma GroupedFlatStep<T>(blank: T -> bool, front: seq<Run<T>>, last: Run<T>)
    requires Grouped(blank, Flat(front)) == front && Sorted(blank, last)
    requires front != [] ==> front[|front| - 1].gap != last.gap
    ensures Grouped(blank, Flat(front + [last])) == front + [last]
  {
    FlatSnoc(front, last);
    GroupedAppend(blank, Flat(front), front, last.gap, last.lines);
  }

  /** Grouping undoes flattening. */
  lemma {:induction false} GroupedFlat<T>(blank: T -> bool, runs: seq<Run<T>>)
    requires WellFormed(blank, runs)
    ensures Grouped(blank, Flat(runs)) == runs
  {
    if runs != [] {
      var front, last := runs[..|runs| - 1], runs[|runs| - 1];
      assert runs == front + [last];
      WellFormedParts(blank, runs, front, last);
      GroupedFlat(blank, front);
      GroupedFlatStep(blank, front, last);
    }
  }

  lemma FlatNotEmpty<T>(blank: T -> bool, runs: seq<Run<T>>)
    requires WellFormed(blank, runs)
    ensures Flat(runs) == [] <==> runs == []
  {
  }

  // ------------------------------------------------------------------- content

  /** The lines that are not gaps, in order. */
  function Content<T>(blank: T -> bool, ls: seq<T>): seq<T> {
    if ls == [] then []
    else
      var n := |ls| - 1;
      if blank(ls[n]) then Content(blank, ls[..n]) else Content(blank, ls[..n]) + [ls[n]]
  }

  lemma {:induction false} ContentConcat<T>(blank: T -> bool, a: seq<T>, b: seq<T>)
    ensures Content(blank, a + b) == Content(blank, a) + Content(blank, b)
  {
    if b == [] {
      assert a + b == a;
    } else {
      var n := |b| - 1;
      assert (a + b)[..|a| + n] == a + b[..n];
      ContentConcat(blank, a, b[..n]);
    }
  }

  lemma {:induction false} GapHasNoContent<T>(blank: T -> bool, ls: seq<T>)
    requires OfSort(blank, true, ls)
    ensures Content(blank, ls) == []
  {
    if ls != [] {
      GapHasNoContent(blank, ls[..|ls| - 1]);
    }
  }

  /** Lists of runs that differ in their gaps alone have the same content. */
  lemma {:induction false} SameContent<T>(blank: T -> bool, a: seq<Run<T>>, b: seq<Run<T>>)
    requires |a| == |b|
    requires forall i :: 0 <= i < |a| ==>
      Sorted(blank, a[i]) && Sorted(blank, b[i]) && (a[i] == b[i] || (a[i].gap && b[i].gap))
    ensures Content(blank, Flat(a)) == Content(blank, Flat(b))
  {
    if a != [] {
      var n := |a| - 1;
      SameContent(blank, a[..n], b[..n]);
      ContentConcat(blank, Flat(a[..n]), a[n].lines);
      ContentConcat(blank, Flat(b[..n]), b[n].lines);
      if a[n] != b[n] {
        GapHasNoContent(blank, a[n].lines);
        GapHasNoContent(blank, b[n].lines);
      }
    }
  }

  // ------------------------------------------------------------------- the loop

  method Group<T>(blank: T -> bool, ls: seq<T>) returns (runs: seq<Run<T>>)
    ensures runs == Grouped(blank, ls)
  {
    runs := [];
    for i := 0 to |ls|
      invariant runs == Grouped(blank, ls[..i])
    {
      var gap := blank(ls[i]);
      assert ls[..i + 1] == ls[..i] + [ls[i]];
      GroupedSnoc(blank, ls[..i], ls[i]);
      var n := |runs| - 1;
      if n >= 0 && runs[n].gap == gap {
        runs := runs[..n] + [Run(gap, runs[n].lines + [ls[i]])];
      } else {
        runs := runs + [Run(gap, [ls[i]])];
      }
    }
    assert ls[..|ls|] == ls;
  }
}
