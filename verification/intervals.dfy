/** The interval bookkeeping of the AWG5014 loop-mode compilation: the
    sample spans that hold pulses are sorted, overlapping spans are merged,
    and `merge_intervals` then widens short spans and joins spans closer
    than one 256-sample block, so that the gaps can be filled with repeated
    blocks of zeros. */
module AwgIntervals {
  import opened Common

  /** A half-open span of sample indices, `(start, stop)`. */
  type Interval = (int, int)

  /** The shortest waveform, and the shortest gap, the loop mode allows. */
  const Block: int := 256

  // ---------------------------------------------------------------------------
  // intervals.sort()
  // ---------------------------------------------------------------------------

  /** Python's tuple order. */
  predicate LexLe(a: Interval, b: Interval)
  {
    a.0 < b.0 || (a.0 == b.0 && a.1 <= b.1)
  }

  predicate SortedLex(s: seq<Interval>)
  {
    forall i, j :: 0 <= i < j < |s| ==> LexLe(s[i], s[j])
  }

  function InsertSorted(x: Interval, s: seq<Interval>): (r: seq<Interval>)
    ensures |r| == |s| + 1
    decreases |s|
  {
    if s == [] then [x]
    else if LexLe(x, s[0]) then [x] + s
    else [s[0]] + InsertSorted(x, s[1..])
  }

  /** `list.sort()` on tuples (any correct sort gives this same list). */
  function SortIntervals(s: seq<Interval>): (r: seq<Interval>)
    ensures |r| == |s|
    decreases |s|
  {
    if s == [] then [] else InsertSorted(s[0], SortIntervals(s[1..]))
  }

  /** Every element of a multiset-equal list is an element of the original or x. */
  lemma InsertedElement(r: seq<Interval>, s: seq<Interval>, x: Interval, k: int)
    requires multiset(r) == multiset(s) + multiset{x} && 0 <= k < |r|
    ensures r[k] == x || r[k] in s
  {
    assert r[k] in multiset(r);
  }

  lemma {:induction false} InsertSortedSpec(x: Interval, s: seq<Interval>)
    requires SortedLex(s)
    ensures SortedLex(InsertSorted(x, s))
    ensures multiset(InsertSorted(x, s)) == multiset(s) + multiset{x}
    decreases |s|
  {
    if s != [] && !LexLe(x, s[0]) {
      var t := s[1..];
      assert s == [s[0]] + t;
      InsertSortedSpec(x, t);
      var r := InsertSorted(x, t);
      assert InsertSorted(x, s) == [s[0]] + r;
      forall k | 0 <= k < |r| ensures LexLe(s[0], r[k]) {
        InsertedElement(r, t, x, k);
        if r[k] != x {
          var j :| 0 <= j < |t| && t[j] == r[k];
          assert s[j + 1] == r[k];
        }
      }
    }
  }

  /** The sort returns the same intervals, in Python's tuple order. */
  lemma {:induction false} SortIntervalsSpec(s: seq<Interval>)
    ensures SortedLex(SortIntervals(s))
    ensures multiset(SortIntervals(s)) == multiset(s)
    decreases |s|
  {
    if s != [] {
      SortIntervalsSpec(s[1..]);
      InsertSortedSpec(s[0], SortIntervals(s[1..]));
      assert s == [s[0]] + s[1..];
    }
  }

  // ---------------------------------------------------------------------------
  // Joining neighbours
  // ---------------------------------------------------------------------------

  function Last(s: seq<Interval>): Interval
    requires s != []
  {
    s[|s| - 1]
  }

  /** One turn of the inner `while`: the next interval is absorbed into the
      last kept one when the gap between them is below `minGap`, otherwise it
      is kept as it is. */
  function Absorb(acc: seq<Interval>, x: Interval, minGap: int): seq<Interval>
    requires acc != []
  {
    var last := Last(acc);
    if x.0 - last.1 < minGap then acc[..|acc| - 1] + [(last.0, Max(x.1, last.1))]
    else acc + [x]
  }

  /** The nested `while` over the list, stated as a left fold. With `minGap`
      0 it is the merge of overlapping intervals (`compile_loop`), with
      `minGap` 256 the joining step of `merge_intervals`. */
  function Coalesce(ivs: seq<Interval>, minGap: int): (r: seq<Interval>)
    ensures |r| <= |ivs|
    ensures ivs != [] ==> r != [] && r[0].0 == ivs[0].0
    decreases |ivs|
  {
    if |ivs| <= 1 then ivs
    else Absorb(Coalesce(ivs[..|ivs| - 1], minGap), ivs[|ivs| - 1], minGap)
  }

  lemma CoalesceSnoc(ivs: seq<Interval>, c: int, minGap: int)
    requires 1 <= c < |ivs|
    ensures Coalesce(ivs[..c + 1], minGap) == Absorb(Coalesce(ivs[..c], minGap), ivs[c], minGap)
  {
    assert ivs[..c + 1][..c] == ivs[..c];
  }

  /** The list while the loop runs: the joined prefix, then the untouched rest. */
  lemma AbsorbInPlace(acc: seq<Interval>, rest: seq<Interval>, minGap: int)
    requires acc != [] && rest != []
    ensures var r, i := acc + rest, |acc|;
      r[i] == rest[0] && r[i - 1] == Last(acc) &&
      (rest[0].0 - Last(acc).1 < minGap ==>
        r[..i - 1] + [(r[i - 1].0, Max(r[i].1, r[i - 1].1))] + r[i + 1..] == Absorb(acc, rest[0], minGap) + rest[1..]) &&
      (rest[0].0 - Last(acc).1 >= minGap ==> r == Absorb(acc, rest[0], minGap) + rest[1..])
  {
    var r, i := acc + rest, |acc|;
    assert r[i + 1..] == rest[1..];
    assert r[..i - 1] == acc[..|acc| - 1];
  }

  /** The list while the joining loop runs: the joined prefix `acc` of the
      first `c` input intervals, then the input intervals not yet looked at. */
  ghost predicate Joining(ivs: seq<Interval>, minGap: int, c: int, acc: seq<Interval>, r: seq<Interval>)
  {
    1 <= c <= |ivs| && acc == Coalesce(ivs[..c], minGap) && r == acc + ivs[c..]
  }

  /** The inner `while`: absorb `intervals[i]` into `intervals[i-1]` and
      `del intervals[i]` for as long as the gap is below `minGap`. */
  method AbsorbRun(ghost ivs: seq<Interval>, minGap: int, r0: seq<Interval>, i: int,
                   ghost c0: int, ghost acc0: seq<Interval>)
    returns (r: seq<Interval>, ghost c: int, ghost acc: seq<Interval>)
    requires Joining(ivs, minGap, c0, acc0, r0) && |acc0| == i
    ensures Joining(ivs, minGap, c, acc, r) && |acc| == i <= |r| && c0 <= c
    ensures i < |r| ==> r[i].0 - r[i - 1].1 >= minGap
  {
    r, c, acc := r0, c0, acc0;
    while i < |r| && r[i].0 - r[i - 1].1 < minGap
      invariant Joining(ivs, minGap, c, acc, r) && |acc| == i <= |r| && c0 <= c
      decreases |ivs| - c
    {
      AbsorbNext(ivs, minGap, c, acc, r);
      r := r[..i - 1] + [(r[i - 1].0, Max(r[i].1, r[i - 1].1))] + r[i + 1..];
      acc, c := Absorb(acc, ivs[c], minGap), c + 1;
    }
  }

  /** The nested `while` of the source, which joins neighbours in place;
      it computes the fold `Coalesce`. */
  method CoalesceInPlace(ivs: seq<Interval>, minGap: int) returns (r: seq<Interval>)
    ensures r == Coalesce(ivs, minGap)
  {
    r := ivs;
    if |ivs| == 0 {
      return;
    }
    ghost var c := 1;
    ghost var acc := [ivs[0]];
    assert ivs[..1] == acc;
    var i := 1;
    while i < |r|
      invariant Joining(ivs, minGap, c, acc, r)
      invariant |acc| == i || (|acc| == i - 1 && c == |ivs|)
      invariant |r| == |acc| + |ivs| - c
      decreases |ivs| - c, |r| + 1 - i
    {
      r, c, acc := AbsorbRun(ivs, minGap, r, i, c, acc);
      if i < |r| {
        KeepNext(ivs, minGap, c, acc, r);
        acc, c := Absorb(acc, ivs[c], minGap), c + 1;
      }
      i := i + 1;
    }
    assert ivs[..c] == ivs;
  }

  /** The outer `while` moving past an interval far enough from the
      previous one: the list is unchanged and the joined prefix grows by it. */
  lemma KeepNext(ivs: seq<Interval>, minGap: int, c: int, acc: seq<Interval>, r: seq<Interval>)
    requires Joining(ivs, minGap, c, acc, r) && |acc| < |r|
    requires r[|acc|].0 - r[|acc| - 1].1 >= minGap
    ensures c < |ivs| && Joining(ivs, minGap, c + 1, Absorb(acc, ivs[c], minGap), r)
    ensures |Absorb(acc, ivs[c], minGap)| == |acc| + 1
  {
    Step(ivs, c, acc, minGap);
  }

  /** The inner `while` joining an interval too close to the previous one:
      the joined prefix keeps its length and the rest loses its head. */
  lemma AbsorbNext(ivs: seq<Interval>, minGap: int, c: int, acc: seq<Interval>, r: seq<Interval>)
    requires Joining(ivs, minGap, c, acc, r) && |acc| < |r|
    requires r[|acc|].0 - r[|acc| - 1].1 < minGap
    ensures c < |ivs|
    ensures var i := |acc|;
      Joining(ivs, minGap, c + 1, Absorb(acc, ivs[c], minGap),
              r[..i - 1] + [(r[i - 1].0, Max(r[i].1, r[i - 1].1))] + r[i + 1..])
    ensures |Absorb(acc, ivs[c], minGap)| == |acc|
  {
    Step(ivs, c, acc, minGap);
  }

  /** One absorption, seen on the whole list. */
  lemma Step(ivs: seq<Interval>, c: int, acc: seq<Interval>, minGap: int)
    requires 1 <= c < |ivs| && acc == Coalesce(ivs[..c], minGap)
    ensures acc != []
    ensures Coalesce(ivs[..c + 1], minGap) == Absorb(acc, ivs[c], minGap)
    ensures var r, i := acc + ivs[c..], |acc|;
      r[i] == ivs[c] && r[i - 1] == Last(acc) &&
      (ivs[c].0 - Last(acc).1 < minGap ==>
        r[..i - 1] + [(r[i - 1].0, Max(r[i].1, r[i - 1].1))] + r[i + 1..] == Absorb(acc, ivs[c], minGap) + ivs[c + 1..]) &&
      (ivs[c].0 - Last(acc).1 >= minGap ==> r == Absorb(acc, ivs[c], minGap) + ivs[c + 1..])
  {
    CoalesceSnoc(ivs, c, minGap);
    AbsorbInPlace(acc, ivs[c..], minGap);
    assert ivs[c..][1..] == ivs[c + 1..];
  }

  predicate GapsAtLeast(r: seq<Interval>, minGap: int)
  {
    forall k :: 0 < k < |r| ==> r[k].0 - r[k - 1].1 >= minGap
  }

  /** After joining, consecutive intervals are at least `minGap` apart,
      whatever the input. */
  lemma {:induction false} CoalesceGaps(ivs: seq<Interval>, minGap: int)
    ensures GapsAtLeast(Coalesce(ivs, minGap), minGap)
    decreases |ivs|
  {
    if |ivs| > 1 {
      CoalesceGaps(ivs[..|ivs| - 1], minGap);
    }
  }

  predicate Within(x: Interval, y: Interval)
  {
    y.0 <= x.0 && x.1 <= y.1
  }

  predicate StartsSorted(s: seq<Interval>)
  {
    forall i, j :: 0 <= i < j < |s| ==> s[i].0 <= s[j].0
  }

  /** Joining never makes an interval shorter: each stays at least as long
      as the shortest input interval. */
  lemma {:induction false} CoalesceLengths(ivs: seq<Interval>, minGap: int, len: int)
    requires forall k :: 0 <= k < |ivs| ==> ivs[k].1 - ivs[k].0 >= len
    ensures forall k :: 0 <= k < |Coalesce(ivs, minGap)| ==>
      Coalesce(ivs, minGap)[k].1 - Coalesce(ivs, minGap)[k].0 >= len
    decreases |ivs|
  {
    if |ivs| > 1 {
      CoalesceLengths(ivs[..|ivs| - 1], minGap, len);
    }
  }

  /** On intervals sorted by start, every input interval lies inside one
      output interval: nothing that had a pulse is dropped. */
  lemma CoalesceCovers(ivs: seq<Interval>, minGap: int)
    requires StartsSorted(ivs)
    ensures forall k :: 0 <= k < |ivs| ==>
      exists j :: 0 <= j < |Coalesce(ivs, minGap)| && Within(ivs[k], Coalesce(ivs, minGap)[j])
  {
    CoalesceCoversStretched(ivs, ivs, minGap);
  }

  /** The same when each interval was first stretched (`w[k]` holds
      `ivs[k]`) in a way that may break the order of the starts: a group of
      joined intervals starts where its first stretched member does, which
      is at or before the start of every later original interval. */
  lemma {:induction false} CoalesceCoversStretched(ivs: seq<Interval>, w: seq<Interval>, minGap: int)
    requires |ivs| == |w| && StartsSorted(ivs)
    requires forall k :: 0 <= k < |ivs| ==> Within(ivs[k], w[k])
    ensures forall k :: 0 <= k < |ivs| ==>
      exists j :: 0 <= j < |Coalesce(w, minGap)| && Within(ivs[k], Coalesce(w, minGap)[j])
    ensures ivs != [] ==> Last(Coalesce(w, minGap)).0 <= Last(ivs).0
    decreases |ivs|
  {
    var r := Coalesce(w, minGap);
    if |ivs| > 1 {
      var n := |ivs| - 1;
      CoalesceCoversStretched(ivs[..n], w[..n], minGap);
      CoversStep(ivs, w, Coalesce(w[..n], minGap), minGap);
    } else if |ivs| == 1 {
      CoversOne(ivs, w, minGap);
    }
  }

  lemma CoversOne(ivs: seq<Interval>, w: seq<Interval>, minGap: int)
    requires |ivs| == |w| == 1 && Within(ivs[0], w[0])
    ensures 0 < |Coalesce(w, minGap)| && Within(ivs[0], Coalesce(w, minGap)[0])
    ensures Last(Coalesce(w, minGap)).0 <= Last(ivs).0
  {
    assert Coalesce(w, minGap) == w;
  }

  /** One more interval joined or kept: the covering of the earlier ones
      carries over, and the new one is covered by the last output. */
  lemma CoversStep(ivs: seq<Interval>, w: seq<Interval>, acc: seq<Interval>, minGap: int)
    requires |ivs| == |w| > 1 && StartsSorted(ivs)
    requires forall k :: 0 <= k < |ivs| ==> Within(ivs[k], w[k])
    requires acc == Coalesce(w[..|w| - 1], minGap)
    requires forall k :: 0 <= k < |ivs| - 1 ==> exists j :: 0 <= j < |acc| && Within(ivs[k], acc[j])
    requires Last(acc).0 <= ivs[|ivs| - 2].0
    ensures forall k :: 0 <= k < |ivs| ==>
      exists j :: 0 <= j < |Coalesce(w, minGap)| && Within(ivs[k], Coalesce(w, minGap)[j])
    ensures Last(Coalesce(w, minGap)).0 <= Last(ivs).0
  {
    var n := |ivs| - 1;
    var x := w[n];
    var r := Absorb(acc, x, minGap);
    assert Coalesce(w, minGap) == r;
    assert Last(acc).0 <= ivs[n].0;
    forall k | 0 <= k < |ivs|
      ensures exists j :: 0 <= j < |r| && Within(ivs[k], r[j])
    {
      if k == n {
        var j := if x.0 - Last(acc).1 < minGap then |acc| - 1 else |acc|;
        assert Within(ivs[k], r[j]);
      } else {
        var j :| 0 <= j < |acc| && Within(ivs[k], acc[j]);
        assert Within(ivs[k], r[j]);
      }
    }
  }

  // ---------------------------------------------------------------------------
  // merge_intervals
  // ---------------------------------------------------------------------------

  /** A first interval starting at or below 256 is stretched back to sample 1. */
  function FirstFix(ivs: seq<Interval>): seq<Interval>
    requires ivs != []
  {
    if ivs[0].0 <= Block then ivs[0 := (1, ivs[0].1)] else ivs
  }

  /** An interval shorter than 256 becomes exactly 256 long, anchored at its
      stop when it would reach the end of the sequence, at its start otherwise. */
  function Widen(x: Interval, len: int): (r: Interval)
  {
    if x.1 - x.0 < Block then
      (if x.0 + Block >= len then (x.1 - Block, x.1) else (x.0, x.0 + Block))
    else x
  }

  function WidenAll(ivs: seq<Interval>, len: int): (r: seq<Interval>)
  {
    seq(|ivs|, k requires 0 <= k < |ivs| => Widen(ivs[k], len))
  }

  /** The last interval is stretched to `len + 1` when less than 256
      samples remain after it. */
  function TailFix(ivs: seq<Interval>, len: int): seq<Interval>
    requires ivs != []
  {
    var last := Last(ivs);
    if len - last.1 < Block then ivs[|ivs| - 1 := (last.0, len + 1)] else ivs
  }

  /** `merge_intervals(intervals, sequence_length)`; indexing the first
      interval of an empty list raises. */
  function MergeIntervalsSpec(ivs: seq<Interval>, len: int): Option<seq<Interval>>
  {
    if ivs == [] then None
    else Some(TailFix(Coalesce(WidenAll(FirstFix(ivs), len), Block), len))
  }

  /** `merge_intervals`, updating the list as the source does: the first
      fix, the widening loop, the joining loop and the last fix. */
  method MergeIntervals(ivs: seq<Interval>, len: int) returns (r: Option<seq<Interval>>)
    ensures r == MergeIntervalsSpec(ivs, len)
  {
    if ivs == [] {
      return None;  // intervals[0] raises IndexError
    }
    var l := ivs;
    if l[0].0 <= Block {
      l := l[0 := (1, l[0].1)];
    }
    ghost var fixed := l;
    var i := 0;
    while i < |l|
      invariant 0 <= i <= |l| == |fixed|
      invariant forall k :: 0 <= k < i ==> l[k] == Widen(fixed[k], len)
      invariant forall k :: i <= k < |l| ==> l[k] == fixed[k]
    {
      var x := l[i];
      if x.1 - x.0 < Block {
        if x.0 + Block >= len {
          l := l[i := (x.1 - Block, x.1)];
        } else {
          l := l[i := (x.0, x.0 + Block)];
        }
      }
      i := i + 1;
    }
    assert l == WidenAll(fixed, len);
    l := CoalesceInPlace(l, Block);
    var last := l[|l| - 1];
    if len - last.1 < Block {
      l := l[|l| - 1 := (last.0, len + 1)];
    }
    return Some(l);
  }

  /** What `merge_intervals` guarantees: the list never grows, consecutive
      intervals are at least 256 samples apart, the last one either leaves
      at least 256 samples or ends at `len + 1`, and every interval but the
      last is at least 256 long (the last one too unless it reached past
      `len + 1` before the last fix). */
  lemma MergeIntervalsSpecProps(ivs: seq<Interval>, len: int)
    requires ivs != []
    ensures var r := MergeIntervalsSpec(ivs, len).value;
      r != [] && |r| <= |ivs| &&
      GapsAtLeast(r, Block) &&
      (len - Last(r).1 >= Block || Last(r).1 == len + 1) &&
      (forall k :: 0 <= k < |r| - 1 ==> r[k].1 - r[k].0 >= Block) &&
      (Last(Coalesce(WidenAll(FirstFix(ivs), len), Block)).1 <= len + 1 ==> Last(r).1 - Last(r).0 >= Block)
  {
    var w := WidenAll(FirstFix(ivs), len);
    var c := Coalesce(w, Block);
    CoalesceGaps(w, Block);
    CoalesceLengths(w, Block, Block);
  }

  /** An interval with its samples before sample 1 cut off. */
  function FromOne(x: Interval): Interval
  {
    (Max(x.0, 1), x.1)
  }

  /** On a list sorted by start whose intervals end by `len + 1`, no pulse
      sample from sample 1 on is left outside the merged intervals, though
      the widening may reorder the starts. Sample 0 is not kept: the first
      fix moves a start of 0 to 1. */
  lemma MergeIntervalsCovers(ivs: seq<Interval>, len: int)
    requires ivs != [] && StartsSorted(ivs)
    requires forall k :: 0 <= k < |ivs| ==> ivs[k].1 <= len + 1
    ensures var r := MergeIntervalsSpec(ivs, len).value;
      forall k :: 0 <= k < |ivs| ==> exists j :: 0 <= j < |r| && Within(FromOne(ivs[k]), r[j])
  {
    var w := WidenAll(FirstFix(ivs), len);
    var c := Coalesce(w, Block);
    var r := TailFix(c, len);
    assert r == MergeIntervalsSpec(ivs, len).value;
    var cut := seq(|ivs|, k requires 0 <= k < |ivs| => FromOne(ivs[k]));
    forall k | 0 <= k < |ivs| ensures Within(cut[k], w[k]) {
      FixWidenWithin(ivs, len, k);
    }
    CoalesceCoversStretched(cut, w, Block);
    forall k | 0 <= k < |ivs| ensures exists j :: 0 <= j < |r| && Within(FromOne(ivs[k]), r[j]) {
      var j :| 0 <= j < |c| && Within(cut[k], c[j]);
      assert Within(FromOne(ivs[k]), r[j]);
    }
  }

  /** The first fix and the widening only ever stretch an interval, once
      its samples before 1 are cut off. */
  lemma FixWidenWithin(ivs: seq<Interval>, len: int, k: int)
    requires 0 <= k < |ivs|
    ensures Within(FromOne(ivs[k]), WidenAll(FirstFix(ivs), len)[k])
  {
    var f := FirstFix(ivs);
    assert Within(FromOne(ivs[k]), f[k]);
  }
}
