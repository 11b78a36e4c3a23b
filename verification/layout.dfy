/** The block layout of the AWG5014 loop mode (`compile_loop` with
    `factor=True`): the merged intervals become per-channel lists of blocks
    (a content block per interval, and the gaps between them filled with a
    shared 256-sample zero block repeated `zcount` times plus one remainder
    block), and a parallel list of repeat counts. */
module AwgLayout {
  import opened Common
  import opened AwgIntervals

  /** A gap of the timeline: before the first interval, or after interval k. */
  datatype Gap = Lead | After(k: nat)

  /** What one position of `array_analog[channel]` (and of the two marker
      lists) holds: the shared zero block, the remainder block of a gap, or
      the content block of interval k. Every channel gets the same positions. */
  datatype Slot = Zeros | Rem(g: Gap) | Fill(k: nat)

  // ---------------------------------------------------------------------------
  // Gap arithmetic
  // ---------------------------------------------------------------------------

  /** The samples left after interval k: up to the next interval, or up to
      `sequence_length + 1` after the last one. */
  function Remaining(ivs: seq<Interval>, len: int, k: nat): int
    requires k < |ivs|
  {
    if k + 1 == |ivs| then len - ivs[k].1 + 1 else ivs[k + 1].0 - ivs[k].1
  }

  /** The samples before the first interval, which starts at sample 1 when
      there are none. */
  function LeadRemaining(ivs: seq<Interval>): int
    requires ivs != []
  {
    ivs[0].0 - 1
  }

  /** `int(remaining / zero_length) - 1`: how often the zero block repeats. */
  function ZCount(r: int): int
  {
    TruncDiv(r, Block) - 1
  }

  /** `zero_length + remaining % zero_length`: the length of the remainder block. */
  function ZRem(r: int): int
  {
    Block + r % Block
  }

  /** A gap of at least 256 samples is split exactly: `zcount` zero blocks
      and one remainder block of 256 to 511 samples. */
  lemma FillerSplit(r: int)
    requires r >= Block
    ensures ZCount(r) >= 0 && Block <= ZRem(r) < 2 * Block
    ensures ZCount(r) * Block + ZRem(r) == r
    ensures ZCount(r) == 0 <==> r < 2 * Block
  {
  }

  /** A gap shorter than 256 samples gets no zero block and a remainder
      block 256 samples longer than the gap. */
  lemma FillerShortGap(r: int)
    requires 0 <= r < Block
    ensures ZCount(r) == -1 && ZRem(r) == Block + r
  {
  }

  // ---------------------------------------------------------------------------
  // The layout
  // ---------------------------------------------------------------------------

  /** The blocks of one gap: the zero block when it repeats, then the remainder. */
  function GapSlots(g: Gap, r: int): seq<Slot>
  {
    (if ZCount(r) > 0 then [Zeros] else []) + [Rem(g)]
  }

  function GapRepeats(r: int): seq<int>
  {
    (if ZCount(r) > 0 then [ZCount(r)] else []) + [1]
  }

  /** The blocks before the first interval, when it does not start at 1. */
  function LeadSlots(ivs: seq<Interval>): seq<Slot>
    requires ivs != []
  {
    if ivs[0].0 != 1 then GapSlots(Lead, LeadRemaining(ivs)) else []
  }

  function LeadRepeats(ivs: seq<Interval>): seq<int>
    requires ivs != []
  {
    if ivs[0].0 != 1 then GapRepeats(LeadRemaining(ivs)) else []
  }

  /** Interval k: its content block, then its gap unless nothing remains. */
  function IntervalSlots(ivs: seq<Interval>, len: int, k: nat): seq<Slot>
    requires k < |ivs|
  {
    var r := Remaining(ivs, len, k);
    [Fill(k)] + (if r != 0 then GapSlots(After(k), r) else [])
  }

  /** The repeats of interval k; the gap's repeats are there even when
      nothing remains and no gap block is emitted. */
  function IntervalRepeats(ivs: seq<Interval>, len: int, k: nat): seq<int>
    requires k < |ivs|
  {
    [1] + GapRepeats(Remaining(ivs, len, k))
  }

  function SlotsUpTo(ivs: seq<Interval>, len: int, n: nat): seq<Slot>
    requires n <= |ivs|
  {
    if n == 0 then [] else SlotsUpTo(ivs, len, n - 1) + IntervalSlots(ivs, len, n - 1)
  }

  function RepeatsUpTo(ivs: seq<Interval>, len: int, n: nat): seq<int>
    requires n <= |ivs|
  {
    if n == 0 then [] else RepeatsUpTo(ivs, len, n - 1) + IntervalRepeats(ivs, len, n - 1)
  }

  /** The list of blocks of every channel. */
  function LayoutSlots(ivs: seq<Interval>, len: int): seq<Slot>
    requires ivs != []
  {
    LeadSlots(ivs) + SlotsUpTo(ivs, len, |ivs|)
  }

  /** `repeats`. */
  function LayoutRepeats(ivs: seq<Interval>, len: int): seq<int>
    requires ivs != []
  {
    LeadRepeats(ivs) + RepeatsUpTo(ivs, len, |ivs|)
  }

  /** The filler and content loops of `compile_loop`, appending blocks and
      repeats interval by interval. */
  method BuildLayout(ivs: seq<Interval>, len: int) returns (slots: seq<Slot>, repeats: seq<int>)
    requires ivs != []
    ensures slots == LayoutSlots(ivs, len) && repeats == LayoutRepeats(ivs, len)
  {
    slots, repeats := LeadBlocks(ivs);
    var idx := 0;
    while idx < |ivs|
      invariant 0 <= idx <= |ivs|
      invariant slots == LeadSlots(ivs) + SlotsUpTo(ivs, len, idx)
      invariant repeats == LeadRepeats(ivs) + RepeatsUpTo(ivs, len, idx)
    {
      var b, rb := IntervalBlocks(ivs, len, idx);
      LayoutStep(ivs, len, idx, slots, repeats, b, rb);
      slots, repeats := slots + b, repeats + rb;
      idx := idx + 1;
    }
  }

  /** Appending one interval's blocks and repeats extends the layout by that
      interval. */
  lemma LayoutStep(ivs: seq<Interval>, len: int, idx: nat, slots: seq<Slot>, repeats: seq<int>,
                   b: seq<Slot>, rb: seq<int>)
    requires idx < |ivs| && ivs != []
    requires slots == LeadSlots(ivs) + SlotsUpTo(ivs, len, idx)
    requires repeats == LeadRepeats(ivs) + RepeatsUpTo(ivs, len, idx)
    requires b == IntervalSlots(ivs, len, idx) && rb == IntervalRepeats(ivs, len, idx)
    ensures slots + b == LeadSlots(ivs) + SlotsUpTo(ivs, len, idx + 1)
    ensures repeats + rb == LeadRepeats(ivs) + RepeatsUpTo(ivs, len, idx + 1)
  {
    AppendAssoc(LeadSlots(ivs), SlotsUpTo(ivs, len, idx), b);
    AppendAssoc(LeadRepeats(ivs), RepeatsUpTo(ivs, len, idx), rb);
  }

  lemma AppendAssoc<T>(a: seq<T>, b: seq<T>, c: seq<T>)
    ensures (a + b) + c == a + (b + c)
  {
  }

  /** The filler before the first interval, when it does not start at 1. */
  method LeadBlocks(ivs: seq<Interval>) returns (slots: seq<Slot>, repeats: seq<int>)
    requires ivs != []
    ensures slots == LeadSlots(ivs) && repeats == LeadRepeats(ivs)
  {
    slots, repeats := [], [];
    if ivs[0].0 != 1 {
      var zcount := TruncDiv(ivs[0].0 - 1, Block) - 1;
      if zcount > 0 {
        repeats := repeats + [zcount];
      }
      repeats := repeats + [1];
      if zcount > 0 {
        slots := slots + [Zeros];
      }
      slots := slots + [Rem(Lead)];
    }
  }

  /** One turn of the loop over the intervals: the content block and repeat,
      the gap's repeats, and the gap's blocks unless nothing remains. */
  method IntervalBlocks(ivs: seq<Interval>, len: int, idx: nat) returns (b: seq<Slot>, rb: seq<int>)
    requires idx < |ivs|
    ensures b == IntervalSlots(ivs, len, idx) && rb == IntervalRepeats(ivs, len, idx)
  {
    b := [Fill(idx)];
    var remaining := if idx + 1 == |ivs| then len - ivs[idx].1 + 1 else ivs[idx + 1].0 - ivs[idx].1;
    var zcount := TruncDiv(remaining, Block) - 1;
    rb := [1];
    if zcount > 0 {
      rb := rb + [zcount];
    }
    rb := rb + [1];
    if remaining != 0 {
      if zcount > 0 {
        b := b + [Zeros];
      }
      b := b + [Rem(After(idx))];
    }
  }

  // ---------------------------------------------------------------------------
  // Properties of the layout
  // ---------------------------------------------------------------------------

  /** Number of intervals among the first n after which nothing remains. */
  function EmptyGaps(ivs: seq<Interval>, len: int, n: nat): nat
    requires n <= |ivs|
  {
    if n == 0 then 0
    else EmptyGaps(ivs, len, n - 1) + (if Remaining(ivs, len, n - 1) == 0 then 1 else 0)
  }

  /** There is one repeat per block, plus one for every interval after which
      nothing remains: there the repeats of the absent gap are still listed. */
  lemma {:induction false} RepeatsCount(ivs: seq<Interval>, len: int)
    requires ivs != []
    ensures |LayoutRepeats(ivs, len)| == |LayoutSlots(ivs, len)| + EmptyGaps(ivs, len, |ivs|)
  {
    UpToCount(ivs, len, |ivs|);
  }

  lemma {:induction false} UpToCount(ivs: seq<Interval>, len: int, n: nat)
    requires n <= |ivs|
    ensures |RepeatsUpTo(ivs, len, n)| == |SlotsUpTo(ivs, len, n)| + EmptyGaps(ivs, len, n)
  {
    if n > 0 {
      UpToCount(ivs, len, n - 1);
    }
  }

  /** The samples a block holds. */
  function SlotLen(ivs: seq<Interval>, len: int, s: Slot): int
  {
    match s
    case Zeros => Block
    case Rem(Lead) => if ivs != [] then ZRem(LeadRemaining(ivs)) else 0
    case Rem(After(k)) => if k < |ivs| then ZRem(Remaining(ivs, len, k)) else 0
    case Fill(k) => if k < |ivs| then ivs[k].1 - ivs[k].0 else 0
  }

  /** The samples the instrument plays: each block times its repeat, pairing
      blocks and repeats position by position (extra repeats are ignored). */
  function Expand(ivs: seq<Interval>, len: int, slots: seq<Slot>, reps: seq<int>): int
    requires |slots| <= |reps|
  {
    if slots == [] then 0
    else reps[0] * SlotLen(ivs, len, slots[0]) + Expand(ivs, len, slots[1..], reps[1..])
  }

  lemma {:induction false} ExpandAppend(ivs: seq<Interval>, len: int, a: seq<Slot>, ra: seq<int>,
                                        b: seq<Slot>, rb: seq<int>)
    requires |a| == |ra| && |b| <= |rb|
    ensures Expand(ivs, len, a + b, ra + rb) == Expand(ivs, len, a, ra) + Expand(ivs, len, b, rb)
  {
    if a == [] {
      assert a + b == b && ra + rb == rb;
    } else {
      assert (a + b)[0] == a[0] && (ra + rb)[0] == ra[0];
      assert (a + b)[1..] == a[1..] + b && (ra + rb)[1..] == ra[1..] + rb;
      ExpandAppend(ivs, len, a[1..], ra[1..], b, rb);
    }
  }

  /** A gap of at least 256 samples expands to exactly its length. */
  lemma ExpandGap(ivs: seq<Interval>, len: int, g: Gap, r: int)
    requires r >= Block && SlotLen(ivs, len, Rem(g)) == ZRem(r)
    ensures |GapSlots(g, r)| == |GapRepeats(r)|
    ensures Expand(ivs, len, GapSlots(g, r), GapRepeats(r)) == r
  {
    FillerSplit(r);
    var s, rs := GapSlots(g, r), GapRepeats(r);
    assert Expand(ivs, len, [Rem(g)], [1]) == ZRem(r);
    if ZCount(r) > 0 {
      assert s[1..] == [Rem(g)] && rs[1..] == [1];
    } else {
      assert s == [Rem(g)] && rs == [1];
    }
  }

  /** The intervals `merge_intervals` is meant to deliver: a first interval
      starting at 1 or after 256 samples, gaps of at least 256 samples, and a
      last interval leaving at least 256 samples or ending at `len + 1`. */
  predicate Merged(ivs: seq<Interval>, len: int)
  {
    ivs != [] &&
    (ivs[0].0 == 1 || ivs[0].0 > Block) &&
    GapsAtLeast(ivs, Block) &&
    (len - Last(ivs).1 >= Block || Last(ivs).1 == len + 1)
  }

  lemma {:induction false} ExpandUpTo(ivs: seq<Interval>, len: int, n: nat)
    requires Merged(ivs, len) && 0 < n <= |ivs|
    ensures |SlotsUpTo(ivs, len, n)| <= |RepeatsUpTo(ivs, len, n)|
    ensures n < |ivs| ==> |SlotsUpTo(ivs, len, n)| == |RepeatsUpTo(ivs, len, n)|
    ensures Expand(ivs, len, SlotsUpTo(ivs, len, n), RepeatsUpTo(ivs, len, n)) ==
      (if n < |ivs| then ivs[n].0 else len + 1) - ivs[0].0
  {
    var k := n - 1;
    var r := Remaining(ivs, len, k);
    var a, ra := SlotsUpTo(ivs, len, k), RepeatsUpTo(ivs, len, k);
    var b, rb := IntervalSlots(ivs, len, k), IntervalRepeats(ivs, len, k);
    if k > 0 {
      ExpandUpTo(ivs, len, k);
    }
    if r != 0 {
      assert r >= Block;
      ExpandGap(ivs, len, After(k), r);
      assert b[1..] == GapSlots(After(k), r) && rb[1..] == GapRepeats(r);
    } else {
      assert b[1..] == [];
    }
    ExpandAppend(ivs, len, a, ra, b, rb);
  }

  /** On merged intervals, the blocks played with their repeats last exactly
      `sequence_length` samples. */
  lemma ExpandedLength(ivs: seq<Interval>, len: int)
    requires Merged(ivs, len)
    ensures |LayoutSlots(ivs, len)| <= |LayoutRepeats(ivs, len)|
    ensures Expand(ivs, len, LayoutSlots(ivs, len), LayoutRepeats(ivs, len)) == len
  {
    ExpandUpTo(ivs, len, |ivs|);
    var a, ra := LeadSlots(ivs), LeadRepeats(ivs);
    if ivs[0].0 != 1 {
      ExpandGap(ivs, len, Lead, LeadRemaining(ivs));
    }
    ExpandAppend(ivs, len, a, ra, SlotsUpTo(ivs, len, |ivs|), RepeatsUpTo(ivs, len, |ivs|));
  }
}
