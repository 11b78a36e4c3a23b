/** The AWG5014 loop mode (`compile_loop`): the numpy arrays it creates,
    by identity, and what rendering, the range check, the marker inversion
    and the packing do to them. The zero blocks and the remainder blocks of
    a gap are single arrays that every channel's list refers to (and the
    marker lists refer to the same marker array for M1 and M2), so an
    in-place update of one is seen through every reference. */
module AwgLoop {
  import opened Common
  import opened AwgContext
  import opened AwgCompile
  import opened AwgIntervals
  import opened AwgLayout

  // ---------------------------------------------------------------------------
  // Arrays by identity
  // ---------------------------------------------------------------------------

  /** The arrays `compile_loop` allocates: `azeros`/`mzeros` once, one
      `azrem`/`mzrem` pair per gap, and per interval and channel one analog
      and two marker content arrays. Equal values are the same array. */
  datatype Obj =
    | AZeros
    | MZeros
    | ARem(g: Gap)
    | MRem(g: Gap)
    | AFill(k: nat, c: Ch)
    | MFill(k: nat, c: Ch, m: Marker)

  /** `array_analog[channel][i]` for the block at slot s. */
  function AnalogObj(s: Slot, c: Ch): Obj
  {
    match s
    case Zeros => AZeros
    case Rem(g) => ARem(g)
    case Fill(k) => AFill(k, c)
  }

  /** `array_M1[channel][i]` / `array_M2[channel][i]` for the block at slot s. */
  function MarkerObj(s: Slot, c: Ch, m: Marker): Obj
  {
    match s
    case Zeros => MZeros
    case Rem(g) => MRem(g)
    case Fill(k) => MFill(k, c, m)
  }

  /** Two positions that share their analog array share their marker arrays. */
  lemma MarkerFollowsAnalog(s: Slot, c: Ch, t: Slot, d: Ch, m: Marker)
    requires AnalogObj(s, c) == AnalogObj(t, d)
    ensures MarkerObj(s, c, m) == MarkerObj(t, d, m)
  {
  }

  /** The gap blocks are shared by every channel and by both markers. */
  lemma GapBlocksShared(s: Slot, c: Ch, d: Ch, m: Marker, n: Marker)
    requires !s.Fill?
    ensures AnalogObj(s, c) == AnalogObj(s, d)
    ensures MarkerObj(s, c, m) == MarkerObj(s, d, n)
  {
  }

  /** The slot kind an array belongs to. */
  function SlotOf(o: Obj): Slot
  {
    match o
    case AZeros => Zeros
    case MZeros => Zeros
    case ARem(g) => Rem(g)
    case MRem(g) => Rem(g)
    case AFill(k, _) => Fill(k)
    case MFill(k, _, _) => Fill(k)
  }

  predicate IsAnalog(o: Obj)
  {
    o.AZeros? || o.ARem? || o.AFill?
  }

  /** The intervals, the sequence length and the block layout. */
  datatype Plan = Plan(ivs: seq<Interval>, len: int, slots: seq<Slot>, repeats: seq<int>)

  /** The length of an array (a negative length raises when it is allocated). */
  function Size(pl: Plan, o: Obj): nat
  {
    var l := SlotLen(pl.ivs, pl.len, SlotOf(o));
    if l < 0 then 0 else l
  }

  /** `np.ones(n, uint16) * 2**13` for an analog array, `np.zeros(n, int8)` for a marker one. */
  function Initial(pl: Plan, o: Obj): (r: seq<int>)
    ensures |r| == Size(pl, o)
  {
    seq(Size(pl, o), _ => if IsAnalog(o) then MidScale else 0)
  }

  /** The contents of the arrays that were updated since their allocation. */
  type Store = map<Obj, seq<int>>

  ghost predicate Sized(pl: Plan, st: Store)
  {
    forall o :: o in st ==> |st[o]| == Size(pl, o)
  }

  /** The current contents of an array. */
  function Get(pl: Plan, st: Store, o: Obj): (r: seq<int>)
    requires Sized(pl, st)
    ensures |r| == Size(pl, o)
  {
    if o in st then st[o] else Initial(pl, o)
  }

  /** Every content block has a non-negative length (`np.ones` raises otherwise). */
  predicate Allocatable(ivs: seq<Interval>)
  {
    forall k :: 0 <= k < |ivs| ==> ivs[k].0 <= ivs[k].1
  }

  // ---------------------------------------------------------------------------
  // Rendering into the content blocks
  // ---------------------------------------------------------------------------

  /** The search `while intervals[interval_i][1] < start_index`, from
      interval i on; running off the end raises IndexError (`None`). */
  function LocateFrom(ivs: seq<Interval>, start: int, i: nat): (r: Option<nat>)
    requires i <= |ivs|
    ensures r.Some? ==>
      i <= r.value < |ivs| && ivs[r.value].1 >= start && forall j :: i <= j < r.value ==> ivs[j].1 < start
    ensures r.None? ==> forall j :: i <= j < |ivs| ==> ivs[j].1 < start
    decreases |ivs| - i
  {
    if i == |ivs| then None
    else if ivs[i].1 < start then LocateFrom(ivs, start, i + 1)
    else Some(i)
  }

  /** The interval a pulse starting at `start` is drawn into. */
  function Locate(ivs: seq<Interval>, start: int): (r: Option<nat>)
    ensures r.Some? ==>
      r.value < |ivs| && ivs[r.value].1 >= start && forall j :: 0 <= j < r.value ==> ivs[j].1 < start
    ensures r.None? ==> forall j :: 0 <= j < |ivs| ==> ivs[j].1 < start
  {
    LocateFrom(ivs, start, 0)
  }

  /** `intervals_to_pulses_*[channel][interval]`: the dictionaries are keyed
      by the interval's value, so an interval listed twice maps to the
      content block of its last occurrence. */
  function DictIndex(ivs: seq<Interval>, k: nat): (j: nat)
    requires k < |ivs|
    ensures k <= j < |ivs| && ivs[j] == ivs[k]
    ensures forall i :: j < i < |ivs| ==> ivs[i] != ivs[k]
    decreases |ivs|
  {
    if ivs[|ivs| - 1] == ivs[k] then |ivs| - 1 else DictIndex(ivs[..|ivs| - 1], k)
  }

  /** The content array a pulse is added to, when its sub-channel matches its kind. */
  function Target(p: Pulse, j: nat): (r: Option<Obj>)
    ensures r.Some? <==> KindMatches(p)
  {
    if p.sub == A && p.kind == Analogical then Some(AFill(j, p.channel))
    else if p.sub == M1 && p.kind == Logical then Some(MFill(j, p.channel, Mk1))
    else if p.sub == M2 && p.kind == Logical then Some(MFill(j, p.channel, Mk2))
    else None
  }

  datatype Drawing = Drawn(st: Store) | KindMismatch(pulse: Pulse) | DrawRaised(error: PyError)

  /** One turn of the rendering loop: locate the interval, then add the
      waveform onto the slice of its content block relative to the
      interval's start. */
  function DrawPulse(pl: Plan, st: Store, p: Pulse): (r: Drawing)
    requires Sized(pl, st)
    ensures r.Drawn? ==> Sized(pl, r.st)
    ensures p.zeroDuration ==> r == Drawn(st)
    ensures !p.zeroDuration && Locate(pl.ivs, p.start).None? ==> r == DrawRaised(IndexError)
    ensures !p.zeroDuration && Locate(pl.ivs, p.start).Some? && !KindMatches(p) ==> r == KindMismatch(p)
  {
    if p.zeroDuration then Drawn(st)
    else match Locate(pl.ivs, p.start)
      case None => DrawRaised(IndexError)
      case Some(k) => DrawIn(pl, st, p, pl.ivs[k], DictIndex(pl.ivs, k))
  }

  /** The rest of a turn, once the interval `iv` and the position `j` of its
      content block are known. */
  function DrawIn(pl: Plan, st: Store, p: Pulse, iv: Interval, j: nat): (r: Drawing)
    requires Sized(pl, st)
    ensures r.Drawn? ==> Sized(pl, r.st)
    ensures !KindMatches(p) <==> r == KindMismatch(p)
  {
    match Target(p, j)
    case None => KindMismatch(p)
    case Some(o) => AddInto(pl, st, o, p.start - iv.0, p.start + |p.waveform| - iv.0, p.waveform)
  }

  /** `block[a:b] += waveform` on the current contents of a block. */
  function AddInto(pl: Plan, st: Store, o: Obj, a: int, b: int, w: seq<int>): (r: Drawing)
    requires Sized(pl, st)
    ensures r.Drawn? ==> Sized(pl, r.st)
    ensures r.Drawn? || r == DrawRaised(ValueError)
  {
    match SliceAdd(Get(pl, st, o), a, b, w, IsAnalog(o))
    case None => DrawRaised(ValueError)
    case Some(x) => Drawn(st[o := x])
  }

  /** The rendering loop, stopping at the first kind mismatch or exception. */
  function DrawAll(pl: Plan, st: Store, ps: seq<Pulse>): (r: Drawing)
    requires Sized(pl, st)
    ensures r.Drawn? ==> Sized(pl, r.st)
    decreases |ps|
  {
    if ps == [] then Drawn(st)
    else match DrawPulse(pl, st, ps[0])
      case Drawn(st1) => DrawAll(pl, st1, ps[1..])
      case other => other
  }

  /** Rendering only ever writes into content blocks: the shared zero and
      remainder blocks keep their initial contents. */
  lemma {:induction false} DrawAllKeepsGaps(pl: Plan, st: Store, ps: seq<Pulse>, o: Obj)
    requires Sized(pl, st) && !SlotOf(o).Fill?
    ensures DrawAll(pl, st, ps).Drawn? ==> Get(pl, DrawAll(pl, st, ps).st, o) == Get(pl, st, o)
    decreases |ps|
  {
    if ps != [] && DrawPulse(pl, st, ps[0]).Drawn? {
      DrawAllKeepsGaps(pl, DrawPulse(pl, st, ps[0]).st, ps[1..], o);
    }
  }

  /** A pulse of the wrong kind stops the rendering with a kind issue,
      unless an earlier pulse already stopped it. */
  lemma {:induction false} DrawAllMismatch(pl: Plan, st: Store, ps: seq<Pulse>, j: int)
    requires Sized(pl, st) && 0 <= j < |ps|
    requires !ps[j].zeroDuration && Locate(pl.ivs, ps[j].start).Some? && !KindMatches(ps[j])
    ensures DrawAll(pl, st, ps).Drawn? == false
    decreases |ps|
  {
    if j > 0 && DrawPulse(pl, st, ps[0]).Drawn? {
      DrawAllMismatch(pl, DrawPulse(pl, st, ps[0]).st, ps[1..], j - 1);
    }
  }

  /** Drawing a list is drawing a prefix, then the rest from where it left off. */
  lemma {:induction false} DrawAllSplit(pl: Plan, st: Store, ps: seq<Pulse>, j: nat)
    requires Sized(pl, st) && j <= |ps|
    requires DrawAll(pl, st, ps[..j]).Drawn?
    ensures DrawAll(pl, st, ps) == DrawAll(pl, DrawAll(pl, st, ps[..j]).st, ps[j..])
    decreases j
  {
    if j > 0 {
      assert ps[..j][0] == ps[0] && ps[..j][1..] == ps[1..][..j - 1];
      var st1 := DrawPulse(pl, st, ps[0]).st;
      DrawAllSplit(pl, st1, ps[1..], j - 1);
      assert ps[1..][j - 1..] == ps[j..];
    } else {
      assert ps[..0] == [] && ps[0..] == ps;
    }
  }

  // ---------------------------------------------------------------------------
  // Range check
  // ---------------------------------------------------------------------------

  /** The `if/elif` chain on one block; `None` is the ValueError of `max()`
      on an empty array, `Some(None)` a block in range. */
  function BlockCheck(a: seq<int>, m1: seq<int>, m2: seq<int>): Option<Option<Sub>>
  {
    if |a| == 0 then None
    else if AnalogOver(a) then Some(Some(A))
    else if |m1| == 0 then None
    else if MarkerOver(m1) then Some(Some(M1))
    else if |m2| == 0 then None
    else if MarkerOver(m2) then Some(Some(M2))
    else Some(None)
  }

  function SubError(s: Sub): ErrorMsg
  {
    match s
    case A => AnalogOutOfRange
    case M1 => Marker1Overflow
    case M2 => Marker2Overflow
  }

  /** The verdict on the block at position i of channel c. */
  function Verdict(pl: Plan, st: Store, c: Ch, i: nat): Option<Option<Sub>>
    requires Sized(pl, st) && i < |pl.slots|
  {
    var s := pl.slots[i];
    BlockCheck(Get(pl, st, AnalogObj(s, c)), Get(pl, st, MarkerObj(s, c, Mk1)), Get(pl, st, MarkerObj(s, c, Mk2)))
  }

  /** The verdicts on the blocks of channel c, in layout order. */
  function Verdicts(pl: Plan, st: Store, c: Ch): (vs: seq<Option<Option<Sub>>>)
    requires Sized(pl, st)
    ensures |vs| == |pl.slots|
  {
    seq(|pl.slots|, i requires 0 <= i < |pl.slots| => Verdict(pl, st, c, i))
  }

  /** What the inner loop does with one verdict: a raise, nothing, or the
      message of the reported sub-channel under `<c>_<sub>`. */
  function Record(e: Errors, c: Ch, v: Option<Option<Sub>>): Option<Errors>
  {
    match v
    case None => None
    case Some(None) => Some(e)
    case Some(Some(s)) => Some(e[SubKey(c, s) := SubError(s)])
  }

  /** The inner loop over the first n verdicts vs of channel c, from the
      traceback e. */
  function Scan(vs: seq<Option<Option<Sub>>>, c: Ch, n: nat, e: Errors): Option<Errors>
    requires n <= |vs|
  {
    if n == 0 then Some(e)
    else match Scan(vs, c, n - 1, e)
      case None => None
      case Some(e1) => Record(e1, c, vs[n - 1])
  }

  /** The inner loop over the first n blocks of channel c, from the traceback e. */
  function CheckBlocks(pl: Plan, st: Store, c: Ch, n: nat, e: Errors): Option<Errors>
    requires Sized(pl, st) && n <= |pl.slots|
  {
    Scan(Verdicts(pl, st, c), c, n, e)
  }

  /** The range check over the channels of cs, in order; `None` is a raise. */
  function CheckAll(pl: Plan, st: Store, cs: seq<Ch>): Option<Errors>
    requires Sized(pl, st)
    decreases |cs|
  {
    if cs == [] then Some(map[])
    else match CheckAll(pl, st, cs[..|cs| - 1])
      case None => None
      case Some(e) => CheckBlocks(pl, st, cs[|cs| - 1], |pl.slots|, e)
  }

  /** Whether one of the first n verdicts is a raise. */
  ghost predicate Empty(vs: seq<Option<Option<Sub>>>, n: nat)
    requires n <= |vs|
  {
    exists i :: 0 <= i < n && vs[i].None?
  }

  /** Whether one of the first n verdicts reports sub-channel s. */
  ghost predicate Says(vs: seq<Option<Option<Sub>>>, s: Sub, n: nat)
    requires n <= |vs|
  {
    exists i :: 0 <= i < n && vs[i] == Some(Some(s))
  }

  /** Whether one of the first n blocks of channel c reports sub-channel s. */
  ghost predicate Reports(pl: Plan, st: Store, c: Ch, s: Sub, n: nat)
    requires Sized(pl, st) && n <= |pl.slots|
  {
    Says(Verdicts(pl, st, c), s, n)
  }

  /** Whether one of the first n blocks of channel c is empty. */
  ghost predicate Raises(pl: Plan, st: Store, c: Ch, n: nat)
    requires Sized(pl, st) && n <= |pl.slots|
  {
    Empty(Verdicts(pl, st, c), n)
  }

  /** The inner loop raises exactly when one of the verdicts is a raise. */
  lemma {:induction false} ScanRaise(vs: seq<Option<Option<Sub>>>, c: Ch, n: nat, e: Errors)
    requires n <= |vs|
    ensures Scan(vs, c, n, e).None? <==> Empty(vs, n)
  {
    if n > 0 {
      ScanRaise(vs, c, n - 1, e);
      EmptyStep(vs, n);
    }
  }

  lemma EmptyStep(vs: seq<Option<Option<Sub>>>, n: nat)
    requires 0 < n <= |vs|
    ensures Empty(vs, n) <==> Empty(vs, n - 1) || vs[n - 1].None?
  {
    if Empty(vs, n) {
      var i :| 0 <= i < n && vs[i].None?;
      assert i < n - 1 ==> Empty(vs, n - 1);
    }
  }

  /** The inner loop raises exactly when one of the blocks is empty. */
  lemma CheckBlocksRaise(pl: Plan, st: Store, c: Ch, n: nat, e: Errors)
    requires Sized(pl, st) && n <= |pl.slots|
    ensures CheckBlocks(pl, st, c, n, e).None? <==> Raises(pl, st, c, n)
  {
    ScanRaise(Verdicts(pl, st, c), c, n, e);
  }

  /** The inner loop adds the key `<ch>_<sub>` for every sub-channel that
      some block of the channel reports (a channel can report several), with
      its message, and leaves every other key as it was. */
  lemma CheckBlocksKeys(pl: Plan, st: Store, c: Ch, n: nat, e: Errors)
    requires Sized(pl, st) && n <= |pl.slots|
    requires CheckBlocks(pl, st, c, n, e).Some?
    ensures var r := CheckBlocks(pl, st, c, n, e).value;
      (forall s :: SubKey(c, s) in r <==> SubKey(c, s) in e || Reports(pl, st, c, s, n)) &&
      (forall s :: Reports(pl, st, c, s, n) ==> r[SubKey(c, s)] == SubError(s)) &&
      (forall k :: (forall s :: k != SubKey(c, s)) ==> (k in r <==> k in e) && (k in r ==> r[k] == e[k]))
  {
    ScanKeys(Verdicts(pl, st, c), c, n, e);
    SaidIff(Verdicts(pl, st, c), n);
  }

  /** The sub-channels the first n verdicts report, verdict after verdict. */
  ghost function Said(vs: seq<Option<Option<Sub>>>, n: nat): set<Sub>
    requires n <= |vs|
  {
    if n == 0 then {} else Said(vs, n - 1) + Adds(vs[n - 1])
  }

  /** The sub-channel a verdict reports, if any. */
  function Adds(v: Option<Option<Sub>>): set<Sub>
  {
    match v
    case Some(Some(s)) => {s}
    case _ => {}
  }

  lemma {:induction false} SaidIff(vs: seq<Option<Option<Sub>>>, n: nat)
    requires n <= |vs|
    ensures forall s :: s in Said(vs, n) <==> Says(vs, s, n)
  {
    if n > 0 {
      SaidIff(vs, n - 1);
      forall s ensures s in Said(vs, n) <==> Says(vs, s, n) {
        SaysStep(vs, s, n);
        assert s in Adds(vs[n - 1]) <==> vs[n - 1] == Some(Some(s));
      }
    }
  }

  /** Some of the first n verdicts reports s exactly when some of the first
      n - 1 does or the n-th does. */
  lemma SaysStep(vs: seq<Option<Option<Sub>>>, s: Sub, n: nat)
    requires 0 < n <= |vs|
    ensures Says(vs, s, n) <==> Says(vs, s, n - 1) || vs[n - 1] == Some(Some(s))
  {
    if Says(vs, s, n) {
      var i :| 0 <= i < n && vs[i] == Some(Some(s));
      assert i < n - 1 ==> Says(vs, s, n - 1);
    }
  }

  /** A traceback r built from e holds `<c>_<s>` with its message for every
      s of R, and otherwise agrees with e. */
  ghost predicate KeysFrom(r: Errors, e: Errors, c: Ch, R: set<Sub>)
  {
    (forall s :: SubKey(c, s) in r <==> SubKey(c, s) in e || s in R) &&
    (forall s :: s in R ==> SubKey(c, s) in r && r[SubKey(c, s)] == SubError(s)) &&
    (forall k :: (forall s :: k != SubKey(c, s)) ==> (k in r <==> k in e) && (k in r ==> r[k] == e[k]))
  }

  /** Recording one more sub-channel keeps the traceback in that shape. */
  lemma KeysFromAdd(r: Errors, e: Errors, c: Ch, R: set<Sub>, s0: Sub)
    requires KeysFrom(r, e, c, R)
    ensures KeysFrom(r[SubKey(c, s0) := SubError(s0)], e, c, R + {s0})
  {
    var k0 := SubKey(c, s0);
    var r' := r[k0 := SubError(s0)];
    forall s ensures (SubKey(c, s) in r' <==> SubKey(c, s) in e || s in R + {s0}) &&
                     (s in R + {s0} ==> SubKey(c, s) in r' && r'[SubKey(c, s)] == SubError(s)) {
      if s != s0 {
        SubKeyDistinct(c, s, s0);
      }
    }
    forall k | forall s :: k != SubKey(c, s)
      ensures (k in r' <==> k in e) && (k in r' ==> r'[k] == e[k]) {
      assert k != k0;
    }
  }

  lemma SubKeyDistinct(c: Ch, s: Sub, t: Sub)
    requires s != t
    ensures SubKey(c, s) != SubKey(c, t)
  {
    if SubKey(c, s) == SubKey(c, t) {
      SubKeyInjective(c, s, c, t);
    }
  }

  /** The inner loop leaves the traceback in that shape, with the
      sub-channels the verdicts report. */
  lemma {:induction false} ScanKeys(vs: seq<Option<Option<Sub>>>, c: Ch, n: nat, e: Errors)
    requires n <= |vs| && Scan(vs, c, n, e).Some?
    ensures KeysFrom(Scan(vs, c, n, e).value, e, c, Said(vs, n))
  {
    if n > 0 {
      ScanKeys(vs, c, n - 1, e);
      KeysFromStep(Scan(vs, c, n, e).value, Scan(vs, c, n - 1, e).value, e, c,
                   Said(vs, n), Said(vs, n - 1), vs[n - 1]);
    }
  }

  /** One verdict recorded in a traceback of that shape. */
  lemma KeysFromStep(r: Errors, r1: Errors, e: Errors, c: Ch, R: set<Sub>, R1: set<Sub>, v: Option<Option<Sub>>)
    requires KeysFrom(r1, e, c, R1) && v.Some?
    requires r == if v.value.Some? then r1[SubKey(c, v.value.value) := SubError(v.value.value)] else r1
    requires R == R1 + Adds(v)
    ensures KeysFrom(r, e, c, R)
  {
    if v.value.Some? {
      KeysFromAdd(r1, e, c, R1, v.value.value);
    } else {
      assert R == R1;
    }
  }

  /** The range check raises exactly when some block of a listed channel is
      empty; otherwise its traceback has the key `<ch>_<sub>` exactly for the
      sub-channels some block of a listed channel reports, with their
      messages, and no other key. */
  lemma {:induction false} CheckAllSpec(pl: Plan, st: Store, cs: seq<Ch>)
    requires Sized(pl, st)
    ensures CheckAll(pl, st, cs).None? <==> exists c :: c in cs && Raises(pl, st, c, |pl.slots|)
    ensures CheckAll(pl, st, cs).Some? ==>
      var e := CheckAll(pl, st, cs).value;
      (forall c, s :: SubKey(c, s) in e <==> c in cs && Reports(pl, st, c, s, |pl.slots|)) &&
      (forall c, s :: SubKey(c, s) in e ==> e[SubKey(c, s)] == SubError(s)) &&
      (forall k :: k in e ==> exists c, s :: k == SubKey(c, s))
    decreases |cs|
  {
    if cs != [] {
      var init, d := cs[..|cs| - 1], cs[|cs| - 1];
      assert forall c :: c in cs <==> c in init || c == d;
      CheckAllSpec(pl, st, init);
      if CheckAll(pl, st, init).Some? {
        var e0 := CheckAll(pl, st, init).value;
        CheckBlocksRaise(pl, st, d, |pl.slots|, e0);
        if CheckBlocks(pl, st, d, |pl.slots|, e0).Some? {
          CheckBlocksKeys(pl, st, d, |pl.slots|, e0);
          forall c, s, t | SubKey(c, s) == SubKey(d, t) ensures c == d && s == t {
            SubKeyInjective(c, s, d, t);
          }
        }
      }
    }
  }

  /** An empty traceback means every block of every listed channel passed. */
  lemma CheckAllClean(pl: Plan, st: Store, cs: seq<Ch>)
    requires Sized(pl, st) && CheckAll(pl, st, cs) == Some(map[])
    ensures forall c, i :: c in cs && 0 <= i < |pl.slots| ==> Verdict(pl, st, c, i) == Some(None)
  {
    CheckAllSpec(pl, st, cs);
    forall c, i | c in cs && 0 <= i < |pl.slots|
      ensures Verdict(pl, st, c, i) == Some(None)
    {
      assert !Raises(pl, st, c, |pl.slots|);
      assert Verdicts(pl, st, c)[i] == Verdict(pl, st, c, i);
      forall s ensures Verdict(pl, st, c, i) != Some(Some(s)) {
        assert !Reports(pl, st, c, s, |pl.slots|);
      }
    }
  }

  // ---------------------------------------------------------------------------
  // Marker inversion, in place
  // ---------------------------------------------------------------------------

  /** `for waveform in array_Mk[ch]: np.logical_not(waveform, waveform)`
      over the first n positions: each position negates the array it refers
      to, so an array listed twice is negated twice. */
  function InvertBlocks(pl: Plan, st: Store, c: Ch, m: Marker, n: nat): (r: Store)
    requires Sized(pl, st) && n <= |pl.slots|
    ensures Sized(pl, r)
  {
    if n == 0 then st
    else
      var st1 := InvertBlocks(pl, st, c, m, n - 1);
      var o := MarkerObj(pl.slots[n - 1], c, m);
      st1[o := LogicalNot(Get(pl, st1, o))]
  }

  /** The inversion loop over `inverted_log_channels`; an entry naming a
      channel without arrays raises KeyError (`None`). */
  function InvertLoop(pl: Plan, st: Store, ts: seq<(Ch, Marker)>, order: seq<Ch>): (r: Option<Store>)
    requires Sized(pl, st)
    ensures r.Some? ==> Sized(pl, r.value)
    decreases |ts|
  {
    if ts == [] then Some(st)
    else match InvertLoop(pl, st, ts[..|ts| - 1], order)
      case None => None
      case Some(st1) =>
        var t := ts[|ts| - 1];
        if t.0 in order then Some(InvertBlocks(pl, st1, t.0, t.1, |pl.slots|)) else None
  }

  /** How many of the first n positions of `array_Mk[ch]` refer to the array o. */
  function Hits(slots: seq<Slot>, c: Ch, m: Marker, o: Obj, n: nat): nat
    requires n <= |slots|
  {
    if n == 0 then 0
    else Hits(slots, c, m, o, n - 1) + (if MarkerObj(slots[n - 1], c, m) == o then 1 else 0)
  }

  /** How often the inversion loop negates the array o. */
  function Walks(slots: seq<Slot>, ts: seq<(Ch, Marker)>, o: Obj): nat
    decreases |ts|
  {
    if ts == [] then 0
    else Walks(slots, ts[..|ts| - 1], o) + Hits(slots, ts[|ts| - 1].0, ts[|ts| - 1].1, o, |slots|)
  }

  lemma FlippedBits(m: seq<int>, k: nat)
    requires IsBits(m)
    ensures IsBits(Flipped(m, k)) && LogicalNot(Flipped(m, k)) == Flipped(m, k + 1)
  {
    LogicalNotFlips(m);
  }

  /** m negated k times, one negation after the other. */
  function Negated(m: seq<int>, k: nat): (r: seq<int>)
    ensures |r| == |m|
  {
    if k == 0 then m else LogicalNot(Negated(m, k - 1))
  }

  /** On 0/1 samples, negating k times is negating k mod 2 times. */
  lemma {:induction false} NegatedFlipped(m: seq<int>, k: nat)
    requires IsBits(m)
    ensures Negated(m, k) == Flipped(m, k)
  {
    if k > 0 {
      NegatedFlipped(m, k - 1);
      FlippedBits(m, k - 1);
    }
  }

  /** The walk over the first n positions negates o once per position
      whose marker array is o. */
  lemma {:induction false} InvertBlocksNegates(pl: Plan, st: Store, c: Ch, m: Marker, n: nat, o: Obj)
    requires Sized(pl, st) && n <= |pl.slots|
    ensures Get(pl, InvertBlocks(pl, st, c, m, n), o) == Negated(Get(pl, st, o), Hits(pl.slots, c, m, o, n))
  {
    if n > 0 {
      InvertBlocksNegates(pl, st, c, m, n - 1, o);
      InvertBlocksGet(pl, st, c, m, n, o);
      var hit := MarkerObj(pl.slots[n - 1], c, m) == o;
      assert Hits(pl.slots, c, m, o, n) == Hits(pl.slots, c, m, o, n - 1) + if hit then 1 else 0;
      NegateNext(Get(pl, InvertBlocks(pl, st, c, m, n), o), Get(pl, InvertBlocks(pl, st, c, m, n - 1), o),
                 Get(pl, st, o), Hits(pl.slots, c, m, o, n - 1), hit, Hits(pl.slots, c, m, o, n));
    }
  }

  lemma NegateNext(x: seq<int>, y: seq<int>, m: seq<int>, h: nat, hit: bool, k: nat)
    requires y == Negated(m, h) && x == (if hit then LogicalNot(y) else y) && k == h + if hit then 1 else 0
    ensures x == Negated(m, k)
  {
  }

  lemma InvertBlocksFlips(pl: Plan, st: Store, c: Ch, m: Marker, n: nat, o: Obj)
    requires Sized(pl, st) && n <= |pl.slots| && IsBits(Get(pl, st, o))
    ensures Get(pl, InvertBlocks(pl, st, c, m, n), o) == Flipped(Get(pl, st, o), Hits(pl.slots, c, m, o, n))
  {
    InvertBlocksNegates(pl, st, c, m, n, o);
    NegatedFlipped(Get(pl, st, o), Hits(pl.slots, c, m, o, n));
  }

  /** One more block negates the array o exactly when that block's marker
      array is o. */
  lemma InvertBlocksGet(pl: Plan, st: Store, c: Ch, m: Marker, n: nat, o: Obj)
    requires Sized(pl, st) && 0 < n <= |pl.slots|
    ensures Get(pl, InvertBlocks(pl, st, c, m, n), o)
            == if MarkerObj(pl.slots[n - 1], c, m) == o then LogicalNot(Get(pl, InvertBlocks(pl, st, c, m, n - 1), o))
               else Get(pl, InvertBlocks(pl, st, c, m, n - 1), o)
  {
    var st1 := InvertBlocks(pl, st, c, m, n - 1);
    var q := MarkerObj(pl.slots[n - 1], c, m);
    GetUpdate(pl, st1, q, LogicalNot(Get(pl, st1, q)), o);
  }

  /** Reading an array after another one was replaced. */
  lemma GetUpdate(pl: Plan, st: Store, o: Obj, v: seq<int>, q: Obj)
    requires Sized(pl, st) && |v| == Size(pl, o)
    ensures Sized(pl, st[o := v])
    ensures Get(pl, st[o := v], q) == if q == o then v else Get(pl, st, q)
  {
  }

  /** The inversion loop raises exactly when an entry names an unused channel. */
  lemma {:induction false} InvertLoopRaises(pl: Plan, st: Store, ts: seq<(Ch, Marker)>, order: seq<Ch>)
    requires Sized(pl, st)
    ensures InvertLoop(pl, st, ts, order).None? <==> exists t :: t in ts && t.0 !in order
    decreases |ts|
  {
    if ts != [] {
      var init, t := ts[..|ts| - 1], ts[|ts| - 1];
      assert ts == init + [t];
      InvertLoopRaises(pl, st, init, order);
    }
  }

  /** Otherwise every marker array ends up negated once per time the loop
      walks over it, whichever channel or marker list it is seen through. */
  /** The whole inversion loop negates o once per hit of every walk. */
  lemma {:induction false} InvertLoopNegates(pl: Plan, st: Store, ts: seq<(Ch, Marker)>, order: seq<Ch>, o: Obj)
    requires Sized(pl, st) && InvertLoop(pl, st, ts, order).Some?
    ensures Get(pl, InvertLoop(pl, st, ts, order).value, o) == Negated(Get(pl, st, o), Walks(pl.slots, ts, o))
    decreases |ts|
  {
    if ts != [] {
      var init, t := ts[..|ts| - 1], ts[|ts| - 1];
      var st1 := InvertLoop(pl, st, init, order).value;
      var st2 := InvertBlocks(pl, st1, t.0, t.1, |pl.slots|);
      assert InvertLoop(pl, st, ts, order) == Some(st2);
      InvertLoopNegates(pl, st, init, order, o);
      InvertBlocksNegates(pl, st1, t.0, t.1, |pl.slots|, o);
      assert Walks(pl.slots, ts, o) == Walks(pl.slots, init, o) + Hits(pl.slots, t.0, t.1, o, |pl.slots|);
      var m, w, h := Get(pl, st, o), Walks(pl.slots, init, o), Hits(pl.slots, t.0, t.1, o, |pl.slots|);
      NegatedTwice(Get(pl, st2, o), Get(pl, st1, o), m, w, h, Walks(pl.slots, ts, o));
      assert Get(pl, InvertLoop(pl, st, ts, order).value, o) == Get(pl, st2, o);
    } else {
      assert InvertLoop(pl, st, ts, order) == Some(st);
      assert Walks(pl.slots, ts, o) == 0;
    }
  }

  /** Negating w times and then h times is negating w + h times. */
  lemma {:induction false} NegatedTwice(x: seq<int>, y: seq<int>, m: seq<int>, w: nat, h: nat, k: nat)
    requires y == Negated(m, w) && x == Negated(y, h) && k == w + h
    ensures x == Negated(m, k)
    decreases h
  {
    if h > 0 {
      NegatedTwice(Negated(y, h - 1), y, m, w, h - 1, k - 1);
    }
  }

  lemma InvertLoopFlips(pl: Plan, st: Store, ts: seq<(Ch, Marker)>, order: seq<Ch>, o: Obj)
    requires Sized(pl, st) && IsBits(Get(pl, st, o))
    requires InvertLoop(pl, st, ts, order).Some?
    ensures Get(pl, InvertLoop(pl, st, ts, order).value, o) == Flipped(Get(pl, st, o), Walks(pl.slots, ts, o))
  {
    InvertLoopNegates(pl, st, ts, order, o);
    NegatedFlipped(Get(pl, st, o), Walks(pl.slots, ts, o));
  }

  /** The inversion never touches an analog array. */
  lemma {:induction false} InvertBlocksKeepsAnalog(pl: Plan, st: Store, c: Ch, m: Marker, n: nat, o: Obj)
    requires Sized(pl, st) && n <= |pl.slots| && IsAnalog(o)
    ensures Get(pl, InvertBlocks(pl, st, c, m, n), o) == Get(pl, st, o)
  {
    if n > 0 {
      var st1 := InvertBlocks(pl, st, c, m, n - 1);
      var q := MarkerObj(pl.slots[n - 1], c, m);
      InvertBlocksKeepsAnalog(pl, st, c, m, n - 1, o);
      GetUpdate(pl, st1, q, LogicalNot(Get(pl, st1, q)), o);
    }
  }

  lemma {:induction false} InvertLoopKeepsAnalog(pl: Plan, st: Store, ts: seq<(Ch, Marker)>, order: seq<Ch>, o: Obj)
    requires Sized(pl, st) && IsAnalog(o) && InvertLoop(pl, st, ts, order).Some?
    ensures Get(pl, InvertLoop(pl, st, ts, order).value, o) == Get(pl, st, o)
    decreases |ts|
  {
    if ts != [] {
      var init, t := ts[..|ts| - 1], ts[|ts| - 1];
      var st1 := InvertLoop(pl, st, init, order).value;
      InvertLoopKeepsAnalog(pl, st, init, order, o);
      InvertBlocksKeepsAnalog(pl, st1, t.0, t.1, |pl.slots|, o);
    }
  }

  /** Number of positions holding slot s among the first n. */
  function SlotCount(slots: seq<Slot>, s: Slot, n: nat): nat
    requires n <= |slots|
  {
    if n == 0 then 0 else SlotCount(slots, s, n - 1) + (if slots[n - 1] == s then 1 else 0)
  }

  /** A gap's marker array is met at every position of its slot, whatever
      the channel and the marker: one entry of `inverted_log_channels`
      negates it once per such position. */
  lemma {:induction false} HitsShared(slots: seq<Slot>, c: Ch, m: Marker, o: Obj, n: nat)
    requires n <= |slots| && (o.MZeros? || o.MRem?)
    ensures Hits(slots, c, m, o, n) == SlotCount(slots, SlotOf(o), n)
  {
    if n > 0 {
      HitsShared(slots, c, m, o, n - 1);
    }
  }

  /** A content block's marker array is met only through its own channel and marker. */
  lemma {:induction false} HitsFill(slots: seq<Slot>, c: Ch, m: Marker, k: nat, d: Ch, mk: Marker, n: nat)
    requires n <= |slots|
    ensures Hits(slots, c, m, MFill(k, d, mk), n) ==
      if (c, m) == (d, mk) then SlotCount(slots, Fill(k), n) else 0
  {
    if n > 0 {
      HitsFill(slots, c, m, k, d, mk, n - 1);
    }
  }

  /** Every entry negates a gap's marker array as often as its slot occurs. */
  lemma {:induction false} WalksShared(slots: seq<Slot>, ts: seq<(Ch, Marker)>, o: Obj)
    requires o.MZeros? || o.MRem?
    ensures Walks(slots, ts, o) == |ts| * SlotCount(slots, SlotOf(o), |slots|)
    decreases |ts|
  {
    if ts != [] {
      WalksShared(slots, ts[..|ts| - 1], o);
      HitsShared(slots, ts[|ts| - 1].0, ts[|ts| - 1].1, o, |slots|);
    }
  }

  /** A content block met once is negated once per entry naming its channel and marker. */
  lemma {:induction false} WalksFill(slots: seq<Slot>, ts: seq<(Ch, Marker)>, k: nat, c: Ch, m: Marker)
    requires SlotCount(slots, Fill(k), |slots|) == 1
    ensures Walks(slots, ts, MFill(k, c, m)) == Occurrences(ts, (c, m))
    decreases |ts|
  {
    if ts != [] {
      var init, t := ts[..|ts| - 1], ts[|ts| - 1];
      assert ts == init + [t];
      WalksFill(slots, init, k, c, m);
      HitsFill(slots, t.0, t.1, k, c, m, |slots|);
    }
  }

  // ---------------------------------------------------------------------------
  // Packing
  // ---------------------------------------------------------------------------

  /** What `wfs` holds per block: the 16-bit words (`for_file`) or their
      bytes, low byte first. */
  datatype Blob = Bytes(bytes: seq<Byte>) | Words(words: seq<int>)

  function PackBlock(a: seq<int>, m1: seq<int>, m2: seq<int>, forFile: bool): Blob
    requires |m1| == |a| && |m2| == |a|
  {
    if forFile then Words(seq(|a|, i requires 0 <= i < |a| => Word(a[i], m1[i], m2[i])))
    else Bytes(PackSamples(a, m1, m2))
  }

  /** The packing of the block at slot s of channel c, from its own three arrays. */
  function BlockBlob(pl: Plan, st: Store, s: Slot, c: Ch, forFile: bool): Blob
    requires Sized(pl, st)
  {
    PackBlock(Get(pl, st, AnalogObj(s, c)), Get(pl, st, MarkerObj(s, c, Mk1)),
              Get(pl, st, MarkerObj(s, c, Mk2)), forFile)
  }

  /** Two positions sharing their analog array pack to the same value, so
      keying `already_added` on the analog array alone loses nothing. */
  lemma SameAnalogSameBlob(pl: Plan, st: Store, s: Slot, c: Ch, t: Slot, d: Ch, forFile: bool)
    requires Sized(pl, st) && AnalogObj(s, c) == AnalogObj(t, d)
    ensures BlockBlob(pl, st, s, c, forFile) == BlockBlob(pl, st, t, d, forFile)
  {
    MarkerFollowsAnalog(s, c, t, d, Mk1);
    MarkerFollowsAnalog(s, c, t, d, Mk2);
  }

  /** Every channel's list, block by block, each packed from its own arrays. */
  function Packed(pl: Plan, st: Store, order: seq<Ch>, forFile: bool): (r: map<Ch, seq<Blob>>)
    requires Sized(pl, st)
    ensures r.Keys == Elems(order)
    ensures forall c :: c in order ==> |r[c]| == |pl.slots|
  {
    map c | c in order :: ChannelBlobs(pl, st, c, forFile)
  }

  function ChannelBlobs(pl: Plan, st: Store, c: Ch, forFile: bool): (r: seq<Blob>)
    requires Sized(pl, st)
    ensures |r| == |pl.slots|
    ensures forall i :: 0 <= i < |pl.slots| ==> r[i] == BlockBlob(pl, st, pl.slots[i], c, forFile)
  {
    seq(|pl.slots|, i requires 0 <= i < |pl.slots| => BlockBlob(pl, st, pl.slots[i], c, forFile))
  }
}
