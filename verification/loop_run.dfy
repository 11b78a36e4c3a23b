/** `compile_loop` as the source runs it: loop by loop, each loop proved to
    compute its stage of the loop-mode specification. */
module AwgLoopRun {
  import opened Common
  import opened AwgContext
  import opened AwgCompile
  import opened AwgIntervals
  import opened AwgLayout
  import opened AwgLoop
  import opened AwgLoopCompile

  // ---------------------------------------------------------------------------
  // Intervals and layout
  // ---------------------------------------------------------------------------

  /** The loop appending `(start_index, stop_index)` for every pulse of non-zero duration. */
  method CollectIntervals(pulses: seq<Pulse>) returns (ivs: seq<Interval>)
    ensures ivs == PulseIntervals(pulses)
  {
    ivs := [];
    for i := 0 to |pulses|
      invariant ivs == PulseIntervals(pulses[..i])
    {
      var p := pulses[i];
      assert pulses[..i + 1][..i] == pulses[..i];
      if !p.zeroDuration {
        ivs := ivs + [(p.start, p.start + |p.waveform|)];
      }
    }
    assert pulses[..|pulses|] == pulses;
  }

  /** The intervals, blocks and repeats: sort, join the overlapping
      intervals, `merge_intervals`, then the filler and content loops; or
      the single block of the unfactored mode. */
  method BuildPlan(pulses: seq<Pulse>, len: int, factor: bool) returns (r: Option<Plan>)
    ensures r == MakePlan(pulses, len, factor)
  {
    if !factor {
      return Some(Plan([(0, len)], len, [Fill(0)], [1]));
    }
    var ivs := CollectIntervals(pulses);
    var sorted := SortIntervals(ivs);
    var joined := CoalesceInPlace(sorted, 0);
    var merged := MergeIntervals(joined, len);
    if merged.None? {
      return None;
    }
    MergeIntervalsSpecProps(joined, len);
    var slots, repeats := BuildLayout(merged.value, len);
    return Some(Plan(merged.value, len, slots, repeats));
  }

  /** The dictionaries `intervals_to_pulses_*[channel]` map an interval to the
      content block created for it; storing the positions, a later equal
      interval overwrites an earlier one. */
  ghost predicate Indexes(ivs: seq<Interval>, idx: map<Interval, nat>)
  {
    forall k {:trigger DictIndex(ivs, k)} :: 0 <= k < |ivs| ==> ivs[k] in idx && idx[ivs[k]] == DictIndex(ivs, k)
  }

  method IndexIntervals(ivs: seq<Interval>) returns (idx: map<Interval, nat>)
    ensures Indexes(ivs, idx)
  {
    idx := map[];
    for i := 0 to |ivs|
      invariant forall x :: x in idx ==> idx[x] < i && ivs[idx[x]] == x
      invariant forall x :: x in idx ==> forall j :: idx[x] < j < i ==> ivs[j] != x
      invariant forall k :: 0 <= k < i ==> ivs[k] in idx
    {
      idx := idx[ivs[i] := i];
    }
  }

  // ---------------------------------------------------------------------------
  // Rendering
  // ---------------------------------------------------------------------------

  /** `while intervals[interval_i][1] < start_index: interval_i += 1`. */
  method FindInterval(ivs: seq<Interval>, start: int) returns (r: Option<nat>)
    ensures r == Locate(ivs, start)
  {
    var i := 0;
    while i < |ivs| && ivs[i].1 < start
      invariant 0 <= i <= |ivs|
      invariant LocateFrom(ivs, start, i) == Locate(ivs, start)
    {
      i := i + 1;
    }
    if i == |ivs| {
      return None;
    }
    return Some(i);
  }

  /** One turn of the rendering loop: skip a pulse of zero duration, walk
      the intervals to the one the pulse starts in, then draw into the
      content block the dictionary gives for it. */
  method DrawOne(pl: Plan, idx: map<Interval, nat>, st: Store, p: Pulse) returns (d: Drawing)
    requires Sized(pl, st) && Indexes(pl.ivs, idx)
    ensures d == DrawPulse(pl, st, p)
  {
    if p.zeroDuration {
      return Drawn(st);
    }
    var k := FindInterval(pl.ivs, p.start);
    if k.None? {
      return DrawRaised(IndexError);
    }
    var iv := pl.ivs[k.value];
    ghost var j := DictIndex(pl.ivs, k.value);
    d := DrawIn(pl, st, p, iv, idx[iv]);
  }

  /** The rendering loop over the pulses, stopping at the first kind
      mismatch or exception. */
  method DrawPulses(pl: Plan, idx: map<Interval, nat>, st0: Store, pulses: seq<Pulse>) returns (d: Drawing)
    requires Sized(pl, st0) && Indexes(pl.ivs, idx)
    ensures d == DrawAll(pl, st0, pulses)
  {
    var st := st0;
    for i := 0 to |pulses|
      invariant Sized(pl, st) && DrawAll(pl, st0, pulses) == DrawAll(pl, st, pulses[i..])
    {
      assert pulses[i..][0] == pulses[i] && pulses[i..][1..] == pulses[i + 1..];
      var one := DrawOne(pl, idx, st, pulses[i]);
      if !one.Drawn? {
        return one;
      }
      st := one.st;
    }
    return Drawn(st);
  }

  // ---------------------------------------------------------------------------
  // Range check
  // ---------------------------------------------------------------------------

  /** The `if/elif` chain on one block, with `max()` and `min()`. */
  method CheckBlock(a: seq<int>, m1: seq<int>, m2: seq<int>) returns (r: Option<Option<Sub>>)
    ensures r == BlockCheck(a, m1, m2)
  {
    if |a| == 0 {
      return None;
    }
    var amax, amin := Extremes(a);
    if amax > AnalogMax || amin < 0 {
      return Some(Some(A));
    }
    if |m1| == 0 {
      return None;
    }
    var m1max, m1min := Extremes(m1);
    if m1max > 1 || m1min < 0 {
      return Some(Some(M1));
    }
    if |m2| == 0 {
      return None;
    }
    var m2max, m2min := Extremes(m2);
    if m2max > 1 || m2min < 0 {
      return Some(Some(M2));
    }
    return Some(None);
  }

  /** The inner loop over the blocks of one channel. */
  method CheckLoopChannel(pl: Plan, st: Store, c: Ch, e0: Errors) returns (r: Option<Errors>)
    requires Sized(pl, st)
    ensures r == CheckBlocks(pl, st, c, |pl.slots|, e0)
  {
    var e := e0;
    for i := 0 to |pl.slots|
      invariant CheckBlocks(pl, st, c, i, e0) == Some(e)
    {
      var s := pl.slots[i];
      var v := CheckBlock(Get(pl, st, AnalogObj(s, c)), Get(pl, st, MarkerObj(s, c, Mk1)),
                          Get(pl, st, MarkerObj(s, c, Mk2)));
      if v.None? {
        CheckBlocksRaise(pl, st, c, |pl.slots|, e0);
        assert Verdicts(pl, st, c)[i].None?;
        return None;
      }
      if v.value.Some? {
        e := e[SubKey(c, v.value.value) := SubError(v.value.value)];
      }
    }
    return Some(e);
  }

  /** The range check over the used channels. */
  method CheckLoopOverflows(pl: Plan, st: Store, order: seq<Ch>) returns (r: Option<Errors>)
    requires Sized(pl, st)
    ensures r == CheckAll(pl, st, order)
  {
    var e: Errors := map[];
    for k := 0 to |order|
      invariant CheckAll(pl, st, order[..k]) == Some(e)
    {
      assert order[..k + 1][..k] == order[..k];
      var r1 := CheckLoopChannel(pl, st, order[k], e);
      if r1.None? {
        CheckBlocksRaise(pl, st, order[k], |pl.slots|, e);
        CheckAllSpec(pl, st, order);
        return None;
      }
      e := r1.value;
    }
    assert order[..|order|] == order;
    return Some(e);
  }

  // ---------------------------------------------------------------------------
  // Marker inversion
  // ---------------------------------------------------------------------------

  /** `for waveform in array_Mk[ch]: np.logical_not(waveform, waveform)`. */
  method InvertLoopChannel(pl: Plan, st0: Store, c: Ch, m: Marker) returns (st: Store)
    requires Sized(pl, st0)
    ensures st == InvertBlocks(pl, st0, c, m, |pl.slots|)
  {
    st := st0;
    for i := 0 to |pl.slots|
      invariant st == InvertBlocks(pl, st0, c, m, i)
    {
      var o := MarkerObj(pl.slots[i], c, m);
      st := st[o := LogicalNot(Get(pl, st, o))];
    }
  }

  /** The loop over `inverted_log_channels`; an unused channel raises KeyError. */
  method InvertLoopMarkers(pl: Plan, st0: Store, ts: seq<(Ch, Marker)>, order: seq<Ch>) returns (r: Option<Store>)
    requires Sized(pl, st0)
    ensures r == InvertLoop(pl, st0, ts, order)
  {
    var st := st0;
    for k := 0 to |ts|
      invariant InvertLoop(pl, st0, ts[..k], order) == Some(st)
    {
      var t := ts[k];
      assert ts[..k + 1][..k] == ts[..k] && ts[..k + 1][k] == t;
      if t.0 !in order {
        InvertLoopRaises(pl, st0, ts, order);
        return None;
      }
      st := InvertLoopChannel(pl, st, t.0, t.1);
    }
    assert ts[..|ts|] == ts;
    return Some(st);
  }

  // ---------------------------------------------------------------------------
  // Packing
  // ---------------------------------------------------------------------------

  /** `already_added`, keyed by analog array, only ever holds the packing of
      a block whose analog array is that key. */
  ghost predicate AddedSound(pl: Plan, st: Store, added: map<Obj, Blob>, forFile: bool)
    requires Sized(pl, st)
  {
    forall s, c :: AnalogObj(s, c) in added ==> added[AnalogObj(s, c)] == BlockBlob(pl, st, s, c, forFile)
  }

  /** The packing loop of one channel: a block whose analog array was
      already packed reuses that packing, any other is packed and recorded. */
  method PackLoopChannel(pl: Plan, st: Store, c: Ch, forFile: bool, added0: map<Obj, Blob>)
    returns (blobs: seq<Blob>, added: map<Obj, Blob>)
    requires Sized(pl, st) && AddedSound(pl, st, added0, forFile)
    ensures blobs == ChannelBlobs(pl, st, c, forFile)
    ensures AddedSound(pl, st, added, forFile)
  {
    blobs, added := [], added0;
    for i := 0 to |pl.slots|
      invariant AddedSound(pl, st, added, forFile)
      invariant |blobs| == i && forall j :: 0 <= j < i ==> blobs[j] == BlockBlob(pl, st, pl.slots[j], c, forFile)
    {
      var s := pl.slots[i];
      var addr := AnalogObj(s, c);
      if addr in added {
        blobs := blobs + [added[addr]];
      } else {
        var b := PackBlock(Get(pl, st, addr), Get(pl, st, MarkerObj(s, c, Mk1)),
                           Get(pl, st, MarkerObj(s, c, Mk2)), forFile);
        forall t, d | AnalogObj(t, d) == addr
          ensures BlockBlob(pl, st, t, d, forFile) == b
        {
          SameAnalogSameBlob(pl, st, s, c, t, d, forFile);
        }
        blobs := blobs + [b];
        added := added[addr := b];
      }
    }
  }

  /** The packing loop over the used channels, sharing `already_added`. */
  method PackLoopWaveforms(pl: Plan, st: Store, order: seq<Ch>, forFile: bool)
    returns (wfs: map<Ch, seq<Blob>>)
    requires Sized(pl, st)
    ensures wfs == Packed(pl, st, order, forFile)
  {
    wfs := map[];
    var added: map<Obj, Blob> := map[];
    for k := 0 to |order|
      invariant AddedSound(pl, st, added, forFile)
      invariant wfs.Keys == Elems(order[..k])
      invariant forall c :: c in wfs ==> wfs[c] == ChannelBlobs(pl, st, c, forFile)
    {
      assert order[..k + 1] == order[..k] + [order[k]];
      var blobs;
      blobs, added := PackLoopChannel(pl, st, order[k], forFile, added);
      wfs := wfs[order[k] := blobs];
    }
    assert order[..|order|] == order;
  }

  // ---------------------------------------------------------------------------
  // compile_loop
  // ---------------------------------------------------------------------------

  /** `compile_loop(sequence, for_file, factor)`. */
  method CompileLoop(st: Settings, pre: Errors, pulses: seq<Pulse>, order: seq<Ch>,
                     len: int, factor: bool, forFile: bool) returns (out: LoopOutcome)
    ensures out == CompileLoopSpec(st, pre, pulses, order, len, factor, forFile)
  {
    if pre != map[] {
      return PreFailure(pre);
    }
    if pulses == [] {
      return LoopRaised(ValueError);
    }
    var plan := BuildPlan(pulses, len, factor);
    if plan.None? {
      return LoopRaised(IndexError);
    }
    var pl := plan.value;
    if !Allocatable(pl.ivs) {
      return LoopRaised(ValueError);
    }
    var idx := IndexIntervals(pl.ivs);
    var d := DrawPulses(pl, idx, map[], pulses);
    match d {
      case DrawRaised(e) =>
        return LoopRaised(e);
      case KindMismatch(p) =>
        return LoopFailure(map[KindIssueKey := KindIssue(p.index, p.kind, p.channel, p.sub)]);
      case Drawn(drawn) =>
        var traceback := CheckLoopOverflows(pl, drawn, order);
        if traceback.None? {
          return LoopRaised(ValueError);
        }
        if traceback.value != map[] {
          return LoopFailure(traceback.value);
        }
        var inv := InvertLoopMarkers(pl, drawn, st.invertedLogChannels, order);
        if inv.None? {
          return LoopRaised(KeyError);
        }
        var wfs := PackLoopWaveforms(pl, inv.value, order, forFile);
        var infos := BuildInfos(st.sequenceName, st.samplingFrequency, order);
        return LoopSuccess(wfs, pl.repeats, infos);
    }
  }
}
