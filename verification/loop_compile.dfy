/** The stages of the AWG5014 loop mode (`compile_loop`) put together: the
    intervals of the pulses, the block layout, the rendering, the range
    check, the marker inversion and the packing, with what each outcome
    guarantees. */
module AwgLoopCompile {
  import opened Common
  import opened AwgContext
  import opened AwgCompile
  import opened AwgIntervals
  import opened AwgLayout
  import opened AwgLoop

  /** What `compile_loop` returns: `(True, wfs, repeats, infos, {})`, the
      three-tuple `(False, {}, errors)` of a failed preprocessing, the
      five-tuple failure `(False, None, None, {}, traceback)`, or an
      exception. */
  datatype LoopOutcome =
    | LoopSuccess(wfs: map<Ch, seq<Blob>>, repeats: seq<int>, infos: Infos)
    | PreFailure(errors: Errors)
    | LoopFailure(errors: Errors)
    | LoopRaised(error: PyError)

  /** `(start_index, stop_index)` of a pulse. */
  function PulseInterval(p: Pulse): Interval
  {
    (p.start, p.start + |p.waveform|)
  }

  /** The intervals of the pulses of non-zero duration, in pulse order. */
  function PulseIntervals(ps: seq<Pulse>): (r: seq<Interval>)
    ensures |r| <= |ps|
    decreases |ps|
  {
    if ps == [] then []
    else
      var init := PulseIntervals(ps[..|ps| - 1]);
      var p := ps[|ps| - 1];
      if p.zeroDuration then init else init + [PulseInterval(p)]
  }

  /** The intervals are exactly those of the pulses of non-zero duration,
      and none of them is reversed. */
  lemma {:induction false} PulseIntervalsSpec(ps: seq<Pulse>)
    ensures forall p :: p in ps && !p.zeroDuration ==> PulseInterval(p) in PulseIntervals(ps)
    ensures forall x :: x in PulseIntervals(ps) ==>
      exists p :: p in ps && !p.zeroDuration && x == PulseInterval(p)
    ensures forall x :: x in PulseIntervals(ps) ==> 0 <= x.0 <= x.1
    ensures PulseIntervals(ps) == [] <==> forall p :: p in ps ==> p.zeroDuration
    decreases |ps|
  {
    if ps != [] {
      var init, p := ps[..|ps| - 1], ps[|ps| - 1];
      assert ps == init + [p];
      PulseIntervalsSpec(init);
    }
  }

  /** The intervals, blocks and repeats of the loop. With `factor`: the
      pulses' intervals sorted, joined where they overlap, then fixed by
      `merge_intervals`, whose first indexing raises IndexError (`None`)
      when no pulse has a duration. Without: one block spanning
      `[0, sequence_length)`, played once. */
  function MakePlan(pulses: seq<Pulse>, len: int, factor: bool): (r: Option<Plan>)
    ensures r.Some? ==> r.value.ivs != [] && r.value.len == len
  {
    if !factor then Some(Plan([(0, len)], len, [Fill(0)], [1]))
    else
      var joined := Coalesce(SortIntervals(PulseIntervals(pulses)), 0);
      match MergeIntervalsSpec(joined, len)
      case None => None
      case Some(ivs) =>
        MergeIntervalsSpecProps(joined, len);
        Some(Plan(ivs, len, LayoutSlots(ivs, len), LayoutRepeats(ivs, len)))
  }

  /** Making the plan fails exactly when it factors and no pulse has a duration. */
  lemma MakePlanRaises(pulses: seq<Pulse>, len: int, factor: bool)
    ensures MakePlan(pulses, len, factor).None? <==> factor && forall p :: p in pulses ==> p.zeroDuration
  {
    PulseIntervalsSpec(pulses);
  }

  /** Without factoring there is one block and one repeat; with it, there is
      one repeat per block plus one per interval that leaves no samples
      after it, so `repeats` can be longer than the block lists. */
  lemma MakePlanCounts(pulses: seq<Pulse>, len: int, factor: bool, pl: Plan)
    requires MakePlan(pulses, len, factor) == Some(pl)
    ensures !factor ==> pl.slots == [Fill(0)] && pl.repeats == [1] && pl.ivs == [(0, len)]
    ensures factor ==> |pl.repeats| == |pl.slots| + EmptyGaps(pl.ivs, len, |pl.ivs|)
    ensures |pl.slots| <= |pl.repeats|
  {
    if factor {
      RepeatsCount(pl.ivs, len);
    }
  }

  /** `compile_loop`: `pre` is what `preprocess_sequence` reported, `order`
      the iteration order of `used_channels`, `len` the `sequence_length`. */
  function CompileLoopSpec(st: Settings, pre: Errors, pulses: seq<Pulse>, order: seq<Ch>,
                           len: int, factor: bool, forFile: bool): LoopOutcome
  {
    if pre != map[] then PreFailure(pre)
    else if pulses == [] then LoopRaised(ValueError)
    else match MakePlan(pulses, len, factor)
      case None => LoopRaised(IndexError)
      case Some(pl) =>
        if !Allocatable(pl.ivs) then LoopRaised(ValueError)
        else match DrawAll(pl, map[], pulses)
          case DrawRaised(e) => LoopRaised(e)
          case KindMismatch(p) => LoopFailure(map[KindIssueKey := KindIssue(p.index, p.kind, p.channel, p.sub)])
          case Drawn(drawn) => Finish(st, pl, drawn, order, forFile)
  }

  /** After the rendering: the range check, then the inversion, then the packing. */
  function Finish(st: Settings, pl: Plan, drawn: Store, order: seq<Ch>, forFile: bool): LoopOutcome
    requires Sized(pl, drawn)
  {
    match CheckAll(pl, drawn, order)
    case None => LoopRaised(ValueError)
    case Some(e) =>
      if e != map[] then LoopFailure(e)
      else match InvertLoop(pl, drawn, st.invertedLogChannels, order)
        case None => LoopRaised(KeyError)
        case Some(inv) =>
          LoopSuccess(Packed(pl, inv, order, forFile), pl.repeats,
                      SequenceInfos(st.sequenceName, st.samplingFrequency, Elems(order)))
  }

  // ---------------------------------------------------------------------------
  // What each outcome guarantees
  // ---------------------------------------------------------------------------

  /** A pulse whose sub-channel does not match its kind makes the compilation
      fail with the single error `'Kind issue'` for that pulse, when the
      pulses before it were drawn: nothing is checked, inverted or packed. */
  lemma LoopKindIssue(st: Settings, pulses: seq<Pulse>, order: seq<Ch>, len: int, factor: bool,
                      forFile: bool, pl: Plan, j: nat)
    requires MakePlan(pulses, len, factor) == Some(pl) && Allocatable(pl.ivs)
    requires j < |pulses| && DrawAll(pl, map[], pulses[..j]).Drawn?
    requires !pulses[j].zeroDuration && Locate(pl.ivs, pulses[j].start).Some? && !KindMatches(pulses[j])
    ensures var p := pulses[j];
      CompileLoopSpec(st, map[], pulses, order, len, factor, forFile) ==
        LoopFailure(map[KindIssueKey := KindIssue(p.index, p.kind, p.channel, p.sub)])
  {
    DrawAllSplit(pl, map[], pulses, j);
    assert pulses[j..][0] == pulses[j];
  }

  /** Once every pulse is drawn, the compilation raises ValueError exactly
      when a block of a used channel is empty; otherwise it fails exactly
      when some block of a used channel is out of range, and then its
      traceback holds `<ch>_<sub>` for exactly the reported sub-channels. */
  lemma LoopOverflow(st: Settings, pulses: seq<Pulse>, order: seq<Ch>, len: int, factor: bool,
                     forFile: bool, pl: Plan, drawn: Store)
    requires pulses != [] && MakePlan(pulses, len, factor) == Some(pl) && Allocatable(pl.ivs)
    requires DrawAll(pl, map[], pulses) == Drawn(drawn)
    ensures var out := CompileLoopSpec(st, map[], pulses, order, len, factor, forFile);
      (out == LoopRaised(ValueError) <==> exists c :: c in order && Raises(pl, drawn, c, |pl.slots|)) &&
      (out.LoopFailure? <==>
        (forall c :: c in order ==> !Raises(pl, drawn, c, |pl.slots|)) &&
        exists c, s :: c in order && Reports(pl, drawn, c, s, |pl.slots|)) &&
      (out.LoopFailure? ==>
        (forall c, s :: SubKey(c, s) in out.errors <==> c in order && Reports(pl, drawn, c, s, |pl.slots|)) &&
        (forall c, s :: SubKey(c, s) in out.errors ==> out.errors[SubKey(c, s)] == SubError(s)) &&
        (forall k :: k in out.errors ==> exists c, s :: k == SubKey(c, s)))
  {
    assert CompileLoopSpec(st, map[], pulses, order, len, factor, forFile) == Finish(st, pl, drawn, order, forFile);
    FinishOverflow(st, pl, drawn, order, forFile);
  }

  /** The range check after drawing: an empty block raises; otherwise the
      traceback holds one error per channel and sub-channel out of range. */
  lemma FinishOverflow(st: Settings, pl: Plan, drawn: Store, order: seq<Ch>, forFile: bool)
    requires Sized(pl, drawn)
    ensures var out := Finish(st, pl, drawn, order, forFile);
      (out == LoopRaised(ValueError) <==> exists c :: c in order && Raises(pl, drawn, c, |pl.slots|)) &&
      (out.LoopFailure? <==>
        (forall c :: c in order ==> !Raises(pl, drawn, c, |pl.slots|)) &&
        exists c, s :: c in order && Reports(pl, drawn, c, s, |pl.slots|)) &&
      (out.LoopFailure? ==>
        (forall c, s :: SubKey(c, s) in out.errors <==> c in order && Reports(pl, drawn, c, s, |pl.slots|)) &&
        (forall c, s :: SubKey(c, s) in out.errors ==> out.errors[SubKey(c, s)] == SubError(s)) &&
        (forall k :: k in out.errors ==> exists c, s :: k == SubKey(c, s)))
  {
    CheckAllSpec(pl, drawn, order);
    if CheckAll(pl, drawn, order).Some? {
      var e := CheckAll(pl, drawn, order).value;
      if exists c, s :: c in order && Reports(pl, drawn, c, s, |pl.slots|) {
        var c, s :| c in order && Reports(pl, drawn, c, s, |pl.slots|);
        assert SubKey(c, s) in e;
      }
    }
  }

  /** After drawing, success means every block of every used channel passed
      the range check and every inverted channel is used. */
  lemma FinishSuccess(st: Settings, pl: Plan, drawn: Store, order: seq<Ch>, forFile: bool)
    requires Sized(pl, drawn) && Finish(st, pl, drawn, order, forFile).LoopSuccess?
    ensures forall c, i :: c in order && 0 <= i < |pl.slots| ==> Verdict(pl, drawn, c, i) == Some(None)
    ensures forall t :: t in st.invertedLogChannels ==> t.0 in order
  {
    CheckAllClean(pl, drawn, order);
    InvertLoopRaises(pl, drawn, st.invertedLogChannels, order);
  }

  /** A successful compilation drew every pulse, every block of every used
      channel passed the range check, and every inverted channel is used. */
  lemma LoopSuccessChecked(st: Settings, pre: Errors, pulses: seq<Pulse>, order: seq<Ch>, len: int,
                           factor: bool, forFile: bool, pl: Plan)
    requires MakePlan(pulses, len, factor) == Some(pl)
    requires CompileLoopSpec(st, pre, pulses, order, len, factor, forFile).LoopSuccess?
    ensures pre == map[] && pulses != [] && Allocatable(pl.ivs) && DrawAll(pl, map[], pulses).Drawn?
    ensures forall c, i :: c in order && 0 <= i < |pl.slots| ==>
      Verdict(pl, DrawAll(pl, map[], pulses).st, c, i) == Some(None)
    ensures forall t :: t in st.invertedLogChannels ==> t.0 in order
  {
    var drawn := DrawAll(pl, map[], pulses).st;
    assert CompileLoopSpec(st, pre, pulses, order, len, factor, forFile) == Finish(st, pl, drawn, order, forFile);
    FinishSuccess(st, pl, drawn, order, forFile);
  }

  /** A successful compilation returns the infos of the used channels, the
      plan's repeats, and for every used channel one packed block per block
      of the layout: the 16-bit words of each sample (`for_file`) or their
      two bytes. */
  lemma LoopSuccessShape(st: Settings, pre: Errors, pulses: seq<Pulse>, order: seq<Ch>, len: int,
                         factor: bool, forFile: bool, pl: Plan)
    requires MakePlan(pulses, len, factor) == Some(pl)
    requires CompileLoopSpec(st, pre, pulses, order, len, factor, forFile).LoopSuccess?
    ensures var out := CompileLoopSpec(st, pre, pulses, order, len, factor, forFile);
      out.infos == SequenceInfos(st.sequenceName, st.samplingFrequency, Elems(order)) &&
      out.repeats == pl.repeats && out.wfs.Keys == Elems(order) &&
      forall c :: c in order ==>
        |out.wfs[c]| == |pl.slots| &&
        forall i :: 0 <= i < |pl.slots| ==>
          var n := Size(pl, AnalogObj(pl.slots[i], c));
          if forFile then out.wfs[c][i].Words? && |out.wfs[c][i].words| == n
          else out.wfs[c][i].Bytes? && |out.wfs[c][i].bytes| == 2 * n
  {
    LoopSuccessChecked(st, pre, pulses, order, len, factor, forFile, pl);
  }

  /** On a block that passed the range check, every packed word fits 16
      bits and its low 14 bits are the analog sample as drawn: the inversion
      only ever touches markers, and whatever it does to them leaves 0/1
      samples. */
  lemma BlockWords(pl: Plan, drawn: Store, ts: seq<(Ch, Marker)>, order: seq<Ch>, c: Ch, i: nat, j: nat)
    requires Sized(pl, drawn) && i < |pl.slots| && Verdict(pl, drawn, c, i) == Some(None)
    requires InvertLoop(pl, drawn, ts, order).Some?
    requires j < Size(pl, AnalogObj(pl.slots[i], c))
    ensures var inv := InvertLoop(pl, drawn, ts, order).value;
      var w := BlockBlob(pl, inv, pl.slots[i], c, true).words[j];
      0 <= w < 0x1_0000 && w % 0x4000 == Get(pl, drawn, AnalogObj(pl.slots[i], c))[j]
  {
    var inv := InvertLoop(pl, drawn, ts, order).value;
    var s := pl.slots[i];
    var a, m1, m2 := AnalogObj(s, c), MarkerObj(s, c, Mk1), MarkerObj(s, c, Mk2);
    PassedBlock(Get(pl, drawn, a), Get(pl, drawn, m1), Get(pl, drawn, m2));
    InvertLoopKeepsAnalog(pl, drawn, ts, order, a);
    InvertedBits(pl, drawn, ts, order, m1);
    InvertedBits(pl, drawn, ts, order, m2);
    WordBits(Get(pl, inv, a), Get(pl, inv, m1), Get(pl, inv, m2), j);
  }

  /** A block that passed the range check holds in-range analog samples and 0/1 markers. */
  lemma PassedBlock(a: seq<int>, m1: seq<int>, m2: seq<int>)
    requires BlockCheck(a, m1, m2) == Some(None)
    ensures forall j :: 0 <= j < |a| ==> 0 <= a[j] <= AnalogMax
    ensures IsBits(m1) && IsBits(m2)
  {
    assert !AnalogOver(a) && !MarkerOver(m1) && !MarkerOver(m2);
  }

  /** 0/1 markers stay 0/1 through the inversion. */
  lemma InvertedBits(pl: Plan, drawn: Store, ts: seq<(Ch, Marker)>, order: seq<Ch>, o: Obj)
    requires Sized(pl, drawn) && IsBits(Get(pl, drawn, o)) && InvertLoop(pl, drawn, ts, order).Some?
    ensures IsBits(Get(pl, InvertLoop(pl, drawn, ts, order).value, o))
  {
    InvertLoopFlips(pl, drawn, ts, order, o);
    FlippedBits(Get(pl, drawn, o), Walks(pl.slots, ts, o));
  }

  /** The word of an in-range analog sample and two 0/1 markers fits 16 bits
      and keeps the analog sample in its low 14 bits. */
  lemma WordBits(a: seq<int>, m1: seq<int>, m2: seq<int>, j: nat)
    requires |m1| == |a| && |m2| == |a| && j < |a|
    requires 0 <= a[j] <= AnalogMax && IsBits(m1) && IsBits(m2)
    ensures var w := PackBlock(a, m1, m2, true).words[j];
      0 <= w < 0x1_0000 && w % 0x4000 == a[j]
  {
    var k := m1[j] + 2 * m2[j];
    assert PackBlock(a, m1, m2, true).words[j] == k * 0x4000 + a[j];
  }

  /** On success with `for_file`, every word of every used channel fits 16
      bits and carries the drawn analog sample in its low 14 bits. */
  lemma LoopWords(st: Settings, pulses: seq<Pulse>, order: seq<Ch>, len: int, factor: bool,
                  pl: Plan, c: Ch, i: nat, j: nat)
    requires MakePlan(pulses, len, factor) == Some(pl)
    requires CompileLoopSpec(st, map[], pulses, order, len, factor, true).LoopSuccess?
    requires c in order && i < |pl.slots| && j < Size(pl, AnalogObj(pl.slots[i], c))
    ensures pulses != [] && Allocatable(pl.ivs) && DrawAll(pl, map[], pulses).Drawn?
    ensures var w := CompileLoopSpec(st, map[], pulses, order, len, factor, true).wfs[c][i].words[j];
      0 <= w < 0x1_0000 && w % 0x4000 == Get(pl, DrawAll(pl, map[], pulses).st, AnalogObj(pl.slots[i], c))[j]
  {
    LoopSuccessChecked(st, map[], pulses, order, len, factor, true, pl);
    var drawn := DrawAll(pl, map[], pulses).st;
    BlockWords(pl, drawn, st.invertedLogChannels, order, c, i, j);
  }

  /** 1 when an array of zeros was negated an odd number of times. */
  function Parity(k: int): int
  {
    k % 2
  }

  /** An array of zeros negated k times holds `Parity(k)` everywhere. */
  lemma FlippedZeros(n: nat, k: nat)
    ensures Flipped(seq(n, _ => 0), k) == seq(n, _ => Parity(k))
  {
    var z := seq(n, _ => 0);
    if k % 2 == 1 {
      assert forall i :: 0 <= i < n ==> LogicalNot(z)[i] == 1;
    }
  }

  /** A gap's analog array keeps 2^13 and its marker array is the zero
      array negated once for every entry of `inverted_log_channels` and every
      position of the gap's block in the layout; M1 and M2 of every channel
      are that same array. */
  lemma GapArrays(pl: Plan, pulses: seq<Pulse>, ts: seq<(Ch, Marker)>, order: seq<Ch>,
                   drawn: Store, inv: Store, s: Slot, c: Ch, m: Marker)
    requires DrawAll(pl, map[], pulses) == Drawn(drawn) && !s.Fill?
    requires InvertLoop(pl, drawn, ts, order) == Some(inv)
    ensures var n := Size(pl, AnalogObj(s, c));
      Get(pl, inv, AnalogObj(s, c)) == seq(n, _ => MidScale) &&
      Get(pl, inv, MarkerObj(s, c, m)) == seq(n, _ => Parity(|ts| * SlotCount(pl.slots, s, |pl.slots|)))
  {
    var a, o := AnalogObj(s, c), MarkerObj(s, c, m);
    var n := Size(pl, a);
    assert Size(pl, o) == n;
    DrawAllKeepsGaps(pl, map[], pulses, a);
    DrawAllKeepsGaps(pl, map[], pulses, o);
    InvertLoopKeepsAnalog(pl, drawn, ts, order, a);
    assert Get(pl, drawn, o) == seq(n, _ => 0);
    InvertLoopFlips(pl, drawn, ts, order, o);
    WalksShared(pl.slots, ts, o);
    FlippedZeros(n, Walks(pl.slots, ts, o));
  }

  /** On success with `for_file`, a block of a gap packs, in every channel
      alike, to words of 2^13 with both markers equal to the parity of the
      number of times the shared marker array was negated: one inverted
      logical channel sets both markers of every channel in a gap whose
      block occurs once, and an even number of zero blocks cancels out. */
  lemma LoopGapWords(st: Settings, pulses: seq<Pulse>, order: seq<Ch>, len: int, factor: bool,
                     pl: Plan, c: Ch, i: nat)
    requires MakePlan(pulses, len, factor) == Some(pl)
    requires CompileLoopSpec(st, map[], pulses, order, len, factor, true).LoopSuccess?
    requires c in order && i < |pl.slots| && !pl.slots[i].Fill?
    ensures var out, ts, s := CompileLoopSpec(st, map[], pulses, order, len, factor, true),
                               st.invertedLogChannels, pl.slots[i];
      var f := Parity(|ts| * SlotCount(pl.slots, s, |pl.slots|));
      c in out.wfs && i < |out.wfs[c]| &&
      out.wfs[c][i] == Words(seq(Size(pl, AnalogObj(s, c)), _ => Word(MidScale, f, f)))
  {
    LoopSuccessChecked(st, map[], pulses, order, len, factor, true, pl);
    var ts, s := st.invertedLogChannels, pl.slots[i];
    var drawn := DrawAll(pl, map[], pulses).st;
    var inv := InvertLoop(pl, drawn, ts, order).value;
    var out := CompileLoopSpec(st, map[], pulses, order, len, factor, true);
    assert out == Finish(st, pl, drawn, order, true);
    assert out.wfs == Packed(pl, inv, order, true);
    GapBlob(pl, pulses, ts, order, drawn, inv, s, c);
    assert out.wfs[c][i] == BlockBlob(pl, inv, s, c, true);
  }

  lemma GapBlob(pl: Plan, pulses: seq<Pulse>, ts: seq<(Ch, Marker)>, order: seq<Ch>,
                drawn: Store, inv: Store, s: Slot, c: Ch)
    requires DrawAll(pl, map[], pulses) == Drawn(drawn) && !s.Fill?
    requires InvertLoop(pl, drawn, ts, order) == Some(inv)
    ensures var f := Parity(|ts| * SlotCount(pl.slots, s, |pl.slots|));
      BlockBlob(pl, inv, s, c, true) == Words(seq(Size(pl, AnalogObj(s, c)), _ => Word(MidScale, f, f)))
  {
    GapArrays(pl, pulses, ts, order, drawn, inv, s, c, Mk1);
    GapArrays(pl, pulses, ts, order, drawn, inv, s, c, Mk2);
  }
}
