/** The direct compilation path of the AWG5014 context after rendering:
    range check, marker inversion, packing into 16-bit words and the
    sequence infos (awg_context.py, `compile_and_transfer_sequence`). */
module AwgCompile {
  import opened Common
  import opened AwgContext

  // ---------------------------------------------------------------------------
  // Range check
  // ---------------------------------------------------------------------------

  /** `analog.max() > 16383 or analog.min() < 0` on a non-empty buffer. */
  predicate AnalogOver(a: seq<int>)
  {
    exists i :: 0 <= i < |a| && (a[i] > AnalogMax || a[i] < 0)
  }

  /** `m.max() > 1 or m.min() < 0` on a non-empty marker buffer. */
  predicate MarkerOver(m: seq<int>)
  {
    exists i :: 0 <= i < |m| && (m[i] > 1 || m[i] < 0)
  }

  /** All three buffers of channel c exist. */
  predicate HasChannel(b: Bufs, c: Ch)
  {
    c in b.analog && c in b.m1 && c in b.m2
  }

  /** The `if/elif` chain of one channel: at most one error, the analog test first. */
  function ChannelError(b: Bufs, c: Ch): (r: Option<(string, ErrorMsg)>)
    requires HasChannel(b, c)
  {
    if AnalogOver(b.analog[c]) then Some((SubKey(c, A), AnalogOutOfRange))
    else if MarkerOver(b.m1[c]) then Some((SubKey(c, M1), Marker1Overflow))
    else if MarkerOver(b.m2[c]) then Some((SubKey(c, M2), Marker2Overflow))
    else None
  }

  /** The `traceback` dictionary after checking the channels of cs in order. */
  function OverflowErrors(b: Bufs, cs: seq<Ch>): Errors
    requires forall c :: c in cs ==> HasChannel(b, c)
    decreases |cs|
  {
    if cs == [] then map[]
    else
      var e := OverflowErrors(b, cs[..|cs| - 1]);
      match ChannelError(b, cs[|cs| - 1])
      case None => e
      case Some(kv) => e[kv.0 := kv.1]
  }

  lemma SubKeyInjective(c: Ch, s: Sub, d: Ch, t: Sub)
    requires SubKey(c, s) == SubKey(d, t)
    ensures c == d && s == t
  {
    var k, l := SubKey(c, s), SubKey(d, t);
    assert k[2] == DigitChar(c) && l[2] == DigitChar(d);
    DigitCharInjective(c, d);
    assert k[4..] == SubName(s) && l[4..] == SubName(t);
  }

  /** The verdict of the `if/elif` chain for sub-channel s of channel c. */
  predicate Fails(b: Bufs, c: Ch, s: Sub)
    requires HasChannel(b, c)
  {
    match s
    case A => AnalogOver(b.analog[c])
    case M1 => !AnalogOver(b.analog[c]) && MarkerOver(b.m1[c])
    case M2 => !AnalogOver(b.analog[c]) && !MarkerOver(b.m1[c]) && MarkerOver(b.m2[c])
  }

  lemma ChannelErrorKey(b: Bufs, d: Ch, c: Ch, s: Sub)
    requires HasChannel(b, d) && HasChannel(b, c)
    ensures (ChannelError(b, d).Some? && ChannelError(b, d).value.0 == SubKey(c, s))
            <==> c == d && Fails(b, c, s)
  {
    if ChannelError(b, d).Some? && ChannelError(b, d).value.0 == SubKey(c, s) {
      if AnalogOver(b.analog[d]) { SubKeyInjective(c, s, d, A); }
      else if MarkerOver(b.m1[d]) { SubKeyInjective(c, s, d, M1); }
      else { SubKeyInjective(c, s, d, M2); }
    }
  }

  /** The error dictionary names exactly the failing sub-channels: the
      analog test wins over marker 1, which wins over marker 2, so each
      channel reports at most one error, and unchecked channels none. */
  lemma {:induction false} OverflowErrorsKeys(b: Bufs, cs: seq<Ch>, c: Ch, s: Sub)
    requires forall d :: d in cs ==> HasChannel(b, d)
    requires HasChannel(b, c)
    ensures SubKey(c, s) in OverflowErrors(b, cs) <==> c in cs && Fails(b, c, s)
    decreases |cs|
  {
    if cs != [] {
      var init, last := cs[..|cs| - 1], cs[|cs| - 1];
      assert forall d :: d in init ==> d in cs;
      assert forall d :: d in cs <==> d in init || d == last;
      OverflowErrorsKeys(b, init, c, s);
      ChannelErrorKey(b, last, c, s);
    }
  }

  /** No error at all exactly when every checked buffer is in range. */
  lemma {:induction false} OverflowErrorsEmpty(b: Bufs, cs: seq<Ch>)
    requires forall d :: d in cs ==> HasChannel(b, d)
    ensures OverflowErrors(b, cs) == map[] <==>
      forall c :: c in cs ==> !AnalogOver(b.analog[c]) && !MarkerOver(b.m1[c]) && !MarkerOver(b.m2[c])
    decreases |cs|
  {
    if cs != [] {
      var init, last := cs[..|cs| - 1], cs[|cs| - 1];
      assert forall d :: d in init ==> d in cs;
      assert forall d :: d in cs ==> d in init || d == last;
      OverflowErrorsEmpty(b, init);
      if ChannelError(b, last).Some? {
        assert ChannelError(b, last).value.0 in OverflowErrors(b, cs);
      } else {
        assert OverflowErrors(b, cs) == OverflowErrors(b, init);
      }
    }
  }

  // ---------------------------------------------------------------------------
  // Marker inversion
  // ---------------------------------------------------------------------------

  function MarkerSub(m: Marker): Sub
  {
    match m
    case Mk1 => M1
    case Mk2 => M2
  }

  /** `np.logical_not(x, x)` on an int8 buffer: 1 where x is 0, else 0. */
  function LogicalNot(m: seq<int>): (r: seq<int>)
    ensures |r| == |m|
  {
    seq(|m|, i requires 0 <= i < |m| => if m[i] == 0 then 1 else 0)
  }

  predicate IsBits(m: seq<int>)
  {
    forall i :: 0 <= i < |m| ==> m[i] == 0 || m[i] == 1
  }

  /** On 0/1 samples, logical negation flips every bit and is an involution. */
  lemma LogicalNotFlips(m: seq<int>)
    requires IsBits(m)
    ensures IsBits(LogicalNot(m))
    ensures forall i :: 0 <= i < |m| ==> LogicalNot(m)[i] == 1 - m[i]
    ensures LogicalNot(LogicalNot(m)) == m
  {
  }

  /** One entry `ChN_Mk` of `inverted_log_channels`; an unused channel raises KeyError. */
  function InvertOne(b: Bufs, t: (Ch, Marker)): Option<Bufs>
  {
    var s := MarkerSub(t.1);
    if t.0 in Buffer(b, s) then Some(WithBuffer(b, s, t.0, LogicalNot(Buffer(b, s)[t.0])))
    else None
  }

  /** The inversion loop over `inverted_log_channels`, in order. */
  function InvertAll(b: Bufs, ts: seq<(Ch, Marker)>): Option<Bufs>
    decreases |ts|
  {
    if ts == [] then Some(b)
    else match InvertOne(b, ts[0])
      case None => None
      case Some(b1) => InvertAll(b1, ts[1..])
  }

  /** Number of times an entry occurs in the list. */
  function Occurrences(ts: seq<(Ch, Marker)>, t: (Ch, Marker)): nat
  {
    multiset(ts)[t]
  }

  /** Inversion raises exactly when an entry names an unused channel;
      otherwise the analog buffers and the channel sets are untouched. */
  lemma {:induction false} InvertAllShape(b: Bufs, ts: seq<(Ch, Marker)>)
    ensures InvertAll(b, ts).None? <==> exists t :: t in ts && t.0 !in Buffer(b, MarkerSub(t.1))
    ensures InvertAll(b, ts).Some? ==>
      InvertAll(b, ts).value.analog == b.analog &&
      forall s :: Buffer(InvertAll(b, ts).value, s).Keys == Buffer(b, s).Keys
    decreases |ts|
  {
    if ts != [] {
      var t := ts[0];
      assert forall u :: u in ts <==> u == t || u in ts[1..];
      if InvertOne(b, t).Some? {
        var b1 := InvertOne(b, t).value;
        assert forall s :: Buffer(b1, s).Keys == Buffer(b, s).Keys;
        InvertAllShape(b1, ts[1..]);
      }
    }
  }

  /** Each marker buffer ends up negated once per occurrence of its entry
      (it holds 0/1 samples after the range check). */
  lemma {:induction false} InvertAllFlips(b: Bufs, ts: seq<(Ch, Marker)>, c: Ch, mk: Marker)
    requires c in Buffer(b, MarkerSub(mk)) && IsBits(Buffer(b, MarkerSub(mk))[c])
    requires InvertAll(b, ts).Some?
    ensures c in Buffer(InvertAll(b, ts).value, MarkerSub(mk))
    ensures Buffer(InvertAll(b, ts).value, MarkerSub(mk))[c]
            == Flipped(Buffer(b, MarkerSub(mk))[c], Occurrences(ts, (c, mk)))
    decreases |ts|
  {
    var s, m := MarkerSub(mk), Buffer(b, MarkerSub(mk))[c];
    if ts == [] {
      assert Occurrences(ts, (c, mk)) == 0;
    } else {
      var t := ts[0];
      assert ts == [t] + ts[1..];
      assert Occurrences(ts, (c, mk)) == (if t == (c, mk) then 1 else 0) + Occurrences(ts[1..], (c, mk));
      var b1 := InvertOne(b, t).value;
      if t == (c, mk) {
        LogicalNotFlips(m);
        assert Buffer(b1, s)[c] == LogicalNot(m);
        InvertAllFlips(b1, ts[1..], c, mk);
        FlippedStep(m, Occurrences(ts[1..], (c, mk)));
      } else {
        assert MarkerSub(t.1) != s || t.0 != c;
        assert Buffer(b1, s)[c] == m;
        InvertAllFlips(b1, ts[1..], c, mk);
      }
    }
  }

  /** A 0/1 buffer negated k times: negated when k is odd, unchanged when even. */
  function Flipped(m: seq<int>, k: nat): seq<int>
  {
    if k % 2 == 0 then m else LogicalNot(m)
  }

  lemma FlippedStep(m: seq<int>, k: nat)
    requires IsBits(m)
    ensures Flipped(LogicalNot(m), k) == Flipped(m, k + 1)
  {
    LogicalNotFlips(m);
  }

  /** Inversion keeps every buffer's length. */
  lemma {:induction false} InvertAllShaped(b: Bufs, ts: seq<(Ch, Marker)>, chans: set<Ch>, n: nat)
    requires Shaped(b, chans, n)
    ensures InvertAll(b, ts).Some? ==> Shaped(InvertAll(b, ts).value, chans, n)
    decreases |ts|
  {
    if ts != [] && InvertOne(b, ts[0]).Some? {
      InvertAllShaped(InvertOne(b, ts[0]).value, ts[1..], chans, n);
    }
  }

  // ---------------------------------------------------------------------------
  // Packing
  // ---------------------------------------------------------------------------

  /** The instrument word of one sample: 14 analog bits, then M1, then M2. */
  function Word(a: int, m1: int, m2: int): int
  {
    a + m1 * 0x4000 + m2 * 0x8000
  }

  /** `aux[::2] = array % 2**8; aux[1::2] = array // 2**8` into a uint8 array. */
  function PackSamples(a: seq<int>, m1: seq<int>, m2: seq<int>): (r: seq<Byte>)
    requires |m1| == |a| && |m2| == |a|
    ensures |r| == 2 * |a|
  {
    seq(2 * |a|, j requires 0 <= j < 2 * |a| =>
      var w := Word(a[j / 2], m1[j / 2], m2[j / 2]);
      if j % 2 == 0 then w % 256 else (w / 256) % 256)
  }

  /** How the instrument reads a word back from its two bytes. */
  function DecodeWord(lo: Byte, hi: Byte): (int, int, int)
  {
    var w := lo + 256 * hi;
    (w % 0x4000, (w / 0x4000) % 2, w / 0x8000)
  }

  /** For an in-range analog sample and 0/1 markers, byte 2i is the low byte
      of the word, byte 2i+1 its high byte, and decoding them gives back the
      three samples. */
  lemma PackRoundTrip(a: seq<int>, m1: seq<int>, m2: seq<int>, i: int)
    requires |m1| == |a| && |m2| == |a| && 0 <= i < |a|
    requires 0 <= a[i] <= AnalogMax && 0 <= m1[i] <= 1 && 0 <= m2[i] <= 1
    ensures var r, w := PackSamples(a, m1, m2), Word(a[i], m1[i], m2[i]);
      0 <= w < 0x1_0000 && r[2 * i] == w % 256 && r[2 * i + 1] == w / 256 &&
      DecodeWord(r[2 * i], r[2 * i + 1]) == (a[i], m1[i], m2[i])
  {
    var r, w := PackSamples(a, m1, m2), Word(a[i], m1[i], m2[i]);
    var k := m1[i] + 2 * m2[i];
    assert w == k * 0x4000 + a[i];
    assert 0 <= w < 0x1_0000;
    assert (2 * i) / 2 == i && (2 * i + 1) / 2 == i;
    assert (2 * i) % 2 == 0 && (2 * i + 1) % 2 == 1;
    var lo, hi := w % 256, w / 256;
    assert 0 <= hi < 256;
    assert hi % 256 == hi;
    assert r[2 * i] == lo && r[2 * i + 1] == hi;
    assert lo + 256 * hi == w;
    assert w / 0x4000 == k && w % 0x4000 == a[i];
    assert k % 2 == m1[i];
    assert w / 0x8000 == m2[i];
  }

  /** `np.empty` filled two bytes per sample, as the packing loop does. */
  method PackChannel(a: seq<int>, m1: seq<int>, m2: seq<int>) returns (r: seq<Byte>)
    requires |m1| == |a| && |m2| == |a|
    ensures r == PackSamples(a, m1, m2)
  {
    var aux := new Byte[2 * |a|];
    var i := 0;
    while i < |a|
      invariant 0 <= i <= |a|
      invariant forall j :: 0 <= j < 2 * i ==> aux[j] == PackSamples(a, m1, m2)[j]
    {
      var w := Word(a[i], m1[i], m2[i]);
      aux[2 * i] := w % 256;
      aux[2 * i + 1] := (w / 256) % 256;
      i := i + 1;
    }
    r := aux[..];
  }

  /** Channel c has all three buffers, each of length n. */
  predicate ChannelShaped(b: Bufs, c: Ch, n: nat)
  {
    HasChannel(b, c) && |b.analog[c]| == n && |b.m1[c]| == n && |b.m2[c]| == n
  }

  /** The `to_send` dictionary built by the packing loop over cs. */
  function ToSendOf(b: Bufs, cs: seq<Ch>, ghost n: nat): map<Ch, seq<Byte>>
    requires forall c :: c in cs ==> ChannelShaped(b, c, n)
    decreases |cs|
  {
    if cs == [] then map[]
    else
      var c := cs[|cs| - 1];
      assert c in cs && ChannelShaped(b, c, n);
      ToSendOf(b, cs[..|cs| - 1], n)[c := PackSamples(b.analog[c], b.m1[c], b.m2[c])]
  }

  /** One byte array per used channel, keyed by its number, holding its packed samples. */
  lemma {:induction false} ToSendOfSpec(b: Bufs, cs: seq<Ch>, n: nat)
    requires forall c :: c in cs ==> ChannelShaped(b, c, n)
    ensures ToSendOf(b, cs, n).Keys == Elems(cs)
    ensures forall c :: c in cs ==>
      ToSendOf(b, cs, n)[c] == PackSamples(b.analog[c], b.m1[c], b.m2[c]) &&
      |ToSendOf(b, cs, n)[c]| == 2 * n
    decreases |cs|
  {
    if cs != [] {
      assert forall c :: c in cs <==> c in cs[..|cs| - 1] || c == cs[|cs| - 1];
      ToSendOfSpec(b, cs[..|cs| - 1], n);
    }
  }

  // ---------------------------------------------------------------------------
  // Sequence infos
  // ---------------------------------------------------------------------------

  const SamplingKey: string := "sampling_frequency"

  /** The value of `sequence_chN`: `name + '_' + 'ChN'` for a used channel. */
  function ChannelInfo(name: string, used: set<Ch>, c: Ch): InfoValue
  {
    Name(if c in used then name + "_" + ChName(c) else "")
  }

  /** The infos of a successful compilation. */
  function SequenceInfos(name: string, hz: real, used: set<Ch>): Infos
  {
    map[SamplingKey := Frequency(hz),
        "sequence_ch1" := ChannelInfo(name, used, 1),
        "sequence_ch2" := ChannelInfo(name, used, 2),
        "sequence_ch3" := ChannelInfo(name, used, 3),
        "sequence_ch4" := ChannelInfo(name, used, 4)]
  }

  /** `list_sequence_infos`: the infos a successful compilation returns, as a template. */
  function ListSequenceInfos(): (r: Infos)
    ensures r.Keys == {SamplingKey, InfoKey(1), InfoKey(2), InfoKey(3), InfoKey(4)}
  {
    InfoKeyLiterals();
    map[SamplingKey := Frequency(1e9),
        "sequence_ch1" := Name("Seq_Ch1"),
        "sequence_ch2" := Name("Seq_Ch2"),
        "sequence_ch3" := Name("Seq_Ch3"),
        "sequence_ch4" := Name("Seq_Ch4")]
  }

  lemma InfoKeyLiterals()
    ensures InfoKey(1) == "sequence_ch1" && InfoKey(2) == "sequence_ch2"
    ensures InfoKey(3) == "sequence_ch3" && InfoKey(4) == "sequence_ch4"
  {
  }

  /** The infos of a compilation carry the same keys as `list_sequence_infos`,
      the frequency, and the per-channel names. */
  lemma SequenceInfosSpec(name: string, hz: real, used: set<Ch>)
    ensures SequenceInfos(name, hz, used).Keys == ListSequenceInfos().Keys
    ensures SequenceInfos(name, hz, used)[SamplingKey] == Frequency(hz)
    ensures forall c: Ch :: (SequenceInfos(name, hz, used)[InfoKey(c)] ==
      Name(if c in used then name + "_" + ChName(c) else ""))
  {
    InfoKeyLiterals();
  }

  /** Recording one more used channel in the infos. */
  lemma SequenceInfosAdd(name: string, hz: real, used: set<Ch>, c: Ch)
    ensures SequenceInfos(name, hz, used)[InfoKey(c) := Name(name + "_" + ChName(c))]
            == SequenceInfos(name, hz, used + {c})
  {
    InfoKeyLiterals();
    var u := used + {c};
    assert ChannelInfo(name, u, c) == Name(name + "_" + ChName(c));
    assert forall d: Ch :: d != c ==> ChannelInfo(name, u, d) == ChannelInfo(name, used, d);
  }

  /** The infos loop: defaults first, then one entry per used channel. */
  method BuildInfos(name: string, hz: real, order: seq<Ch>) returns (infos: Infos)
    ensures infos == SequenceInfos(name, hz, Elems(order))
  {
    infos := map[SamplingKey := Frequency(hz),
                 "sequence_ch1" := Name(""), "sequence_ch2" := Name(""),
                 "sequence_ch3" := Name(""), "sequence_ch4" := Name("")];
    assert Elems(order[..0]) == {};
    var k := 0;
    while k < |order|
      invariant 0 <= k <= |order|
      invariant infos == SequenceInfos(name, hz, Elems(order[..k]))
    {
      var c := order[k];
      SequenceInfosAdd(name, hz, Elems(order[..k]), c);
      infos := infos[InfoKey(c) := Name(name + "_" + ChName(c))];
      assert Elems(order[..k + 1]) == Elems(order[..k]) + {c} by {
        assert order[..k + 1] == order[..k] + [c];
      }
      k := k + 1;
    }
    assert order[..k] == order;
  }

  // ---------------------------------------------------------------------------
  // compile_and_transfer_sequence, without the transfer
  // ---------------------------------------------------------------------------

  /** The context's user settings used by the direct path. */
  datatype Settings = Settings(
    sequenceName: string,
    samplingFrequency: real,
    selectAfterTransfer: bool,
    clearUnusedChannels: bool,
    runAfterTransfer: bool,
    invertedLogChannels: seq<(Ch, Marker)>)

  lemma ShapedChannels(b: Bufs, order: seq<Ch>, n: nat)
    requires Shaped(b, Elems(order), n)
    ensures forall c :: c in order ==> ChannelShaped(b, c, n)
  {
    forall c | c in order ensures ChannelShaped(b, c, n) {
      assert c in Elems(order);
      assert c in Buffer(b, A) && c in Buffer(b, M1) && c in Buffer(b, M2);
    }
  }

  lemma PulsesInChannels(pulses: seq<Pulse>, order: seq<Ch>)
    requires forall p :: p in pulses ==> p.channel in order
    ensures forall p :: p in pulses ==> p.channel in Elems(order)
  {
  }

  /** What the direct compilation returns. `pre` is what `preprocess_sequence`
      reported, `order` the iteration order of the used channels and `n` the
      sequence length in samples. */
  function CompileSpec(st: Settings, pre: Errors, pulses: seq<Pulse>, order: seq<Ch>, n: nat): Outcome
    requires forall p :: p in pulses ==> p.channel in order
  {
    if pre != map[] then Failure(pre)
    else if pulses == [] then Raised(ValueError)
    else
      PulsesInChannels(pulses, order);
      match RenderAll(InitBufs(order, n), pulses, Elems(order), n)
      case Mismatch(p) => Failure(map[KindIssueKey := KindIssue(p.index, p.kind, p.channel, p.sub)])
      case RenderRaised(e) => Raised(e)
      case Rendered(b) =>
        if n == 0 then Raised(ValueError)
        else
          ShapedChannels(b, order, n);
          var errs := OverflowErrors(b, order);
          if errs != map[] then Failure(errs)
          else
            InvertAllShaped(b, st.invertedLogChannels, Elems(order), n);
            match InvertAll(b, st.invertedLogChannels)
            case None => Raised(KeyError)
            case Some(b2) =>
              ShapedChannels(b2, order, n);
              Success(SequenceInfos(st.sequenceName, st.samplingFrequency, Elems(order)),
                      ToSendOf(b2, order, n))
  }

  /** `x.max()` and `x.min()` of a non-empty array. */
  method Extremes(s: seq<int>) returns (mx: int, mn: int)
    requires |s| > 0
    ensures mx in s && mn in s
    ensures forall i :: 0 <= i < |s| ==> mn <= s[i] <= mx
  {
    mx, mn := s[0], s[0];
    var i := 1;
    while i < |s|
      invariant 1 <= i <= |s|
      invariant mx in s[..i] && mn in s[..i]
      invariant forall j :: 0 <= j < i ==> mn <= s[j] <= mx
    {
      if s[i] > mx { mx := s[i]; }
      if s[i] < mn { mn := s[i]; }
      i := i + 1;
    }
  }

  lemma InitBufsAdd(order: seq<Ch>, c: Ch, n: nat)
    ensures InitBufs(order + [c], n) ==
      var b := InitBufs(order, n);
      Bufs(b.analog[c := seq(n, _ => MidScale)], b.m1[c := seq(n, _ => 0)], b.m2[c := seq(n, _ => 0)])
  {
    assert forall d :: d in order + [c] <==> d in order || d == c;
  }

  /** The range check of one channel, as the `if/elif` chain does it. */
  method CheckChannel(b: Bufs, c: Ch) returns (r: Option<(string, ErrorMsg)>)
    requires HasChannel(b, c) && |b.analog[c]| > 0 && |b.m1[c]| > 0 && |b.m2[c]| > 0
    ensures r == ChannelError(b, c)
  {
    var amax, amin := Extremes(b.analog[c]);
    if amax > AnalogMax || amin < 0 {
      return Some((SubKey(c, A), AnalogOutOfRange));
    }
    var m1max, m1min := Extremes(b.m1[c]);
    if m1max > 1 || m1min < 0 {
      return Some((SubKey(c, M1), Marker1Overflow));
    }
    var m2max, m2min := Extremes(b.m2[c]);
    if m2max > 1 || m2min < 0 {
      return Some((SubKey(c, M2), Marker2Overflow));
    }
    return None;
  }

  /** The buffer-creation loop over the used channels. */
  method MakeBuffers(order: seq<Ch>, n: nat) returns (bufs: Bufs)
    ensures bufs == InitBufs(order, n)
  {
    bufs := Bufs(map[], map[], map[]);
    var k := 0;
    while k < |order|
      invariant 0 <= k <= |order|
      invariant bufs == InitBufs(order[..k], n)
    {
      var c := order[k];
      InitBufsAdd(order[..k], c, n);
      assert order[..k + 1] == order[..k] + [c];
      bufs := Bufs(bufs.analog[c := seq(n, _ => MidScale)], bufs.m1[c := seq(n, _ => 0)],
                   bufs.m2[c := seq(n, _ => 0)]);
      k := k + 1;
    }
    assert order[..k] == order;
  }

  /** One turn of the rendering loop: the `if/elif` chain on the sub-channel and kind. */
  method RenderOne(bufs: Bufs, p: Pulse) returns (r: RenderResult)
    requires p.channel in Buffer(bufs, p.sub)
    ensures r == RenderPulse(bufs, p)
  {
    if p.zeroDuration {
      return Rendered(bufs);
    }
    var c := p.channel;
    var stop := p.start + |p.waveform|;
    if p.sub == A && p.kind == Analogical {
      var x := SliceAdd(bufs.analog[c], p.start, stop, p.waveform, true);
      if x.None? {
        return RenderRaised(ValueError);
      }
      return Rendered(bufs.(analog := bufs.analog[c := x.value]));
    } else if p.sub == M1 && p.kind == Logical {
      var x := SliceAdd(bufs.m1[c], p.start, stop, p.waveform, false);
      if x.None? {
        return RenderRaised(ValueError);
      }
      return Rendered(bufs.(m1 := bufs.m1[c := x.value]));
    } else if p.sub == M2 && p.kind == Logical {
      var x := SliceAdd(bufs.m2[c], p.start, stop, p.waveform, false);
      if x.None? {
        return RenderRaised(ValueError);
      }
      return Rendered(bufs.(m2 := bufs.m2[c := x.value]));
    } else {
      return Mismatch(p);
    }
  }

  /** The rendering loop over the pulses of non-zero duration, stopping at
      the first kind mismatch or numpy error. */
  method RenderPulses(b0: Bufs, pulses: seq<Pulse>, ghost chans: set<Ch>, ghost n: nat)
    returns (r: RenderResult)
    requires Shaped(b0, chans, n)
    requires forall p :: p in pulses ==> p.channel in chans
    ensures r == RenderAll(b0, pulses, chans, n)
  {
    var bufs := b0;
    var i := 0;
    while i < |pulses|
      invariant 0 <= i <= |pulses|
      invariant Shaped(bufs, chans, n)
      invariant RenderAll(b0, pulses, chans, n) == RenderAll(bufs, pulses[i..], chans, n)
    {
      var p := pulses[i];
      assert p in pulses;
      assert pulses[i..][0] == p && pulses[i..][1..] == pulses[i + 1..];
      RenderPulseShaped(bufs, p, chans, n);
      var step := RenderOne(bufs, p);
      if !step.Rendered? {
        return step;
      }
      bufs := step.bufs;
      i := i + 1;
    }
    return Rendered(bufs);
  }

  /** The overflow loop. `raised` is the ValueError of `max()` on the
      zero-size buffers of a zero-length sequence. */
  method CheckOverflows(bufs: Bufs, order: seq<Ch>, n: nat) returns (raised: bool, errs: Errors)
    requires forall c :: c in order ==> HasChannel(bufs, c)
    requires forall c :: c in order ==> ChannelShaped(bufs, c, n)
    ensures raised <==> order != [] && n == 0
    ensures !raised ==> errs == OverflowErrors(bufs, order)
  {
    errs := map[];
    var k := 0;
    while k < |order|
      invariant 0 <= k <= |order|
      invariant forall d :: d in order[..k] ==> d in order
      invariant errs == OverflowErrors(bufs, order[..k])
      invariant k > 0 ==> n > 0
    {
      var c := order[k];
      assert c in order && ChannelShaped(bufs, c, n);
      assert forall d :: d in order[..k + 1] ==> d in order;
      if |bufs.analog[c]| == 0 {
        return true, errs;
      }
      var e := CheckChannel(bufs, c);
      assert order[..k + 1][..k] == order[..k];
      if e.Some? {
        errs := errs[e.value.0 := e.value.1];
      }
      k := k + 1;
    }
    assert order[..k] == order;
    return false, errs;
  }

  /** The inversion loop over `inverted_log_channels`. */
  method InvertMarkers(b: Bufs, ts: seq<(Ch, Marker)>) returns (r: Option<Bufs>)
    ensures r == InvertAll(b, ts)
  {
    var bufs := b;
    var k := 0;
    while k < |ts|
      invariant 0 <= k <= |ts|
      invariant InvertAll(b, ts) == InvertAll(bufs, ts[k..])
    {
      var (c, mk) := ts[k];
      assert ts[k..] == [ts[k]] + ts[k + 1..];
      if mk == Mk1 {
        if c !in bufs.m1 {
          return None;
        }
        bufs := bufs.(m1 := bufs.m1[c := LogicalNot(bufs.m1[c])]);
      } else {
        if c !in bufs.m2 {
          return None;
        }
        bufs := bufs.(m2 := bufs.m2[c := LogicalNot(bufs.m2[c])]);
      }
      k := k + 1;
    }
    return Some(bufs);
  }

  /** The packing loop over the used channels. */
  method PackAll(bufs: Bufs, order: seq<Ch>, ghost n: nat) returns (toSend: map<Ch, seq<Byte>>)
    requires forall c :: c in order ==> ChannelShaped(bufs, c, n)
    ensures toSend == ToSendOf(bufs, order, n)
  {
    toSend := map[];
    var k := 0;
    while k < |order|
      invariant 0 <= k <= |order|
      invariant toSend == ToSendOf(bufs, order[..k], n)
    {
      var c := order[k];
      assert c in order;
      var bytes := PackChannel(bufs.analog[c], bufs.m1[c], bufs.m2[c]);
      assert order[..k + 1][..k] == order[..k];
      toSend := toSend[c := bytes];
      k := k + 1;
    }
    assert order[..k] == order;
  }

  /** `compile_and_transfer_sequence` with no driver: renders, checks, inverts and packs. */
  method CompileSequence(st: Settings, pre: Errors, pulses: seq<Pulse>, order: seq<Ch>, n: nat)
    returns (out: Outcome)
    requires forall p :: p in pulses ==> p.channel in order
    ensures out == CompileSpec(st, pre, pulses, order, n)
  {
    if pre != map[] {
      return Failure(pre);
    }
    if pulses == [] {
      return Raised(ValueError);  // max() of an empty list
    }
    PulsesInChannels(pulses, order);
    assert pulses[0].channel in order;
    var b0 := MakeBuffers(order, n);
    var rendered := RenderPulses(b0, pulses, Elems(order), n);
    match rendered {
      case Mismatch(p) =>
        return Failure(map[KindIssueKey := KindIssue(p.index, p.kind, p.channel, p.sub)]);
      case RenderRaised(e) =>
        return Raised(e);
      case Rendered(b) =>
        ShapedChannels(b, order, n);
        var raised, errs := CheckOverflows(b, order, n);
        if raised {
          return Raised(ValueError);
        }
        if errs != map[] {
          return Failure(errs);
        }
        var inverted := InvertMarkers(b, st.invertedLogChannels);
        if inverted.None? {
          return Raised(KeyError);
        }
        InvertAllShaped(b, st.invertedLogChannels, Elems(order), n);
        ShapedChannels(inverted.value, order, n);
        var toSend := PackAll(inverted.value, order, n);
        var infos := BuildInfos(st.sequenceName, st.samplingFrequency, order);
        return Success(infos, toSend);
    }
  }

  // ---------------------------------------------------------------------------
  // Properties of the direct compilation
  // ---------------------------------------------------------------------------

  /** A pulse that renders without error in a buffer of n samples. */
  predicate Fits(p: Pulse, n: nat)
  {
    p.zeroDuration || (KindMatches(p) && p.start + |p.waveform| <= n)
  }

  lemma RenderPulseFits(b: Bufs, p: Pulse, chans: set<Ch>, n: nat)
    requires Shaped(b, chans, n) && p.channel in chans && Fits(p, n)
    ensures RenderPulse(b, p).Rendered?
  {
    if !p.zeroDuration {
      var buf := Buffer(b, p.sub)[p.channel];
      assert SliceAdd(buf, p.start, p.start + |p.waveform|, p.waveform, p.sub == A).Some?;
    }
  }

  /** Rendering succeeds when every pulse fits. */
  lemma {:induction false} RenderAllFits(b: Bufs, ps: seq<Pulse>, chans: set<Ch>, n: nat)
    requires Shaped(b, chans, n)
    requires forall p :: p in ps ==> p.channel in chans && Fits(p, n)
    ensures RenderAll(b, ps, chans, n).Rendered?
    decreases |ps|
  {
    if ps != [] {
      assert ps[0] in ps;
      assert forall q :: q in ps[1..] ==> q in ps;
      RenderPulseFits(b, ps[0], chans, n);
      RenderPulseShaped(b, ps[0], chans, n);
      RenderAllFits(RenderPulse(b, ps[0]).bufs, ps[1..], chans, n);
    }
  }

  /** Rendering stops at the first pulse whose sub-channel does not match its
      kind, when every pulse before it fits. */
  lemma {:induction false} RenderAllFirstMismatch(b: Bufs, ps: seq<Pulse>, chans: set<Ch>, n: nat, j: int)
    requires Shaped(b, chans, n)
    requires forall p :: p in ps ==> p.channel in chans
    requires 0 <= j < |ps| && !ps[j].zeroDuration && !KindMatches(ps[j])
    requires forall k :: 0 <= k < j ==> Fits(ps[k], n)
    ensures RenderAll(b, ps, chans, n) == Mismatch(ps[j])
    decreases |ps|
  {
    assert ps[0] in ps;
    assert forall q :: q in ps[1..] ==> q in ps;
    if j > 0 {
      RenderPulseFits(b, ps[0], chans, n);
      RenderPulseShaped(b, ps[0], chans, n);
      RenderAllFirstMismatch(RenderPulse(b, ps[0]).bufs, ps[1..], chans, n, j - 1);
    }
  }

  /** A kind mismatch makes the compilation fail with the single error
      `'Kind issue'`, and nothing is checked, packed or sent. */
  lemma CompileKindIssue(st: Settings, pulses: seq<Pulse>, order: seq<Ch>, n: nat, j: int)
    requires forall p :: p in pulses ==> p.channel in order
    requires 0 <= j < |pulses| && !pulses[j].zeroDuration && !KindMatches(pulses[j])
    requires forall k :: 0 <= k < j ==> Fits(pulses[k], n)
    ensures var p := pulses[j];
      CompileSpec(st, map[], pulses, order, n) ==
        Failure(map[KindIssueKey := KindIssue(p.index, p.kind, p.channel, p.sub)])
  {
    PulsesInChannels(pulses, order);
    RenderAllFirstMismatch(InitBufs(order, n), pulses, Elems(order), n, j);
  }

  /** The start value of a sub-buffer: 2^13 for analog, 0 for markers. */
  function InitValue(s: Sub): int
  {
    if s == A then MidScale else 0
  }

  /** Reference value of sample i of (c, s): start value plus all contributions, in the dtype. */
  function Expected(ps: seq<Pulse>, c: Ch, s: Sub, i: int): int
  {
    Wrapped(s, InitValue(s) + Contribution(ps, c, s, i))
  }

  lemma InitValueWrapped(s: Sub)
    ensures Wrapped(s, InitValue(s)) == InitValue(s)
  {
  }

  /** After rendering, sample i of (c, s) holds its reference value. */
  lemma RenderedSample(pulses: seq<Pulse>, order: seq<Ch>, n: nat, b: Bufs, c: Ch, s: Sub, i: int)
    requires forall p :: p in pulses ==> p.channel in Elems(order)
    requires RenderAll(InitBufs(order, n), pulses, Elems(order), n) == Rendered(b)
    requires c in order && 0 <= i < n
    ensures c in Buffer(b, s) && |Buffer(b, s)[c]| == n
    ensures Buffer(b, s)[c][i] == Expected(pulses, c, s, i)
  {
    var b0 := InitBufs(order, n);
    assert c in Elems(order);
    assert Buffer(b0, s)[c][i] == InitValue(s);
    InitValueWrapped(s);
    RenderIsSum(b0, pulses, Elems(order), n, c, s, i);
  }

  /** The analog buffer holds uint16 values, so `analog.min() < 0` never fires. */
  lemma AnalogNeverNegative(ps: seq<Pulse>, c: Ch, i: int)
    ensures 0 <= Expected(ps, c, A, i) < 0x1_0000
  {
  }

  /** Sample i of channel c passes the range check of all three sub-buffers. */
  predicate SampleOk(ps: seq<Pulse>, c: Ch, i: int)
  {
    Expected(ps, c, A, i) <= AnalogMax &&
    0 <= Expected(ps, c, M1, i) <= 1 && 0 <= Expected(ps, c, M2, i) <= 1
  }

  /** The range check in terms of the pulses: a buffer fails exactly when
      one of its reference samples is out of range. */
  lemma RenderedOverflow(pulses: seq<Pulse>, order: seq<Ch>, n: nat, b: Bufs, c: Ch)
    requires forall p :: p in pulses ==> p.channel in Elems(order)
    requires RenderAll(InitBufs(order, n), pulses, Elems(order), n) == Rendered(b)
    requires c in order
    ensures HasChannel(b, c)
    ensures AnalogOver(b.analog[c]) <==>
      exists i :: 0 <= i < n && Expected(pulses, c, A, i) > AnalogMax
    ensures MarkerOver(b.m1[c]) <==>
      exists i :: 0 <= i < n && !(0 <= Expected(pulses, c, M1, i) <= 1)
    ensures MarkerOver(b.m2[c]) <==>
      exists i :: 0 <= i < n && !(0 <= Expected(pulses, c, M2, i) <= 1)
  {
    ShapedChannels(b, order, n);
    forall s, i | 0 <= i < n ensures Buffer(b, s)[c][i] == Expected(pulses, c, s, i) {
      RenderedSample(pulses, order, n, b, c, s, i);
    }
    forall i | 0 <= i < n ensures Expected(pulses, c, A, i) >= 0 {
      AnalogNeverNegative(pulses, c, i);
    }
    assert Buffer(b, A) == b.analog && Buffer(b, M1) == b.m1 && Buffer(b, M2) == b.m2;
  }

  /** `x` negated k times as a bit. */
  function FlipBit(x: int, k: nat): int
  {
    if k % 2 == 0 then x else 1 - x
  }

  /** Sample i of marker buffer m after inversion. */
  lemma FlippedSample(m: seq<int>, k: nat, i: int)
    requires IsBits(m) && 0 <= i < |m|
    ensures |Flipped(m, k)| == |m| && Flipped(m, k)[i] == FlipBit(m[i], k)
    ensures 0 <= Flipped(m, k)[i] <= 1
  {
    LogicalNotFlips(m);
  }

  /** The `if/elif` verdict of channel c, stated on the reference samples. */
  predicate ExpectedFails(ps: seq<Pulse>, c: Ch, s: Sub, n: nat)
  {
    var analogBad := exists i :: 0 <= i < n && Expected(ps, c, A, i) > AnalogMax;
    var m1Bad := exists i :: 0 <= i < n && !(0 <= Expected(ps, c, M1, i) <= 1);
    var m2Bad := exists i :: 0 <= i < n && !(0 <= Expected(ps, c, M2, i) <= 1);
    match s
    case A => analogBad
    case M1 => !analogBad && m1Bad
    case M2 => !analogBad && !m1Bad && m2Bad
  }

  /** When every pulse fits, the compilation fails exactly when some sample
      is out of range, and then reports, per channel, the first failing
      sub-channel of the analog, M1, M2 chain. */
  lemma CompileOverflow(st: Settings, pulses: seq<Pulse>, order: seq<Ch>, n: nat)
    requires forall p :: p in pulses ==> p.channel in order && Fits(p, n)
    requires pulses != [] && n > 0
    ensures CompileSpec(st, map[], pulses, order, n).Failure? <==>
      exists c, i :: c in order && 0 <= i < n && !SampleOk(pulses, c, i)
    ensures CompileSpec(st, map[], pulses, order, n).Failure? ==>
      forall c, s :: c in order ==>
        (SubKey(c, s) in CompileSpec(st, map[], pulses, order, n).errors <==> ExpectedFails(pulses, c, s, n))
  {
    PulsesInChannels(pulses, order);
    RenderAllFits(InitBufs(order, n), pulses, Elems(order), n);
    var b := RenderAll(InitBufs(order, n), pulses, Elems(order), n).bufs;
    ShapedChannels(b, order, n);
    forall c | c in order
      ensures (!AnalogOver(b.analog[c]) && !MarkerOver(b.m1[c]) && !MarkerOver(b.m2[c])) <==>
              forall i :: 0 <= i < n ==> SampleOk(pulses, c, i)
      ensures forall s :: Fails(b, c, s) <==> ExpectedFails(pulses, c, s, n)
    {
      RenderedOverflow(pulses, order, n, b, c);
      if !forall i :: 0 <= i < n ==> SampleOk(pulses, c, i) {
        var i :| 0 <= i < n && !SampleOk(pulses, c, i);
        if Expected(pulses, c, A, i) > AnalogMax {
          assert AnalogOver(b.analog[c]);
        } else if !(0 <= Expected(pulses, c, M1, i) <= 1) {
          assert MarkerOver(b.m1[c]);
        } else {
          assert MarkerOver(b.m2[c]);
        }
      } else {
        forall i | 0 <= i < n
          ensures Expected(pulses, c, A, i) <= AnalogMax
          ensures 0 <= Expected(pulses, c, M1, i) <= 1 && 0 <= Expected(pulses, c, M2, i) <= 1
        {
          assert SampleOk(pulses, c, i);
        }
      }
    }
    OverflowErrorsEmpty(b, order);
    forall c, s | c in order
      ensures SubKey(c, s) in OverflowErrors(b, order) <==> ExpectedFails(pulses, c, s, n)
    {
      OverflowErrorsKeys(b, order, c, s);
    }
  }

  /** A successful compilation returns the infos of the used channels and
      one byte array of 2n bytes per used channel, keyed by its number. */
  lemma CompileSuccessShape(st: Settings, pulses: seq<Pulse>, order: seq<Ch>, n: nat)
    requires forall p :: p in pulses ==> p.channel in order
    requires CompileSpec(st, map[], pulses, order, n).Success?
    ensures var out := CompileSpec(st, map[], pulses, order, n);
      out.infos == SequenceInfos(st.sequenceName, st.samplingFrequency, Elems(order)) &&
      out.toSend.Keys == Elems(order) &&
      forall c :: c in order ==> |out.toSend[c]| == 2 * n
  {
    PulsesInChannels(pulses, order);
    var b := RenderAll(InitBufs(order, n), pulses, Elems(order), n).bufs;
    ShapedChannels(b, order, n);
    InvertAllShaped(b, st.invertedLogChannels, Elems(order), n);
    var b2 := InvertAll(b, st.invertedLogChannels).value;
    ShapedChannels(b2, order, n);
    ToSendOfSpec(b2, order, n);
  }

  /** A rendered buffer whose samples all pass the range check holds 0/1 markers. */
  lemma RenderedBits(pulses: seq<Pulse>, order: seq<Ch>, n: nat, b: Bufs, c: Ch)
    requires forall p :: p in pulses ==> p.channel in Elems(order)
    requires RenderAll(InitBufs(order, n), pulses, Elems(order), n) == Rendered(b)
    requires c in order && forall i :: 0 <= i < n ==> SampleOk(pulses, c, i)
    ensures ChannelShaped(b, c, n) && IsBits(b.m1[c]) && IsBits(b.m2[c])
    ensures forall i :: 0 <= i < n ==> 0 <= b.analog[c][i] <= AnalogMax
  {
    ShapedChannels(b, order, n);
    forall i | 0 <= i < n
      ensures 0 <= b.analog[c][i] <= AnalogMax
      ensures (b.m1[c][i] == 0 || b.m1[c][i] == 1) && (b.m2[c][i] == 0 || b.m2[c][i] == 1)
    {
      RenderedSample(pulses, order, n, b, c, A, i);
      RenderedSample(pulses, order, n, b, c, M1, i);
      RenderedSample(pulses, order, n, b, c, M2, i);
      assert SampleOk(pulses, c, i);
      AnalogNeverNegative(pulses, c, i);
    }
  }

  /** The word sent for sample i of channel c: the rendered samples, each
      marker negated once per occurrence of its entry in `ts`. */
  function SentWord(pulses: seq<Pulse>, ts: seq<(Ch, Marker)>, c: Ch, i: int): int
  {
    Word(Expected(pulses, c, A, i),
         FlipBit(Expected(pulses, c, M1, i), Occurrences(ts, (c, Mk1))),
         FlipBit(Expected(pulses, c, M2, i), Occurrences(ts, (c, Mk2))))
  }

  /** Sample i of a used channel, as the instrument decodes it from the bytes
      sent: the rendered analog value, and each marker negated once per
      occurrence of its entry in `inverted_log_channels`. */
  lemma PackedSample(pulses: seq<Pulse>, order: seq<Ch>, n: nat, b: Bufs,
                     ts: seq<(Ch, Marker)>, c: Ch, i: int)
    requires forall p :: p in pulses ==> p.channel in Elems(order)
    requires RenderAll(InitBufs(order, n), pulses, Elems(order), n) == Rendered(b)
    requires c in order && forall j :: 0 <= j < n ==> SampleOk(pulses, c, j)
    requires InvertAll(b, ts).Some? && 0 <= i < n
    ensures var b2 := InvertAll(b, ts).value;
      ChannelShaped(b2, c, n) &&
      var r := PackSamples(b2.analog[c], b2.m1[c], b2.m2[c]);
      r[2 * i] == SentWord(pulses, ts, c, i) % 256 &&
      r[2 * i + 1] == SentWord(pulses, ts, c, i) / 256 &&
      DecodeWord(r[2 * i], r[2 * i + 1]) ==
        (Expected(pulses, c, A, i),
         FlipBit(Expected(pulses, c, M1, i), Occurrences(ts, (c, Mk1))),
         FlipBit(Expected(pulses, c, M2, i), Occurrences(ts, (c, Mk2))))
  {
    RenderedBits(pulses, order, n, b, c);
    var b2 := InvertAll(b, ts).value;
    InvertAllShape(b, ts);
    InvertAllFlips(b, ts, c, Mk1);
    InvertAllFlips(b, ts, c, Mk2);
    FlippedSample(b.m1[c], Occurrences(ts, (c, Mk1)), i);
    FlippedSample(b.m2[c], Occurrences(ts, (c, Mk2)), i);
    RenderedSample(pulses, order, n, b, c, A, i);
    RenderedSample(pulses, order, n, b, c, M1, i);
    RenderedSample(pulses, order, n, b, c, M2, i);
    PackRoundTrip(b2.analog[c], b2.m1[c], b2.m2[c], i);
  }

  /** When every pulse fits, every sample is in range and every inverted
      marker belongs to a used channel, the compilation succeeds: the infos
      name the used channels, one byte array of 2n bytes is sent per used
      channel, and each of its words decodes to the summed pulses, markers
      inverted as requested. */
  lemma CompileSucceeds(st: Settings, pulses: seq<Pulse>, order: seq<Ch>, n: nat)
    requires forall p :: p in pulses ==> p.channel in order && Fits(p, n)
    requires pulses != [] && n > 0
    requires forall c, i :: c in order && 0 <= i < n ==> SampleOk(pulses, c, i)
    requires forall t :: t in st.invertedLogChannels ==> t.0 in order
    ensures var out := CompileSpec(st, map[], pulses, order, n);
      out.Success? &&
      out.infos == SequenceInfos(st.sequenceName, st.samplingFrequency, Elems(order)) &&
      out.toSend.Keys == Elems(order) &&
      (forall c :: c in order ==> |out.toSend[c]| == 2 * n) &&
      forall c, i :: c in order && 0 <= i < n ==>
        out.toSend[c][2 * i] == SentWord(pulses, st.invertedLogChannels, c, i) % 256 &&
        out.toSend[c][2 * i + 1] == SentWord(pulses, st.invertedLogChannels, c, i) / 256 &&
        DecodeWord(out.toSend[c][2 * i], out.toSend[c][2 * i + 1]) ==
          (Expected(pulses, c, A, i),
           FlipBit(Expected(pulses, c, M1, i), Occurrences(st.invertedLogChannels, (c, Mk1))),
           FlipBit(Expected(pulses, c, M2, i), Occurrences(st.invertedLogChannels, (c, Mk2))))
  {
    var ts := st.invertedLogChannels;
    PulsesInChannels(pulses, order);
    RenderAllFits(InitBufs(order, n), pulses, Elems(order), n);
    var b := RenderAll(InitBufs(order, n), pulses, Elems(order), n).bufs;
    ShapedChannels(b, order, n);
    forall c | c in order
      ensures !AnalogOver(b.analog[c]) && !MarkerOver(b.m1[c]) && !MarkerOver(b.m2[c])
    {
      RenderedBits(pulses, order, n, b, c);
    }
    OverflowErrorsEmpty(b, order);
    InvertAllShape(b, ts);
    forall t | t in ts ensures t.0 in Buffer(b, MarkerSub(t.1)) {
      assert t.0 in Elems(order);
    }
    InvertAllShaped(b, ts, Elems(order), n);
    var b2 := InvertAll(b, ts).value;
    ShapedChannels(b2, order, n);
    ToSendOfSpec(b2, order, n);
    forall c, i | c in order && 0 <= i < n
      ensures var r := ToSendOf(b2, order, n)[c];
        |r| == 2 * n &&
        r[2 * i] == SentWord(pulses, ts, c, i) % 256 &&
        r[2 * i + 1] == SentWord(pulses, ts, c, i) / 256 &&
        DecodeWord(r[2 * i], r[2 * i + 1]) ==
          (Expected(pulses, c, A, i),
           FlipBit(Expected(pulses, c, M1, i), Occurrences(ts, (c, Mk1))),
           FlipBit(Expected(pulses, c, M2, i), Occurrences(ts, (c, Mk2))))
    {
      PackedSample(pulses, order, n, b, ts, c, i);
    }
  }
}
