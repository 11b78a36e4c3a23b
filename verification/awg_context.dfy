/** The AWG5014 context: renders a flat list of pulses into per-channel sample
    buffers, checks them, inverts the selected markers and packs every sample
    into the instrument's 16-bit little-endian word (the direct, non-loop
    compilation path), then hands the bytes to a driver. */
module AwgContext {
  import opened Common

  /** Channel number N of `ChN`. */
  type Ch = c: int | 1 <= c <= 4 witness 1

  /** Sub-channel of a channel: the analog output and its two markers. */
  datatype Sub = A | M1 | M2

  datatype Marker = Mk1 | Mk2

  datatype Kind = Analogical | Logical

  /** A flattened pulse, after the float front-end: its start is a sample index
      and an analog waveform is already quantised (`rint(8191 * w)`); a marker
      waveform holds 0/1 samples. `zeroDuration` is the `duration == 0` test. */
  datatype Pulse = Pulse(index: int, channel: Ch, sub: Sub, kind: Kind,
                         start: nat, zeroDuration: bool, waveform: seq<int>)

  /** Python exceptions that escape the compiler. */
  datatype PyError = ValueError | KeyError | IndexError

  /** The values of the error maps. */
  datatype ErrorMsg =
    | KindIssue(pulseIndex: int, kind: Kind, channel: Ch, sub: Sub)
    | AnalogOutOfRange
    | Marker1Overflow
    | Marker2Overflow
    | Reported(text: string)

  type Errors = map<string, ErrorMsg>

  datatype InfoValue = Frequency(hz: real) | Name(text: string)

  type Infos = map<string, InfoValue>

  /** What `compile_and_transfer_sequence` ends with. `Success` carries the
      infos and the byte arrays it transfers (its local `to_send`). */
  datatype Outcome =
    | Success(infos: Infos, toSend: map<int, seq<Byte>>)
    | Failure(errors: Errors)
    | Raised(error: PyError)

  const MidScale: int := 0x2000
  const AnalogMax: int := 16383

  function ChName(c: Ch): string { "Ch" + [DigitChar(c)] }

  function SubName(s: Sub): string
  {
    match s
    case A => "A"
    case M1 => "M1"
    case M2 => "M2"
  }

  /** Error key of a sub-channel, `'{}_A'.format(channel)` and alike. */
  function SubKey(c: Ch, s: Sub): string { ChName(c) + "_" + SubName(s) }

  function InfoKey(c: Ch): string { "sequence_ch" + [DigitChar(c)] }

  const KindIssueKey: string := "Kind issue"

  // ---------------------------------------------------------------------------
  // numpy in-place slice addition
  // ---------------------------------------------------------------------------

  /** Python's normalisation of one slice bound on a sequence of length n. */
  function ClipIndex(n: nat, a: int): (r: nat)
    ensures r <= n
    ensures 0 <= a <= n ==> r == a
  {
    if a < 0 then (if a + n < 0 then 0 else a + n) else if a > n then n else a
  }

  /** Addition in the buffer's dtype: uint16 for analog, int8 for markers. */
  function Acc(analog: bool, x: int, y: int): int
  {
    if analog then WrapU16(x + y) else WrapI8(x + y)
  }

  /** `buf[a:b] += w`. The slice is clipped to the buffer; a waveform whose
      length differs from the slice's raises (`None`) unless it has a single
      sample, which numpy broadcasts. */
  function SliceAdd(buf: seq<int>, a: int, b: int, w: seq<int>, analog: bool): (r: Option<seq<int>>)
    ensures r.Some? ==> |r.value| == |buf|
    // the ordinary case: the waveform lies inside the buffer
    ensures 0 <= a && b == a + |w| <= |buf| ==>
      r.Some? && forall i :: 0 <= i < |buf| ==>
        r.value[i] == if a <= i < b then Acc(analog, buf[i], w[i - a]) else buf[i]
  {
    var lo, hi := ClipIndex(|buf|, a), ClipIndex(|buf|, b);
    var len := if hi > lo then hi - lo else 0;
    if len == |w| then
      Some(seq(|buf|, i requires 0 <= i < |buf| =>
        if lo <= i < lo + len then Acc(analog, buf[i], w[i - lo]) else buf[i]))
    else if |w| == 1 then
      Some(seq(|buf|, i requires 0 <= i < |buf| =>
        if lo <= i < lo + len then Acc(analog, buf[i], w[0]) else buf[i]))
    else
      None
  }

  /** A waveform running past the end of the buffer raises, unless it is a
      single sample entirely past the end, which numpy broadcasts onto the
      empty slice: then nothing changes. */
  lemma SliceAddPastEnd(buf: seq<int>, a: nat, w: seq<int>, analog: bool)
    requires a + |w| > |buf|
    ensures |w| <= 1 ==> SliceAdd(buf, a, a + |w|, w, analog) == Some(buf)
    ensures |w| > 1 ==> SliceAdd(buf, a, a + |w|, w, analog) == None
  {
    var lo, hi := ClipIndex(|buf|, a), ClipIndex(|buf|, a + |w|);
    assert hi == |buf|;
    if |w| <= 1 {
      assert lo == |buf|;
      assert SliceAdd(buf, a, a + |w|, w, analog).value == buf;
    }
  }

  // ---------------------------------------------------------------------------
  // Buffers and rendering
  // ---------------------------------------------------------------------------

  /** The three dictionaries `array_analog`, `array_M1`, `array_M2`. */
  datatype Bufs = Bufs(analog: map<Ch, seq<int>>, m1: map<Ch, seq<int>>, m2: map<Ch, seq<int>>)

  /** The buffers exist for (at least) the channels in `chans`, all of length n. */
  ghost predicate Shaped(b: Bufs, chans: set<Ch>, n: nat)
  {
    forall s, c :: c in chans ==> c in Buffer(b, s) && |Buffer(b, s)[c]| == n
  }

  /** The channels listed in cs. */
  function Elems(cs: seq<Ch>): set<Ch>
  {
    set c | c in cs
  }

  /** `order` enumerates the set `used_channels` of the pulses, each once: it
      stands for the iteration order of that set. Zero-length pulses count. */
  ghost predicate EnumeratesUsed(order: seq<Ch>, pulses: seq<Pulse>)
  {
    (forall i, j :: 0 <= i < j < |order| ==> order[i] != order[j]) &&
    (forall p :: p in pulses ==> p.channel in order) &&
    (forall c :: c in order ==> exists p :: p in pulses && p.channel == c)
  }

  function InitBufs(order: seq<Ch>, n: nat): (b: Bufs)
    ensures Shaped(b, Elems(order), n)
    ensures forall s, c :: c in Buffer(b, s) <==> c in order
    ensures forall s, c, i :: c in order && 0 <= i < n ==>
      c in Buffer(b, s) && |Buffer(b, s)[c]| == n &&
      Buffer(b, s)[c][i] == if s == A then MidScale else 0
  {
    var a := seq(n, _ => MidScale);
    var z := seq(n, _ => 0);
    Bufs(map c | c in order :: a, map c | c in order :: z, map c | c in order :: z)
  }

  datatype RenderResult = Rendered(bufs: Bufs) | Mismatch(pulse: Pulse) | RenderRaised(error: PyError)

  /** The sub-buffer dictionary of a sub-channel. */
  function Buffer(b: Bufs, s: Sub): map<Ch, seq<int>>
  {
    match s
    case A => b.analog
    case M1 => b.m1
    case M2 => b.m2
  }

  /** Replaces one channel's buffer in the dictionary of sub-channel s. */
  function WithBuffer(b: Bufs, s: Sub, c: Ch, x: seq<int>): (r: Bufs)
    ensures Buffer(r, s) == Buffer(b, s)[c := x]
    ensures forall t :: t != s ==> Buffer(r, t) == Buffer(b, t)
  {
    match s
    case A => b.(analog := b.analog[c := x])
    case M1 => b.(m1 := b.m1[c := x])
    case M2 => b.(m2 := b.m2[c := x])
  }

  /** `A` takes `Analogical` pulses, `M1` and `M2` take `Logical` ones. */
  predicate KindMatches(p: Pulse)
  {
    (p.sub == A && p.kind == Analogical) || (p.sub != A && p.kind == Logical)
  }

  /** Adds one pulse to its own sub-buffer (one turn of the rendering loop). */
  function RenderPulse(b: Bufs, p: Pulse): (r: RenderResult)
    requires p.channel in Buffer(b, p.sub)
    ensures p.zeroDuration ==> r == Rendered(b)
    ensures !p.zeroDuration && !KindMatches(p) ==> r == Mismatch(p)
  {
    if p.zeroDuration then Rendered(b)
    else if KindMatches(p) then
      match SliceAdd(Buffer(b, p.sub)[p.channel], p.start, p.start + |p.waveform|, p.waveform, p.sub == A)
      case Some(x) => Rendered(WithBuffer(b, p.sub, p.channel, x))
      case None => RenderRaised(ValueError)
    else Mismatch(p)
  }

  lemma RenderPulseShaped(b: Bufs, p: Pulse, chans: set<Ch>, n: nat)
    requires Shaped(b, chans, n) && p.channel in chans
    ensures RenderPulse(b, p).Rendered? ==> Shaped(RenderPulse(b, p).bufs, chans, n)
  {

  }

  /** The rendering loop over all pulses, stopping at the first mismatch or exception. */
  function RenderAll(b: Bufs, ps: seq<Pulse>, ghost chans: set<Ch>, ghost n: nat): (r: RenderResult)
    requires Shaped(b, chans, n)
    requires forall p :: p in ps ==> p.channel in chans
    ensures r.Rendered? ==> Shaped(r.bufs, chans, n)
    decreases |ps|
  {
    if ps == [] then Rendered(b)
    else
      RenderPulseShaped(b, ps[0], chans, n);
      match RenderPulse(b, ps[0])
      case Rendered(b1) => RenderAll(b1, ps[1..], chans, n)
      case other => other
  }

  /** Whether a pulse writes in its own sub-buffer at sample i. */
  predicate Covers(p: Pulse, c: Ch, s: Sub, i: int)
  {
    !p.zeroDuration && p.channel == c && p.sub == s && p.start <= i < p.start + |p.waveform|
  }

  /** The sample a pulse adds at index i of sub-buffer (c, s). */
  function PulseAt(p: Pulse, c: Ch, s: Sub, i: int): int
  {
    if Covers(p, c, s, i) then p.waveform[i - p.start] else 0
  }

  /** A sample value held in the buffer's dtype: uint16 for analog, int8 for markers. */
  function Wrapped(s: Sub, x: int): int
  {
    if s == A then WrapU16(x) else WrapI8(x)
  }

  /** Sample i of (c, s) after one pulse is added to it, in the buffer's dtype. */
  function AddSample(p: Pulse, c: Ch, s: Sub, i: int, x: int): int
  {
    if Covers(p, c, s, i) then Wrapped(s, x + p.waveform[i - p.start]) else x
  }

  /** Sample-wise reference: the value sample i of (c, s) takes when the
      pulses are added to it one after the other, starting from x. */
  function Accumulate(ps: seq<Pulse>, c: Ch, s: Sub, i: int, x: int): int
    decreases |ps|
  {
    if ps == [] then x else Accumulate(ps[1..], c, s, i, AddSample(ps[0], c, s, i, x))
  }

  /** Reference definition: the sum of the contributions of all pulses to
      sample i of sub-buffer (c, s), before any wrap-around. */
  function Contribution(ps: seq<Pulse>, c: Ch, s: Sub, i: int): int
    decreases |ps|
  {
    if ps == [] then 0 else PulseAt(ps[0], c, s, i) + Contribution(ps[1..], c, s, i)
  }

  lemma WrapU16Add(x: int, y: int)
    ensures WrapU16(WrapU16(x) + y) == WrapU16(x + y)
  {
    var q := x / 0x1_0000;
    assert x == q * 0x1_0000 + WrapU16(x);
    assert WrapU16(x) + y == (x + y) - q * 0x1_0000;
  }

  lemma WrapI8Add(x: int, y: int)
    ensures WrapI8(WrapI8(x) + y) == WrapI8(x + y)
  {
    var q := (x + 128) / 256;
    assert x + 128 == q * 256 + (x + 128) % 256;
    assert WrapI8(x) + y + 128 == (x + y + 128) - q * 256;
  }

  /** Wrapping an intermediate sum does not change the wrapped total. */
  lemma WrappedAdd(s: Sub, x: int, y: int)
    ensures Wrapped(s, Wrapped(s, x) + y) == Wrapped(s, x + y)
  {
    if s == A { WrapU16Add(x, y); } else { WrapI8Add(x, y); }
  }

  /** numpy wraps at every step, yet the result is the total sum wrapped once:
      the order of the pulses does not matter. */
  lemma {:induction false} AccumulateIsWrappedSum(ps: seq<Pulse>, c: Ch, s: Sub, i: int, x: int)
    requires x == Wrapped(s, x)
    ensures Accumulate(ps, c, s, i, x) == Wrapped(s, x + Contribution(ps, c, s, i))
    decreases |ps|
  {
    if ps == [] {
      assert x + Contribution(ps, c, s, i) == x;
    } else {
      var d, rest := PulseAt(ps[0], c, s, i), Contribution(ps[1..], c, s, i);
      var y := AddSample(ps[0], c, s, i, x);
      assert y == Wrapped(s, x + d) by {
        if !Covers(ps[0], c, s, i) { assert x + d == x; }
      }
      WrappedAdd(s, x + d, 0);
      assert x + d + 0 == x + d;
      AccumulateIsWrappedSum(ps[1..], c, s, i, y);
      WrappedAdd(s, x + d, rest);
      assert x + d + rest == x + Contribution(ps, c, s, i);
    }
  }

  /** One pulse changes sample i of (c, s) exactly as AddSample says. */
  lemma RenderPulseSample(b: Bufs, p: Pulse, chans: set<Ch>, n: nat, c: Ch, s: Sub, i: int)
    requires Shaped(b, chans, n) && p.channel in chans
    requires RenderPulse(b, p).Rendered?
    requires c in chans && 0 <= i < n
    ensures Buffer(RenderPulse(b, p).bufs, s)[c][i] == AddSample(p, c, s, i, Buffer(b, s)[c][i])
  {
    var b1 := RenderPulse(b, p).bufs;
    if p.zeroDuration || p.channel != c || p.sub != s {
      assert Buffer(b1, s)[c] == Buffer(b, s)[c];
    } else if p.start + |p.waveform| > n {
      SliceAddPastEnd(Buffer(b, s)[c], p.start, p.waveform, s == A);
      assert Buffer(b1, s)[c] == Buffer(b, s)[c];
    }
  }

  /** One turn of the rendering fold, seen from sample i of (c, s). */
  lemma RenderStep(b: Bufs, ps: seq<Pulse>, chans: set<Ch>, n: nat, c: Ch, s: Sub, i: int)
    requires Shaped(b, chans, n)
    requires forall p :: p in ps ==> p.channel in chans
    requires ps != [] && RenderAll(b, ps, chans, n).Rendered?
    requires c in chans && 0 <= i < n
    ensures RenderPulse(b, ps[0]).Rendered?
    ensures Shaped(RenderPulse(b, ps[0]).bufs, chans, n)
    ensures forall q :: q in ps[1..] ==> q.channel in chans
    ensures RenderAll(b, ps, chans, n) == RenderAll(RenderPulse(b, ps[0]).bufs, ps[1..], chans, n)
    ensures Buffer(RenderPulse(b, ps[0]).bufs, s)[c][i] == AddSample(ps[0], c, s, i, Buffer(b, s)[c][i])
  {
    RenderPulseShaped(b, ps[0], chans, n);
    assert forall q :: q in ps[1..] ==> q in ps;
    RenderPulseSample(b, ps[0], chans, n, c, s, i);
  }

  /** The rendering loop computes, at every sample, the sample-wise reference. */
  lemma {:induction false} RenderIsAccumulate(b: Bufs, ps: seq<Pulse>, chans: set<Ch>, n: nat, c: Ch, s: Sub, i: int)
    requires Shaped(b, chans, n)
    requires forall p :: p in ps ==> p.channel in chans
    requires RenderAll(b, ps, chans, n).Rendered?
    requires c in chans && 0 <= i < n
    ensures Buffer(RenderAll(b, ps, chans, n).bufs, s)[c][i] == Accumulate(ps, c, s, i, Buffer(b, s)[c][i])
    decreases |ps|
  {
    if ps != [] {
      RenderStep(b, ps, chans, n, c, s, i);
      RenderIsAccumulate(RenderPulse(b, ps[0]).bufs, ps[1..], chans, n, c, s, i);
    }
  }

  /** Rendering is accumulation: when every pulse kind matches its
      sub-channel and nothing raises, each sample of each sub-buffer is its
      start value plus the sum of all contributions, wrapped in the dtype. */
  lemma RenderIsSum(b: Bufs, ps: seq<Pulse>, chans: set<Ch>, n: nat, c: Ch, s: Sub, i: int)
    requires Shaped(b, chans, n)
    requires forall p :: p in ps ==> p.channel in chans
    requires RenderAll(b, ps, chans, n).Rendered?
    requires c in chans && 0 <= i < n
    requires Buffer(b, s)[c][i] == Wrapped(s, Buffer(b, s)[c][i])
    ensures Buffer(RenderAll(b, ps, chans, n).bufs, s)[c][i]
            == Wrapped(s, Buffer(b, s)[c][i] + Contribution(ps, c, s, i))
  {
    RenderIsAccumulate(b, ps, chans, n, c, s, i);
    AccumulateIsWrappedSum(ps, c, s, i, Buffer(b, s)[c][i]);
  }
}
