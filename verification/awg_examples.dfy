/** Worked cases of the direct compilation: one channel, a sequence of
    1000 samples, and the pulse layouts the context's own test-suite uses. */
module AwgExamples {
  import opened Common
  import opened AwgContext
  import opened AwgCompile

  function MarkerPulse(index: int, sub: Sub, start: nat, len: nat): Pulse
  {
    Pulse(index, 1, sub, Logical, start, false, seq(len, _ => 1))
  }

  function Plain(name: string): Settings
  {
    Settings(name, 1e9, true, false, true, [])
  }

  lemma ContributionPair(p: Pulse, q: Pulse, c: Ch, s: Sub, i: int)
    ensures Contribution([p, q], c, s, i) == PulseAt(p, c, s, i) + PulseAt(q, c, s, i)
  {
    assert [p, q][1..] == [q] && [q][1..] == [];
    assert Contribution([q], c, s, i) == PulseAt(q, c, s, i) + Contribution([], c, s, i);
  }

  /** The compilation of in-range pulses on channel 1 alone: it succeeds,
      names the sequence `<name>_Ch1`, and sends each sample as its low byte
      then its high byte. */
  lemma SingleChannel(name: string, ps: seq<Pulse>)
    requires ps != [] && forall p :: p in ps ==> p.channel == 1 && Fits(p, 1000)
    requires forall i :: 0 <= i < 1000 ==> SampleOk(ps, 1, i)
    ensures var out := CompileSpec(Plain(name), map[], ps, [1], 1000);
      out.Success? &&
      InfoKey(1) in out.infos && out.infos[InfoKey(1)] == Name(name + "_Ch1") &&
      out.toSend.Keys == {1} && |out.toSend[1]| == 2000 &&
      forall i :: 0 <= i < 1000 ==>
        out.toSend[1][2 * i] == SentWord(ps, [], 1, i) % 256 &&
        out.toSend[1][2 * i + 1] == SentWord(ps, [], 1, i) / 256
  {
    assert forall c :: c in [1] <==> c == 1;
    CompileSucceeds(Plain(name), ps, [1], 1000);
    assert Elems([1]) == {1};
    SequenceInfosSpec(name, 1e9, Elems([1]));
    var out := CompileSpec(Plain(name), map[], ps, [1], 1000);
    assert 1 in [1];
  }

  /** Marker 2 high on [100, 500) and on [500, 600): the pulses touch but do
      not overlap, so the compilation succeeds; every low byte is 0 and every
      high byte is 0x20 (the mid-scale analog value), plus 0x80 on [100, 600). */
  lemma NearlyOverlappingM2(name: string)
    ensures var out := CompileSpec(Plain(name), map[],
                                   [MarkerPulse(0, M2, 100, 400), MarkerPulse(1, M2, 500, 100)], [1], 1000);
      out.Success? &&
      InfoKey(1) in out.infos && out.infos[InfoKey(1)] == Name(name + "_Ch1") &&
      out.toSend.Keys == {1} && |out.toSend[1]| == 2000 &&
      forall i :: 0 <= i < 1000 ==>
        out.toSend[1][2 * i] == 0 &&
        out.toSend[1][2 * i + 1] == if 100 <= i < 600 then 0xA0 else 0x20
  {
    var ps := [MarkerPulse(0, M2, 100, 400), MarkerPulse(1, M2, 500, 100)];
    forall i | 0 <= i < 1000 ensures SampleOk(ps, 1, i) {
      NearlyOverlappingSample(i);
    }
    SingleChannel(name, ps);
    var out := CompileSpec(Plain(name), map[], ps, [1], 1000);
    forall i | 0 <= i < 1000
      ensures out.toSend[1][2 * i] == 0
      ensures out.toSend[1][2 * i + 1] == if 100 <= i < 600 then 0xA0 else 0x20
    {
      NearlyOverlappingSample(i);
    }
  }

  lemma NearlyOverlappingSample(i: int)
    requires 0 <= i < 1000
    ensures var ps := [MarkerPulse(0, M2, 100, 400), MarkerPulse(1, M2, 500, 100)];
      SampleOk(ps, 1, i) &&
      SentWord(ps, [], 1, i) == 0x2000 + (if 100 <= i < 600 then 0x8000 else 0) &&
      SentWord(ps, [], 1, i) % 256 == 0 &&
      SentWord(ps, [], 1, i) / 256 == if 100 <= i < 600 then 0xA0 else 0x20
  {
    var p1, p2 := MarkerPulse(0, M2, 100, 400), MarkerPulse(1, M2, 500, 100);
    ContributionPair(p1, p2, 1, A, i);
    ContributionPair(p1, p2, 1, M1, i);
    ContributionPair(p1, p2, 1, M2, i);
    assert Occurrences([], (1, Mk2)) == 0 && Occurrences([], (1, Mk1)) == 0;
  }

  /** Marker 2 high on [100, 500) and on [400, 600): the samples of [400, 500)
      hold 2, and the compilation fails with the single error `Ch1_M2`. */
  lemma OverflowM2(st: Settings)
    ensures var out := CompileSpec(st, map[],
                                   [MarkerPulse(0, M2, 100, 400), MarkerPulse(1, M2, 400, 200)], [1], 1000);
      out.Failure? &&
      SubKey(1, M2) in out.errors && SubKey(1, A) !in out.errors && SubKey(1, M1) !in out.errors
  {
    var p1, p2 := MarkerPulse(0, M2, 100, 400), MarkerPulse(1, M2, 400, 200);
    var ps := [p1, p2];
    forall i | 0 <= i < 1000
      ensures Expected(ps, 1, A, i) <= AnalogMax && 0 <= Expected(ps, 1, M1, i) <= 1
    {
      ContributionPair(p1, p2, 1, A, i);
      ContributionPair(p1, p2, 1, M1, i);
    }
    ContributionPair(p1, p2, 1, M2, 450);
    assert !SampleOk(ps, 1, 450);
    CompileOverflow(st, ps, [1], 1000);
    assert !ExpectedFails(ps, 1, A, 1000) && !ExpectedFails(ps, 1, M1, 1000);
  }

  function Negated(w: seq<int>): (r: seq<int>)
    ensures |r| == |w| && forall k :: 0 <= k < |w| ==> r[k] == -w[k]
  {
    seq(|w|, k requires 0 <= k < |w| => -w[k])
  }

  /** An analog pulse from sample 0 and its opposite on the same span. */
  function OppositePulses(w: seq<int>): seq<Pulse>
  {
    [Pulse(0, 1, A, Analogical, 0, false, w), Pulse(1, 1, A, Analogical, 0, false, Negated(w))]
  }

  /** Two analog pulses of opposite waveforms on the same span cancel out: the
      compilation succeeds and every analog sample is sent at mid-scale. */
  lemma OppositePulsesCancel(name: string, w: seq<int>)
    requires |w| <= 1000
    ensures var out := CompileSpec(Plain(name), map[], OppositePulses(w), [1], 1000);
      out.Success? && out.toSend.Keys == {1} && |out.toSend[1]| == 2000 &&
      forall i :: 0 <= i < 1000 ==>
        out.toSend[1][2 * i] == 0 && out.toSend[1][2 * i + 1] == 0x20
  {
    var ps := OppositePulses(w);
    forall c, i | c in [1] && 0 <= i < 1000 ensures SampleOk(ps, c, i) {
      CancelSample(w, i);
    }
    assert forall p :: p in ps ==> p.channel in [1] && Fits(p, 1000);
    CompileSucceeds(Plain(name), ps, [1], 1000);
    var out := CompileSpec(Plain(name), map[], ps, [1], 1000);
    assert Elems([1]) == {1} && 1 in [1];
    var sw := SentWord(ps, [], 1, 0);
    CancelSample(w, 0);
    assert out.toSend[1][0] == sw % 256;
    assert |out.toSend[1]| == 2000;
    forall i | 0 <= i < 1000
      ensures out.toSend[1][2 * i] == 0 && out.toSend[1][2 * i + 1] == 0x20
    {
      CancelSample(w, i);
    }
  }

  lemma CancelSample(w: seq<int>, i: int)
    requires 0 <= i < 1000
    ensures SampleOk(OppositePulses(w), 1, i) && SentWord(OppositePulses(w), [], 1, i) == 0x2000
  {
    var ps := OppositePulses(w);
    ContributionPair(ps[0], ps[1], 1, A, i);
    ContributionPair(ps[0], ps[1], 1, M1, i);
    ContributionPair(ps[0], ps[1], 1, M2, i);
    assert Occurrences([], (1, Mk2)) == 0 && Occurrences([], (1, Mk1)) == 0;
  }
}
