/** The transfer of compiled sequences to an AWG5014 driver, and the whole of
    `compile_and_transfer_sequence` with or without a driver. The driver is
    abstract: it records the calls it receives, in order. */
module AwgTransfer {
  import opened Common
  import opened AwgContext
  import opened AwgCompile

  /** One interaction with the driver or one of its channels. */
  datatype DriverCall =
    | Sent(name: string, data: seq<Byte>)        // driver.to_send(name, data)
    | SamplingFrequencySet(hz: real)             // driver.sampling_frequency = hz
    | Selected(channel: int, name: string)       // channel.select_sequence(name)
    | Cleared(channel: int)                      // channel.clear_sequence()
    | OutputOn(channel: int)                     // channel.output_state = 'ON'
    | RunningSet                                 // driver.running = True

  /** A driver that logs what it is asked to do. */
  class Driver {
    const definedChannels: seq<int>
    var log: seq<DriverCall>

    constructor(defined: seq<int>)
      ensures definedChannels == defined && log == []
    {
      definedChannels := defined;
      log := [];
    }

    method ToSend(name: string, data: seq<Byte>)
      modifies this
      ensures log == old(log) + [Sent(name, data)]
    {
      log := log + [Sent(name, data)];
    }

    method SetSamplingFrequency(hz: real)
      modifies this
      ensures log == old(log) + [SamplingFrequencySet(hz)]
    {
      log := log + [SamplingFrequencySet(hz)];
    }

    method SelectSequence(channel: int, name: string)
      modifies this
      ensures log == old(log) + [Selected(channel, name)]
    {
      log := log + [Selected(channel, name)];
    }

    method ClearSequence(channel: int)
      modifies this
      ensures log == old(log) + [Cleared(channel)]
    {
      log := log + [Cleared(channel)];
    }

    method SetOutputOn(channel: int)
      modifies this
      ensures log == old(log) + [OutputOn(channel)]
    {
      log := log + [OutputOn(channel)];
    }

    method SetRunning()
      modifies this
      ensures log == old(log) + [RunningSet]
    {
      log := log + [RunningSet];
    }
  }

  /** Every channel that has a sequence has a name for it in the infos. */
  predicate Named(sequences: map<int, seq<Byte>>, infos: Infos)
  {
    forall c :: c in sequences ==> HasName(infos, c)
  }

  /** `infos` holds a sequence name for channel c. */
  predicate HasName(infos: Infos, c: int)
  {
    1 <= c <= 4 && InfoKey(c) in infos && infos[InfoKey(c)].Name?
  }

  /** `infos['sequence_ch%s' % ch_id]`. */
  function NameOf(infos: Infos, c: int): string
    requires HasName(infos, c)
  {
    infos[InfoKey(c)].text
  }

  /** The sends of the first loop, over the defined channels `cs`. */
  function Sends(cs: seq<int>, sequences: map<int, seq<Byte>>, infos: Infos): seq<DriverCall>
    requires Named(sequences, infos)
    decreases |cs|
  {
    if cs == [] then []
    else
      var c := cs[|cs| - 1];
      Sends(cs[..|cs| - 1], sequences, infos) +
        (if c in sequences then [Sent(NameOf(infos, c), sequences[c])] else [])
  }

  /** The selections of the second loop, over the defined channels `cs`. */
  function Selects(cs: seq<int>, sequences: map<int, seq<Byte>>, infos: Infos, clear: bool): seq<DriverCall>
    requires Named(sequences, infos)
    decreases |cs|
  {
    if cs == [] then []
    else
      var c := cs[|cs| - 1];
      Selects(cs[..|cs| - 1], sequences, infos, clear) +
        (if c in sequences then [Selected(c, NameOf(infos, c))]
         else if clear then [Cleared(c)] else [])
  }

  /** The outputs switched on by the third loop, over the sequences' channels. */
  function Outputs(order: seq<Ch>): seq<DriverCall>
    decreases |order|
  {
    if order == [] then [] else Outputs(order[..|order| - 1]) + [OutputOn(order[|order| - 1])]
  }

  /** Every call `_transfer_sequences` makes, in order. `order` is the
      iteration order of `sequences`. */
  function TransferCalls(st: Settings, defined: seq<int>, sequences: map<int, seq<Byte>>,
                         order: seq<Ch>, infos: Infos): seq<DriverCall>
    requires Named(sequences, infos)
  {
    Sends(defined, sequences, infos) +
    (if st.selectAfterTransfer
     then [SamplingFrequencySet(st.samplingFrequency)] + Selects(defined, sequences, infos, st.clearUnusedChannels)
     else []) +
    (if st.runAfterTransfer then Outputs(order) + [RunningSet] else [])
  }

  /** The first loop of `_transfer_sequences`: each defined channel's sequence is sent. */
  method SendAll(driver: Driver, sequences: map<int, seq<Byte>>, infos: Infos)
    requires Named(sequences, infos)
    modifies driver
    ensures driver.log == old(driver.log) + Sends(driver.definedChannels, sequences, infos)
  {
    var defined := driver.definedChannels;
    var k := 0;
    while k < |defined|
      invariant 0 <= k <= |defined|
      invariant driver.log == old(driver.log) + Sends(defined[..k], sequences, infos)
    {
      var c := defined[k];
      assert defined[..k + 1][..k] == defined[..k];
      if c in sequences {
        driver.ToSend(NameOf(infos, c), sequences[c]);
      }
      k := k + 1;
    }
    assert defined[..k] == defined;
  }

  /** The second loop: each defined channel selects its sequence or is cleared. */
  method SelectAll(driver: Driver, sequences: map<int, seq<Byte>>, infos: Infos, clear: bool)
    requires Named(sequences, infos)
    modifies driver
    ensures driver.log == old(driver.log) + Selects(driver.definedChannels, sequences, infos, clear)
  {
    var defined := driver.definedChannels;
    var k := 0;
    while k < |defined|
      invariant 0 <= k <= |defined|
      invariant driver.log == old(driver.log) + Selects(defined[..k], sequences, infos, clear)
    {
      var c := defined[k];
      assert defined[..k + 1][..k] == defined[..k];
      if c in sequences {
        driver.SelectSequence(c, NameOf(infos, c));
      } else if clear {
        driver.ClearSequence(c);
      }
      k := k + 1;
    }
    assert defined[..k] == defined;
  }

  /** The third loop: the output of each channel with a sequence is switched on. */
  method OutputsOn(driver: Driver, order: seq<Ch>)
    modifies driver
    ensures driver.log == old(driver.log) + Outputs(order)
  {
    var k := 0;
    while k < |order|
      invariant 0 <= k <= |order|
      invariant driver.log == old(driver.log) + Outputs(order[..k])
    {
      assert order[..k + 1][..k] == order[..k];
      driver.SetOutputOn(order[k]);
      k := k + 1;
    }
    assert order[..k] == order;
  }

  /** `_transfer_sequences`: sends, then selects, then runs; always reports success. */
  method TransferSequences(st: Settings, driver: Driver, sequences: map<int, seq<Byte>>,
                           order: seq<Ch>, infos: Infos)
    returns (ok: bool, infosOut: Infos, errors: Errors)
    requires Named(sequences, infos)
    modifies driver
    ensures ok && infosOut == infos && errors == map[]
    ensures driver.log == old(driver.log) + TransferCalls(st, driver.definedChannels, sequences, order, infos)
  {
    ghost var calls := TransferCalls(st, driver.definedChannels, sequences, order, infos);
    ghost var sends := Sends(driver.definedChannels, sequences, infos);
    ghost var selects := if st.selectAfterTransfer
      then [SamplingFrequencySet(st.samplingFrequency)] +
           Selects(driver.definedChannels, sequences, infos, st.clearUnusedChannels)
      else [];
    ghost var runs := if st.runAfterTransfer then Outputs(order) + [RunningSet] else [];
    assert calls == sends + selects + runs;
    SendAll(driver, sequences, infos);
    assert driver.log == old(driver.log) + sends;
    if st.selectAfterTransfer {
      driver.SetSamplingFrequency(st.samplingFrequency);
      SelectAll(driver, sequences, infos, st.clearUnusedChannels);
    }
    assert driver.log == old(driver.log) + sends + selects;
    if st.runAfterTransfer {
      OutputsOn(driver, order);
      driver.SetRunning();
    }
    assert driver.log == old(driver.log) + sends + selects + runs;
    return true, infos, map[];
  }

  // ---------------------------------------------------------------------------
  // What the transfer does, call by call
  // ---------------------------------------------------------------------------

  lemma {:induction false} SendsMembers(cs: seq<int>, sequences: map<int, seq<Byte>>, infos: Infos, x: DriverCall)
    requires Named(sequences, infos)
    ensures x in Sends(cs, sequences, infos) <==>
      exists c :: c in cs && c in sequences && x == Sent(NameOf(infos, c), sequences[c])
    decreases |cs|
  {
    if cs != [] {
      var init, c := cs[..|cs| - 1], cs[|cs| - 1];
      assert forall d :: d in cs <==> d in init || d == c;
      SendsMembers(init, sequences, infos, x);
    }
  }

  lemma {:induction false} SelectsMembers(cs: seq<int>, sequences: map<int, seq<Byte>>, infos: Infos,
                                          clear: bool, x: DriverCall)
    requires Named(sequences, infos)
    ensures x in Selects(cs, sequences, infos, clear) <==>
      (exists c :: c in cs && c in sequences && x == Selected(c, NameOf(infos, c))) ||
      (exists c :: c in cs && c !in sequences && clear && x == Cleared(c))
    decreases |cs|
  {
    if cs != [] {
      var init, c := cs[..|cs| - 1], cs[|cs| - 1];
      assert forall d :: d in cs <==> d in init || d == c;
      SelectsMembers(init, sequences, infos, clear, x);
    }
  }

  lemma {:induction false} OutputsMembers(order: seq<Ch>, x: DriverCall)
    ensures x in Outputs(order) <==> exists c :: c in order && x == OutputOn(c)
    ensures |Outputs(order)| == |order|
    decreases |order|
  {
    if order != [] {
      var init, c := order[..|order| - 1], order[|order| - 1];
      assert forall d :: d in order <==> d in init || d == c;
      OutputsMembers(init, x);
    }
  }

  lemma {:induction false} SendsAreSends(cs: seq<int>, sequences: map<int, seq<Byte>>, infos: Infos)
    requires Named(sequences, infos)
    ensures forall x :: x in Sends(cs, sequences, infos) ==> x.Sent?
    decreases |cs|
  {
    if cs != [] {
      SendsAreSends(cs[..|cs| - 1], sequences, infos);
    }
  }

  lemma {:induction false} SelectsNoSends(cs: seq<int>, sequences: map<int, seq<Byte>>, infos: Infos, clear: bool)
    requires Named(sequences, infos)
    ensures forall x :: x in Selects(cs, sequences, infos, clear) ==> x.Selected? || x.Cleared?
    decreases |cs|
  {
    if cs != [] {
      SelectsNoSends(cs[..|cs| - 1], sequences, infos, clear);
    }
  }

  /** Every sequence is sent before anything else happens: once a call is
      not a send, no send follows. */
  lemma SendsFirst(st: Settings, defined: seq<int>, sequences: map<int, seq<Byte>>, order: seq<Ch>, infos: Infos)
    requires Named(sequences, infos)
    ensures var calls := TransferCalls(st, defined, sequences, order, infos);
      forall i, j :: 0 <= i < j < |calls| && calls[j].Sent? ==> calls[i].Sent?
  {
    var calls := TransferCalls(st, defined, sequences, order, infos);
    var sends := Sends(defined, sequences, infos);
    var selects := if st.selectAfterTransfer
      then [SamplingFrequencySet(st.samplingFrequency)] + Selects(defined, sequences, infos, st.clearUnusedChannels)
      else [];
    var runs := if st.runAfterTransfer then Outputs(order) + [RunningSet] else [];
    var rest := selects + runs;
    assert calls == sends + rest;
    SendsAreSends(defined, sequences, infos);
    SelectsNoSends(defined, sequences, infos, st.clearUnusedChannels);
    forall x | x in Outputs(order) ensures !x.Sent? {
      OutputsMembers(order, x);
    }
    forall x: DriverCall | x in rest ensures !x.Sent? {
      assert x in selects || x in runs;
    }
    forall j | |sends| <= j < |calls| ensures !calls[j].Sent? {
      assert calls[j] == rest[j - |sends|];
    }
    forall i | 0 <= i < |sends| ensures calls[i].Sent? {
      assert calls[i] == sends[i] && sends[i] in sends;
    }
  }

  /** The sequences sent are exactly those of the defined channels that have one,
      each under its name from the infos. */
  lemma TransferSent(st: Settings, defined: seq<int>, sequences: map<int, seq<Byte>>, order: seq<Ch>,
                     infos: Infos, name: string, data: seq<Byte>)
    requires Named(sequences, infos)
    ensures Sent(name, data) in TransferCalls(st, defined, sequences, order, infos) <==>
      exists c :: c in defined && c in sequences && name == NameOf(infos, c) && data == sequences[c]
  {
    var x := Sent(name, data);
    SendsMembers(defined, sequences, infos, x);
    SelectsNoSends(defined, sequences, infos, st.clearUnusedChannels);
    OutputsMembers(order, x);
  }

  /** Selection happens only with `select_after_transfer`: the frequency is
      set, every defined channel with a sequence selects it and, with
      `clear_unused_channels`, every other defined channel is cleared. */
  lemma TransferSelected(st: Settings, defined: seq<int>, sequences: map<int, seq<Byte>>, order: seq<Ch>,
                         infos: Infos, c: int, name: string, hz: real)
    requires Named(sequences, infos)
    ensures var calls := TransferCalls(st, defined, sequences, order, infos);
      (SamplingFrequencySet(hz) in calls <==> st.selectAfterTransfer && hz == st.samplingFrequency) &&
      (Selected(c, name) in calls <==>
        st.selectAfterTransfer && c in defined && c in sequences && name == NameOf(infos, c)) &&
      (Cleared(c) in calls <==>
        st.selectAfterTransfer && st.clearUnusedChannels && c in defined && c !in sequences)
  {
    var clear := st.clearUnusedChannels;
    SendsAreSends(defined, sequences, infos);
    SelectsNoSends(defined, sequences, infos, clear);
    SelectsMembers(defined, sequences, infos, clear, Selected(c, name));
    SelectsMembers(defined, sequences, infos, clear, Cleared(c));
    OutputsMembers(order, Selected(c, name));
    OutputsMembers(order, Cleared(c));
    OutputsMembers(order, SamplingFrequencySet(hz));
    SelectsMembers(defined, sequences, infos, clear, SamplingFrequencySet(hz));
  }

  /** Outputs are switched on, for the channels with a sequence, and the
      driver set running, last, exactly when `run_after_transfer` is set. */
  lemma TransferRun(st: Settings, defined: seq<int>, sequences: map<int, seq<Byte>>, order: seq<Ch>,
                    infos: Infos, c: int)
    requires Named(sequences, infos)
    ensures var calls := TransferCalls(st, defined, sequences, order, infos);
      (OutputOn(c) in calls <==> st.runAfterTransfer && c in order) &&
      (RunningSet in calls <==> st.runAfterTransfer) &&
      (st.runAfterTransfer ==> calls[|calls| - 1] == RunningSet)
  {
    var clear := st.clearUnusedChannels;
    SendsAreSends(defined, sequences, infos);
    SelectsNoSends(defined, sequences, infos, clear);
    OutputsMembers(order, OutputOn(c));
    OutputsMembers(order, RunningSet);
  }

  // ---------------------------------------------------------------------------
  // compile_and_transfer_sequence
  // ---------------------------------------------------------------------------

  /** The infos of a compilation name every channel it sends, `name_ChN`. */
  lemma SequenceInfosNamed(name: string, hz: real, order: seq<Ch>, sequences: map<int, seq<Byte>>)
    requires forall c :: c in sequences ==> c in order
    ensures Named(sequences, SequenceInfos(name, hz, Elems(order)))
    ensures forall c: Ch :: c in order ==>
      HasName(SequenceInfos(name, hz, Elems(order)), c) &&
      NameOf(SequenceInfos(name, hz, Elems(order)), c) == name + "_" + ChName(c)
  {
    var infos := SequenceInfos(name, hz, Elems(order));
    SequenceInfosSpec(name, hz, Elems(order));
    InfoKeyLiterals();
    forall c: Ch | c in order ensures HasName(infos, c) && NameOf(infos, c) == name + "_" + ChName(c) {
      assert c in Elems(order);
    }
  }

  /** A successful compilation names every channel it sends, `name_ChN`. */
  lemma CompiledNamed(st: Settings, pulses: seq<Pulse>, order: seq<Ch>, n: nat)
    requires forall p :: p in pulses ==> p.channel in order
    requires CompileSpec(st, map[], pulses, order, n).Success?
    ensures var out := CompileSpec(st, map[], pulses, order, n);
      Named(out.toSend, out.infos) &&
      forall c: Ch :: c in order ==>
        HasName(out.infos, c) && NameOf(out.infos, c) == st.sequenceName + "_" + ChName(c)
  {
    CompileSuccessShape(st, pulses, order, n);
    var out := CompileSpec(st, map[], pulses, order, n);
    assert forall c :: c in out.toSend ==> c in order;
    SequenceInfosNamed(st.sequenceName, st.samplingFrequency, order, out.toSend);
  }

  /** `compile_and_transfer_sequence`: compiles; without a driver it stops
      there, with one it transfers a successful result. */
  method CompileAndTransferSequence(st: Settings, pre: Errors, pulses: seq<Pulse>, order: seq<Ch>, n: nat,
                                    driver: Driver?)
    returns (out: Outcome)
    requires forall p :: p in pulses ==> p.channel in order
    modifies driver
    ensures out == CompileSpec(st, pre, pulses, order, n)
    ensures driver != null && out.Success? ==>
      Named(out.toSend, out.infos) &&
      driver.log == old(driver.log) + TransferCalls(st, driver.definedChannels, out.toSend, order, out.infos)
    ensures driver != null && !out.Success? ==> driver.log == old(driver.log)
  {
    out := CompileSequence(st, pre, pulses, order, n);
    if driver != null && out.Success? {
      CompiledNamed(st, pulses, order, n);
      var ok, infos, errors := TransferSequences(st, driver, out.toSend, order, out.infos);
    }
  }
}
