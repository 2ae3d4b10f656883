// What one call of Pxx2Pulses::setupFrame does for one module, as pure
// functions of the module's state and of its inputs: which bytes it
// emits, how it updates the mode, the counter and the scratch fields of
// the active mode. The imperative handlers in pxx2_pulses.dfy are proved
// to do exactly this; the lemmas below state what the protocol promises.

module Pxx2Modes {
  import opened Pxx2Types
  import opened Pxx2Frame
  import opened Pxx2Channels

  /** Value the periodic counter restarts from when it runs out. */
  const COUNTER_RESET: nat := 1000
  /** Value the spectrum handler parks the counter at. */
  const SPECTRUM_LOCKOUT: nat := 1002
  /** Cycles the hardware-info query waits between two steps. */
  const HW_INFO_WAIT: nat := 20
  /** Ticks (10 ms each) before receiver settings are sent again. */
  const RX_SETTINGS_RETRY: nat := 200
  /** Spectrum scan parameters: 2440 MHz centre, 40 MHz span, 100 kHz step. */
  const SPECTRUM_FQ: uint32 := 2440000000
  const SPECTRUM_SPAN: uint32 := 40000000
  const SPECTRUM_STEP: uint32 := 100000

  /** The reusableBuffer fields the frame builder reads or writes. */
  datatype Scratch = Scratch(
    hwStep: int8,                        // hardware.modules[m].step
    hwTimeout: nat,                      // hardware.modules[m].timeout
    registerStep: RegisterStep,          // moduleSetup.pxx2.registerStep
    registerRxName: seq<uint8>,          // moduleSetup.pxx2.registerRxName
    registerModuleIndex: uint8,          // moduleSetup.pxx2.registerModuleIndex
    bindStep: BindStep,                  // moduleSetup.pxx2.bindStep
    bindWaitTimeout: nat,                // moduleSetup.pxx2.bindWaitTimeout
    bindCandidateNames: seq<seq<uint8>>, // moduleSetup.pxx2.bindCandidateReceiversNames
    bindSelectedIndex: nat,              // moduleSetup.pxx2.bindSelectedReceiverIndex
    bindReceiverId: uint8,               // moduleSetup.pxx2.bindReceiverId
    rxState: ReceiverSettingsState,      // receiverSetup.state
    rxTimeout: nat,                      // receiverSetup.timeout
    rxReceiverId: uint8,                 // receiverSetup.receiverId
    rxTelemetryDisabled: bool,           // receiverSetup.telemetryDisabled
    rxPwmRate: bool,                     // receiverSetup.pwmRate
    rxChannelMapping: seq<uint8>,        // receiverSetup.channelMapping
    spectrumFq: uint32,                  // spectrum.fq
    spectrumSpan: uint32,                // spectrum.span
    spectrumStep: uint32,                // spectrum.step
    shareReceiverId: uint8)              // moduleSetup.pxx2.shareReceiverId

  /** moduleSettings[m] together with the scratch state. */
  datatype ModuleState = ModuleState(mode: ModuleMode, counter: nat, scratch: Scratch)

  /** What a handler, or a whole cycle, produces: the new state, the
      bytes appended after the frame head, and whether the "bind OK"
      popup is raised. */
  datatype CycleResult = CycleResult(state: ModuleState, payload: seq<uint8>, bindOk: bool)

  /** The inputs the source indexes without checking are in range: the
      fixed-size arrays are as long as the loops that read them, and the
      longest frame fits the buffer. */
  predicate Ready(s: ModuleState, cfg: ModelConfig, env: Env, k: Pxx2Constants)
  {
    var sc := s.scratch;
    k.Valid() && env.sentChannels <= 24 && ChannelsInRange(cfg, env) &&
    |cfg.registrationId| >= k.lenRegistrationId &&
    |sc.registerRxName| >= k.lenRxName &&
    |sc.rxChannelMapping| >= env.sentChannels &&
    (sc.bindStep == BindRxNameSelected ==>
       sc.bindSelectedIndex < |sc.bindCandidateNames| &&
       |sc.bindCandidateNames[sc.bindSelectedIndex]| >= k.lenRxName)
  }

  /** The scratch fields no handler writes are as they were. */
  predicate SameInputs(a: Scratch, b: Scratch)
  {
    a.registerStep == b.registerStep && a.registerRxName == b.registerRxName &&
    a.registerModuleIndex == b.registerModuleIndex &&
    (a.bindStep == b.bindStep || b.bindStep == BindOk) &&
    a.bindCandidateNames == b.bindCandidateNames && a.bindSelectedIndex == b.bindSelectedIndex &&
    a.rxChannelMapping == b.rxChannelMapping
  }

  // ---------------------------------------------------------------------
  // Channels frame

  /** Channel groups a channels frame carries for a channel count. */
  function NumGroups(count: nat): (g: nat)
    ensures 1 <= g <= 3
    ensures 8 * (g - 1) < count || g == 1
    ensures count <= 8 * g || g == 3
  {
    if count > 16 then 3 else if count > 8 then 2 else 1
  }

  predicate ChannelsInRange(cfg: ModelConfig, env: Env)
  {
    var end := cfg.channelsStart + 8 * NumGroups(env.sentChannels);
    end <= |env.channelOutputs| && end <= |env.channelCenters| && end <= |cfg.failsafeChannels|
  }

  /** Failsafe values are due in this cycle. */
  predicate FailsafeDue(cfg: ModelConfig, counter: nat)
  {
    cfg.failsafeMode != FailsafeNotSet && cfg.failsafeMode != FailsafeReceiver && counter == 0
  }

  /** addFlag0: the 6-bit model id, the failsafe bit and the range-check bit. */
  function Flag0(mode: ModuleMode, counter: nat, cfg: ModelConfig, k: Pxx2Constants): uint8
  {
    var id := BitAnd(cfg.modelId, 0x3F);
    var withFailsafe := if FailsafeDue(cfg, counter) then BitOr(id, k.channelsFlag0Failsafe) else id;
    if mode == RangeCheck then BitOr(withFailsafe, k.channelsFlag0RangeCheck) else withFailsafe
  }

  /** The sendFailsafe argument setupChannelsFrame derives from flag0. */
  function SendFailsafe(mode: ModuleMode, counter: nat, cfg: ModelConfig, k: Pxx2Constants): bool
  {
    BitAnd(Flag0(mode, counter, cfg, k), k.channelsFlag0Failsafe) != 0
  }

  /** The 12 bytes of one addChannels call: its eight values, packed. */
  function ChannelGroup(sendFailsafe: bool, cfg: ModelConfig, env: Env, k: Pxx2Constants, first: nat): (r: seq<uint8>)
    requires GroupInRange(cfg, env, first)
    ensures |r| == 12
  {
    EncodeGroup(GroupValues(sendFailsafe, cfg, env, k, first))
  }

  /** What addChannels emits pair by pair is the group. */
  lemma ChannelGroupPairs(sendFailsafe: bool, cfg: ModelConfig, env: Env, k: Pxx2Constants, first: nat)
    requires GroupInRange(cfg, env, first)
    ensures PairBytes(sendFailsafe, cfg, env, k, first, GROUP_SIZE / 2) == ChannelGroup(sendFailsafe, cfg, env, k, first)
  {
    PairBytesEncode(sendFailsafe, cfg, env, k, first, GROUP_SIZE / 2);
  }

  /** The groups of a channels frame, in channel order: the first eight
      channels from channel start on, the next eight when more than 8
      channels are sent, and the eight after when more than 16 are. */
  function ChannelGroups(sendFailsafe: bool, cfg: ModelConfig, env: Env, k: Pxx2Constants): (r: seq<uint8>)
    requires ChannelsInRange(cfg, env)
    ensures |r| == 12 * NumGroups(env.sentChannels)
  {
    var s := cfg.channelsStart;
    if env.sentChannels > 16 then
      ChannelGroup(sendFailsafe, cfg, env, k, s) + ChannelGroup(sendFailsafe, cfg, env, k, s + 8) +
      ChannelGroup(sendFailsafe, cfg, env, k, s + 16)
    else if env.sentChannels > 8 then
      ChannelGroup(sendFailsafe, cfg, env, k, s) + ChannelGroup(sendFailsafe, cfg, env, k, s + 8)
    else
      ChannelGroup(sendFailsafe, cfg, env, k, s)
  }

  /** setupChannelsFrame: type bytes, flag0, flag1 (always 0), then one
      group, a second when more than 8 channels are sent, a third when
      more than 16 are. */
  function ChannelsPayload(mode: ModuleMode, counter: nat, cfg: ModelConfig, env: Env, k: Pxx2Constants): (r: seq<uint8>)
    requires ChannelsInRange(cfg, env)
    ensures |r| == 4 + 12 * NumGroups(env.sentChannels)
  {
    [PXX2_TYPE_C_MODULE, PXX2_TYPE_ID_CHANNELS] + [Flag0(mode, counter, cfg, k)] + [0] +
    ChannelGroups(SendFailsafe(mode, counter, cfg, k), cfg, env, k)
  }

  // ---------------------------------------------------------------------
  // Administrative frames

  /** The uint8_t that addByte receives for an int8_t step (-1 becomes 0xFF). */
  function Int8Byte(step: int8): (b: uint8)
    ensures step >= 0 ==> b == step
    ensures step < 0 ==> b == step + 0x100
  {
    step % 0x100
  }

  /** zchar2char applied to each character, in order. */
  function Mapped(f: uint8 -> uint8, s: seq<uint8>): (r: seq<uint8>)
    ensures |r| == |s|
    ensures forall i :: 0 <= i < |s| ==> r[i] == f(s[i])
  {
    if s == [] then [] else Mapped(f, s[..|s| - 1]) + [f(s[|s| - 1])]
  }

  /** The hardware-info query: type bytes, then the step (-1 asks for the
      module itself, 0 and up for a receiver). */
  function HwInfoPayload(sc: Scratch, k: Pxx2Constants): (r: seq<uint8>)
    ensures |r| == 3
  {
    [PXX2_TYPE_C_MODULE, k.typeIdHwInfo] + [Int8Byte(sc.hwStep)]
  }

  /** setupHardwareInfoFrame */
  function HardwareInfo(s: ModuleState, cfg: ModelConfig, env: Env, k: Pxx2Constants): (r: CycleResult)
    requires Ready(s, cfg, env, k)
    ensures |r.payload| <= MAX_PAYLOAD && r.state.counter == s.counter && !r.bindOk
    ensures SameInputs(s.scratch, r.state.scratch)
    ensures r.state.scratch == s.scratch.(hwStep := r.state.scratch.hwStep, hwTimeout := r.state.scratch.hwTimeout)
  {
    var sc := s.scratch;
    if -1 <= sc.hwStep < k.maxReceiversPerModule then
      if sc.hwTimeout == 0 then
        CycleResult(s.(scratch := sc.(hwTimeout := HW_INFO_WAIT, hwStep := sc.hwStep + 1)),
                    HwInfoPayload(sc, k), false)
      else
        CycleResult(s.(scratch := sc.(hwTimeout := sc.hwTimeout - 1)),
                    ChannelsPayload(s.mode, s.counter, cfg, env, k), false)
    else
      CycleResult(s.(mode := Normal), ChannelsPayload(Normal, s.counter, cfg, env, k), false)
  }

  /** setupRegisterFrame */
  function RegisterPayload(s: ModuleState, cfg: ModelConfig, env: Env, k: Pxx2Constants): (r: seq<uint8>)
    requires Ready(s, cfg, env, k)
    ensures |r| == if s.scratch.registerStep == RegisterRxNameSelected then k.lenRxName + k.lenRegistrationId + 4 else 3
  {
    var sc := s.scratch;
    if sc.registerStep == RegisterRxNameSelected then
      [PXX2_TYPE_C_MODULE, PXX2_TYPE_ID_REGISTER] + [0x01] + Mapped(env.toChar, sc.registerRxName[..k.lenRxName]) +
      Mapped(env.toChar, cfg.registrationId[..k.lenRegistrationId]) + [sc.registerModuleIndex]
    else
      [PXX2_TYPE_C_MODULE, PXX2_TYPE_ID_REGISTER] + [0x00]
  }

  /** The first receiver-settings flag byte: receiver id and write bit. */
  function RxSettingsFlag0(sc: Scratch, k: Pxx2Constants): uint8
  {
    if sc.rxState == SettingsWrite then BitOr(sc.rxReceiverId, k.rxSettingsFlag0Write) else sc.rxReceiverId
  }

  /** The second receiver-settings flag byte: telemetry-disabled and fast-PWM bits. */
  function RxSettingsFlag1(sc: Scratch, k: Pxx2Constants): uint8
  {
    var f := if sc.rxTelemetryDisabled then BitOr(0, k.rxSettingsFlag1TelemetryDisabled) else 0;
    if sc.rxPwmRate then BitOr(f, k.rxSettingsFlag1FastPwm) else f
  }

  /** The receiver-settings request: type bytes, the two flag bytes, then
      the output mapping of every sent channel. */
  function RxSettingsPayload(sc: Scratch, env: Env, k: Pxx2Constants): (r: seq<uint8>)
    requires |sc.rxChannelMapping| >= env.sentChannels
    ensures |r| == 4 + env.sentChannels
  {
    [PXX2_TYPE_C_MODULE, k.typeIdRxSettings] + [RxSettingsFlag0(sc, k)] + [RxSettingsFlag1(sc, k)] +
    sc.rxChannelMapping[..env.sentChannels]
  }

  /** setupReceiverSettingsFrame */
  function ReceiverSettingsFrame(s: ModuleState, cfg: ModelConfig, env: Env, k: Pxx2Constants): (r: CycleResult)
    requires Ready(s, cfg, env, k)
    ensures |r.payload| <= MAX_PAYLOAD && r.state.counter == s.counter && r.state.mode == s.mode && !r.bindOk
    ensures SameInputs(s.scratch, r.state.scratch)
    ensures r.state.scratch == s.scratch.(rxTimeout := r.state.scratch.rxTimeout)
  {
    var sc := s.scratch;
    if env.tick > sc.rxTimeout then
      CycleResult(s.(scratch := sc.(rxTimeout := env.tick + RX_SETTINGS_RETRY)),
                  RxSettingsPayload(sc, env, k), false)
    else
      CycleResult(s, ChannelsPayload(s.mode, s.counter, cfg, env, k), false)
  }

  /** setupBindFrame */
  function BindFrame(s: ModuleState, cfg: ModelConfig, env: Env, k: Pxx2Constants): (r: CycleResult)
    requires Ready(s, cfg, env, k)
    ensures |r.payload| <= MAX_PAYLOAD && r.state.counter == s.counter
    ensures SameInputs(s.scratch, r.state.scratch)
    ensures r.payload == [] <==> s.scratch.bindStep == BindWait
  {
    var sc := s.scratch;
    if sc.bindStep == BindWait then
      if env.tick > sc.bindWaitTimeout then
        CycleResult(s.(mode := Normal, scratch := sc.(bindStep := BindOk)), [], true)
      else
        CycleResult(s, [], false)
    else
      var payload :=
        if sc.bindStep == BindRxNameSelected then
          [PXX2_TYPE_C_MODULE, PXX2_TYPE_ID_BIND] + [0x01] + sc.bindCandidateNames[sc.bindSelectedIndex][..k.lenRxName] +
          [sc.bindReceiverId] + [cfg.modelId]
        else
          [PXX2_TYPE_C_MODULE, PXX2_TYPE_ID_BIND] + [0x00] + Mapped(env.toChar, cfg.registrationId[..k.lenRegistrationId]);
      assert |payload| <= k.lenRxName + k.lenRegistrationId + 5;
      CycleResult(s, payload, false)
  }

  /** The spectrum request: type bytes, a zero byte, then centre
      frequency, span and step as little-endian words. */
  function SpectrumPayload(): (r: seq<uint8>)
    ensures |r| == 15
  {
    [PXX2_TYPE_C_POWER_METER, PXX2_TYPE_ID_SPECTRUM] + [0x00] +
    LE32(SPECTRUM_FQ) + LE32(SPECTRUM_SPAN) + LE32(SPECTRUM_STEP)
  }

  /** setupSpectrumAnalyser */
  function SpectrumFrame(s: ModuleState): (r: CycleResult)
    ensures r.state.mode == s.mode && r.state.counter == SPECTRUM_LOCKOUT && !r.bindOk
    ensures SameInputs(s.scratch, r.state.scratch)
    ensures r.payload == [] <==> s.counter > COUNTER_RESET
  {
    if s.counter > COUNTER_RESET then
      CycleResult(s.(counter := SPECTRUM_LOCKOUT), [], false)
    else
      CycleResult(s.(counter := SPECTRUM_LOCKOUT,
                     scratch := s.scratch.(spectrumFq := SPECTRUM_FQ, spectrumSpan := SPECTRUM_SPAN,
                                           spectrumStep := SPECTRUM_STEP)),
                  SpectrumPayload(), false)
  }

  /** setupShareMode */
  function SharePayload(s: ModuleState, k: Pxx2Constants): seq<uint8>
  {
    [PXX2_TYPE_C_MODULE, k.typeIdShare, s.scratch.shareReceiverId]
  }

  /** The switch in setupFrame. */
  function Dispatch(s: ModuleState, cfg: ModelConfig, env: Env, k: Pxx2Constants): (r: CycleResult)
    requires Ready(s, cfg, env, k)
    ensures |r.payload| <= MAX_PAYLOAD
    ensures SameInputs(s.scratch, r.state.scratch)
    ensures r.state.counter == if s.mode == SpectrumAnalyser then SPECTRUM_LOCKOUT else s.counter
  {
    match s.mode
    case GetHardwareInfo => HardwareInfo(s, cfg, env, k)
    case ReceiverSettings => ReceiverSettingsFrame(s, cfg, env, k)
    case Register => CycleResult(s, RegisterPayload(s, cfg, env, k), false)
    case Bind => BindFrame(s, cfg, env, k)
    case SpectrumAnalyser => SpectrumFrame(s)
    case Share => CycleResult(s, SharePayload(s, k), false)
    case _ => CycleResult(s, ChannelsPayload(s.mode, s.counter, cfg, env, k), false)
  }

  /** The counter step at the end of setupFrame: post-decrement, and
      restart from 1000 when the old value was 0. */
  function NextCounter(c: nat): (r: nat)
    ensures c <= SPECTRUM_LOCKOUT ==> r <= COUNTER_RESET + 1
    ensures c <= COUNTER_RESET ==> r <= COUNTER_RESET
    ensures r == 0 <==> c == 1
  {
    if c == 0 then COUNTER_RESET else c - 1
  }

  /** One whole setupFrame call: the handler, then the counter step.
      The frame sent is ClosedFrame(payload). */
  function Cycle(s: ModuleState, cfg: ModelConfig, env: Env, k: Pxx2Constants): (r: CycleResult)
    requires Ready(s, cfg, env, k)
    ensures |r.payload| <= MAX_PAYLOAD
    ensures s.counter <= SPECTRUM_LOCKOUT ==> r.state.counter <= COUNTER_RESET + 1
  {
    var h := Dispatch(s, cfg, env, k);
    CycleResult(h.state.(counter := NextCounter(h.state.counter)), h.payload, h.bindOk)
  }

  // ---------------------------------------------------------------------
  // Lemmas

  /** The model id masked to six bits keeps its bits under the 6-bit mask
      and has neither flag bit. */
  lemma MaskedIdBits(id: uint8, k: Pxx2Constants)
    requires k.ChannelFlagsDisjoint()
    ensures var m := BitAnd(id, 0x3F);
      BitAnd(m, 0x3F) == m && BitAnd(m, k.channelsFlag0Failsafe) == 0 && BitAnd(m, k.channelsFlag0RangeCheck) == 0
  {
    var F, R := k.channelsFlag0Failsafe, k.channelsFlag0RangeCheck;
    AndAssoc(id, 0x3F, 0x3F, 8); AndSelf(0x3F, 8);
    AndAssoc(id, 0x3F, F, 8); AndComm(0x3F, F, 8);
    AndAssoc(id, 0x3F, R, 8); AndComm(0x3F, R, 8);
    AndZero(id, 8);
  }

  /** The channels flag byte: the low six bits are the model id, the
      failsafe bit is set exactly when failsafe values are due, and the
      range-check bit exactly in range-check mode. */
  lemma Flag0Bits(mode: ModuleMode, counter: nat, cfg: ModelConfig, k: Pxx2Constants)
    requires k.ChannelFlagsDisjoint()
    ensures var f := Flag0(mode, counter, cfg, k);
      BitAnd(f, 0x3F) == BitAnd(cfg.modelId, 0x3F) &&
      (BitAnd(f, k.channelsFlag0Failsafe) != 0 <==> FailsafeDue(cfg, counter)) &&
      (BitAnd(f, k.channelsFlag0RangeCheck) != 0 <==> mode == RangeCheck)
  {
    var F, R := k.channelsFlag0Failsafe, k.channelsFlag0RangeCheck;
    var m := BitAnd(cfg.modelId, 0x3F);
    MaskedIdBits(cfg.modelId, k);
    AndComm(F, R, 8);
    // w: the id with the failsafe bit when due
    var w := if FailsafeDue(cfg, counter) then BitOr(m, F) else m;
    OrMaskedOut(m, F, 0x3F); OrMaskedOut(m, F, R);
    if FailsafeDue(cfg, counter) {
      OrSetsFlag(m, F);
    }
    assert BitAnd(w, 0x3F) == m && BitAnd(w, R) == 0;
    assert BitAnd(w, F) != 0 <==> FailsafeDue(cfg, counter);
    // f: w with the range-check bit in range-check mode
    OrMaskedOut(w, R, 0x3F); OrMaskedOut(w, R, F);
    if mode == RangeCheck {
      OrSetsFlag(w, R);
    }
  }

  /** Failsafe values are sent exactly when they are due. */
  lemma SendFailsafeIffDue(mode: ModuleMode, counter: nat, cfg: ModelConfig, k: Pxx2Constants)
    requires k.ChannelFlagsDisjoint()
    ensures SendFailsafe(mode, counter, cfg, k) <==> FailsafeDue(cfg, counter)
  {
    Flag0Bits(mode, counter, cfg, k);
  }

  /** Group g sits at bytes 12g .. 12g+12 of the groups. */
  lemma ChannelGroupsAt(sendFailsafe: bool, cfg: ModelConfig, env: Env, k: Pxx2Constants, g: nat)
    requires ChannelsInRange(cfg, env) && g < NumGroups(env.sentChannels)
    ensures GroupInRange(cfg, env, cfg.channelsStart + 8 * g)
    ensures ChannelGroups(sendFailsafe, cfg, env, k)[12 * g..12 * g + 12] ==
      ChannelGroup(sendFailsafe, cfg, env, k, cfg.channelsStart + 8 * g)
  {
    var s := cfg.channelsStart;
    var gs := ChannelGroups(sendFailsafe, cfg, env, k);
    var g0 := ChannelGroup(sendFailsafe, cfg, env, k, s);
    if env.sentChannels > 8 {
      var g1 := ChannelGroup(sendFailsafe, cfg, env, k, s + 8);
      if env.sentChannels > 16 {
        var g2 := ChannelGroup(sendFailsafe, cfg, env, k, s + 16);
        assert gs == g0 + g1 + g2;
        if g == 0 {
          assert gs[..12] == g0;
        } else if g == 1 {
          assert gs[12..24] == g1;
        } else {
          assert gs[24..36] == g2;
        }
      } else {
        assert gs == g0 + g1;
        if g == 0 {
          assert gs[..12] == g0;
        } else {
          assert gs[12..24] == g1;
        }
      }
    } else {
      assert gs[..12] == g0;
    }
  }

  /** The layout of a channels frame: the head bytes, and group g (0, 1 or
      2) decoding to the values of channels start+8g .. start+8g+7. */
  lemma ChannelsPayloadLayout(mode: ModuleMode, counter: nat, cfg: ModelConfig, env: Env, k: Pxx2Constants, g: nat)
    requires ChannelsInRange(cfg, env) && g < NumGroups(env.sentChannels)
    ensures var p := ChannelsPayload(mode, counter, cfg, env, k);
      p[..4] == [PXX2_TYPE_C_MODULE, PXX2_TYPE_ID_CHANNELS, Flag0(mode, counter, cfg, k), 0] &&
      GroupInRange(cfg, env, cfg.channelsStart + 8 * g) &&
      DecodeGroup(p[4 + 12 * g..16 + 12 * g]) ==
        GroupValues(SendFailsafe(mode, counter, cfg, k), cfg, env, k, cfg.channelsStart + 8 * g)
  {
    var p := ChannelsPayload(mode, counter, cfg, env, k);
    var send := SendFailsafe(mode, counter, cfg, k);
    var n := NumGroups(env.sentChannels);
    var groups := ChannelGroups(send, cfg, env, k);
    assert p == [PXX2_TYPE_C_MODULE, PXX2_TYPE_ID_CHANNELS, Flag0(mode, counter, cfg, k), 0] + groups;
    ChannelGroupsAt(send, cfg, env, k, g);
    assert p[4 + 12 * g..16 + 12 * g] == groups[12 * g..12 * g + 12];
    DecodeEncodeGroup(GroupValues(send, cfg, env, k, cfg.channelsStart + 8 * g));
  }

  /** Sixteen channels in hold failsafe, with failsafe due: two groups
      only, and every channel decodes to the hold value 2047. */
  lemma HoldFailsafeScenario(mode: ModuleMode, cfg: ModelConfig, env: Env, k: Pxx2Constants, g: nat, i: nat)
    requires k.ChannelFlagsDisjoint() && ChannelsInRange(cfg, env)
    requires env.sentChannels == 16 && cfg.failsafeMode == FailsafeHold
    requires g < 2 && i < GROUP_SIZE
    ensures var p := ChannelsPayload(mode, 0, cfg, env, k);
      |p| == 28 && DecodeGroup(p[4 + 12 * g..16 + 12 * g])[i] == PULSE_HOLD
  {
    var first := cfg.channelsStart + 8 * g;
    SendFailsafeIffDue(mode, 0, cfg, k);
    ChannelsPayloadLayout(mode, 0, cfg, env, k, g);
    GroupValueAt(SendFailsafe(mode, 0, cfg, k), cfg, env, k, first, i);
  }

  /** Every cycle emits a frame, except in the bind wait state and while
      the spectrum request is locked out. */
  lemma CycleSilentIff(s: ModuleState, cfg: ModelConfig, env: Env, k: Pxx2Constants)
    requires Ready(s, cfg, env, k)
    ensures Cycle(s, cfg, env, k).payload == [] <==>
      (s.mode == Bind && s.scratch.bindStep == BindWait) ||
      (s.mode == SpectrumAnalyser && s.counter > COUNTER_RESET)
  {
  }

  /** Whatever a cycle changes, the inputs stay usable for the next one. */
  lemma CyclePreservesReady(s: ModuleState, cfg: ModelConfig, env: Env, k: Pxx2Constants)
    requires Ready(s, cfg, env, k)
    ensures Ready(Cycle(s, cfg, env, k).state, cfg, env, k)
  {
  }

  /** The counter after n cycles that do not otherwise touch it. */
  function CounterAfter(c: nat, n: nat): nat
  {
    if n == 0 then c else NextCounter(CounterAfter(c, n - 1))
  }

  /** From 1000 the counter counts down by one per cycle. */
  lemma {:induction false} CounterCountdown(n: nat)
    requires n <= COUNTER_RESET
    ensures CounterAfter(COUNTER_RESET, n) == COUNTER_RESET - n
  {
    if n > 0 {
      CounterCountdown(n - 1);
    }
  }

  /** The counter's period: 1001 cycles after 1000 it is 1000 again, and
      it reaches 0 exactly once in between. */
  lemma CounterPeriod()
    ensures CounterAfter(COUNTER_RESET, COUNTER_RESET + 1) == COUNTER_RESET
    ensures forall n :: 0 <= n <= COUNTER_RESET ==> (CounterAfter(COUNTER_RESET, n) == 0 <==> n == COUNTER_RESET)
  {
    CounterCountdown(COUNTER_RESET);
    forall n | 0 <= n <= COUNTER_RESET
      ensures CounterAfter(COUNTER_RESET, n) == 0 <==> n == COUNTER_RESET
    {
      CounterCountdown(n);
    }
  }

  /** A counter inside [0, 1000] never leaves it. */
  lemma {:induction false} CounterStaysInWindow(c: nat, n: nat)
    requires c <= COUNTER_RESET
    ensures CounterAfter(c, n) <= COUNTER_RESET
  {
    if n > 0 {
      CounterStaysInWindow(c, n - 1);
    }
  }

  /** Spectrum throttling: a cycle emits the scan request exactly when
      the counter is at most 1000 and leaves it at 1001, so the next
      cycle in spectrum mode emits nothing. */
  lemma SpectrumLockout(s: ModuleState, cfg: ModelConfig, env: Env, k: Pxx2Constants)
    requires Ready(s, cfg, env, k) && s.mode == SpectrumAnalyser
    ensures var r := Cycle(s, cfg, env, k);
      (r.payload == SpectrumPayload() <==> s.counter <= COUNTER_RESET) &&
      (r.payload == [] <==> s.counter > COUNTER_RESET) &&
      r.state.counter == SPECTRUM_LOCKOUT - 1 && r.state.mode == SpectrumAnalyser &&
      Ready(r.state, cfg, env, k) && Cycle(r.state, cfg, env, k).payload == []
  {
    assert |SpectrumPayload()| == 15;
    CyclePreservesReady(s, cfg, env, k);
  }

  /** The spectrum request decodes to its three parameters. */
  lemma SpectrumPayloadWords()
    ensures var p := SpectrumPayload();
      |p| == 15 && p[..3] == [0x02, 0x02, 0x00] &&
      ReadLE32(p[3..7]) == SPECTRUM_FQ && ReadLE32(p[7..11]) == SPECTRUM_SPAN &&
      ReadLE32(p[11..15]) == SPECTRUM_STEP
  {
    var p := SpectrumPayload();
    var fq, span, step := LE32(SPECTRUM_FQ), LE32(SPECTRUM_SPAN), LE32(SPECTRUM_STEP);
    assert p == [0x02, 0x02, 0x00] + fq + span + step;
    assert p[3..7] == fq;
    assert p[7..11] == span;
    assert p[11..15] == step;
    ReadLE32OfLE32(SPECTRUM_FQ);
    ReadLE32OfLE32(SPECTRUM_SPAN);
    ReadLE32OfLE32(SPECTRUM_STEP);
  }

  /** Progress measure of hardware discovery: steps left times the
      per-step wait, plus the wait still to run. */
  function HwRank(sc: Scratch, k: Pxx2Constants): int
  {
    (k.maxReceiversPerModule - sc.hwStep) * (HW_INFO_WAIT + 1) + sc.hwTimeout
  }

  /** Hardware discovery always progresses: each cycle either returns the
      module to normal mode or strictly decreases a non-negative rank, so
      discovery ends after at most HwRank + 1 cycles. */
  lemma HardwareInfoProgress(s: ModuleState, cfg: ModelConfig, env: Env, k: Pxx2Constants)
    requires Ready(s, cfg, env, k) && s.mode == GetHardwareInfo
    ensures var r := Cycle(s, cfg, env, k);
      r.state.mode == Normal ||
      (r.state.mode == GetHardwareInfo &&
       0 <= HwRank(r.state.scratch, k) < HwRank(s.scratch, k))
  {
  }

  /** The three branches of hardware discovery: while a step is pending
      and its wait has run out, the query for it goes out and the next
      step waits 20 cycles; while the wait runs, the channels frame of the
      discovery mode goes out and the wait shrinks by one; once the steps
      are exhausted, the module is back in normal mode and sends its
      normal channels frame. */
  lemma HardwareInfoBranches(s: ModuleState, cfg: ModelConfig, env: Env, k: Pxx2Constants)
    requires Ready(s, cfg, env, k) && s.mode == GetHardwareInfo
    ensures var r, sc := Cycle(s, cfg, env, k), s.scratch;
      (-1 <= sc.hwStep < k.maxReceiversPerModule && sc.hwTimeout == 0 ==>
         r.payload == [PXX2_TYPE_C_MODULE, k.typeIdHwInfo, Int8Byte(sc.hwStep)] &&
         r.state.mode == GetHardwareInfo &&
         r.state.scratch == sc.(hwStep := sc.hwStep + 1, hwTimeout := HW_INFO_WAIT)) &&
      (-1 <= sc.hwStep < k.maxReceiversPerModule && sc.hwTimeout > 0 ==>
         r.payload == ChannelsPayload(GetHardwareInfo, s.counter, cfg, env, k) &&
         r.state.mode == GetHardwareInfo && r.state.scratch == sc.(hwTimeout := sc.hwTimeout - 1)) &&
      (!(-1 <= sc.hwStep < k.maxReceiversPerModule) ==>
         r.payload == ChannelsPayload(Normal, s.counter, cfg, env, k) &&
         r.state.mode == Normal && r.state.scratch == sc)
  {
  }

  /** A hardware query carries the step as a byte; the first step, -1,
      goes out as 0xFF. */
  lemma HardwareInfoQuery(s: ModuleState, cfg: ModelConfig, env: Env, k: Pxx2Constants)
    requires Ready(s, cfg, env, k) && s.mode == GetHardwareInfo
    requires s.scratch.hwStep == -1 && s.scratch.hwTimeout == 0 && k.maxReceiversPerModule > -1
    ensures var r := Cycle(s, cfg, env, k);
      r.payload == [PXX2_TYPE_C_MODULE, k.typeIdHwInfo, 0xFF] &&
      r.state.scratch.hwStep == 0 && r.state.scratch.hwTimeout == HW_INFO_WAIT
  {
  }

  /** Receiver settings are retried, not repeated: before the retry time
      the cycle sends exactly the channels frame; after it, the settings
      frame, and the next attempt is due 200 ticks later. */
  lemma ReceiverSettingsRetry(s: ModuleState, cfg: ModelConfig, env: Env, k: Pxx2Constants)
    requires Ready(s, cfg, env, k) && s.mode == ReceiverSettings
    ensures var r := Cycle(s, cfg, env, k);
      (env.tick <= s.scratch.rxTimeout ==>
         r.payload == ChannelsPayload(ReceiverSettings, s.counter, cfg, env, k) &&
         r.state.scratch == s.scratch) &&
      (env.tick > s.scratch.rxTimeout ==>
         r.payload[..2] == [PXX2_TYPE_C_MODULE, k.typeIdRxSettings] &&
         r.payload[2] == RxSettingsFlag0(s.scratch, k) && r.payload[3] == RxSettingsFlag1(s.scratch, k) &&
         |r.payload| == 4 + env.sentChannels &&
         r.payload[4..] == s.scratch.rxChannelMapping[..env.sentChannels] &&
         r.state.scratch == s.scratch.(rxTimeout := env.tick + RX_SETTINGS_RETRY))
  {
  }

  /** The first receiver-settings flag byte carries the write bit exactly
      in the write state, and leaves every bit of the receiver id outside
      that flag as it is. */
  lemma RxSettingsFlag0Bits(sc: Scratch, k: Pxx2Constants, mask: uint8)
    requires k.rxSettingsFlag0Write != 0 && BitAnd(sc.rxReceiverId, k.rxSettingsFlag0Write) == 0
    requires BitAnd(k.rxSettingsFlag0Write, mask) == 0
    ensures var f := RxSettingsFlag0(sc, k);
      (BitAnd(f, k.rxSettingsFlag0Write) != 0 <==> sc.rxState == SettingsWrite) &&
      BitAnd(f, mask) == BitAnd(sc.rxReceiverId, mask)
  {
    var W := k.rxSettingsFlag0Write;
    OrMaskedOut(sc.rxReceiverId, W, mask);
    if sc.rxState == SettingsWrite {
      OrSetsFlag(sc.rxReceiverId, W);
    }
  }

  /** The second receiver-settings flag byte: the telemetry-disabled bit
      is set exactly when telemetry is disabled, and the fast-PWM bit
      exactly when the fast PWM rate is chosen. */
  lemma RxSettingsFlag1Bits(sc: Scratch, k: Pxx2Constants)
    requires k.rxSettingsFlag1TelemetryDisabled != 0 && k.rxSettingsFlag1FastPwm != 0
    requires BitAnd(k.rxSettingsFlag1TelemetryDisabled, k.rxSettingsFlag1FastPwm) == 0
    ensures var f := RxSettingsFlag1(sc, k);
      (BitAnd(f, k.rxSettingsFlag1TelemetryDisabled) != 0 <==> sc.rxTelemetryDisabled) &&
      (BitAnd(f, k.rxSettingsFlag1FastPwm) != 0 <==> sc.rxPwmRate)
  {
    var T, P := k.rxSettingsFlag1TelemetryDisabled, k.rxSettingsFlag1FastPwm;
    AndComm(T, P, 8);
    AndZero(T, 8); AndComm(0, T, 8);
    AndZero(P, 8); AndComm(0, P, 8);
    // t: the byte with the telemetry bit when telemetry is disabled
    var t := if sc.rxTelemetryDisabled then BitOr(0, T) else 0;
    OrMaskedOut(0, T, P);
    if sc.rxTelemetryDisabled {
      OrSetsFlag(0, T);
    }
    assert BitAnd(t, P) == 0;
    assert BitAnd(t, T) != 0 <==> sc.rxTelemetryDisabled;
    // the fast-PWM bit on top
    OrMaskedOut(t, P, T);
    if sc.rxPwmRate {
      OrSetsFlag(t, P);
    }
  }

  /** The bind wait state sends nothing; once the tick passes the wait
      timeout the module returns to normal mode with the bind finished
      and the "bind OK" popup raised. */
  lemma BindWaitExpiry(s: ModuleState, cfg: ModelConfig, env: Env, k: Pxx2Constants)
    requires Ready(s, cfg, env, k) && s.mode == Bind && s.scratch.bindStep == BindWait
    ensures var r := Cycle(s, cfg, env, k);
      r.payload == [] &&
      (r.bindOk <==> env.tick > s.scratch.bindWaitTimeout) &&
      (r.bindOk ==> r.state.mode == Normal && r.state.scratch.bindStep == BindOk) &&
      (!r.bindOk ==> r.state.mode == Bind && r.state.scratch == s.scratch)
  {
  }

  /** A bind confirmation: marker 0x01, the selected receiver's name as
      stored, the receiver slot, then the model id. */
  lemma BindSelectedLayout(s: ModuleState, cfg: ModelConfig, env: Env, k: Pxx2Constants)
    requires Ready(s, cfg, env, k) && s.mode == Bind && s.scratch.bindStep == BindRxNameSelected
    ensures var p := Cycle(s, cfg, env, k).payload;
      var n := k.lenRxName;
      |p| == n + 5 && p[..3] == [PXX2_TYPE_C_MODULE, PXX2_TYPE_ID_BIND, 0x01] &&
      p[3..3 + n] == s.scratch.bindCandidateNames[s.scratch.bindSelectedIndex][..n] &&
      p[3 + n] == s.scratch.bindReceiverId && p[4 + n] == cfg.modelId
  {
  }

  /** A bind request before a receiver is chosen: marker 0x00, then the
      model's registration id through zchar2char; the state is left as it
      was. */
  lemma BindRequestLayout(s: ModuleState, cfg: ModelConfig, env: Env, k: Pxx2Constants)
    requires Ready(s, cfg, env, k) && s.mode == Bind
    requires s.scratch.bindStep != BindRxNameSelected && s.scratch.bindStep != BindWait
    ensures var r := Cycle(s, cfg, env, k);
      var m := k.lenRegistrationId;
      |r.payload| == m + 3 && r.payload[..3] == [PXX2_TYPE_C_MODULE, PXX2_TYPE_ID_BIND, 0x00] &&
      (forall i :: 0 <= i < m ==> r.payload[3 + i] == env.toChar(cfg.registrationId[i])) &&
      r.state.mode == Bind && r.state.scratch == s.scratch && !r.bindOk
  {
    var m := k.lenRegistrationId;
    var id := Mapped(env.toChar, cfg.registrationId[..m]);
    var p := Cycle(s, cfg, env, k).payload;
    assert p == [PXX2_TYPE_C_MODULE, PXX2_TYPE_ID_BIND, 0x00] + id;
    assert p[3..] == id;
  }

  /** A registration request: marker 0x01, the receiver name and the
      model's registration id (both through zchar2char), then the module
      index; otherwise the single marker byte 0x00. */
  lemma RegisterLayout(s: ModuleState, cfg: ModelConfig, env: Env, k: Pxx2Constants)
    requires Ready(s, cfg, env, k) && s.mode == Register
    ensures var p := Cycle(s, cfg, env, k).payload;
      var n, m := k.lenRxName, k.lenRegistrationId;
      p[..2] == [PXX2_TYPE_C_MODULE, PXX2_TYPE_ID_REGISTER] &&
      (s.scratch.registerStep == RegisterRxNameSelected ==>
         |p| == n + m + 4 && p[2] == 0x01 &&
         (forall i :: 0 <= i < n ==> p[3 + i] == env.toChar(s.scratch.registerRxName[i])) &&
         (forall i :: 0 <= i < m ==> p[3 + n + i] == env.toChar(cfg.registrationId[i])) &&
         p[3 + n + m] == s.scratch.registerModuleIndex) &&
      (s.scratch.registerStep != RegisterRxNameSelected ==> p == [PXX2_TYPE_C_MODULE, PXX2_TYPE_ID_REGISTER, 0x00])
  {
    assert Cycle(s, cfg, env, k).payload == RegisterPayload(s, cfg, env, k);
    RegisterPayloadFields(s, cfg, env, k);
  }

  /** The fields of the register payload, read off its bytes. */
  lemma RegisterPayloadFields(s: ModuleState, cfg: ModelConfig, env: Env, k: Pxx2Constants)
    requires Ready(s, cfg, env, k)
    ensures var p := RegisterPayload(s, cfg, env, k);
      var n, m := k.lenRxName, k.lenRegistrationId;
      p[..2] == [PXX2_TYPE_C_MODULE, PXX2_TYPE_ID_REGISTER] &&
      (s.scratch.registerStep == RegisterRxNameSelected ==>
         p[2] == 0x01 &&
         (forall i :: 0 <= i < n ==> p[3 + i] == env.toChar(s.scratch.registerRxName[i])) &&
         (forall i :: 0 <= i < m ==> p[3 + n + i] == env.toChar(cfg.registrationId[i])) &&
         p[3 + n + m] == s.scratch.registerModuleIndex) &&
      (s.scratch.registerStep != RegisterRxNameSelected ==> p == [PXX2_TYPE_C_MODULE, PXX2_TYPE_ID_REGISTER, 0x00])
  {
    var p := RegisterPayload(s, cfg, env, k);
    var n, m := k.lenRxName, k.lenRegistrationId;
    if s.scratch.registerStep == RegisterRxNameSelected {
      var name := Mapped(env.toChar, s.scratch.registerRxName[..n]);
      var id := Mapped(env.toChar, cfg.registrationId[..m]);
      assert p == [PXX2_TYPE_C_MODULE, PXX2_TYPE_ID_REGISTER, 0x01] + name + id + [s.scratch.registerModuleIndex];
      assert p[3..3 + n] == name;
      assert p[3 + n..3 + n + m] == id;
    }
  }

  /** Every non-empty frame a cycle produces is read back intact by a
      receiver, checksum included. */
  lemma CycleFrameParses(s: ModuleState, cfg: ModelConfig, env: Env, k: Pxx2Constants)
    requires Ready(s, cfg, env, k)
    ensures var p := Cycle(s, cfg, env, k).payload;
      p != [] ==> ParseFrame(ClosedFrame(p)) == Some(p)
  {
    var p := Cycle(s, cfg, env, k).payload;
    if p != [] {
      ParseClosedFrame(p);
    }
  }
}
