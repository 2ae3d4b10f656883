// The handlers of pulses/pxx2.cpp as imperative code: Pxx2Pulses owns the
// transport buffer and writes one frame per setupFrame call, reading and
// updating the module's settings and the shared scratch buffer in place.
// Every method is proved to append exactly the payload the pure model of
// pxx2_modes.dfy describes and to leave exactly the state it describes.

module Pxx2Pulses {
  import opened Pxx2Types
  import opened Pxx2Frame
  import opened Pxx2Channels
  import opened Pxx2Modes

  /** moduleSettings[module]: the fields the frame builder touches. */
  class ModuleSettings {
    var mode: ModuleMode
    var counter: nat
  }

  /** reusableBuffer: the fields of its overlapping views (hardware,
      moduleSetup.pxx2, receiverSetup, spectrum) that belong to the
      module, held as one record the handlers update field by field. */
  class ReusableBuffer {
    var scratch: Scratch
  }

  /** The module's whole state as the pure model sees it. */
  ghost function Snapshot(ms: ModuleSettings, rb: ReusableBuffer): ModuleState
    reads ms, rb
  {
    ModuleState(ms.mode, ms.counter, rb.scratch)
  }

  class Pxx2Pulses {
    /** The transport this Pxx2Pulses writes into (its base classes in the source). */
    const buf: FrameWriter

    ghost predicate Valid()
      reads this, buf, buf.data
    {
      buf.Valid()
    }

    /** A frame is open and has room for the longest payload a handler writes. */
    ghost predicate CanWrite()
      reads this, buf, buf.data
    {
      buf.Open() && buf.len + MAX_PAYLOAD <= CAPACITY
    }

    constructor ()
      ensures Valid() && fresh(buf) && fresh(buf.data) && buf.bytes == []
    {
      buf := new FrameWriter();
    }

    /** addFlag0: appends the channels flag byte and returns it. */
    method AddFlag0(ms: ModuleSettings, cfg: ModelConfig, k: Pxx2Constants) returns (flag0: uint8)
      requires buf.Open() && buf.len < CAPACITY
      modifies buf, buf.data
      ensures buf.Open() && buf.bytes == old(buf.bytes) + [flag0]
      ensures flag0 == Flag0(ms.mode, ms.counter, cfg, k)
    {
      flag0 := BitAnd(cfg.modelId, 0x3F);
      if cfg.failsafeMode != FailsafeNotSet && cfg.failsafeMode != FailsafeReceiver {
        if ms.counter == 0 {
          flag0 := BitOr(flag0, k.channelsFlag0Failsafe);
        }
      }
      if ms.mode == RangeCheck {
        flag0 := BitOr(flag0, k.channelsFlag0RangeCheck);
      }
      buf.AddByte(flag0);
    }

    /** addFlag1: the second flag byte is always zero. */
    method AddFlag1()
      requires buf.Open() && buf.len < CAPACITY
      modifies buf, buf.data
      ensures buf.Open() && buf.bytes == old(buf.bytes) + [0]
    {
      var flag1: uint8 := 0;
      buf.AddByte(flag1);
    }

    /** The first half of addChannels' loop body: the pulse value for one
        channel, from the failsafe settings or from the live output. */
    static method ChannelPulse(sendFailsafe: bool, cfg: ModelConfig, env: Env, k: Pxx2Constants, channel: nat)
      returns (pulseValue: uint16)
      requires channel < |env.channelOutputs| && channel < |env.channelCenters| && channel < |cfg.failsafeChannels|
      ensures pulseValue == ChannelValue(sendFailsafe, cfg, env, k, channel)
    {
      if sendFailsafe {
        if cfg.failsafeMode == FailsafeHold {
          pulseValue := 2047;
        } else if cfg.failsafeMode == FailsafeNoPulses {
          pulseValue := 0;
        } else {
          var failsafeValue := cfg.failsafeChannels[channel];
          if failsafeValue == k.failsafeChannelHold {
            pulseValue := 2047;
          } else if failsafeValue == k.failsafeChannelNoPulse {
            pulseValue := 0;
          } else {
            // int16_t += : the sum is stored back into 16 bits
            failsafeValue := ToInt16(failsafeValue + CenterOffset(env, channel));
            pulseValue := Rescale(failsafeValue);
          }
        }
      } else {
        var value := env.channelOutputs[channel] + CenterOffset(env, channel);
        pulseValue := Rescale(value);
      }
    }

    /** The second half of addChannels' loop body, on odd channels: the
        previous and the current value packed into three bytes. */
    method AddPair(pulseValueLow: uint16, pulseValue: uint16)
      requires buf.Open() && buf.len + 3 <= CAPACITY && pulseValueLow < 0x1000 && pulseValue < 0x1000
      modifies buf, buf.data
      ensures buf.Open() && buf.bytes == old(buf.bytes) + PackPair(pulseValueLow, pulseValue)
    {
      var b1: uint8 := pulseValueLow % 0x100;
      var b2: uint8 := (pulseValueLow / 0x100) % 0x10 + (pulseValue % 0x10) * 0x10;
      var b3: uint8 := (pulseValue / 0x10) % 0x100;
      buf.AddByte(b1);
      buf.AddByte(b2);
      buf.AddByte(b3);
    }

    /** addChannels: eight channel values, emitted as a byte triplet after
        every second channel. */
    method AddChannels(sendFailsafe: bool, cfg: ModelConfig, env: Env, k: Pxx2Constants, firstChannel: nat)
      requires buf.Open() && buf.len + 12 <= CAPACITY && GroupInRange(cfg, env, firstChannel)
      modifies buf, buf.data
      ensures buf.Open() && buf.bytes == old(buf.bytes) + ChannelGroup(sendFailsafe, cfg, env, k, firstChannel)
    {
      ghost var b0 := buf.bytes;
      // pairs: how many pairs of channels are packed and emitted
      ghost var pairs := 0;
      var pulseValue: uint16 := 0;
      var pulseValueLow: uint16 := 0;
      var i := 0;
      while i < 8
        invariant 0 <= i <= 8 && (i == 2 * pairs || i == 2 * pairs + 1)
        invariant i == 2 * pairs + 1 ==> pulseValueLow == ChannelValue(sendFailsafe, cfg, env, k, firstChannel + i - 1)
        invariant buf.Open() && buf.bytes == b0 + PairBytes(sendFailsafe, cfg, env, k, firstChannel, pairs)
      {
        pulseValue := ChannelPulse(sendFailsafe, cfg, env, k, firstChannel + i);
        Parity(i, pairs);
        if i % 2 == 1 {
          AddPair(pulseValueLow, pulseValue);
          PairBytesStep(b0, sendFailsafe, cfg, env, k, firstChannel, pairs, pulseValueLow, pulseValue);
          pairs := pairs + 1;
        } else {
          pulseValueLow := pulseValue;
        }
        i := i + 1;
      }
      ChannelGroupPairs(sendFailsafe, cfg, env, k, firstChannel);
    }

    /** The odd counts of a loop over pairs are those that hold half a pair. */
    static lemma Parity(i: nat, pairs: nat)
      requires i == 2 * pairs || i == 2 * pairs + 1
      ensures (i % 2 == 1) == (i == 2 * pairs + 1)
    {
    }

    /** The second half of setupChannelsFrame: one group of channels, a
        second when more than 8 are sent, a third when more than 16 are. */
    method AddChannelGroups(sendFailsafe: bool, cfg: ModelConfig, env: Env, k: Pxx2Constants, channelsCount: nat)
      requires buf.Open() && buf.len + 36 <= CAPACITY
      requires ChannelsInRange(cfg, env) && channelsCount == env.sentChannels
      modifies buf, buf.data
      ensures buf.Open() && buf.bytes == old(buf.bytes) + ChannelGroups(sendFailsafe, cfg, env, k)
    {
      ghost var b0 := buf.bytes;
      var start := cfg.channelsStart;
      AddChannels(sendFailsafe, cfg, env, k, start);
      if channelsCount > 8 {
        AddChannels(sendFailsafe, cfg, env, k, start + 8);
        if channelsCount > 16 {
          AddChannels(sendFailsafe, cfg, env, k, start + 16);
          AppendAssoc3(b0, ChannelGroup(sendFailsafe, cfg, env, k, start), ChannelGroup(sendFailsafe, cfg, env, k, start + 8),
                       ChannelGroup(sendFailsafe, cfg, env, k, start + 16));
        } else {
          AppendAssoc(b0, ChannelGroup(sendFailsafe, cfg, env, k, start), ChannelGroup(sendFailsafe, cfg, env, k, start + 8));
        }
      }
    }

    /** setupChannelsFrame */
    method SetupChannelsFrame(ms: ModuleSettings, cfg: ModelConfig, env: Env, k: Pxx2Constants)
      requires CanWrite() && ChannelsInRange(cfg, env)
      modifies buf, buf.data
      ensures buf.Open() && buf.bytes == old(buf.bytes) + ChannelsPayload(ms.mode, ms.counter, cfg, env, k)
    {
      ghost var b0 := buf.bytes;
      buf.AddFrameType(PXX2_TYPE_C_MODULE, PXX2_TYPE_ID_CHANNELS);
      var flag0 := AddFlag0(ms, cfg, k);
      AddFlag1();
      var channelsCount := env.sentChannels;
      var send := BitAnd(flag0, k.channelsFlag0Failsafe) != 0;
      AddChannelGroups(send, cfg, env, k, channelsCount);
      AppendAssoc4(b0, [PXX2_TYPE_C_MODULE, PXX2_TYPE_ID_CHANNELS], [flag0], [0], ChannelGroups(send, cfg, env, k));
    }

    /** The query branch of setupHardwareInfoFrame: the request for the
        current step, then the wait for its answer and the next step. */
    method SendHardwareInfoQuery(rb: ReusableBuffer, k: Pxx2Constants)
      requires CanWrite() && -1 <= rb.scratch.hwStep < k.maxReceiversPerModule && k.Valid()
      modifies buf, buf.data, rb
      ensures buf.Open() && buf.bytes == old(buf.bytes) + HwInfoPayload(old(rb.scratch), k)
      ensures rb.scratch == old(rb.scratch).(hwTimeout := HW_INFO_WAIT, hwStep := old(rb.scratch.hwStep) + 1)
    {
      ghost var b0 := buf.bytes;
      buf.AddFrameType(PXX2_TYPE_C_MODULE, k.typeIdHwInfo);
      // the int8_t step is passed as a uint8_t
      buf.AddByte(rb.scratch.hwStep % 0x100);
      AppendAssoc(b0, [PXX2_TYPE_C_MODULE, k.typeIdHwInfo], [rb.scratch.hwStep % 0x100]);
      rb.scratch := rb.scratch.(hwTimeout := HW_INFO_WAIT, hwStep := rb.scratch.hwStep + 1);
    }

    /** setupHardwareInfoFrame */
    method SetupHardwareInfoFrame(ms: ModuleSettings, rb: ReusableBuffer, cfg: ModelConfig, env: Env, k: Pxx2Constants)
      requires CanWrite() && Ready(Snapshot(ms, rb), cfg, env, k)
      modifies buf, buf.data, ms, rb
      ensures var r := HardwareInfo(old(Snapshot(ms, rb)), cfg, env, k);
        buf.Open() && buf.bytes == old(buf.bytes) + r.payload && Snapshot(ms, rb) == r.state
    {
      if rb.scratch.hwStep >= -1 && rb.scratch.hwStep < k.maxReceiversPerModule {
        if rb.scratch.hwTimeout == 0 {
          SendHardwareInfoQuery(rb, k);
        } else {
          rb.scratch := rb.scratch.(hwTimeout := rb.scratch.hwTimeout - 1);
          SetupChannelsFrame(ms, cfg, env, k);
        }
      } else {
        ms.mode := Normal;
        SetupChannelsFrame(ms, cfg, env, k);
      }
    }

    /** The byte loops of the bind and receiver-settings frames: each byte
        of s appended in order. */
    method AddBytes(s: seq<uint8>)
      requires buf.Open() && buf.len + |s| <= CAPACITY
      modifies buf, buf.data
      ensures buf.Open() && buf.bytes == old(buf.bytes) + s
    {
      ghost var b0 := buf.bytes;
      for i := 0 to |s|
        invariant buf.Open() && buf.bytes == b0 + s[..i]
      {
        buf.AddByte(s[i]);
        AppendAssoc(b0, s[..i], [s[i]]);
        assert s[..i + 1] == s[..i] + [s[i]];
      }
      assert s[..|s|] == s;
    }

    /** The byte loops of the register and bind frames that store names as
        zchar: each byte of s, converted by f, appended in order. */
    method AddMapped(f: uint8 -> uint8, s: seq<uint8>)
      requires buf.Open() && buf.len + |s| <= CAPACITY
      modifies buf, buf.data
      ensures buf.Open() && buf.bytes == old(buf.bytes) + Mapped(f, s)
    {
      ghost var b0 := buf.bytes;
      for i := 0 to |s|
        invariant buf.Open() && buf.bytes == b0 + Mapped(f, s[..i])
      {
        var b := f(s[i]);
        buf.AddByte(b);
        AppendAssoc(b0, Mapped(f, s[..i]), [b]);
        assert s[..i + 1][..i] == s[..i];
      }
      assert s[..|s|] == s;
    }

    /** setupRegisterFrame */
    method SetupRegisterFrame(ms: ModuleSettings, rb: ReusableBuffer, cfg: ModelConfig, env: Env, k: Pxx2Constants)
      requires CanWrite() && Ready(Snapshot(ms, rb), cfg, env, k)
      modifies buf, buf.data
      ensures buf.Open() && buf.bytes == old(buf.bytes) + RegisterPayload(Snapshot(ms, rb), cfg, env, k)
    {
      ghost var b0 := buf.bytes;
      buf.AddFrameType(PXX2_TYPE_C_MODULE, PXX2_TYPE_ID_REGISTER);
      ghost var sent := [PXX2_TYPE_C_MODULE, PXX2_TYPE_ID_REGISTER];

      if rb.scratch.registerStep == RegisterRxNameSelected {
        buf.AddByte(0x01);
        AppendAssoc(b0, sent, [0x01]);
        sent := sent + [0x01];
        AddMapped(env.toChar, rb.scratch.registerRxName[..k.lenRxName]);
        AppendAssoc(b0, sent, Mapped(env.toChar, rb.scratch.registerRxName[..k.lenRxName]));
        sent := sent + Mapped(env.toChar, rb.scratch.registerRxName[..k.lenRxName]);
        AddMapped(env.toChar, cfg.registrationId[..k.lenRegistrationId]);
        AppendAssoc(b0, sent, Mapped(env.toChar, cfg.registrationId[..k.lenRegistrationId]));
        sent := sent + Mapped(env.toChar, cfg.registrationId[..k.lenRegistrationId]);
        buf.AddByte(rb.scratch.registerModuleIndex);
        AppendAssoc(b0, sent, [rb.scratch.registerModuleIndex]);
        sent := sent + [rb.scratch.registerModuleIndex];
      } else {
        buf.AddByte(0);
        AppendAssoc(b0, sent, [0]);
        sent := sent + [0];
      }
      assert sent == RegisterPayload(Snapshot(ms, rb), cfg, env, k);
    }

    /** The request branch of setupReceiverSettingsFrame: the flags and the
        channel mapping, then the next retry deadline. */
    method SendReceiverSettings(rb: ReusableBuffer, env: Env, k: Pxx2Constants)
      requires CanWrite() && env.sentChannels <= 24 && |rb.scratch.rxChannelMapping| >= env.sentChannels
      modifies buf, buf.data, rb
      ensures buf.Open() && buf.bytes == old(buf.bytes) + RxSettingsPayload(old(rb.scratch), env, k)
      ensures rb.scratch == old(rb.scratch).(rxTimeout := env.tick + RX_SETTINGS_RETRY)
    {
      ghost var b0 := buf.bytes;
      ghost var sc := rb.scratch;
      buf.AddFrameType(PXX2_TYPE_C_MODULE, k.typeIdRxSettings);
      ghost var sent := [PXX2_TYPE_C_MODULE, k.typeIdRxSettings];
      var flag0 := rb.scratch.rxReceiverId;
      if rb.scratch.rxState == SettingsWrite {
        flag0 := BitOr(flag0, k.rxSettingsFlag0Write);
      }
      buf.AddByte(flag0);
      AppendAssoc(b0, sent, [flag0]);
      sent := sent + [flag0];
      var flag1: uint8 := 0;
      if rb.scratch.rxTelemetryDisabled {
        flag1 := BitOr(flag1, k.rxSettingsFlag1TelemetryDisabled);
      }
      if rb.scratch.rxPwmRate {
        flag1 := BitOr(flag1, k.rxSettingsFlag1FastPwm);
      }
      buf.AddByte(flag1);
      AppendAssoc(b0, sent, [flag1]);
      sent := sent + [flag1];
      var channelsCount := env.sentChannels;
      AddBytes(rb.scratch.rxChannelMapping[..channelsCount]);
      AppendAssoc(b0, sent, rb.scratch.rxChannelMapping[..channelsCount]);
      sent := sent + rb.scratch.rxChannelMapping[..channelsCount];
      rb.scratch := rb.scratch.(rxTimeout := env.tick + RX_SETTINGS_RETRY);
      assert sent == RxSettingsPayload(sc, env, k);
    }

    /** setupReceiverSettingsFrame */
    method SetupReceiverSettingsFrame(ms: ModuleSettings, rb: ReusableBuffer, cfg: ModelConfig, env: Env, k: Pxx2Constants)
      requires CanWrite() && Ready(Snapshot(ms, rb), cfg, env, k)
      modifies buf, buf.data, rb
      ensures var r := ReceiverSettingsFrame(old(Snapshot(ms, rb)), cfg, env, k);
        buf.Open() && buf.bytes == old(buf.bytes) + r.payload && Snapshot(ms, rb) == r.state
    {
      if env.tick > rb.scratch.rxTimeout {
        SendReceiverSettings(rb, env, k);
      } else {
        SetupChannelsFrame(ms, cfg, env, k);
      }
    }

    /** setupBindFrame. The "bind OK" popup is returned as bindOk. */
    method SetupBindFrame(ms: ModuleSettings, rb: ReusableBuffer, cfg: ModelConfig, env: Env, k: Pxx2Constants)
      returns (bindOk: bool)
      requires CanWrite() && Ready(Snapshot(ms, rb), cfg, env, k)
      modifies buf, buf.data, ms, rb
      ensures var r := BindFrame(old(Snapshot(ms, rb)), cfg, env, k);
        buf.Open() && buf.bytes == old(buf.bytes) + r.payload && Snapshot(ms, rb) == r.state &&
        bindOk == r.bindOk
    {
      ghost var b0 := buf.bytes;
      ghost var r := BindFrame(Snapshot(ms, rb), cfg, env, k);
      bindOk := false;
      if rb.scratch.bindStep == BindWait {
        if env.tick > rb.scratch.bindWaitTimeout {
          ms.mode := Normal;
          rb.scratch := rb.scratch.(bindStep := BindOk);
          bindOk := true;
        }
        assert buf.bytes == b0 + [];
        return;
      }

      buf.AddFrameType(PXX2_TYPE_C_MODULE, PXX2_TYPE_ID_BIND);
      ghost var sent := [PXX2_TYPE_C_MODULE, PXX2_TYPE_ID_BIND];

      if rb.scratch.bindStep == BindRxNameSelected {
        buf.AddByte(0x01);
        AppendAssoc(b0, sent, [0x01]);
        sent := sent + [0x01];
        var name := rb.scratch.bindCandidateNames[rb.scratch.bindSelectedIndex];
        AddBytes(name[..k.lenRxName]);
        AppendAssoc(b0, sent, name[..k.lenRxName]);
        sent := sent + name[..k.lenRxName];
        buf.AddByte(rb.scratch.bindReceiverId);
        AppendAssoc(b0, sent, [rb.scratch.bindReceiverId]);
        sent := sent + [rb.scratch.bindReceiverId];
        buf.AddByte(cfg.modelId);
        AppendAssoc(b0, sent, [cfg.modelId]);
        sent := sent + [cfg.modelId];
      } else {
        buf.AddByte(0x00);
        AppendAssoc(b0, sent, [0x00]);
        sent := sent + [0x00];
        AddMapped(env.toChar, cfg.registrationId[..k.lenRegistrationId]);
        AppendAssoc(b0, sent, Mapped(env.toChar, cfg.registrationId[..k.lenRegistrationId]));
        sent := sent + Mapped(env.toChar, cfg.registrationId[..k.lenRegistrationId]);
      }
      assert sent == r.payload;
    }

    /** setupSpectrumAnalyser */
    method SetupSpectrumAnalyser(ms: ModuleSettings, rb: ReusableBuffer)
      requires CanWrite()
      modifies buf, buf.data, ms, rb
      ensures var r := SpectrumFrame(old(Snapshot(ms, rb)));
        buf.Open() && buf.bytes == old(buf.bytes) + r.payload && Snapshot(ms, rb) == r.state
    {
      ghost var b0 := buf.bytes;
      if ms.counter > COUNTER_RESET {
        ms.counter := SPECTRUM_LOCKOUT;
        assert buf.bytes == b0 + [];
        return;
      }

      ms.counter := SPECTRUM_LOCKOUT;

      buf.AddFrameType(PXX2_TYPE_C_POWER_METER, PXX2_TYPE_ID_SPECTRUM);
      ghost var sent := [PXX2_TYPE_C_POWER_METER, PXX2_TYPE_ID_SPECTRUM];
      buf.AddByte(0x00);
      AppendAssoc(b0, sent, [0x00]);
      sent := sent + [0x00];

      rb.scratch := rb.scratch.(spectrumFq := SPECTRUM_FQ);
      buf.AddWord(rb.scratch.spectrumFq);
      AppendAssoc(b0, sent, LE32(SPECTRUM_FQ));
      sent := sent + LE32(SPECTRUM_FQ);

      rb.scratch := rb.scratch.(spectrumSpan := SPECTRUM_SPAN);
      buf.AddWord(rb.scratch.spectrumSpan);
      AppendAssoc(b0, sent, LE32(SPECTRUM_SPAN));
      sent := sent + LE32(SPECTRUM_SPAN);

      rb.scratch := rb.scratch.(spectrumStep := SPECTRUM_STEP);
      buf.AddWord(rb.scratch.spectrumStep);
      AppendAssoc(b0, sent, LE32(SPECTRUM_STEP));
      sent := sent + LE32(SPECTRUM_STEP);
      assert sent == SpectrumPayload();
    }

    /** setupShareMode */
    method SetupShareMode(rb: ReusableBuffer, k: Pxx2Constants)
      requires CanWrite()
      modifies buf, buf.data
      ensures buf.Open() && buf.bytes == old(buf.bytes) + [PXX2_TYPE_C_MODULE, k.typeIdShare, rb.scratch.shareReceiverId]
    {
      buf.AddFrameType(PXX2_TYPE_C_MODULE, k.typeIdShare);
      buf.AddByte(rb.scratch.shareReceiverId);
    }

    /** The switch in setupFrame: the handler of the module's mode. */
    method SetupModeFrame(ms: ModuleSettings, rb: ReusableBuffer, cfg: ModelConfig, env: Env, k: Pxx2Constants)
      returns (bindOk: bool)
      requires CanWrite() && Ready(Snapshot(ms, rb), cfg, env, k)
      modifies buf, buf.data, ms, rb
      ensures var h := Dispatch(old(Snapshot(ms, rb)), cfg, env, k);
        buf.Open() && buf.bytes == old(buf.bytes) + h.payload && Snapshot(ms, rb) == h.state && bindOk == h.bindOk
    {
      bindOk := false;
      match ms.mode {
        case GetHardwareInfo =>
          SetupHardwareInfoFrame(ms, rb, cfg, env, k);
        case ReceiverSettings =>
          SetupReceiverSettingsFrame(ms, rb, cfg, env, k);
        case Register =>
          SetupRegisterFrame(ms, rb, cfg, env, k);
        case Bind =>
          bindOk := SetupBindFrame(ms, rb, cfg, env, k);
        case SpectrumAnalyser =>
          SetupSpectrumAnalyser(ms, rb);
        case Share =>
          SetupShareMode(rb, k);
        case _ =>
          SetupChannelsFrame(ms, cfg, env, k);
      }
    }

    /** setupFrame: a whole frame for the module's current mode, then the
        counter step. The buffer ends up holding the closed frame of the
        cycle's payload (nothing when the payload is empty). */
    method SetupFrame(ms: ModuleSettings, rb: ReusableBuffer, cfg: ModelConfig, env: Env, k: Pxx2Constants)
      returns (bindOk: bool)
      requires Valid() && Ready(Snapshot(ms, rb), cfg, env, k)
      modifies buf, buf.data, ms, rb
      ensures var r := Cycle(old(Snapshot(ms, rb)), cfg, env, k);
        Valid() && buf.bytes == ClosedFrame(r.payload) && Snapshot(ms, rb) == r.state && bindOk == r.bindOk
    {
      ghost var h := Dispatch(Snapshot(ms, rb), cfg, env, k);
      buf.InitFrame();
      bindOk := SetupModeFrame(ms, rb, cfg, env, k);
      assert buf.bytes[2..] == h.payload && buf.crc == Checksum(h.payload);
      ghost var handled := Snapshot(ms, rb);

      // the post-decrement from 0 wraps, and the wrapped value is replaced
      if ms.counter == 0 {
        ms.counter := COUNTER_RESET;
      } else {
        ms.counter := ms.counter - 1;
      }
      assert Snapshot(ms, rb) == handled.(counter := NextCounter(handled.counter));

      CloseOpenFrame(h.payload);
      buf.EndFrame();
    }
  }
}
