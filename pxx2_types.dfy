// Shared vocabulary of the PXX2 frame builder: the enumerations the
// source switches on, the constants it takes from headers outside the
// model, and the read-only inputs it consumes each cycle.

module Pxx2Types {

  /** C's fixed-width unsigned integers, as integer ranges: every store
      into one of them is written out with an explicit truncation. */
  type uint8 = x: int | 0 <= x < 0x100
  type uint16 = x: int | 0 <= x < 0x1_0000
  type uint32 = x: int | 0 <= x < 0x1_0000_0000
  type int8 = x: int | -0x80 <= x < 0x80

  function Pow2(n: nat): (r: nat)
    ensures r >= 1
  {
    if n == 0 then 1 else 2 * Pow2(n - 1)
  }

  /** The low n bits of a | b, bit by bit from the least significant. */
  function OrBits(a: nat, b: nat, n: nat): (r: nat)
    ensures r < Pow2(n)
  {
    if n == 0 then 0
    else 2 * OrBits(a / 2, b / 2, n - 1) + (if a % 2 == 1 || b % 2 == 1 then 1 else 0)
  }

  /** The low n bits of a & b, bit by bit from the least significant. */
  function AndBits(a: nat, b: nat, n: nat): (r: nat)
    ensures r < Pow2(n)
  {
    if n == 0 then 0
    else 2 * AndBits(a / 2, b / 2, n - 1) + (if a % 2 == 1 && b % 2 == 1 then 1 else 0)
  }

  /** C's `|` on two bytes. */
  function BitOr(a: uint8, b: uint8): uint8
  {
    OrBits(a, b, 8)
  }

  /** C's `&` on two bytes. */
  function BitAnd(a: uint8, b: uint8): uint8
  {
    AndBits(a, b, 8)
  }

  // The algebra of & and | the flag bytes rely on, on n-bit values.

  lemma {:induction false} AndComm(a: nat, b: nat, n: nat)
    ensures AndBits(a, b, n) == AndBits(b, a, n)
  {
    if n > 0 {
      AndComm(a / 2, b / 2, n - 1);
    }
  }

  lemma {:induction false} AndAssoc(a: nat, b: nat, c: nat, n: nat)
    ensures AndBits(AndBits(a, b, n), c, n) == AndBits(a, AndBits(b, c, n), n)
  {
    if n > 0 {
      var ab, bc := AndBits(a, b, n), AndBits(b, c, n);
      assert ab / 2 == AndBits(a / 2, b / 2, n - 1) && ab % 2 == (if a % 2 == 1 && b % 2 == 1 then 1 else 0);
      assert bc / 2 == AndBits(b / 2, c / 2, n - 1) && bc % 2 == (if b % 2 == 1 && c % 2 == 1 then 1 else 0);
      AndAssoc(a / 2, b / 2, c / 2, n - 1);
    }
  }

  /** An n-bit value masked with itself is unchanged. */
  lemma {:induction false} AndSelf(a: nat, n: nat)
    requires a < Pow2(n)
    ensures AndBits(a, a, n) == a
  {
    if n > 0 {
      AndSelf(a / 2, n - 1);
    }
  }

  lemma {:induction false} AndZero(a: nat, n: nat)
    ensures AndBits(a, 0, n) == 0
  {
    if n > 0 {
      AndZero(a / 2, n - 1);
    }
  }

  /** Or-ing in nothing leaves an n-bit value unchanged. */
  lemma {:induction false} OrZero(a: nat, n: nat)
    requires a < Pow2(n)
    ensures OrBits(a, 0, n) == a && OrBits(0, a, n) == a
  {
    if n > 0 {
      OrZero(a / 2, n - 1);
    }
  }

  /** Or-ing in a non-zero n-bit value gives a non-zero result. */
  lemma {:induction false} OrNonZero(a: nat, b: nat, n: nat)
    requires 0 < b < Pow2(n)
    ensures OrBits(a, b, n) != 0
  {
    if b % 2 == 0 {
      OrNonZero(a / 2, b / 2, n - 1);
    }
  }

  /** & distributes over |. */
  lemma {:induction false} AndOrDistrib(a: nat, b: nat, c: nat, n: nat)
    ensures AndBits(OrBits(a, b, n), c, n) == OrBits(AndBits(a, c, n), AndBits(b, c, n), n)
  {
    if n > 0 {
      var ab, ac, bc := OrBits(a, b, n), AndBits(a, c, n), AndBits(b, c, n);
      assert ab / 2 == OrBits(a / 2, b / 2, n - 1) && ab % 2 == (if a % 2 == 1 || b % 2 == 1 then 1 else 0);
      assert ac / 2 == AndBits(a / 2, c / 2, n - 1) && ac % 2 == (if a % 2 == 1 && c % 2 == 1 then 1 else 0);
      assert bc / 2 == AndBits(b / 2, c / 2, n - 1) && bc % 2 == (if b % 2 == 1 && c % 2 == 1 then 1 else 0);
      AndOrDistrib(a / 2, b / 2, c / 2, n - 1);
    }
  }

  /** Or-ing a flag into a byte leaves the bits of any mask the flag is
      clear of unchanged. */
  lemma OrMaskedOut(x: uint8, flag: uint8, mask: uint8)
    requires BitAnd(flag, mask) == 0
    ensures BitAnd(BitOr(x, flag), mask) == BitAnd(x, mask)
  {
    AndOrDistrib(x, flag, mask, 8);
    OrZero(BitAnd(x, mask), 8);
  }

  /** Or-ing a non-zero flag into a byte sets it: the byte tests non-zero
      against the flag. */
  lemma OrSetsFlag(x: uint8, flag: uint8)
    requires flag != 0
    ensures BitAnd(BitOr(x, flag), flag) != 0
  {
    AndOrDistrib(x, flag, flag, 8);
    AndSelf(flag, 8);
    OrNonZero(BitAnd(x, flag), flag, 8);
  }

  /** Frame categories and identifiers defined in pulses/pxx2.h. */
  const PXX2_TYPE_C_MODULE: uint8 := 0x01
  const PXX2_TYPE_ID_REGISTER: uint8 := 0x01
  const PXX2_TYPE_ID_BIND: uint8 := 0x02
  const PXX2_TYPE_ID_CHANNELS: uint8 := 0x03
  const PXX2_TYPE_C_POWER_METER: uint8 := 0x02
  const PXX2_TYPE_ID_SPECTRUM: uint8 := 0x02

  /** Failsafe policy configured for a module (g_model.moduleData[m].failsafeMode). */
  datatype FailsafeMode =
    | FailsafeNotSet
    | FailsafeHold
    | FailsafeCustom
    | FailsafeNoPulses
    | FailsafeReceiver

  /** moduleSettings[m].mode. OtherMode stands for every mode the frame
      builder has no case for: those fall to the channels frame. */
  datatype ModuleMode =
    | Normal
    | RangeCheck
    | GetHardwareInfo
    | ReceiverSettings
    | Register
    | Bind
    | SpectrumAnalyser
    | Share
    | OtherMode

  /** PXX2RegisterSteps */
  datatype RegisterStep =
    | RegisterStart
    | RegisterRxNameReceived
    | RegisterRxNameSelected
    | RegisterOk

  /** PXX2BindSteps */
  datatype BindStep =
    | BindStart
    | BindRxNameReceived
    | BindRxNameSelected
    | BindWait
    | BindOk

  /** reusableBuffer.receiverSetup.state: the frame builder only asks
      whether it is the write state. */
  datatype ReceiverSettingsState = SettingsRead | SettingsWrite

  /** Values the frame builder uses but that are defined in headers
      outside this model (io/frsky_pxx2.h and the model-data constants).
      They are parameters, so every property below holds for any choice
      meeting the stated conditions. */
  datatype Pxx2Constants = Pxx2Constants(
    typeIdHwInfo: uint8,                    // PXX2_TYPE_ID_HW_INFO
    typeIdRxSettings: uint8,                // PXX2_TYPE_ID_RX_SETTINGS
    typeIdShare: uint8,                     // PXX2_TYPE_ID_SHARE
    channelsFlag0Failsafe: uint8,           // PXX2_CHANNELS_FLAG0_FAILSAFE
    channelsFlag0RangeCheck: uint8,         // PXX2_CHANNELS_FLAG0_RANGECHECK
    rxSettingsFlag0Write: uint8,            // PXX2_RX_SETTINGS_FLAG0_WRITE
    rxSettingsFlag1TelemetryDisabled: uint8, // PXX2_RX_SETTINGS_FLAG1_TELEMETRY_DISABLED
    rxSettingsFlag1FastPwm: uint8,          // PXX2_RX_SETTINGS_FLAG1_FASTPWM
    lenRxName: nat,                         // PXX2_LEN_RX_NAME
    lenRegistrationId: nat,                 // PXX2_LEN_REGISTRATION_ID
    maxReceiversPerModule: int,             // PXX2_MAX_RECEIVERS_PER_MODULE
    failsafeChannelHold: int,               // FAILSAFE_CHANNEL_HOLD
    failsafeChannelNoPulse: int)            // FAILSAFE_CHANNEL_NOPULSE
  {
    /** What the frame builder relies on without checking: the register
        and bind payloads fit the 60 bytes the 64-byte buffer leaves after
        head and checksum, and the hardware-info
        step (an int8_t) never overflows when it is incremented. */
    predicate Valid()
    {
      lenRxName + lenRegistrationId + 4 <= 60 && lenRxName + 5 <= 60 &&
      maxReceiversPerModule <= 127
    }

    /** The two channels-frame flag bits are distinct single-purpose bits
        above the 6-bit model id that shares their byte. */
    predicate ChannelFlagsDisjoint()
    {
      channelsFlag0Failsafe != 0 && channelsFlag0RangeCheck != 0 &&
      BitAnd(channelsFlag0Failsafe, 0x3F) == 0 && BitAnd(channelsFlag0RangeCheck, 0x3F) == 0 &&
      BitAnd(channelsFlag0Failsafe, channelsFlag0RangeCheck) == 0
    }
  }

  /** The slice of g_model the frame builder reads for one module. */
  datatype ModelConfig = ModelConfig(
    modelId: uint8,                         // g_model.header.modelId[module]
    failsafeMode: FailsafeMode,             // g_model.moduleData[module].failsafeMode
    failsafeChannels: seq<int>,             // g_model.failsafeChannels (int16_t each)
    channelsStart: nat,                     // g_model.moduleData[module].channelsStart
    registrationId: seq<uint8>)             // g_model.modelRegistrationID (zchar)

  /** Everything else the frame builder reads from outside: the clock,
      the mixer outputs, the channel centres, the channel count and the
      zchar decoder. */
  datatype Env = Env(
    tick: nat,                              // get_tmr10ms()
    channelOutputs: seq<int>,               // channelOutputs[]
    channelCenters: seq<int>,               // PPM_CH_CENTER(ch)
    ppmCenter: int,                         // PPM_CENTER
    sentChannels: nat,                      // sentModuleChannels(module)
    toChar: uint8 -> uint8)                 // zchar2char
}
