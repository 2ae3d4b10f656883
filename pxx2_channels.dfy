// The channel encoder of pulses/pxx2.cpp: the value sent for one channel
// (live output rescaled, or a failsafe substitute) and the packing of
// pairs of 12-bit values into byte triplets.

module Pxx2Channels {
  import opened Pxx2Types

  /** Channels per group: one addChannels call. */
  const GROUP_SIZE: nat := 8
  /** The pulse value meaning "hold the last position". */
  const PULSE_HOLD: uint16 := 2047
  /** The pulse value meaning "stop sending pulses". */
  const PULSE_NONE: uint16 := 0

  // ---------------------------------------------------------------------
  // One channel

  /** C's integer division, which truncates toward zero (Dafny's `/` is
      Euclidean and differs for negative dividends). */
  function CDiv(a: int, b: int): int
    requires b > 0
  {
    if a >= 0 then a / b else -((-a) / b)
  }

  /** limit(vmin, x, vmax): x clamped into [vmin, vmax]. */
  function Limit(lo: int, x: int, hi: int): (r: int)
    requires lo <= hi
    ensures lo <= r <= hi
    ensures lo <= x <= hi ==> r == x
    ensures x < lo ==> r == lo
    ensures hi < x ==> r == hi
  {
    if x < lo then lo else if x > hi then hi else x
  }

  /** Storing into an int16_t: the value modulo 2^16, read as signed. */
  function ToInt16(x: int): (r: int)
    ensures -0x8000 <= r < 0x8000
    ensures (x - r) % 0x1_0000 == 0
    ensures -0x8000 <= x < 0x8000 ==> r == x
  {
    (x + 0x8000) % 0x1_0000 - 0x8000
  }

  /** The recentring term 2*PPM_CH_CENTER(ch) - 2*PPM_CENTER. */
  function CenterOffset(env: Env, ch: nat): int
    requires ch < |env.channelCenters|
  {
    2 * env.channelCenters[ch] - 2 * env.ppmCenter
  }

  /** A recentred channel value mapped onto the protocol's pulse range:
      value * 512 / 682 + 1024, clamped to [1, 2046]. */
  function Rescale(value: int): (r: uint16)
    ensures 1 <= r <= 2046
    ensures value == 0 ==> r == 1024
  {
    Limit(1, CDiv(value * 512, 682) + 1024, 2046)
  }

  /** The value addChannels sends for channel ch. */
  function ChannelValue(sendFailsafe: bool, cfg: ModelConfig, env: Env, k: Pxx2Constants, ch: nat): (r: uint16)
    requires ch < |env.channelOutputs| && ch < |env.channelCenters| && ch < |cfg.failsafeChannels|
    ensures r <= PULSE_HOLD
  {
    if sendFailsafe then
      if cfg.failsafeMode == FailsafeHold then PULSE_HOLD
      else if cfg.failsafeMode == FailsafeNoPulses then PULSE_NONE
      else
        var failsafeValue := cfg.failsafeChannels[ch];
        if failsafeValue == k.failsafeChannelHold then PULSE_HOLD
        else if failsafeValue == k.failsafeChannelNoPulse then PULSE_NONE
        else Rescale(ToInt16(failsafeValue + CenterOffset(env, ch)))
    else
      Rescale(env.channelOutputs[ch] + CenterOffset(env, ch))
  }

  /** Whether channels first .. first+7 can be read. */
  predicate GroupInRange(cfg: ModelConfig, env: Env, first: nat)
  {
    first + GROUP_SIZE <= |env.channelOutputs| &&
    first + GROUP_SIZE <= |env.channelCenters| &&
    first + GROUP_SIZE <= |cfg.failsafeChannels|
  }

  /** The values sent for channels first .. first+n-1, in channel order. */
  function ChannelValues(sendFailsafe: bool, cfg: ModelConfig, env: Env, k: Pxx2Constants, first: nat, n: nat): (r: seq<uint16>)
    requires first + n <= |env.channelOutputs| && first + n <= |env.channelCenters| &&
             first + n <= |cfg.failsafeChannels|
    ensures |r| == n && Is12Bit(r)
  {
    if n == 0 then []
    else
      var front := ChannelValues(sendFailsafe, cfg, env, k, first, n - 1);
      var r := front + [ChannelValue(sendFailsafe, cfg, env, k, first + n - 1)];
      assert forall i :: 0 <= i < n - 1 ==> r[i] == front[i];
      r
  }

  /** The eight values one addChannels call sends, in channel order. */
  function GroupValues(sendFailsafe: bool, cfg: ModelConfig, env: Env, k: Pxx2Constants, first: nat): (r: seq<uint16>)
    requires GroupInRange(cfg, env, first)
    ensures |r| == GROUP_SIZE && Is12Bit(r)
  {
    ChannelValues(sendFailsafe, cfg, env, k, first, GROUP_SIZE)
  }

  // ---------------------------------------------------------------------
  // Packing

  predicate Is12Bit(vs: seq<uint16>)
  {
    forall i :: 0 <= i < |vs| ==> vs[i] < 0x1000
  }

  /** Two 12-bit values as three bytes: low byte of lo; high nibble of lo
      in the low half and low nibble of hi in the high half; then the top
      byte of hi. The nibbles occupy disjoint bits, so the source's `|` is
      the sum written here, and the uint8_t truncation of hi shifted left
      by four keeps only hi's low nibble, moved up. */
  function PackPair(lo: uint16, hi: uint16): (r: seq<uint8>)
    requires lo < 0x1000 && hi < 0x1000
    ensures |r| == 3
  {
    [lo % 0x100, (lo / 0x100) % 0x10 + (hi % 0x10) * 0x10, (hi / 0x10) % 0x100]
  }

  /** The receiver's reading of a byte triplet. */
  function UnpackPair(b: seq<uint8>): (uint16, uint16)
    requires |b| == 3
  {
    (b[0] + (b[1] as int % 0x10) * 0x100, b[1] / 0x10 + b[2] as int * 0x10)
  }

  /** The receiver reads back both values of a packed pair. */
  lemma UnpackPackPair(lo: uint16, hi: uint16)
    requires lo < 0x1000 && hi < 0x1000
    ensures UnpackPair(PackPair(lo, hi)) == (lo, hi)
  {
  }

  /** Values packed two at a time, in order. */
  function EncodeGroup(vs: seq<uint16>): (r: seq<uint8>)
    requires |vs| % 2 == 0 && Is12Bit(vs)
    ensures 2 * |r| == 3 * |vs|
  {
    if vs == [] then []
    else EncodeGroup(vs[..|vs| - 2]) + PackPair(vs[|vs| - 2], vs[|vs| - 1])
  }

  /** Byte triplets unpacked back into values. */
  function DecodeGroup(b: seq<uint8>): (r: seq<uint16>)
    requires |b| % 3 == 0
    ensures 3 * |r| == 2 * |b|
  {
    if b == [] then []
    else
      var pair := UnpackPair(b[|b| - 3..]);
      DecodeGroup(b[..|b| - 3]) + [pair.0, pair.1]
  }

  /** The bytes addChannels has emitted once it has packed its first
      `pairs` pairs of channels: one triplet per pair, in channel order. */
  function PairBytes(sendFailsafe: bool, cfg: ModelConfig, env: Env, k: Pxx2Constants, first: nat, pairs: nat): (r: seq<uint8>)
    requires pairs <= GROUP_SIZE / 2 && GroupInRange(cfg, env, first)
    ensures |r| == 3 * pairs
  {
    if pairs == 0 then []
    else
      PairBytes(sendFailsafe, cfg, env, k, first, pairs - 1) +
      PackPair(ChannelValue(sendFailsafe, cfg, env, k, first + 2 * pairs - 2),
               ChannelValue(sendFailsafe, cfg, env, k, first + 2 * pairs - 1))
  }

  // ---------------------------------------------------------------------
  // Lemmas

  /** Decoding the packed bytes gives back every 12-bit value. */
  lemma {:induction false} DecodeEncodeGroup(vs: seq<uint16>)
    requires |vs| % 2 == 0 && Is12Bit(vs)
    ensures DecodeGroup(EncodeGroup(vs)) == vs
    decreases |vs|
  {
    if vs != [] {
      var front := vs[..|vs| - 2];
      DecodeGroupSnoc(EncodeGroup(front), vs[|vs| - 2], vs[|vs| - 1]);
      DecodeEncodeGroup(front);
      assert vs == front + [vs[|vs| - 2], vs[|vs| - 1]];
    }
  }

  /** Emitting pair by pair is packing the run of values: the triplets of
      the first `pairs` pairs are the encoding of the first 2 * pairs values. */
  lemma {:induction false} PairBytesEncode(sendFailsafe: bool, cfg: ModelConfig, env: Env, k: Pxx2Constants, first: nat, pairs: nat)
    requires pairs <= GROUP_SIZE / 2 && GroupInRange(cfg, env, first)
    ensures PairBytes(sendFailsafe, cfg, env, k, first, pairs) ==
            EncodeGroup(ChannelValues(sendFailsafe, cfg, env, k, first, 2 * pairs))
  {
    if pairs > 0 {
      PairBytesEncode(sendFailsafe, cfg, env, k, first, pairs - 1);
      EncodeNextPair(sendFailsafe, cfg, env, k, first, pairs - 1);
    } else {
      assert ChannelValues(sendFailsafe, cfg, env, k, first, 2 * pairs) == [];
    }
  }

  /** Encoding the values of two more channels appends the triplet of
      their pair. */
  lemma EncodeNextPair(sendFailsafe: bool, cfg: ModelConfig, env: Env, k: Pxx2Constants, first: nat, pairs: nat)
    requires pairs < GROUP_SIZE / 2 && GroupInRange(cfg, env, first)
    ensures EncodeGroup(ChannelValues(sendFailsafe, cfg, env, k, first, 2 * pairs + 2)) ==
            EncodeGroup(ChannelValues(sendFailsafe, cfg, env, k, first, 2 * pairs)) +
            PackPair(ChannelValue(sendFailsafe, cfg, env, k, first + 2 * pairs),
                     ChannelValue(sendFailsafe, cfg, env, k, first + 2 * pairs + 1))
  {
    var n := 2 * pairs;
    assert n % 2 == 0;
    var lo := ChannelValue(sendFailsafe, cfg, env, k, first + n);
    var hi := ChannelValue(sendFailsafe, cfg, env, k, first + n + 1);
    ChannelValuesSnocPair(sendFailsafe, cfg, env, k, first, n);
    EncodeGroupSnoc(ChannelValues(sendFailsafe, cfg, env, k, first, n), lo, hi);
  }

  /** The step of addChannels on an odd channel: the pair it packs, the
      values of the next two channels, extends the bytes sent so far. */
  lemma PairBytesStep(sent: seq<uint8>, sendFailsafe: bool, cfg: ModelConfig, env: Env, k: Pxx2Constants,
                      first: nat, pairs: nat, lo: uint16, hi: uint16)
    requires pairs < GROUP_SIZE / 2 && GroupInRange(cfg, env, first)
    requires lo == ChannelValue(sendFailsafe, cfg, env, k, first + 2 * pairs)
    requires hi == ChannelValue(sendFailsafe, cfg, env, k, first + 2 * pairs + 1)
    ensures sent + PairBytes(sendFailsafe, cfg, env, k, first, pairs) + PackPair(lo, hi) ==
            sent + PairBytes(sendFailsafe, cfg, env, k, first, pairs + 1)
  {
    AppendAssoc(sent, PairBytes(sendFailsafe, cfg, env, k, first, pairs), PackPair(lo, hi));
  }

  /** Unpacking one more triplet appends its pair of values. */
  lemma DecodeGroupSnoc(b: seq<uint8>, lo: uint16, hi: uint16)
    requires |b| % 3 == 0 && lo < 0x1000 && hi < 0x1000
    ensures DecodeGroup(b + PackPair(lo, hi)) == DecodeGroup(b) + [lo, hi]
  {
    var c := b + PackPair(lo, hi);
    assert c[..|c| - 3] == b;
    assert c[|c| - 3..] == PackPair(lo, hi);
    UnpackPackPair(lo, hi);
  }

  /** Packing two more values appends their triplet. */
  lemma EncodeGroupSnoc(vs: seq<uint16>, lo: uint16, hi: uint16)
    requires |vs| % 2 == 0 && Is12Bit(vs) && lo < 0x1000 && hi < 0x1000
    ensures Is12Bit(vs + [lo, hi])
    ensures EncodeGroup(vs + [lo, hi]) == EncodeGroup(vs) + PackPair(lo, hi)
  {
    var ws := vs + [lo, hi];
    assert ws[..|ws| - 2] == vs;
  }

  /** Appending regroups: a prefix, then the concatenation of the rest. */
  lemma AppendAssoc4<T>(a: seq<T>, b: seq<T>, c: seq<T>, d: seq<T>, e: seq<T>)
    ensures a + b + c + d + e == a + (b + c + d + e)
  {
    AppendAssoc(a, b, c);
    AppendAssoc(a, b + c, d);
    AppendAssoc(a, b + c + d, e);
  }

  lemma AppendAssoc3<T>(a: seq<T>, b: seq<T>, c: seq<T>, d: seq<T>)
    ensures a + b + c + d == a + (b + c + d)
  {
    AppendAssoc(a, b, c);
    AppendAssoc(a, b + c, d);
  }

  lemma AppendAssoc<T>(a: seq<T>, b: seq<T>, c: seq<T>)
    ensures a + b + c == a + (b + c)
  {
  }

  /** The i-th of the eight values is that of channel first + i. */
  lemma GroupValueAt(sendFailsafe: bool, cfg: ModelConfig, env: Env, k: Pxx2Constants, first: nat, i: nat)
    requires GroupInRange(cfg, env, first) && i < GROUP_SIZE
    ensures GroupValues(sendFailsafe, cfg, env, k, first)[i] == ChannelValue(sendFailsafe, cfg, env, k, first + i)
  {
    ChannelValuesAt(sendFailsafe, cfg, env, k, first, GROUP_SIZE, i);
  }

  /** One more channel appends its value to the run. */
  lemma ChannelValuesSnoc(sendFailsafe: bool, cfg: ModelConfig, env: Env, k: Pxx2Constants, first: nat, n: nat)
    requires first + n < |env.channelOutputs| && first + n < |env.channelCenters| &&
             first + n < |cfg.failsafeChannels|
    ensures ChannelValues(sendFailsafe, cfg, env, k, first, n + 1) ==
            ChannelValues(sendFailsafe, cfg, env, k, first, n) + [ChannelValue(sendFailsafe, cfg, env, k, first + n)]
  {
  }

  /** Two more channels extend the sequence by their pair of values. */
  lemma ChannelValuesSnocPair(sendFailsafe: bool, cfg: ModelConfig, env: Env, k: Pxx2Constants, first: nat, n: nat)
    requires first + n + 1 < |env.channelOutputs| && first + n + 1 < |env.channelCenters| &&
             first + n + 1 < |cfg.failsafeChannels|
    ensures ChannelValues(sendFailsafe, cfg, env, k, first, n + 2) ==
            ChannelValues(sendFailsafe, cfg, env, k, first, n) +
            [ChannelValue(sendFailsafe, cfg, env, k, first + n), ChannelValue(sendFailsafe, cfg, env, k, first + n + 1)]
  {
    ChannelValuesSnoc(sendFailsafe, cfg, env, k, first, n);
    ChannelValuesSnoc(sendFailsafe, cfg, env, k, first, n + 1);
    AppendAssoc(ChannelValues(sendFailsafe, cfg, env, k, first, n),
                [ChannelValue(sendFailsafe, cfg, env, k, first + n)],
                [ChannelValue(sendFailsafe, cfg, env, k, first + n + 1)]);
  }

  /** C's division truncates toward zero: the quotient of a non-negative
      dividend rounds down, that of a negative one rounds up (shown for the
      divisor 682 that the pulse mapping uses). */
  lemma CDivTruncates(a: int)
    ensures 0 <= a ==> 0 <= CDiv(a, 682) && CDiv(a, 682) * 682 <= a < CDiv(a, 682) * 682 + 682
    ensures a < 0 ==> CDiv(a, 682) <= 0 && CDiv(a, 682) * 682 - 682 < a <= CDiv(a, 682) * 682
  {
  }

  /** The failsafe substitutes: a channel is sent as "hold" exactly when
      failsafe is being sent and the module-wide mode or that channel's
      custom setting says hold; as "no pulse" exactly when failsafe is
      being sent and the mode or the channel says no pulses; a custom
      failsafe value is recentred in 16 bits and rescaled; outside
      failsafe the live output is sent, rescaled. */
  lemma ChannelValueCases(sendFailsafe: bool, cfg: ModelConfig, env: Env, k: Pxx2Constants, ch: nat)
    requires ch < |env.channelOutputs| && ch < |env.channelCenters| && ch < |cfg.failsafeChannels|
    ensures var r := ChannelValue(sendFailsafe, cfg, env, k, ch);
      (r == PULSE_HOLD <==>
        sendFailsafe &&
        (cfg.failsafeMode == FailsafeHold ||
         (cfg.failsafeMode != FailsafeNoPulses && cfg.failsafeChannels[ch] == k.failsafeChannelHold))) &&
      (r == PULSE_NONE <==>
        sendFailsafe &&
        (cfg.failsafeMode == FailsafeNoPulses ||
         (cfg.failsafeMode != FailsafeHold && cfg.failsafeChannels[ch] != k.failsafeChannelHold &&
          cfg.failsafeChannels[ch] == k.failsafeChannelNoPulse))) &&
      (sendFailsafe && cfg.failsafeMode != FailsafeHold && cfg.failsafeMode != FailsafeNoPulses &&
       cfg.failsafeChannels[ch] != k.failsafeChannelHold && cfg.failsafeChannels[ch] != k.failsafeChannelNoPulse ==>
         r == Rescale(ToInt16(cfg.failsafeChannels[ch] + CenterOffset(env, ch)))) &&
      (!sendFailsafe ==> r == Rescale(env.channelOutputs[ch] + CenterOffset(env, ch)))
  {
  }

  /** The i-th value of a run is the value of channel first + i. */
  lemma {:induction false} ChannelValuesAt(sendFailsafe: bool, cfg: ModelConfig, env: Env, k: Pxx2Constants, first: nat, n: nat, i: nat)
    requires first + n <= |env.channelOutputs| && first + n <= |env.channelCenters| &&
             first + n <= |cfg.failsafeChannels|
    requires i < n
    ensures ChannelValues(sendFailsafe, cfg, env, k, first, n)[i] == ChannelValue(sendFailsafe, cfg, env, k, first + i)
  {
    if i < n - 1 {
      ChannelValuesAt(sendFailsafe, cfg, env, k, first, n - 1, i);
    }
  }

  /** Truncating division by 682 preserves order. */
  lemma CDivMonotone(a: int, b: int)
    requires a <= b
    ensures CDiv(a, 682) <= CDiv(b, 682)
  {
  }

  /** The pulse mapping is order-preserving: a larger channel value never
      gives a smaller pulse. */
  lemma RescaleMonotone(a: int, b: int)
    requires a <= b
    ensures Rescale(a) <= Rescale(b)
  {
    CDivMonotone(a * 512, b * 512);
  }

  /** The live pulse equals the unclamped formula exactly when that stays
      in [1, 2046]; below it is 1 and above it is 2046. */
  lemma RescaleClamp(value: int)
    ensures var raw := CDiv(value * 512, 682) + 1024;
      (raw < 1 ==> Rescale(value) == 1) &&
      (2046 < raw ==> Rescale(value) == 2046) &&
      (1 <= raw <= 2046 ==> Rescale(value) == raw)
  {
  }
}
