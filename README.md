# PXX2 frame builder

A Dafny model of the PXX2 frame builder of OpenTX (`radio/src/pulses/pxx2.h`
and `radio/src/pulses/pxx2.cpp`): the layer that, once per cycle and per RF
module, fills a 64-byte buffer with the next frame for the module.

The model has three layers, as the source does:

- **Frame writer** (`pxx2_frame.dfy`, module `Pxx2Frame`). The class
  `FrameWriter` combines `Pxx2CrcMixin`, `Pxx2Transport` and the framing
  members of `Pxx2Pulses`. It holds the 64-byte `data` array, the write
  position `len` and the 16-bit `crc`. Every method is proved against byte
  sequences: the sync byte `0x7E` and the LEN byte are not checksummed; every
  later byte is subtracted from a checksum that starts at `0xFFFF`; `endFrame`
  patches LEN and appends the checksum high byte first, or empties the buffer
  when nothing follows the head. `ClosedFrame` is the frame a payload
  becomes. `ParseFrame` is an independent reading of a frame, as a receiver
  does it, and the two are proved inverse.
- **Channel encoder** (`pxx2_channels.dfy`, module `Pxx2Channels`). It gives
  the value sent for one channel: the failsafe substitutes 2047 and 0, or the
  recentred value rescaled by 512/682 and clamped to [1, 2046]. C's
  truncating division and the `int16_t` store of the failsafe sum are written
  out. It also packs pairs of 12-bit values into byte triplets, with the
  unpacking that inverts it.
- **Mode state machine** (`pxx2_modes.dfy`, module `Pxx2Modes`, and
  `pxx2_pulses.dfy`, module `Pxx2Pulses`). `Pxx2Modes` states, as pure
  functions, what one `setupFrame` call emits and how it changes the module's
  mode, its counter and the scratch fields of `reusableBuffer`. It also
  proves what the protocol promises. The class `Pxx2Pulses.Pxx2Pulses`
  holds the handlers as imperative methods over a `FrameWriter` and two state
  objects: `ModuleSettings` (mode and counter) and `ReusableBuffer` (the
  scratch fields). Each handler is proved to produce exactly the bytes and
  the state its pure counterpart gives. `setupFrame` leaves the buffer holding
  `ClosedFrame` of the cycle's payload.

A few source functions do their work in one long body. Their parts are
separate methods here, so that each proof stays small:

- `ChannelPulse` and `AddPair` are the two halves of the loop body of
  `addChannels`.
- `AddChannelGroups` is the second half of `setupChannelsFrame`.
- `SendHardwareInfoQuery` and `SendReceiverSettings` are the sending branches
  of their handlers.
- `AddBytes` and `AddMapped` are the byte loops of the register, bind and
  receiver-settings frames.
- `SetupModeFrame` is the `switch` of `setupFrame`.

Inputs from outside the core are parameters:

- `Env` holds the tick (`get_tmr10ms()`), `channelOutputs`, the channel
  centres and `PPM_CENTER`, `sentModuleChannels`, and `zchar2char`.
- `ModelConfig` holds the slice of `g_model` for the module.
- `Pxx2Constants` holds the constants of `io/frsky_pxx2.h`, which is not part
  of this model. Every property holds for any values meeting
  `Pxx2Constants.Valid` (the longest payload fits the buffer, the step cannot
  overflow) and, where flag bits are read back, `ChannelFlagsDisjoint` (the
  two channel flags are distinct bits above the 6-bit model id). The
  receiver-settings flag lemmas likewise assume the flags are non-zero, the
  two flag1 bits are distinct, and the receiver id does not overlap the
  write bit.

Behaviour of the code worth noting, which the model keeps:

- The spectrum request is not re-armed once the counter passes 1000. The
  handler parks the counter at 1002 in every cycle, so the next cycle reads
  1001 and stays silent for as long as the mode lasts (`SpectrumLockout`).
- A cycle can be silent in two cases, not only in the bind wait state: the
  bind wait state and the spectrum lockout (`CycleSilentIff`).
- The bind confirmation carries the selected receiver's name bytes as stored,
  `PXX2_LEN_RX_NAME` of them, without padding or conversion
  (`BindSelectedLayout`).
- Appending to a full buffer is not checked at run time. The source writes
  through a raw pointer; the model makes room a precondition of every append
  and proves that every handler meets it.

## Model

| member | source | states |
|---|---|---|
| `Pxx2Frame.FrameWriter.InitCrc` | radio/src/pulses/pxx2.h:66-69 | the checksum restarts at 0xFFFF and nothing else changes |
| `Pxx2Frame.FrameWriter.AddToCrc` | radio/src/pulses/pxx2.h:71-74 | the byte is subtracted from the 16-bit checksum, wrapping modulo 2^16 |
| `Pxx2Frame.FrameWriter.InitBuffer` | radio/src/pulses/pxx2.h:151-152 | the buffer is emptied; the checksum is not touched |
| `Pxx2Frame.FrameWriter.AddByteWithoutCrc` | radio/src/pulses/pxx2.h:95-98 | appends exactly the byte, leaves the checksum alone, and needs a free slot |
| `Pxx2Frame.FrameWriter.AddByte` | radio/src/pulses/pxx2.h:89-93 | appends exactly the byte and subtracts it from the checksum; in an open frame the checksum stays the checksum of every byte after the head |
| `Pxx2Frame.FrameWriter.AddWord` | radio/src/pulses/pxx2.h:81-87 | appends the four bytes of the word, least significant first, all checksummed |
| `Pxx2Frame.FrameWriter.AddHead` | radio/src/pulses/pxx2.h:116-123 | appends the sync byte 0x7E and a zero LEN byte, neither checksummed |
| `Pxx2Frame.FrameWriter.AddFrameType` | radio/src/pulses/pxx2.h:125-132 | appends the category then the identifier, both checksummed, keeping the frame open |
| `Pxx2Frame.FrameWriter.AddCrc` | radio/src/pulses/pxx2.h:140-144 | appends the checksum, high byte first, without checksumming it |
| `Pxx2Frame.FrameWriter.InitFrame` | radio/src/pulses/pxx2.h:146-156 | the buffer is exactly [0x7E, 0x00], the checksum is 0xFFFF, and a frame is open |
| `Pxx2Frame.FrameWriter.EndFrame` | radio/src/pulses/pxx2.h:158-172 | with only the head the buffer becomes empty; otherwise LEN becomes the byte count after the head, every other byte is kept and the checksum trailer is appended |
| `Pxx2Frame.CrcBytes` | radio/src/pulses/pxx2.h:140-144 | the trailer is two bytes whose big-endian reading is the checksum |
| `Pxx2Frame.ClosedFrame` | radio/src/pulses/pxx2.h:158-172 | a closed frame is empty for an empty payload, else payload length plus four, and never exceeds the 64-byte buffer |
| `Pxx2Frame.ParseFrame` | radio/src/pulses/pxx2.h:158-168 | a frame a receiver accepts carries a non-empty payload of at most 60 bytes, four bytes shorter than the frame |
| `Pxx2Frame.ChecksumSnoc` | radio/src/pulses/pxx2.h:71-74 | checksumming one more byte subtracts it from the checksum so far |
| `Pxx2Frame.CrcAfterConcat` | radio/src/pulses/pxx2.h:71-74 | checksumming two runs one after the other is checksumming their concatenation |
| `Pxx2Frame.CrcAfterIsSubtractedSum` | radio/src/pulses/pxx2.h:66-74 | the running checksum equals its start value minus the arithmetic sum of the bytes, modulo 2^16 |
| `Pxx2Frame.ReadLE32OfLE32` | radio/src/pulses/pxx2.h:81-87 | reading back the four bytes of a word gives the word |
| `Pxx2Frame.LE32OfReadLE32` | radio/src/pulses/pxx2.h:81-87 | writing out the word read from four bytes gives the four bytes |
| `Pxx2Frame.ClosedFrameChecksum` | radio/src/pulses/pxx2.h:140-168 | in every closed frame the last two bytes, read big-endian, equal 0xFFFF minus the sum of the bytes between LEN and the trailer, modulo 2^16 |
| `Pxx2Frame.ParseClosedFrame` | radio/src/pulses/pxx2.h:146-172 | a receiver reads back exactly the payload of every non-empty closed frame |
| `Pxx2Frame.ParsedFrameIsClosed` | radio/src/pulses/pxx2.h:146-172 | every frame a receiver accepts is the closed frame of the payload it reads |
| `Pxx2Frame.CloseOpenFrame` | radio/src/pulses/pxx2.h:158-172 | closing an open frame whose checksum covers its payload gives the closed frame of that payload |
| `Pxx2Channels.Limit` | radio/src/pulses/pxx2.cpp:69-75 | the result lies in [lo, hi]; it is x inside the range, lo below it and hi above it |
| `Pxx2Channels.ToInt16` | radio/src/pulses/pxx2.cpp:60-68 | the stored value is a signed 16-bit value congruent to the sum modulo 2^16, and the sum itself when it fits |
| `Pxx2Channels.Rescale` | radio/src/pulses/pxx2.cpp:74-75 | every pulse lies in [1, 2046], and a centred value gives 1024 |
| `Pxx2Channels.ChannelValue` | radio/src/pulses/pxx2.cpp:52-76 | the value sent for a channel never exceeds 2047 |
| `Pxx2Channels.ChannelValues` | radio/src/pulses/pxx2.cpp:50-76 | n channels give n values, each fitting in 12 bits |
| `Pxx2Channels.GroupValues` | radio/src/pulses/pxx2.cpp:50-76 | one addChannels call sends eight values, each fitting in 12 bits |
| `Pxx2Channels.PackPair` | radio/src/pulses/pxx2.cpp:78-82 | a pair of values takes three bytes |
| `Pxx2Channels.EncodeGroup` | radio/src/pulses/pxx2.cpp:78-85 | packing takes three bytes per two values |
| `Pxx2Channels.DecodeGroup` | radio/src/pulses/pxx2.cpp:78-85 | unpacking gives two values per three bytes |
| `Pxx2Channels.PairBytes` | radio/src/pulses/pxx2.cpp:78-82 | after `pairs` pairs addChannels has emitted three bytes per pair |
| `Pxx2Channels.UnpackPackPair` | radio/src/pulses/pxx2.cpp:79-81 | unpacking a packed triplet recovers both 12-bit values exactly |
| `Pxx2Channels.DecodeEncodeGroup` | radio/src/pulses/pxx2.cpp:78-85 | unpacking the packed bytes of any even run of 12-bit values gives back every value, in order |
| `Pxx2Channels.PairBytesEncode` | radio/src/pulses/pxx2.cpp:50-86 | what addChannels emits pair by pair is the packing of the channel values in channel order |
| `Pxx2Channels.EncodeNextPair` | radio/src/pulses/pxx2.cpp:50-86 | packing the values of two more channels appends the triplet of their pair |
| `Pxx2Channels.PairBytesStep` | radio/src/pulses/pxx2.cpp:78-82 | packing the next pair of channel values extends the bytes emitted so far by one triplet |
| `Pxx2Channels.DecodeGroupSnoc` | radio/src/pulses/pxx2.cpp:78-82 | unpacking one more triplet appends its two values |
| `Pxx2Channels.EncodeGroupSnoc` | radio/src/pulses/pxx2.cpp:78-82 | packing two more values appends their triplet |
| `Pxx2Channels.GroupValueAt` | radio/src/pulses/pxx2.cpp:50-51 | the i-th value of a group is the value of channel first + i |
| `Pxx2Channels.ChannelValuesAt` | radio/src/pulses/pxx2.cpp:50-51 | the i-th value of a run is the value of channel first + i |
| `Pxx2Channels.ChannelValuesSnoc` | radio/src/pulses/pxx2.cpp:50-51 | one more channel appends its value to the run |
| `Pxx2Channels.ChannelValuesSnocPair` | radio/src/pulses/pxx2.cpp:50-51 | two more channels append their two values to the run |
| `Pxx2Channels.CDivTruncates` | radio/src/pulses/pxx2.cpp:69-75 | the division by 682 truncates toward zero: down for non-negative dividends, up for negative ones |
| `Pxx2Channels.ChannelValueCases` | radio/src/pulses/pxx2.cpp:52-76 | a channel is sent as 2047 exactly when failsafe is sent and the module or the channel says hold; as 0 exactly when failsafe is sent and the module or the channel says no pulses; a custom failsafe value is recentred, stored back into 16 bits and rescaled; outside failsafe the live output is sent, recentred and rescaled |
| `Pxx2Channels.CDivMonotone` | radio/src/pulses/pxx2.cpp:69-75 | truncating division by 682 preserves order |
| `Pxx2Channels.RescaleMonotone` | radio/src/pulses/pxx2.cpp:69-75 | a larger channel value never gives a smaller pulse |
| `Pxx2Channels.RescaleClamp` | radio/src/pulses/pxx2.cpp:69-75 | the pulse is the unclamped formula when that lies in [1, 2046], 1 below it and 2046 above it |
| `Pxx2Modes.NumGroups` | radio/src/pulses/pxx2.cpp:100-107 | one, two or three groups, enough for the channel count and without an empty one |
| `Pxx2Modes.ChannelGroup` | radio/src/pulses/pxx2.cpp:45-87 | one addChannels call emits 12 bytes |
| `Pxx2Modes.ChannelGroupPairs` | radio/src/pulses/pxx2.cpp:45-87 | the four triplets addChannels emits are the packing of its eight channel values |
| `Pxx2Modes.ChannelGroups` | radio/src/pulses/pxx2.cpp:100-107 | the groups take 12 bytes each |
| `Pxx2Modes.ChannelsPayload` | radio/src/pulses/pxx2.cpp:89-108 | a channels frame is four bytes plus 12 per group |
| `Pxx2Modes.Int8Byte` | radio/src/pulses/pxx2.cpp:115 | a non-negative step is sent as itself, a negative one plus 256 |
| `Pxx2Modes.Mapped` | radio/src/pulses/pxx2.cpp:136-141 | every character is converted, in place and in order |
| `Pxx2Modes.HwInfoPayload` | radio/src/pulses/pxx2.cpp:114-115 | a hardware query is three bytes |
| `Pxx2Modes.HardwareInfo` | radio/src/pulses/pxx2.cpp:110-128 | discovery fits the buffer, keeps the counter, raises no popup, and changes no scratch field except the step and the wait |
| `Pxx2Modes.RegisterPayload` | radio/src/pulses/pxx2.cpp:130-147 | a registration request is name plus id plus four bytes; anything else is three bytes |
| `Pxx2Modes.RxSettingsPayload` | radio/src/pulses/pxx2.cpp:152-166 | a settings request is four bytes plus one per sent channel |
| `Pxx2Modes.ReceiverSettingsFrame` | radio/src/pulses/pxx2.cpp:149-172 | the settings handler fits the buffer, keeps mode and counter, and changes no scratch field except the retry time |
| `Pxx2Modes.BindFrame` | radio/src/pulses/pxx2.cpp:174-201 | the bind handler fits the buffer, keeps the counter, and emits nothing exactly in the wait state |
| `Pxx2Modes.SpectrumPayload` | radio/src/pulses/pxx2.cpp:212-222 | the spectrum request is 15 bytes |
| `Pxx2Modes.SpectrumFrame` | radio/src/pulses/pxx2.cpp:203-223 | the spectrum handler always parks the counter at 1002 and emits nothing exactly when the counter was above 1000 |
| `Pxx2Modes.Dispatch` | radio/src/pulses/pxx2.cpp:235-257 | every handler fits the buffer; only the spectrum handler moves the counter |
| `Pxx2Modes.NextCounter` | radio/src/pulses/pxx2.cpp:259-261 | one counter step maps [0, 1000] into itself and [0, 1002] into [0, 1001], and gives 0 exactly from 1 |
| `Pxx2Modes.Cycle` | radio/src/pulses/pxx2.cpp:231-264 | every payload fits a closed frame, and a counter in [0, 1002] ends in [0, 1001] |
| `Pxx2Modes.MaskedIdBits` | radio/src/pulses/pxx2.cpp:26 | the model id masked to six bits carries neither channel flag |
| `Pxx2Modes.Flag0Bits` | radio/src/pulses/pxx2.cpp:24-37 | the low six bits of flag0 are the model id; the failsafe bit is set exactly when failsafe is configured (not unset, not receiver) and the counter is 0; the range-check bit exactly in range-check mode |
| `Pxx2Modes.SendFailsafeIffDue` | radio/src/pulses/pxx2.cpp:94-101 | the channels are sent as failsafe values exactly when failsafe is due |
| `Pxx2Modes.ChannelGroupsAt` | radio/src/pulses/pxx2.cpp:100-107 | group g occupies bytes 12g to 12g+12 and covers channels start+8g to start+8g+7 |
| `Pxx2Modes.ChannelsPayloadLayout` | radio/src/pulses/pxx2.cpp:89-108 | a channels frame starts with the type bytes, flag0 and a zero flag1, and group g decodes to the values of channels start+8g to start+8g+7 |
| `Pxx2Modes.HoldFailsafeScenario` | radio/src/pulses/pxx2.cpp:45-108 | with 16 channels, hold failsafe and failsafe due, the frame has two groups only and every channel decodes to 2047 |
| `Pxx2Modes.CycleSilentIff` | radio/src/pulses/pxx2.cpp:231-264 | a cycle emits nothing exactly in the bind wait state and in the spectrum lockout |
| `Pxx2Modes.CyclePreservesReady` | radio/src/pulses/pxx2.cpp:231-264 | after any cycle the inputs are still in range for the next one |
| `Pxx2Modes.CounterCountdown` | radio/src/pulses/pxx2.cpp:259-261 | from 1000 the counter goes down by one per cycle |
| `Pxx2Modes.CounterPeriod` | radio/src/pulses/pxx2.cpp:259-261 | 1001 cycles after 1000 the counter is 1000 again, and in between it is 0 exactly once, at the end of the countdown |
| `Pxx2Modes.CounterStaysInWindow` | radio/src/pulses/pxx2.cpp:259-261 | a counter in [0, 1000] stays there however many cycles pass |
| `Pxx2Modes.SpectrumLockout` | radio/src/pulses/pxx2.cpp:203-261 | in spectrum mode the scan request goes out exactly when the counter is at most 1000; the counter ends at 1001, so the next cycle emits nothing |
| `Pxx2Modes.SpectrumPayloadWords` | radio/src/pulses/pxx2.cpp:212-222 | the spectrum request is 0x02 0x02 0x00 followed by the words 2440000000, 40000000 and 100000, which read back from their bytes |
| `Pxx2Modes.HardwareInfoProgress` | radio/src/pulses/pxx2.cpp:110-128 | every discovery cycle either returns to normal mode or strictly decreases a non-negative rank, so discovery always ends |
| `Pxx2Modes.HardwareInfoBranches` | radio/src/pulses/pxx2.cpp:110-128 | a due step sends its query and waits 20 cycles for the next one; a running wait sends the discovery-mode channels frame and shrinks by one; after the last step the module sends the normal channels frame in normal mode |
| `Pxx2Modes.HardwareInfoQuery` | radio/src/pulses/pxx2.cpp:112-118 | the first query sends step -1 as 0xFF, then waits 20 cycles with the step at 0 |
| `Pxx2Modes.ReceiverSettingsRetry` | radio/src/pulses/pxx2.cpp:149-172 | before the retry time the cycle is exactly the channels frame with the scratch untouched; after it, the settings request carries the two flag bytes and the mapping of every sent channel, and only the retry time changes, to 200 ticks later |
| `Pxx2Modes.RxSettingsFlag0Bits` | radio/src/pulses/pxx2.cpp:153-156 | the first flag byte has the write bit exactly in the write state and keeps the receiver id's other bits |
| `Pxx2Modes.RxSettingsFlag1Bits` | radio/src/pulses/pxx2.cpp:157-162 | the second flag byte has the telemetry-disabled bit exactly when telemetry is disabled and the fast-PWM bit exactly when the fast rate is chosen |
| `Pxx2Modes.BindWaitExpiry` | radio/src/pulses/pxx2.cpp:176-183 | the wait state emits nothing; the popup is raised exactly when the tick passes the timeout, and then the mode is normal and the bind finished; otherwise nothing changes |
| `Pxx2Modes.BindSelectedLayout` | radio/src/pulses/pxx2.cpp:185-194 | a bind confirmation is 0x01, the selected receiver's raw name, the receiver slot and the model id |
| `Pxx2Modes.BindRequestLayout` | radio/src/pulses/pxx2.cpp:174-201 | before a receiver is chosen the bind request is 0x00 and the converted registration id, and the state stays as it was |
| `Pxx2Modes.RegisterLayout` | radio/src/pulses/pxx2.cpp:130-147 | a registration request is 0x01, the converted receiver name, the converted registration id and the module index; in any other step it is the single byte 0x00 |
| `Pxx2Modes.RegisterPayloadFields` | radio/src/pulses/pxx2.cpp:132-146 | each field of the register payload can be read off at its offset |
| `Pxx2Modes.CycleFrameParses` | radio/src/pulses/pxx2.cpp:231-264 | every non-empty frame a cycle produces is read back intact by a receiver, checksum included |
| `Pxx2Pulses.Pxx2Pulses.AddFlag0` | radio/src/pulses/pxx2.cpp:24-37 | appends and returns the channels flag byte |
| `Pxx2Pulses.Pxx2Pulses.AddFlag1` | radio/src/pulses/pxx2.cpp:39-43 | appends a single zero byte |
| `Pxx2Pulses.Pxx2Pulses.ChannelPulse` | radio/src/pulses/pxx2.cpp:52-76 | the loop body computes the value of the channel |
| `Pxx2Pulses.Pxx2Pulses.AddPair` | radio/src/pulses/pxx2.cpp:78-82 | on odd channels the previous and the current value are appended as one packed triplet |
| `Pxx2Pulses.Pxx2Pulses.AddChannels` | radio/src/pulses/pxx2.cpp:45-87 | the loop appends exactly the packed group of the eight channels from firstChannel |
| `Pxx2Pulses.Pxx2Pulses.AddChannelGroups` | radio/src/pulses/pxx2.cpp:99-107 | appends one, two or three groups, from channelsStart, +8 and +16, as the channel count requires |
| `Pxx2Pulses.Pxx2Pulses.SetupChannelsFrame` | radio/src/pulses/pxx2.cpp:89-108 | appends exactly the channels frame for the module's mode and counter |
| `Pxx2Pulses.Pxx2Pulses.SendHardwareInfoQuery` | radio/src/pulses/pxx2.cpp:113-118 | appends the query for the current step, then sets the wait to 20 and advances the step |
| `Pxx2Pulses.Pxx2Pulses.SetupHardwareInfoFrame` | radio/src/pulses/pxx2.cpp:110-128 | appends exactly the bytes and leaves exactly the state of one discovery step |
| `Pxx2Pulses.Pxx2Pulses.AddBytes` | radio/src/pulses/pxx2.cpp:164-166 | appends every byte of the sequence, in order |
| `Pxx2Pulses.Pxx2Pulses.AddMapped` | radio/src/pulses/pxx2.cpp:136-141 | appends every character converted by zchar2char, in order |
| `Pxx2Pulses.Pxx2Pulses.SetupRegisterFrame` | radio/src/pulses/pxx2.cpp:130-147 | appends exactly the register payload |
| `Pxx2Pulses.Pxx2Pulses.SendReceiverSettings` | radio/src/pulses/pxx2.cpp:151-168 | appends the settings request and moves the retry deadline 200 ticks ahead, changing nothing else |
| `Pxx2Pulses.Pxx2Pulses.SetupReceiverSettingsFrame` | radio/src/pulses/pxx2.cpp:149-172 | appends exactly the bytes and leaves exactly the state of one settings cycle |
| `Pxx2Pulses.Pxx2Pulses.SetupBindFrame` | radio/src/pulses/pxx2.cpp:174-201 | appends exactly the bind payload, leaves exactly its state and reports the popup |
| `Pxx2Pulses.Pxx2Pulses.SetupSpectrumAnalyser` | radio/src/pulses/pxx2.cpp:203-223 | appends exactly the spectrum payload and leaves exactly its counter and scan parameters |
| `Pxx2Pulses.Pxx2Pulses.SetupShareMode` | radio/src/pulses/pxx2.cpp:225-229 | appends the share type bytes and the receiver id |
| `Pxx2Pulses.Pxx2Pulses.SetupModeFrame` | radio/src/pulses/pxx2.cpp:235-257 | runs the handler of the module's mode, with exactly its bytes, state and popup |
| `Pxx2Pulses.Pxx2Pulses.SetupFrame` | radio/src/pulses/pxx2.cpp:231-264 | the buffer ends up holding the closed frame of the cycle's payload (nothing when it is empty), and the module state is the cycle's new state |

## Left out

- The FIFO transport (`intmoduleFifo`, `extmoduleFifo`) and the physical send of the buffer are not modelled.
- `DataBuffer` and `PxxPulses` are not part of this model. The buffer is the `data` array of `FrameWriter`, and `getSize()` is its `len`.
- The module index and the global per-module arrays are not modelled. One module's `moduleSettings` entry, its `reusableBuffer` fields and its slice of `g_model` are passed in instead.
- `reusableBuffer` is a union whose views overlap in memory. Here its fields are one record (`Scratch`) with separate fields, so a write in one mode cannot change a field of another view.
- `POPUP_INFORMATION` (the GUI popup) becomes the `bindOk` result of `SetupBindFrame` and `SetupFrame`.
- `get_tmr10ms()` is an unbounded tick. The wrap-around of the timer and of `tick + 200` in its C type is not modelled.
- The constants of `io/frsky_pxx2.h` and the failsafe sentinels are not shown. They are fields of the `Pxx2Constants` parameter.
- `DEFAULT_CHANNEL_MAPPING`, `CH9TO16_CHANNEL_MAPPING`, the OTA, telemetry and power-meter type ids, and the template instantiation are not used by the frame builder. They are not modelled.
- Every append is unchecked in the source. The model makes room a precondition of every append; callers must also supply inputs whose arrays are as long as the loops that read them (`Ready`).
- Pxx2Frame.FrameWriter.EndFrame: requires at least the two head bytes, which `initFrame` always writes. The `uint8_t` wrap of `getSize() - 2` on a shorter buffer is not modelled.
- The counter is an unbounded `nat`, because its C type is not shown. The post-decrement from 0 is written as the reset it leads to.
- Pxx2Channels.ChannelValue: indexes channels with an unbounded number. The source's `uint8_t channel = firstChannel + i` could wrap only past channel 255, beyond any channel array.
- Pxx2Channels.Rescale: the live path computes in 32-bit `int`. The model uses unbounded integers because `value * 512` cannot overflow for 16-bit channel values.
- Pxx2Channels.CDivTruncates: stated for the divisor 682 that the code uses, not for every divisor.
- `OtherMode` stands for every module mode that `setupFrame` has no case for; all of them fall to the channels frame.
- The `int8_t` increment of the hardware-info step cannot overflow: `Pxx2Constants.Valid` bounds `PXX2_MAX_RECEIVERS_PER_MODULE` by 127.
