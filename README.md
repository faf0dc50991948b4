# Race-car telemetry link, modelled in Dafny

This project models the core of a race-car telemetry system.

On the car, a sender does the following:
- keeps a current `TelemetryData` record that CAN frames update signal by signal;
- every 50 Hz tick, builds an outgoing record whose high-priority channels are fresh, while the medium (10 Hz) and low (1 Hz) tiers are refreshed only when due and otherwise held from a cache;
- packs the record with a little-endian struct format, frames it with `AA 55` / `55 AA` markers and writes it to a LoRa serial port.

At the ground station, a receiver does the following:
- reads fixed-size packets and decodes them into a dictionary of scaled channels;
- publishes the latest dictionary and keeps reception statistics.

The live view drains a queue of decoded CAN frames and keeps its per-channel history lists aligned with the sample times. A configuration module resolves internal channel names to log columns.

Modules, one per concern:

| module | file | models |
|---|---|---|
| `WireFormat` | wire_format.dfy | Python `struct` packing for `<` formats; the format as written and the documented C struct |
| `Telemetry` | telemetry.dfy | `TelemetryData` and its priority tiers |
| `Codec` | codec.dfy | `pack_telemetry`, `unpack_packet`, fixed-point scaling |
| `Framing` | framing.dfy | the sender's frames, `read_packet`, and the marker scanner the receiver was designed to use |
| `Scheduler` | scheduler.dfy | `DownsamplingManager` |
| `CanBus` | can_receiver.dfy | `CANReceiver.process_message` / `get_current_data`; the wire timestamp |
| `Transmitter` | transmitter.dfy | `LoRaTransmitter`: `connect`, `send_packet`, counters |
| `Downlink` | downlink.dfy | the tier merge of `TelemetrySystem.main_loop` and its hold-last-value invariant |
| `Receiver` | receiver.dfy | `LoRaReceiver`: port detection, guards, reception loop, statistics |
| `LiveStorage` | live_storage.dfy | `update_live_gui`: queue drain, storage sync, plot window, RPM bar |
| `ConfigManager` | config_manager.dfy | `get_channel_name`, `load_config` |
| `Text`, `Wrappers` | text.dfy, wrappers.dfy | ASCII case mapping and substring search; `Option` |

Some things become parameters instead of being computed inside the model:
- Clocks: `time.time()` arrives as a `real` or an integer of milliseconds.
- Serial reads: each one arrives as the bytes it returned.
- Outcomes of opening or writing a port arrive as booleans.
- DBC decoding of a CAN frame arrives as `None` or the map of signals it produced.
- The parsed INI file arrives as its sections' entries.

Python floats are exact reals, and `int()` on them truncates toward zero (`Codec.TruncToZero`).

The pack/unpack layout is a parameter:
- the 18-code format string as written (`WireFormat.LiteralLayout`, 36 bytes);
- the 17-field struct documented in the receiver (`WireFormat.DocumentedLayout`, 34 bytes).

Both are instantiated, and the "Findings" below compare them.

Where the descriptive design documentation and the code disagree, the model follows the code:
- `success_rate` is 0, not 100, before any packet arrives (`Receiver.SuccessRateCases`).
- The documented struct is 34 bytes, not the 36 its comment claims (`WireFormat.DocumentedLayoutSize`).

## Model

| member | source | states |
|---|---|---|
| WireFormat.PackSucceedsIff | central.py:402-427 | `struct.pack` succeeds exactly when there is one in-range value per code, and then yields `calcsize` bytes |
| WireFormat.Unpack | core/lora_receiver.py:170 | `struct.unpack` succeeds exactly when the buffer length equals `calcsize` |
| WireFormat.DecodeEncodeField | core/lora_receiver.py:170 | decoding one encoded little-endian two's-complement field returns the value |
| WireFormat.EncodeDecodeField | core/lora_receiver.py:170 | encoding a decoded field returns the bytes |
| WireFormat.UnpackPack | core/lora_receiver.py:170 | unpacking what was packed returns the values |
| WireFormat.PackUnpack | core/lora_receiver.py:170 | packing what was unpacked returns the bytes, so every right-size buffer encodes exactly one value list |
| WireFormat.FieldsFit | core/lora_receiver.py:170 | every unpacked value lies in its code's range |
| WireFormat.FieldAt | core/lora_receiver.py:170 | field `i` is decoded from exactly the bytes at its offset |
| WireFormat.LiteralFormatCodes | core/lora_receiver.py:46 | the format string parses to 18 codes: the documented struct plus one extra `h` at position 8 |
| WireFormat.LiteralLayoutSize | core/lora_receiver.py:45-46 | the format's size is 36, equal to `PACKET_SIZE` |
| WireFormat.LiteralFieldsAt | core/lora_receiver.py:170-190 | under the format as written, field 8 is the `int16` at bytes 14-16 and field 16 the `uint16` at bytes 30-32 |
| WireFormat.DocumentedLayoutSize | core/lora_receiver.py:13-33 | the documented struct has 17 fields in 34 bytes |
| Telemetry.TiersDetermineRecord | central.py:69-96 | a record is determined by its high part, medium tier and low tier |
| Codec.TruncToZero | central.py:396-399 | `int()` truncates toward zero: the result is within one of `x`, on the side of zero |
| Codec.FieldValues | central.py:402-420 | `pack` receives 17 values |
| Codec.PackTelemetryShape | central.py:381-427 | the payload is non-empty exactly when every scaled value fits its code, and is then `calcsize` bytes long |
| Codec.UnpackPacket | core/lora_receiver.py:154-197 | a dictionary results exactly when the length equals the packet size and the layout's size |
| Codec.Decoded | core/lora_receiver.py:168-193 | a right-size buffer decodes to the dictionary of its unpacked fields |
| Codec.ToDictValues | core/lora_receiver.py:173-191 | the value under each of the 17 keys, with lambda and accelerations divided by 1000 and steering by 10 |
| Codec.LiteralAcceptsExactlyPacketSize | core/lora_receiver.py:164-170 | as written, every 36-byte buffer decodes and every other length is refused |
| Codec.DocumentedLayoutWithPacketSizeDecodesNothing | core/lora_receiver.py:45 | the documented struct with `PACKET_SIZE = 36` decodes no buffer at all |
| Codec.TruncScaled | central.py:396-399 | truncating `x * scale` and dividing back lands within one scale unit of `x`, on the side of zero |
| Codec.DecodePacked | central.py:381-427 | an encodable record packs with the documented layout and decodes to the dictionary of its scaled values |
| Codec.RoundTrip | core/lora_receiver.py:173-191 | decode after encode recovers integer channels exactly and lambda, steering and accelerations within one scale unit |
| Codec.EveryFullBufferDecodes | core/lora_receiver.py:164-170 | with no checksum, every 34-byte buffer decodes under the documented layout |
| Codec.LiteralPackAlwaysEmpty | central.py:402-427 | with the 18-code format and 17 values, `pack_telemetry` returns the empty payload for every record |
| Codec.WideTimestampNeverPacks | central.py:420 | a timestamp outside the `uint32` range makes packing fail even with the documented layout |
| Codec.LiteralDecodeShifts | core/lora_receiver.py:173-191 | as written, `WheelSpeed_FL` is the extra signed field and `timestamp_ms` a 16-bit field |
| Codec.LiteralNegativeWheelSpeed | core/lora_receiver.py:182 | a concrete 36-byte buffer decodes to a wheel speed of -1 |
| Codec.WorkedExampleScaled | central.py:396-399 | RPM 5200, steering -12.5, lambda 1.234 and accelX -0.523 become 5200, -125, 1234 and -523 on the wire |
| Codec.WorkedRecordEncodable | central.py:396-420 | the worked record fits the documented struct |
| Codec.WorkedExample | core/lora_receiver.py:173-181 | a record with those readings decodes back to exactly them |
| Framing.Frame | central.py:440-443 | the frame is the payload plus four marker bytes when markers are on |
| Framing.ReadPacket | core/lora_receiver.py:210-235 | a packet is returned exactly when the port is open and the read returned the full size, and it is that read |
| Framing.RawReadSeesMarker | core/lora_receiver.py:229-235 | a raw reader on a framed stream gets the start marker plus a truncated payload; its first `uint16` is 0x55AA |
| Framing.Scan | core/lora_receiver.py:216-227 | a found payload has the packet size, and with both markers it fits in the input |
| Framing.ScanFindsFrame | core/lora_receiver.py:216-227 | the payload found sits between the start and end markers at the end of the consumed input, and the unread rest follows it |
| Framing.ScanFrame | core/lora_receiver.py:216-227 | a frame at the head of the stream is found whole, and the scan resumes after it |
| Framing.ScanAllFrames | core/lora_receiver.py:216-227 | scanning a stream of frames returns exactly the payloads, in order |
| Framing.ScanSkipsNoise | core/lora_receiver.py:218-219 | bytes other than 0xAA in front of a frame are skipped |
| Framing.ScanDropsCorruptFrame | core/lora_receiver.py:224-226 | a frame with a bad end marker is dropped whole |
| Scheduler.CycleAfterIsMod | central.py:150-154 | after `n` increments from 0 the counter is `n mod low_interval` |
| Scheduler.CycleAfterInRange | central.py:150-154 | the counter stays in `[0, low_interval)` |
| Scheduler.FiringSchedule | central.py:124-148 | intervals are 5 and 50; medium is due exactly on ticks `n ≡ 0 (mod 5)` and low on ticks `n ≡ 0 (mod 50)` |
| Scheduler.DownsamplingManager.constructor | central.py:115-126 | the counter starts at 0, with intervals 1, 5 and 50 |
| Scheduler.DownsamplingManager.IncrementCycle | central.py:150-154 | the counter becomes `(old + 1) mod low_interval` and stays in range |
| CanBus.UnknownSignalsIgnored | central.py:238-282 | only the 16 recognised signal names affect the record |
| CanBus.NoKnownSignalNoChange | central.py:238-282 | a frame with no recognised signal leaves the record unchanged |
| CanBus.ApplyTwice | central.py:238-282 | two frames act like one frame whose signals are the first's overridden by the second's |
| CanBus.ApplySetsChannels | central.py:238-282 | for each of the 16 signals: present, it sets its own channel (integer channels truncated toward zero); absent, that channel keeps its value; the timestamp is never set |
| CanBus.WireTimestamp | core/lora_receiver.py:30 | milliseconds since boot wrapped to `uint32` always fit, and are exact within range |
| CanBus.EpochMillisecondsOverflow | central.py:309 | an epoch-millisecond reading of today's size does not fit `uint32` |
| CanBus.WireTimestampEncodes | core/lora_receiver.py:30 | with the wrapped timestamp, a record whose other channels fit is always encodable |
| CanBus.CANReceiver.constructor | central.py:189-201 | the record starts all zero and nothing is counted |
| CanBus.CANReceiver.ProcessMessage | central.py:223-286 | a decoded frame updates the named channels and is counted; an undecodable one changes nothing |
| CanBus.CANReceiver.GetCurrentData | central.py:288-310 | the snapshot is the current record stamped with the clock |
| Transmitter.StreamAppend | central.py:440-452 | the bytes written by one more send are the previous stream plus the new frame |
| Transmitter.StreamLength | central.py:440-452 | a stream of equal-size payloads is their count times the frame length |
| Transmitter.LinkRoundTrip | central.py:429-456 | end to end, with the documented layout and the marker scanner, every encodable record sent is recovered |
| Transmitter.LoRaTransmitter.constructor | central.py:355-363 | closed, with nothing sent |
| Transmitter.LoRaTransmitter.Connect | central.py:365-379 | success is the port-open outcome; the counters are untouched |
| Transmitter.LoRaTransmitter.Disconnect | central.py:476-479 | the port is closed; the counters are untouched |
| Transmitter.LoRaTransmitter.SendPacket | central.py:429-456 | refused with nothing changed when closed, when the payload is empty or when the write fails; otherwise the frame is appended and the counters grow by one packet and its length |
| Transmitter.LoRaTransmitter.BytesPerPacket | central.py:450-451 | `bytes_sent` is always `packets_sent` times the frame length |
| Transmitter.LoRaTransmitter.AsWrittenSendsNothing | central.py:402-427 | with the format as written, no packet and no byte is ever sent |
| Downlink.WithTierSets | central.py:565-593 | replacing one tier sets that tier and leaves the other tier and the high part alone |
| Downlink.MergeTiers | central.py:552-593 | per tick: the high part and timestamp are fresh; a due tier comes from the snapshot and goes to the cache; a tier not due comes from the cache |
| Downlink.RefreshCarries | central.py:565-593 | a tier not due keeps the previous tick's refresh point |
| Downlink.HoldsStep | central.py:549-600 | one tick preserves the hold-last-value invariant |
| Downlink.HoldLastValue | central.py:545-600 | the record sent at tick `t` carries tick `t`'s high part and each slow tier from that tier's last refresh; the cache holds the same |
| Downlink.ConfiguredHold | central.py:545-600 | with the configured rates, tick `t` sends the medium tier of tick `t - t mod 5` and the low tier of tick `t - t mod 50` |
| Downlink.BuildPacket | central.py:552-593 | the in-place tier updates of one iteration produce exactly the packet and cache of `Merge` |
| Downlink.TelemetrySystem.constructor | central.py:491-500 | counter 0, an all-zero cache, nothing sent |
| Downlink.TelemetrySystem.Tick | central.py:549-600 | one iteration is one `Step`; the transmitter records the packet exactly when the send succeeds |
| Downlink.TelemetrySystem.MainLoop | central.py:545-600 | the loop over the snapshots reaches `Run` of them |
| Receiver.AutoDetectPort | core/lora_receiver.py:88-109 | the first port whose description contains an adapter keyword, ignoring case; otherwise the first port; `None` exactly when there is no port |
| Receiver.AdapterMatchIgnoresCase | core/lora_receiver.py:99-100 | the description match is case-insensitive |
| Receiver.Ch340Matches | core/lora_receiver.py:96-100 | a lower-case CH340 description is detected |
| Receiver.PushTime | core/lora_receiver.py:81 | the arrival window never exceeds 50 entries |
| Receiver.PushKeepsNewest | core/lora_receiver.py:259 | the window always holds the newest 50 arrivals |
| Receiver.SuccessRate | core/lora_receiver.py:331 | the success rate lies in `[0, 100]` |
| Receiver.SuccessRateCases | core/lora_receiver.py:331 | 0 before anything arrives; 100 exactly when some packet arrived and none failed |
| Receiver.CurrentHz | core/lora_receiver.py:322-326 | the rate is never negative |
| Receiver.EvenArrivalsHz | core/lora_receiver.py:322-326 | evenly spaced arrivals give `1 / period` Hz |
| Receiver.ReceiveCounts | core/lora_receiver.py:247-264 | each packet read is counted once, as received or as an error; only a received one replaces the data |
| Receiver.ReceiveAll | core/lora_receiver.py:245-264 | the arrival window stays bounded over any run of reads |
| Receiver.AsWrittenNeverErrs | core/lora_receiver.py:245-264 | as written, `packets_errors` never moves, whatever bytes are on the line |
| Receiver.LoRaReceiver.constructor | core/lora_receiver.py:58-81 | stopped, closed, empty data, zero counters |
| Receiver.LoRaReceiver.Connect | core/lora_receiver.py:111-146 | succeeds at once when open; auto-detects a missing or empty port; fails when no port results; otherwise succeeds exactly when opening does |
| Receiver.LoRaReceiver.Disconnect | core/lora_receiver.py:148-152 | closed; nothing else changes |
| Receiver.LoRaReceiver.Start | core/lora_receiver.py:271-291 | true without side effects when running; otherwise runs, with the clock reset, exactly when connecting succeeds |
| Receiver.LoRaReceiver.Stop | core/lora_receiver.py:293-305 | a no-op unless running; then stopped and closed |
| Receiver.LoRaReceiver.GetLatestData | core/lora_receiver.py:307-315 | the published dictionary (empty before the first packet) |
| Receiver.LoRaReceiver.GetStatistics | core/lora_receiver.py:317-334 | the counters, `SuccessRate`, `CurrentHz` and uptime |
| Receiver.LoRaReceiver.ReceptionLoop | core/lora_receiver.py:245-264 | after the loop, the counters, data and window are `ReceiveAll` of the reads |
| LiveStorage.MergeAll | ground_station/core/telemetry_realtime.py:128-136 | every merged key comes from some drained frame |
| LiveStorage.MergeAllLastWins | ground_station/core/telemetry_realtime.py:131-134 | every drained key survives, with the value of the last frame that carries it |
| LiveStorage.Extended | ground_station/core/telemetry_realtime.py:184-204 | history kept; zero padding up to the old sample count; then the drained value, else the held last value, else 0 |
| LiveStorage.Synced | ground_station/core/telemetry_realtime.py:171-204 | the keys after a tick are the channels plus `Time`, and `Time` grows by the tick |
| LiveStorage.SyncedAligned | ground_station/core/telemetry_realtime.py:184-204 | from storage no longer than `Time`, every channel ends exactly as long as `Time`; history is kept; new channels are zero-padded |
| LiveStorage.SyncedSample | ground_station/core/telemetry_realtime.py:196-204 | the new sample is the drained value, else the last value of an up-to-date channel, else 0 |
| LiveStorage.SyncedKeepsAligned | ground_station/core/telemetry_realtime.py:171-204 | aligned storage stays aligned |
| LiveStorage.PlotStartIndex | ground_station/core/telemetry_realtime.py:209-220 | with auto-scroll and over 300 samples, the last index older than 12 s before the newest sample, else 0 |
| LiveStorage.PlotWindowSorted | ground_station/core/telemetry_realtime.py:213-220 | with sorted times, every sample before the start index is older than the window |
| LiveStorage.RpmFill | ground_station/core/telemetry_realtime.py:283-285 | the fill never exceeds 1 and is full exactly from 13000 rpm |
| LiveStorage.RpmBarMonotone | ground_station/core/telemetry_realtime.py:283-292 | more revs never empty the bar or soften its colour |
| LiveStorage.RpmFullIsRed | ground_station/core/telemetry_realtime.py:283-292 | a full bar is red, and a red bar is at least 11000/13000 full |
| LiveStorage.RpmBar | ground_station/core/telemetry_realtime.py:276-292 | the bar is updated exactly when RPM was drained |
| LiveStorage.LiveTelemetry.constructor | ground_station/core/telemetry_realtime.py:38-46 | active, with `Time` as the only (empty) list |
| LiveStorage.LiveTelemetry.Stop | ground_station/core/telemetry_realtime.py:60-65 | inactive; storage and queue untouched |
| LiveStorage.LiveTelemetry.DrainQueue | ground_station/core/telemetry_realtime.py:128-136 | the queue is emptied; the frames are merged in order and counted |
| LiveStorage.SyncChannels | ground_station/core/telemetry_realtime.py:171-204 | the per-channel loop over the storage produces exactly `Synced` of the storage, frame, selection and time |
| LiveStorage.LiveTelemetry.SyncStorage | ground_station/core/telemetry_realtime.py:171-204 | the storage becomes `Synced` of the old storage, the drained frame, the selection and the time |
| LiveStorage.LiveTelemetry.UpdateLive | ground_station/core/telemetry_realtime.py:121-204 | nothing when inactive; otherwise the queue is drained; the storage is untouched when nothing was drained and is `Synced` otherwise |
| ConfigManager.GetChannelName | ground_station/config_manager.py:56-64 | a result is always one of the columns, and one of the three candidates |
| ConfigManager.ChannelNamePriority | ground_station/config_manager.py:61-64 | mapped name first, then the name as given, then its lower case; `None` exactly when none is a column |
| ConfigManager.ListAndIndexAgree | ground_station/config_manager.py:60 | a list and an Index resolve alike |
| ConfigManager.MappingIgnoresCase | ground_station/config_manager.py:58-59 | the mapping is consulted by the lower-cased name |
| Text.Upper | core/lora_receiver.py:99-100 | `str.upper()` keeps the length and maps each character through the ASCII upper-case map |
| Text.Lower | ground_station/config_manager.py:58 | `str.lower()` keeps the length and maps each character through the ASCII lower-case map |
| ConfigManager.AssignUntouched | ground_station/config_manager.py:39-42 | an option that no entry names keeps its value |
| ConfigManager.AssignLastWins | ground_station/config_manager.py:39-42 | an option takes the value of the last entry naming it |
| ConfigManager.AssignKeepsLowerKeys | ground_station/config_manager.py:39-42 | assigning lower-cased options into lower-case keys keeps every key lower-case |
| ConfigManager.AssignLowerCaseKeys | ground_station/config_manager.py:15-27 | options already in lower case are stored under their own names |
| ConfigManager.Section | ground_station/config_manager.py:27-39 | the parser holds every option under a lower-case name |
| ConfigManager.Overlay | ground_station/config_manager.py:40-48 | the copied defaults updated with the section |
| ConfigManager.LoadConfig | ground_station/config_manager.py:9-54 | the built-in dictionaries when the file cannot be created or fails to parse; otherwise (an unreadable file is skipped by the parser and counts as an empty file) each built-in dictionary overlaid with its parsed section |
| ConfigManager.FileOverridesChannel | ground_station/config_manager.py:40-42 | a file's channel entry overrides the mapping under its lower-cased name |
| ConfigManager.DefaultChannelKept | ground_station/config_manager.py:15-42 | a built-in channel the file does not name keeps its default |
| ConfigManager.DefaultChannelsLowerCase | ground_station/config_manager.py:15-24 | the built-in channel names are lower case |
| ConfigManager.StartFinishLatLowered | ground_station/config_manager.py:25 | the parser stores the built-in `StartFinishLat` as `startfinishlat` |
| ConfigManager.TrackDefaultsParsed | ground_station/config_manager.py:25-27 | the parser holds the built-in start/finish latitude, -25.45000, under `startfinishlat` |
| ConfigManager.FallbackLosesStartFinishKey | ground_station/config_manager.py:25-54 | a read file yields `startfinishlat`; the fallback dictionary lacks it |
| ConfigManager.CorrectedFallback | ground_station/config_manager.py:25-36 | the corrected fallback has every built-in option under its lower-case name |
| ConfigManager.CorrectedFallbackMatchesFile | ground_station/config_manager.py:25-54 | the corrected fallback is what a file without the section yields, with `startfinishlat` = -25.45000 |

## Left out

- Serial, CAN and UDP I/O are parameters: reads, write outcomes, port-open outcomes and DBC decoding. So are the INI parser and file I/O, and the clocks. `time.sleep`, the printouts and the message boxes are dropped.
- Threads and `data_lock`: each shared record or dictionary is a single field copied in and out. The CAN reader thread that fills the live queue (ground_station/core/telemetry_realtime.py:68-118) is not modelled; its output is the queue's contents.
- Floating-point rounding: floats are exact reals. A binary rounding that moves `int(x * 1000)` by one unit is not captured.
- Non-ASCII case mapping in `upper()` / `lower()`.
- `DownsamplingManager.get_statistics`, `LoRaTransmitter.get_statistics` and `TelemetrySystem.print_statistics`: wall-clock and float-derived, informational only.
- `CANReceiver.connect`, `reception_loop`, `start` and `stop`, and `TelemetrySystem.start` and `stop`: bus setup and thread control.
- The live view's Hz label (ground_station/core/telemetry_realtime.py:156-165), the toolbar and axis handling, drawing, and the dashboard labels other than the RPM bar: GUI only.
- CanBus.CANReceiver.ProcessMessage: a signal value on which `int()` / `float()` raises halfway through leaves a partial update in the source. The model takes signal values as reals, so that path is not captured.
- Transmitter.LoRaTransmitter.SendPacket: a write either succeeds whole or fails. Partial writes and write timeouts are not modelled.
- Downlink.TelemetrySystem.MainLoop: the loop runs once per given snapshot instead of until `running` is cleared. The pacing sleep is dropped.
- Receiver.LoRaReceiver.ReceptionLoop: the loop runs once per given serial read, and `running` is not re-checked between reads. The 10 ms sleep is dropped.
- Receiver.LoRaReceiver.Connect: the two-second settle and the input-buffer reset after opening are dropped.
- The disabled marker scanner (core/lora_receiver.py:216-227) compares one-byte `bytes` with an `int`, so as written it never matches. `Framing.Scan` models the scanner as evidently designed, not as written, and the active receiver path does not use it.
- LiveStorage.PlotStartIndex: the `live_freeze` gate and the slicing of each line are left out. Only the start index is modelled.
- ConfigManager.LoadConfig: INI syntax, inline comments, a `[DEFAULT]` section, and the parser's strict rejection of duplicate options all arrive folded into the parsed file or into `None`. The file written when none exists is not modelled. The `'CHANNELS' in config` else-branches can never run, because the sections are set before reading.

## Findings

| source | as written | input that shows it | evidently intended | confidence | as-written member | corrected member |
|---|---|---|---|---|---|---|
| central.py:402-420 | the format `<HbBHhHhhhHHHHHHHHI` has 18 codes but `pack` receives 17 values, so `pack_telemetry` always returns `b''` and nothing is ever sent | any record, e.g. all zero | the 17-field struct the receiver documents | high (not executed) | Codec.LiteralPackAlwaysEmpty | Codec.RoundTrip |
| central.py:309 | the timestamp is epoch milliseconds, about 1.7e12, which overflows the `uint32` field, so packing fails even with a correct layout | clock reading 1 700 000 000 000 ms | milliseconds since boot, wrapping at 2^32, as the receiver's struct comment says | high (not executed) | Codec.WideTimestampNeverPacks | CanBus.WireTimestampEncodes |
| core/lora_receiver.py:229-235 | the sender frames packets with `AA 55` / `55 AA` by default, but the receiver reads raw fixed-size chunks, so its first chunk starts with the marker and every field is shifted | any framed stream; the first chunk's leading `uint16` is 0x55AA | scanning for the markers and taking the payload between them | high (not executed) | Framing.RawReadSeesMarker | Transmitter.LinkRoundTrip |
| core/lora_receiver.py:46 | decoding with the 18-code format puts the extra `int16` into `WheelSpeed_FL`, reads `timestamp_ms` from a 16-bit field and drops the `uint32` | 36 zero bytes except `FF FF` at bytes 14-15 decode to a wheel speed of -1 | the documented 17-field, 34-byte struct with a 34-byte packet size | high (not executed) | Codec.LiteralNegativeWheelSpeed | Codec.RoundTrip |
| ground_station/config_manager.py:36 | when the file cannot be created or fails to parse, the raw defaults are returned, whose track keys are `StartFinishLat` / `StartFinishLon`; a file that is read yields the parser's lower-case `startfinishlat`, which is the name the lap detector looks up | a config file that cannot be written or parsed | the same lower-case option names on both paths | medium (not executed) | ConfigManager.FallbackLosesStartFinishKey | ConfigManager.CorrectedFallbackMatchesFile |
