# BSB transaction engine

A Dafny model of the transaction engine of the ESPHome `bsb` component. The
component talks to a heating controller over the BSB bus. Each call of the
component's `loop()` does two things:

- It drains the UART. Every byte is inverted (XOR 0xFF) and handed to the
  frame assembler, and every completed frame goes to `callback_packet`.
- It runs the scheduler, when `now > last_query_`. The scheduler moves
  `last_query_` one query interval past `now`. It then scans the number
  registry, then the select registry, then the sensor registry. It stops
  at the first point that asks to send, and writes that point's request
  (inverted) to the UART.

`callback_packet` is the reply dispatcher:

- An `Inf` or `Ret` for field F reaches every sensor, number and select
  registered under F. The point is rescheduled, decoded by kind and value
  type, and published.
- An `Ack` or `Nack` clears the pending write of every number and select
  under F.
- Any other command is ignored.

Sensors keep a five-attempt get-retry state machine with an exhaustion wait.
Selects keep two such machines (get and set) that share one timer, plus a
dirty flag that records a write requested through `control`.

The model has two layers.

- **Values.** `BsbTypes`, `Wire`, `Decimal`, `Registry`, `Scan`,
  `SensorLogic`, `SelectLogic` and `BsbEngine` give every point and the whole
  component as datatypes. Every operation is a function from the old state
  to the new one (`BsbEngine.Schedule`, `BsbEngine.Dispatch`,
  `BsbEngine.Loop`).
- **Objects.** `BsbSensor.Sensor`, `BsbSelect.Select`, `BsbNumber.Number`
  and `Bsb.Component` are classes whose methods update their fields in
  place, as the C++ objects do. Each method is proved to follow the value
  layer. `Bsb.Component.Loop` is proved to take its abstract state exactly
  where `BsbEngine.Loop` says. Its registry loops are `while` loops whose
  invariants tie the objects visited so far to the generic first-winner scan
  `Scan.Settle`.

These properties are proved about the value layer:

- `EngineProperties`: the gate, the strict priority of numbers over selects
  over sensors, and first-in-iteration-order within each registry. Also the
  exact reach of each reply command, and that a select's write intent
  survives everything but its acknowledgement.
- `RetryBounds`: no sensor or select ever counts more than five attempts,
  and a set attempt is only ever counted while a write is pending.
- `Wire`: the physical-layer round trip.
- `Decimal`: the decimal text of an unmapped enum value can be read back.

The frame codec and the receive assembler sit outside this model. They are a
parameter of type `BsbTypes.Framing`. The number point (`BsbNumberBase`,
declared in bsbNumber.h) is outside this model. The component reaches a
number only through the member functions bsb.cpp calls, which are a
parameter of type `BsbNumber.NumberOps`.

Four details of the code that the model keeps:

- The gate is strict (`now > last_query_`), so a tick at exactly
  `last_query_` does nothing.
- "First" within a registry means the unordered multimap's iteration order.
  That order is fixed but unspecified. It is modelled as a sequence, and a
  registration inserts at an arbitrary slot.
- A select's exhausted retry waits for `next_update_timestamp_ + retry
  interval`. It does not wait from a recorded exhaustion time, as the sensor
  does.
- Both checks use the literal ceiling 5. The configured retry count is
  stored but never read.

## Model

| member | source | states |
|---|---|---|
| BsbTypes.IntegerOf | components/bsb/bsb.cpp:200-213 | the integer reader is chosen exactly for the four integer value types |
| BsbTypes.ReadingOf | components/bsb/bsb.cpp:163-179 | the numeric switch reads Temperature and the four integer types, and nothing for RoomTemperature or DateTime |
| Decimal.NatString | components/bsb/bsbSensor.h:128 | the digits of a natural: at least one, all digits, no leading zero |
| Decimal.DecimalString | components/bsb/bsbSensor.h:128 | `std::to_string` of an integer starts with '-' exactly when it is negative |
| Decimal.ParseNatString | components/bsb/bsbSensor.h:128 | reading back the digits of n gives n |
| Decimal.DecimalRoundTrip | components/bsb/bsbSensor.h:128 | reading back the decimal text of v gives v |
| Decimal.DecimalStringInjective | components/bsb/bsbSensor.h:128 | different integers get different decimal text |
| Wire.Invert | components/bsb/bsb.cpp:91 | the physical transform of a byte is 0xFF minus it |
| Wire.InvertAll | components/bsb/bsb.cpp:281-283 | a buffer is inverted byte by byte, with its length kept |
| Wire.InvertInvolutive | components/bsb/bsb.cpp:91 | inverting a byte twice gives it back |
| Wire.InvertAllInvolutive | components/bsb/bsb.cpp:280-284 | inverting a frame twice gives it back |
| Wire.InvertAllAppend | components/bsb/bsb.cpp:90-92 | inverting a stream piecewise equals inverting it whole |
| Wire.InvertedCopy | components/bsb/bsb.cpp:280-283 | the in-place loop over the copied buffer leaves every byte XORed with 0xFF |
| Wire.Transmit | components/bsb/bsb.cpp:276-286 | an empty frame writes nothing; any other appends exactly one block, the inverted frame |
| Wire.Emit | components/bsb/bsb.cpp:97-148 | a scan writes at most one block and keeps what was written before |
| Wire.WrittenFrameRoundTrip | components/bsb/bsb.cpp:276-286 | the block written, inverted on the far side, is the frame that was sent |
| Registry.Insert | components/bsb/bsb.h:48-50 | a registration adds exactly the new point at its slot and keeps every other in order |
| Registry.DistinctInsert | components/bsb/bsb.h:48-50 | registering a point not yet registered keeps the registry free of duplicates |
| Registry.Lookup | components/bsb/bsb.cpp:156 | `equal_range` gives no more points than are registered |
| Registry.LookupMembers | components/bsb/bsb.cpp:156 | `equal_range` of F gives exactly the registered points whose field is F |
| Registry.LookupAppend | components/bsb/bsb.cpp:156 | a lookup of a concatenation is the concatenation of the lookups |
| Registry.LookupAfterInsert | components/bsb/bsb.h:48-50 | a multimap keeps every registration: after an insert, a lookup gives the old points plus the new one exactly when its id matches |
| Registry.LookupOtherKey | components/bsb/bsb.h:48-50 | registering under another id does not change a lookup |
| Registry.UpdateWhere | components/bsb/bsb.cpp:156-158 | every point under F gets the update, and every other point is untouched |
| Scan.Scan | components/bsb/bsb.cpp:99-121 | a scan keeps the registry's length, and a winner is a real position |
| Scan.ScanCharacterised | components/bsb/bsb.cpp:99-121 | a winner at k means every earlier check refused and later points were not visited; no winner means every check refused |
| Scan.ScanWinnerIsFirst | components/bsb/bsb.cpp:99-121 | the winner is exactly the first point whose check asks to send |
| Scan.ScanNoWinner | components/bsb/bsb.cpp:139-147 | with every check refusing there is no winner |
| Scan.Settle | components/bsb/bsb.cpp:99-121 | a request is sent exactly when the scan has a winner |
| Scan.SettleCharacterised | components/bsb/bsb.cpp:99-121 | the settled registry: earlier points checked, the winner after building its request, later points untouched |
| Scan.SettledWithoutWinner | components/bsb/bsb.cpp:139-147 | a registry in which every check refused settles to exactly the checked states |
| Scan.SettledAtWinner | components/bsb/bsb.cpp:101-110 | a registry checked up to k, with k's request built, is the settled registry and its sent packet |
| Scan.SettleRelates | components/bsb/bsb.cpp:99-121 | a relation kept by every check and every request holds between each point before and after a scan |
| SensorLogic.Initial | components/bsb/bsbSensor.h:82-85 | a new sensor has zero attempts, a clear flag, an update due at 0 and no options |
| SensorLogic.IsReady | components/bsb/bsbSensor.h:42-59 | the check changes only the retry bookkeeping |
| SensorLogic.ReadyBelowCeiling | components/bsb/bsbSensor.h:58 | below five attempts the check changes nothing, and it answers whether the regular timer has passed |
| SensorLogic.ReadyAtCeiling | components/bsb/bsbSensor.h:43-55 | at five attempts: the first call records now; an attempt is granted exactly when the retry interval has passed since then, and resets the counter and the flag |
| SensorLogic.RetryStartStable | components/bsb/bsbSensor.h:44-48 | a refused check at the ceiling fixes the exhaustion timestamp for later checks |
| SensorLogic.ExhaustedUntilInterval | components/bsb/bsbSensor.h:49-55 | once exhaustion is recorded at t0, the sensor is ineligible before t0 plus the retry interval and eligible from then on |
| SensorLogic.ScheduledRegularResets | components/bsb/bsbSensor.h:61-65 | rescheduling zeroes the counter, clears the flag, sets the next update one interval later and changes nothing else |
| SensorLogic.GetRequestCounts | components/bsb/bsbSensor.h:67-71 | building a Get counts exactly one attempt and asks for the sensor's own field |
| SensorLogic.TextOfMapping | components/bsb/bsbSensor.h:123-130 | a mapped value reads as its option; an unmapped one reads as decimal text that parses back to the value |
| SensorLogic.TextDecodeExample | components/bsb/bsbSensor.h:123-130 | with {2: "Comfort"}, raw 2 reads "Comfort", raw 5 reads "5" and raw -3 reads "-3" |
| SensorLogic.OptionAddedSemantics | components/bsb/bsbSensor.h:132-134 | an added mapping is used and enables enum decoding, a later one overwrites it, and other values are unaffected |
| SensorLogic.MappingKept | components/bsb/bsbSensor.h:132-136 | once a mapping exists, further additions never turn enum decoding off |
| SensorLogic.OptionsAdded | components/bsb/bsbSensor.h:132-134 | setup adding each pair in turn; characterised by `EnumMappingIffAdded` |
| SensorLogic.EnumMappingIffAdded | components/bsb/bsbSensor.h:132-136 | a new text sensor decodes by its table exactly when setup added at least one mapping |
| SensorLogic.BinaryDecodeExample | components/bsb/bsbSensor.h:154-158 | with off 0x00: 0x00 is off while 0x01 and 0xFF are on |
| SensorLogic.BinaryNarrowsWideValues | components/bsb/bsbSensor.h:156-158 | a wide integer is narrowed to its low byte, so 0x0100 reads as off |
| SelectLogic.Initial | components/bsb/bsbSelect.h:121-130 | a new select has zero attempts of both kinds, no pending write, a timer at 0 and empty tables |
| SelectLogic.IsReadyToUpdate | components/bsb/bsbSelect.h:50-61 | the get check changes only the get counter |
| SelectLogic.IsReadyToSet | components/bsb/bsbSelect.h:63-74 | the set check changes only the set counter |
| SelectLogic.OptionAddedBothWays | components/bsb/bsbSelect.h:29-32 | after adding (v, o) each table maps the pair to the other, and other entries stay |
| SelectLogic.ControlAfterMapping | components/bsb/bsbSelect.h:103-108 | a mapped option written through control goes out as the value it was mapped from, dirty and published |
| SelectLogic.ControlSemantics | components/bsb/bsbSelect.h:103-112 | a known option sets the pending value, marks it dirty and publishes it without touching the counters or timer; an unknown one changes nothing |
| SelectLogic.ValueSetSemantics | components/bsb/bsbSelect.h:34-42 | set_value publishes the mapped option or nothing, and touches nothing else |
| SelectLogic.ValueSetAfterMapping | components/bsb/bsbSelect.h:34-42 | a received value mapped to o publishes o |
| SelectLogic.UpdateReadiness | components/bsb/bsbSelect.h:50-61 | below five the get check changes nothing and answers whether the timer passed; at five it is granted exactly after timer plus retry interval, resetting the counter |
| SelectLogic.SetReadiness | components/bsb/bsbSelect.h:63-74 | below five the set check answers dirty and changes nothing; at five it is granted exactly after timer plus retry interval, resetting the counter |
| SelectLogic.DirtyResetFrame | components/bsb/bsbSelect.h:86-89 | reset_dirty clears the write and its counter and nothing else |
| SelectLogic.ScheduledFrame | components/bsb/bsbSelect.h:76-84 | both schedulers restart get attempts and move the timer, leaving the write state; the regular one uses the update interval |
| SelectLogic.RequestsCount | components/bsb/bsbSelect.h:91-100 | each request counts one attempt of its own kind only; a Set carries the pending value and enable byte |
| BsbSensor.Sensor.constructor | components/bsb/bsbSensor.h:82-85 | a new sensor object is in the initial state |
| BsbSensor.Sensor.IsReady | components/bsb/bsbSensor.h:42-59 | the method's answer and new fields are those of the sensor check |
| BsbSensor.Sensor.ScheduleNextRegularUpdate | components/bsb/bsbSensor.h:61-65 | the new fields are the rescheduled state |
| BsbSensor.Sensor.CreatePackageGet | components/bsb/bsbSensor.h:67-71 | the packet and new fields are those of the Get request |
| BsbSensor.Sensor.SetReading | components/bsb/bsbSensor.h:97 | a numeric sensor holds the new reading and nothing else changes |
| BsbSensor.Sensor.SetText | components/bsb/bsbSensor.h:121 | a text sensor holds the new text and nothing else changes |
| BsbSensor.Sensor.SetValueInt | components/bsb/bsbSensor.h:123-130 | a text sensor holds the mapped option or the decimal text |
| BsbSensor.Sensor.AddOptionMapping | components/bsb/bsbSensor.h:132-134 | the table gains or overwrites the entry |
| BsbSensor.Sensor.HasEnumMapping | components/bsb/bsbSensor.h:136 | answers whether the table is non-empty |
| BsbSensor.Sensor.SetBinary | components/bsb/bsbSensor.h:156-158 | a binary sensor is on exactly when the raw byte differs from the off value |
| BsbSensor.Sensor.Publish | components/bsb/bsbSensor.h:93 | the current value is appended to what was published |
| BsbSelect.Select.constructor | components/bsb/bsbSelect.h:114-130 | a new select object is in the initial state |
| BsbSelect.Select.AddOptionMapping | components/bsb/bsbSelect.h:29-32 | both tables gain the pair |
| BsbSelect.Select.SetValue | components/bsb/bsbSelect.h:34-42 | the mapped option is published, or nothing changes |
| BsbSelect.Select.Publish | components/bsb/bsbSelect.h:44-48 | the current option is republished when there is one |
| BsbSelect.Select.IsReadyToUpdate | components/bsb/bsbSelect.h:50-61 | the answer and new fields are those of the get check |
| BsbSelect.Select.IsReadyToSet | components/bsb/bsbSelect.h:63-74 | the answer and new fields are those of the set check |
| BsbSelect.Select.ScheduleNextRegularUpdate | components/bsb/bsbSelect.h:76-79 | get attempts restart and the timer moves one update interval past now |
| BsbSelect.Select.ScheduleNextUpdate | components/bsb/bsbSelect.h:81-84 | get attempts restart and the timer moves the given interval past now |
| BsbSelect.Select.ResetDirty | components/bsb/bsbSelect.h:86-89 | the pending write and its counter are cleared |
| BsbSelect.Select.CreatePackageSet | components/bsb/bsbSelect.h:91-95 | the packet and new fields are those of the Set request |
| BsbSelect.Select.CreatePackageGet | components/bsb/bsbSelect.h:97-100 | the packet and new fields are those of the Get request |
| BsbSelect.Select.Control | components/bsb/bsbSelect.h:103-112 | the new fields are those of the control function |
| BsbNumber.Number.constructor | components/bsb/bsb.h:24 | a number object holds its configuration, behaviour and fields, unpublished |
| BsbNumber.Number.IsReadyToSet | components/bsb/bsb.cpp:100 | the answer and new fields are those of the number's set check; no publish |
| BsbNumber.Number.IsReadyToUpdate | components/bsb/bsb.cpp:113 | the answer and new fields are those of the number's get check; no publish |
| BsbNumber.Number.GetBroadcast | components/bsb/bsb.cpp:103 | answers the broadcast flag |
| BsbNumber.Number.ResetDirty | components/bsb/bsb.cpp:263 | only the fields change, by the number's reset |
| BsbNumber.Number.ScheduleNextUpdate | components/bsb/bsb.cpp:107 | only the fields change, by the number's scheduler |
| BsbNumber.Number.ScheduleNextRegularUpdate | components/bsb/bsb.cpp:225 | only the fields change, by the number's regular scheduler |
| BsbNumber.Number.CreatePackageSet | components/bsb/bsb.cpp:101 | the packet and new fields are those of the number's Set builder |
| BsbNumber.Number.CreatePackageGet | components/bsb/bsb.cpp:115 | the packet and new fields are those of the number's Get builder |
| BsbNumber.Number.SetValue | components/bsb/bsb.cpp:226-244 | only the fields change, by the number's setter |
| BsbNumber.Number.Publish | components/bsb/bsb.cpp:104 | the publish count rises by one and nothing else changes |
| BsbEngine.Initial | components/bsb/bsb.h:71 | a new component has last_query_ 0, empty registries and nothing written |
| BsbEngine.FeedByte | components/bsb/bsb.cpp:91 | the assembler steps on the inverted byte and its new buffer is kept; no packet leaves the registries alone, a completed packet is dispatched; the configuration, gate and output stay |
| BsbEngine.Receive | components/bsb/bsb.cpp:90-92 | the drain loop logs every available byte inverted, in order, and writes nothing; its full effect is `ReceiveAssembles` |
| BsbEngine.Assemble | components/bsb/bsb.cpp:90-92 | the assembler run over a byte stream, one byte at a time: final buffer and completed packets in order; characterised by `ReceiveAssembles` |
| BsbEngine.DispatchAll | components/bsb/bsb.cpp:151-274 | callback_packet on each packet in turn touches only the registries |
| EngineProperties.DispatchIgnoresReceiveSide | components/bsb/bsb.cpp:151-274 | a reply neither reads nor changes the assembler buffer or the byte log |
| EngineProperties.FeedStep | components/bsb/bsb.cpp:91 | one byte: the assembler steps on the inverted byte, then its packet, if any, is dispatched |
| EngineProperties.ReceiveAssembles | components/bsb/bsb.cpp:90-92 | draining the UART equals running the assembler over the inverted stream and dispatching the packets it completes, in order |
| BsbTypes.GetPacket | components/bsb/bsbSensor.h:70 | a Get for the field, framed by the codec; characterised by `SensorLogic.GetRequestCounts` |
| BsbTypes.SetInt8Packet | components/bsb/bsbSelect.h:93-94 | an Int8 Set for the field, value and enable byte, framed by the codec; characterised by `SelectLogic.RequestsCount` |
| Decimal.ParseNat | components/bsb/bsbSensor.h:128 | the reader of a digit string, the partner of `NatString` in `ParseNatString` |
| Decimal.ParseDecimal | components/bsb/bsbSensor.h:128 | the reader of signed decimal text, the partner of `DecimalString` in `DecimalRoundTrip` |
| SensorLogic.ScheduledRegular | components/bsb/bsbSensor.h:61-65 | characterised by `ScheduledRegularResets` |
| SensorLogic.GetRequest | components/bsb/bsbSensor.h:67-71 | characterised by `GetRequestCounts` and `RetryBounds.SensorStepBounded` |
| SensorLogic.TextOf | components/bsb/bsbSensor.h:123-130 | characterised by `TextOfMapping` and `TextDecodeExample` |
| SensorLogic.OptionAdded | components/bsb/bsbSensor.h:132-134 | characterised by `OptionAddedSemantics` |
| SensorLogic.HasEnumMapping | components/bsb/bsbSensor.h:136 | characterised by `EnumMappingIffAdded` |
| SensorLogic.LowByte | components/bsb/bsbSensor.h:156 | the uint8_t parameter's narrowing; characterised over all inputs by `BinaryOfLowByte` |
| SensorLogic.BinaryOf | components/bsb/bsbSensor.h:156-158 | characterised over all inputs by `BinaryOfLowByte`; `BinaryDecodeExample` and `BinaryNarrowsWideValues` illustrate it |
| SensorLogic.BinaryOfLowByte | components/bsb/bsbSensor.h:154-158 | for every integer v, the binary reading is on exactly when v modulo 256 differs from the off value |
| SensorLogic.Published | components/bsb/bsbSensor.h:93 | characterised by `EngineProperties.SensorDeliveredShape` |
| SelectLogic.OptionAdded | components/bsb/bsbSelect.h:29-32 | characterised by `OptionAddedBothWays` |
| SelectLogic.Controlled | components/bsb/bsbSelect.h:103-112 | characterised by `ControlSemantics` and `ControlAfterMapping` |
| SelectLogic.ValueSet | components/bsb/bsbSelect.h:34-42 | characterised by `ValueSetSemantics` and `ValueSetAfterMapping` |
| SelectLogic.Republished | components/bsb/bsbSelect.h:44-48 | characterised by `EngineProperties.SelectDeliveredShape` |
| SelectLogic.ScheduledRegular | components/bsb/bsbSelect.h:76-79 | characterised by `ScheduledFrame` |
| SelectLogic.Scheduled | components/bsb/bsbSelect.h:81-84 | characterised by `ScheduledFrame` |
| SelectLogic.DirtyReset | components/bsb/bsbSelect.h:86-89 | characterised by `DirtyResetFrame` |
| SelectLogic.SetRequest | components/bsb/bsbSelect.h:91-95 | characterised by `RequestsCount` |
| SelectLogic.GetRequest | components/bsb/bsbSelect.h:97-100 | characterised by `RequestsCount` |
| BsbEngine.NumberCheck | components/bsb/bsb.cpp:100-120 | set check before get check, no Get for a broadcast number; characterised by `EngineProperties.NumberWins` and `BroadcastNeverGets` |
| BsbEngine.NumberAct | components/bsb/bsb.cpp:101-115 | the chosen number's request and follow-up; characterised by `EngineProperties.NumberWins` |
| BsbEngine.SelectCheck | components/bsb/bsb.cpp:125-131 | set check before get check; characterised by `EngineProperties.SelectWins` and `EarlierGetBeatsLaterSet` |
| BsbEngine.SelectAct | components/bsb/bsb.cpp:126-132 | the chosen select's request and follow-up; characterised by `EngineProperties.SelectWins` |
| BsbEngine.SensorCheck | components/bsb/bsb.cpp:140 | characterised by `EngineProperties.SensorWins` |
| BsbEngine.SensorAct | components/bsb/bsb.cpp:141 | characterised by `EngineProperties.SensorWins` |
| BsbEngine.NumbersPolled | components/bsb/bsb.cpp:99-121 | characterised by `EngineProperties.NumberWins` and `NumbersPolledKeeps` |
| BsbEngine.SelectsPolled | components/bsb/bsb.cpp:123-137 | characterised by `EngineProperties.SelectWins` and `SelectsPolledKeeps` |
| BsbEngine.SensorsPolled | components/bsb/bsb.cpp:139-147 | characterised by `EngineProperties.SensorWins` and `SensorsPolledKeeps` |
| BsbEngine.AfterNumbers | components/bsb/bsb.cpp:123-147 | the selects loop, then the sensors loop only if no select sent; characterised by `EngineProperties.SelectWins` and `SensorWins` |
| BsbEngine.Scans | components/bsb/bsb.cpp:97-148 | the three loops in priority order; characterised by `EngineProperties.NumberWins`, `SelectWins`, `SensorWins` and `NothingReady` |
| BsbEngine.Schedule | components/bsb/bsb.cpp:94-148 | the scheduler half of loop(); characterised by `EngineProperties.ScheduleFrame` and the priority lemmas |
| BsbEngine.SensorDelivered | components/bsb/bsb.cpp:158-218 | characterised by `EngineProperties.SensorDeliveredShape` |
| BsbEngine.NumberDelivered | components/bsb/bsb.cpp:223-245 | characterised by `EngineProperties.NumberDeliveredShape` |
| BsbEngine.SelectDelivered | components/bsb/bsb.cpp:250-255 | characterised by `EngineProperties.SelectDeliveredShape` |
| BsbEngine.NumberAcked | components/bsb/bsb.cpp:263 | characterised by `EngineProperties.AckNackReach` |
| BsbEngine.Dispatch | components/bsb/bsb.cpp:151-274 | a reply changes only the registries; characterised by `EngineProperties.InfRetReach`, `AckNackReach` and `OtherCommandsIgnored` |
| BsbEngine.Loop | components/bsb/bsb.cpp:87-149 | characterised by `EngineProperties.LoopFrame` and `RetryBounds.LoopBounded` |
| EngineProperties.ScheduleFrame | components/bsb/bsb.cpp:94-95 | with now <= last_query_ a tick changes nothing; otherwise last_query_ becomes now plus the interval, registries keep their lengths and at most one block is written |
| EngineProperties.FirstTickRuns | components/bsb/bsb.h:71 | with last_query_ 0 the first tick after 0 runs, and with nothing registered it writes nothing |
| EngineProperties.LoopFrame | components/bsb/bsb.cpp:87-149 | one loop() runs the assembler over the inverted bytes, dispatches its packets in order, then schedules; at most one block is written |
| EngineProperties.NumberWins | components/bsb/bsb.cpp:99-121 | the first ready number's request is the only write; earlier numbers hold their checked state, later ones are untouched, selects and sensors are unchanged; a Set is a set check's answer; a broadcast Set resets and publishes; another Set reschedules one IntervalGetAfterSet later |
| EngineProperties.BroadcastNeverGets | components/bsb/bsb.cpp:113-120 | a broadcast number never asks for a Get |
| EngineProperties.SelectWins | components/bsb/bsb.cpp:123-137 | with no number ready, the first ready select's request is the only write; numbers hold their checked state and sensors are unchanged; after a Set the next Get is due now plus 1000 |
| EngineProperties.EarlierGetBeatsLaterSet | components/bsb/bsb.cpp:123-137 | an earlier select due for a Get wins over a later one holding a pending write, which keeps its state |
| EngineProperties.SensorWins | components/bsb/bsb.cpp:139-147 | with no number or select ready, the first ready sensor's Get is the only write |
| EngineProperties.NothingReady | components/bsb/bsb.cpp:97-148 | with no point ready nothing is written, and every point holds its checked state |
| EngineProperties.InfRetReach | components/bsb/bsb.cpp:154-257 | an Inf or Ret for F updates exactly the points under F in each registry, and the rest of the component stays |
| EngineProperties.SensorDeliveredShape | components/bsb/bsb.cpp:158-218 | a reached sensor is rescheduled from now and publishes its new value: the reading of its value type (numeric), the mapped option or decimal text of the int8 with a table and the packet text without (text), the low byte compared with the off value (binary); a type with no case keeps the value |
| EngineProperties.NumberDeliveredShape | components/bsb/bsb.cpp:221-246 | a reached number is rescheduled and given the value for a known type; it does not publish |
| EngineProperties.SelectDeliveredShape | components/bsb/bsb.cpp:248-256 | a reached select is rescheduled with its get attempts restarted and keeps its pending write and tables; a mapped int8 publishes its option twice (set_value, publish), an unmapped one only repeats the current option, if any |
| EngineProperties.InfRetFollowsLookup | components/bsb/bsb.cpp:156-158 | the points an Inf or Ret reaches under F are, in order, the `equal_range` of F with the delivery applied; every other id's lookup is unchanged |
| Registry.Applied | components/bsb/bsb.cpp:158 | a function applied to every point of a sequence, in order |
| Registry.UpdateWhereLookup | components/bsb/bsb.cpp:156-158 | when the update keeps ids, updating under F equals walking `equal_range` of F: its lookup is the old one updated, other ids' lookups stay |
| EngineProperties.AckNackReach | components/bsb/bsb.cpp:259-273 | Ack and Nack act the same: numbers and selects under F drop their pending write; nothing else changes |
| EngineProperties.OtherCommandsIgnored | components/bsb/bsb.cpp:154-273 | a Get or Set seen on the bus changes nothing |
| EngineProperties.NumbersPolledKeeps | components/bsb/bsb.cpp:99-121 | the numbers loop keeps every point's configuration and every select's write |
| EngineProperties.SelectsPolledKeeps | components/bsb/bsb.cpp:123-137 | the selects loop keeps every point's configuration and every select's write |
| EngineProperties.SensorsPolledKeeps | components/bsb/bsb.cpp:139-147 | the sensors loop keeps every point's configuration and every select's write |
| EngineProperties.ScheduleKeeps | components/bsb/bsb.cpp:94-148 | a tick keeps every point's configuration and every select's pending write |
| EngineProperties.DirtyClearedOnlyByAck | components/bsb/bsb.cpp:259-273 | a pending write survives a tick, and a reply clears it exactly when it is an Ack or Nack under its field |
| RetryBounds.InitialPointsBounded | components/bsb/bsbSelect.h:123-125 | new sensors and selects are within their bounds |
| RetryBounds.SensorStepBounded | components/bsb/bsbSensor.h:42-71 | a sensor's check, and the Get it builds when ready, keep at most five attempts |
| RetryBounds.SelectStepBounded | components/bsb/bsbSelect.h:50-100 | a select's checks and requests keep at most five attempts of each kind, with set attempts only while dirty |
| RetryBounds.SensorRequestNeedsCheck | components/bsb/bsbSensor.h:67-71 | a Get built at five attempts without the check would break the bound |
| RetryBounds.SensorUpdatesBounded | components/bsb/bsbSensor.h:61-65 | a delivered reply restarts the attempts, and adding an option keeps them |
| RetryBounds.SelectUpdatesBounded | components/bsb/bsbSelect.h:76-112 | a reply, an acknowledgement, a control call and an option mapping keep a select's bounds |
| RetryBounds.InitialBounded | components/bsb/bsb.h:59-61 | a new component is within bounds |
| RetryBounds.RegisterBounded | components/bsb/bsb.h:48-50 | registering bounded points keeps the bounds |
| RetryBounds.SensorsPolledBounded | components/bsb/bsb.cpp:139-147 | the sensors loop keeps the bounds |
| RetryBounds.SelectsPolledBounded | components/bsb/bsb.cpp:123-137 | the selects loop keeps the bounds |
| RetryBounds.ScheduleBounded | components/bsb/bsb.cpp:94-148 | a tick keeps the bounds |
| RetryBounds.DispatchBounded | components/bsb/bsb.cpp:151-274 | a reply keeps the bounds |
| RetryBounds.ReceiveBounded | components/bsb/bsb.cpp:90-92 | draining the UART keeps the bounds |
| RetryBounds.LoopBounded | components/bsb/bsb.cpp:87-149 | every loop() keeps the bounds: at most five attempts ever counted |
| RetryBounds.ControlBounded | components/bsb/bsbSelect.h:103-112 | a control call keeps the bounds |
| Bsb.Component.constructor | components/bsb/bsb.h:71 | a new component's abstract state is the engine's initial state |
| Bsb.Component.RegisterSensor | components/bsb/bsb.h:48 | the sensor is inserted at its slot in the registry |
| Bsb.Component.RegisterNumber | components/bsb/bsb.h:49 | the number is inserted at its slot in the registry |
| Bsb.Component.RegisterSelect | components/bsb/bsb.h:50 | the select is inserted at its slot in the registry |
| Bsb.Component.WritePacket | components/bsb/bsb.cpp:276-286 | the output is what `Transmit` says |
| Bsb.Component.ServiceNumber | components/bsb/bsb.cpp:100-120 | one number's pass follows its check and, when chosen, its request |
| Bsb.Component.ServiceSelect | components/bsb/bsb.cpp:125-135 | one select's pass follows its check and, when chosen, its request |
| Bsb.Component.ServiceSensor | components/bsb/bsb.cpp:140-145 | one sensor's pass follows its check and, when chosen, its Get |
| Bsb.Component.VisitNumber | components/bsb/bsb.cpp:99-121 | servicing number i changes only that number and at most one block of output |
| Bsb.Component.ScanNumberLoop | components/bsb/bsb.cpp:99-121 | the numbers loop leaves the registry and the output as `Settle` says |
| Bsb.Component.VisitSelect | components/bsb/bsb.cpp:123-137 | servicing select i changes only that select and at most one block of output |
| Bsb.Component.ScanSelectLoop | components/bsb/bsb.cpp:123-137 | the selects loop leaves the registry and the output as `Settle` says |
| Bsb.Component.VisitSensor | components/bsb/bsb.cpp:139-147 | servicing sensor i changes only that sensor and at most one block of output |
| Bsb.Component.ScanSensorLoop | components/bsb/bsb.cpp:139-147 | the sensors loop leaves the registry and the output as `Settle` says |
| Bsb.Component.PollNumbers | components/bsb/bsb.cpp:99-121 | the numbers loop is `NumbersPolled` of the component |
| Bsb.Component.PollSelects | components/bsb/bsb.cpp:123-137 | the selects loop is `SelectsPolled` of the component |
| Bsb.Component.PollSensors | components/bsb/bsb.cpp:139-147 | the sensors loop is `SensorsPolled` of the component |
| Bsb.Component.DeliverToSensor | components/bsb/bsb.cpp:158-218 | one sensor takes an Inf or Ret as `SensorDelivered` says |
| Bsb.Component.DeliverToNumber | components/bsb/bsb.cpp:223-245 | one number takes an Inf or Ret as `NumberDelivered` says |
| Bsb.Component.DeliverToSelect | components/bsb/bsb.cpp:250-255 | one select takes an Inf or Ret as `SelectDelivered` says |
| Bsb.Component.OfferToSensor | components/bsb/bsb.cpp:156-158 | sensor i takes the reply exactly when it is under the field |
| Bsb.Component.DeliverToSensors | components/bsb/bsb.cpp:155-219 | the sensor registry afterwards is `SensorsDelivered` of the one before |
| Bsb.Component.OfferToNumber | components/bsb/bsb.cpp:222-223 | number i takes the reply exactly when it is under the field |
| Bsb.Component.DeliverToNumbers | components/bsb/bsb.cpp:221-246 | the number registry afterwards is `NumbersDelivered` of the one before |
| Bsb.Component.OfferToSelect | components/bsb/bsb.cpp:249-250 | select i takes the reply exactly when it is under the field |
| Bsb.Component.DeliverToSelects | components/bsb/bsb.cpp:248-256 | the select registry afterwards is `SelectsDelivered` of the one before |
| Bsb.Component.AckNumberAt | components/bsb/bsb.cpp:261-264 | number i drops its pending write exactly when it is under the field |
| Bsb.Component.AckNumbers | components/bsb/bsb.cpp:260-265 | the number registry afterwards is `NumbersAcked` of the one before |
| Bsb.Component.AckSelectAt | components/bsb/bsb.cpp:268-271 | select i drops its pending write exactly when it is under the field |
| Bsb.Component.AckSelects | components/bsb/bsb.cpp:267-272 | the select registry afterwards is `SelectsAcked` of the one before |
| Bsb.Component.DeliverReply | components/bsb/bsb.cpp:154-257 | all three registries take an Inf or Ret, and nothing else changes |
| Bsb.Component.AcknowledgeReply | components/bsb/bsb.cpp:259-273 | numbers and selects take an Ack or Nack, and nothing else changes |
| Bsb.Component.CallbackPacket | components/bsb/bsb.cpp:151-274 | the component's abstract state afterwards is `Dispatch` of the one before |
| Bsb.Component.FeedOne | components/bsb/bsb.cpp:91 | one byte off the UART moves the component as `FeedByte` says |
| Bsb.Component.Drain | components/bsb/bsb.cpp:90-92 | the receive loop moves the component as `Receive` says |
| Bsb.Component.PollRest | components/bsb/bsb.cpp:123-147 | the selects and sensors loops move the component as `AfterNumbers` says |
| Bsb.Component.RunScans | components/bsb/bsb.cpp:97-148 | the three loops move the component as `Scans` says |
| Bsb.Component.Poll | components/bsb/bsb.cpp:94-148 | the scheduler moves the component as `Schedule` says |
| Bsb.Component.Loop | components/bsb/bsb.cpp:87-149 | loop() moves the component as `BsbEngine.Loop` says |

## Left out

- The YAML schema and code generation in the Python files are configuration only. Their result is the configuration the points are built with.
- The frame codec, checksum and receive assembler (BsbPacket, BsbPacketReceive, BsbPacketSend*) are not part of this model. They are the `Framing` parameter.
- The number point's class (BsbNumberBase) is not part of this model. Its member functions are the `NumberOps` parameter.
- BsbSensor.Sensor.SetReading: the factor/divisor float scaling is not modelled, because floating point is out of scope. The sensor holds the unscaled reading.
- BsbSelect.Select.SetValue: takes the int8 the parser returns. The float round trip through `static_cast<int8_t>` is the identity on those values.
- Time is unbounded. The uint32 wrap-around of millis() and of timestamp sums is not modelled, and neither are the uint16 attempt counters (they never pass five, see RetryBounds).
- Logging, dump_config, setup and the log-once purpose of the exhaustion flag have no state effect beyond the flag itself, which is modelled.
- publish_state, has_state and current_option of the ESPHome base classes are modelled as a history of published values. Front-end side effects are I/O.
- Bsb.Component.RegisterSensor, Bsb.Component.RegisterNumber, Bsb.Component.RegisterSelect: registering the same object twice is excluded by a precondition, so that each registry holds distinct objects.
- Bsb.Component.DeliverToSensors, Bsb.Component.DeliverToNumbers, Bsb.Component.DeliverToSelects: these visit the whole registry and filter by field id instead of walking the `equal_range`. `EngineProperties.InfRetFollowsLookup` proves the effect on the points is the same.
- The millis() calls inside callback_packet are taken to be the tick's `now`. The clock is a parameter.
- The retry_count_ members are stored but never read, so they are not modelled.
- The unordered_multimap's hash order is a registration slot chosen by the caller. A real insert may rehash and reorder elements with other keys, which `Registry.Insert` does not do. Slot insertion still reaches every final order, and register_* runs only during setup, before the first loop(), so the scans see one fixed order.
- The number's value-type enum (BsbNumberValueType, declared in bsbNumber.h) is taken to have the cases of the sensor's value-type enum. Any case other than the five named in the number switch (UInt8, Int8, Int16, Int32, Temperature) leaves the number's value unset, as the switch's `default: break` does.
- A numeric sensor configured as RoomTemperature or DateTime has no case in the value-type switch. It is rescheduled and republished with its value unchanged.
- Concurrency is not modelled. The component runs on the single-threaded ESPHome main loop.
