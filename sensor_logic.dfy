/**
 * The state of a read-only point (BsbSensorBase and its three kinds) as a
 * value, each of its operations as a function from the old state to the
 * new one, and the properties the get-retry state machine keeps.
 */
module SensorLogic {
  import opened BsbTypes
  import opened Decimal

  /** The attempt ceiling of is_ready: the literal 5 (the configured retry count is never read). */
  const RetryCeiling: nat := 5

  datatype SensorKind = NumericSensor | TextSensor | BinarySensor

  /** The value a point holds; Unset is the value of a float or bool member never assigned. */
  datatype SensorValue = Unset | Numeric(reading: Reading) | Text(text: string) | Binary(on: bool)

  /** What the generated setup code configures before the point is registered. */
  datatype SensorConfig = SensorConfig(
    fieldId: FieldId,
    kind: SensorKind,
    valueType: ValueType,
    updateInterval: Time,
    retryInterval: Time,
    offValue: Byte)

  /**
   * The fields of a point: the get-retry bookkeeping, its value, the text
   * kind's value-to-option table, and the values published so far.
   */
  datatype SensorState = SensorState(
    cfg: SensorConfig,
    nextUpdate: Time,
    retryStart: Time,
    sentGet: nat,
    loggedExhaustion: bool,
    value: SensorValue,
    options: map<Int8, string>,
    published: seq<SensorValue>)

  /** A freshly constructed point: every counter and timestamp at zero. */
  function Initial(cfg: SensorConfig): (s: SensorState)
    ensures s.cfg == cfg && s.sentGet == 0 && !s.loggedExhaustion && s.nextUpdate == 0
    ensures s.options == map[] && s.published == []
  {
    SensorState(cfg, 0, 0, 0, false, if cfg.kind == TextSensor then Text("") else Unset, map[], [])
  }

  /** Only the get-retry bookkeeping (counter, exhaustion flag, exhaustion timestamp) differs. */
  predicate SameExceptRetry(s: SensorState, t: SensorState) {
    t == s.(sentGet := t.sentGet, loggedExhaustion := t.loggedExhaustion, retryStart := t.retryStart)
  }

  /**
   * is_ready: below the ceiling, due when the regular timer has passed.
   * At the ceiling, the first call records when exhaustion began; once the
   * retry interval has elapsed since then, one attempt is granted and the
   * counter and flag reset.
   */
  function IsReady(s: SensorState, t: Time): (r: Checked<SensorState>)
    ensures SameExceptRetry(s, r.next)
  {
    if s.sentGet >= RetryCeiling then
      var marked := if s.loggedExhaustion then s else s.(loggedExhaustion := true, retryStart := t);
      if t >= marked.retryStart + s.cfg.retryInterval then
        Checked(true, marked.(sentGet := 0, loggedExhaustion := false))
      else
        Checked(false, marked)
    else
      Checked(t >= s.nextUpdate, s)
  }

  /** schedule_next_regular_update: restart the get attempts and the regular timer. */
  function ScheduledRegular(s: SensorState, t: Time): (r: SensorState)
  {
    s.(sentGet := 0, loggedExhaustion := false, nextUpdate := t + s.cfg.updateInterval)
  }

  /** createPackageGet: one more get attempt, and a Get for the point's own field. */
  function GetRequest(s: SensorState, fr: Framing, source: Byte, destination: Byte): (r: Made<SensorState>)
  {
    Made(GetPacket(fr, source, destination, s.cfg.fieldId), s.(sentGet := s.sentGet + 1))
  }

  /** set_value_int of the text kind: the mapped option, else the decimal text of the int8. */
  function TextOf(options: map<Int8, string>, v: Int8): string {
    if v in options then options[v] else DecimalString(v)
  }

  /** add_option_mapping of the text kind: a re-added value overwrites its option. */
  function OptionAdded(s: SensorState, v: Int8, option: string): SensorState {
    s.(options := s.options[v := option])
  }

  /** has_enum_mapping. */
  predicate HasEnumMapping(s: SensorState) {
    |s.options| > 0
  }

  /** The implicit conversion of an integer argument to a uint8_t parameter: its low byte. */
  function LowByte(v: int): Byte {
    (v % 0x100) as Byte
  }

  /** set_value of the binary kind: on unless the raw byte equals the off value. */
  function BinaryOf(offValue: Byte, raw: Byte): bool {
    raw != offValue
  }

  /** publish: the current value goes out. */
  function Published(s: SensorState): SensorState {
    s.(published := s.published + [s.value])
  }

  // ---- The get-retry state machine ----

  /** Below the ceiling is_ready changes nothing and answers whether the regular timer has passed. */
  lemma ReadyBelowCeiling(s: SensorState, t: Time)
    requires s.sentGet < RetryCeiling
    ensures IsReady(s, t) == Checked(t >= s.nextUpdate, s)
  {
  }

  /**
   * At the ceiling the exhaustion timestamp is t on the first call (flag
   * clear) and is kept on later calls; the check grants an attempt exactly
   * when the retry interval has elapsed since that timestamp, and then resets
   * the counter and the flag; otherwise the counter stays and the flag is set.
   */
  lemma ReadyAtCeiling(s: SensorState, t: Time)
    requires s.sentGet >= RetryCeiling
    ensures var r := IsReady(s, t);
      && r.next.retryStart == (if s.loggedExhaustion then s.retryStart else t)
      && (r.ready <==> t >= r.next.retryStart + s.cfg.retryInterval)
      && (r.ready ==> r.next.sentGet == 0 && !r.next.loggedExhaustion)
      && (!r.ready ==> r.next.sentGet == s.sentGet && r.next.loggedExhaustion)
  {
  }

  /** A refused check at the ceiling fixes the exhaustion timestamp: a later check does not move it. */
  lemma RetryStartStable(s: SensorState, t1: Time, t2: Time)
    requires s.sentGet >= RetryCeiling
    requires !IsReady(s, t1).ready
    ensures IsReady(IsReady(s, t1).next, t2).next.retryStart == IsReady(s, t1).next.retryStart
  {
  }

  /**
   * Once exhaustion has been recorded at t0 the point stays ineligible at
   * every time before t0 + retryInterval and is granted an attempt at any
   * time from then on.
   */
  lemma ExhaustedUntilInterval(s: SensorState, t: Time)
    requires s.sentGet >= RetryCeiling && s.loggedExhaustion
    ensures IsReady(s, t).ready <==> t >= s.retryStart + s.cfg.retryInterval
  {
  }

  /** schedule_next_regular_update: counter 0, flag clear, next update one interval after t; nothing else. */
  lemma ScheduledRegularResets(s: SensorState, t: Time)
    ensures var r := ScheduledRegular(s, t);
      && r.sentGet == 0 && !r.loggedExhaustion && r.nextUpdate == t + s.cfg.updateInterval
      && r == s.(sentGet := 0, loggedExhaustion := false, nextUpdate := r.nextUpdate)
  {
  }

  /** createPackageGet counts exactly one attempt and asks for the point's own field. */
  lemma GetRequestCounts(s: SensorState, fr: Framing, source: Byte, destination: Byte)
    ensures var m := GetRequest(s, fr, source, destination);
      && m.next.sentGet == s.sentGet + 1
      && m.next == s.(sentGet := m.next.sentGet)
      && m.packet.command == Get && m.packet.fieldId == s.cfg.fieldId
      && m.packet.buffer == fr.getFrame(source, destination, s.cfg.fieldId)
  {
  }

  // ---- Decoding ----

  /** Text: a mapped value gives its option, an unmapped one its decimal text. */
  lemma TextOfMapping(options: map<Int8, string>, v: Int8)
    ensures v in options ==> TextOf(options, v) == options[v]
    ensures v !in options ==> TextOf(options, v) == DecimalString(v) && ParseDecimal(TextOf(options, v)) == v
  {
    if v !in options {
      DecimalRoundTrip(v);
    }
  }

  /** With {2: "Comfort"}, raw 2 reads "Comfort" and the unmapped raw 5 reads "5". */
  lemma TextDecodeExample()
    ensures TextOf(map[2 := "Comfort"], 2) == "Comfort"
    ensures TextOf(map[2 := "Comfort"], 5) == "5"
    ensures TextOf(map[2 := "Comfort"], -3) == "-3"
  {
    assert NatString(5) == [Digit(5)];
    assert NatString(3) == [Digit(3)];
  }

  /** Adding a mapping makes it the one used and turns the enum decoding on; a later one overwrites it. */
  lemma OptionAddedSemantics(s: SensorState, v: Int8, o1: string, o2: string)
    ensures HasEnumMapping(OptionAdded(s, v, o1))
    ensures TextOf(OptionAdded(s, v, o1).options, v) == o1
    ensures TextOf(OptionAdded(OptionAdded(s, v, o1), v, o2).options, v) == o2
    ensures forall w :: w != v ==> TextOf(OptionAdded(s, v, o1).options, w) == TextOf(s.options, w)
  {
  }

  /** The point after the generated setup code has added each (value, option) pair in turn. */
  function OptionsAdded(s: SensorState, pairs: seq<(Int8, string)>): SensorState
    decreases |pairs|
  {
    if |pairs| == 0 then s else OptionsAdded(OptionAdded(s, pairs[0].0, pairs[0].1), pairs[1..])
  }

  /** Further mappings never turn the enum decoding off. */
  lemma {:induction false} MappingKept(s: SensorState, pairs: seq<(Int8, string)>)
    requires HasEnumMapping(s)
    ensures HasEnumMapping(OptionsAdded(s, pairs))
    decreases |pairs|
  {
    if |pairs| > 0 {
      var v := pairs[0].0;
      var r := OptionAdded(s, v, pairs[0].1);
      assert v in r.options;
      MappingKept(r, pairs[1..]);
    }
  }

  /** A new text point decodes by its table exactly when setup added at least one mapping. */
  lemma EnumMappingIffAdded(cfg: SensorConfig, pairs: seq<(Int8, string)>)
    ensures HasEnumMapping(OptionsAdded(Initial(cfg), pairs)) <==> |pairs| > 0
  {
    if |pairs| > 0 {
      var r := OptionAdded(Initial(cfg), pairs[0].0, pairs[0].1);
      assert pairs[0].0 in r.options;
      MappingKept(r, pairs[1..]);
    }
  }

  /** For every integer argument, the binary reading is on exactly when its low byte differs from the off value. */
  lemma BinaryOfLowByte(offValue: Byte, v: int)
    ensures BinaryOf(offValue, LowByte(v)) <==> v % 0x100 != offValue as int
  {
  }

  /** Binary with off value 0x00: raw 0x00 is off, raw 0x01 and 0xFF are on. */
  lemma BinaryDecodeExample()
    ensures !BinaryOf(0x00, 0x00)
    ensures BinaryOf(0x00, 0x01) && BinaryOf(0x00, 0xFF)
    ensures BinaryOf(0x00, LowByte(-1))
  {
  }

  /** A wide integer is narrowed to its low byte before the comparison: 0x0100 reads as off. */
  lemma BinaryNarrowsWideValues()
    ensures !BinaryOf(0x00, LowByte(0x0100))
    ensures BinaryOf(0x00, LowByte(0x0101))
  {
  }
}
