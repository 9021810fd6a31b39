/**
 * The state of a select point (BsbSelect) as a value: its option tables,
 * the pending write, and the independent get and set retry counters that
 * share one timer. Each operation is a function from the old state to the
 * new one.
 */
module SelectLogic {
  import opened BsbTypes

  /** The attempt ceiling of both ready checks: the literal 5. */
  const RetryCeiling: nat := 5

  datatype SelectConfig = SelectConfig(
    fieldId: FieldId,
    enableByte: Byte,
    updateInterval: Time,
    retryInterval: Time)

  /**
   * The fields of a select, plus the options published so far
   * (has_state and current_option are the last of them).
   */
  datatype SelectState = SelectState(
    cfg: SelectConfig,
    nextUpdate: Time,
    sentSet: nat,
    sentGet: nat,
    dirty: bool,
    valueToSend: Int8,
    valueToOption: map<Int8, string>,
    optionToValue: map<string, Int8>,
    published: seq<string>)

  function Initial(cfg: SelectConfig): (s: SelectState)
    ensures s.cfg == cfg && s.sentSet == 0 && s.sentGet == 0 && !s.dirty && s.nextUpdate == 0
    ensures s.valueToOption == map[] && s.optionToValue == map[] && s.published == []
  {
    SelectState(cfg, 0, 0, 0, false, 0, map[], map[], [])
  }

  /** add_option_mapping: record the pair in both directions. */
  function OptionAdded(s: SelectState, v: Int8, option: string): SelectState {
    s.(valueToOption := s.valueToOption[v := option], optionToValue := s.optionToValue[option := v])
  }

  /** control: a known option becomes the pending write and is published; an unknown one is ignored. */
  function Controlled(s: SelectState, option: string): SelectState {
    if option in s.optionToValue then
      s.(valueToSend := s.optionToValue[option], dirty := true, published := s.published + [option])
    else s
  }

  /** set_value: publish the option of a received value when there is one. */
  function ValueSet(s: SelectState, v: Int8): SelectState {
    if v in s.valueToOption then s.(published := s.published + [s.valueToOption[v]]) else s
  }

  /** publish: republish the current option, if there is one. */
  function Republished(s: SelectState): SelectState {
    if |s.published| > 0 then s.(published := s.published + [s.published[|s.published| - 1]]) else s
  }

  /**
   * is_ready_to_update: below the ceiling, due when the timer has passed.
   * At the ceiling one attempt is granted once the retry interval has
   * elapsed past the timer, and the get counter resets.
   */
  function IsReadyToUpdate(s: SelectState, t: Time): (r: Checked<SelectState>)
    ensures r.next == s.(sentGet := r.next.sentGet)
  {
    if s.sentGet >= RetryCeiling && t >= s.nextUpdate + s.cfg.retryInterval then
      Checked(true, s.(sentGet := 0))
    else
      Checked(s.sentGet < RetryCeiling && t >= s.nextUpdate, s)
  }

  /**
   * is_ready_to_set: below the ceiling, due when a write is pending. At the
   * ceiling one attempt is granted once the retry interval has elapsed past
   * the get timer, and the set counter resets.
   */
  function IsReadyToSet(s: SelectState, t: Time): (r: Checked<SelectState>)
    ensures r.next == s.(sentSet := r.next.sentSet)
  {
    if s.sentSet >= RetryCeiling && t >= s.nextUpdate + s.cfg.retryInterval then
      Checked(true, s.(sentSet := 0))
    else
      Checked(s.sentSet < RetryCeiling && s.dirty, s)
  }

  function ScheduledRegular(s: SelectState, t: Time): SelectState {
    s.(sentGet := 0, nextUpdate := t + s.cfg.updateInterval)
  }

  function Scheduled(s: SelectState, t: Time, interval: Time): SelectState {
    s.(sentGet := 0, nextUpdate := t + interval)
  }

  function DirtyReset(s: SelectState): SelectState {
    s.(sentSet := 0, dirty := false)
  }

  /** createPackageSet: one more set attempt and a Set carrying the pending value and the enable byte. */
  function SetRequest(s: SelectState, fr: Framing, source: Byte, destination: Byte): Made<SelectState> {
    Made(SetInt8Packet(fr, source, destination, s.cfg.fieldId, s.valueToSend, s.cfg.enableByte),
         s.(sentSet := s.sentSet + 1))
  }

  /** createPackageGet: one more get attempt and a Get for the select's field. */
  function GetRequest(s: SelectState, fr: Framing, source: Byte, destination: Byte): Made<SelectState> {
    Made(GetPacket(fr, source, destination, s.cfg.fieldId), s.(sentGet := s.sentGet + 1))
  }

  // ---- Option mapping and write intent ----

  /** After add_option_mapping(v, o) each table maps the pair to the other; other entries stay. */
  lemma OptionAddedBothWays(s: SelectState, v: Int8, o: string)
    ensures var r := OptionAdded(s, v, o);
      && r.valueToOption[v] == o && r.optionToValue[o] == v
      && (forall w :: w in s.valueToOption && w != v ==> w in r.valueToOption && r.valueToOption[w] == s.valueToOption[w])
      && r == s.(valueToOption := r.valueToOption, optionToValue := r.optionToValue)
  {
  }

  /** A mapped option written through control goes out as the value it was mapped from. */
  lemma ControlAfterMapping(s: SelectState, v: Int8, o: string)
    ensures var r := Controlled(OptionAdded(s, v, o), o);
      r.valueToSend == v && r.dirty && r.published == s.published + [o]
  {
  }

  /**
   * control with a known option sets the pending value from the table, marks
   * it dirty and publishes the option; with an unknown option nothing changes.
   */
  lemma ControlSemantics(s: SelectState, o: string)
    ensures o in s.optionToValue ==>
      var r := Controlled(s, o);
      && r.valueToSend == s.optionToValue[o] && r.dirty && r.published == s.published + [o]
      && r.sentSet == s.sentSet && r.sentGet == s.sentGet && r.nextUpdate == s.nextUpdate
    ensures o !in s.optionToValue ==> Controlled(s, o) == s
  {
  }

  /** set_value publishes the mapped option or nothing, and never touches the write or the counters. */
  lemma ValueSetSemantics(s: SelectState, v: Int8)
    ensures var r := ValueSet(s, v);
      && r == s.(published := r.published)
      && (v in s.valueToOption ==> r.published == s.published + [s.valueToOption[v]])
      && (v !in s.valueToOption ==> r.published == s.published)
  {
  }

  /** A received value read back through the two tables is the option that maps to it. */
  lemma ValueSetAfterMapping(s: SelectState, v: Int8, o: string)
    ensures ValueSet(OptionAdded(s, v, o), v).published == s.published + [o]
  {
  }

  // ---- The two retry state machines ----

  /**
   * Below the ceiling the get check changes nothing and answers whether the
   * timer has passed. At the ceiling it is granted, and resets the counter,
   * exactly when the retry interval has elapsed past the timer.
   */
  lemma UpdateReadiness(s: SelectState, t: Time)
    ensures s.sentGet < RetryCeiling ==> IsReadyToUpdate(s, t) == Checked(t >= s.nextUpdate, s)
    ensures s.sentGet >= RetryCeiling ==>
      var r := IsReadyToUpdate(s, t);
      && (r.ready <==> t >= s.nextUpdate + s.cfg.retryInterval)
      && r.next.sentGet == (if r.ready then 0 else s.sentGet)
  {
  }

  /**
   * Below the ceiling the set check changes nothing and answers whether a
   * write is pending. At the ceiling it is granted, and resets the set
   * counter, exactly when the retry interval has elapsed past the get timer.
   */
  lemma SetReadiness(s: SelectState, t: Time)
    ensures s.sentSet < RetryCeiling ==> IsReadyToSet(s, t) == Checked(s.dirty, s)
    ensures s.sentSet >= RetryCeiling ==>
      var r := IsReadyToSet(s, t);
      && (r.ready <==> t >= s.nextUpdate + s.cfg.retryInterval)
      && r.next.sentSet == (if r.ready then 0 else s.sentSet)
  {
  }

  /** reset_dirty clears the write and its counter and leaves the get state alone. */
  lemma DirtyResetFrame(s: SelectState)
    ensures var r := DirtyReset(s);
      !r.dirty && r.sentSet == 0 && r == s.(dirty := false, sentSet := 0)
  {
  }

  /** Both schedulers restart the get attempts and move the timer, leaving the write state alone. */
  lemma ScheduledFrame(s: SelectState, t: Time, interval: Time)
    ensures var r := Scheduled(s, t, interval);
      r.sentGet == 0 && r.nextUpdate == t + interval && r.sentSet == s.sentSet && r.dirty == s.dirty
    ensures ScheduledRegular(s, t) == Scheduled(s, t, s.cfg.updateInterval)
  {
  }

  /** Each request counts one attempt of its own kind only; a Set carries the pending value and the enable byte. */
  lemma RequestsCount(s: SelectState, fr: Framing, source: Byte, destination: Byte)
    ensures var m := SetRequest(s, fr, source, destination);
      && m.next == s.(sentSet := s.sentSet + 1)
      && m.packet == SetInt8Packet(fr, source, destination, s.cfg.fieldId, s.valueToSend, s.cfg.enableByte)
    ensures var m := GetRequest(s, fr, source, destination);
      && m.next == s.(sentGet := s.sentGet + 1)
      && m.packet.command == Get && m.packet.fieldId == s.cfg.fieldId
  {
  }
}
