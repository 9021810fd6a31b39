/**
 * The transaction engine of the BSB component as values: the per-tick
 * scheduler, the reply dispatcher and the receive path, each a function
 * from the engine's state to its next state. The imperative component in
 * module Bsb is proved to follow these functions.
 */
module BsbEngine {
  import opened BsbTypes
  import opened Wire
  import opened Scan
  import opened Registry
  import SL = SensorLogic
  import SeL = SelectLogic
  import opened BsbNumber

  /** The delay before the verifying Get that follows a Set. */
  const IntervalGetAfterSet: Time := 1000

  /** The component's configuration: codec, bus addresses and the scheduler's tick interval. */
  datatype EngineConfig = EngineConfig(framing: Framing, source: Byte, destination: Byte, queryInterval: Time)

  /**
   * The component's state: when the scheduler may run next, the three
   * registries in iteration order, the receive assembler's buffer, every
   * byte handed to the assembler so far and every block written to the UART.
   */
  datatype EngineState = EngineState(
    cfg: EngineConfig,
    lastQuery: Time,
    numbers: seq<NumberState>,
    selects: seq<SeL.SelectState>,
    sensors: seq<SL.SensorState>,
    rxBuffer: seq<Byte>,
    fed: seq<Byte>,
    written: seq<seq<Byte>>)

  /** A constructed component: nothing registered, last_query_ = 0. */
  function Initial(cfg: EngineConfig): (e: EngineState)
    ensures e.lastQuery == 0 && e.numbers == [] && e.selects == [] && e.sensors == [] && e.written == []
  {
    EngineState(cfg, 0, [], [], [], [], [], [])
  }

  function NumberKey(n: NumberState): FieldId { n.cfg.fieldId }
  function SelectKey(s: SeL.SelectState): FieldId { s.cfg.fieldId }
  function SensorKey(s: SL.SensorState): FieldId { s.cfg.fieldId }

  // ---- The per-tick scan of each registry ----

  /** A number checks set before get; a broadcast number never asks for a Get. */
  function NumberCheck(n: NumberState, t: Time): Step<NumberState> {
    var s := n.ops.readyToSet(n.fields, t);
    if s.ready then Step(Some(SetRequest), n.(fields := s.next))
    else
      var u := n.ops.readyToUpdate(s.next, t);
      Step(if u.ready && !n.cfg.broadcast then Some(GetRequest) else None, n.(fields := u.next))
  }

  /**
   * The chosen number builds its request. After a Set a broadcast number is
   * reset and published at once; any other is rescheduled for a verifying Get.
   */
  function NumberAct(cfg: EngineConfig, t: Time, n: NumberState, pick: Pick): Made<NumberState> {
    match pick
    case SetRequest =>
      var m := n.ops.packageSet(n.fields, cfg.source, cfg.destination);
      if n.cfg.broadcast then
        Made(m.packet, n.(fields := n.ops.resetDirty(m.next), publishes := n.publishes + 1))
      else
        Made(m.packet, n.(fields := n.ops.scheduleNextUpdate(m.next, t, IntervalGetAfterSet)))
    case GetRequest =>
      var m := n.ops.packageGet(n.fields, cfg.source, cfg.destination);
      Made(m.packet, n.(fields := m.next))
  }

  /** A select checks set before get. */
  function SelectCheck(s: SeL.SelectState, t: Time): Step<SeL.SelectState> {
    var c := SeL.IsReadyToSet(s, t);
    if c.ready then Step(Some(SetRequest), c.next)
    else
      var u := SeL.IsReadyToUpdate(c.next, t);
      Step(if u.ready then Some(GetRequest) else None, u.next)
  }

  /** The chosen select builds its request; after a Set its next Get is due one IntervalGetAfterSet later. */
  function SelectAct(cfg: EngineConfig, t: Time, s: SeL.SelectState, pick: Pick): Made<SeL.SelectState> {
    match pick
    case SetRequest =>
      var m := SeL.SetRequest(s, cfg.framing, cfg.source, cfg.destination);
      Made(m.packet, SeL.Scheduled(m.next, t, IntervalGetAfterSet))
    case GetRequest =>
      SeL.GetRequest(s, cfg.framing, cfg.source, cfg.destination)
  }

  /** A sensor only reads. */
  function SensorCheck(s: SL.SensorState, t: Time): Step<SL.SensorState> {
    var c := SL.IsReady(s, t);
    Step(if c.ready then Some(GetRequest) else None, c.next)
  }

  function SensorAct(cfg: EngineConfig, s: SL.SensorState): Made<SL.SensorState> {
    SL.GetRequest(s, cfg.framing, cfg.source, cfg.destination)
  }

  function NumberChecks(t: Time): NumberState -> Step<NumberState> { n => NumberCheck(n, t) }
  function NumberActs(cfg: EngineConfig, t: Time): (NumberState, Pick) -> Made<NumberState> {
    (n, pick) => NumberAct(cfg, t, n, pick)
  }
  function SelectChecks(t: Time): SeL.SelectState -> Step<SeL.SelectState> { s => SelectCheck(s, t) }
  function SelectActs(cfg: EngineConfig, t: Time): (SeL.SelectState, Pick) -> Made<SeL.SelectState> {
    (s, pick) => SelectAct(cfg, t, s, pick)
  }
  function SensorChecks(t: Time): SL.SensorState -> Step<SL.SensorState> { s => SensorCheck(s, t) }
  function SensorActs(cfg: EngineConfig): (SL.SensorState, Pick) -> Made<SL.SensorState> {
    (s, pick) => SensorAct(cfg, s)
  }

  function ScanNumbers(e: EngineState, t: Time): Outcome<NumberState> {
    Settle(e.numbers, NumberChecks(t), NumberActs(e.cfg, t))
  }
  function ScanSelects(e: EngineState, t: Time): Outcome<SeL.SelectState> {
    Settle(e.selects, SelectChecks(t), SelectActs(e.cfg, t))
  }
  function ScanSensors(e: EngineState, t: Time): Outcome<SL.SensorState> {
    Settle(e.sensors, SensorChecks(t), SensorActs(e.cfg))
  }

  /** The engine after one registry scan, and whether the scan sent a request. */
  datatype Polled = Polled(state: EngineState, sent: bool)

  /** The numbers loop: the numbers after their checks and at most one request written. */
  function NumbersPolled(e: EngineState, t: Time): Polled {
    var o := ScanNumbers(e, t);
    Polled(e.(numbers := o.after, written := Emit(e.written, o.sent)), o.sent.Some?)
  }

  /** The selects loop: the selects after their checks and at most one request written. */
  function SelectsPolled(e: EngineState, t: Time): Polled {
    var o := ScanSelects(e, t);
    Polled(e.(selects := o.after, written := Emit(e.written, o.sent)), o.sent.Some?)
  }

  /** The sensors loop: the sensors after their checks and at most one request written. */
  function SensorsPolled(e: EngineState, t: Time): EngineState {
    var o := ScanSensors(e, t);
    e.(sensors := o.after, written := Emit(e.written, o.sent))
  }

  /** What remains of a scan once no number has sent: selects, then sensors if no select sent. */
  function AfterNumbers(e: EngineState, t: Time): EngineState {
    var s := SelectsPolled(e, t);
    if s.sent then s.state else SensorsPolled(s.state, t)
  }

  /** The three registry loops in priority order, each run only while nothing has been sent. */
  function Scans(e: EngineState, t: Time): EngineState {
    var n := NumbersPolled(e, t);
    if n.sent then n.state else AfterNumbers(n.state, t)
  }

  /**
   * The scheduler half of loop(): when the gate is open, move last_query_
   * and scan numbers, then selects only if no number sent, then sensors
   * only if nothing sent yet. The gate closed leaves everything as it is.
   */
  function Schedule(e: EngineState, t: Time): EngineState {
    if t <= e.lastQuery then e else Scans(e.(lastQuery := t + e.cfg.queryInterval), t)
  }

  // ---- The dispatcher ----

  /**
   * An Inf or Ret reaching a sensor: reschedule, decode by kind and value
   * type, publish. A value type with no case in the switch leaves the value.
   */
  function SensorDelivered(fr: Framing, p: Packet, t: Time, s: SL.SensorState): SL.SensorState {
    var s1 := SL.ScheduledRegular(s, t);
    var s2 := match s.cfg.kind
      case NumericSensor =>
        (match ReadingOf(fr, p.buffer, s.cfg.valueType)
         case Some(r) => s1.(value := SL.Numeric(r))
         case None => s1)
      case TextSensor =>
        if SL.HasEnumMapping(s1) then s1.(value := SL.Text(SL.TextOf(s1.options, fr.asInt8(p.buffer))))
        else s1.(value := SL.Text(fr.asText(p.buffer)))
      case BinarySensor =>
        (match IntegerOf(fr, p.buffer, s.cfg.valueType)
         case Some(n) => s1.(value := SL.Binary(SL.BinaryOf(s.cfg.offValue, SL.LowByte(n))))
         case None => s1);
    SL.Published(s2)
  }

  /** An Inf or Ret reaching a number: reschedule and set the value; no publish. */
  function NumberDelivered(fr: Framing, p: Packet, t: Time, n: NumberState): NumberState {
    var f1 := n.ops.scheduleNextRegularUpdate(n.fields, t);
    match ReadingOf(fr, p.buffer, n.cfg.valueType)
    case Some(r) => n.(fields := n.ops.setValue(f1, r))
    case None => n.(fields := f1)
  }

  /** An Inf or Ret reaching a select: reschedule, set the int8 value, republish. */
  function SelectDelivered(fr: Framing, p: Packet, t: Time, s: SeL.SelectState): SeL.SelectState {
    SeL.Republished(SeL.ValueSet(SeL.ScheduledRegular(s, t), fr.asInt8(p.buffer)))
  }

  function NumberAcked(n: NumberState): NumberState {
    n.(fields := n.ops.resetDirty(n.fields))
  }

  /**
   * callback_packet: Inf and Ret update every point registered under the
   * packet's field; Ack and Nack clear the pending write of every number
   * and select under it; any other command changes nothing. Points under
   * other ids, and anything else of the engine, are never touched.
   */
  function Dispatch(e: EngineState, p: Packet, t: Time): (r: EngineState)
    ensures r.cfg == e.cfg && r.lastQuery == e.lastQuery && r.rxBuffer == e.rxBuffer
    ensures r.fed == e.fed && r.written == e.written
  {
    var fr := e.cfg.framing;
    if p.command == Inf || p.command == Ret then
      e.(sensors := SensorsDelivered(fr, p, t, e.sensors),
         numbers := NumbersDelivered(fr, p, t, e.numbers),
         selects := SelectsDelivered(fr, p, t, e.selects))
    else if p.command == Ack || p.command == Nack then
      e.(numbers := NumbersAcked(p.fieldId, e.numbers), selects := SelectsAcked(p.fieldId, e.selects))
    else e
  }

  function SensorsDelivered(fr: Framing, p: Packet, t: Time, ss: seq<SL.SensorState>): seq<SL.SensorState> {
    UpdateWhere(ss, SensorKey, p.fieldId, s => SensorDelivered(fr, p, t, s))
  }

  function NumbersDelivered(fr: Framing, p: Packet, t: Time, ns: seq<NumberState>): seq<NumberState> {
    UpdateWhere(ns, NumberKey, p.fieldId, n => NumberDelivered(fr, p, t, n))
  }

  function SelectsDelivered(fr: Framing, p: Packet, t: Time, ss: seq<SeL.SelectState>): seq<SeL.SelectState> {
    UpdateWhere(ss, SelectKey, p.fieldId, s => SelectDelivered(fr, p, t, s))
  }

  function NumbersAcked(f: FieldId, ns: seq<NumberState>): seq<NumberState> {
    UpdateWhere(ns, NumberKey, f, NumberAcked)
  }

  function SelectsAcked(f: FieldId, ss: seq<SeL.SelectState>): seq<SeL.SelectState> {
    UpdateWhere(ss, SelectKey, f, SeL.DirtyReset)
  }

  // ---- The receive half of loop() ----

  /** One byte from the UART: inverted, handed to the assembler, and any completed packet dispatched. */
  function FeedByte(e: EngineState, b: Byte, t: Time): (r: EngineState)
    ensures r.fed == e.fed + [b ^ 0xFF]
    ensures r.cfg == e.cfg && r.lastQuery == e.lastQuery && r.written == e.written
    ensures var a := e.cfg.framing.assemble(e.rxBuffer, b ^ 0xFF);
      && r.rxBuffer == a.buffer
      && (a.packet.None? ==> r.numbers == e.numbers && r.selects == e.selects && r.sensors == e.sensors)
      && (a.packet.Some? ==> r == Dispatch(e, a.packet.value, t).(rxBuffer := a.buffer, fed := r.fed))
  {
    var a := e.cfg.framing.assemble(e.rxBuffer, Invert(b));
    var e1 := e.(rxBuffer := a.buffer, fed := e.fed + [Invert(b)]);
    match a.packet
    case None => e1
    case Some(p) => Dispatch(e1, p, t)
  }

  /** All bytes available this tick, in order: the assembler sees each one inverted, and nothing is written. */
  function Receive(e: EngineState, rx: seq<Byte>, t: Time): (r: EngineState)
    ensures r.fed == e.fed + InvertAll(rx)
    ensures r.cfg == e.cfg && r.lastQuery == e.lastQuery && r.written == e.written
    decreases |rx|
  {
    if |rx| == 0 then e
    else FeedByte(Receive(e, rx[..|rx| - 1], t), rx[|rx| - 1], t)
  }

  /** The assembler's buffer after a byte stream, and the packets it completed on the way, in order. */
  datatype Assembly = Assembly(buffer: seq<Byte>, packets: seq<Packet>)

  /** The receive assembler run over a whole byte stream, one byte at a time. */
  function Assemble(fr: Framing, buffer: seq<Byte>, s: seq<Byte>): Assembly
    decreases |s|
  {
    if |s| == 0 then Assembly(buffer, [])
    else
      var before := Assemble(fr, buffer, s[..|s| - 1]);
      var a := fr.assemble(before.buffer, s[|s| - 1]);
      Assembly(a.buffer, before.packets + match a.packet case Some(p) => [p] case None => [])
  }

  /** callback_packet on each packet in turn. */
  function DispatchAll(e: EngineState, ps: seq<Packet>, t: Time): (r: EngineState)
    ensures r.cfg == e.cfg && r.lastQuery == e.lastQuery && r.rxBuffer == e.rxBuffer
    ensures r.fed == e.fed && r.written == e.written
    decreases |ps|
  {
    if |ps| == 0 then e else Dispatch(DispatchAll(e, ps[..|ps| - 1], t), ps[|ps| - 1], t)
  }

  /** One call of loop(): drain the UART, then run the scheduler. */
  function Loop(e: EngineState, rx: seq<Byte>, t: Time): EngineState {
    Schedule(Receive(e, rx, t), t)
  }
}
