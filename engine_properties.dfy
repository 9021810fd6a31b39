/**
 * What the transaction engine promises across whole ticks and replies:
 * the gate, the priority of the three scans and the single request per
 * tick, the follow-up of a write, the reach of a reply, and the bounds the
 * retry counters keep.
 */
module EngineProperties {
  import opened BsbTypes
  import opened Wire
  import opened Scan
  import opened Registry
  import SL = SensorLogic
  import SeL = SelectLogic
  import opened BsbNumber
  import opened BsbEngine

  /** The state the scans start from once the gate has opened. */
  function Gated(e: EngineState, t: Time): EngineState {
    e.(lastQuery := t + e.cfg.queryInterval)
  }

  // ---- The gate and the single request ----

  /**
   * With now <= last_query_ a tick changes nothing at all. Otherwise
   * last_query_ becomes now + query interval. Either way the configuration
   * and the receive side stay, every registry keeps its length, and at most
   * one block is appended to what was written.
   */
  lemma ScheduleFrame(e: EngineState, t: Time)
    ensures var r := Schedule(e, t);
      && (t <= e.lastQuery ==> r == e)
      && (t > e.lastQuery ==> r.lastQuery == t + e.cfg.queryInterval)
      && r.cfg == e.cfg && r.rxBuffer == e.rxBuffer && r.fed == e.fed
      && |r.numbers| == |e.numbers| && |r.selects| == |e.selects| && |r.sensors| == |e.sensors|
      && |e.written| <= |r.written| <= |e.written| + 1 && r.written[..|e.written|] == e.written
  {
    if t > e.lastQuery {
      var n := NumbersPolled(Gated(e, t), t);
      if !n.sent {
        var s := SelectsPolled(n.state, t);
        assert n.state.written == e.written;
        if !s.sent {
          assert s.state.written == e.written;
        }
      }
    }
  }

  /** last_query_ starts at 0, so the first tick at a time after 0 runs the scan; with nothing registered it sends nothing. */
  lemma FirstTickRuns(cfg: EngineConfig, t: Time)
    requires t > 0
    ensures Schedule(Initial(cfg), t).lastQuery == t + cfg.queryInterval
    ensures Schedule(Initial(cfg), t).written == []
  {
    ScheduleFrame(Initial(cfg), t);
  }

  /** A reply never looks at the receive side, so it commutes with the assembler's bookkeeping. */
  lemma DispatchIgnoresReceiveSide(e: EngineState, p: Packet, t: Time, buffer: seq<Byte>, fed: seq<Byte>)
    ensures Dispatch(e.(rxBuffer := buffer, fed := fed), p, t) == Dispatch(e, p, t).(rxBuffer := buffer, fed := fed)
  {
  }

  /** One byte fed to a component whose registries are those of d: the assembler's step, then its packet dispatched. */
  lemma FeedStep(d: EngineState, buffer: seq<Byte>, fed: seq<Byte>, b: Byte, t: Time)
    ensures var a := d.cfg.framing.assemble(buffer, Invert(b));
      FeedByte(d.(rxBuffer := buffer, fed := fed), b, t)
        == (match a.packet case None => d case Some(q) => Dispatch(d, q, t)).(rxBuffer := a.buffer, fed := fed + [Invert(b)])
  {
    var a := d.cfg.framing.assemble(buffer, Invert(b));
    if a.packet.Some? {
      DispatchIgnoresReceiveSide(d, a.packet.value, t, buffer, fed);
    }
  }

  /**
   * The receive half of loop() runs the assembler over the inverted stream
   * and dispatches the packets it completes, in the order it completes them:
   * the registries end as dispatching those packets in turn leaves them,
   * and the assembler's buffer as its run over the inverted bytes leaves it.
   */
  lemma {:induction false} ReceiveAssembles(e: EngineState, rx: seq<Byte>, t: Time)
    ensures var run := Assemble(e.cfg.framing, e.rxBuffer, InvertAll(rx));
      Receive(e, rx, t) == DispatchAll(e, run.packets, t).(rxBuffer := run.buffer, fed := e.fed + InvertAll(rx))
    decreases |rx|
  {
    var fr := e.cfg.framing;
    if |rx| == 0 {
      assert InvertAll(rx) == [];
    } else {
      var rx', b := rx[..|rx| - 1], rx[|rx| - 1];
      ReceiveAssembles(e, rx', t);
      var s := InvertAll(rx);
      assert s[..|s| - 1] == InvertAll(rx') && s[|s| - 1] == Invert(b);
      var run' := Assemble(fr, e.rxBuffer, InvertAll(rx'));
      var d' := DispatchAll(e, run'.packets, t);
      assert Receive(e, rx, t) == FeedByte(d'.(rxBuffer := run'.buffer, fed := e.fed + InvertAll(rx')), b, t);
      FeedStep(d', run'.buffer, e.fed + InvertAll(rx'), b, t);
      var a := fr.assemble(run'.buffer, Invert(b));
      assert e.fed + InvertAll(rx') + [Invert(b)] == e.fed + s;
      if a.packet.Some? {
        var ps := run'.packets + [a.packet.value];
        assert Assemble(fr, e.rxBuffer, s) == Assembly(a.buffer, ps);
        assert ps[..|ps| - 1] == run'.packets;
      } else {
        assert Assemble(fr, e.rxBuffer, s) == Assembly(a.buffer, run'.packets);
      }
    }
  }

  /**
   * One call of loop(): every available byte reaches the assembler
   * inverted, every packet it completes is dispatched in order, then the
   * scheduler runs and writes at most one block.
   */
  lemma LoopFrame(e: EngineState, rx: seq<Byte>, t: Time)
    ensures var r := BsbEngine.Loop(e, rx, t);
      && r.fed == e.fed + InvertAll(rx) && r.cfg == e.cfg
      && |e.written| <= |r.written| <= |e.written| + 1 && r.written[..|e.written|] == e.written
    ensures var run := Assemble(e.cfg.framing, e.rxBuffer, InvertAll(rx));
      && BsbEngine.Loop(e, rx, t).rxBuffer == run.buffer
      && BsbEngine.Loop(e, rx, t) == Schedule(DispatchAll(e, run.packets, t).(rxBuffer := run.buffer, fed := e.fed + InvertAll(rx)), t)
  {
    ScheduleFrame(Receive(e, rx, t), t);
    ReceiveAssembles(e, rx, t);
  }

  // ---- Priority: numbers, then selects, then sensors ----

  /**
   * When the first number in iteration order that asks to send is number k,
   * the tick writes exactly k's request. The numbers before k keep their
   * checked state, those after k are not visited, and no select or sensor
   * is touched. A Set of a broadcast number resets it and publishes it.
   * A Set of any other number reschedules its Get one IntervalGetAfterSet
   * later. A number publishes in no other case.
   */
  lemma NumberWins(e: EngineState, t: Time, k: nat)
    requires t > e.lastQuery && FirstReady(e.numbers, NumberChecks(t), k)
    ensures var r := Schedule(e, t);
      var n := e.numbers[k];
      var c := NumberCheck(n, t);
      var m := NumberAct(e.cfg, t, c.next, c.pick.value);
      && r.written == Transmit(e.written, m.packet)
      && r.numbers[k] == m.next
      && (forall j :: 0 <= j < k ==> r.numbers[j] == NumberCheck(e.numbers[j], t).next)
      && (forall j :: k < j < |e.numbers| ==> r.numbers[j] == e.numbers[j])
      && r.selects == e.selects && r.sensors == e.sensors
      && (c.pick == Some(SetRequest) <==> n.ops.readyToSet(n.fields, t).ready)
      && (c.pick == Some(SetRequest) && n.cfg.broadcast ==>
            var made := n.ops.packageSet(c.next.fields, e.cfg.source, e.cfg.destination);
            r.numbers[k].fields == n.ops.resetDirty(made.next) && r.numbers[k].publishes == n.publishes + 1)
      && (c.pick == Some(SetRequest) && !n.cfg.broadcast ==>
            var made := n.ops.packageSet(c.next.fields, e.cfg.source, e.cfg.destination);
            r.numbers[k].fields == n.ops.scheduleNextUpdate(made.next, t, IntervalGetAfterSet)
            && r.numbers[k].publishes == n.publishes)
      && (c.pick == Some(GetRequest) ==> r.numbers[k].publishes == n.publishes)
  {
    var g := Gated(e, t);
    var check, act := NumberChecks(t), NumberActs(e.cfg, t);
    ScanWinnerIsFirst(e.numbers, check, k);
    SettleCharacterised(e.numbers, check, act);
    var o := Settle(e.numbers, check, act);
    assert o.sent.Some? && o.winner == Some(Win(k, check(e.numbers[k]).pick.value));
    assert Schedule(e, t) == NumbersPolled(g, t).state;
  }

  /** A broadcast number never asks for a Get. */
  lemma BroadcastNeverGets(n: NumberState, t: Time)
    requires n.cfg.broadcast
    ensures NumberCheck(n, t).pick != Some(GetRequest)
  {
  }

  /**
   * When no number asks to send and the first select that does is select k,
   * the tick writes exactly k's request. Every number keeps its checked
   * state, the selects before k keep theirs, those after k are not visited,
   * and no sensor is touched. After a Set the select's next Get is due
   * IntervalGetAfterSet after now, with its get attempts restarted.
   */
  lemma SelectWins(e: EngineState, t: Time, k: nat)
    requires t > e.lastQuery && NoneReady(e.numbers, NumberChecks(t))
    requires FirstReady(e.selects, SelectChecks(t), k)
    ensures var r := Schedule(e, t);
      var c := SelectCheck(e.selects[k], t);
      var m := SelectAct(e.cfg, t, c.next, c.pick.value);
      && r.written == Transmit(e.written, m.packet)
      && |r.numbers| == |e.numbers|
      && (forall j :: 0 <= j < |e.numbers| ==> r.numbers[j] == NumberCheck(e.numbers[j], t).next)
      && r.selects[k] == m.next
      && (forall j :: 0 <= j < k ==> r.selects[j] == SelectCheck(e.selects[j], t).next)
      && (forall j :: k < j < |e.selects| ==> r.selects[j] == e.selects[j])
      && r.sensors == e.sensors
      && (c.pick == Some(SetRequest) ==>
            && m.packet == SeL.SetRequest(c.next, e.cfg.framing, e.cfg.source, e.cfg.destination).packet
            && r.selects[k].nextUpdate == t + IntervalGetAfterSet && r.selects[k].sentGet == 0
            && r.selects[k].sentSet == c.next.sentSet + 1)
  {
    var g := Gated(e, t);
    var nc, na := NumberChecks(t), NumberActs(e.cfg, t);
    ScanNoWinner(e.numbers, nc);
    SettleCharacterised(e.numbers, nc, na);
    var n := NumbersPolled(g, t);
    assert !n.sent && n.state.selects == e.selects && n.state.sensors == e.sensors;
    var check, act := SelectChecks(t), SelectActs(e.cfg, t);
    ScanWinnerIsFirst(e.selects, check, k);
    SettleCharacterised(e.selects, check, act);
    var o := Settle(e.selects, check, act);
    assert o.sent.Some? && o.winner == Some(Win(k, check(e.selects[k]).pick.value));
    assert Schedule(e, t) == SelectsPolled(n.state, t).state;
  }

  /**
   * A select's check asks for the Get before it asks for the Set only in
   * iteration order: an earlier select due for a Get wins over a later one
   * holding a pending write, whose state the tick leaves as it was.
   */
  lemma EarlierGetBeatsLaterSet(e: EngineState, t: Time, j: nat, k: nat)
    requires t > e.lastQuery && NoneReady(e.numbers, NumberChecks(t))
    requires j < k < |e.selects| && FirstReady(e.selects, SelectChecks(t), j)
    requires SelectCheck(e.selects[j], t).pick == Some(GetRequest)
    requires SelectCheck(e.selects[k], t).pick == Some(SetRequest)
    ensures var r := Schedule(e, t);
      var c := SelectCheck(e.selects[j], t);
      && r.written == Transmit(e.written, SeL.GetRequest(c.next, e.cfg.framing, e.cfg.source, e.cfg.destination).packet)
      && r.selects[k] == e.selects[k]
  {
    SelectWins(e, t, j);
  }

  /**
   * When neither a number nor a select asks to send and the first sensor
   * that does is sensor k, the tick writes exactly k's Get. Every number and
   * select keeps its checked state, the sensors before k keep theirs and
   * those after k are not visited.
   */
  lemma SensorWins(e: EngineState, t: Time, k: nat)
    requires t > e.lastQuery && NoneReady(e.numbers, NumberChecks(t)) && NoneReady(e.selects, SelectChecks(t))
    requires FirstReady(e.sensors, SensorChecks(t), k)
    ensures var r := Schedule(e, t);
      var c := SensorCheck(e.sensors[k], t);
      var m := SensorAct(e.cfg, c.next);
      && r.written == Transmit(e.written, m.packet)
      && m.packet.command == Get && m.packet.fieldId == e.sensors[k].cfg.fieldId
      && |r.numbers| == |e.numbers| && |r.selects| == |e.selects|
      && (forall j :: 0 <= j < |e.numbers| ==> r.numbers[j] == NumberCheck(e.numbers[j], t).next)
      && (forall j :: 0 <= j < |e.selects| ==> r.selects[j] == SelectCheck(e.selects[j], t).next)
      && r.sensors[k] == m.next
      && (forall j :: 0 <= j < k ==> r.sensors[j] == SensorCheck(e.sensors[j], t).next)
      && (forall j :: k < j < |e.sensors| ==> r.sensors[j] == e.sensors[j])
  {
    var g := Gated(e, t);
    var nc, na := NumberChecks(t), NumberActs(e.cfg, t);
    ScanNoWinner(e.numbers, nc);
    SettleCharacterised(e.numbers, nc, na);
    var n := NumbersPolled(g, t);
    assert !n.sent && n.state.selects == e.selects && n.state.sensors == e.sensors;
    var sc, sa := SelectChecks(t), SelectActs(e.cfg, t);
    ScanNoWinner(e.selects, sc);
    SettleCharacterised(e.selects, sc, sa);
    var s := SelectsPolled(n.state, t);
    assert !s.sent && s.state.sensors == e.sensors;
    var check, act := SensorChecks(t), SensorActs(e.cfg);
    ScanWinnerIsFirst(e.sensors, check, k);
    SettleCharacterised(e.sensors, check, act);
    var o := Settle(e.sensors, check, act);
    assert o.sent.Some? && o.winner == Some(Win(k, check(e.sensors[k]).pick.value));
    assert Schedule(e, t) == SensorsPolled(s.state, t);
  }

  /** When no point asks to send the tick writes nothing, and every point keeps its checked state. */
  lemma NothingReady(e: EngineState, t: Time)
    requires t > e.lastQuery && NoneReady(e.numbers, NumberChecks(t)) && NoneReady(e.selects, SelectChecks(t))
    requires NoneReady(e.sensors, SensorChecks(t))
    ensures var r := Schedule(e, t);
      && r.written == e.written
      && |r.numbers| == |e.numbers| && |r.selects| == |e.selects| && |r.sensors| == |e.sensors|
      && (forall j :: 0 <= j < |e.numbers| ==> r.numbers[j] == NumberCheck(e.numbers[j], t).next)
      && (forall j :: 0 <= j < |e.selects| ==> r.selects[j] == SelectCheck(e.selects[j], t).next)
      && (forall j :: 0 <= j < |e.sensors| ==> r.sensors[j] == SensorCheck(e.sensors[j], t).next)
  {
    var g := Gated(e, t);
    var nc, na := NumberChecks(t), NumberActs(e.cfg, t);
    ScanNoWinner(e.numbers, nc);
    SettleCharacterised(e.numbers, nc, na);
    var n := NumbersPolled(g, t);
    assert !n.sent && n.state.selects == e.selects && n.state.sensors == e.sensors;
    var sc, sa := SelectChecks(t), SelectActs(e.cfg, t);
    ScanNoWinner(e.selects, sc);
    SettleCharacterised(e.selects, sc, sa);
    var s := SelectsPolled(n.state, t);
    assert !s.sent && s.state.sensors == e.sensors;
    var check, act := SensorChecks(t), SensorActs(e.cfg);
    ScanNoWinner(e.sensors, check);
    SettleCharacterised(e.sensors, check, act);
    assert Schedule(e, t) == SensorsPolled(s.state, t);
  }

  // ---- The reach of a reply ----

  /**
   * An Inf or Ret for field F reaches every sensor, number and select
   * registered under F and no other point. A reached sensor or select is
   * rescheduled one regular interval after now with its get attempts
   * restarted, and publishes once more. A reached number is rescheduled
   * and given the value, and publishes nothing. Pending writes, the
   * configuration, the gate, the receive side and the output stay as they were.
   */
  lemma InfRetReach(e: EngineState, p: Packet, t: Time)
    requires p.command == Inf || p.command == Ret
    ensures var r := Dispatch(e, p, t);
      var fr := e.cfg.framing;
      && r == e.(numbers := r.numbers, selects := r.selects, sensors := r.sensors)
      && |r.numbers| == |e.numbers| && |r.selects| == |e.selects| && |r.sensors| == |e.sensors|
      && (forall i :: 0 <= i < |e.sensors| ==>
            r.sensors[i] == if e.sensors[i].cfg.fieldId == p.fieldId then SensorDelivered(fr, p, t, e.sensors[i]) else e.sensors[i])
      && (forall i :: 0 <= i < |e.numbers| ==>
            r.numbers[i] == if e.numbers[i].cfg.fieldId == p.fieldId then NumberDelivered(fr, p, t, e.numbers[i]) else e.numbers[i])
      && (forall i :: 0 <= i < |e.selects| ==>
            r.selects[i] == if e.selects[i].cfg.fieldId == p.fieldId then SelectDelivered(fr, p, t, e.selects[i]) else e.selects[i])
  {
  }

  /**
   * A sensor reached by an Inf or Ret is rescheduled from now, keeps its
   * configuration and options, takes the value its kind and value type
   * decode, and publishes that value. A numeric sensor takes the reading of
   * its value type; a text sensor with a table takes the option of the int8
   * (or its decimal text), one without takes the packet's text; a binary
   * sensor compares the low byte of the integer with its off value. A value
   * type with no case in the switch leaves the value as it was.
   */
  lemma SensorDeliveredShape(fr: Framing, p: Packet, t: Time, s: SL.SensorState)
    ensures var r := SensorDelivered(fr, p, t, s);
      && r.sentGet == 0 && !r.loggedExhaustion && r.nextUpdate == t + s.cfg.updateInterval
      && r.cfg == s.cfg && r.options == s.options && r.published == s.published + [r.value]
    ensures var r := SensorDelivered(fr, p, t, s);
      var reading := ReadingOf(fr, p.buffer, s.cfg.valueType);
      s.cfg.kind == SL.NumericSensor ==>
        r.value == if reading.Some? then SL.Numeric(reading.value) else s.value
    ensures var r := SensorDelivered(fr, p, t, s);
      s.cfg.kind == SL.TextSensor ==>
        r.value == if SL.HasEnumMapping(s) then SL.Text(SL.TextOf(s.options, fr.asInt8(p.buffer)))
                   else SL.Text(fr.asText(p.buffer))
    ensures var r := SensorDelivered(fr, p, t, s);
      var n := IntegerOf(fr, p.buffer, s.cfg.valueType);
      s.cfg.kind == SL.BinarySensor ==>
        r.value == if n.Some? then SL.Binary(SL.BinaryOf(s.cfg.offValue, SL.LowByte(n.value))) else s.value
  {
  }

  /** A number reached by an Inf or Ret is rescheduled and, for a value type the switch knows, given the value; it does not publish. */
  lemma NumberDeliveredShape(fr: Framing, p: Packet, t: Time, n: NumberState)
    ensures var r := NumberDelivered(fr, p, t, n);
      && r.publishes == n.publishes && r.cfg == n.cfg && r.ops == n.ops
      && var f1 := n.ops.scheduleNextRegularUpdate(n.fields, t);
         var v := ReadingOf(fr, p.buffer, n.cfg.valueType);
         r.fields == if v.Some? then n.ops.setValue(f1, v.value) else f1
  {
  }

  /**
   * A select reached by an Inf or Ret is rescheduled from now with its get
   * attempts restarted and keeps its pending write and tables. When the
   * packet's int8 is mapped, its option is published by set_value and again
   * by publish; when it is not, publish repeats the current option, if any.
   */
  lemma SelectDeliveredShape(fr: Framing, p: Packet, t: Time, s: SeL.SelectState)
    ensures var r := SelectDelivered(fr, p, t, s);
      && r.sentGet == 0 && r.nextUpdate == t + s.cfg.updateInterval
      && r.sentSet == s.sentSet && r.dirty == s.dirty && r.valueToSend == s.valueToSend
      && r.cfg == s.cfg && r.valueToOption == s.valueToOption && r.optionToValue == s.optionToValue
    ensures var r := SelectDelivered(fr, p, t, s);
      var v := fr.asInt8(p.buffer);
      && (v in s.valueToOption ==> r.published == s.published + [s.valueToOption[v], s.valueToOption[v]])
      && (v !in s.valueToOption && |s.published| > 0 ==> r.published == s.published + [s.published[|s.published| - 1]])
      && (v !in s.valueToOption && |s.published| == 0 ==> r.published == [])
  {
  }

  /**
   * The dispatcher walks the whole registry with a field filter where the
   * source walks equal_range: the points it reaches under F are, in order,
   * the lookup of F with the delivery applied, and the lookup of any other
   * id is unchanged.
   */
  lemma InfRetFollowsLookup(e: EngineState, p: Packet, t: Time, other: FieldId)
    requires (p.command == Inf || p.command == Ret) && other != p.fieldId
    ensures var r := Dispatch(e, p, t);
      var fr := e.cfg.framing;
      && Lookup(r.sensors, SensorKey, p.fieldId) == Applied(Lookup(e.sensors, SensorKey, p.fieldId), s => SensorDelivered(fr, p, t, s))
      && Lookup(r.numbers, NumberKey, p.fieldId) == Applied(Lookup(e.numbers, NumberKey, p.fieldId), n => NumberDelivered(fr, p, t, n))
      && Lookup(r.selects, SelectKey, p.fieldId) == Applied(Lookup(e.selects, SelectKey, p.fieldId), s => SelectDelivered(fr, p, t, s))
      && Lookup(r.sensors, SensorKey, other) == Lookup(e.sensors, SensorKey, other)
      && Lookup(r.numbers, NumberKey, other) == Lookup(e.numbers, NumberKey, other)
      && Lookup(r.selects, SelectKey, other) == Lookup(e.selects, SelectKey, other)
  {
    var fr := e.cfg.framing;
    UpdateWhereLookup(e.sensors, SensorKey, p.fieldId, s => SensorDelivered(fr, p, t, s), other);
    UpdateWhereLookup(e.numbers, NumberKey, p.fieldId, n => NumberDelivered(fr, p, t, n), other);
    UpdateWhereLookup(e.selects, SelectKey, p.fieldId, s => SelectDelivered(fr, p, t, s), other);
  }

  /**
   * Ack and Nack for field F have the same effect: every number and select
   * under F has its pending write cleared, every other point and every
   * sensor stays as it was, and so does the rest of the engine.
   */
  lemma AckNackReach(e: EngineState, p: Packet, t: Time)
    requires p.command == Ack || p.command == Nack
    ensures var r := Dispatch(e, p, t);
      && r == Dispatch(e, p.(command := Ack), t) == Dispatch(e, p.(command := Nack), t)
      && r == e.(numbers := r.numbers, selects := r.selects)
      && |r.numbers| == |e.numbers| && |r.selects| == |e.selects|
      && (forall i :: 0 <= i < |e.numbers| ==>
            r.numbers[i] == if e.numbers[i].cfg.fieldId == p.fieldId then NumberAcked(e.numbers[i]) else e.numbers[i])
      && (forall i :: 0 <= i < |e.selects| ==>
            r.selects[i] == if e.selects[i].cfg.fieldId == p.fieldId then e.selects[i].(dirty := false, sentSet := 0) else e.selects[i])
  {
    var r := Dispatch(e, p, t);
    assert r == Dispatch(e, p.(command := Ack), t);
    assert r == Dispatch(e, p.(command := Nack), t);
  }

  /** A Get or Set seen on the bus changes nothing. */
  lemma OtherCommandsIgnored(e: EngineState, p: Packet, t: Time)
    requires p.command == Get || p.command == Set
    ensures Dispatch(e, p, t) == e
  {
  }

  // ---- The pending write of a select ----

  /** Every point keeps its configuration, and every select its pending write. */
  ghost predicate KeepsConfigAndWrites(e: EngineState, r: EngineState) {
    && |r.numbers| == |e.numbers| && |r.selects| == |e.selects| && |r.sensors| == |e.sensors|
    && (forall i :: 0 <= i < |e.numbers| ==> r.numbers[i].cfg == e.numbers[i].cfg && r.numbers[i].ops == e.numbers[i].ops)
    && (forall i :: 0 <= i < |e.sensors| ==> r.sensors[i].cfg == e.sensors[i].cfg)
    && (forall i :: 0 <= i < |e.selects| ==>
          r.selects[i].cfg == e.selects[i].cfg && r.selects[i].dirty == e.selects[i].dirty
          && r.selects[i].valueToSend == e.selects[i].valueToSend)
  }

  lemma NumbersPolledKeeps(e: EngineState, t: Time)
    ensures KeepsConfigAndWrites(e, NumbersPolled(e, t).state)
  {
    var rel := (a: NumberState, b: NumberState) => b.cfg == a.cfg && b.ops == a.ops;
    SettleRelates(e.numbers, NumberChecks(t), NumberActs(e.cfg, t), rel);
  }

  lemma SelectsPolledKeeps(e: EngineState, t: Time)
    ensures KeepsConfigAndWrites(e, SelectsPolled(e, t).state)
  {
    var rel := (a: SeL.SelectState, b: SeL.SelectState) => b.cfg == a.cfg && b.dirty == a.dirty && b.valueToSend == a.valueToSend;
    SettleRelates(e.selects, SelectChecks(t), SelectActs(e.cfg, t), rel);
  }

  lemma SensorsPolledKeeps(e: EngineState, t: Time)
    ensures KeepsConfigAndWrites(e, SensorsPolled(e, t))
  {
    var rel := (a: SL.SensorState, b: SL.SensorState) => b.cfg == a.cfg;
    SettleRelates(e.sensors, SensorChecks(t), SensorActs(e.cfg), rel);
  }

  /** A tick keeps the configuration of every point and the pending write of every select. */
  lemma ScheduleKeeps(e: EngineState, t: Time)
    ensures KeepsConfigAndWrites(e, Schedule(e, t))
  {
    if t > e.lastQuery {
      var g := Gated(e, t);
      NumbersPolledKeeps(g, t);
      var n := NumbersPolled(g, t);
      if !n.sent {
        SelectsPolledKeeps(n.state, t);
        var s := SelectsPolled(n.state, t);
        if !s.sent {
          SensorsPolledKeeps(s.state, t);
        }
      }
    }
  }

  /**
   * A write intent survives everything but its acknowledgement: a tick and
   * an Inf or Ret leave every select's dirty flag as it was, and only an Ack
   * or Nack under the select's field clears it.
   */
  lemma DirtyClearedOnlyByAck(e: EngineState, p: Packet, t: Time, i: nat)
    requires i < |e.selects| && e.selects[i].dirty
    ensures Schedule(e, t).selects[i].dirty
    ensures !Dispatch(e, p, t).selects[i].dirty <==>
      (p.command == Ack || p.command == Nack) && e.selects[i].cfg.fieldId == p.fieldId
  {
    ScheduleKeeps(e, t);
  }
}

