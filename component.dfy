/**
 * The BSB component itself (BsbComponent): the registries of numbers,
 * selects and sensors, the scheduler's gate, the receive assembler's
 * buffer and the UART output. loop(), callback_packet() and write_packet()
 * are methods that change these in place; each is proved to follow the
 * pure engine of module BsbEngine.
 */
module Bsb {
  import opened BsbTypes
  import opened Wire
  import opened Scan
  import opened Registry
  import opened BsbEngine
  import SL = SensorLogic
  import SeL = SelectLogic
  import BsbSensor
  import BsbSelect
  import BsbNumber

  class Component {
    const cfg: EngineConfig
    var lastQuery: Time
    var numbers: seq<BsbNumber.Number>
    var selects: seq<BsbSelect.Select>
    var sensors: seq<BsbSensor.Sensor>
    /** The receive assembler's partial frame. */
    var rxBuffer: seq<Byte>
    /** Every byte handed to the assembler so far. */
    ghost var fed: seq<Byte>
    /** Every block handed to write_array so far. */
    var written: seq<seq<Byte>>

    /** No point is registered twice in one registry. */
    ghost predicate Valid()
      reads this
    {
      Distinct(numbers) && Distinct(selects) && Distinct(sensors)
    }

    /** The component's state as a value of the pure engine. */
    ghost function Abstract(): EngineState
      reads this, numbers, selects, sensors
    {
      EngineState(cfg, lastQuery, BsbNumber.StatesOf(numbers), BsbSelect.StatesOf(selects),
                  BsbSensor.StatesOf(sensors), rxBuffer, fed, written)
    }

    /** A new component: nothing registered and last_query_ = 0. */
    constructor (cfg: EngineConfig)
      ensures Valid() && Abstract() == Initial(cfg)
    {
      this.cfg := cfg;
      lastQuery := 0;
      numbers, selects, sensors := [], [], [];
      rxBuffer, fed, written := [], [], [];
    }

    // ---- Registration ----

    method RegisterSensor(s: BsbSensor.Sensor, slot: nat)
      requires Valid() && s !in sensors && slot <= |sensors|
      modifies this`sensors
      ensures Valid() && sensors == Insert(old(sensors), slot, s)
      ensures Abstract() == old(Abstract()).(sensors := Insert(old(Abstract()).sensors, slot, s.State()))
    {
      DistinctInsert(sensors, slot, s);
      ghost var before := BsbSensor.StatesOf(sensors);
      sensors := Insert(sensors, slot, s);
      assert BsbSensor.StatesOf(sensors) == Insert(before, slot, s.State());
    }

    method RegisterNumber(n: BsbNumber.Number, slot: nat)
      requires Valid() && n !in numbers && slot <= |numbers|
      modifies this`numbers
      ensures Valid() && numbers == Insert(old(numbers), slot, n)
      ensures Abstract() == old(Abstract()).(numbers := Insert(old(Abstract()).numbers, slot, n.State()))
    {
      DistinctInsert(numbers, slot, n);
      ghost var before := BsbNumber.StatesOf(numbers);
      numbers := Insert(numbers, slot, n);
      assert BsbNumber.StatesOf(numbers) == Insert(before, slot, n.State());
    }

    method RegisterSelect(s: BsbSelect.Select, slot: nat)
      requires Valid() && s !in selects && slot <= |selects|
      modifies this`selects
      ensures Valid() && selects == Insert(old(selects), slot, s)
      ensures Abstract() == old(Abstract()).(selects := Insert(old(Abstract()).selects, slot, s.State()))
    {
      DistinctInsert(selects, slot, s);
      ghost var before := BsbSelect.StatesOf(selects);
      selects := Insert(selects, slot, s);
      assert BsbSelect.StatesOf(selects) == Insert(before, slot, s.State());
    }

    // ---- Output ----

    /** write_packet: an empty frame is dropped; any other goes out inverted as one block. */
    method WritePacket(p: Packet)
      modifies this`written
      ensures written == Transmit(old(written), p)
    {
      if |p.buffer| > 0 {
        var frame := InvertedCopy(p.buffer);
        assert frame == InvertAll(p.buffer);
        written := written + [frame];
      }
    }

    // ---- The scheduler's three scans ----

    /** One pass of the numbers loop: check set, then update, and send at most one request. */
    method ServiceNumber(n: BsbNumber.Number, now: Time) returns (sent: bool)
      modifies n, this`written
      ensures var c := NumberCheck(old(n.State()), now);
        && sent == c.pick.Some?
        && (!sent ==> n.State() == c.next && written == old(written))
        && (sent ==> var m := NumberAct(cfg, now, c.next, c.pick.value);
              n.State() == m.next && written == Transmit(old(written), m.packet))
    {
      var ready := n.IsReadyToSet(now);
      if ready {
        var p := n.CreatePackageSet(cfg.source, cfg.destination);
        WritePacket(p);
        var broadcast := n.GetBroadcast();
        if broadcast {
          n.ResetDirty();
          n.Publish();
        } else {
          n.ScheduleNextUpdate(now, IntervalGetAfterSet);
        }
        return true;
      }
      ready := n.IsReadyToUpdate(now);
      if ready {
        var broadcast := n.GetBroadcast();
        if !broadcast {
          var p := n.CreatePackageGet(cfg.source, cfg.destination);
          WritePacket(p);
          return true;
        }
      }
      return false;
    }

    /** One pass of the selects loop: check set, then update, and send at most one request. */
    method ServiceSelect(s: BsbSelect.Select, now: Time) returns (sent: bool)
      modifies s, this`written
      ensures var c := SelectCheck(old(s.State()), now);
        && sent == c.pick.Some?
        && (!sent ==> s.State() == c.next && written == old(written))
        && (sent ==> var m := SelectAct(cfg, now, c.next, c.pick.value);
              s.State() == m.next && written == Transmit(old(written), m.packet))
    {
      var ready := s.IsReadyToSet(now);
      if ready {
        var p := s.CreatePackageSet(cfg.framing, cfg.source, cfg.destination);
        WritePacket(p);
        s.ScheduleNextUpdate(now, IntervalGetAfterSet);
        return true;
      }
      ready := s.IsReadyToUpdate(now);
      if ready {
        var p := s.CreatePackageGet(cfg.framing, cfg.source, cfg.destination);
        WritePacket(p);
        return true;
      }
      return false;
    }

    /** One pass of the sensors loop: ask for a reading when due. */
    method ServiceSensor(s: BsbSensor.Sensor, now: Time) returns (sent: bool)
      modifies s, this`written
      ensures var c := SensorCheck(old(s.State()), now);
        && sent == c.pick.Some?
        && (!sent ==> s.State() == c.next && written == old(written))
        && (sent ==> var m := SensorAct(cfg, c.next);
              s.State() == m.next && written == Transmit(old(written), m.packet))
    {
      var ready := s.IsReady(now);
      if ready {
        var p := s.CreatePackageGet(cfg.framing, cfg.source, cfg.destination);
        WritePacket(p);
        return true;
      }
      return false;
    }

    /** Service the number at position i of its registry; the other numbers are left alone. */
    method VisitNumber(i: nat, now: Time) returns (sent: bool)
      requires Valid() && i < |numbers|
      modifies numbers[i], this`written
      ensures var before := old(BsbNumber.StatesOf(numbers));
        var c := NumberCheck(before[i], now);
        && sent == c.pick.Some?
        && (!sent ==> BsbNumber.StatesOf(numbers) == before[i := c.next] && written == old(written))
        && (sent ==> var m := NumberAct(cfg, now, c.next, c.pick.value);
              BsbNumber.StatesOf(numbers) == before[i := m.next] && written == Transmit(old(written), m.packet))
    {
      ghost var before := BsbNumber.StatesOf(numbers);
      sent := ServiceNumber(numbers[i], now);
      assert forall j :: 0 <= j < |numbers| && j != i ==> numbers[j] != numbers[i];
    }

    /** The numbers loop of loop(): stop at the first number that sends. */
    method ScanNumberLoop(now: Time) returns (packetSent: bool)
      requires Valid()
      modifies this`written, numbers
      ensures var o := Settle(old(BsbNumber.StatesOf(numbers)), NumberChecks(now), NumberActs(cfg, now));
        && BsbNumber.StatesOf(numbers) == o.after
        && written == Emit(old(written), o.sent)
        && packetSent == o.sent.Some?
    {
      ghost var before := BsbNumber.StatesOf(numbers);
      ghost var check := NumberChecks(now);
      ghost var act := NumberActs(cfg, now);
      ghost var cur := before;
      packetSent := false;
      var i := 0;
      while i < |numbers|
        invariant 0 <= i <= |numbers| && !packetSent && written == old(written)
        invariant BsbNumber.StatesOf(numbers) == cur && |cur| == |before|
        invariant PassedBefore(before, check, cur, i)
        invariant forall j :: i <= j < |cur| ==> cur[j] == before[j]
      {
        ghost var c := NumberCheck(before[i], now);
        assert check(before[i]) == c;
        packetSent := VisitNumber(i, now);
        if packetSent {
          assert act(c.next, c.pick.value) == NumberAct(cfg, now, c.next, c.pick.value);
          cur := cur[i := act(c.next, c.pick.value).next];
          SettledAtWinner(before, check, act, cur, i);
          break;
        }
        cur := cur[i := c.next];
        i := i + 1;
      }
      if !packetSent {
        SettledWithoutWinner(before, check, act, cur);
      }
    }

    /** Service the select at position i of its registry; the other selects are left alone. */
    method VisitSelect(i: nat, now: Time) returns (sent: bool)
      requires Valid() && i < |selects|
      modifies selects[i], this`written
      ensures var before := old(BsbSelect.StatesOf(selects));
        var c := SelectCheck(before[i], now);
        && sent == c.pick.Some?
        && (!sent ==> BsbSelect.StatesOf(selects) == before[i := c.next] && written == old(written))
        && (sent ==> var m := SelectAct(cfg, now, c.next, c.pick.value);
              BsbSelect.StatesOf(selects) == before[i := m.next] && written == Transmit(old(written), m.packet))
    {
      ghost var before := BsbSelect.StatesOf(selects);
      sent := ServiceSelect(selects[i], now);
      assert forall j :: 0 <= j < |selects| && j != i ==> selects[j] != selects[i];
    }

    /** The selects loop of loop(): stop at the first select that sends. */
    method ScanSelectLoop(now: Time) returns (packetSent: bool)
      requires Valid()
      modifies this`written, selects
      ensures var o := Settle(old(BsbSelect.StatesOf(selects)), SelectChecks(now), SelectActs(cfg, now));
        && BsbSelect.StatesOf(selects) == o.after
        && written == Emit(old(written), o.sent)
        && packetSent == o.sent.Some?
    {
      ghost var before := BsbSelect.StatesOf(selects);
      ghost var check := SelectChecks(now);
      ghost var act := SelectActs(cfg, now);
      ghost var cur := before;
      packetSent := false;
      var i := 0;
      while i < |selects|
        invariant 0 <= i <= |selects| && !packetSent && written == old(written)
        invariant BsbSelect.StatesOf(selects) == cur && |cur| == |before|
        invariant PassedBefore(before, check, cur, i)
        invariant forall j :: i <= j < |cur| ==> cur[j] == before[j]
      {
        ghost var c := SelectCheck(before[i], now);
        assert check(before[i]) == c;
        packetSent := VisitSelect(i, now);
        if packetSent {
          assert act(c.next, c.pick.value) == SelectAct(cfg, now, c.next, c.pick.value);
          cur := cur[i := act(c.next, c.pick.value).next];
          SettledAtWinner(before, check, act, cur, i);
          break;
        }
        cur := cur[i := c.next];
        i := i + 1;
      }
      if !packetSent {
        SettledWithoutWinner(before, check, act, cur);
      }
    }

    /** Service the sensor at position i of its registry; the other sensors are left alone. */
    method VisitSensor(i: nat, now: Time) returns (sent: bool)
      requires Valid() && i < |sensors|
      modifies sensors[i], this`written
      ensures var before := old(BsbSensor.StatesOf(sensors));
        var c := SensorCheck(before[i], now);
        && sent == c.pick.Some?
        && (!sent ==> BsbSensor.StatesOf(sensors) == before[i := c.next] && written == old(written))
        && (sent ==> var m := SensorAct(cfg, c.next);
              BsbSensor.StatesOf(sensors) == before[i := m.next] && written == Transmit(old(written), m.packet))
    {
      ghost var before := BsbSensor.StatesOf(sensors);
      sent := ServiceSensor(sensors[i], now);
      assert forall j :: 0 <= j < |sensors| && j != i ==> sensors[j] != sensors[i];
    }

    /** The sensors loop of loop(): stop at the first sensor that sends. */
    method ScanSensorLoop(now: Time)
      requires Valid()
      modifies this`written, sensors
      ensures var o := Settle(old(BsbSensor.StatesOf(sensors)), SensorChecks(now), SensorActs(cfg));
        && BsbSensor.StatesOf(sensors) == o.after
        && written == Emit(old(written), o.sent)
    {
      ghost var before := BsbSensor.StatesOf(sensors);
      ghost var check := SensorChecks(now);
      ghost var act := SensorActs(cfg);
      ghost var cur := before;
      var sent := false;
      var i := 0;
      while i < |sensors|
        invariant 0 <= i <= |sensors| && !sent && written == old(written)
        invariant BsbSensor.StatesOf(sensors) == cur && |cur| == |before|
        invariant PassedBefore(before, check, cur, i)
        invariant forall j :: i <= j < |cur| ==> cur[j] == before[j]
      {
        ghost var c := SensorCheck(before[i], now);
        assert check(before[i]) == c;
        sent := VisitSensor(i, now);
        if sent {
          assert act(c.next, c.pick.value) == SensorAct(cfg, c.next);
          cur := cur[i := act(c.next, c.pick.value).next];
          SettledAtWinner(before, check, act, cur, i);
          break;
        }
        cur := cur[i := c.next];
        i := i + 1;
      }
      if !sent {
        SettledWithoutWinner(before, check, act, cur);
      }
    }

    /** The numbers loop as a step of the whole component. */
    method PollNumbers(now: Time) returns (packetSent: bool)
      requires Valid()
      modifies this`written, numbers
      ensures Valid()
      ensures Polled(Abstract(), packetSent) == NumbersPolled(old(Abstract()), now)
    {
      packetSent := ScanNumberLoop(now);
    }

    /** The selects loop as a step of the whole component. */
    method PollSelects(now: Time) returns (packetSent: bool)
      requires Valid()
      modifies this`written, selects
      ensures Valid()
      ensures Polled(Abstract(), packetSent) == SelectsPolled(old(Abstract()), now)
    {
      packetSent := ScanSelectLoop(now);
    }

    /** The sensors loop as a step of the whole component. */
    method PollSensors(now: Time)
      requires Valid()
      modifies this`written, sensors
      ensures Abstract() == SensorsPolled(old(Abstract()), now)
    {
      ScanSensorLoop(now);
    }

    // ---- The dispatcher ----

    /** An Inf or Ret reaching one sensor. */
    method DeliverToSensor(s: BsbSensor.Sensor, p: Packet, now: Time)
      modifies s
      ensures s.State() == SensorDelivered(cfg.framing, p, now, old(s.State()))
    {
      var fr := cfg.framing;
      s.ScheduleNextRegularUpdate(now);
      match s.cfg.kind {
        case NumericSensor =>
          match s.cfg.valueType {
            case UInt8Type => s.SetReading(Integer(fr.asUInt8(p.buffer)));
            case Int8Type => s.SetReading(Integer(fr.asInt8(p.buffer)));
            case Int16Type => s.SetReading(Integer(fr.asInt16(p.buffer)));
            case Int32Type => s.SetReading(Integer(fr.asInt32(p.buffer)));
            case TemperatureType => s.SetReading(Temperature(fr.asTemperature(p.buffer)));
            case _ =>
          }
        case TextSensor =>
          var mapped := s.HasEnumMapping();
          if mapped {
            s.SetValueInt(fr.asInt8(p.buffer));
          } else {
            s.SetText(fr.asText(p.buffer));
          }
        case BinarySensor =>
          match s.cfg.valueType {
            case UInt8Type => s.SetBinary(SL.LowByte(fr.asUInt8(p.buffer)));
            case Int8Type => s.SetBinary(SL.LowByte(fr.asInt8(p.buffer)));
            case Int16Type => s.SetBinary(SL.LowByte(fr.asInt16(p.buffer)));
            case Int32Type => s.SetBinary(SL.LowByte(fr.asInt32(p.buffer)));
            case _ =>
          }
      }
      s.Publish();
    }

    /** An Inf or Ret reaching one number. */
    method DeliverToNumber(n: BsbNumber.Number, p: Packet, now: Time)
      modifies n
      ensures n.State() == NumberDelivered(cfg.framing, p, now, old(n.State()))
    {
      var fr := cfg.framing;
      n.ScheduleNextRegularUpdate(now);
      match n.cfg.valueType {
        case UInt8Type => n.SetValue(Integer(fr.asUInt8(p.buffer)));
        case Int8Type => n.SetValue(Integer(fr.asInt8(p.buffer)));
        case Int16Type => n.SetValue(Integer(fr.asInt16(p.buffer)));
        case Int32Type => n.SetValue(Integer(fr.asInt32(p.buffer)));
        case TemperatureType => n.SetValue(Temperature(fr.asTemperature(p.buffer)));
        case _ =>
      }
    }

    /** An Inf or Ret reaching one select. */
    method DeliverToSelect(s: BsbSelect.Select, p: Packet, now: Time)
      modifies s
      ensures s.State() == SelectDelivered(cfg.framing, p, now, old(s.State()))
    {
      s.ScheduleNextRegularUpdate(now);
      s.SetValue(cfg.framing.asInt8(p.buffer));
      s.Publish();
    }

    /** An Inf or Ret offered to the sensor at position i: taken when it is under the packet's field. */
    method OfferToSensor(i: nat, p: Packet, now: Time)
      requires Valid() && i < |sensors|
      modifies sensors[i]
      ensures var before := old(BsbSensor.StatesOf(sensors));
        BsbSensor.StatesOf(sensors) == before[i := if before[i].cfg.fieldId == p.fieldId then SensorDelivered(cfg.framing, p, now, before[i]) else before[i]]
    {
      if sensors[i].cfg.fieldId == p.fieldId {
        DeliverToSensor(sensors[i], p, now);
      }
      assert forall j :: 0 <= j < |sensors| && j != i ==> sensors[j] != sensors[i];
    }

    /** The sensors under the packet's field, in iteration order. */
    method DeliverToSensors(p: Packet, now: Time)
      requires Valid()
      modifies sensors
      ensures BsbSensor.StatesOf(sensors) == SensorsDelivered(cfg.framing, p, now, old(BsbSensor.StatesOf(sensors)))
    {
      ghost var before := BsbSensor.StatesOf(sensors);
      ghost var want := SensorsDelivered(cfg.framing, p, now, before);
      ghost var cur := before;
      var i := 0;
      while i < |sensors|
        invariant 0 <= i <= |sensors| && BsbSensor.StatesOf(sensors) == cur && |cur| == |before|
        invariant forall j :: 0 <= j < i ==> cur[j] == want[j]
        invariant forall j :: i <= j < |cur| ==> cur[j] == before[j]
      {
        OfferToSensor(i, p, now);
        cur := cur[i := want[i]];
        i := i + 1;
      }
    }

    /** An Inf or Ret offered to the number at position i: taken when it is under the packet's field. */
    method OfferToNumber(i: nat, p: Packet, now: Time)
      requires Valid() && i < |numbers|
      modifies numbers[i]
      ensures var before := old(BsbNumber.StatesOf(numbers));
        BsbNumber.StatesOf(numbers) == before[i := if before[i].cfg.fieldId == p.fieldId then NumberDelivered(cfg.framing, p, now, before[i]) else before[i]]
    {
      if numbers[i].cfg.fieldId == p.fieldId {
        DeliverToNumber(numbers[i], p, now);
      }
      assert forall j :: 0 <= j < |numbers| && j != i ==> numbers[j] != numbers[i];
    }

    /** The numbers under the packet's field, in iteration order. */
    method DeliverToNumbers(p: Packet, now: Time)
      requires Valid()
      modifies numbers
      ensures BsbNumber.StatesOf(numbers) == NumbersDelivered(cfg.framing, p, now, old(BsbNumber.StatesOf(numbers)))
    {
      ghost var before := BsbNumber.StatesOf(numbers);
      ghost var want := NumbersDelivered(cfg.framing, p, now, before);
      ghost var cur := before;
      var i := 0;
      while i < |numbers|
        invariant 0 <= i <= |numbers| && BsbNumber.StatesOf(numbers) == cur && |cur| == |before|
        invariant forall j :: 0 <= j < i ==> cur[j] == want[j]
        invariant forall j :: i <= j < |cur| ==> cur[j] == before[j]
      {
        OfferToNumber(i, p, now);
        cur := cur[i := want[i]];
        i := i + 1;
      }
    }

    /** An Inf or Ret offered to the select at position i: taken when it is under the packet's field. */
    method OfferToSelect(i: nat, p: Packet, now: Time)
      requires Valid() && i < |selects|
      modifies selects[i]
      ensures var before := old(BsbSelect.StatesOf(selects));
        BsbSelect.StatesOf(selects) == before[i := if before[i].cfg.fieldId == p.fieldId then SelectDelivered(cfg.framing, p, now, before[i]) else before[i]]
    {
      if selects[i].cfg.fieldId == p.fieldId {
        DeliverToSelect(selects[i], p, now);
      }
      assert forall j :: 0 <= j < |selects| && j != i ==> selects[j] != selects[i];
    }

    /** The selects under the packet's field, in iteration order. */
    method DeliverToSelects(p: Packet, now: Time)
      requires Valid()
      modifies selects
      ensures BsbSelect.StatesOf(selects) == SelectsDelivered(cfg.framing, p, now, old(BsbSelect.StatesOf(selects)))
    {
      ghost var before := BsbSelect.StatesOf(selects);
      ghost var want := SelectsDelivered(cfg.framing, p, now, before);
      ghost var cur := before;
      var i := 0;
      while i < |selects|
        invariant 0 <= i <= |selects| && BsbSelect.StatesOf(selects) == cur && |cur| == |before|
        invariant forall j :: 0 <= j < i ==> cur[j] == want[j]
        invariant forall j :: i <= j < |cur| ==> cur[j] == before[j]
      {
        OfferToSelect(i, p, now);
        cur := cur[i := want[i]];
        i := i + 1;
      }
    }

    /** An Ack or Nack offered to the number at position i: reset_dirty when it is under the field. */
    method AckNumberAt(i: nat, f: FieldId)
      requires Valid() && i < |numbers|
      modifies numbers[i]
      ensures var before := old(BsbNumber.StatesOf(numbers));
        BsbNumber.StatesOf(numbers) == before[i := if before[i].cfg.fieldId == f then NumberAcked(before[i]) else before[i]]
    {
      if numbers[i].cfg.fieldId == f {
        numbers[i].ResetDirty();
      }
      assert forall j :: 0 <= j < |numbers| && j != i ==> numbers[j] != numbers[i];
    }

    /** An Ack or Nack: reset_dirty on every number under the field. */
    method AckNumbers(f: FieldId)
      requires Valid()
      modifies numbers
      ensures BsbNumber.StatesOf(numbers) == NumbersAcked(f, old(BsbNumber.StatesOf(numbers)))
    {
      ghost var before := BsbNumber.StatesOf(numbers);
      ghost var want := NumbersAcked(f, before);
      ghost var cur := before;
      var i := 0;
      while i < |numbers|
        invariant 0 <= i <= |numbers| && BsbNumber.StatesOf(numbers) == cur && |cur| == |before|
        invariant forall j :: 0 <= j < i ==> cur[j] == want[j]
        invariant forall j :: i <= j < |cur| ==> cur[j] == before[j]
      {
        AckNumberAt(i, f);
        cur := cur[i := want[i]];
        i := i + 1;
      }
    }

    /** An Ack or Nack offered to the select at position i: reset_dirty when it is under the field. */
    method AckSelectAt(i: nat, f: FieldId)
      requires Valid() && i < |selects|
      modifies selects[i]
      ensures var before := old(BsbSelect.StatesOf(selects));
        BsbSelect.StatesOf(selects) == before[i := if before[i].cfg.fieldId == f then SeL.DirtyReset(before[i]) else before[i]]
    {
      if selects[i].cfg.fieldId == f {
        selects[i].ResetDirty();
      }
      assert forall j :: 0 <= j < |selects| && j != i ==> selects[j] != selects[i];
    }

    /** An Ack or Nack: reset_dirty on every select under the field. */
    method AckSelects(f: FieldId)
      requires Valid()
      modifies selects
      ensures BsbSelect.StatesOf(selects) == SelectsAcked(f, old(BsbSelect.StatesOf(selects)))
    {
      ghost var before := BsbSelect.StatesOf(selects);
      ghost var want := SelectsAcked(f, before);
      ghost var cur := before;
      var i := 0;
      while i < |selects|
        invariant 0 <= i <= |selects| && BsbSelect.StatesOf(selects) == cur && |cur| == |before|
        invariant forall j :: 0 <= j < i ==> cur[j] == want[j]
        invariant forall j :: i <= j < |cur| ==> cur[j] == before[j]
      {
        AckSelectAt(i, f);
        cur := cur[i := want[i]];
        i := i + 1;
      }
    }

    /** An Inf or Ret: every sensor, number and select under the packet's field takes the value. */
    method DeliverReply(p: Packet, now: Time)
      requires Valid()
      modifies numbers, selects, sensors
      ensures var e := old(Abstract());
        Abstract() == e.(sensors := SensorsDelivered(cfg.framing, p, now, e.sensors),
                         numbers := NumbersDelivered(cfg.framing, p, now, e.numbers),
                         selects := SelectsDelivered(cfg.framing, p, now, e.selects))
    {
      ghost var e := Abstract();
      ghost var fr := cfg.framing;
      DeliverToSensors(p, now);
      assert BsbNumber.StatesOf(numbers) == e.numbers;
      assert BsbSelect.StatesOf(selects) == e.selects;
      DeliverToNumbers(p, now);
      assert BsbSensor.StatesOf(sensors) == SensorsDelivered(fr, p, now, e.sensors);
      assert BsbSelect.StatesOf(selects) == e.selects;
      DeliverToSelects(p, now);
      assert BsbSensor.StatesOf(sensors) == SensorsDelivered(fr, p, now, e.sensors);
      assert BsbNumber.StatesOf(numbers) == NumbersDelivered(fr, p, now, e.numbers);
    }

    /** An Ack or Nack: every number and select under the field drops its pending write. */
    method AcknowledgeReply(f: FieldId)
      requires Valid()
      modifies numbers, selects
      ensures var e := old(Abstract());
        Abstract() == e.(numbers := NumbersAcked(f, e.numbers), selects := SelectsAcked(f, e.selects))
    {
      ghost var e := Abstract();
      AckNumbers(f);
      assert BsbSensor.StatesOf(sensors) == e.sensors;
      assert BsbSelect.StatesOf(selects) == e.selects;
      AckSelects(f);
      assert BsbSensor.StatesOf(sensors) == e.sensors;
      assert BsbNumber.StatesOf(numbers) == NumbersAcked(f, e.numbers);
    }

    /** callback_packet: the reply dispatcher. */
    method CallbackPacket(p: Packet, now: Time)
      requires Valid()
      modifies numbers, selects, sensors
      ensures Abstract() == Dispatch(old(Abstract()), p, now)
    {
      if p.command == Inf || p.command == Ret {
        DeliverReply(p, now);
      }
      if p.command == Ack || p.command == Nack {
        AcknowledgeReply(p.fieldId);
      }
    }

    // ---- The main loop ----

    /** One byte off the UART: invert it, hand it to the assembler, dispatch a completed packet. */
    method FeedOne(raw: Byte, now: Time)
      requires Valid()
      modifies this`rxBuffer, this`fed, numbers, selects, sensors
      ensures Abstract() == FeedByte(old(Abstract()), raw, now)
    {
      ghost var e0 := Abstract();
      var b := raw ^ 0xFF;
      var a := cfg.framing.assemble(rxBuffer, b);
      rxBuffer := a.buffer;
      fed := fed + [b];
      assert Abstract() == e0.(rxBuffer := a.buffer, fed := e0.fed + [Invert(raw)]);
      if a.packet.Some? {
        CallbackPacket(a.packet.value, now);
      }
    }

    /** The receive half of loop(): every available byte, inverted, to the assembler. */
    method Drain(rx: seq<Byte>, now: Time)
      requires Valid()
      modifies this`rxBuffer, this`fed, numbers, selects, sensors
      ensures Abstract() == Receive(old(Abstract()), rx, now)
    {
      var i := 0;
      while i < |rx|
        invariant 0 <= i <= |rx|
        invariant Abstract() == Receive(old(Abstract()), rx[..i], now)
      {
        FeedOne(rx[i], now);
        assert rx[..i + 1][..i] == rx[..i];
        i := i + 1;
      }
      assert rx[..|rx|] == rx;
    }

    /** The selects loop, then the sensors loop if no select sent. */
    method PollRest(now: Time)
      requires Valid()
      modifies this`written, selects, sensors
      ensures Abstract() == AfterNumbers(old(Abstract()), now)
    {
      var packetSent := PollSelects(now);
      if !packetSent {
        PollSensors(now);
      }
    }

    /** The numbers loop, then the rest if no number sent. */
    method RunScans(now: Time)
      requires Valid()
      modifies this`written, numbers, selects, sensors
      ensures Abstract() == Scans(old(Abstract()), now)
    {
      var packetSent := PollNumbers(now);
      if !packetSent {
        PollRest(now);
      }
    }

    /** The scheduler half of loop(): the gate, then the scans. */
    method Poll(now: Time)
      requires Valid()
      modifies this`lastQuery, this`written, numbers, selects, sensors
      ensures Abstract() == Schedule(old(Abstract()), now)
    {
      ghost var e := Abstract();
      if now > lastQuery {
        ghost var gated := e.(lastQuery := now + cfg.queryInterval);
        assert Schedule(e, now) == Scans(gated, now);
        lastQuery := now + cfg.queryInterval;
        assert Abstract() == gated;
        RunScans(now);
      }
    }

    /** loop(): drain the UART, then run the scheduler. */
    method Loop(rx: seq<Byte>, now: Time)
      requires Valid()
      modifies this`rxBuffer, this`fed, this`lastQuery, this`written, numbers, selects, sensors
      ensures Abstract() == BsbEngine.Loop(old(Abstract()), rx, now)
    {
      Drain(rx, now);
      Poll(now);
    }
  }
}
