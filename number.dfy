/**
 * A writable number point (BsbNumberBase). Its class is not part of this
 * model, so a number is seen only through the interface the component
 * calls: each operation is a function over the number's private fields,
 * supplied with the number and not looked into here.
 */
module BsbNumber {
  import opened BsbTypes

  /** The private fields of a number, in a form no operation here inspects. */
  type NumberFields = seq<int>

  /** The behaviour of the number's member functions that the component calls. */
  datatype NumberOps = NumberOps(
    readyToSet: (NumberFields, Time) -> Checked<NumberFields>,
    readyToUpdate: (NumberFields, Time) -> Checked<NumberFields>,
    resetDirty: NumberFields -> NumberFields,
    scheduleNextUpdate: (NumberFields, Time, Time) -> NumberFields,
    scheduleNextRegularUpdate: (NumberFields, Time) -> NumberFields,
    packageSet: (NumberFields, Byte, Byte) -> Made<NumberFields>,
    packageGet: (NumberFields, Byte, Byte) -> Made<NumberFields>,
    setValue: (NumberFields, Reading) -> NumberFields)

  /** What the component reads of a number: its field, whether it is a broadcast write, its value type. */
  datatype NumberConfig = NumberConfig(fieldId: FieldId, broadcast: bool, valueType: ValueType)

  /** A number's state: its configuration, behaviour, private fields and how often it has published. */
  datatype NumberState = NumberState(cfg: NumberConfig, ops: NumberOps, fields: NumberFields, publishes: nat)

  class Number {
    const cfg: NumberConfig
    const ops: NumberOps
    var fields: NumberFields
    /** How many times publish has been called. */
    ghost var publishes: nat

    ghost function State(): NumberState
      reads this
    {
      NumberState(cfg, ops, fields, publishes)
    }

    constructor (cfg: NumberConfig, ops: NumberOps, fields: NumberFields)
      ensures State() == NumberState(cfg, ops, fields, 0)
    {
      this.cfg, this.ops, this.fields := cfg, ops, fields;
      publishes := 0;
    }

    method IsReadyToSet(timestamp: Time) returns (ready: bool)
      modifies this
      ensures Checked(ready, fields) == ops.readyToSet(old(fields), timestamp)
      ensures publishes == old(publishes)
    {
      var c := ops.readyToSet(fields, timestamp);
      ready, fields := c.ready, c.next;
    }

    method IsReadyToUpdate(timestamp: Time) returns (ready: bool)
      modifies this
      ensures Checked(ready, fields) == ops.readyToUpdate(old(fields), timestamp)
      ensures publishes == old(publishes)
    {
      var c := ops.readyToUpdate(fields, timestamp);
      ready, fields := c.ready, c.next;
    }

    method GetBroadcast() returns (b: bool)
      ensures b == cfg.broadcast
    {
      b := cfg.broadcast;
    }

    method ResetDirty()
      modifies this
      ensures State() == old(State()).(fields := ops.resetDirty(old(fields)))
    {
      fields := ops.resetDirty(fields);
    }

    method ScheduleNextUpdate(timestamp: Time, interval: Time)
      modifies this
      ensures State() == old(State()).(fields := ops.scheduleNextUpdate(old(fields), timestamp, interval))
    {
      fields := ops.scheduleNextUpdate(fields, timestamp, interval);
    }

    method ScheduleNextRegularUpdate(timestamp: Time)
      modifies this
      ensures State() == old(State()).(fields := ops.scheduleNextRegularUpdate(old(fields), timestamp))
    {
      fields := ops.scheduleNextRegularUpdate(fields, timestamp);
    }

    method CreatePackageSet(source: Byte, destination: Byte) returns (p: Packet)
      modifies this
      ensures Made(p, fields) == ops.packageSet(old(fields), source, destination)
      ensures publishes == old(publishes)
    {
      var m := ops.packageSet(fields, source, destination);
      p, fields := m.packet, m.next;
    }

    method CreatePackageGet(source: Byte, destination: Byte) returns (p: Packet)
      modifies this
      ensures Made(p, fields) == ops.packageGet(old(fields), source, destination)
      ensures publishes == old(publishes)
    {
      var m := ops.packageGet(fields, source, destination);
      p, fields := m.packet, m.next;
    }

    method SetValue(r: Reading)
      modifies this
      ensures State() == old(State()).(fields := ops.setValue(old(fields), r))
    {
      fields := ops.setValue(fields, r);
    }

    method Publish()
      modifies this
      ensures State() == old(State()).(publishes := old(publishes) + 1)
    {
      publishes := publishes + 1;
    }
  }

  /** The states of a registry's points, in iteration order. */
  ghost function StatesOf(ns: seq<Number>): (r: seq<NumberState>)
    reads ns
    ensures |r| == |ns| && forall i {:trigger r[i]} :: 0 <= i < |ns| ==> r[i] == ns[i].State()
  {
    seq(|ns|, i requires 0 <= i < |ns| reads ns => ns[i].State())
  }
}
