/**
 * A read-only point (BsbSensorBase with its numeric, text and binary kinds)
 * as an object whose methods update its fields in place. Each method's new
 * state is the SensorLogic function of the old one.
 */
module BsbSensor {
  import opened BsbTypes
  import opened SensorLogic

  class Sensor {
    const cfg: SensorConfig
    var nextUpdate: Time
    var retryStart: Time
    var sentGet: nat
    var loggedExhaustion: bool
    var value: SensorValue
    var options: map<Int8, string>
    /** What publish_state has been handed so far. */
    ghost var published: seq<SensorValue>

    ghost function State(): SensorState
      reads this
    {
      SensorState(cfg, nextUpdate, retryStart, sentGet, loggedExhaustion, value, options, published)
    }

    constructor (cfg: SensorConfig)
      ensures State() == Initial(cfg)
    {
      this.cfg := cfg;
      nextUpdate, retryStart, sentGet, loggedExhaustion := 0, 0, 0, false;
      value := if cfg.kind == TextSensor then Text("") else Unset;
      options := map[];
      published := [];
    }

    method IsReady(timestamp: Time) returns (ready: bool)
      modifies this
      ensures Checked(ready, State()) == SensorLogic.IsReady(old(State()), timestamp)
    {
      if sentGet >= RetryCeiling {
        if !loggedExhaustion {
          loggedExhaustion := true;
          retryStart := timestamp;
        }
        if timestamp >= retryStart + cfg.retryInterval {
          sentGet := 0;
          loggedExhaustion := false;
          return true;
        }
        return false;
      }
      return timestamp >= nextUpdate;
    }

    method ScheduleNextRegularUpdate(timestamp: Time)
      modifies this
      ensures State() == ScheduledRegular(old(State()), timestamp)
    {
      sentGet := 0;
      loggedExhaustion := false;
      nextUpdate := timestamp + cfg.updateInterval;
    }

    method CreatePackageGet(fr: Framing, source: Byte, destination: Byte) returns (p: Packet)
      modifies this
      ensures Made(p, State()) == GetRequest(old(State()), fr, source, destination)
    {
      sentGet := sentGet + 1;
      p := GetPacket(fr, source, destination, cfg.fieldId);
    }

    /** BsbSensor::set_value, before the factor/divisor scaling. */
    method SetReading(r: Reading)
      requires cfg.kind == NumericSensor
      modifies this
      ensures State() == old(State()).(value := Numeric(r))
    {
      value := Numeric(r);
    }

    /** BsbTextSensor::set_value. */
    method SetText(text: string)
      requires cfg.kind == TextSensor
      modifies this
      ensures State() == old(State()).(value := Text(text))
    {
      value := Text(text);
    }

    /** BsbTextSensor::set_value_int. */
    method SetValueInt(v: Int8)
      requires cfg.kind == TextSensor
      modifies this
      ensures State() == old(State()).(value := Text(TextOf(old(options), v)))
    {
      if v in options {
        value := Text(options[v]);
      } else {
        value := Text(Decimal.DecimalString(v));
      }
    }

    /** BsbTextSensor::add_option_mapping. */
    method AddOptionMapping(v: Int8, option: string)
      requires cfg.kind == TextSensor
      modifies this
      ensures State() == OptionAdded(old(State()), v, option)
    {
      options := options[v := option];
    }

    /** BsbTextSensor::has_enum_mapping. */
    method HasEnumMapping() returns (b: bool)
      ensures b == SensorLogic.HasEnumMapping(State())
    {
      b := |options| > 0;
    }

    /** BsbBinarySensor::set_value. */
    method SetBinary(raw: Byte)
      requires cfg.kind == BinarySensor
      modifies this
      ensures State() == old(State()).(value := Binary(BinaryOf(cfg.offValue, raw)))
    {
      value := Binary(raw != cfg.offValue);
    }

    method Publish()
      modifies this
      ensures State() == Published(old(State()))
    {
      published := published + [value];
    }
  }

  /** The states of a registry's points, in iteration order. */
  ghost function StatesOf(ss: seq<Sensor>): (r: seq<SensorState>)
    reads ss
    ensures |r| == |ss| && forall i {:trigger r[i]} :: 0 <= i < |ss| ==> r[i] == ss[i].State()
  {
    seq(|ss|, i requires 0 <= i < |ss| reads ss => ss[i].State())
  }
}
