/**
 * A select point (BsbSelect) as an object whose methods update its fields
 * in place. Each method's new state is the SelectLogic function of the old one.
 */
module BsbSelect {
  import opened BsbTypes
  import opened SelectLogic

  class Select {
    const cfg: SelectConfig
    var nextUpdate: Time
    var sentSet: nat
    var sentGet: nat
    var dirty: bool
    var valueToSend: Int8
    var valueToOption: map<Int8, string>
    var optionToValue: map<string, Int8>
    /** What publish_state has been handed so far. */
    ghost var published: seq<string>

    ghost function State(): SelectState
      reads this
    {
      SelectState(cfg, nextUpdate, sentSet, sentGet, dirty, valueToSend, valueToOption, optionToValue, published)
    }

    constructor (cfg: SelectConfig)
      ensures State() == Initial(cfg)
    {
      this.cfg := cfg;
      nextUpdate, sentSet, sentGet, dirty, valueToSend := 0, 0, 0, false, 0;
      valueToOption, optionToValue := map[], map[];
      published := [];
    }

    method AddOptionMapping(v: Int8, option: string)
      modifies this
      ensures State() == OptionAdded(old(State()), v, option)
    {
      valueToOption := valueToOption[v := option];
      optionToValue := optionToValue[option := v];
    }

    /** set_value, with the received int8 (the float detour of the source is the identity on int8). */
    method SetValue(v: Int8)
      modifies this
      ensures State() == ValueSet(old(State()), v)
    {
      if v in valueToOption {
        published := published + [valueToOption[v]];
      }
    }

    method Publish()
      modifies this
      ensures State() == Republished(old(State()))
    {
      if |published| > 0 {
        published := published + [published[|published| - 1]];
      }
    }

    method IsReadyToUpdate(timestamp: Time) returns (ready: bool)
      modifies this
      ensures Checked(ready, State()) == SelectLogic.IsReadyToUpdate(old(State()), timestamp)
    {
      if sentGet >= RetryCeiling {
        if timestamp >= nextUpdate + cfg.retryInterval {
          sentGet := 0;
          return true;
        }
      }
      return sentGet < RetryCeiling && timestamp >= nextUpdate;
    }

    method IsReadyToSet(timestamp: Time) returns (ready: bool)
      modifies this
      ensures Checked(ready, State()) == SelectLogic.IsReadyToSet(old(State()), timestamp)
    {
      if sentSet >= RetryCeiling {
        if timestamp >= nextUpdate + cfg.retryInterval {
          sentSet := 0;
          return true;
        }
      }
      return sentSet < RetryCeiling && dirty;
    }

    method ScheduleNextRegularUpdate(timestamp: Time)
      modifies this
      ensures State() == ScheduledRegular(old(State()), timestamp)
    {
      sentGet := 0;
      nextUpdate := timestamp + cfg.updateInterval;
    }

    method ScheduleNextUpdate(timestamp: Time, interval: Time)
      modifies this
      ensures State() == Scheduled(old(State()), timestamp, interval)
    {
      sentGet := 0;
      nextUpdate := timestamp + interval;
    }

    method ResetDirty()
      modifies this
      ensures State() == DirtyReset(old(State()))
    {
      sentSet := 0;
      dirty := false;
    }

    method CreatePackageSet(fr: Framing, source: Byte, destination: Byte) returns (p: Packet)
      modifies this
      ensures Made(p, State()) == SetRequest(old(State()), fr, source, destination)
    {
      sentSet := sentSet + 1;
      p := SetInt8Packet(fr, source, destination, cfg.fieldId, valueToSend, cfg.enableByte);
    }

    method CreatePackageGet(fr: Framing, source: Byte, destination: Byte) returns (p: Packet)
      modifies this
      ensures Made(p, State()) == GetRequest(old(State()), fr, source, destination)
    {
      sentGet := sentGet + 1;
      p := GetPacket(fr, source, destination, cfg.fieldId);
    }

    /** control: the write intent from the presentation layer. */
    method Control(option: string)
      modifies this
      ensures State() == Controlled(old(State()), option)
    {
      if option in optionToValue {
        valueToSend := optionToValue[option];
        dirty := true;
        published := published + [option];
      }
    }
  }

  /** The states of a registry's points, in iteration order. */
  ghost function StatesOf(ss: seq<Select>): (r: seq<SelectState>)
    reads ss
    ensures |r| == |ss| && forall i {:trigger r[i]} :: 0 <= i < |ss| ==> r[i] == ss[i].State()
  {
    seq(|ss|, i requires 0 <= i < |ss| reads ss => ss[i].State())
  }
}
