/**
 * The bounds the retry counters keep because a request is only built after
 * the matching ready check said yes: a sensor never counts more than five
 * get attempts, and a select never more than five of either kind, with a
 * set attempt counted only while a write is pending. Each bound holds of a
 * new point and is kept by every step of the engine.
 */
module RetryBounds {
  import opened BsbTypes
  import opened Scan
  import opened Registry
  import SL = SensorLogic
  import SeL = SelectLogic
  import opened BsbNumber
  import opened BsbEngine

  predicate SensorBounded(s: SL.SensorState) {
    s.sentGet <= SL.RetryCeiling
  }

  predicate SelectBounded(s: SeL.SelectState) {
    s.sentGet <= SeL.RetryCeiling && s.sentSet <= SeL.RetryCeiling && (s.sentSet > 0 ==> s.dirty)
  }

  /** Every registered sensor and select keeps its bound. */
  ghost predicate Bounded(e: EngineState) {
    && (forall i :: 0 <= i < |e.sensors| ==> SensorBounded(e.sensors[i]))
    && (forall i :: 0 <= i < |e.selects| ==> SelectBounded(e.selects[i]))
  }

  // ---- One point ----

  lemma InitialPointsBounded(sc: SL.SensorConfig, lc: SeL.SelectConfig)
    ensures SensorBounded(SL.Initial(sc)) && SelectBounded(SeL.Initial(lc))
  {
  }

  /**
   * A sensor's check keeps the bound, and so does the Get it builds when
   * the check said yes: below the ceiling there is room for one more
   * attempt, at the ceiling the check has just reset the counter.
   */
  lemma SensorStepBounded(cfg: EngineConfig, t: Time, s: SL.SensorState)
    requires SensorBounded(s)
    ensures var c := SensorCheck(s, t);
      SensorBounded(c.next) && (c.pick.Some? ==> SensorBounded(SensorAct(cfg, c.next).next))
  {
    var c := SL.IsReady(s, t);
    if c.ready {
      assert c.next.sentGet < SL.RetryCeiling;
    }
  }

  /**
   * A select's checks keep its bounds, and so does the request it builds
   * when a check said yes. A Set attempt is only counted when the set check
   * saw a pending write below the ceiling, or reset the set counter at it.
   */
  lemma SelectStepBounded(cfg: EngineConfig, t: Time, s: SeL.SelectState)
    requires SelectBounded(s)
    ensures var c := SelectCheck(s, t);
      SelectBounded(c.next) && (c.pick.Some? ==> SelectBounded(SelectAct(cfg, t, c.next, c.pick.value).next))
  {
    var c := SeL.IsReadyToSet(s, t);
    if c.ready {
      assert c.next.sentSet < SeL.RetryCeiling && c.next.dirty;
    } else {
      var u := SeL.IsReadyToUpdate(c.next, t);
      if u.ready {
        assert u.next.sentGet < SeL.RetryCeiling;
      }
    }
  }

  /** Without the check a sixth Get would be counted: the bound rests on the check guarding the request. */
  lemma SensorRequestNeedsCheck(s: SL.SensorState, fr: Framing, source: Byte, destination: Byte)
    requires s.sentGet == SL.RetryCeiling
    ensures !SensorBounded(SL.GetRequest(s, fr, source, destination).next)
  {
  }

  /** An Inf or Ret restarts a sensor's attempts; an option mapping leaves them alone. */
  lemma SensorUpdatesBounded(fr: Framing, p: Packet, t: Time, s: SL.SensorState, v: Int8, o: string)
    ensures SensorBounded(SensorDelivered(fr, p, t, s))
    ensures SensorBounded(s) ==> SensorBounded(SL.OptionAdded(s, v, o))
  {
  }

  /** An Inf or Ret, an Ack or Nack, a control call and an option mapping keep a select's bounds. */
  lemma SelectUpdatesBounded(fr: Framing, p: Packet, t: Time, s: SeL.SelectState, v: Int8, o: string)
    requires SelectBounded(s)
    ensures SelectBounded(SelectDelivered(fr, p, t, s))
    ensures SelectBounded(SeL.DirtyReset(s))
    ensures SelectBounded(SeL.Controlled(s, o)) && SelectBounded(SeL.OptionAdded(s, v, o))
  {
  }

  // ---- The engine ----

  lemma InitialBounded(cfg: EngineConfig)
    ensures Bounded(Initial(cfg))
  {
  }

  /** Registering a point that keeps its bound keeps the engine's bounds. */
  lemma RegisterBounded(e: EngineState, slot: nat, s: SL.SensorState, l: SeL.SelectState, n: NumberState)
    requires Bounded(e) && SensorBounded(s) && SelectBounded(l)
    ensures slot <= |e.sensors| ==> Bounded(e.(sensors := Insert(e.sensors, slot, s)))
    ensures slot <= |e.selects| ==> Bounded(e.(selects := Insert(e.selects, slot, l)))
    ensures slot <= |e.numbers| ==> Bounded(e.(numbers := Insert(e.numbers, slot, n)))
  {
    if slot <= |e.sensors| {
      var r := Insert(e.sensors, slot, s);
      forall i | 0 <= i < |r|
        ensures SensorBounded(r[i])
      {
        if i < slot {
          assert r[i] == r[..slot][i] == e.sensors[i];
        } else if i > slot {
          assert r[i] == r[slot + 1..][i - slot - 1] == e.sensors[i - 1];
        }
      }
    }
    if slot <= |e.selects| {
      var r := Insert(e.selects, slot, l);
      forall i | 0 <= i < |r|
        ensures SelectBounded(r[i])
      {
        if i < slot {
          assert r[i] == r[..slot][i] == e.selects[i];
        } else if i > slot {
          assert r[i] == r[slot + 1..][i - slot - 1] == e.selects[i - 1];
        }
      }
    }
  }

  lemma SensorsPolledBounded(e: EngineState, t: Time)
    requires Bounded(e)
    ensures Bounded(SensorsPolled(e, t))
  {
    var check, act := SensorChecks(t), SensorActs(e.cfg);
    var rel := (a: SL.SensorState, b: SL.SensorState) => SensorBounded(a) ==> SensorBounded(b);
    forall s: SL.SensorState
      ensures rel(s, check(s).next)
      ensures check(s).pick.Some? ==> rel(s, act(check(s).next, check(s).pick.value).next)
    {
      if SensorBounded(s) {
        SensorStepBounded(e.cfg, t, s);
      }
    }
    SettleRelates(e.sensors, check, act, rel);
  }

  lemma SelectsPolledBounded(e: EngineState, t: Time)
    requires Bounded(e)
    ensures Bounded(SelectsPolled(e, t).state)
  {
    var check, act := SelectChecks(t), SelectActs(e.cfg, t);
    var rel := (a: SeL.SelectState, b: SeL.SelectState) => SelectBounded(a) ==> SelectBounded(b);
    forall s: SeL.SelectState
      ensures rel(s, check(s).next)
      ensures check(s).pick.Some? ==> rel(s, act(check(s).next, check(s).pick.value).next)
    {
      if SelectBounded(s) {
        SelectStepBounded(e.cfg, t, s);
      }
    }
    SettleRelates(e.selects, check, act, rel);
  }

  /** A tick keeps every bound. */
  lemma ScheduleBounded(e: EngineState, t: Time)
    requires Bounded(e)
    ensures Bounded(Schedule(e, t))
  {
    if t > e.lastQuery {
      var n := NumbersPolled(e.(lastQuery := t + e.cfg.queryInterval), t);
      assert Bounded(n.state);
      if !n.sent {
        SelectsPolledBounded(n.state, t);
        var s := SelectsPolled(n.state, t);
        if !s.sent {
          SensorsPolledBounded(s.state, t);
        }
      }
    }
  }

  /** A reply keeps every bound. */
  lemma DispatchBounded(e: EngineState, p: Packet, t: Time)
    requires Bounded(e)
    ensures Bounded(Dispatch(e, p, t))
  {
    var fr := e.cfg.framing;
    forall s: SL.SensorState
      ensures SensorBounded(SensorDelivered(fr, p, t, s))
    {
      SensorUpdatesBounded(fr, p, t, s, 0, []);
    }
    forall s: SeL.SelectState | SelectBounded(s)
      ensures SelectBounded(SelectDelivered(fr, p, t, s)) && SelectBounded(SeL.DirtyReset(s))
    {
      SelectUpdatesBounded(fr, p, t, s, 0, []);
    }
  }

  /** The receive half of a call to loop() keeps every bound, one byte at a time. */
  lemma {:induction false} ReceiveBounded(e: EngineState, rx: seq<Byte>, t: Time)
    requires Bounded(e)
    ensures Bounded(Receive(e, rx, t))
    decreases |rx|
  {
    if |rx| > 0 {
      var before := Receive(e, rx[..|rx| - 1], t);
      ReceiveBounded(e, rx[..|rx| - 1], t);
      var a := before.cfg.framing.assemble(before.rxBuffer, Wire.Invert(rx[|rx| - 1]));
      if a.packet.Some? {
        DispatchBounded(before.(rxBuffer := a.buffer, fed := before.fed + [Wire.Invert(rx[|rx| - 1])]), a.packet.value, t);
      }
    }
  }

  /** Every call to loop() keeps every bound: no sensor or select ever counts more than five attempts. */
  lemma LoopBounded(e: EngineState, rx: seq<Byte>, t: Time)
    requires Bounded(e)
    ensures Bounded(BsbEngine.Loop(e, rx, t))
  {
    ReceiveBounded(e, rx, t);
    ScheduleBounded(Receive(e, rx, t), t);
  }

  /** A control call on a registered select keeps every bound. */
  lemma ControlBounded(e: EngineState, i: nat, o: string)
    requires Bounded(e) && i < |e.selects|
    ensures Bounded(e.(selects := e.selects[i := SeL.Controlled(e.selects[i], o)]))
  {
    SelectUpdatesBounded(e.cfg.framing, Packet(Inf, 0, []), 0, e.selects[i], 0, o);
  }
}
