/**
  What the suitcase firmware promises, proved about the state machine of
  `SuitcaseSpec`. A `Suitcase.Firmware` object keeps `Valid()`: its fields and
  trace are `Run(INITIAL, history)`. So the run-level results below hold for
  it, with `history` as the events.
 */
module SuitcaseProperties {

  import opened Clock
  import opened SuitcaseSpec
  import StatusMessage
  import Decimal

  // ---------------------------------------------------------------------
  // Helpers over effect sequences

  lemma {:induction false} NotificationsAppend(a: seq<Effect>, b: seq<Effect>)
    ensures Notifications(a + b) == Notifications(a) + Notifications(b)
    decreases |a|
  {
    if a != [] {
      assert (a + b)[0] == a[0] && (a + b)[1..] == a[1..] + b;
      NotificationsAppend(a[1..], b);
    } else {
      assert a + b == b;
    }
  }

  lemma {:induction false} TotalDelayAppend(a: seq<Effect>, b: seq<Effect>)
    ensures TotalDelay(a + b) == TotalDelay(a) + TotalDelay(b)
    decreases |a|
  {
    if a != [] {
      assert (a + b)[0] == a[0] && (a + b)[1..] == a[1..] + b;
      TotalDelayAppend(a[1..], b);
    } else {
      assert a + b == b;
    }
  }

  lemma {:induction false} CountAppend<T>(a: seq<T>, b: seq<T>, x: T)
    ensures Count(a + b, x) == Count(a, x) + Count(b, x)
    decreases |a|
  {
    if a != [] {
      assert (a + b)[0] == a[0] && (a + b)[1..] == a[1..] + b;
      CountAppend(a[1..], b, x);
    } else {
      assert a + b == b;
    }
  }

  /** Only `Notify` effects carry text. */
  lemma NoNotifications(effects: seq<Effect>)
    requires forall i :: 0 <= i < |effects| ==> !effects[i].Notify?
    ensures Notifications(effects) == []
    decreases |effects|
  {
    if effects != [] {
      NoNotifications(effects[1..]);
    }
  }

  /** Running one more event continues from where the run stopped. */
  lemma RunSnoc(s: State, evs: seq<Event>, e: Event)
    ensures Run(s, evs + [e]).state == Apply(Run(s, evs).state, e).state
    ensures Run(s, evs + [e]).effects == Run(s, evs).effects + Apply(Run(s, evs).state, e).effects
  {
    assert (evs + [e])[..|evs|] == evs;
  }

  // ---------------------------------------------------------------------
  // Violation latch

  /** Light seen while safe latches the violation at the detection time. */
  lemma LightLatches(s: State, sample: int, t1: U32, t2: U32)
    requires !s.violated && LightPresent(sample)
    ensures LoopStep(s, sample, t1, t2).state.violated
    ensures LoopStep(s, sample, t1, t2).state.violatedAt == t1
  {
  }

  /** After a loop pass the violation is latched exactly when it was before
      or the sample showed light, and a recorded time changes only on the
      false-to-true edge. */
  lemma LoopLatch(s: State, sample: int, t1: U32, t2: U32)
    ensures LoopStep(s, sample, t1, t2).state.violated <==> s.violated || LightPresent(sample)
    ensures s.violated ==> LoopStep(s, sample, t1, t2).state.violatedAt == s.violatedAt
    ensures !s.violated && !LightPresent(sample) ==> LoopStep(s, sample, t1, t2).state.violatedAt == s.violatedAt
  {
  }

  /** No event but the "RESET" write clears the latch or moves its time, and
      only a loop pass that sees light sets it. */
  lemma OnlyResetClears(s: State, e: Event)
    requires e != CommandWritten(RESET_COMMAND)
    ensures s.violated ==> Apply(s, e).state.violated && Apply(s, e).state.violatedAt == s.violatedAt
    ensures !s.violated && Apply(s, e).state.violated ==>
              e.LoopPass? && LightPresent(e.sample) && Apply(s, e).state.violatedAt == e.detectTime
    ensures !s.violated && !Apply(s, e).state.violated ==> Apply(s, e).state.violatedAt == s.violatedAt
  {
    if e.CommandWritten? {
      assert e.payload != RESET_COMMAND;
    }
  }

  /** Over any run without a "RESET" write, a latched violation stays latched
      with the same time. */
  lemma {:induction false} NoResetKeepsLatch(s: State, evs: seq<Event>)
    requires NoReset(evs) && s.violated
    ensures Run(s, evs).state.violated
    ensures Run(s, evs).state.violatedAt == s.violatedAt
    decreases |evs|
  {
    if evs != [] {
      var init := evs[..|evs| - 1];
      assert NoReset(init) by {
        forall i | 0 <= i < |init| ensures init[i] != CommandWritten(RESET_COMMAND) {
          assert init[i] == evs[i];
        }
      }
      NoResetKeepsLatch(s, init);
      OnlyResetClears(Run(s, init).state, evs[|evs| - 1]);
    }
  }

  /** Along a run without a "RESET" write, `violated` never goes from true to
      false: once latched at some point, it is latched, with the same time, at
      every later point. */
  lemma NoResetMonotone(s: State, evs: seq<Event>, i: nat, j: nat)
    requires NoReset(evs) && i <= j <= |evs|
    requires Run(s, evs[..i]).state.violated
    ensures Run(s, evs[..j]).state.violated
    ensures Run(s, evs[..j]).state.violatedAt == Run(s, evs[..i]).state.violatedAt
  {
    var mid := Run(s, evs[..i]).state;
    var rest := evs[i..j];
    assert NoReset(rest) by {
      forall k | 0 <= k < |rest| ensures rest[k] != CommandWritten(RESET_COMMAND) {
        assert rest[k] == evs[i + k];
      }
    }
    RunSplit(s, evs[..i], rest);
    assert evs[..i] + rest == evs[..j];
    NoResetKeepsLatch(mid, rest);
  }

  /** A run of `a + b` is a run of `a` followed by a run of `b`. */
  lemma {:induction false} RunSplit(s: State, a: seq<Event>, b: seq<Event>)
    ensures Run(s, a + b).state == Run(Run(s, a).state, b).state
    ensures Run(s, a + b).effects == Run(s, a).effects + Run(Run(s, a).state, b).effects
    decreases |b|
  {
    if b == [] {
      assert a + b == a;
    } else {
      var b0 := b[..|b| - 1];
      var e := b[|b| - 1];
      assert a + b == (a + b0) + [e];
      assert b == b0 + [e];
      RunSplit(s, a, b0);
      RunSnoc(s, a + b0, e);
      RunSnoc(Run(s, a).state, b0, e);
    }
  }

  // ---------------------------------------------------------------------
  // The invariant: no time without a violation

  lemma InvInitial()
    ensures Inv(INITIAL)
  {
  }

  lemma InvPreserved(s: State, e: Event)
    requires Inv(s)
    ensures Inv(Apply(s, e).state)
  {
  }

  lemma {:induction false} RunPreservesInv(s: State, evs: seq<Event>)
    requires Inv(s)
    ensures Inv(Run(s, evs).state)
    decreases |evs|
  {
    if evs != [] {
      RunPreservesInv(s, evs[..|evs| - 1]);
      InvPreserved(Run(s, evs[..|evs| - 1]).state, evs[|evs| - 1]);
    }
  }

  // ---------------------------------------------------------------------
  // Command interpreter

  /** "RESET" makes the alarm safe with time 0 and touches nothing else;
      sending it again changes nothing more. */
  lemma ResetClears(s: State)
    ensures OnWrite(s, RESET_COMMAND) == State(false, 0, s.connected, s.oldConnected)
    ensures OnWrite(OnWrite(s, RESET_COMMAND), RESET_COMMAND) == OnWrite(s, RESET_COMMAND)
  {
  }

  /** A "RESET" while already safe is a no-op in every reachable state. */
  lemma ResetWhenSafe(s: State)
    requires Inv(s) && !s.violated
    ensures OnWrite(s, RESET_COMMAND) == s
  {
  }

  /** An empty payload, or any payload other than exactly "RESET", is ignored. */
  lemma OtherCommandsIgnored(s: State, payload: string)
    requires payload != RESET_COMMAND
    ensures OnWrite(s, payload) == s
  {
  }

  // ---------------------------------------------------------------------
  // Status reporter

  /** A loop pass notifies exactly once while connected and never otherwise;
      the text is "S" when safe and "V:" followed by the decimal of the
      32-bit elapsed time when violated. */
  lemma LoopNotification(s: State, sample: int, t1: U32, t2: U32)
    ensures var d := Detect(s, sample, t1);
      Notifications(LoopStep(s, sample, t1, t2).effects) ==
        if !s.connected then []
        else if d.violated then [StatusMessage.VIOLATED_PREFIX + Decimal.Format(Elapsed(t2, d.violatedAt))]
        else [StatusMessage.SAFE_TOKEN]
  {
    var d := Detect(s, sample, t1);
    NotificationsAppend(Report(d, t2), Reconnect(d).effects);
    NoNotifications(Reconnect(d).effects);
    var r := Report(d, t2);
    if s.connected {
      assert r[1..] == [Delay(REPORT_INTERVAL)] && r[1..][1..] == [];
    } else {
      assert r[1..] == [];
    }
  }

  /** What a peer decodes from the notification is the status at the report
      time: for a violation, the elapsed time wraps modulo 2^32 onto the
      report time. */
  lemma NotificationDecodes(s: State, sample: int, t1: U32, t2: U32)
    requires s.connected
    ensures var d := Detect(s, sample, t1);
      var n := Notifications(LoopStep(s, sample, t1, t2).effects);
      |n| == 1 && StatusMessage.Decode(n[0]).Some? &&
      (StatusMessage.Decode(n[0]).value.Safe? <==> !d.violated) &&
      (StatusMessage.Decode(n[0]).value.Violated? ==>
         (d.violatedAt + StatusMessage.Decode(n[0]).value.elapsed) % MODULUS == t2)
  {
    var d := Detect(s, sample, t1);
    LoopNotification(s, sample, t1, t2);
    StatusMessage.DecodeEncode(CurrentStatus(d, t2));
  }

  /** Callbacks never notify. */
  lemma CallbacksDoNotNotify(s: State, e: Event)
    requires !e.LoopPass?
    ensures Notifications(Apply(s, e).effects) == []
  {
  }

  /** The pause of a loop pass: 500 ms after a report, 100 ms idle, plus the
      500 ms settle pause when the pass sees a fresh disconnection; that pause
      comes after the idle one and before advertising is restarted. */
  lemma LoopDelay(s: State, sample: int, t1: U32, t2: U32)
    ensures TotalDelay(LoopStep(s, sample, t1, t2).effects) ==
      (if s.connected then REPORT_INTERVAL else IDLE_INTERVAL) +
      (if !s.connected && s.oldConnected then SETTLE_DELAY else 0)
    ensures LoopStep(s, sample, t1, t2).effects[if s.connected then 1 else 0] ==
      Delay(if s.connected then 500 else 100)
    ensures s.connected ==>
      |LoopStep(s, sample, t1, t2).effects| == 2 && LoopStep(s, sample, t1, t2).effects[0].Notify?
    ensures !s.connected ==>
      LoopStep(s, sample, t1, t2).effects ==
      [Delay(IDLE_INTERVAL)] + (if s.oldConnected then [Delay(SETTLE_DELAY), StartAdvertising(LoopReconnect)] else [])
  {
    var d := Detect(s, sample, t1);
    TotalDelayAppend(Report(d, t2), Reconnect(d).effects);
    var r := Report(d, t2);
    if s.connected {
      assert r[1..] == [Delay(REPORT_INTERVAL)] && r[1..][1..] == [];
    } else {
      assert r[1..] == [];
    }
    var c := Reconnect(d).effects;
    if c != [] {
      assert c[1..] == [StartAdvertising(LoopReconnect)] && c[1..][1..] == [];
    }
  }

  // ---------------------------------------------------------------------
  // Link edge tracker

  /** A loop pass syncs `oldConnected` to the connection level, restarts
      advertising itself exactly when it begins just after a disconnection,
      and never changes the connection level. */
  lemma LoopEdge(s: State, sample: int, t1: U32, t2: U32)
    ensures LoopStep(s, sample, t1, t2).state.oldConnected == s.connected
    ensures LoopStep(s, sample, t1, t2).state.connected == s.connected
    ensures Restarts(LoopStep(s, sample, t1, t2).effects, LoopReconnect) ==
      (if !s.connected && s.oldConnected then 1 else 0)
    ensures Restarts(LoopStep(s, sample, t1, t2).effects, DisconnectCallback) == 0
  {
    var d := Detect(s, sample, t1);
    var r, c := Report(d, t2), Reconnect(d).effects;
    CountAppend(r, c, StartAdvertising(LoopReconnect));
    CountAppend(r, c, StartAdvertising(DisconnectCallback));
    if s.connected {
      assert r[1..] == [Delay(REPORT_INTERVAL)] && r[1..][1..] == [];
    } else {
      assert r[1..] == [];
    }
    if c != [] {
      assert c[1..] == [StartAdvertising(LoopReconnect)] && c[1..][1..] == [];
    }
  }

  /** The callbacks set the level and leave everything else alone; the
      disconnect callback always restarts advertising. */
  lemma CallbacksSetLevel(s: State)
    ensures OnConnect(s) == s.(connected := true)
    ensures OnDisconnect(s).state == s.(connected := false)
    ensures Restarts(OnDisconnect(s).effects, DisconnectCallback) == 1
    ensures Restarts(OnDisconnect(s).effects, LoopReconnect) == 0
  {
  }

  /** A disconnection not yet seen by a loop pass. */
  function Pending(s: State): nat {
    if s.oldConnected && !s.connected then 1 else 0
  }

  /** Each event's own advertising restarts. */
  lemma ApplyRestarts(s: State, e: Event)
    ensures Restarts(Apply(s, e).effects, DisconnectCallback) == if e == Disconnected then 1 else 0
    ensures Restarts(Apply(s, e).effects, LoopReconnect) ==
      if e.LoopPass? && !s.connected && s.oldConnected then 1 else 0
  {
    if e.LoopPass? {
      LoopEdge(s, e.sample, e.detectTime, e.reportTime);
    } else if e.Disconnected? {
      CallbacksSetLevel(s);
    }
  }

  /** Restarts of a run with one more event. */
  lemma RunSnocRestarts(s: State, evs: seq<Event>, e: Event, o: Origin)
    ensures Restarts(Run(s, evs + [e]).effects, o) ==
      Restarts(Run(s, evs).effects, o) + Restarts(Apply(Run(s, evs).state, e).effects, o)
  {
    RunSnoc(s, evs, e);
    CountAppend(Run(s, evs).effects, Apply(Run(s, evs).state, e).effects, StartAdvertising(o));
  }

  /** The disconnect callback restarts advertising once per disconnection. */
  lemma {:induction false} CallbackRestartsPerDisconnect(s: State, evs: seq<Event>)
    ensures Restarts(Run(s, evs).effects, DisconnectCallback) == Count(evs, Disconnected)
    decreases |evs|
  {
    if evs != [] {
      var init, e := evs[..|evs| - 1], evs[|evs| - 1];
      assert evs == init + [e];
      CallbackRestartsPerDisconnect(s, init);
      RunSnocRestarts(s, init, e, DisconnectCallback);
      ApplyRestarts(Run(s, init).state, e);
      CountAppend(init, [e], Disconnected);
    }
  }

  /** The loop restarts advertising at most once per disconnection: every
      loop restart uses up a pending disconnection, and only the disconnect
      callback creates one. */
  lemma {:induction false} LoopRestartsBounded(s: State, evs: seq<Event>)
    ensures Restarts(Run(s, evs).effects, LoopReconnect) + Pending(Run(s, evs).state) <=
      Count(evs, Disconnected) + Pending(s)
    decreases |evs|
  {
    if evs != [] {
      var init, e := evs[..|evs| - 1], evs[|evs| - 1];
      assert evs == init + [e];
      LoopRestartsBounded(s, init);
      RunSnoc(s, init, e);
      RunSnocRestarts(s, init, e, LoopReconnect);
      var p := Run(s, init).state;
      ApplyRestarts(p, e);
      CountAppend(init, [e], Disconnected);
      if e.LoopPass? {
        LoopEdge(p, e.sample, e.detectTime, e.reportTime);
      }
    }
  }

  /** From power-on, loop restarts never outnumber disconnections. */
  lemma LoopRestartsFromPowerOn(evs: seq<Event>)
    ensures Restarts(Run(INITIAL, evs).effects, LoopReconnect) <= Count(evs, Disconnected)
  {
    LoopRestartsBounded(INITIAL, evs);
  }

  /** After a run that ends with a loop pass, `oldConnected` agrees with the level. */
  lemma {:induction false} SyncedAfterLoop(s: State, evs: seq<Event>, sample: int, t1: U32, t2: U32)
    ensures Run(s, evs + [LoopPass(sample, t1, t2)]).state.oldConnected ==
            Run(s, evs + [LoopPass(sample, t1, t2)]).state.connected
  {
    RunSnoc(s, evs, LoopPass(sample, t1, t2));
    LoopEdge(Run(s, evs).state, sample, t1, t2);
  }

  // ---------------------------------------------------------------------
  // Scenarios

  /** Notifications of a run with one more event. */
  lemma RunSnocNotifications(s: State, evs: seq<Event>, e: Event)
    ensures Notifications(Run(s, evs + [e]).effects) ==
            Notifications(Run(s, evs).effects) + Notifications(Apply(Run(s, evs).state, e).effects)
  {
    RunSnoc(s, evs, e);
    NotificationsAppend(Run(s, evs).effects, Apply(Run(s, evs).state, e).effects);
  }

  /** Connect, pass, disconnect, pass, connect, pass: the disconnect callback
      and the loop each restart advertising once, and the last pass reports
      again and pauses for the connected interval. */
  lemma ReconnectScenario(v1: int, v2: int, v3: int, t1: U32, t2: U32, t3: U32)
    ensures var r := Run(INITIAL, [Connected] + [LoopPass(v1, t1, t1)] + [Disconnected] + [LoopPass(v2, t2, t2)] +
                                   [Connected] + [LoopPass(v3, t3, t3)]);
      Restarts(r.effects, DisconnectCallback) == 1 &&
      Restarts(r.effects, LoopReconnect) == 1 &&
      |r.effects| >= 2 &&
      r.effects[|r.effects| - 2].Notify? &&
      r.effects[|r.effects| - 1] == Delay(REPORT_INTERVAL) &&
      r.state.connected && r.state.oldConnected
  {
    var e1: seq<Event> := [Connected];
    var e2 := e1 + [LoopPass(v1, t1, t1)];
    var e3 := e2 + [Disconnected];
    var e4 := e3 + [LoopPass(v2, t2, t2)];
    var e5 := e4 + [Connected];
    var e6 := e5 + [LoopPass(v3, t3, t3)];
    // The states after each event.
    var s1 := OnConnect(INITIAL);
    var s2 := LoopStep(s1, v1, t1, t1).state;
    var s3 := OnDisconnect(s2).state;
    var s4 := LoopStep(s3, v2, t2, t2).state;
    var s5 := OnConnect(s4);
    LoopEdge(s1, v1, t1, t1);
    LoopEdge(s3, v2, t2, t2);
    LoopEdge(s5, v3, t3, t3);
    LoopDelay(s5, v3, t3, t3);
    assert [] + e1 == e1;
    RunSnoc(INITIAL, [], Connected);
    RunSnoc(INITIAL, e1, LoopPass(v1, t1, t1));
    RunSnoc(INITIAL, e2, Disconnected);
    RunSnoc(INITIAL, e3, LoopPass(v2, t2, t2));
    RunSnoc(INITIAL, e4, Connected);
    RunSnoc(INITIAL, e5, LoopPass(v3, t3, t3));
    assert Run(INITIAL, e5).state == s5;
    forall o: Origin
      ensures Restarts(Run(INITIAL, e6).effects, o) ==
        Restarts(Apply(INITIAL, Connected).effects, o) + Restarts(Apply(s1, LoopPass(v1, t1, t1)).effects, o) +
        Restarts(Apply(s2, Disconnected).effects, o) + Restarts(Apply(s3, LoopPass(v2, t2, t2)).effects, o) +
        Restarts(Apply(s4, Connected).effects, o) + Restarts(Apply(s5, LoopPass(v3, t3, t3)).effects, o)
    {
      RunSnocRestarts(INITIAL, [], Connected, o);
      RunSnocRestarts(INITIAL, e1, LoopPass(v1, t1, t1), o);
      RunSnocRestarts(INITIAL, e2, Disconnected, o);
      RunSnocRestarts(INITIAL, e3, LoopPass(v2, t2, t2), o);
      RunSnocRestarts(INITIAL, e4, Connected, o);
      RunSnocRestarts(INITIAL, e5, LoopPass(v3, t3, t3), o);
    }
    ApplyRestarts(INITIAL, Connected);
    ApplyRestarts(s1, LoopPass(v1, t1, t1));
    ApplyRestarts(s2, Disconnected);
    ApplyRestarts(s3, LoopPass(v2, t2, t2));
    ApplyRestarts(s4, Connected);
    ApplyRestarts(s5, LoopPass(v3, t3, t3));
  }

  /** If the phone reconnects before any loop pass sees the disconnection,
      only the disconnect callback restarts advertising. */
  lemma QuickReconnectScenario(v1: int, v2: int, t1: U32, t2: U32)
    ensures var r := Run(INITIAL, [Connected] + [LoopPass(v1, t1, t1)] + [Disconnected] + [Connected] +
                                   [LoopPass(v2, t2, t2)]);
      Restarts(r.effects, DisconnectCallback) == 1 &&
      Restarts(r.effects, LoopReconnect) == 0
  {
    var e1: seq<Event> := [Connected];
    var e2 := e1 + [LoopPass(v1, t1, t1)];
    var e3 := e2 + [Disconnected];
    var e4 := e3 + [Connected];
    var e5 := e4 + [LoopPass(v2, t2, t2)];
    var s1 := OnConnect(INITIAL);
    var s2 := LoopStep(s1, v1, t1, t1).state;
    var s3 := OnDisconnect(s2).state;
    var s4 := OnConnect(s3);
    LoopEdge(s1, v1, t1, t1);
    assert [] + e1 == e1;
    RunSnoc(INITIAL, [], Connected);
    RunSnoc(INITIAL, e1, LoopPass(v1, t1, t1));
    RunSnoc(INITIAL, e2, Disconnected);
    RunSnoc(INITIAL, e3, Connected);
    assert Run(INITIAL, e4).state == s4;
    forall o: Origin
      ensures Restarts(Run(INITIAL, e5).effects, o) ==
        Restarts(Apply(INITIAL, Connected).effects, o) + Restarts(Apply(s1, LoopPass(v1, t1, t1)).effects, o) +
        Restarts(Apply(s2, Disconnected).effects, o) + Restarts(Apply(s3, Connected).effects, o) +
        Restarts(Apply(s4, LoopPass(v2, t2, t2)).effects, o)
    {
      RunSnocRestarts(INITIAL, [], Connected, o);
      RunSnocRestarts(INITIAL, e1, LoopPass(v1, t1, t1), o);
      RunSnocRestarts(INITIAL, e2, Disconnected, o);
      RunSnocRestarts(INITIAL, e3, Connected, o);
      RunSnocRestarts(INITIAL, e4, LoopPass(v2, t2, t2), o);
    }
    ApplyRestarts(INITIAL, Connected);
    ApplyRestarts(s1, LoopPass(v1, t1, t1));
    ApplyRestarts(s2, Disconnected);
    ApplyRestarts(s3, Connected);
    ApplyRestarts(s4, LoopPass(v2, t2, t2));
  }

  /** Starting safe and linked at time `t`, two dark passes and then three
      light passes, each sampled and reported 500 ms after the previous one,
      notify "S", "S", "V:0", "V:500", "V:1000". */
  lemma SampleScenario(dark: int, light: int, t: U32)
    requires !LightPresent(dark) && LightPresent(light) && t + 2000 < MODULUS
    ensures Notifications(Run(State(false, 0, true, true),
      [LoopPass(dark, t, t)] + [LoopPass(dark, t + 500, t + 500)] + [LoopPass(light, t + 1000, t + 1000)] +
      [LoopPass(light, t + 1500, t + 1500)] + [LoopPass(light, t + 2000, t + 2000)]).effects) ==
      ["S", "S", "V:0", "V:500", "V:1000"]
  {
    SampleScenarioHeld(dark, light, t);
    SampleTexts();
    LinkedPass(State(false, 0, true, true), [LoopPass(dark, t, t)] + [LoopPass(dark, t + 500, t + 500)] +
               [LoopPass(light, t + 1000, t + 1000)] + [LoopPass(light, t + 1500, t + 1500)],
               light, t + 2000, State(true, t + 1000, true, true),
               ["S", "S", "V:0", "V:500"], StatusMessage.Violated(1000));
  }

  /** The second light pass of `SampleScenario` keeps the latch and its time
      and reports the 500 ms elapsed since. */
  lemma SampleScenarioHeld(dark: int, light: int, t: U32)
    requires !LightPresent(dark) && LightPresent(light) && t + 1500 < MODULUS
    ensures Run(State(false, 0, true, true), [LoopPass(dark, t, t)] + [LoopPass(dark, t + 500, t + 500)] +
      [LoopPass(light, t + 1000, t + 1000)] + [LoopPass(light, t + 1500, t + 1500)]).state ==
      State(true, t + 1000, true, true)
    ensures Notifications(Run(State(false, 0, true, true), [LoopPass(dark, t, t)] +
      [LoopPass(dark, t + 500, t + 500)] + [LoopPass(light, t + 1000, t + 1000)] +
      [LoopPass(light, t + 1500, t + 1500)]).effects) == ["S", "S", "V:0", "V:500"]
  {
    SampleScenarioLatch(dark, light, t);
    SampleTexts();
    LinkedPass(State(false, 0, true, true), [LoopPass(dark, t, t)] + [LoopPass(dark, t + 500, t + 500)] +
               [LoopPass(light, t + 1000, t + 1000)], light, t + 1500, State(true, t + 1000, true, true),
               ["S", "S", "V:0"], StatusMessage.Violated(500));
  }

  /** The first light pass of `SampleScenario` latches the violation at its
      sample time and reports "V:0". */
  lemma SampleScenarioLatch(dark: int, light: int, t: U32)
    requires !LightPresent(dark) && LightPresent(light) && t + 1000 < MODULUS
    ensures Run(State(false, 0, true, true), [LoopPass(dark, t, t)] + [LoopPass(dark, t + 500, t + 500)] +
      [LoopPass(light, t + 1000, t + 1000)]).state == State(true, t + 1000, true, true)
    ensures Notifications(Run(State(false, 0, true, true), [LoopPass(dark, t, t)] +
      [LoopPass(dark, t + 500, t + 500)] + [LoopPass(light, t + 1000, t + 1000)]).effects) == ["S", "S", "V:0"]
  {
    SampleScenarioDark(dark, t);
    SampleTexts();
    LinkedPass(State(false, 0, true, true), [LoopPass(dark, t, t)] + [LoopPass(dark, t + 500, t + 500)],
               light, t + 1000, State(true, t + 1000, true, true), ["S", "S"], StatusMessage.Violated(0));
  }

  /** The two dark passes of `SampleScenario` leave the suitcase safe and notify "S" twice. */
  lemma SampleScenarioDark(dark: int, t: U32)
    requires !LightPresent(dark) && t + 500 < MODULUS
    ensures Run(State(false, 0, true, true), [LoopPass(dark, t, t)] + [LoopPass(dark, t + 500, t + 500)]).state ==
      State(false, 0, true, true)
    ensures Notifications(Run(State(false, 0, true, true),
      [LoopPass(dark, t, t)] + [LoopPass(dark, t + 500, t + 500)]).effects) == ["S", "S"]
  {
    var safe := State(false, 0, true, true);
    assert [] + [LoopPass(dark, t, t)] == [LoopPass(dark, t, t)];
    LinkedPass(safe, [], dark, t, safe, [], StatusMessage.Safe);
    LinkedPass(safe, [LoopPass(dark, t, t)], dark, t + 500, safe, ["S"], StatusMessage.Safe);
  }

  /** The status texts `SampleScenario` expects. */
  lemma SampleTexts()
    ensures StatusMessage.Encode(StatusMessage.Violated(0)) == "V:0"
    ensures StatusMessage.Encode(StatusMessage.Violated(500)) == "V:500"
    ensures StatusMessage.Encode(StatusMessage.Violated(1000)) == "V:1000"
  {
    assert Decimal.Format(0) == "0";
    assert Decimal.Format(500) == "500" by {
      assert Decimal.Format(5) == "5";
      assert Decimal.Format(50) == Decimal.Format(5) + "0";
    }
    assert Decimal.Format(1000) == "1000" by {
      assert Decimal.Format(1) == "1";
      assert Decimal.Format(10) == Decimal.Format(1) + "0";
      assert Decimal.Format(100) == Decimal.Format(10) + "0";
    }
  }

  /** A run grows by one loop pass, sampled and reported at time `t` while the
      link is up and already seen by the loop: its state becomes the detected
      one and its notifications gain that state's status text. */
  lemma LinkedPass(s: State, evs: seq<Event>, sample: int, t: U32, after: State,
                   texts: seq<string>, st: StatusMessage.Status)
    requires Run(s, evs).state.connected && Run(s, evs).state.oldConnected
    requires Notifications(Run(s, evs).effects) == texts
    requires Detect(Run(s, evs).state, sample, t) == after && CurrentStatus(after, t) == st
    ensures Run(s, evs + [LoopPass(sample, t, t)]).state == after
    ensures Notifications(Run(s, evs + [LoopPass(sample, t, t)]).effects) == texts + [StatusMessage.Encode(st)]
  {
    var before := Run(s, evs).state;
    LoopNotification(before, sample, t, t);
    LoopEdge(before, sample, t, t);
    RunSnoc(s, evs, LoopPass(sample, t, t));
    RunSnocNotifications(s, evs, LoopPass(sample, t, t));
  }

  /** A "RESET" written after a violation makes the next report "S", as long
      as that pass does not see light again (which would latch anew). */
  lemma ResetScenario(s: State, sample: int, t1: U32, t2: U32)
    requires s.violated && s.connected && !LightPresent(sample)
    ensures Notifications(Run(s, [CommandWritten(RESET_COMMAND), LoopPass(sample, t1, t2)]).effects) == ["S"]
  {
    var e1 := [CommandWritten(RESET_COMMAND)];
    var cleared := State(false, 0, s.connected, s.oldConnected);
    assert Run(s, e1) == Step(cleared, []) by {
      ResetClears(s);
      RunSnoc(s, [], CommandWritten(RESET_COMMAND));
      assert [] + e1 == e1;
    }
    assert Notifications(LoopStep(cleared, sample, t1, t2).effects) == ["S"] by {
      LoopNotification(cleared, sample, t1, t2);
    }
    assert e1 + [LoopPass(sample, t1, t2)] == [CommandWritten(RESET_COMMAND), LoopPass(sample, t1, t2)];
    RunSnocNotifications(s, e1, LoopPass(sample, t1, t2));
  }

}
