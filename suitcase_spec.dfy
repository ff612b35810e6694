/**
  The alarm and link state machine of the suitcase firmware as values: the
  four state globals, the events that drive them (the two server callbacks,
  the characteristic write callback and one pass of `loop()`), and the
  hardware calls each event makes, in order.
 */
module SuitcaseSpec {

  import opened Clock
  import StatusMessage

  /** `LIMITE_LUZ`: a reading below it means light reached the sensor. */
  const LIGHT_THRESHOLD: int := 2000
  /** Pause after a notification while a phone is connected. */
  const REPORT_INTERVAL: nat := 500
  /** Pause of a cycle while nobody is connected. */
  const IDLE_INTERVAL: nat := 100
  /** Pause before the loop restarts advertising after a disconnection. */
  const SETTLE_DELAY: nat := 500
  /** The only command the write callback acts on. */
  const RESET_COMMAND: string := "RESET"

  /** `violacaoDetectada`, `momentoDaViolacao`, `deviceConnected`,
      `oldDeviceConnected`. */
  datatype State = State(violated: bool, violatedAt: U32, connected: bool, oldConnected: bool)

  /** Which call restarts advertising: `BLEDevice::startAdvertising()` in the
      disconnect callback, or `pServer->startAdvertising()` at the end of a
      loop pass. */
  datatype Origin = DisconnectCallback | LoopReconnect

  /** A call into the radio stack or the scheduler. `Notify(t)` stands for
      `setValue(t)` followed by `notify()`. */
  datatype Effect = Notify(text: string) | Delay(ms: nat) | StartAdvertising(origin: Origin)

  datatype Step = Step(state: State, effects: seq<Effect>)

  /** `sample` is the `analogRead` result; `detectTime` and `reportTime` are
      the two `millis()` readings of one pass. */
  datatype Event =
    | Connected
    | Disconnected
    | CommandWritten(payload: string)
    | LoopPass(sample: int, detectTime: U32, reportTime: U32)

  /** The values the globals are declared with. */
  const INITIAL: State := State(false, 0, false, false)

  /** A violation time is only ever recorded together with the violation. */
  predicate Inv(s: State) {
    !s.violated ==> s.violatedAt == 0
  }

  predicate LightPresent(sample: int) {
    sample < LIGHT_THRESHOLD
  }

  /** The detection part of `loop()`: latch on the first light. */
  function Detect(s: State, sample: int, now: U32): State {
    if LightPresent(sample) && !s.violated then s.(violated := true, violatedAt := now) else s
  }

  /** The status a report at time `now` carries. */
  function CurrentStatus(s: State, now: U32): StatusMessage.Status {
    if s.violated then StatusMessage.Violated(Elapsed(now, s.violatedAt)) else StatusMessage.Safe
  }

  /** The sending part of `loop()`. */
  function Report(s: State, now: U32): seq<Effect> {
    if s.connected then [Notify(StatusMessage.Encode(CurrentStatus(s, now))), Delay(REPORT_INTERVAL)]
    else [Delay(IDLE_INTERVAL)]
  }

  /** The reconnection part of `loop()`: edge bookkeeping. */
  function Reconnect(s: State): Step {
    if !s.connected && s.oldConnected then
      Step(s.(oldConnected := s.connected), [Delay(SETTLE_DELAY), StartAdvertising(LoopReconnect)])
    else if s.connected && !s.oldConnected then
      Step(s.(oldConnected := s.connected), [])
    else
      Step(s, [])
  }

  /** One whole pass of `loop()`. */
  function LoopStep(s: State, sample: int, detectTime: U32, reportTime: U32): Step {
    var d := Detect(s, sample, detectTime);
    var r := Reconnect(d);
    Step(r.state, Report(d, reportTime) + r.effects)
  }

  function OnConnect(s: State): State {
    s.(connected := true)
  }

  function OnDisconnect(s: State): Step {
    Step(s.(connected := false), [StartAdvertising(DisconnectCallback)])
  }

  function OnWrite(s: State, payload: string): State {
    if |payload| > 0 then
      if payload == RESET_COMMAND then s.(violated := false, violatedAt := 0) else s
    else s
  }

  function Apply(s: State, e: Event): Step {
    match e
    case Connected => Step(OnConnect(s), [])
    case Disconnected => OnDisconnect(s)
    case CommandWritten(p) => Step(OnWrite(s, p), [])
    case LoopPass(v, t1, t2) => LoopStep(s, v, t1, t2)
  }

  /** The events applied one after the other, callbacks running atomically
      between whole loop passes; the effects are concatenated in order. */
  function Run(s: State, evs: seq<Event>): Step
    decreases |evs|
  {
    if evs == [] then Step(s, [])
    else
      var p := Run(s, evs[..|evs| - 1]);
      var a := Apply(p.state, evs[|evs| - 1]);
      Step(a.state, p.effects + a.effects)
  }

  /** The texts notified, in order. */
  function Notifications(effects: seq<Effect>): seq<string>
    decreases |effects|
  {
    if effects == [] then []
    else
      var rest := Notifications(effects[1..]);
      if effects[0].Notify? then [effects[0].text] + rest else rest
  }

  /** Total time spent in `delay`. */
  function TotalDelay(effects: seq<Effect>): nat
    decreases |effects|
  {
    if effects == [] then 0
    else (if effects[0].Delay? then effects[0].ms else 0) + TotalDelay(effects[1..])
  }

  /** How many times `x` occurs in `s`. */
  function Count<T(==)>(s: seq<T>, x: T): nat
    decreases |s|
  {
    if s == [] then 0 else (if s[0] == x then 1 else 0) + Count(s[1..], x)
  }

  /** How many times advertising is restarted from `origin`. */
  function Restarts(effects: seq<Effect>, origin: Origin): nat {
    Count(effects, StartAdvertising(origin))
  }

  predicate NoReset(evs: seq<Event>) {
    forall i :: 0 <= i < |evs| ==> evs[i] != CommandWritten(RESET_COMMAND)
  }
}
