/**
  The firmware itself: the four state globals of `main.cpp` as fields of one
  object, the three callbacks and `loop()` as methods that assign them, and
  the calls into the radio stack and the scheduler appended to `output`.
  The ghost `history` records the events applied so far; `Valid()` says the
  object is exactly the run of `SuitcaseSpec` over that history from
  power-on, so what is proved about runs holds for the object.
 */
module Suitcase {

  import opened Clock
  import StatusMessage
  import Spec = SuitcaseSpec

  class Firmware {
    var violationDetected: bool
    var violationTime: U32
    var deviceConnected: bool
    var oldDeviceConnected: bool
    /** Every `notify`, `delay` and `startAdvertising` so far, oldest first. */
    var output: seq<Spec.Effect>
    /** The callbacks and loop passes so far, oldest first. */
    ghost var history: seq<Spec.Event>

    function Snapshot(): Spec.State
      reads this
    {
      Spec.State(violationDetected, violationTime, deviceConnected, oldDeviceConnected)
    }

    /** The fields and the trace are those of the run of `history` from power-on. */
    ghost predicate Valid()
      reads this
    {
      Snapshot() == Spec.Run(Spec.INITIAL, history).state &&
      output == Spec.Run(Spec.INITIAL, history).effects
    }

    constructor ()
      ensures Snapshot() == Spec.INITIAL && output == []
      ensures history == [] && Valid()
    {
      violationDetected := false;
      violationTime := 0;
      deviceConnected := false;
      oldDeviceConnected := false;
      output := [];
      history := [];
    }

    method OnConnect()
      requires Valid()
      modifies this
      ensures history == old(history) + [Spec.Connected] && Valid()
      ensures Snapshot() == Spec.OnConnect(old(Snapshot()))
      ensures output == old(output)
    {
      deviceConnected := true;
      Extend(Spec.Connected);
    }

    method OnDisconnect()
      requires Valid()
      modifies this
      ensures history == old(history) + [Spec.Disconnected] && Valid()
      ensures Snapshot() == Spec.OnDisconnect(old(Snapshot())).state
      ensures output == old(output) + Spec.OnDisconnect(old(Snapshot())).effects
    {
      deviceConnected := false;
      output := output + [Spec.StartAdvertising(Spec.DisconnectCallback)];
      Extend(Spec.Disconnected);
    }

    method OnWrite(value: string)
      requires Valid()
      modifies this
      ensures history == old(history) + [Spec.CommandWritten(value)] && Valid()
      ensures Snapshot() == Spec.OnWrite(old(Snapshot()), value)
      ensures output == old(output)
    {
      if |value| > 0 {
        if value == Spec.RESET_COMMAND {
          violationDetected := false;
          violationTime := 0;
        }
      }
      Extend(Spec.CommandWritten(value));
    }

    method Loop(sample: int, detectTime: U32, reportTime: U32)
      requires Valid()
      modifies this
      ensures history == old(history) + [Spec.LoopPass(sample, detectTime, reportTime)] && Valid()
      ensures Snapshot() == Spec.LoopStep(old(Snapshot()), sample, detectTime, reportTime).state
      ensures output == old(output) + Spec.LoopStep(old(Snapshot()), sample, detectTime, reportTime).effects
    {
      var lightPresent := sample < Spec.LIGHT_THRESHOLD;
      if lightPresent && !violationDetected {
        violationDetected := true;
        violationTime := detectTime;
      }

      if deviceConnected {
        var message: string;
        if violationDetected {
          var elapsed := Elapsed(reportTime, violationTime);
          message := StatusMessage.Encode(StatusMessage.Violated(elapsed));
        } else {
          message := StatusMessage.Encode(StatusMessage.Safe);
        }
        output := output + [Spec.Notify(message), Spec.Delay(Spec.REPORT_INTERVAL)];
      } else {
        output := output + [Spec.Delay(Spec.IDLE_INTERVAL)];
      }

      if !deviceConnected && oldDeviceConnected {
        output := output + [Spec.Delay(Spec.SETTLE_DELAY), Spec.StartAdvertising(Spec.LoopReconnect)];
        oldDeviceConnected := deviceConnected;
      }
      if deviceConnected && !oldDeviceConnected {
        oldDeviceConnected := deviceConnected;
      }
      Extend(Spec.LoopPass(sample, detectTime, reportTime));
    }

    /** Records `e` once its state change and effects have been applied. */
    ghost method Extend(e: Spec.Event)
      requires Snapshot() == Spec.Apply(Spec.Run(Spec.INITIAL, history).state, e).state
      requires output == Spec.Run(Spec.INITIAL, history).effects +
                         Spec.Apply(Spec.Run(Spec.INITIAL, history).state, e).effects
      modifies this
      ensures history == old(history) + [e] && Valid()
      ensures Snapshot() == old(Snapshot()) && output == old(output)
    {
      assert (history + [e])[..|history|] == history;
      history := history + [e];
    }
  }
}
