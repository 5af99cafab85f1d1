/**
 * The `rise-data-counter` element's control logic as an object whose methods
 * update its fields in place. Each method is specified by the transition
 * function of `CounterScheduler` it implements.
 */
module RiseDataCounter {
  import opened Wrappers
  import opened JsParseInt
  import opened CounterValidation
  import opened CounterScheduler

  /**
   * `Valid()` is required and kept only by the public entry points: the
   * constructor, `HandleStart`, `Reset`, `Stop`, `Fire` and `Reconfigure`.
   * `Start`, `RunTimer`, `ProcessCount` and `SendCounterEvent` are the
   * element's private helpers, run only from inside those entry points; they
   * promise their transition alone (`SendCounterEvent(DATA_ERROR)` on its own
   * would break the invariant, and the element never sends it).
   */
  class Counter {
    /** The strict date and time parses the element delegates to its date library. */
    const formats: StrictFormats

    // Properties set by the host
    var counterType: string
    var date: JsString
    var time: JsString
    var completion: JsString
    var refresh: string

    var initialStart: bool
    /** The debounced refresh job: none, or one armed job with its delay in milliseconds. */
    var pending: Option<nat>
    var uptimeError: bool
    /** The names of the events sent, oldest first. */
    var events: seq<string>

    ghost function State(): CounterState
      reads this
    {
      CounterState(Config(counterType, date, time, completion, refresh), initialStart, pending, uptimeError, events)
    }

    ghost predicate Valid()
      reads this
    {
      Inv(State())
    }

    constructor (formats: StrictFormats)
      ensures this.formats == formats
      ensures State() == Initial()
      ensures Valid()
    {
      this.formats := formats;
      counterType, date, time, completion, refresh := "down", Undefined, Undefined, Undefined, "1";
      initialStart := true;
      pending := None;
      uptimeError := false;
      events := [];
      InitialInv();
    }

    /** `_reset`; also what the presentation "play" signal does. */
    method Reset()
      requires Valid()
      modifies this
      ensures Valid()
      ensures State() == AfterReset(formats, old(State()))
    {
      StepKeepsInv(formats, State(), Op.Reset);
      if !initialStart {
        Stop();
        Start();
      }
    }

    /** `_start`: arms the timer only when the type and the format checks pass. */
    method Start()
      modifies this
      ensures State() == Started(formats, old(State()))
    {
      if !IsValidType(counterType) {
        return;
      }
      if !HasValidFormat(formats, date, time) {
        return;
      }
      RunTimer(refresh);
    }

    /** `_stop`; also what the presentation "stop" signal does. */
    method Stop()
      modifies this
      ensures pending == None
      ensures State() == Stopped(old(State()))
      ensures old(Valid()) ==> Valid()
    {
      pending := None;
    }

    /** `_sendCounterEvent` */
    method SendCounterEvent(name: string)
      modifies this
      ensures State() == Sent(old(State()), name)
      ensures name == DATA_ERROR ==> uptimeError
      ensures name == DATA_UPDATE ==> !uptimeError
      ensures name != DATA_ERROR && name != DATA_UPDATE ==> uptimeError == old(uptimeError)
    {
      events := events + [name];
      if name == DATA_ERROR {
        uptimeError := true;
      } else if name == DATA_UPDATE {
        uptimeError := false;
      }
    }

    /** `_processCount`: one tick. */
    method ProcessCount()
      modifies this
      ensures events == old(events) + [DATA_UPDATE] && !uptimeError
      ensures State() == Processed(old(State()))
    {
      SendCounterEvent(DATA_UPDATE);
      RunTimer(refresh);
    }

    /** `_runTimer`: debounces the refresh job for a positive whole number of seconds. */
    method RunTimer(interval: string)
      modifies this
      ensures pending != old(pending) ==> pending.Some? && pending.value >= 1000 && pending.value % 1000 == 0
      ensures State() == old(State()).(pending := Rearm(old(pending), interval))
    {
      var parsed := ParseInt(interval);
      if parsed.Some? && parsed.value > 0 {
        WholeSeconds(parsed.value);
        pending := Some(parsed.value * 1000);
      }
    }

    /** The pending job's timeout elapsing: its callback runs `_processCount`. */
    method Fire()
      requires Valid()
      modifies this
      ensures Valid()
      ensures State() == Fired(old(State()))
    {
      ghost var s0 := State();
      FiredKeepsInv(s0);
      FireTicksOnce(s0);
      if pending.Some? {
        pending := None;
        assert State() == s0.(pending := None);
        ProcessCount();
        assert State() == Fired(s0);
      }
      assert Inv(State());
    }

    /** `_handleStart` */
    method HandleStart()
      requires Valid()
      modifies this
      ensures Valid() && !initialStart
      ensures State() == AfterHandleStart(formats, old(State()))
    {
      StepKeepsInv(formats, State(), Op.HandleStart);
      if initialStart {
        initialStart := false;
        Start();
      }
    }

    /** The host setting `type`; no observer runs. */
    method SetType(t: string)
      requires Valid()
      modifies this
      ensures Valid() && counterType == t
      ensures State() == Step(formats, old(State()), Op.SetType(t))
    {
      StepKeepsInv(formats, State(), Op.SetType(t));
      counterType := t;
    }

    /** The host setting `refresh` (as the text its ToString gives); no observer runs. */
    method SetRefresh(r: string)
      requires Valid()
      modifies this
      ensures Valid() && refresh == r
      ensures State() == Step(formats, old(State()), Op.SetRefresh(r))
    {
      StepKeepsInv(formats, State(), Op.SetRefresh(r));
      refresh := r;
    }

    /** The host setting `date`, `time` and `completion`, which runs the observer `_reset`. */
    method Reconfigure(date: JsString, time: JsString, completion: JsString)
      requires Valid()
      modifies this
      ensures Valid()
      ensures State() == Reconfigured(formats, old(State()), date, time, completion)
    {
      ghost var s0 := State();
      ghost var c := s0.config.(date := date, time := time, completion := completion);
      var changed := date != this.date || time != this.time || completion != this.completion;
      assert changed <==> c != s0.config;
      this.date, this.time, this.completion := date, time, completion;
      assert State() == s0.(config := c);
      LogKeptKeepsInv(s0, State());
      if changed {
        Reset();
      }
    }
  }
}
