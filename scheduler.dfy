/**
 * The counter's control logic as values: its configuration, its lifecycle
 * flag, its single-slot refresh timer, its uptime-error flag and the log of
 * events it has sent, with one function per transition. The class in
 * `RiseDataCounter` is specified by these functions; the lemmas here state
 * what the transitions promise.
 */
module CounterScheduler {
  import opened Wrappers
  import opened JsParseInt
  import opened CounterValidation

  // Event names
  const DATA_UPDATE: string := "data-update"
  const DATA_ERROR: string := "data-error"

  /**
   * The element's properties. `refresh` holds the text parseInt sees for the
   * numeric `refresh` property (its ToString), so the default 1 is "1".
   */
  datatype Config = Config(
    counterType: string,
    date: JsString,
    time: JsString,
    completion: JsString,
    refresh: string)

  /**
   * The whole observable state. `pending` is the refresh timer slot: `None`
   * when no job is armed, `Some(ms)` for the one armed job and its delay in
   * milliseconds. `events` lists the names of the events sent so far.
   */
  datatype CounterState = CounterState(
    config: Config,
    initialStart: bool,
    pending: Option<nat>,
    uptimeError: bool,
    events: seq<string>)

  /** A freshly constructed element: default properties, not yet started, no timer. */
  function Initial(): (s: CounterState)
    ensures s.initialStart && s.pending == None && s.events == []
    ensures s.config.counterType == "down" && s.config.refresh == "1"
    ensures s.config.date == Undefined && s.config.time == Undefined && s.config.completion == Undefined
  {
    CounterState(Config("down", Undefined, Undefined, Undefined, "1"), true, None, false, [])
  }

  /**
   * The timer slot after `_runTimer(interval)`: a job of the parsed number of
   * seconds, in milliseconds, replaces the slot when the parse is a positive
   * integer; otherwise (NaN, zero, negative) the slot is left as it was.
   */
  function Rearm(pending: Option<nat>, interval: string): (r: Option<nat>)
    ensures r != pending ==> r.Some? && r.value >= 1000 && r.value % 1000 == 0
  {
    var n := ParseInt(interval);
    if n.Some? && n.value > 0 then WholeSeconds(n.value); Some(n.value * 1000) else pending
  }

  /** A positive number of seconds is a positive multiple of 1000 milliseconds. */
  lemma WholeSeconds(k: int)
    requires k > 0
    ensures k * 1000 >= 1000 && (k * 1000) % 1000 == 0
  {
  }

  /** An interval written as a positive whole number arms a job of that many seconds. */
  lemma RearmOfPositive(pending: Option<nat>, k: nat, tail: string)
    requires k > 0
    requires tail == [] || !IsDigit(tail[0])
    ensures Rearm(pending, Decimal(k) + tail) == Some(k * 1000)
  {
    ParseIntOfDecimal(k, tail);
  }

  /** Zero, negative and non-numeric intervals leave the slot untouched. */
  lemma RearmIgnoresNonPositive(pending: Option<nat>, k: nat, tail: string)
    requires tail == [] || !IsDigit(tail[0])
    ensures Rearm(pending, "-" + Decimal(k) + tail) == pending
    ensures Rearm(pending, Decimal(0) + tail) == pending
    ensures Rearm(pending, "") == pending
    ensures forall i: string {:trigger Rearm(pending, i)} ::
      (var u := Unsigned(TrimStart(i)); u == [] || !IsDigit(u[0])) ==> Rearm(pending, i) == pending
  {
    ParseIntOfNegatedDecimal(k, tail);
    ParseIntOfDecimal(0, tail);
  }

  /**
   * Arming replaces whatever was pending: the slot afterwards does not depend
   * on the job before, and arming again with the same interval changes nothing.
   */
  lemma RearmReplaces(p: Option<nat>, q: Option<nat>, interval: string)
    requires Rearm(p, interval) != p
    ensures Rearm(q, interval) == Rearm(p, interval)
    ensures Rearm(Rearm(q, interval), interval) == Rearm(q, interval)
  {
  }

  /** The checks `_start` makes before it arms the timer. */
  predicate CanStart(f: StrictFormats, c: Config) {
    IsValidType(c.counterType) && HasValidFormat(f, c.date, c.time)
  }

  /** `_start` */
  function Started(f: StrictFormats, s: CounterState): (r: CounterState)
    ensures r.(pending := s.pending) == s
    ensures r.pending != s.pending ==> CanStart(f, s.config)
    ensures CanStart(f, s.config) ==> r.pending == Rearm(s.pending, s.config.refresh)
  {
    if CanStart(f, s.config) then s.(pending := Rearm(s.pending, s.config.refresh)) else s
  }

  /** `_stop`: cancels the pending job, if any. */
  function Stopped(s: CounterState): (r: CounterState)
    ensures r.pending == None
    ensures r.(pending := s.pending) == s
  {
    s.(pending := None)
  }

  /** `_reset`: a stop and a start, but only once the element has started. */
  function AfterReset(f: StrictFormats, s: CounterState): (r: CounterState)
    ensures s.initialStart ==> r == s
    ensures r.(pending := s.pending) == s
    ensures r.pending != s.pending ==> !s.initialStart
    ensures r.pending.Some? && !s.initialStart ==> CanStart(f, s.config)
    ensures !s.initialStart && CanStart(f, s.config) ==> r.pending == Rearm(None, s.config.refresh)
  {
    if s.initialStart then s else Started(f, Stopped(s))
  }

  /** `_handleStart`: the first call clears the flag and starts; later calls do nothing. */
  function AfterHandleStart(f: StrictFormats, s: CounterState): (r: CounterState)
    ensures !r.initialStart
    ensures !s.initialStart ==> r == s
    ensures r.(initialStart := s.initialStart, pending := s.pending) == s
    ensures r.pending != s.pending ==> s.initialStart && CanStart(f, s.config)
  {
    if s.initialStart then Started(f, s.(initialStart := false)) else s
  }

  /** The uptime-error flag after sending the event `name`. */
  function UptimeAfter(flag: bool, name: string): bool {
    if name == DATA_ERROR then true
    else if name == DATA_UPDATE then false
    else flag
  }

  /** `_sendCounterEvent`: logs the event and updates the uptime-error flag. */
  function Sent(s: CounterState, name: string): (r: CounterState)
    ensures r.events == s.events + [name]
    ensures r.(events := s.events, uptimeError := s.uptimeError) == s
    ensures name == DATA_ERROR ==> r.uptimeError
    ensures name == DATA_UPDATE ==> !r.uptimeError
    ensures name != DATA_ERROR && name != DATA_UPDATE ==> r.uptimeError == s.uptimeError
    ensures name == DATA_ERROR || name == DATA_UPDATE ==> LastHealthEvent(r.events) == Some(r.uptimeError)
  {
    s.(events := s.events + [name], uptimeError := UptimeAfter(s.uptimeError, name))
  }

  /** `_processCount`: one data-update, then the timer is armed again from `refresh`. */
  function Processed(s: CounterState): (r: CounterState)
    ensures r.events == s.events + [DATA_UPDATE] && !r.uptimeError
    ensures LastHealthEvent(r.events) == Some(false)
    ensures r.pending == Rearm(s.pending, s.config.refresh)
    ensures r.config == s.config && r.initialStart == s.initialStart
  {
    var t := Sent(s, DATA_UPDATE);
    t.(pending := Rearm(t.pending, t.config.refresh))
  }

  /**
   * The timer firing: only an armed job fires; the slot is empty while its
   * callback, `_processCount`, runs.
   */
  function Fired(s: CounterState): (r: CounterState)
    ensures s.pending.None? ==> r == s
    ensures s.pending.Some? ==> r.events == s.events + [DATA_UPDATE] && !r.uptimeError
    ensures s.pending.Some? ==> r.pending == Rearm(None, s.config.refresh)
    ensures r.config == s.config && r.initialStart == s.initialStart
  {
    if s.pending.None? then s else Processed(s.(pending := None))
  }

  /**
   * The observer `_reset(date, time, completion)`: the host sets the three
   * properties; when any of them changed value, the observer resets.
   */
  function Reconfigured(f: StrictFormats, s: CounterState, date: JsString, time: JsString, completion: JsString): (r: CounterState)
    ensures r.config == s.config.(date := date, time := time, completion := completion)
    ensures r.initialStart == s.initialStart && r.events == s.events && r.uptimeError == s.uptimeError
    ensures r.pending != s.pending ==> !s.initialStart
    ensures r.pending.Some? && r.pending != s.pending ==> CanStart(f, r.config)
  {
    var c := s.config.(date := date, time := time, completion := completion);
    if c == s.config then s else AfterReset(f, s.(config := c))
  }

  /**
   * Whether the last data-error or data-update in `events` is a data-error,
   * or `None` when neither was ever sent.
   */
  function LastHealthEvent(events: seq<string>): (r: Option<bool>)
    ensures r == Some(true) ==> DATA_ERROR in events
    ensures r == Some(false) ==> DATA_UPDATE in events
    ensures r == None ==> DATA_ERROR !in events && DATA_UPDATE !in events
    ensures r.Some? ==> exists i :: 0 <= i < |events| && events[i] == HealthEvent(r.value) && NoHealthEventAfter(events, i)
  {
    if events == [] then None
    else
      var last := events[|events| - 1];
      if last == DATA_ERROR then Some(true)
      else if last == DATA_UPDATE then Some(false)
      else
        var prefix := events[..|events| - 1];
        assert events == prefix + [last];
        var r := LastHealthEvent(prefix);
        assert r.Some? ==> exists i :: 0 <= i < |events| && events[i] == HealthEvent(r.value) && NoHealthEventAfter(events, i) by {
          if r.Some? {
            var i :| 0 <= i < |prefix| && prefix[i] == HealthEvent(r.value) && NoHealthEventAfter(prefix, i);
            assert events[i] == prefix[i];
            assert NoHealthEventAfter(events, i);
          }
        }
        r
  }

  /** The health event that sets the uptime-error flag to `error`. */
  function HealthEvent(error: bool): string {
    if error then DATA_ERROR else DATA_UPDATE
  }

  /** No data-error or data-update comes after position `i` of `events`. */
  predicate NoHealthEventAfter(events: seq<string>, i: nat) {
    forall j :: i < j < |events| ==> events[j] != DATA_ERROR && events[j] != DATA_UPDATE
  }

  /** The uptime-error flag agrees with the last data-error or data-update sent. */
  predicate UptimeFollows(s: CounterState) {
    match LastHealthEvent(s.events)
    case None => true
    case Some(b) => s.uptimeError == b
  }

  /** Sending any event keeps the uptime-error flag in step with the event log. */
  lemma SentKeepsUptime(s: CounterState, name: string)
    requires UptimeFollows(s)
    ensures UptimeFollows(Sent(s, name))
    ensures name == DATA_ERROR ==> Sent(s, name).uptimeError
    ensures name == DATA_UPDATE ==> !Sent(s, name).uptimeError
  {
    var e := Sent(s, name).events;
    assert e[..|e| - 1] == s.events;
  }

  /** Before the first start a reset changes nothing. */
  lemma ResetBeforeFirstStart(f: StrictFormats, s: CounterState)
    requires s.initialStart
    ensures AfterReset(f, s) == s
  {
  }

  /**
   * After the first start a reset discards the pending job and arms a fresh
   * one exactly when the configuration passes the start checks.
   */
  lemma ResetRestartsTimer(f: StrictFormats, s: CounterState)
    requires !s.initialStart
    ensures AfterReset(f, s) == s.(pending := if CanStart(f, s.config) then Rearm(None, s.config.refresh) else None)
  {
  }

  /** Two resets in a row leave one pending job, the same as a single reset. */
  lemma ResetCoalesces(f: StrictFormats, s: CounterState)
    ensures AfterReset(f, AfterReset(f, s)) == AfterReset(f, s)
  {
  }

  /** Only the first `_handleStart` starts the counter; later ones leave the state unchanged. */
  lemma HandleStartOnce(f: StrictFormats, s: CounterState)
    ensures !AfterHandleStart(f, s).initialStart
    ensures !s.initialStart ==> AfterHandleStart(f, s) == s
    ensures s.initialStart && CanStart(f, s.config) ==> AfterHandleStart(f, s).pending == Rearm(s.pending, s.config.refresh)
    ensures s.initialStart && !CanStart(f, s.config) ==> AfterHandleStart(f, s) == s.(initialStart := false)
    ensures AfterHandleStart(f, AfterHandleStart(f, s)) == AfterHandleStart(f, s)
    ensures s.initialStart ==> AfterHandleStart(f, s) == Started(f, s.(initialStart := false))
  {
  }

  /**
   * A firing job sends exactly one data-update, clears the uptime error and
   * re-arms from the current `refresh`; with no job armed nothing happens.
   */
  lemma FireTicksOnce(s: CounterState)
    ensures s.pending.None? ==> Fired(s) == s
    ensures s.pending.Some? ==> Fired(s) == s.(
      pending := Rearm(None, s.config.refresh),
      events := s.events + [DATA_UPDATE],
      uptimeError := false)
  {
  }

  /**
   * Setting the observed properties resets the counter exactly when one of
   * them changes value; `undefined`, `null` and "" are three different values.
   */
  lemma ReconfigureResetsOnChange(f: StrictFormats, s: CounterState, date: JsString, time: JsString, completion: JsString)
    ensures var c := s.config.(date := date, time := time, completion := completion);
      && (c == s.config ==> Reconfigured(f, s, date, time, completion) == s)
      && (c != s.config ==> Reconfigured(f, s, date, time, completion) == AfterReset(f, s.(config := c)))
  {
  }

  /**
   * After the first start, setting a never-set `date` to "" still runs the
   * reset; with an invalid `type` that leaves no job armed.
   */
  lemma UnsetDateToEmptyStops(f: StrictFormats, s: CounterState)
    requires !s.initialStart && s.config.date == Undefined && !IsValidType(s.config.counterType)
    ensures Reconfigured(f, s, Str(""), s.config.time, s.config.completion).pending == None
  {
  }

  /** What the host can do to an element. */
  datatype Op =
    | HandleStart
    | Reset                 // also the presentation "play" signal
    | Stop                  // also the presentation "stop" signal
    | Fire
    | Reconfigure(date: JsString, time: JsString, completion: JsString)
    | SetType(counterType: string)
    | SetRefresh(refresh: string)

  function Step(f: StrictFormats, s: CounterState, op: Op): CounterState {
    match op
    case HandleStart => AfterHandleStart(f, s)
    case Reset => AfterReset(f, s)
    case Stop => Stopped(s)
    case Fire => Fired(s)
    case Reconfigure(date, time, completion) => Reconfigured(f, s, date, time, completion)
    case SetType(t) => s.(config := s.config.(counterType := t))
    case SetRefresh(r) => s.(config := s.config.(refresh := r))
  }

  function Run(f: StrictFormats, s: CounterState, ops: seq<Op>): CounterState
    decreases |ops|
  {
    if ops == [] then s else Run(f, Step(f, s, ops[0]), ops[1..])
  }

  /**
   * The invariant of every reachable state: an armed job waits a positive
   * whole number of seconds; before the first start nothing is armed and
   * nothing has been sent; the element only ever sends data-update; and the
   * uptime-error flag follows the last event sent.
   */
  predicate Inv(s: CounterState) {
    && (s.pending.Some? ==> s.pending.value >= 1000 && s.pending.value % 1000 == 0)
    && (s.initialStart ==> s.pending.None? && s.events == [])
    && (forall i :: 0 <= i < |s.events| ==> s.events[i] == DATA_UPDATE)
    && UptimeFollows(s)
  }

  lemma InitialInv()
    ensures Inv(Initial())
  {
  }

  lemma StepKeepsInv(f: StrictFormats, s: CounterState, op: Op)
    requires Inv(s)
    ensures Inv(Step(f, s, op))
  {
    if op.Fire? {
      FiredKeepsInv(s);
    } else {
      LogKeptKeepsInv(s, Step(f, s, op));
    }
  }

  /** A firing job keeps the invariant: it sends data-update and re-arms a whole number of seconds. */
  lemma FiredKeepsInv(s: CounterState)
    requires Inv(s)
    ensures Inv(Fired(s))
  {
    if s.pending.Some? {
      SentKeepsUptime(s.(pending := None), DATA_UPDATE);
    }
  }

  /** A step that sends nothing keeps the invariant when the job it leaves armed is well formed. */
  lemma LogKeptKeepsInv(s: CounterState, t: CounterState)
    requires Inv(s)
    requires t.events == s.events && t.uptimeError == s.uptimeError
    requires t.pending.Some? && t.pending != s.pending ==> t.pending.value >= 1000 && t.pending.value % 1000 == 0
    requires t.initialStart ==> t.pending.None? && t.events == []
    ensures Inv(t)
  {
  }

  lemma {:induction false} RunKeepsInv(f: StrictFormats, s: CounterState, ops: seq<Op>)
    requires Inv(s)
    ensures Inv(Run(f, s, ops))
    decreases |ops|
  {
    if ops != [] {
      StepKeepsInv(f, s, ops[0]);
      RunKeepsInv(f, Step(f, s, ops[0]), ops[1..]);
    }
  }

  /** Every state reachable from a fresh element satisfies the invariant. */
  lemma ReachableInv(f: StrictFormats, ops: seq<Op>)
    ensures Inv(Run(f, Initial(), ops))
  {
    InitialInv();
    RunKeepsInv(f, Initial(), ops);
  }
}
