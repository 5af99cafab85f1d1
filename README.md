# rise-data-counter: the counter element's control logic in Dafny

`rise-data-counter` is a Polymer web component. Given a counting direction
(`type`, "up" or "down"), a target `date` (YYYY-MM-DD) and/or `time` (HH:mm)
and a `refresh` period in seconds, it sends a `data-update` event on every
refresh. This project models the element's control logic in
`src/rise-data-counter.js`. That logic has four parts:

- **The lifecycle flag `initialStart`.** It is set by the constructor and
  cleared by the first `_handleStart`. Until it is cleared, `_reset` does
  nothing.
- **The start gate.** `_start` arms the timer only if `_isValidType` and
  `_hasValidFormat` both pass. A non-empty `date` takes precedence over `time`.
- **The single-slot debounced refresh timer.** `_runTimer` arms a job of
  `parseInt(refresh) * 1000` ms, but only when that parse is a positive
  integer. `_processCount` sends one `data-update` and re-arms. `_stop`
  cancels the job.
- **The uptime-error flag.** It follows the last `data-error` or
  `data-update` sent.

Files:

- `wrappers.dfy`: the `Option` type.
- `parse_int.dfy` (module `JsParseInt`): ECMAScript `parseInt(s, 10)`
  (section 19.2.5 of ECMA-262). It skips leading white space, takes one
  optional sign and then the longest run of decimal digits; `None` stands for
  NaN. It comes with round-trip lemmas against a decimal renderer. The
  result is a mathematical integer, so "-0" reads as 0 where parseInt gives
  -0; the only use of the result is the test `> 0`, which both fail.
- `validation.dfy` (module `CounterValidation`): `_isValidType`,
  `_isValidDate`, `_isValidTime` and `_hasValidFormat`. The strict date and
  time parses of the `moment` library are abstract. They are the two
  predicates of a `StrictFormats` value (`isDate` and `isTime`), and every
  counter receives one at construction.
- `scheduler.dfy` (module `CounterScheduler`): the element's state as a
  value (`CounterState`) and one function per transition. It also holds the
  lemmas about those transitions, and an invariant proved for every sequence
  of host operations.
- `counter.dfy` (module `RiseDataCounter`): class `Counter`, with the
  element's fields and one method per state-changing method of the source,
  plus `Fire`, `SetType`, `SetRefresh` and `Reconfigure` for what the host and
  the timer do to the element. Each method's `ensures` ties the new state to
  the transition function of the old state.

The String properties `date`, `time` and `completion` are `JsString` values:
`Undefined` (never set), `Null` or `Str(s)`. Only a non-empty string counts as
set (JavaScript truthiness). The three stay distinct, because the observer
runs on any change of value, also from `undefined` to `""`.

The timer slot is `Option<nat>`: `None` means no active job, and `Some(ms)` is the one armed job with its delay. So at most one
job is ever pending by construction. Firing is the method `Fire`, which acts
only when a job is armed. The slot is empty while the callback
(`_processCount`) runs, as in the debouncer.

Behaviour of the code worth knowing:

- An invalid `type`, or an invalid date or time, only returns from `_start`.
  No `data-error` is sent and nothing is logged; the code has TODOs there.
  The invariant `CounterScheduler.Inv` therefore includes "every event sent is
  `data-update`".
- Starting sends nothing at once. The first `data-update` comes when the
  first armed job fires.
- The observer is `_reset(date, time, completion)`. A change of `type` or
  `refresh` does not reset the counter.
- Each tick sends the current ISO timestamp. No duration engine exists in
  this file.

## Model

| member | source | states |
|---|---|---|
| `CounterScheduler.Initial` | src/rise-data-counter.js:17-81 | a fresh element has `initialStart` set, no pending job, no events sent, the defaults `type` "down" and `refresh` 1, and `date`, `time` and `completion` never set |
| `CounterScheduler.InitialInv` | src/rise-data-counter.js:75-81 | the fresh element satisfies the reachable-state invariant |
| `RiseDataCounter.Counter.constructor` | src/rise-data-counter.js:75-81 | a new counter is in the initial state and satisfies the invariant |
| `CounterValidation.IsValidDate` | src/rise-data-counter.js:101-103 | a date is valid exactly when the library's strict YYYY-MM-DD parse accepts it |
| `CounterValidation.IsValidTime` | src/rise-data-counter.js:105-107 | a time is valid exactly when the library's strict HH:mm parse accepts it |
| `CounterValidation.IsValidType` | src/rise-data-counter.js:97-99 | the type is valid exactly when it is the label of one of the two directions, "up" or "down" |
| `CounterValidation.HasValidFormat` | src/rise-data-counter.js:109-122 | false when both date and time are unset; when a date is set, the strict date parse alone decides, whatever the time holds; otherwise the strict time parse decides |
| `CounterValidation.DateTakesPrecedence` | src/rise-data-counter.js:114-117 | with a date set, the time never changes the format verdict |
| `JsParseInt.TrimStart` | src/rise-data-counter.js:166 | parseInt's trim step drops exactly a prefix of white space and stops at the first non-white character |
| `JsParseInt.DigitRun` | src/rise-data-counter.js:166 | the digits parseInt reads are the longest prefix of decimal digits |
| `JsParseInt.ParseInt` | src/rise-data-counter.js:166 | the parse is a number (not NaN) exactly when a digit follows the white space and one optional sign; it is negative only after a leading '-' |
| `JsParseInt.Decimal` | src/rise-data-counter.js:166 | the decimal rendering of a number is a non-empty digit string with no leading zero |
| `JsParseInt.DigitsValueOfDecimal` | src/rise-data-counter.js:166 | the value of a number's decimal rendering is that number |
| `JsParseInt.DigitRunOfDigits` | src/rise-data-counter.js:166 | a digit string followed by a non-digit yields a digit run of exactly that string |
| `JsParseInt.ParseIntOfDigits` | src/rise-data-counter.js:166 | any non-empty digit string followed by a non-digit (or nothing) parses to the value of those digits |
| `JsParseInt.ParseIntOfNegatedDigits` | src/rise-data-counter.js:166 | the same digit string after a minus sign parses to the negated value |
| `JsParseInt.ParseIntOfPlusDigits` | src/rise-data-counter.js:166 | the same digit string after a plus sign parses to its value |
| `JsParseInt.ParseIntOfDecimal` | src/rise-data-counter.js:166 | parseInt reads back a number's decimal rendering, whatever non-digit text follows (as in "1.5") |
| `JsParseInt.ParseIntOfNegatedDecimal` | src/rise-data-counter.js:166 | parseInt reads back "-" followed by a rendering as the negated number |
| `JsParseInt.ParseIntSkipsWhitespace` | src/rise-data-counter.js:166 | leading white space does not change the result of parseInt |
| `CounterScheduler.Rearm` | src/rise-data-counter.js:165-171 | `_runTimer` only ever replaces the slot with one job of a positive whole number of seconds, in milliseconds; otherwise the slot is left as it was |
| `CounterScheduler.RearmOfPositive` | src/rise-data-counter.js:166-169 | an interval written as a positive integer k, followed by any non-digit text, arms a job of k * 1000 ms |
| `CounterScheduler.RearmIgnoresNonPositive` | src/rise-data-counter.js:166-168 | a negative, zero or NaN interval leaves the pending job as it was; NaN covers every text in which no digit follows the white space and one sign ("", "NaN", "Infinity", "undefined", …) |
| `CounterScheduler.RearmReplaces` | src/rise-data-counter.js:169 | arming replaces whatever was pending rather than adding a second job, and arming twice with the same interval is the same as arming once |
| `CounterScheduler.Stopped` | src/rise-data-counter.js:138-141 | afterwards no job is pending, and nothing else changes |
| `CounterScheduler.AfterReset` | src/rise-data-counter.js:90-95 | only the timer slot can change, and only once `initialStart` is cleared; a job is then left armed only when the start checks pass, and it is a fresh one armed from `refresh` (see `ResetRestartsTimer`) |
| `CounterScheduler.AfterHandleStart` | src/rise-data-counter.js:173-181 | `initialStart` is cleared; a call after the first changes nothing; only the flag and the timer slot change, and the slot only on the first call when the start checks pass (see `HandleStartOnce`) |
| `CounterScheduler.Sent` | src/rise-data-counter.js:143-155 | the event is appended to the log and nothing else but the uptime flag changes; data-error sets the flag, data-update clears it, any other name leaves it; after a data-error or data-update the flag equals the last such event in the log (see `SentKeepsUptime`) |
| `CounterScheduler.Processed` | src/rise-data-counter.js:157-163 | one data-update is appended, the uptime error is cleared (the last health event is data-update), and the slot becomes what `_runTimer(refresh)` gives; configuration and lifecycle flag are kept |
| `CounterScheduler.Fired` | src/rise-data-counter.js:169 | with no job armed nothing happens; otherwise one data-update is sent, the uptime error is cleared and the slot holds only what `refresh` re-arms (see `FireTicksOnce`) |
| `CounterScheduler.Reconfigured` | src/rise-data-counter.js:56-60 | the three observed properties take the new values; the flag, the log and the uptime error are kept; the slot changes only after the first start, and a newly armed job means the new configuration passes the start checks (see `ReconfigureResetsOnChange`) |
| `CounterScheduler.Started` | src/rise-data-counter.js:124-136 | `_start` changes only the timer slot and sends no event; when both the type check and the format check pass the slot becomes what `_runTimer(refresh)` gives, and otherwise it is left as it was |
| `CounterScheduler.ResetBeforeFirstStart` | src/rise-data-counter.js:90-95 | before the first start, `_reset` changes nothing |
| `CounterScheduler.ResetRestartsTimer` | src/rise-data-counter.js:90-95 | after the first start, `_reset` discards the pending job and arms a fresh one exactly when the start checks pass; nothing else changes |
| `CounterScheduler.ResetCoalesces` | src/rise-data-counter.js:90-95 | two resets in a row leave the same single pending job as one reset |
| `CounterScheduler.HandleStartOnce` | src/rise-data-counter.js:173-181 | `_handleStart` always leaves `initialStart` cleared; on the first call it arms the timer from `refresh` when the start checks pass and changes nothing else; once `initialStart` is cleared every call changes nothing |
| `CounterScheduler.LastHealthEvent` | src/rise-data-counter.js:143-155 | the result is `None` exactly when neither data-error nor data-update was ever sent; otherwise it names the one at some position after which neither event occurs, i.e. the last of them |
| `CounterScheduler.SentKeepsUptime` | src/rise-data-counter.js:143-155 | sending data-error sets the uptime error, sending data-update clears it, and after any send the flag agrees with the last data-error or data-update in the log |
| `CounterScheduler.FireTicksOnce` | src/rise-data-counter.js:157-169 | a firing job sends exactly one data-update, clears the uptime error and re-arms from the current `refresh`; without an armed job nothing happens |
| `CounterScheduler.StepKeepsInv` | src/rise-data-counter.js:75-181 | every host operation preserves the invariant: an armed job waits a positive whole number of seconds; before the first start nothing is armed and nothing sent; only data-update is ever sent; the uptime flag follows the last event |
| `CounterScheduler.RunKeepsInv` | src/rise-data-counter.js:75-181 | any sequence of host operations preserves the invariant |
| `CounterScheduler.ReachableInv` | src/rise-data-counter.js:75-181 | every state reachable from a fresh element satisfies the invariant |
| `RiseDataCounter.Counter.Reset` | src/rise-data-counter.js:90-95 | the new state is the reset transition of the old one, and the invariant is kept |
| `RiseDataCounter.Counter.Start` | src/rise-data-counter.js:124-136 | the new state is the start transition of the old one |
| `RiseDataCounter.Counter.Stop` | src/rise-data-counter.js:138-141 | no job is pending afterwards and nothing else changes |
| `RiseDataCounter.Counter.SendCounterEvent` | src/rise-data-counter.js:143-155 | the event is appended to the log; data-error sets the uptime error, data-update clears it, and any other event leaves it as it was |
| `RiseDataCounter.Counter.ProcessCount` | src/rise-data-counter.js:157-163 | exactly one data-update is appended, the uptime error is cleared, and the timer is re-armed from `refresh` |
| `RiseDataCounter.Counter.RunTimer` | src/rise-data-counter.js:165-171 | only the timer slot changes; it becomes the job that `parseInt(interval) * 1000` gives when the parse is positive, and stays as it was otherwise |
| `RiseDataCounter.Counter.Fire` | src/rise-data-counter.js:169 | the pending job's callback runs `_processCount`; with no job pending nothing happens; the invariant is kept |
| `RiseDataCounter.Counter.HandleStart` | src/rise-data-counter.js:173-181 | `initialStart` is cleared, and the counter is started only if this is the first call |
| `RiseDataCounter.Counter.SetType` | src/rise-data-counter.js:22-25 | setting `type` changes only that property, runs no observer and keeps the invariant |
| `RiseDataCounter.Counter.SetRefresh` | src/rise-data-counter.js:47-50 | setting `refresh` changes only that property, runs no observer and keeps the invariant |
| `RiseDataCounter.Counter.Reconfigure` | src/rise-data-counter.js:56-60 | setting date, time and completion runs the reset observer when any of them changed value |
| `CounterScheduler.ReconfigureResetsOnChange` | src/rise-data-counter.js:56-60 | setting the observed properties to the values they hold changes nothing; any change of value, `undefined` to `""` included, is a reset |
| `CounterScheduler.UnsetDateToEmptyStops` | src/rise-data-counter.js:90-95 | after the first start, setting a never-set date to `""` with an invalid type cancels the pending job |

## Left out

- The Polymer template, the property declarations' metadata, `customElements.define` and the `ready` listener wiring are left out. The presentation "play" and "stop" signals are the model's `Reset` and `Stop`.
- The `moment` strict parses are the abstract predicates `StrictFormats.isDate` and `StrictFormats.isTime`, because the library's grammar is not part of this model.
- Wall-clock time and the `timeOut` / `Debouncer` scheduling are left out, apart from their single-slot replace and cancel semantics. A timeout elapsing is the `Fire` operation.
- The payload of `data-update` is left out: it is the current ISO timestamp, a wall-clock read. Only the event name is logged.
- `_sendEvent`, `_setUptimeError`, `_setVersion` and the base class's `_handleStart` belong to the inherited base element and are left out. Events are appends to a log and the uptime error is a boolean, which the model starts as false.
- `refresh` is held as the text that ToString produces from the numeric property, which parseInt then reads. ToString is modelled only for whole numbers below 10^21, by `JsParseInt.Decimal`; the texts of fractions, of larger numbers (exponent form, such as "1e+21"), of NaN and of the infinities are not produced by the model, though `ParseIntOfDecimal` (with a tail such as ".5" or "e+21") and `RearmIgnoresNonPositive` cover how parseInt reads them.
- CounterScheduler.Rearm: the delay is an exact unbounded integer. It does not model the rounding of JavaScript Numbers above 2^53, nor the browser's handling of delays above 2^31 - 1 ms.
- RiseDataCounter.Counter.Fire: a tick is atomic. In the source, the `_sendCounterEvent` call at src/rise-data-counter.js:161 dispatches data-update synchronously, through the base class's `_sendEvent`, so a listener may stop, play or reconfigure the element before the re-arm at line 162, which then overrides a stop or a reset that armed nothing. The model treats every host reaction to data-update as running after the tick completes and does not capture that interleaving.
- The duration and difference breakdown, and the completion and started status, are left out, because this file does not implement them. It has only a TODO.
