/**
 * The configuration checks that gate the counter's start: the counting
 * direction (`type`) and the target `date` / `time`.
 */
module CounterValidation {

  /**
   * The value of a String-typed element property: never set (`undefined`),
   * cleared (`null`), or a string. These are three distinct values to the
   * element's property observers.
   */
  datatype JsString = Undefined | Null | Str(s: string)

  /** JavaScript truthiness: only a non-empty string is true. */
  predicate IsTruthy(v: JsString) {
    v.Str? && v.s != ""
  }

  /** The two counting directions the element accepts. */
  datatype Direction = Up | Down

  /** The spelling of a direction in the element's `type` property. */
  function Label(d: Direction): string {
    match d
    case Up => "up"
    case Down => "down"
  }

  /** `_isValidType`: the type names one of the two directions. */
  function IsValidType(t: string): (b: bool)
    ensures b <==> exists d: Direction :: Label(d) == t
  {
    assert Label(Up) == "up" && Label(Down) == "down";
    t == "up" || t == "down"
  }

  /**
   * The strict parses delegated to the date library: `isDate` accepts exactly
   * the texts that parse strictly as YYYY-MM-DD, `isTime` those that parse
   * strictly as HH:mm. Their details belong to the library and stay abstract.
   */
  datatype StrictFormats = StrictFormats(isDate: string -> bool, isTime: string -> bool)

  /** `_isValidDate`: the verdict is the library's strict YYYY-MM-DD parse. */
  function IsValidDate(f: StrictFormats, date: string): (b: bool)
    ensures b <==> f.isDate(date)
  {
    f.isDate(date)
  }

  /** `_isValidTime`: the verdict is the library's strict HH:mm parse. */
  function IsValidTime(f: StrictFormats, time: string): (b: bool)
    ensures b <==> f.isTime(time)
  {
    f.isTime(time)
  }

  /**
   * `_hasValidFormat`: false when neither field is set (truthy); a set `date`
   * decides alone, whatever `time` holds; otherwise `time` decides.
   */
  function HasValidFormat(f: StrictFormats, date: JsString, time: JsString): (b: bool)
    ensures !IsTruthy(date) && !IsTruthy(time) ==> !b
    ensures IsTruthy(date) ==> (b <==> IsValidDate(f, date.s))
    ensures !IsTruthy(date) && IsTruthy(time) ==> (b <==> IsValidTime(f, time.s))
  {
    if !IsTruthy(date) && !IsTruthy(time) then false
    else if IsTruthy(date) then IsValidDate(f, date.s)
    else IsValidTime(f, time.s)
  }

  /** A set date makes the time irrelevant to the format check. */
  lemma DateTakesPrecedence(f: StrictFormats, date: JsString, time1: JsString, time2: JsString)
    requires IsTruthy(date)
    ensures HasValidFormat(f, date, time1) == HasValidFormat(f, date, time2)
  {
  }
}
