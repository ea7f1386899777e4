/**
 * The "has enough time passed" rule of lib/utils/time.ts. The clock
 * (`Date.now()`) is the parameter `now` and `Date.parse` is the parameter
 * `parse`, which yields the milliseconds a timestamp denotes or `None` (NaN).
 */
module Time {
  import opened Wrappers

  /** `minutesToMs`: a number of minutes as milliseconds. */
  function MinutesToMs(minutes: real): (ms: real)
    ensures ms / 60000.0 == minutes
  {
    minutes * 60.0 * 1000.0
  }

  /**
   * `isPast`: a missing or empty timestamp, or one that does not parse, is
   * always past; otherwise at least `minMinutes` must have elapsed.
   */
  predicate IsPast(timestamp: Option<string>, minMinutes: real, now: int, parse: string -> Option<int>)
  {
    match timestamp
    case None => true
    case Some(text) =>
      if text == "" then true
      else match parse(text)
        case None => true
        case Some(last) => (now - last) as real >= MinutesToMs(minMinutes)
  }

  lemma IsPastWhenMissing(minMinutes: real, now: int, parse: string -> Option<int>)
    ensures IsPast(None, minMinutes, now, parse)
    ensures IsPast(Some(""), minMinutes, now, parse)
  {
  }

  lemma IsPastWhenUnparseable(text: string, minMinutes: real, now: int, parse: string -> Option<int>)
    requires parse(text).None?
    ensures IsPast(Some(text), minMinutes, now, parse)
  {
  }

  /** For a parseable timestamp, the elapsed time is compared inclusively. */
  lemma IsPastParsed(text: string, last: int, minMinutes: real, now: int, parse: string -> Option<int>)
    requires text != "" && parse(text) == Some(last)
    ensures IsPast(Some(text), minMinutes, now, parse) <==> (now - last) as real >= minMinutes * 60000.0
  {
  }

  /** Once past, a timestamp stays past at any later time and for any shorter threshold. */
  lemma IsPastMonotone(timestamp: Option<string>, minMinutes: real, shorter: real, now: int, later: int, parse: string -> Option<int>)
    requires IsPast(timestamp, minMinutes, now, parse)
    requires now <= later && shorter <= minMinutes
    ensures IsPast(timestamp, shorter, later, parse)
  {
  }

  /** tests/time.test.ts: one second inside a ten-minute window is not past, one second outside is. */
  lemma TenMinuteWindow(now: int)
    ensures !IsPast(Some("recent"), 10.0, now, _ => Some(now - 600000 + 1000))
    ensures IsPast(Some("old"), 10.0, now, _ => Some(now - 600000 - 1000))
  {
  }
}
