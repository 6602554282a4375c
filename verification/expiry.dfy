/**
  The expiration offsets of the two issuance paths. Time is an integer count
  of milliseconds (what `Date.getTime()` returns); the ISO-8601 rendering sent
  on the wire is not modelled. `expire_at` is sent only when the link should
  live longer than one day, otherwise the backend's default applies.
 */
module Expiry {
  import opened Wrappers

  const HourMs: int := 60 * 60 * 1000
  const DayMs: int := 24 * HourMs

  /** Random-password path: `daysAvailable * 24` hours after `now`. */
  function RandomPathExpiry(now: int, daysAvailable: int): (r: Option<int>)
    ensures r.Some? <==> daysAvailable > 1
    ensures r.Some? ==> (r.value - now) % DayMs == 0 && (r.value - now) / DayMs == daysAvailable
  {
    if daysAvailable > 1 then
      var hoursToAdd := daysAvailable * 24;
      Some(now + hoursToAdd * 60 * 60 * 1000)
    else
      None
  }

  /** Custom-password path: `daysAvailable * 24 + 1` hours after `now`. */
  function CustomPathExpiry(now: int, daysAvailable: int): (r: Option<int>)
    ensures r.Some? <==> daysAvailable > 1
    ensures r.Some? ==> (r.value - now) % DayMs == HourMs && (r.value - now) / DayMs == daysAvailable
  {
    if daysAvailable > 1 then
      var hoursToAdd := daysAvailable * 24 + 1;
      Some(now + hoursToAdd * 60 * 60 * 1000)
    else
      None
  }

  /** For the same clock reading and day count, the custom path expires exactly one hour later. */
  lemma CustomIsOneHourLater(now: int, daysAvailable: int)
    ensures CustomPathExpiry(now, daysAvailable).Some? <==> RandomPathExpiry(now, daysAvailable).Some?
    ensures daysAvailable > 1 ==>
      CustomPathExpiry(now, daysAvailable).value == RandomPathExpiry(now, daysAvailable).value + HourMs
  {
  }

  /** Both offsets lie strictly in the future and grow with the day count. */
  lemma ExpiryMonotone(now: int, d1: int, d2: int)
    requires 1 < d1 <= d2
    ensures now < RandomPathExpiry(now, d1).value <= RandomPathExpiry(now, d2).value
    ensures now < CustomPathExpiry(now, d1).value <= CustomPathExpiry(now, d2).value
  {
  }
}
