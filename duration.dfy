/**
 * The duration columns: the absolute difference of the hour fields and, separately,
 * of the minute fields of arrival and departure. Dates are not looked at. A NaT
 * time has NaN fields, and NaN propagates through the difference.
 */
module Duration {
  import opened Timestamp

  function Abs(x: int): (r: nat)
    ensures r == x || r == -x
  {
    if x < 0 then -x else x
  }

  /** `abs(x - y)` on fields that may be NaN. */
  function AbsDiff(x: Num, y: Num): (r: Num)
    ensures r.NaN? <==> x.NaN? || y.NaN?
    ensures r.Int? ==> r.value >= 0 && (r.value == x.value - y.value || r.value == y.value - x.value)
  {
    if x.Int? && y.Int? then Int(Abs(x.value - y.value)) else NaN
  }

  /** `abs(Arrival_hour - Departure_hour)`: NaN when either time is NaT, otherwise a natural number. */
  function DurationHours(departure: Stamp, arrival: Stamp): (r: Num)
    ensures r.NaN? <==> departure.NaT? || arrival.NaT?
    ensures r.Int? ==> r.value >= 0
  {
    AbsDiff(Hour(arrival), Hour(departure))
  }

  /** `abs(Arrival_min - Departure_min)`: NaN when either time is NaT, otherwise a natural number. */
  function DurationMinutes(departure: Stamp, arrival: Stamp): (r: Num)
    ensures r.NaN? <==> departure.NaT? || arrival.NaT?
    ensures r.Int? ==> r.value >= 0
  {
    AbsDiff(Minute(arrival), Minute(departure))
  }

  /** For valid times the hour difference is at most 23 and the minute difference at most 59. */
  lemma DurationBounds(departure: DateTime, arrival: DateTime)
    requires Valid(departure) && Valid(arrival)
    ensures DurationHours(At(departure), At(arrival)).Int?
    ensures DurationHours(At(departure), At(arrival)).value <= 23
    ensures DurationMinutes(At(departure), At(arrival)).Int?
    ensures DurationMinutes(At(departure), At(arrival)).value <= 59
  {
  }

  /** Swapping departure and arrival gives the same duration, NaN or not. */
  lemma DurationSymmetric(departure: Stamp, arrival: Stamp)
    ensures DurationHours(departure, arrival) == DurationHours(arrival, departure)
    ensures DurationMinutes(departure, arrival) == DurationMinutes(arrival, departure)
  {
  }

  /** Only the times of day matter: dates, and so day rollover, are ignored. */
  lemma DurationIgnoresDates(d1: DateTime, a1: DateTime, d2: DateTime, a2: DateTime)
    requires d1.hour == d2.hour && d1.minute == d2.minute
    requires a1.hour == a2.hour && a1.minute == a2.minute
    ensures DurationHours(At(d1), At(a1)) == DurationHours(At(d2), At(a2))
    ensures DurationMinutes(At(d1), At(a1)) == DurationMinutes(At(d2), At(a2))
  {
  }

  function MinutesOfDay(t: DateTime): int {
    60 * t.hour + t.minute
  }

  /**
   * Even for a same-day flight the rule is not the elapsed time: when arrival is
   * later in the day, the two agree exactly when the arrival minute is not
   * below the departure minute (10:50 to 11:10 reads as 1 h 40 min, not 20 min).
   */
  lemma DurationVersusElapsed(departure: DateTime, arrival: DateTime)
    requires Valid(departure) && Valid(arrival)
    requires MinutesOfDay(departure) <= MinutesOfDay(arrival)
    ensures 60 * DurationHours(At(departure), At(arrival)).value
              + DurationMinutes(At(departure), At(arrival)).value
              == MinutesOfDay(arrival) - MinutesOfDay(departure)
            <==> arrival.minute >= departure.minute
  {
  }

  /** An overnight flight from 22:20 to 01:10 next day (2 h 50 min) reads as 21 h 10 min. */
  lemma OvernightFlight()
    ensures var departure := At(DateTime(2019, 3, 24, 22, 20));
            var arrival := At(DateTime(2019, 3, 25, 1, 10));
            && DurationHours(departure, arrival) == Int(21)
            && DurationMinutes(departure, arrival) == Int(10)
  {
  }
}
