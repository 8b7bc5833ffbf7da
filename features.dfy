/**
 * The feature encoder of the `/predict` handler: six form fields become the
 * numeric vector handed to the price model. Columns, in order:
 *
 *   0       stop count
 *   1..4    journey day, journey month, departure hour, departure minute
 *   5..6    arrival hour, arrival minute
 *   7..8    duration hours, duration minutes
 *   9..19   airline block (11 columns)
 *   20..23  source block (4 columns)
 *   24..    destination block
 *
 * A time field left empty or spelled as NaT or NaN is read as NaT, not as an
 * error; the columns taken from it are then NaN. Every other column is an
 * integer, which is why the vector is a sequence of `Num`. A time field of
 * "now" or "today" is the clock reading, passed in as `now`.
 *
 * EncodeFeaturesAsWritten is the handler as it stands, whose destination block is
 * 4 wide for a listed city and 5 wide otherwise; EncodeFeatures uses a 4-wide
 * block throughout, so that every vector has 28 columns.
 */
module Features {
  import opened Wrappers
  import opened Timestamp
  import opened IntParse
  import opened OneHot
  import opened Categories
  import opened Duration

  /** Why no vector was produced: the handler reports each as an error message instead of a price. */
  datatype Error =
    | MissingField(name: string)
    | BadDeparture
    | BadArrival
    | BadStops

  /** The three fields that must parse. */
  datatype Parsed = Parsed(stops: int, departure: Stamp, arrival: Stamp)

  const AirlineOffset := 9
  const SourceOffset := 20
  const DestinationOffset := 24
  const Width := 28

  /**
   * Departure first, then arrival, then the stop count; the first failure is the
   * one reported. A null time text is not a failure: it gives NaT.
   */
  function ParseFields(departure: string, arrival: string, stops: string, now: Instant): (r: Result<Parsed, Error>)
    ensures r.Success? ==> (r.value.departure.NaT? <==> IsNullText(departure))
    ensures r.Success? ==> (r.value.arrival.NaT? <==> IsNullText(arrival))
    ensures r.Success? && r.value.departure.At? ==> Valid(r.value.departure.time)
    ensures r.Success? && r.value.arrival.At? ==> Valid(r.value.arrival.time)
  {
    match ParseStamp(departure, now)
    case None => Failure(BadDeparture)
    case Some(dep) =>
      match ParseStamp(arrival, now)
      case None => Failure(BadArrival)
      case Some(arr) =>
        match ParseInt(stops)
        case None => Failure(BadStops)
        case Some(n) => Success(Parsed(n, dep, arr))
  }

  /** Integer columns as vector entries. */
  function Ints(v: seq<int>): (r: seq<Num>)
    ensures |r| == |v| && forall i | 0 <= i < |v| :: r[i] == Int(v[i])
  {
    seq(|v|, i requires 0 <= i < |v| => Int(v[i]))
  }

  /** The integers held by vector entries, with 0 standing for NaN. */
  function Values(v: seq<Num>): (r: seq<int>)
    ensures |r| == |v|
  {
    seq(|v|, i requires 0 <= i < |v| => if v[i].Int? then v[i].value else 0)
  }

  lemma ValuesOfInts(v: seq<int>)
    ensures Values(Ints(v)) == v
  {
  }

  lemma IntsConcat(x: seq<int>, y: seq<int>)
    ensures Ints(x + y) == Ints(x) + Ints(y)
  {
  }

  /** The nine numeric columns. The departure year and the arrival date are read but not used. */
  function NumericColumns(p: Parsed): (v: seq<Num>)
    ensures |v| == AirlineOffset
  {
    [ Int(p.stops), Day(p.departure), Month(p.departure), Hour(p.departure), Minute(p.departure),
      Hour(p.arrival), Minute(p.arrival),
      DurationHours(p.departure, p.arrival), DurationMinutes(p.departure, p.arrival) ]
  }

  /** The vector for parsed fields, the airline and source names and a destination block. */
  function Vector(p: Parsed, airline: string, source: string, destination: seq<int>): (v: seq<Num>)
    ensures |v| == DestinationOffset + |destination|
  {
    NumericColumns(p) + Ints(AirlineBlock(airline) + SourceBlock(source) + destination)
  }

  /** The encoder with a destination block as wide as the destination table's rows. */
  function EncodeFeatures(departure: string, arrival: string, stops: string,
                          airline: string, source: string, destination: string, now: Instant): (r: Result<seq<Num>, Error>)
    ensures r.Success? <==> ParseStamp(departure, now).Some? && ParseStamp(arrival, now).Some? && ParseInt(stops).Some?
    ensures r.Success? ==> |r.value| == Width
  {
    match ParseFields(departure, arrival, stops, now)
    case Failure(e) => Failure(e)
    case Success(p) => Success(Vector(p, airline, source, DestinationBlock(destination)))
  }

  /** The encoder as the handler writes it: an unlisted destination gives a 5-wide block of zeros. */
  function EncodeFeaturesAsWritten(departure: string, arrival: string, stops: string,
                                   airline: string, source: string, destination: string, now: Instant): (r: Result<seq<Num>, Error>)
    ensures r.Success? <==> ParseStamp(departure, now).Some? && ParseStamp(arrival, now).Some? && ParseInt(stops).Some?
    ensures r.Success? ==> |r.value| == if destination in DestinationTable then Width else Width + 1
  {
    match ParseFields(departure, arrival, stops, now)
    case Failure(e) => Failure(e)
    case Success(p) => Success(Vector(p, airline, source, DestinationBlockAsWritten(destination)))
  }

  /**
   * The error reported is that of the first field, in handler order, that does not
   * parse; a null time text is not an error, so the handler moves on past it.
   */
  lemma EncodeErrorOrder(departure: string, arrival: string, stops: string,
                         airline: string, source: string, destination: string, now: Instant)
    ensures var r := EncodeFeatures(departure, arrival, stops, airline, source, destination, now);
            && (ParseStamp(departure, now).None? ==> r == Failure(BadDeparture))
            && (ParseStamp(departure, now).Some? && ParseStamp(arrival, now).None? ==> r == Failure(BadArrival))
            && (ParseStamp(departure, now).Some? && ParseStamp(arrival, now).Some? && ParseInt(stops).None? ==>
                  r == Failure(BadStops))
  {
  }

  /** What each column holds, in terms of the parsed fields and the category lists. */
  lemma EncodeLayout(departure: string, arrival: string, stops: string,
                     airline: string, source: string, destination: string, now: Instant)
    requires EncodeFeatures(departure, arrival, stops, airline, source, destination, now).Success?
    ensures var v := EncodeFeatures(departure, arrival, stops, airline, source, destination, now).value;
            var dep := ParseStamp(departure, now).value;
            var arr := ParseStamp(arrival, now).value;
            && |v| == Width
            && v[0] == Int(ParseInt(stops).value)
            && v[1] == Day(dep) && v[2] == Month(dep) && v[3] == Hour(dep) && v[4] == Minute(dep)
            && v[5] == Hour(arr) && v[6] == Minute(arr)
            && v[7] == AbsDiff(Hour(arr), Hour(dep)) && v[8] == AbsDiff(Minute(arr), Minute(dep))
            && v[AirlineOffset..SourceOffset] == Ints(Indicator(AirlineNames, airline))
            && v[SourceOffset..DestinationOffset] == Ints(Indicator(SourceNames, source))
            && v[DestinationOffset..] == Ints(Indicator(DestinationNames, destination))
  {
    var p := ParseFields(departure, arrival, stops, now).value;
    var a, s, d := AirlineBlock(airline), SourceBlock(source), DestinationBlock(destination);
    Assembled(p, a, s, d);
  }

  /** The columns of an assembled vector, part by part. */
  lemma Assembled(p: Parsed, a: seq<int>, s: seq<int>, d: seq<int>)
    requires |a| == SourceOffset - AirlineOffset && |s| == DestinationOffset - SourceOffset
    ensures var v := NumericColumns(p) + Ints(a + s + d);
            && v[0] == Int(p.stops)
            && v[1] == Day(p.departure) && v[2] == Month(p.departure)
            && v[3] == Hour(p.departure) && v[4] == Minute(p.departure)
            && v[5] == Hour(p.arrival) && v[6] == Minute(p.arrival)
            && v[7] == DurationHours(p.departure, p.arrival)
            && v[8] == DurationMinutes(p.departure, p.arrival)
            && v[AirlineOffset..] == Ints(a + s + d)
            && v[AirlineOffset..SourceOffset] == Ints(a)
            && v[SourceOffset..DestinationOffset] == Ints(s)
            && v[DestinationOffset..] == Ints(d)
  {
    IntsConcat(a + s, d);
    IntsConcat(a, s);
    BlocksOfConcat(NumericColumns(p), Ints(a), Ints(s), Ints(d));
  }

  /** Cutting a concatenation of the four parts at the block offsets gives the parts back. */
  lemma BlocksOfConcat(head: seq<Num>, a: seq<Num>, s: seq<Num>, d: seq<Num>)
    requires |head| == AirlineOffset && |a| == SourceOffset - AirlineOffset
    requires |s| == DestinationOffset - SourceOffset
    ensures var v := head + (a + s + d);
            && v[..AirlineOffset] == head
            && v[AirlineOffset..] == a + s + d
            && v[AirlineOffset..SourceOffset] == a
            && v[SourceOffset..DestinationOffset] == s
            && v[DestinationOffset..] == d
  {
  }

  /** A field that is NaN or an integer within the given bounds. */
  predicate NaNOrWithin(x: Num, lo: int, hi: int) {
    x.NaN? || lo <= x.value <= hi
  }

  /**
   * Ranges of the columns: calendar and clock fields and durations are within
   * their bounds unless NaN, and every categorical column is the integer 0 or 1.
   */
  lemma EncodeRanges(departure: string, arrival: string, stops: string,
                     airline: string, source: string, destination: string, now: Instant)
    requires EncodeFeatures(departure, arrival, stops, airline, source, destination, now).Success?
    ensures var v := EncodeFeatures(departure, arrival, stops, airline, source, destination, now).value;
            && NaNOrWithin(v[1], 1, 31) && NaNOrWithin(v[2], 1, 12)
            && NaNOrWithin(v[3], 0, 23) && NaNOrWithin(v[4], 0, 59)
            && NaNOrWithin(v[5], 0, 23) && NaNOrWithin(v[6], 0, 59)
            && NaNOrWithin(v[7], 0, 23) && NaNOrWithin(v[8], 0, 59)
            && forall j | AirlineOffset <= j < Width :: v[j] == Int(0) || v[j] == Int(1)
  {
    var p := ParseFields(departure, arrival, stops, now).value;
    if p.departure.At? && p.arrival.At? {
      DurationBounds(p.departure.time, p.arrival.time);
    }
    var a, s, d := AirlineBlock(airline), SourceBlock(source), DestinationBlock(destination);
    Assembled(p, a, s, d);
    CategoricalBits(a, s, d);
  }

  /** Indicator blocks laid end to end give 0/1 entries only. */
  lemma CategoricalBits(a: seq<int>, s: seq<int>, d: seq<int>)
    requires forall j | 0 <= j < |a| :: a[j] == 0 || a[j] == 1
    requires forall j | 0 <= j < |s| :: s[j] == 0 || s[j] == 1
    requires forall j | 0 <= j < |d| :: d[j] == 0 || d[j] == 1
    ensures var c := Ints(a + s + d);
            forall j | 0 <= j < |c| :: c[j] == Int(0) || c[j] == Int(1)
  {
  }

  /**
   * A departure of "now" or "today" is the clock reading: its day, month, hour
   * and minute fill the four departure columns.
   */
  lemma EncodeClockDeparture(departure: string, arrival: string, stops: string,
                             airline: string, source: string, destination: string, now: Instant)
    requires IsClockText(departure)
    requires ParseStamp(arrival, now).Some? && ParseInt(stops).Some?
    ensures EncodeFeatures(departure, arrival, stops, airline, source, destination, now).Success?
    ensures var v := EncodeFeatures(departure, arrival, stops, airline, source, destination, now).value;
            v[1..5] == [Int(now.day), Int(now.month), Int(now.hour), Int(now.minute)]
  {
    EncodeLayout(departure, arrival, stops, airline, source, destination, now);
  }

  /**
   * Exactly which columns are NaN: the four departure fields when the departure
   * is a null text, the two arrival fields when the arrival is, and both
   * durations when either is. Every other column is an integer.
   */
  lemma EncodeNaNColumns(departure: string, arrival: string, stops: string,
                         airline: string, source: string, destination: string, now: Instant)
    requires EncodeFeatures(departure, arrival, stops, airline, source, destination, now).Success?
    ensures var v := EncodeFeatures(departure, arrival, stops, airline, source, destination, now).value;
            forall i | 0 <= i < Width ::
              v[i].NaN? <==> || (1 <= i <= 4 && IsNullText(departure))
                             || (5 <= i <= 6 && IsNullText(arrival))
                             || (7 <= i <= 8 && (IsNullText(departure) || IsNullText(arrival)))
  {
    var p := ParseFields(departure, arrival, stops, now).value;
    VectorNaN(p, airline, source, DestinationBlock(destination));
  }

  /** Which columns of an assembled vector are NaN, in terms of which times are NaT. */
  lemma VectorNaN(p: Parsed, airline: string, source: string, destination: seq<int>)
    ensures var v := Vector(p, airline, source, destination);
            forall i | 0 <= i < |v| ::
              v[i].NaN? <==> || (1 <= i <= 4 && p.departure.NaT?)
                             || (5 <= i <= 6 && p.arrival.NaT?)
                             || (7 <= i <= 8 && (p.departure.NaT? || p.arrival.NaT?))
  {
    var head := NumericColumns(p);
    var c := Ints(AirlineBlock(airline) + SourceBlock(source) + destination);
    NumericNaN(p);
    forall i | 0 <= i < |head + c|
      ensures (head + c)[i] == if i < AirlineOffset then head[i] else c[i - AirlineOffset]
    {
    }
  }

  /** Which of the nine numeric columns are NaN, in terms of which times are NaT. */
  lemma NumericNaN(p: Parsed)
    ensures var v := NumericColumns(p);
            forall i | 0 <= i < AirlineOffset ::
              v[i].NaN? <==> || (1 <= i <= 4 && p.departure.NaT?)
                             || (5 <= i <= 6 && p.arrival.NaT?)
                             || (7 <= i <= 8 && (p.departure.NaT? || p.arrival.NaT?))
  {
  }

  /**
   * The categorical columns hold one 1 for a known airline, one for a known
   * source and one for a destination with a column, and nothing else.
   */
  lemma EncodeCategoricalOnes(departure: string, arrival: string, stops: string,
                              airline: string, source: string, destination: string, now: Instant)
    requires EncodeFeatures(departure, arrival, stops, airline, source, destination, now).Success?
    ensures var v := EncodeFeatures(departure, arrival, stops, airline, source, destination, now).value;
            CountOnes(Values(v[AirlineOffset..])) ==
              (if airline in AirlineTable then 1 else 0)
              + (if source in SourceTable then 1 else 0)
              + (if destination in DestinationNames then 1 else 0)
  {
    var p := ParseFields(departure, arrival, stops, now).value;
    var a, s, d := AirlineBlock(airline), SourceBlock(source), DestinationBlock(destination);
    Assembled(p, a, s, d);
    ValuesOfInts(a + s + d);
    CountOnesAppend(a + s, d);
    CountOnesAppend(a, s);
    AirlineOneHot(airline);
    SourceOneHot(source);
    DestinationOneHot(destination);
  }

  /**
   * The departure year and the whole arrival date never reach the vector: two
   * inputs whose parsed fields differ only there encode identically.
   */
  lemma EncodeIgnoresYearAndArrivalDate(dep1: string, arr1: string, dep2: string, arr2: string,
                                        stops: string, airline: string, source: string, destination: string, now: Instant)
    requires Parse(dep1).Some? && Parse(dep2).Some? && Parse(arr1).Some? && Parse(arr2).Some?
    requires var d1, d2 := Parse(dep1).value, Parse(dep2).value;
             d1.month == d2.month && d1.day == d2.day && d1.hour == d2.hour && d1.minute == d2.minute
    requires var a1, a2 := Parse(arr1).value, Parse(arr2).value;
             a1.hour == a2.hour && a1.minute == a2.minute
    ensures EncodeFeatures(dep1, arr1, stops, airline, source, destination, now)
         == EncodeFeatures(dep2, arr2, stops, airline, source, destination, now)
  {
    var r1 := ParseFields(dep1, arr1, stops, now);
    var r2 := ParseFields(dep2, arr2, stops, now);
    if r1.Success? {
      assert NumericColumns(r1.value) == NumericColumns(r2.value);
    }
  }

  /**
   * Source and destination are looked up in separate tables: the same city as
   * both sets one column in each block, at the city's own position in each list.
   */
  lemma SameCityInBothBlocks(departure: string, arrival: string, stops: string, airline: string, now: Instant)
    requires EncodeFeatures(departure, arrival, stops, airline, "Delhi", "Delhi", now).Success?
    ensures var v := EncodeFeatures(departure, arrival, stops, airline, "Delhi", "Delhi", now).value;
            && v[SourceOffset..DestinationOffset] == [Int(1), Int(0), Int(0), Int(0)]
            && v[DestinationOffset..] == [Int(0), Int(1), Int(0), Int(0)]
    ensures var v := EncodeFeatures(departure, arrival, stops, airline, "Kolkata", "Kolkata", now).value;
            && v[SourceOffset..DestinationOffset] == [Int(0), Int(1), Int(0), Int(0)]
            && v[DestinationOffset..] == [Int(0), Int(0), Int(0), Int(1)]
  {
    EncodeLayout(departure, arrival, stops, airline, "Delhi", "Delhi", now);
    EncodeLayout(departure, arrival, stops, airline, "Kolkata", "Kolkata", now);
    CityRow(SourceNames, "Delhi", [1, 0, 0, 0]);
    CityRow(DestinationNames, "Delhi", [0, 1, 0, 0]);
    CityRow(SourceNames, "Kolkata", [0, 1, 0, 0]);
    CityRow(DestinationNames, "Kolkata", [0, 0, 0, 1]);
  }

  /** A city's indicator over a four-city list, as vector entries. */
  lemma CityRow(names: seq<string>, city: string, row: seq<int>)
    requires |names| == 4 && |row| == 4
    requires forall i | 0 <= i < 4 :: row[i] == if names[i] == city then 1 else 0
    ensures Ints(Indicator(names, city)) == [Int(row[0]), Int(row[1]), Int(row[2]), Int(row[3])]
  {
  }

  /**
   * The handler's encoder agrees with the fixed-width one on every listed
   * destination and appends one extra zero column for any other.
   */
  lemma AsWrittenVersusFixed(departure: string, arrival: string, stops: string,
                             airline: string, source: string, destination: string, now: Instant)
    ensures var fixed := EncodeFeatures(departure, arrival, stops, airline, source, destination, now);
            var written := EncodeFeaturesAsWritten(departure, arrival, stops, airline, source, destination, now);
            && (fixed.Failure? ==> written == fixed)
            && (fixed.Success? && destination in DestinationTable ==> written == fixed)
            && (fixed.Success? && destination !in DestinationTable ==> written == Success(fixed.value + [Int(0)]))
  {
    DestinationAsWrittenVersusFixed(destination);
    var r := ParseFields(departure, arrival, stops, now);
    if r.Success? && destination !in DestinationTable {
      var front := AirlineBlock(airline) + SourceBlock(source);
      var d := DestinationBlock(destination);
      var head := NumericColumns(r.value);
      assert front + (d + [0]) == (front + d) + [0];
      IntsConcat(front + d, [0]);
      assert Ints([0]) == [Int(0)];
      assert head + (Ints(front + d) + [Int(0)]) == (head + Ints(front + d)) + [Int(0)];
    }
  }

  /**
   * The width of the handler's vector depends on the destination string: for the
   * same other fields, "Delhi" gives 28 columns and "New Delhi" gives 29.
   */
  lemma AsWrittenWidthDependsOnDestination(departure: string, arrival: string, stops: string,
                                           airline: string, source: string, now: Instant)
    requires EncodeFeaturesAsWritten(departure, arrival, stops, airline, source, "Delhi", now).Success?
    ensures |EncodeFeaturesAsWritten(departure, arrival, stops, airline, source, "Delhi", now).value| == 28
    ensures |EncodeFeaturesAsWritten(departure, arrival, stops, airline, source, "New Delhi", now).value| == 29
  {
  }

  /** The six keys the handler reads from the form. */
  predicate HasAllKeys(form: map<string, string>) {
    && "Dep_Time" in form && "Arrival_Time" in form && "stops" in form
    && "airline" in form && "Source" in form && "Destination" in form
  }

  /** The parsed fields and the three category names read from a form. */
  datatype FormFields = FormFields(parsed: Parsed, airline: string, source: string, destination: string)

  /**
   * Reads and checks the form's fields in handler order: a missing key is an
   * error like a malformed value, and names the key that is missing.
   */
  function ReadForm(form: map<string, string>, now: Instant): (r: Result<FormFields, Error>)
    ensures r.Failure? && r.error.MissingField? ==> r.error.name !in form
    ensures r.Success? ==> HasAllKeys(form)
  {
    if "Dep_Time" !in form then Failure(MissingField("Dep_Time"))
    else if ParseStamp(form["Dep_Time"], now).None? then Failure(BadDeparture)
    else if "Arrival_Time" !in form then Failure(MissingField("Arrival_Time"))
    else if ParseStamp(form["Arrival_Time"], now).None? then Failure(BadArrival)
    else if "stops" !in form then Failure(MissingField("stops"))
    else if ParseInt(form["stops"]).None? then Failure(BadStops)
    else if "airline" !in form then Failure(MissingField("airline"))
    else if "Source" !in form then Failure(MissingField("Source"))
    else if "Destination" !in form then Failure(MissingField("Destination"))
    else
      var p := Parsed(ParseInt(form["stops"]).value,
                      ParseStamp(form["Dep_Time"], now).value, ParseStamp(form["Arrival_Time"], now).value);
      Success(FormFields(p, form["airline"], form["Source"], form["Destination"]))
  }

  /**
   * The handler's order, step by step: each key is read, and each time and the
   * stop count are parsed right after their key is read; the first step that
   * fails gives the error.
   */
  lemma ReadFormOrder(form: map<string, string>, now: Instant)
    ensures var r := ReadForm(form, now);
            var depOk := "Dep_Time" in form && ParseStamp(form["Dep_Time"], now).Some?;
            var arrOk := depOk && "Arrival_Time" in form && ParseStamp(form["Arrival_Time"], now).Some?;
            var stopsOk := arrOk && "stops" in form && ParseInt(form["stops"]).Some?;
            && ("Dep_Time" !in form ==> r == Failure(MissingField("Dep_Time")))
            && ("Dep_Time" in form && !depOk ==> r == Failure(BadDeparture))
            && (depOk && "Arrival_Time" !in form ==> r == Failure(MissingField("Arrival_Time")))
            && (depOk && "Arrival_Time" in form && !arrOk ==> r == Failure(BadArrival))
            && (arrOk && "stops" !in form ==> r == Failure(MissingField("stops")))
            && (arrOk && "stops" in form && !stopsOk ==> r == Failure(BadStops))
            && (stopsOk && "airline" !in form ==> r == Failure(MissingField("airline")))
            && (stopsOk && "airline" in form && "Source" !in form ==> r == Failure(MissingField("Source")))
            && (stopsOk && "airline" in form && "Source" in form && "Destination" !in form ==>
                  r == Failure(MissingField("Destination")))
            && (r.Success? <==> stopsOk && HasAllKeys(form))
  {
  }

  /** The encoder applied to the submitted form, with the fixed-width destination block. */
  function EncodeForm(form: map<string, string>, now: Instant): (r: Result<seq<Num>, Error>)
    ensures r.Success? ==> HasAllKeys(form) && |r.value| == Width
    ensures r.Failure? && r.error.MissingField? ==> r.error.name !in form
  {
    match ReadForm(form, now)
    case Failure(e) => Failure(e)
    case Success(f) => Success(Vector(f.parsed, f.airline, f.source, DestinationBlock(f.destination)))
  }

  /** The encoder applied to the submitted form as the handler writes it. */
  function EncodeFormAsWritten(form: map<string, string>, now: Instant): (r: Result<seq<Num>, Error>)
    ensures r.Success? ==> HasAllKeys(form)
    ensures r.Success? ==> |r.value| == if form["Destination"] in DestinationTable then Width else Width + 1
    ensures r.Failure? && r.error.MissingField? ==> r.error.name !in form
  {
    match ReadForm(form, now)
    case Failure(e) => Failure(e)
    case Success(f) => Success(Vector(f.parsed, f.airline, f.source, DestinationBlockAsWritten(f.destination)))
  }

  /** A form gives a vector exactly when all six keys are present and both times and the stop count parse. */
  lemma EncodeFormSucceeds(form: map<string, string>, now: Instant)
    ensures EncodeForm(form, now).Success? <==>
              && HasAllKeys(form)
              && ParseStamp(form["Dep_Time"], now).Some? && ParseStamp(form["Arrival_Time"], now).Some?
              && ParseInt(form["stops"]).Some?
  {
  }

  /** With every key present, the form encoder is the encoder on the six submitted values. */
  lemma EncodeFormAgrees(form: map<string, string>, now: Instant)
    requires HasAllKeys(form)
    ensures EncodeForm(form, now) == EncodeFeatures(form["Dep_Time"], form["Arrival_Time"], form["stops"],
                                               form["airline"], form["Source"], form["Destination"], now)
  {
  }

  /** With every key present, the handler's form encoder is the handler's encoder on the six values. */
  lemma EncodeFormAsWrittenAgrees(form: map<string, string>, now: Instant)
    requires HasAllKeys(form)
    ensures EncodeFormAsWritten(form, now)
         == EncodeFeaturesAsWritten(form["Dep_Time"], form["Arrival_Time"], form["stops"],
                                    form["airline"], form["Source"], form["Destination"], now)
  {
  }

  /** A missing departure time is reported before anything else is looked at. */
  lemma EncodeFormMissingDeparture(form: map<string, string>, now: Instant)
    requires "Dep_Time" !in form
    ensures EncodeForm(form, now) == Failure(MissingField("Dep_Time"))
    ensures EncodeFormAsWritten(form, now) == Failure(MissingField("Dep_Time"))
  {
  }
}
