# Flight-price feature encoder

A model of the feature encoder of a small Flask application that predicts
airline ticket prices. The `/predict` handler takes six form fields:

- the departure time and the arrival time, as `YYYY-MM-DDTHH:MM`;
- the number of stops;
- the airline;
- the source city;
- the destination city.

It turns them into a numeric vector for a pre-trained regression model. The vector
has nine numeric columns, then an 11-column airline block, a 4-column source block
and the destination block. The nine numeric columns are:

- the stop count;
- the journey day and month;
- the departure hour and minute;
- the arrival hour and minute;
- the duration hours and minutes.

The encoder is pure, so the model is made of functions and lemmas:

| module | file | what it models |
|---|---|---|
| `Wrappers` | wrappers.dfy | `Option` and `Result` for parse failures and errors |
| `Digits` | digits.dfy | ASCII digits |
| `Timestamp` | timestamp.dfy | the `%Y-%m-%dT%H:%M` parser: a fixed 16-character shape read digit by digit, with Gregorian range checks (the date-time of section 5.6 of RFC 3339 without seconds or offset); the texts pandas reads as NaT and the texts "now" and "today" it reads as the clock time; fields that are NaN for NaT |
| `IntParse` | int_parse.dfy | Python's `int()` on a string: outer whitespace (ASCII tab, line feed, vertical tab, form feed, carriage return and space, and the non-ASCII Unicode whitespace characters), one optional sign, digits with single underscores between them |
| `OneHot` | one_hot.dfy | `dict.get` with a default, the indicator vector over an ordered category list, counting ones |
| `Categories` | categories.dfy | the airline, source and destination dictionaries, proved equal to indicators over their ordered keys |
| `Duration` | duration.dfy | the duration rule: the absolute difference of the hour fields and, separately, of the minute fields, NaN when either time is NaT |
| `Features` | features.dfy | the parse order, the column layout, the whole encoder and the form-level entry point |

Some things the model states:

- A departure or arrival time that does not parse, or a stop count that `int()`
  rejects, gives an error instead of a vector. The first bad field in handler
  order is the one reported.
- A time field of `now` or `today` is not an error either: pandas reads it as
  the current clock time, which the model takes as a parameter.
- An empty time field, or one spelled `NaT`, `nat`, `NAT`, `nan`, `NaN` or
  `NAN`, is not an error: pandas reads it as NaT. The columns taken from that
  time, and both duration columns, are then NaN. The handler moves on to the next
  field, so a departure of `nan` with a stop count of `x` reports the stop count.
- The departure year and the whole arrival date are read but never reach the
  vector.
- The duration is not the elapsed time. An overnight flight from 22:20 to 01:10
  reads as 21 h 10 min. A same-day flight from 10:50 to 11:10 reads as 1 h 40 min.
- The stop count is any integer that `int()` accepts, negative ones included.

As the handler is written, an unlisted destination gets a 5-wide block of zeros,
but every listed destination gets a 4-wide row. The vector is therefore 29 long
for an unlisted destination and 28 long for a listed one (see Findings).
`Features.EncodeFeaturesAsWritten` models the code as written.
`Features.EncodeFeatures` uses a 4-wide default and always gives 28 columns. The
form-level encoders come in the same two forms: `Features.EncodeFormAsWritten`
and `Features.EncodeForm`.

## Model

| member | source | states |
|---|---|---|
| `Timestamp.DaysInMonth` | app.py:23-26 | month lengths of the Gregorian calendar: 28 exactly for February of a common year, 29 exactly for February of a leap year, 30 exactly for April, June, September and November, 31 exactly for the seven long months |
| `Timestamp.Parse` | app.py:23-31 | a string that parses has 16 characters, and its month is 1..12, its day 1..31, its hour 0..23 and its minute 0..59 |
| `Timestamp.ParseFormat` | app.py:23-31 | every valid calendar date-time is read back from its zero-padded text, so the parser rejects no valid date-time |
| `Timestamp.FormatParse` | app.py:23-31 | every string that parses is exactly the text of the date-time it parses to, so the parser accepts nothing beyond the fixed shape |
| `Timestamp.ParseStamp` | app.py:23-31 | a time field gives NaT exactly for the empty text and the six NaT/NaN spellings; it gives a valid date-time exactly for "now" and "today" (the clock reading) and for the texts the strict parser accepts (their date-time); it is an error otherwise |
| `IntParse.ParseInt` | app.py:38 | an empty or all-whitespace stop count is an error, and only an explicit minus sign gives a negative number |
| `IntParse.Strip` | app.py:38 | what `int()` keeps after stripping neither starts nor ends with whitespace |
| `IntParse.StripSplit` | app.py:38 | every string is leading whitespace, then the stripped core, then trailing whitespace, so stripping removes only whitespace |
| `IntParse.ParseShow` | app.py:38 | `int(str(i)) == i` for every integer, negative ones included |
| `IntParse.ParseIgnoresSurroundingSpace` | app.py:38 | whitespace around the stop count never changes the number read, nor whether reading fails |
| `IntParse.ParseAlphabet` | app.py:38 | a stop count that parses holds only whitespace, signs, digits and underscores, so "2.0" or "two" is an error |
| `OneHot.Zeros` | app.py:75-77 | the lookup default `[0] * n` has n entries, all zero |
| `OneHot.IndicatorIsOneHot` | app.py:42-69 | over distinct categories, a listed key's indicator has exactly one 1 and any other key's has none |
| `Categories.AirlineBlock` | app.py:42-54 | the airline lookup with its 11-zero default equals the indicator of the airline over the ordered list of the 11 airlines |
| `Categories.AirlineOneHot` | app.py:75 | the airline block has 11 columns: exactly one 1 for a listed airline, all zeros for any other string |
| `Categories.AirlineBlockInjective` | app.py:43-53 | distinct listed airlines give distinct blocks |
| `Categories.SourceBlock` | app.py:56-61 | the source lookup with its 4-zero default equals the indicator over Delhi, Kolkata, Mumbai, Chennai |
| `Categories.SourceOneHot` | app.py:76 | the source block has 4 columns: one 1 for a listed city, zeros otherwise |
| `Categories.SourceBlockInjective` | app.py:57-60 | distinct listed source cities give distinct blocks |
| `Categories.DestinationBlockAsWritten` | app.py:77 | a destination in the table gets its 4-wide indicator row; any other string gets 5 zeros |
| `Categories.DestinationBlock` | app.py:63-69 | the destination lookup with a 4-zero default equals the indicator over Cochin, Delhi, Hyderabad, Kolkata, so "Banglore" and unlisted strings give 4 zeros |
| `Categories.DestinationOneHot` | app.py:63-69 | the destination block has 4 columns: one 1 for the four cities that own a column, none for "Banglore" or anything else |
| `Categories.DestinationBlockInjective` | app.py:64-67 | distinct destination cities with a column give distinct blocks |
| `Categories.DestinationAsWrittenVersusFixed` | app.py:63-77 | the handler's destination block equals the 4-wide one on table keys and is one extra zero longer on every other string |
| `Categories.AirlineTableMatchesNames` | app.py:42-54 | the airline table's keys are exactly the 11 listed airlines, each row being the indicator of its key |
| `Categories.SourceTableMatchesNames` | app.py:56-61 | the source table's keys are exactly the 4 listed cities, each row being the indicator of its key |
| `Categories.DestinationTableMatchesNames` | app.py:63-69 | the destination table's keys are the 4 cities with a column plus "Banglore", each row being the indicator of its key |
| `Duration.AbsDiff` | app.py:34-35 | the absolute difference of two fields is NaN exactly when either is NaN, and otherwise a non-negative number equal to one of the two differences |
| `Duration.DurationHours` | app.py:34 | the hour duration is NaN exactly when either time is NaT, and otherwise non-negative |
| `Duration.DurationMinutes` | app.py:35 | the minute duration is NaN exactly when either time is NaT, and otherwise non-negative |
| `Duration.DurationBounds` | app.py:34-35 | for valid times the hour difference is an integer in 0..23 and the minute difference an integer in 0..59 |
| `Duration.DurationSymmetric` | app.py:34-35 | swapping departure and arrival leaves both duration columns unchanged, NaN or not |
| `Duration.DurationIgnoresDates` | app.py:30-35 | the duration depends only on the four time-of-day fields, never on dates, so day rollover is invisible |
| `Duration.DurationVersusElapsed` | app.py:34-35 | for a same-day flight, the rule equals the elapsed minutes exactly when the arrival minute is not below the departure minute |
| `Duration.OvernightFlight` | app.py:34-35 | 22:20 to 01:10 the next day encodes as 21 h 10 min |
| `Features.ParseFields` | app.py:23-38 | when departure, arrival and stop count all parse, each time is NaT exactly when its text is a null text, and otherwise a valid calendar date-time (the clock reading for "now" and "today") |
| `Features.NumericColumns` | app.py:80-82 | the numeric part has nine columns |
| `Features.EncodeClockDeparture` | app.py:23-26 | a departure of "now" or "today" is not an error, and the clock reading's day, month, hour and minute fill the four departure columns |
| `Features.VectorNaN` | app.py:23-84 | in an assembled vector of any destination width, exactly the departure, arrival and duration columns of NaT times are NaN |
| `Features.NumericNaN` | app.py:23-35 | of the nine numeric columns, the four departure fields are NaN exactly when the departure is NaT, the two arrival fields exactly when the arrival is NaT, and the two durations exactly when either is |
| `Features.EncodeFeatures` | app.py:21-84 | a vector is produced exactly when each time parses, is a null text or is "now"/"today", and the stop count parses; it always has 28 columns |
| `Features.EncodeFeaturesAsWritten` | app.py:21-84 | a vector is produced exactly when each time parses, is a null text or is "now"/"today", and the stop count parses; it has 28 columns for a table destination and 29 otherwise |
| `Features.EncodeErrorOrder` | app.py:23-38 | the reported error is that of the first field that is neither parsable, nor null, nor "now"/"today", checked in the order departure, arrival, stops |
| `Features.Vector` | app.py:80-84 | the assembled list has the nine numeric columns, then the airline, source and given destination blocks: 24 columns plus the destination block's width (the contents of each part are stated by `Features.Assembled`, the NaN columns by `Features.VectorNaN`) |
| `Features.Assembled` | app.py:80-84 | the assembled vector holds, in order, the nine numeric fields and then the three blocks, each recoverable by slicing at offsets 9, 20 and 24 |
| `Features.EncodeLayout` | app.py:80-84 | column by column: stops; day, month, hour and minute of departure; hour and minute of arrival; the two durations; then the airline, source and destination indicators |
| `Features.EncodeRanges` | app.py:23-35 | unless NaN: day 1..31, month 1..12, hours 0..23, minutes 0..59, durations within 0..23 and 0..59; every categorical column is the integer 0 or 1 |
| `Features.EncodeNaNColumns` | app.py:23-35 | exactly which columns of a vector are NaN: departure fields for a null departure text, arrival fields for a null arrival text, durations for either; all others are integers |
| `Features.EncodeCategoricalOnes` | app.py:75-84 | the categorical columns hold one 1 for each of: a listed airline, a listed source, a destination with a column |
| `Features.EncodeIgnoresYearAndArrivalDate` | app.py:23-31 | inputs whose parsed fields differ only in departure year or arrival date encode identically |
| `Features.SameCityInBothBlocks` | app.py:56-77 | Delhi or Kolkata as both source and destination sets one column in each block, at its position in each separate list |
| `Features.AsWrittenVersusFixed` | app.py:77-84 | the handler's vector equals the fixed-width one on table destinations and has one extra trailing zero on every other destination; errors are the same |
| `Features.AsWrittenWidthDependsOnDestination` | app.py:63-84 | with all other fields the same and parsable, the handler's vector has 28 columns for "Delhi" and 29 for "New Delhi" |
| `Features.ReadForm` | app.py:22-73 | a reported missing key is really absent, and success means all six keys are present |
| `Features.ReadFormOrder` | app.py:22-73 | the handler's order step by step: Dep_Time is read and parsed, then Arrival_Time, then stops is read and parsed, then airline, Source and Destination are read; the first failing step gives the error, and the form is read exactly when every step succeeds |
| `Features.EncodeForm` | app.py:22-84 | a vector from a form means all six keys were present and has 28 columns; a reported missing key is really absent |
| `Features.EncodeFormAsWritten` | app.py:22-84 | as the handler writes it: a vector means all six keys were present, with 28 columns for a table destination and 29 otherwise |
| `Features.EncodeFormSucceeds` | app.py:22-73 | a form gives a vector exactly when all six keys are present, each time parses, is a null text or is "now"/"today", and the stop count parses |
| `Features.EncodeFormAgrees` | app.py:22-84 | with all six keys present, the form encoder is the encoder on the six submitted values |
| `Features.EncodeFormAsWrittenAgrees` | app.py:22-84 | with all six keys present, the handler's form encoder is the handler's encoder on the six submitted values |
| `Features.EncodeFormMissingDeparture` | app.py:22 | a form without a departure time is reported as missing that key by both form encoders, whatever else it holds |

## Left out

- Flask routing, the GET branch, template rendering, CORS and the server start-up (app.py:1-17, 90-91, 96-97). They are web plumbing with no logic.
- Loading the pickled model and calling `model.predict` with `round` (app.py:7, 87-88). The model is an opaque artefact, and its output is floating point. Whether it accepts 28 or 29 columns, or a vector with NaN columns, cannot be decided from the code.
- The text of the error message (`"Error: "` followed by the exception text, app.py:93-94). The model keeps only the kind of error (`Features.Error`), because the text comes from pandas, Werkzeug and Python.
- The clock. Its reading is the parameter `now` of `Timestamp.ParseStamp` and of the encoders. Whether pandas reads local or UTC time for "now" depends on its version.
- The handler reads the departure text four times and the arrival text twice (app.py:23-26, 30-31); the model reads each once, with one clock reading for all. For a date-time text or a null text the readings agree. For "now" and "today" each reading takes the clock again, so near a minute, hour or day boundary the handler's fields may come from different instants; the model does not capture this.
- `Timestamp.Parse` accepts exactly the zero-padded `YYYY-MM-DDTHH:MM` text with ASCII digits and an upper-case `T`, for years 1 to 9999. The repository pins no pandas version, and what pandas accepts differs by version, as the next four lines say.
- `Timestamp.Parse` is stricter than pandas 2.x. There, a text that fails the exact ISO reading is matched against Python's `strptime` pattern for the format, which ignores case and accepts unpadded fields and non-ASCII decimal digits. So "2019-03-24t22:20", "2019-3-24T22:20" and a year in Arabic-Indic digits are accepted by pandas 2.x and rejected here. Surrounding whitespace is rejected by both.
- `Timestamp.Parse` is stricter than pandas 1.x. There the ISO-like format is set aside for a general ISO 8601 reading, which also accepts "2019-03-24", "2019-03-24 22:20:00" and surrounding whitespace.
- `Timestamp.Parse` is looser than pandas 1.x and 2.x on years. Their nanosecond timestamps only reach from 1677-09-21 00:13 to 2262-04-11 23:47 at minute precision, so "1500-01-01T00:00" parses here and is an error there.
- `Timestamp.Parse` is compared here with pandas 1.x and 2.x only. pandas 3.x is not described; it may store parsed strings at a coarser unit, which would widen its year window.
- `IntParse.ParseInt` accepts only ASCII digits. Python's `int()` also accepts other Unicode decimal digits, such as Arabic-Indic ones.
- `IntParse.ParseInt` does not model the limit on decimal digits that Python 3.11 and later place on `int()` of a string (4300 digits by default, configurable at run time); longer stop counts are an error there. The Python version is not fixed by the repository.
- `IntParse.ParseShow`: `int(str(i)) == i` holds in Python 3.11 and later only for integers of at most 4300 digits, for the same limit.
- `Features.Values` reads a NaN entry as 0. It is used only on the categorical columns, which are never NaN.

## Findings

| source | as written | input that shows it | evidently intended | confidence | as-written member | corrected member |
|---|---|---|---|---|---|---|
| app.py:77 | the default for an unlisted destination is five zeros, while every destination row at app.py:64-68 has four entries | any parsable times and stop count, with destination "Delhi" (28 columns) versus "New Delhi" (29 columns) | a vector of one fixed width for every destination string | not executed; the width mismatch is certain, but which width the trained model expects is not visible in the code | `Features.AsWrittenWidthDependsOnDestination` | `Features.EncodeFeatures` |
