/**
 * The three lookup tables of the encoder: airline (11 columns), source city
 * (4 columns) and destination city (4 columns). Each table is written as the
 * dictionary literal the handler builds; each is proved equal to the indicator
 * over an ordered category list, so a known key sets exactly one column, distinct
 * keys set distinct columns, and an unknown key sets none.
 */
module Categories {
  import opened OneHot

  /** The airlines, in the column order of the airline block. */
  const AirlineNames: seq<string> := [
    "Jet Airways", "IndiGo", "Air India", "Multiple carriers", "SpiceJet", "Vistara",
    "GoAir", "Multiple carriers Premium economy", "Jet Airways Business",
    "Vistara Premium economy", "Trujet"]

  const AirlineTable: map<string, seq<int>> := map[
    "Jet Airways" := [1, 0, 0, 0, 0, 0, 0, 0, 0, 0, 0],
    "IndiGo" := [0, 1, 0, 0, 0, 0, 0, 0, 0, 0, 0],
    "Air India" := [0, 0, 1, 0, 0, 0, 0, 0, 0, 0, 0],
    "Multiple carriers" := [0, 0, 0, 1, 0, 0, 0, 0, 0, 0, 0],
    "SpiceJet" := [0, 0, 0, 0, 1, 0, 0, 0, 0, 0, 0],
    "Vistara" := [0, 0, 0, 0, 0, 1, 0, 0, 0, 0, 0],
    "GoAir" := [0, 0, 0, 0, 0, 0, 1, 0, 0, 0, 0],
    "Multiple carriers Premium economy" := [0, 0, 0, 0, 0, 0, 0, 1, 0, 0, 0],
    "Jet Airways Business" := [0, 0, 0, 0, 0, 0, 0, 0, 1, 0, 0],
    "Vistara Premium economy" := [0, 0, 0, 0, 0, 0, 0, 0, 0, 1, 0],
    "Trujet" := [0, 0, 0, 0, 0, 0, 0, 0, 0, 0, 1]]

  /** The source cities, in the column order of the source block. */
  const SourceNames: seq<string> := ["Delhi", "Kolkata", "Mumbai", "Chennai"]

  const SourceTable: map<string, seq<int>> := map[
    "Delhi" := [1, 0, 0, 0],
    "Kolkata" := [0, 1, 0, 0],
    "Mumbai" := [0, 0, 1, 0],
    "Chennai" := [0, 0, 0, 1]]

  /** The destination cities that own a column, in the column order of the destination block. */
  const DestinationNames: seq<string> := ["Cochin", "Delhi", "Hyderabad", "Kolkata"]

  /** Besides the four cities with a column, "Banglore" (spelled so) is listed with no column set. */
  const DestinationTable: map<string, seq<int>> := map[
    "Cochin" := [1, 0, 0, 0],
    "Delhi" := [0, 1, 0, 0],
    "Hyderabad" := [0, 0, 1, 0],
    "Kolkata" := [0, 0, 0, 1],
    "Banglore" := [0, 0, 0, 0]]

  /** The airline columns: the table row of a known airline, 11 zeros for any other string. */
  function AirlineBlock(airline: string): (v: seq<int>)
    ensures v == Indicator(AirlineNames, airline)
  {
    AirlineTableMatchesNames();
    Get(AirlineTable, airline, Zeros(11))
  }

  /** The source columns: the table row of a known city, 4 zeros for any other string. */
  function SourceBlock(source: string): (v: seq<int>)
    ensures v == Indicator(SourceNames, source)
  {
    SourceTableMatchesNames();
    Get(SourceTable, source, Zeros(4))
  }

  /**
   * The destination columns as the handler computes them: the table row of a
   * listed city (4 entries), but 5 zeros for an unlisted string.
   */
  function DestinationBlockAsWritten(destination: string): (v: seq<int>)
    ensures destination in DestinationTable ==> v == Indicator(DestinationNames, destination)
    ensures destination !in DestinationTable ==> v == Zeros(5)
  {
    DestinationTableMatchesNames();
    Get(DestinationTable, destination, Zeros(5))
  }

  /** The destination columns with a default as wide as the table rows. */
  function DestinationBlock(destination: string): (v: seq<int>)
    ensures v == Indicator(DestinationNames, destination)
  {
    DestinationTableMatchesNames();
    Get(DestinationTable, destination, Zeros(4))
  }

  /** Each airline row is the indicator of its key, and the keys are exactly the listed airlines. */
  lemma AirlineTableMatchesNames()
    ensures forall a | a in AirlineTable :: AirlineTable[a] == Indicator(AirlineNames, a)
    ensures forall a :: a in AirlineTable <==> a in AirlineNames
    ensures Distinct(AirlineNames)
  {
    AirlineNamesDistinct();
    AirlineKeysAreNames();
    forall a | a in AirlineTable
      ensures AirlineTable[a] == Indicator(AirlineNames, a)
    {
      AirlineRow(a);
    }
  }

  lemma AirlineNamesDistinct()
    ensures Distinct(AirlineNames)
  {
  }

  lemma AirlineKeysAreNames()
    ensures forall a :: a in AirlineTable <==> a in AirlineNames
  {
  }

  lemma AirlineRow(a: string)
    requires a in AirlineTable
    ensures AirlineTable[a] == Indicator(AirlineNames, a)
  {
  }

  lemma SourceTableMatchesNames()
    ensures forall s | s in SourceTable :: SourceTable[s] == Indicator(SourceNames, s)
    ensures forall s :: s in SourceTable <==> s in SourceNames
    ensures Distinct(SourceNames)
  {
  }

  /** Every destination row is the indicator of its key; "Banglore" is listed but owns no column. */
  lemma DestinationTableMatchesNames()
    ensures forall d | d in DestinationTable :: DestinationTable[d] == Indicator(DestinationNames, d)
    ensures forall d :: d in DestinationTable <==> d in DestinationNames || d == "Banglore"
    ensures "Banglore" !in DestinationNames
    ensures Distinct(DestinationNames)
  {
  }

  /** A known airline sets exactly one of the 11 columns; any other string sets none. */
  lemma AirlineOneHot(airline: string)
    ensures |AirlineBlock(airline)| == 11
    ensures CountOnes(AirlineBlock(airline)) == (if airline in AirlineTable then 1 else 0)
  {
    AirlineTableMatchesNames();
    IndicatorIsOneHot(AirlineNames, airline);
  }

  /** Distinct known airlines set distinct columns. */
  lemma AirlineBlockInjective(a: string, b: string)
    requires a in AirlineTable && b in AirlineTable && AirlineBlock(a) == AirlineBlock(b)
    ensures a == b
  {
    AirlineTableMatchesNames();
    IndicatorInjective(AirlineNames, a, b);
  }

  /** A known source city sets exactly one of the 4 columns; any other string sets none. */
  lemma SourceOneHot(source: string)
    ensures |SourceBlock(source)| == 4
    ensures CountOnes(SourceBlock(source)) == (if source in SourceTable then 1 else 0)
  {
    SourceTableMatchesNames();
    IndicatorIsOneHot(SourceNames, source);
  }

  /** Distinct known source cities set distinct columns. */
  lemma SourceBlockInjective(a: string, b: string)
    requires a in SourceTable && b in SourceTable && SourceBlock(a) == SourceBlock(b)
    ensures a == b
  {
    SourceTableMatchesNames();
    IndicatorInjective(SourceNames, a, b);
  }

  /**
   * Cochin, Delhi, Hyderabad and Kolkata each set exactly one of the 4 columns;
   * "Banglore" and every unlisted string set none.
   */
  lemma DestinationOneHot(destination: string)
    ensures |DestinationBlock(destination)| == 4
    ensures CountOnes(DestinationBlock(destination)) == (if destination in DestinationNames then 1 else 0)
  {
    DestinationTableMatchesNames();
    IndicatorIsOneHot(DestinationNames, destination);
  }

  /** Distinct destination cities with a column set distinct columns. */
  lemma DestinationBlockInjective(a: string, b: string)
    requires a in DestinationNames && b in DestinationNames && DestinationBlock(a) == DestinationBlock(b)
    ensures a == b
  {
    DestinationTableMatchesNames();
    IndicatorInjective(DestinationNames, a, b);
  }

  /**
   * The handler's destination block agrees with the fixed-width one on every
   * listed city and has one extra zero column on every other string.
   */
  lemma DestinationAsWrittenVersusFixed(destination: string)
    ensures DestinationBlockAsWritten(destination) ==
      if destination in DestinationTable then DestinationBlock(destination)
      else DestinationBlock(destination) + [0]
  {
    if destination !in DestinationTable {
      DestinationTableMatchesNames();
      assert DestinationBlock(destination) == Zeros(4);
    }
  }
}
