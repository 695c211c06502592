/**
  The transaction table of the Reims real-estate dashboard and the pure steps
  that turn the downloaded table into the rows the views show: dropping rows
  without a latitude, selecting rows by year and property type, and the
  100-row table preview.
 */
module Transactions {
  import opened Wrappers
  import opened Selection

  /**
    One row of the table. Text columns hold the text `str` gives for the
    cell; a null cell of a numeric column is `None`.
   */
  datatype Transaction = Transaction(
    year: int,                  // "Annee"
    kind: string,               // "Type local"
    streetNumber: Option<int>,  // "No voie"
    streetType: string,         // "Type de voie"
    streetName: string,         // "Voie"
    city: string,               // "Commune"
    postalCode: string,         // "Code postal"
    country: string,            // "Pays"
    latitude: Option<real>,     // "Latitude"
    longitude: Option<real>)    // "Longitude"

  /** The choices offered by the year multiselect, all selected initially. */
  const YearOptions: set<int> := {2017, 2018, 2019, 2020}

  /** The property types; the type multiselect offers these, all selected initially. */
  const TypeOptions: set<string> := {"Appartement", "Maison"}

  /** Number of rows shown in the table preview. */
  const PreviewRows: nat := 100

  predicate HasLatitude(t: Transaction)
  {
    t.latitude.Some?
  }

  predicate AllLocated(rows: seq<Transaction>)
  {
    forall t :: t in rows ==> HasLatitude(t)
  }

  /** Drops every row whose latitude is null; the longitude is not looked at. */
  function Clean(raw: seq<Transaction>): (rows: seq<Transaction>)
    ensures AllLocated(rows)
    ensures |rows| <= |raw|
    ensures forall t :: t in rows ==> t in raw
    ensures forall t :: t in raw && HasLatitude(t) ==> t in rows
  {
    KeepKeepsMatches(raw, HasLatitude);
    Keep(raw, HasLatitude)
  }

  /** The cleaned table is every located row of the input, in input order. */
  lemma CleanSelectsLocatedRows(raw: seq<Transaction>) returns (idx: seq<nat>)
    ensures SelectsAll(raw, Clean(raw), idx, HasLatitude)
  {
    idx := KeepSelectsAll(raw, HasLatitude);
  }

  /** Every located row survives cleaning, whatever its longitude, null included. */
  lemma CleanIgnoresLongitude(raw: seq<Transaction>, i: int)
    requires 0 <= i < |raw| && raw[i].latitude.Some?
    ensures raw[i] in Clean(raw)
  {
  }

  /** `Annee.isin(years) & Type local.isin(types)` */
  function Matches(years: set<int>, types: set<string>): Transaction -> bool
  {
    (t: Transaction) => t.year in years && t.kind in types
  }

  /** The rows whose year and property type are both selected, in input order. */
  function RowFilter(rows: seq<Transaction>, years: set<int>, types: set<string>): (r: seq<Transaction>)
    ensures |r| <= |rows|
    ensures forall t :: t in r ==> t in rows && t.year in years && t.kind in types
    ensures forall t :: t in rows && t.year in years && t.kind in types ==> t in r
  {
    KeepKeepsMatches(rows, Matches(years, types));
    Keep(rows, Matches(years, types))
  }

  /** Completeness and order of the row filter. */
  lemma RowFilterSelectsMatches(rows: seq<Transaction>, years: set<int>, types: set<string>)
    returns (idx: seq<nat>)
    ensures SelectsAll(rows, RowFilter(rows, years, types), idx, Matches(years, types))
    ensures forall i :: 0 <= i < |rows| && rows[i].year in years && rows[i].kind in types ==> i in idx
  {
    idx := KeepSelectsAll(rows, Matches(years, types));
  }

  /** An empty year or type selection selects nothing, and is not an error. */
  lemma RowFilterEmptySelection(rows: seq<Transaction>, years: set<int>, types: set<string>)
    requires years == {} || types == {}
    ensures RowFilter(rows, years, types) == []
  {
    KeepNone(rows, Matches(years, types));
  }

  /** Filtering twice with the same years is filtering once with the common types. */
  lemma RefilterIsIntersection(rows: seq<Transaction>, years: set<int>, types1: set<string>, types2: set<string>)
    ensures RowFilter(RowFilter(rows, years, types1), years, types2) == RowFilter(rows, years, types1 * types2)
  {
    KeepKeep(rows, Matches(years, types1), Matches(years, types2));
    KeepCongruent(rows, Both(Matches(years, types1), Matches(years, types2)), Matches(years, types1 * types2));
  }

  /**
    The table loads with every property type and is filtered again with the
    selected types; since those are drawn from the same options this is one
    filter by the selection.
   */
  lemma RefilterSelectedTypes(rows: seq<Transaction>, years: set<int>, types: set<string>)
    requires types <= TypeOptions
    ensures RowFilter(RowFilter(rows, years, TypeOptions), years, types) == RowFilter(rows, years, types)
  {
    RefilterIsIntersection(rows, years, TypeOptions, types);
    assert TypeOptions * types == types;
  }

  /** The two frames `load_data` returns: the filtered one and the cleaned full one. */
  datatype Loaded = Loaded(df: seq<Transaction>, df0: seq<Transaction>)

  function LoadData(raw: seq<Transaction>, years: set<int>, types: set<string>): (d: Loaded)
    ensures AllLocated(d.df0) && |d.df0| <= |raw|
    ensures forall t :: t in d.df0 ==> t in raw
    ensures forall t :: t in raw && HasLatitude(t) ==> t in d.df0
    ensures forall t :: t in d.df ==> t in d.df0 && t.year in years && t.kind in types
    ensures forall t :: t in d.df0 && t.year in years && t.kind in types ==> t in d.df
    ensures AllLocated(d.df) && |d.df| <= |d.df0|
  {
    var df0 := Clean(raw);
    Loaded(RowFilter(df0, years, types), df0)
  }

  /**
    Order of the two frames: `df0` is the located rows of the input at
    increasing positions, and `df` the matching rows of `df0` at increasing
    positions.
   */
  lemma LoadDataKeepsOrder(raw: seq<Transaction>, years: set<int>, types: set<string>)
    returns (idx0: seq<nat>, idx: seq<nat>)
    ensures SelectsAll(raw, LoadData(raw, years, types).df0, idx0, HasLatitude)
    ensures SelectsAll(LoadData(raw, years, types).df0, LoadData(raw, years, types).df, idx, Matches(years, types))
  {
    idx0 := CleanSelectsLocatedRows(raw);
    idx := RowFilterSelectsMatches(Clean(raw), years, types);
  }

  /** `head(100)`: the first 100 rows, or all of them when there are fewer. */
  function Preview(rows: seq<Transaction>): (r: seq<Transaction>)
    ensures r <= rows
    ensures |r| == Min(PreviewRows, |rows|)
  {
    Head(rows, PreviewRows)
  }
}
