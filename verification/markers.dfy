/**
  The marker layer of the price map: one marker per row, placed at the row's
  coordinates, with the row's postal address as its tooltip, added one by one
  to a marker cluster.
 */
module Markers {
  import opened Wrappers
  import opened Decimal
  import opened Transactions

  /** The street number as text: `str(int(No voie))`, or "" when that fails. */
  function NumberText(n: Option<int>): (s: string)
    ensures s == "" <==> n.None?
    ensures n.Some? ==> ParseDecimal(s) == n.value
  {
    match n
    case Some(v) => ParseDecimalText(v); DecimalText(v)
    case None => ""
  }

  /**
    "<number>, <street type> <street name>, <city> <postal code> <country>".
    The text opens with ", " exactly when the street number is missing, and
    otherwise with the number's decimal text.
   */
  function Address(t: Transaction): (a: string)
    ensures (|a| >= 2 && a[..2] == ", ") <==> t.streetNumber.None?
    ensures t.streetNumber.Some? ==> DecimalText(t.streetNumber.value) + ", " <= a
    ensures |t.country| <= |a| && a[|a| - |t.country|..] == t.country
  {
    var a := NumberText(t.streetNumber) + ", " + t.streetType + " " + t.streetName + ", "
             + t.city + " " + t.postalCode + " " + t.country;
    assert a == (NumberText(t.streetNumber) + ", ") + (t.streetType + " " + t.streetName + ", "
             + t.city + " " + t.postalCode + " " + t.country);
    if t.streetNumber.Some? then
      var d := DecimalText(t.streetNumber.value);
      assert d[0] in d && a[0] == d[0];
      a
    else
      a
  }

  /** The text before the first comma (all of it when there is none). */
  function LeadingField(a: string): (f: string)
    ensures f <= a && ',' !in f
  {
    if a == [] || a[0] == ',' then [] else [a[0]] + LeadingField(a[1..])
  }

  /** The street number an address starts with, read back from its text. */
  function StreetNumberOf(a: string): Option<int>
  {
    var f := LeadingField(a);
    if f == [] then None else Some(ParseDecimal(f))
  }

  lemma {:induction false} LeadingFieldOfJoin(x: string, y: string)
    requires ',' !in x && |y| > 0 && y[0] == ','
    ensures LeadingField(x + y) == x
  {
    if x != [] {
      assert (x + y)[1..] == x[1..] + y;
      LeadingFieldOfJoin(x[1..], y);
    }
  }

  /** Round trip: the street number can be read back from the tooltip text. */
  lemma AddressNumberRoundTrip(t: Transaction)
    ensures StreetNumberOf(Address(t)) == t.streetNumber
  {
    var a := Address(t);
    var rest := a[|NumberText(t.streetNumber)|..];
    assert a == NumberText(t.streetNumber) + rest;
    LeadingFieldOfJoin(NumberText(t.streetNumber), rest);
    if t.streetNumber.Some? {
      ParseDecimalText(t.streetNumber.value);
    }
  }

  /** A map marker: its position and its tooltip text. */
  datatype Marker = Marker(lat: real, lon: Option<real>, tooltip: string)

  function RowMarker(t: Transaction): Marker
    requires HasLatitude(t)
  {
    Marker(t.latitude.value, t.longitude, Address(t))
  }

  /** The markers the map loop produces for `rows`, in row order. */
  function MarkersOf(rows: seq<Transaction>): seq<Marker>
    requires AllLocated(rows)
  {
    seq(|rows|, i requires 0 <= i < |rows| => RowMarker(rows[i]))
  }

  /**
    One marker per row, in row order, at the row's coordinates, whose
    tooltip is the row's address and gives back the row's street number.
   */
  lemma MarkersFollowRows(rows: seq<Transaction>)
    requires AllLocated(rows)
    ensures |MarkersOf(rows)| == |rows|
    ensures forall k :: 0 <= k < |rows| ==>
      && Some(MarkersOf(rows)[k].lat) == rows[k].latitude
      && MarkersOf(rows)[k].lon == rows[k].longitude
      && MarkersOf(rows)[k].tooltip == Address(rows[k])
      && StreetNumberOf(MarkersOf(rows)[k].tooltip) == rows[k].streetNumber
  {
    forall k | 0 <= k < |rows|
      ensures Some(MarkersOf(rows)[k].lat) == rows[k].latitude
      ensures StreetNumberOf(MarkersOf(rows)[k].tooltip) == rows[k].streetNumber
    {
      assert rows[k] in rows;
      AddressNumberRoundTrip(rows[k]);
    }
  }

  /** `plugins.MarkerCluster`: markers are appended to it in place. */
  class MarkerCluster {
    var markers: seq<Marker>

    constructor ()
      ensures markers == []
    {
      markers := [];
    }

    /** `marker.add_to(cluster)` */
    method Add(m: Marker)
      modifies this
      ensures markers == old(markers) + [m]
    {
      markers := markers + [m];
    }
  }

  /** The loop over the filtered rows that adds each row's marker to the cluster. */
  method AddRowMarkers(rows: seq<Transaction>, cluster: MarkerCluster)
    requires AllLocated(rows)
    modifies cluster
    ensures cluster.markers == old(cluster.markers) + MarkersOf(rows)
  {
    for i := 0 to |rows|
      invariant cluster.markers == old(cluster.markers) + MarkersOf(rows[..i])
    {
      assert rows[i] in rows;
      cluster.Add(RowMarker(rows[i]));
      assert MarkersOf(rows[..i + 1]) == MarkersOf(rows[..i]) + [RowMarker(rows[i])];
    }
    assert rows[..|rows|] == rows;
  }
}
