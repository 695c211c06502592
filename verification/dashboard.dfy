/**
  The dashboard script from loading to the table preview: clean and filter
  the table, choose the map's centre, fill the marker cluster from the rows of
  the selected years whose type is "Appartement" or "Maison" (whatever the type
  selection), filter again by the selected property types and show the first
  rows of the result.
 */
module Dashboard {
  import opened Selection
  import opened Transactions
  import opened Markers
  import opened MapCentre

  /** What the script hands to the map and table renderers. */
  datatype Views = Views(
    mapView: MapView,
    clusterMarkers: seq<Marker>,
    selected: seq<Transaction>,
    preview: seq<Transaction>)

  method RunDashboard(raw: seq<Transaction>, selectedYears: set<int>, selectedTypes: set<string>,
                      knowsAddress: bool, inputLat: real, inputLon: real) returns (v: Views)
    ensures var df := RowFilter(Clean(raw), selectedYears, TypeOptions);
      && v.clusterMarkers == MarkersOf(df)
      && v.selected == RowFilter(Clean(raw), selectedYears, TypeOptions * selectedTypes)
    ensures forall t :: t in v.selected ==>
      t in raw && HasLatitude(t) && t.year in selectedYears && t.kind in selectedTypes
    ensures v.preview <= v.selected && |v.preview| == Min(PreviewRows, |v.selected|)
    ensures var p := SelectedPoint(knowsAddress, inputLat, inputLon); v.mapView == ChooseMapView(p.0, p.1)
  {
    var loaded := LoadData(raw, selectedYears, TypeOptions);
    var df := loaded.df;
    var point := SelectedPoint(knowsAddress, inputLat, inputLon);
    var view := ChooseMapView(point.0, point.1);
    var cluster := new MarkerCluster();
    AddRowMarkers(df, cluster);
    var selected := RowFilter(df, selectedYears, selectedTypes);
    RefilterIsIntersection(Clean(raw), selectedYears, TypeOptions, selectedTypes);
    v := Views(view, cluster.markers, selected, Preview(selected));
  }
}
