/**
  Where the price map opens. A point of interest entered by the user centres
  the map and gets one highlighted marker, but only when both of its
  coordinates are non-zero; otherwise the map opens on central Reims.
 */
module MapCentre {
  import opened Wrappers
  import opened Markers

  const DefaultCentre: (real, real) := (49.258329, 4.031696)
  const DefaultZoom: int := 13
  const PointZoom: int := 19
  const PointTooltip: string := "<strong>Votre point d'intérêt</strong>"

  /** The map's opening position and the markers placed on it directly. */
  datatype MapView = MapView(centre: (real, real), zoom: int, highlights: seq<Marker>)

  /**
    The point read from the sidebar: the entered coordinates when the user
    answers that the address is known, and (0, 0) otherwise.
   */
  function SelectedPoint(knowsAddress: bool, lat: real, lon: real): (real, real)
  {
    if knowsAddress then (lat, lon) else (0.0, 0.0)
  }

  function ChooseMapView(lat: real, lon: real): (v: MapView)
    ensures |v.highlights| <= 1
    ensures |v.highlights| == 1 <==> lat != 0.0 && lon != 0.0
    ensures |v.highlights| == 1 ==>
      v.centre == (lat, lon) && v.highlights[0].lat == lat && v.highlights[0].lon == Some(lon)
    ensures v.highlights == [] ==> v.centre == DefaultCentre && v.zoom == DefaultZoom
  {
    if lat != 0.0 && lon != 0.0 then
      MapView((lat, lon), PointZoom, [Marker(lat, Some(lon), PointTooltip)])
    else
      MapView(DefaultCentre, DefaultZoom, [])
  }

  /** A user who does not know the address always gets the default map. */
  lemma UnknownAddressUsesDefault(lat: real, lon: real)
    ensures ChooseMapView(SelectedPoint(false, lat, lon).0, SelectedPoint(false, lat, lon).1)
         == MapView(DefaultCentre, DefaultZoom, [])
  {
  }

  /** A point on the equator or the prime meridian is not used, although the other coordinate is set. */
  lemma OneZeroCoordinateUsesDefault(lat: real, lon: real)
    requires lat == 0.0 || lon == 0.0
    ensures ChooseMapView(lat, lon).centre == DefaultCentre
    ensures ChooseMapView(lat, lon).highlights == []
  {
  }
}
