/**
 Marker styling: every earthquake is drawn as a circle whose radius and fill
 colour come from its magnitude, while its stroke and opacity are the same for
 every earthquake. Only the style record handed to the map library is modelled.
 */
module Marker {
  import opened Magnitude
  import opened Scaler

  /** A geographic position. */
  datatype LatLng = LatLng(lat: real, lng: real)

  /** The properties of one earthquake feature that the page reads. The time is
      in milliseconds since the epoch. */
  datatype Earthquake = Earthquake(place: string, time: int, mag: real)

  /** The options of a circle marker. */
  datatype CircleOptions = CircleOptions(
    radius: real,
    fillColor: string,
    fillOpacity: real,
    color: string,
    weight: real)

  /** A circle marker: where it is drawn and how. */
  datatype Circle = Circle(center: LatLng, options: CircleOptions)

  const FillOpacity: real := 0.8
  const StrokeColor: string := "#000000"
  const StrokeWeight: real := 0.5

  /** The marker the earthquake layer draws for `feature` at `latlng`. */
  function PointToLayer(feature: Earthquake, latlng: LatLng): (c: Circle)
    ensures c.center == latlng
    ensures c.options.fillColor == Palette[BucketOf(feature.mag)]
    ensures SizeToMagnitude(c.options.radius) == feature.mag
    ensures c.options.fillOpacity == FillOpacity
    ensures c.options.color == StrokeColor && c.options.weight == StrokeWeight
  {
    ColorMatchesBucket(feature.mag);
    Circle(latlng, CircleOptions(
      radius := MagnitudeSize(feature.mag),
      fillColor := MagnitudeColor(feature.mag),
      fillOpacity := FillOpacity,
      color := StrokeColor,
      weight := StrokeWeight))
  }

  /** The style of a marker depends on the magnitude alone: neither the place,
      the time nor the position of the earthquake changes it. */
  lemma StyleDependsOnlyOnMagnitude(f: Earthquake, g: Earthquake, p: LatLng, q: LatLng)
    ensures PointToLayer(f, p).options == PointToLayer(g, q).options <==> f.mag == g.mag
  {
    if PointToLayer(f, p).options == PointToLayer(g, q).options {
      SizeStrictlyIncreasing(f.mag, g.mag);
    }
  }

  /** Radius and fill colour agree: the colour can be read off the radius, and a
      circle at least as large as another is never in a lower colour bucket. */
  lemma LargerCircleNeverCooler(f: Earthquake, g: Earthquake, p: LatLng, q: LatLng)
    requires PointToLayer(f, p).options.radius <= PointToLayer(g, q).options.radius
    ensures BucketOf(f.mag) <= BucketOf(g.mag)
    ensures PointToLayer(f, p).options.fillColor == MagnitudeColor(SizeToMagnitude(PointToLayer(f, p).options.radius))
  {
    SizeStrictlyIncreasing(g.mag, f.mag);
    BucketMonotone(f.mag, g.mag);
  }
}
