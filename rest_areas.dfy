/**
 * The rest-area lookup: a linear scan of the catalogue for the area closest to the
 * vehicle, by a distance function supplied from outside (the geodesic distance in
 * kilometres in the deployed program).
 */
module RestAreas {
  import opened Wrappers

  const RestStopStress: real := 70.0

  datatype Point = Point(lat: real, lon: real)

  /** One catalogue entry, narrowed to the five columns the program keeps. */
  datatype RestArea = RestArea(name: string, description: string, travelDirection: string,
                               latitude: real, longitude: real)

  function Location(area: RestArea): Point
  {
    Point(area.latitude, area.longitude)
  }

  /**
   * Area `k` is at least as close to `p` as every area, and strictly closer than
   * every area before it: the first of the nearest areas.
   */
  ghost predicate IsFirstNearest(areas: seq<RestArea>, p: Point, dist: (Point, Point) -> real, k: int)
  {
    && 0 <= k < |areas|
    && (forall j :: 0 <= j < |areas| ==> dist(p, Location(areas[k])) <= dist(p, Location(areas[j])))
    && (forall j :: 0 <= j < k ==> dist(p, Location(areas[k])) < dist(p, Location(areas[j])))
  }

  /** At most one area is the first nearest one. */
  lemma FirstNearestIsUnique(areas: seq<RestArea>, p: Point, dist: (Point, Point) -> real, k: int, k': int)
    requires IsFirstNearest(areas, p, dist, k) && IsFirstNearest(areas, p, dist, k')
    ensures k == k'
  {
    var d, d' := dist(p, Location(areas[k])), dist(p, Location(areas[k']));
    assert d == d';
  }

  /**
   * The scan keeps the best area so far and replaces it only on a strictly smaller
   * distance (the initial best distance is infinite, so the first area is always
   * taken). An empty catalogue gives no area.
   */
  method NearestRestArea(areas: array<RestArea>, p: Point, dist: (Point, Point) -> real)
    returns (nearest: Option<RestArea>)
    ensures nearest.None? <==> areas.Length == 0
    ensures nearest.Some? ==> exists k :: IsFirstNearest(areas[..], p, dist, k) && areas[k] == nearest.value
  {
    nearest := None;
    var minDist: real := 0.0;   // meaningful once `nearest` is set; stands for +infinity before
    ghost var best := -1;
    for i := 0 to areas.Length
      invariant nearest.None? <==> i == 0
      invariant nearest.Some? ==> 0 <= best < i && nearest.value == areas[best]
                                  && minDist == dist(p, Location(areas[best]))
      invariant nearest.Some? ==> forall j :: 0 <= j < i ==> minDist <= dist(p, Location(areas[j]))
      invariant nearest.Some? ==> forall j :: 0 <= j < best ==> minDist < dist(p, Location(areas[j]))
    {
      var d := dist(p, Location(areas[i]));
      if nearest.None? || d < minDist {
        minDist := d;
        nearest := Some(areas[i]);
        best := i;
      }
    }
    if nearest.Some? {
      assert IsFirstNearest(areas[..], p, dist, best);
    }
  }

  /**
   * The rest-stop gate used both when composing the nudge and when showing the
   * suggestion: the catalogue is searched only for a driver whose stress is above 70.
   */
  method SuggestRestArea(stressLevel: real, p: Point, areas: array<RestArea>, dist: (Point, Point) -> real)
    returns (rest: Option<RestArea>)
    ensures stressLevel <= RestStopStress ==> rest.None?
    ensures stressLevel > RestStopStress ==> (rest.None? <==> areas.Length == 0)
    ensures rest.Some? ==> exists k :: IsFirstNearest(areas[..], p, dist, k) && areas[k] == rest.value
  {
    rest := None;
    if stressLevel > RestStopStress {
      rest := NearestRestArea(areas, p, dist);
    }
  }
}
