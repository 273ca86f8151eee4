/**
 * The telemetry helpers of app_run/services.py: the length of a run's path,
 * its elapsed time, the distance and speed of a new fix relative to the
 * previous one, the average speed, and the landmarks near a position.
 * geodesic is the parameter `km` (see module Geo) and round(x, 2) is
 * Rounding.Round2; timestamps are whole seconds.
 */
module Services {
  import opened Wrappers
  import opened Geo
  import opened Rounding
  import opened Models

  // ---------------------------------------------------------------- get_distance

  /** The unrounded sum of the geodesic legs between consecutive positions, in list order. */
  function PathLength(km: Geodesic, ps: seq<Position>): real
    decreases |ps|
  {
    if |ps| < 2 then 0.0
    else PathLength(km, ps[..|ps| - 1]) + km(Where(ps[|ps| - 2]), Where(ps[|ps| - 1]))
  }

  /** get_distance: the accumulator loop over consecutive pairs, rounded at the end. */
  method GetDistance(km: Geodesic, positions: seq<Position>) returns (total: real)
    ensures total == Round2(PathLength(km, positions))
    ensures |positions| < 2 ==> total == 0.0
    ensures NonNegative(km) ==> total >= 0.0
  {
    var distanceTotal := 0.0;
    if |positions| >= 2 {
      for i := 0 to |positions| - 1
        invariant distanceTotal == PathLength(km, positions[..i + 1])
      {
        assert positions[..i + 2][..i + 1] == positions[..i + 1];
        distanceTotal := distanceTotal + km(Where(positions[i]), Where(positions[i + 1]));
      }
      assert positions[..|positions|] == positions;
    }
    if NonNegative(km) {
      PathLengthNonNegative(km, positions);
    }
    total := Round2(distanceTotal);
  }

  /** With a non-negative geodesic, a path never has negative length. */
  lemma {:induction false} PathLengthNonNegative(km: Geodesic, ps: seq<Position>)
    requires NonNegative(km)
    ensures PathLength(km, ps) >= 0.0
    decreases |ps|
  {
    if |ps| >= 2 {
      PathLengthNonNegative(km, ps[..|ps| - 1]);
    }
  }

  /** Appending a fix adds exactly the leg from the last fix to the new one. */
  lemma PathLengthAppend(km: Geodesic, ps: seq<Position>, p: Position)
    requires |ps| >= 1
    ensures PathLength(km, ps + [p]) == PathLength(km, ps) + km(Where(ps[|ps| - 1]), Where(p))
  {
    assert (ps + [p])[..|ps|] == ps;
  }

  /** A prefix of the path is never longer than the whole path. */
  lemma {:induction false} PathLengthPrefix(km: Geodesic, ps: seq<Position>, k: nat)
    requires NonNegative(km)
    requires k <= |ps|
    ensures PathLength(km, ps[..k]) <= PathLength(km, ps)
    decreases |ps|
  {
    if k < |ps| {
      var init := ps[..|ps| - 1];
      assert init[..k] == ps[..k];
      PathLengthPrefix(km, init, k);
      if |ps| >= 2 {
        assert ps[..|ps| - 1] == init;
      } else {
        assert k == 0 && ps[..k] == [];
      }
    } else {
      assert ps[..k] == ps;
    }
  }

  /** get_distance never decreases when a position is appended, before or after rounding. */
  lemma DistanceGrowsOnAppend(km: Geodesic, ps: seq<Position>, p: Position)
    requires NonNegative(km)
    ensures PathLength(km, ps) <= PathLength(km, ps + [p])
    ensures Round2(PathLength(km, ps)) <= Round2(PathLength(km, ps + [p]))
  {
    if |ps| >= 1 {
      PathLengthAppend(km, ps, p);
    } else {
      assert ps + [p] == [p];
    }
    Round2Monotone(PathLength(km, ps), PathLength(km, ps + [p]));
  }

  // ---------------------------------------------------------- get_run_time_seconds

  /** Min("date_time") over the positions. */
  function EarliestTime(ps: seq<Position>): (t: int)
    requires |ps| > 0
    ensures exists i :: 0 <= i < |ps| && ps[i].dateTime == t
    ensures forall i :: 0 <= i < |ps| ==> t <= ps[i].dateTime
    decreases |ps|
  {
    if |ps| == 1 then ps[0].dateTime
    else
      var rest := EarliestTime(ps[..|ps| - 1]);
      if ps[|ps| - 1].dateTime < rest then ps[|ps| - 1].dateTime else rest
  }

  /** Max("date_time") over the positions. */
  function LatestTime(ps: seq<Position>): (t: int)
    requires |ps| > 0
    ensures exists i :: 0 <= i < |ps| && ps[i].dateTime == t
    ensures forall i :: 0 <= i < |ps| ==> ps[i].dateTime <= t
    decreases |ps|
  {
    if |ps| == 1 then ps[0].dateTime
    else
      var rest := LatestTime(ps[..|ps| - 1]);
      if ps[|ps| - 1].dateTime > rest then ps[|ps| - 1].dateTime else rest
  }

  /**
   * timedelta.seconds of later - earlier: the seconds component of the
   * difference, which Python keeps in [0, 86399] (the days go elsewhere).
   */
  function SecondsComponent(earlier: int, later: int): (s: int)
    ensures 0 <= s < 86400
    ensures (later - earlier - s) % 86400 == 0
    ensures 0 <= later - earlier < 86400 ==> s == later - earlier
  {
    (later - earlier) % 86400
  }

  /** get_run_time_seconds: 0 without positions, else the seconds component of latest - earliest. */
  function RunTimeSeconds(ps: seq<Position>): (r: int)
    ensures 0 <= r < 86400
    ensures |ps| == 0 ==> r == 0
    ensures |ps| > 0 && LatestTime(ps) - EarliestTime(ps) < 86400 ==>
              r == LatestTime(ps) - EarliestTime(ps)
  {
    if |ps| == 0 then 0
    else SecondsComponent(EarliestTime(ps), LatestTime(ps))
  }

  /** The elapsed time the run evidently means: the whole span from first to last fix. */
  function RunTimeSecondsTotal(ps: seq<Position>): (r: int)
    ensures r >= 0
    ensures |ps| == 0 ==> r == 0
    ensures forall i, j :: 0 <= i < |ps| && 0 <= j < |ps| ==> ps[i].dateTime - ps[j].dateTime <= r
    ensures |ps| > 0 ==> exists i, j :: 0 <= i < |ps| && 0 <= j < |ps| && ps[i].dateTime - ps[j].dateTime == r
  {
    if |ps| == 0 then 0 else LatestTime(ps) - EarliestTime(ps)
  }

  /** The value get_run_time_seconds returns is the whole span reduced modulo one day. */
  lemma RunTimeSecondsIsSpanModDay(ps: seq<Position>)
    ensures RunTimeSeconds(ps) == RunTimeSecondsTotal(ps) % 86400
    ensures RunTimeSeconds(ps) == RunTimeSecondsTotal(ps) <==> RunTimeSecondsTotal(ps) < 86400
  {
  }

  /** A run whose fixes lie one day and five seconds apart is reported as lasting five seconds. */
  lemma RunTimeSecondsWrapsAfterOneDay()
    ensures var ps := [Position(1, 0.0, 0.0, 0, 0.0, 0.0), Position(1, 0.0, 0.0, 86405, 0.0, 0.0)];
            RunTimeSeconds(ps) == 5 && RunTimeSecondsTotal(ps) == 86405
  {
    var ps := [Position(1, 0.0, 0.0, 0, 0.0, 0.0), Position(1, 0.0, 0.0, 86405, 0.0, 0.0)];
    assert EarliestTime(ps) == 0;
    assert LatestTime(ps) == 86405;
  }

  // ------------------------------------------- _get_current_distance / _get_current_speed

  /** _get_current_distance: the geodesic from the previous fix to the current one, rounded. */
  function CurrentDistance(km: Geodesic, prev: Point, cur: Point): (d: real)
    ensures -0.005 <= d - km(prev, cur) <= 0.005
    ensures NonNegative(km) ==> d >= 0.0
  {
    Round2(km(prev, cur))
  }

  /**
   * _get_current_speed: kilometres over the seconds component of the
   * elapsed time, in metres per second and rounded; 0 where the division
   * would raise ZeroDivisionError.
   */
  function CurrentSpeed(prevTime: int, curTime: int, distance: real): (speed: real)
    ensures SecondsComponent(prevTime, curTime) == 0 ==> speed == 0.0
    ensures SecondsComponent(prevTime, curTime) != 0 ==>
              var exact := distance * 1000.0 / SecondsComponent(prevTime, curTime) as real;
              -0.005 <= speed - exact <= 0.005
    ensures distance >= 0.0 ==> speed >= 0.0
  {
    var time := SecondsComponent(prevTime, curTime);
    if time == 0 then 0.0
    else
      assert distance >= 0.0 ==> distance * 1000.0 / time as real >= 0.0;
      Round2(distance * 1000.0 / time as real)
  }

  /** Two fixes with the same timestamp give speed 0 instead of raising. */
  lemma SameInstantSpeedIsZero(t: int, distance: real)
    ensures CurrentSpeed(t, t, distance) == 0.0
  {
  }

  // ------------------------------------------------ get_distance_speed_from_last_position

  /** The values a serializer's validated_data dict holds: numbers, timestamps, anything else. */
  datatype Value = Number(x: real) | Moment(t: int) | Other

  /**
   * The dict holds a numeric latitude and longitude and a date_time. The
   * serializer supplies all three; the model treats a dict without them as
   * the failure case. For date_time that is the TypeError the subtraction in
   * _get_current_speed raises; what geodesic does with a missing coordinate
   * is geopy's behaviour and is not modelled.
   */
  predicate HasFix(fields: map<string, Value>) {
    && "latitude" in fields && fields["latitude"].Number?
    && "longitude" in fields && fields["longitude"].Number?
    && "date_time" in fields && fields["date_time"].Moment?
  }

  /**
   * The dict get_distance_speed_from_last_position leaves behind, or None
   * when it raises before writing anything.
   */
  function DistanceSpeedFields(km: Geodesic, prev: Position, fields: map<string, Value>)
    : (r: Option<map<string, Value>>)
    ensures r.Some? <==> HasFix(fields)
    ensures r.Some? ==> r.value.Keys == fields.Keys + {"distance", "speed"}
    ensures r.Some? ==> forall k :: k in fields && k != "distance" && k != "speed" ==> r.value[k] == fields[k]
    ensures r.Some? ==> r.value["distance"].Number? && r.value["speed"].Number?
    ensures r.Some? ==>
              var cur := Point(fields["latitude"].x, fields["longitude"].x);
              r.value["distance"].x - prev.distance <= km(Where(prev), cur) + 0.005
    ensures r.Some? && NonNegative(km) ==> r.value["distance"].x >= prev.distance
    ensures r.Some? && NonNegative(km) ==> r.value["speed"].x >= 0.0
    ensures r.Some? ==>
              var cur := Point(fields["latitude"].x, fields["longitude"].x);
              var inc := r.value["distance"].x - prev.distance;
              var secs := SecondsComponent(prev.dateTime, fields["date_time"].t);
              && -0.005 <= inc - km(Where(prev), cur) <= 0.005
              && (secs == 0 ==> r.value["speed"].x == 0.0)
              && (secs != 0 ==> -0.005 <= r.value["speed"].x - inc * 1000.0 / secs as real <= 0.005)
  {
    if !HasFix(fields) then None
    else
      var cur := Point(fields["latitude"].x, fields["longitude"].x);
      var distance := CurrentDistance(km, Where(prev), cur);
      var speed := CurrentSpeed(prev.dateTime, fields["date_time"].t, distance);
      Some(fields["distance" := Number(prev.distance + distance)]["speed" := Number(speed)])
  }

  /** A serializer's validated_data: a dict the service updates in place. */
  class ValidatedData {
    var fields: map<string, Value>

    constructor (fields: map<string, Value>)
      ensures this.fields == fields
    {
      this.fields := fields;
    }
  }

  /**
   * get_distance_speed_from_last_position: writes the cumulative distance
   * and the speed of the new fix into the dict and returns the same dict;
   * None stands for the failure on a dict without a fix (see HasFix),
   * before anything is written.
   */
  method GetDistanceSpeedFromLastPosition(km: Geodesic, prev: Position, data: ValidatedData)
    returns (result: Option<ValidatedData>)
    modifies data
    ensures result.Some? <==> HasFix(old(data.fields))
    ensures result.Some? ==> result.value == data
    ensures result.None? ==> data.fields == old(data.fields)
    ensures result.Some? ==> DistanceSpeedFields(km, prev, old(data.fields)) == Some(data.fields)
  {
    if !HasFix(data.fields) {
      return None;
    }
    var curLatitude := data.fields["latitude"].x;
    var curLongitude := data.fields["longitude"].x;
    var curTime := data.fields["date_time"].t;
    var distance := CurrentDistance(km, Where(prev), Point(curLatitude, curLongitude));
    var speed := CurrentSpeed(prev.dateTime, curTime, distance);
    data.fields := data.fields["distance" := Number(prev.distance + distance)];
    data.fields := data.fields["speed" := Number(speed)];
    return Some(data);
  }

  /**
   * Ingesting fixes one after another, each against the one before, gives
   * cumulative distances that never decrease along the run.
   */
  lemma CumulativeDistanceChain(km: Geodesic, prev: Position, fields: map<string, Value>, next: map<string, Value>)
    requires NonNegative(km)
    requires HasFix(fields) && HasFix(next)
    ensures var r := DistanceSpeedFields(km, prev, fields).value;
            var stored := Position(prev.run, r["latitude"].x, r["longitude"].x, r["date_time"].t,
                                   r["distance"].x, r["speed"].x);
            prev.distance <= stored.distance <= DistanceSpeedFields(km, stored, next).value["distance"].x
  {
  }

  // ------------------------------------------------------------ get_average_speed

  function SumSpeeds(ps: seq<Position>): real
    decreases |ps|
  {
    if |ps| == 0 then 0.0 else SumSpeeds(ps[..|ps| - 1]) + ps[|ps| - 1].speed
  }

  function MinSpeed(ps: seq<Position>): (m: real)
    requires |ps| > 0
    ensures exists i :: 0 <= i < |ps| && ps[i].speed == m
    ensures forall i :: 0 <= i < |ps| ==> m <= ps[i].speed
    decreases |ps|
  {
    if |ps| == 1 then ps[0].speed
    else
      var rest := MinSpeed(ps[..|ps| - 1]);
      if ps[|ps| - 1].speed < rest then ps[|ps| - 1].speed else rest
  }

  function MaxSpeed(ps: seq<Position>): (m: real)
    requires |ps| > 0
    ensures exists i :: 0 <= i < |ps| && ps[i].speed == m
    ensures forall i :: 0 <= i < |ps| ==> ps[i].speed <= m
    decreases |ps|
  {
    if |ps| == 1 then ps[0].speed
    else
      var rest := MaxSpeed(ps[..|ps| - 1]);
      if ps[|ps| - 1].speed > rest then ps[|ps| - 1].speed else rest
  }

  /** The sum of n values each between lo and hi lies between n*lo and n*hi. */
  lemma {:induction false} SumSpeedsBounds(ps: seq<Position>, lo: real, hi: real)
    requires forall i :: 0 <= i < |ps| ==> lo <= ps[i].speed <= hi
    ensures |ps| as real * lo <= SumSpeeds(ps) <= |ps| as real * hi
    decreases |ps|
  {
    if |ps| > 0 {
      var n := |ps| - 1;
      SumSpeedsBounds(ps[..n], lo, hi);
      assert (n + 1) as real * lo == n as real * lo + lo;
      assert (n + 1) as real * hi == n as real * hi + hi;
    }
  }

  /** The mean speed lies between the slowest and the fastest stored speed. */
  lemma MeanSpeedBetween(ps: seq<Position>)
    requires |ps| > 0
    ensures MinSpeed(ps) <= SumSpeeds(ps) / |ps| as real <= MaxSpeed(ps)
  {
    MeanWithinBounds(ps, MinSpeed(ps), MaxSpeed(ps));
  }

  lemma MeanWithinBounds(ps: seq<Position>, lo: real, hi: real)
    requires |ps| > 0
    requires forall i :: 0 <= i < |ps| ==> lo <= ps[i].speed <= hi
    ensures lo <= SumSpeeds(ps) / |ps| as real <= hi
  {
    SumSpeedsBounds(ps, lo, hi);
    QuotientBetween(SumSpeeds(ps), |ps| as real, lo, hi);
  }

  lemma QuotientBetween(s: real, n: real, lo: real, hi: real)
    requires n > 0.0 && n * lo <= s <= n * hi
    ensures lo <= s / n <= hi
  {
    assert (s / n) * n == s;
  }

  /** get_average_speed: 0 without positions, else the rounded mean of the stored speeds. */
  function AverageSpeed(ps: seq<Position>): (r: real)
    ensures |ps| == 0 ==> r == 0.0
    ensures |ps| > 0 ==> Round2(MinSpeed(ps)) <= r <= Round2(MaxSpeed(ps))
    ensures |ps| > 0 ==> -0.005 <= r - SumSpeeds(ps) / |ps| as real <= 0.005
  {
    if |ps| == 0 then 0.0
    else
      var mean := SumSpeeds(ps) / |ps| as real;
      MeanSpeedBetween(ps);
      Round2Monotone(MinSpeed(ps), mean);
      Round2Monotone(mean, MaxSpeed(ps));
      Round2(mean)
  }

  // --------------------------------------------------------- check_unit_locations

  /**
   * A landmark (UnitLocation); only its coordinates are read here. The
   * declaration of UnitLocation is not part of this model.
   */
  datatype UnitLocation = UnitLocation(id: int, latitude: real, longitude: real)

  function At(u: UnitLocation): Point {
    Point(u.latitude, u.longitude)
  }

  /** The unit is within 100 metres of the point. */
  predicate Near(km: Geodesic, p: Point, u: UnitLocation) {
    Meters(km, p, At(u)) <= 100.0
  }

  /** The units within 100 metres of p, in the order of the unit list. */
  function NearUnits(km: Geodesic, p: Point, units: seq<UnitLocation>): seq<UnitLocation>
    decreases |units|
  {
    if |units| == 0 then []
    else
      var last := units[|units| - 1];
      NearUnits(km, p, units[..|units| - 1]) + (if Near(km, p, last) then [last] else [])
  }

  /** A unit is selected exactly when it is in the list and within 100 metres. */
  lemma {:induction false} NearUnitsMembers(km: Geodesic, p: Point, units: seq<UnitLocation>, u: UnitLocation)
    ensures u in NearUnits(km, p, units) <==> u in units && Near(km, p, u)
    decreases |units|
  {
    if |units| > 0 {
      var init := units[..|units| - 1];
      NearUnitsMembers(km, p, init, u);
      assert units == init + [units[|units| - 1]];
    }
  }

  /** Selection distributes over concatenation, so the order of the unit list is kept. */
  lemma {:induction false} NearUnitsConcat(km: Geodesic, p: Point, a: seq<UnitLocation>, b: seq<UnitLocation>)
    ensures NearUnits(km, p, a + b) == NearUnits(km, p, a) + NearUnits(km, p, b)
    decreases |b|
  {
    if |b| == 0 {
      assert a + b == a;
    } else {
      var binit := b[..|b| - 1];
      assert (a + b)[..|a + b| - 1] == a + binit;
      NearUnitsConcat(km, p, a, binit);
    }
  }

  /** check_unit_locations: the loop that appends each unit within 100 metres of the position. */
  method CheckUnitLocations(km: Geodesic, position: Position, units: seq<UnitLocation>)
    returns (unitsForCreate: seq<UnitLocation>)
    ensures unitsForCreate == NearUnits(km, Where(position), units)
    ensures forall u :: u in unitsForCreate <==> u in units && Near(km, Where(position), u)
    ensures |unitsForCreate| <= |units|
  {
    unitsForCreate := [];
    for i := 0 to |units|
      invariant unitsForCreate == NearUnits(km, Where(position), units[..i])
      invariant |unitsForCreate| <= i
    {
      assert units[..i + 1][..i] == units[..i];
      var dist := Meters(km, Where(position), At(units[i]));
      if dist <= 100.0 {
        unitsForCreate := unitsForCreate + [units[i]];
      }
    }
    assert units[..|units|] == units;
    forall u ensures u in unitsForCreate <==> u in units && Near(km, Where(position), u) {
      NearUnitsMembers(km, Where(position), units, u);
    }
  }
}
