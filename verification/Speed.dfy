/**
  The average speed behind the arrival estimate in
  src/modules/shipments/shipments.service.ts. Distances come from outside, and
  numbers are exact.
 */
module Speed {
  import opened Common

  const DEFAULT_SINGLE_POINT_SPEED_KMH: real := 40.0

  datatype Point = Point(timestamp: int, latitude: real, longitude: real)

  type Distance = (Point, Point) -> real

  function Hours(from: Point, to: Point): real {
    (to.timestamp - from.timestamp) as real / 3600000.0
  }

  /** Segment `i` leads from point `i - 1` to point `i`; only those that take time count. */
  predicate Counts(points: seq<Point>, i: nat)
    requires 1 <= i < |points|
  {
    Hours(points[i - 1], points[i]) > 0.0
  }

  /** Hours of the counted segments up to point `n - 1`, in the order of time. */
  function Elapsed(points: seq<Point>, n: nat): real
    requires n <= |points|
  {
    if n <= 1 then 0.0
    else Elapsed(points, n - 1) + if Counts(points, n - 1) then Hours(points[n - 2], points[n - 1]) else 0.0
  }

  function Covered(points: seq<Point>, distance: Distance, n: nat): real
    requires n <= |points|
  {
    if n <= 1 then 0.0
    else Covered(points, distance, n - 1)
         + if Counts(points, n - 1) then distance(points[n - 2], points[n - 1]) else 0.0
  }

  function Rate(distanceKm: real, hours: real): real
    requires hours > 0.0
  {
    distanceKm / hours
  }

  /** The average over points listed newest first. */
  function Average(points: seq<Point>, distance: Distance): real {
    var chronological := Reversed(points);
    var elapsed := Elapsed(chronological, |points|);
    if elapsed <= 0.0 then DEFAULT_SINGLE_POINT_SPEED_KMH
    else Rate(Covered(chronological, distance, |points|), elapsed)
  }

  // ------------------------------------------------------------- elapsed time

  /** Time is only added, and none is added exactly when no segment counts. */
  lemma {:induction false} ElapsedIsPositiveIff(points: seq<Point>, n: nat)
    requires n <= |points|
    ensures Elapsed(points, n) >= 0.0
    ensures Elapsed(points, n) > 0.0 <==> exists i :: 1 <= i < n && Counts(points, i)
  {
    if n > 1 {
      ElapsedIsPositiveIff(points, n - 1);
      assert Counts(points, n - 1) || !Counts(points, n - 1);
    }
  }

  lemma {:induction false} ElapsedCoversIff(points: seq<Point>, n: nat)
    requires 1 <= n <= |points|
    ensures Elapsed(points, n) >= Hours(points[0], points[n - 1])
    ensures Elapsed(points, n) == Hours(points[0], points[n - 1])
            <==> forall i :: 1 <= i < n ==> points[i - 1].timestamp <= points[i].timestamp
  {
    if n > 1 {
      ElapsedCoversIff(points, n - 1);
      assert Hours(points[0], points[n - 1]) == Hours(points[0], points[n - 2]) + Hours(points[n - 2], points[n - 1]);
      assert points[n - 1 - 1].timestamp <= points[n - 1].timestamp <==> Hours(points[n - 2], points[n - 1]) >= 0.0;
    }
  }

  /** The counted time is the time from the oldest to the newest point exactly when
      the list really is newest first. */
  lemma ElapsedIsSpanIff(points: seq<Point>)
    requires |points| >= 1
    ensures Elapsed(Reversed(points), |points|) == Hours(points[|points| - 1], points[0])
            <==> forall i :: 1 <= i < |points| ==> points[i].timestamp <= points[i - 1].timestamp
  {
    var chronological, n := Reversed(points), |points|;
    ElapsedCoversIff(chronological, n);
    if forall i :: 1 <= i < n ==> points[i].timestamp <= points[i - 1].timestamp {
      forall i | 1 <= i < n
        ensures chronological[i - 1].timestamp <= chronological[i].timestamp
      {
        assert chronological[i - 1] == points[n - i] && chronological[i] == points[n - i - 1];
      }
    } else {
      var i :| 1 <= i < n && points[i].timestamp > points[i - 1].timestamp;
      assert !(chronological[n - i - 1].timestamp <= chronological[n - i].timestamp);
      assert chronological[n - i - 1] == points[i] && chronological[n - i] == points[i - 1];
    }
  }

  lemma {:induction false} SumsOfPrefix(points: seq<Point>, last: Point, distance: Distance, n: nat)
    requires n <= |points|
    ensures Elapsed(points + [last], n) == Elapsed(points, n)
    ensures Covered(points + [last], distance, n) == Covered(points, distance, n)
  {
    if n > 1 {
      SumsOfPrefix(points, last, distance, n - 1);
      assert (points + [last])[n - 1] == points[n - 1] && (points + [last])[n - 2] == points[n - 2];
    }
  }

  /** A newer point adds the way to it and the time it took, in hours of 3600000 milliseconds,
      if it took any. */
  lemma NewerPointAdds(points: seq<Point>, newer: Point, distance: Distance)
    requires points != []
    ensures var n, ms := |points|, newer.timestamp - points[0].timestamp;
      && Elapsed(Reversed([newer] + points), n + 1) ==
         Elapsed(Reversed(points), n) + (if ms > 0 then ms as real / 3600000.0 else 0.0)
      && Covered(Reversed([newer] + points), distance, n + 1) ==
         Covered(Reversed(points), distance, n) + if ms > 0 then distance(points[0], newer) else 0.0
    ensures Elapsed(Reversed([newer]), 1) == 0.0 == Covered(Reversed([newer]), distance, 1)
  {
    var n, c := |points|, Reversed(points);
    assert Reversed([newer] + points) == c + [newer];
    SumsOfPrefix(c, newer, distance, n);
    assert (c + [newer])[n] == newer && (c + [newer])[n - 1] == points[0];
  }

  // ------------------------------------------------------------ average speed

  function SpeedOf(points: seq<Point>, distance: Distance, i: nat): real
    requires 1 <= i < |points| && Counts(points, i)
  {
    Rate(distance(points[i - 1], points[i]), Hours(points[i - 1], points[i]))
  }

  /** How much farther segment `i` leads than a ride at `speed` in the same time. */
  function Lead(points: seq<Point>, distance: Distance, i: nat, speed: real): real
    requires 1 <= i < |points|
  {
    distance(points[i - 1], points[i]) - speed * Hours(points[i - 1], points[i])
  }

  function TotalLead(points: seq<Point>, distance: Distance, n: nat, speed: real): real
    requires n <= |points|
  {
    if n <= 1 then 0.0
    else TotalLead(points, distance, n - 1, speed)
         + if Counts(points, n - 1) then Lead(points, distance, n - 1, speed) else 0.0
  }

  lemma Distribute(speed: real, a: real, b: real)
    ensures speed * (a + b) == speed * a + speed * b
  {
  }

  lemma {:induction false} TotalLeadIs(points: seq<Point>, distance: Distance, n: nat, speed: real)
    requires n <= |points|
    ensures TotalLead(points, distance, n, speed) == Covered(points, distance, n) - speed * Elapsed(points, n)
  {
    if n > 1 {
      TotalLeadIs(points, distance, n - 1, speed);
      Distribute(speed, Elapsed(points, n - 1), Hours(points[n - 2], points[n - 1]));
    }
  }

  /** A total of zero needs leads on both sides of zero. */
  lemma {:induction false} LeadsBalance(points: seq<Point>, distance: Distance, n: nat, speed: real)
    requires n <= |points|
    ensures (forall i :: 1 <= i < n && Counts(points, i) ==> Lead(points, distance, i, speed) > 0.0) ==>
              TotalLead(points, distance, n, speed) >= 0.0 &&
              (TotalLead(points, distance, n, speed) == 0.0 ==> Elapsed(points, n) == 0.0)
    ensures (forall i :: 1 <= i < n && Counts(points, i) ==> Lead(points, distance, i, speed) < 0.0) ==>
              TotalLead(points, distance, n, speed) <= 0.0 &&
              (TotalLead(points, distance, n, speed) == 0.0 ==> Elapsed(points, n) == 0.0)
  {
    if n > 1 {
      LeadsBalance(points, distance, n - 1, speed);
    }
  }

  /** The counted way over the counted time. */
  lemma AverageIs(points: seq<Point>, distance: Distance, elapsed: real, covered: real)
    requires elapsed == Elapsed(Reversed(points), |points|) > 0.0
    requires covered == Covered(Reversed(points), distance, |points|)
    ensures Average(points, distance) == Rate(covered, elapsed) == covered / elapsed
  {
  }

  lemma NoLead(points: seq<Point>, distance: Distance, n: nat, speed: real)
    requires n <= |points| && speed * Elapsed(points, n) == Covered(points, distance, n)
    ensures TotalLead(points, distance, n, speed) == 0.0
  {
    TotalLeadIs(points, distance, n, speed);
  }

  lemma Quotient(distance: real, time: real)
    requires time > 0.0
    ensures Rate(distance, time) * time == distance
  {
  }

  /** A segment leads exactly when it is faster. */
  lemma LeadIsFaster(points: seq<Point>, distance: Distance, i: nat, speed: real)
    requires 1 <= i < |points| && Counts(points, i)
    ensures Lead(points, distance, i, speed) <= 0.0 ==> SpeedOf(points, distance, i) <= speed
    ensures Lead(points, distance, i, speed) >= 0.0 ==> SpeedOf(points, distance, i) >= speed
  {
    Compare(SpeedOf(points, distance, i), speed, Hours(points[i - 1], points[i]));
    Quotient(distance(points[i - 1], points[i]), Hours(points[i - 1], points[i]));
  }

  lemma Compare(a: real, b: real, time: real)
    requires time > 0.0
    ensures a * time <= b * time <==> a <= b
    ensures a * time >= b * time <==> a >= b
  {
  }

  /** If some segment takes time, the average lies between the speeds of two such
      segments; otherwise it is the default. */
  lemma AverageBetweenSegments(points: seq<Point>, distance: Distance)
    ensures var c := Reversed(points);
      if exists i :: 1 <= i < |c| && Counts(c, i) then
        && (exists i :: 1 <= i < |c| && Counts(c, i) && SpeedOf(c, distance, i) <= Average(points, distance))
        && (exists i :: 1 <= i < |c| && Counts(c, i) && SpeedOf(c, distance, i) >= Average(points, distance))
      else Average(points, distance) == 40.0
  {
    var c, n := Reversed(points), |points|;
    ElapsedIsPositiveIff(c, n);
    if Elapsed(c, n) > 0.0 {
      var speed := Average(points, distance);
      var elapsed, covered := Elapsed(c, n), Covered(c, distance, n);
      AverageIs(points, distance, elapsed, covered);
      Quotient(covered, elapsed);
      NoLead(c, distance, n, speed);
      LeadsBalance(c, distance, n, speed);
      var slow :| 1 <= slow < n && Counts(c, slow) && Lead(c, distance, slow, speed) <= 0.0;
      LeadIsFaster(c, distance, slow, speed);
      assert SpeedOf(c, distance, slow) <= speed;
      var fast :| 1 <= fast < n && Counts(c, fast) && Lead(c, distance, fast, speed) >= 0.0;
      LeadIsFaster(c, distance, fast, speed);
      assert SpeedOf(c, distance, fast) >= speed;
    }
  }

  // ------------------------------------------------------------------ service

  method CalculateAverageSpeedKmh(points: seq<Point>, distance: Distance) returns (speed: real)
    ensures speed == Average(points, distance)
  {
    if |points| < 2 {
      return DEFAULT_SINGLE_POINT_SPEED_KMH;
    }
    var chronological := Reversed(points);
    var distanceKm := 0.0;
    var elapsedHours := 0.0;
    for index := 1 to |chronological|
      invariant distanceKm == Covered(chronological, distance, index)
      invariant elapsedHours == Elapsed(chronological, index)
    {
      var previous := chronological[index - 1];
      var current := chronological[index];
      var segmentHours := Hours(previous, current);
      if segmentHours <= 0.0 {
        continue;
      }
      distanceKm := distanceKm + distance(previous, current);
      elapsedHours := elapsedHours + segmentHours;
    }
    if elapsedHours <= 0.0 {
      return DEFAULT_SINGLE_POINT_SPEED_KMH;
    }
    speed := Rate(distanceKm, elapsedHours);
  }
}
