/**
 * Locations, distances and queue entries shared by the location-based matchers. The great-circle
 * (haversine) formula itself is not modelled: callers pass it in as a function.
 */
module Geo {
  import opened Common

  /** `{ lat, lon, city, country }`; any field may be missing. */
  datatype Location = Location(lat: Option<real>, lon: Option<real>, city: Option<string>, country: Option<string>)

  /** The `preferences` object a user sends with a match request. */
  datatype Preferences = Preferences(interests: Option<seq<string>>, age: Option<real>)

  /** A waiting user of the location-based matcher, as read back from the queue. */
  datatype QueueUser = QueueUser(
    userId: string,
    location: Option<Location>,
    preferences: Option<Preferences>,
    joinedAt: Option<real>)

  /** A distance in kilometres, or JavaScript's `Infinity`. */
  datatype Distance = Km(km: real) | Infinite

  /** The order `a.distance - b.distance` sorts by (`Infinity - Infinity` is NaN,
      which the sort treats like equality). */
  predicate AtMost(a: Distance, b: Distance) {
    b.Infinite? || (a.Km? && a.km <= b.km)
  }

  lemma AtMostTotalOrder(a: Distance, b: Distance, c: Distance)
    ensures AtMost(a, a)
    ensures AtMost(a, b) || AtMost(b, a)
    ensures AtMost(a, b) && AtMost(b, c) ==> AtMost(a, c)
  {
  }

  /** The position of the first smallest distance: what a stable ascending sort
      puts first. */
  function FirstMinIndex(ds: seq<Distance>): (k: nat)
    requires |ds| > 0
    ensures k < |ds|
    ensures forall i :: 0 <= i < |ds| ==> AtMost(ds[k], ds[i])
    ensures forall i :: 0 <= i < k ==> !AtMost(ds[i], ds[k])
  {
    if |ds| == 1 then 0
    else
      var k := FirstMinIndex(ds[1..]) + 1;
      assert forall i :: 1 <= i < |ds| ==> ds[i] == ds[1..][i - 1];
      if AtMost(ds[0], ds[k]) then 0 else k
  }

  /** The position of the first largest value: what a stable descending sort
      puts first. */
  function FirstMaxIndex(xs: seq<real>): (k: nat)
    requires |xs| > 0
    ensures k < |xs|
    ensures forall i :: 0 <= i < |xs| ==> xs[i] <= xs[k]
    ensures forall i :: 0 <= i < k ==> xs[i] < xs[k]
  {
    if |xs| == 1 then 0
    else
      var k := FirstMaxIndex(xs[1..]) + 1;
      assert forall i :: 1 <= i < |xs| ==> xs[i] == xs[1..][i - 1];
      if xs[0] >= xs[k] then 0 else k
  }

  /** A distance between two optional locations (`calculateDistance`). */
  type DistanceFn = (Option<Location>, Option<Location>) -> Distance

  /** A queued user decorated with its distance from the requester. */
  datatype Ranked = Ranked(user: QueueUser, distance: Distance)

  /** `queue.filter(u => u.userId !== userId)`. */
  function Available(userId: string, queue: seq<QueueUser>): (r: seq<QueueUser>)
    ensures forall u :: u in r <==> u in queue && u.userId != userId
    ensures r == [] <==> forall u :: u in queue ==> u.userId == userId
  {
    var r := Filter(queue, (u: QueueUser) => u.userId != userId);
    assert r != [] ==> r[0] in r;
    r
  }

  function RankAll(userLocation: Option<Location>, users: seq<QueueUser>, distance: DistanceFn): (r: seq<Ranked>)
    ensures |r| == |users|
    ensures forall k :: 0 <= k < |users| ==> r[k] == Ranked(users[k], distance(userLocation, users[k].location))
  {
    seq(|users|, k requires 0 <= k < |users| => Ranked(users[k], distance(userLocation, users[k].location)))
  }

  function DistancesOf(rs: seq<Ranked>): (ds: seq<Distance>)
    ensures |ds| == |rs| && forall k :: 0 <= k < |rs| ==> ds[k] == rs[k].distance
  {
    seq(|rs|, k requires 0 <= k < |rs| => rs[k].distance)
  }

  lemma FirstNearestIsMinimal(valid: seq<Ranked>, k: nat)
    requires |valid| > 0 && k == FirstMinIndex(DistancesOf(valid))
    ensures k < |valid|
    ensures forall m :: m in valid ==> AtMost(valid[k].distance, m.distance)
  {
    forall m | m in valid ensures AtMost(valid[k].distance, m.distance) {
      var j :| 0 <= j < |valid| && valid[j] == m;
      assert DistancesOf(valid)[j] == m.distance;
    }
  }
}
