/**
 * The alternative matching strategies and the payload validator of
 * backend/config/matchConfig.js. Each strategy drops the requesting user,
 * ranks the others, and returns what a stable sort would put first.
 */
module MatchConfig {
  import opened Common
  import opened Geo
  import opened JsText

  const MAX_DISTANCE: real := 100.0
  const AGE_MIN: real := 18.0
  const AGE_MAX: real := 120.0
  const WEIGHT_DISTANCE: real := 0.5
  const WEIGHT_INTERESTS: real := 0.3

  /** A queued user decorated with its interest similarity. */
  datatype Similar = Similar(user: QueueUser, similarity: real)

  /** A queued user decorated with the hybrid scores. */
  datatype Hybrid = Hybrid(user: QueueUser, combinedScore: real, distanceScore: real, interestScore: real)

  predicate WithinMax(d: Distance) {
    d.Km? && d.km <= MAX_DISTANCE
  }

  /** `matchStrategies.distance`: the nearest other user at most 100 km away, or
      none when nobody else is queued or nobody is that close. */
  function DistanceStrategy(userId: string, userLocation: Option<Location>, queue: seq<QueueUser>, distance: DistanceFn): (r: Option<Ranked>)
    ensures r.None? <==> forall u :: u in queue && u.userId != userId ==> !WithinMax(distance(userLocation, u.location))
    ensures r.Some? ==>
      && r.value.user in queue && r.value.user.userId != userId
      && r.value.distance == distance(userLocation, r.value.user.location)
      && WithinMax(r.value.distance)
      && forall u :: u in queue && u.userId != userId && WithinMax(distance(userLocation, u.location)) ==>
           AtMost(r.value.distance, distance(userLocation, u.location))
  {
    var available := Available(userId, queue);
    if available == [] then None
    else
      var matches := RankAll(userLocation, available, distance);
      var valid := Filter(matches, (m: Ranked) => WithinMax(m.distance));
      NearbyAreValid(userId, userLocation, queue, distance, available, matches, valid);
      if valid == [] then None
      else
        var k := FirstMinIndex(DistancesOf(valid));
        FirstNearestIsMinimal(valid, k);
        assert valid[k] in matches;
        var i :| 0 <= i < |matches| && matches[i] == valid[k];
        Some(valid[k])
  }

  lemma NearbyAreValid(userId: string, userLocation: Option<Location>, queue: seq<QueueUser>, distance: DistanceFn,
                       available: seq<QueueUser>, matches: seq<Ranked>, valid: seq<Ranked>)
    requires available == Available(userId, queue)
    requires matches == RankAll(userLocation, available, distance)
    requires valid == Filter(matches, (m: Ranked) => WithinMax(m.distance))
    ensures forall u :: u in queue && u.userId != userId && WithinMax(distance(userLocation, u.location)) ==>
      Ranked(u, distance(userLocation, u.location)) in valid
  {
    forall u | u in queue && u.userId != userId && WithinMax(distance(userLocation, u.location))
      ensures Ranked(u, distance(userLocation, u.location)) in valid
    {
      var i :| 0 <= i < |available| && available[i] == u;
      assert matches[i] == Ranked(u, distance(userLocation, u.location));
    }
  }

  /** `new Set(prefs?.interests || [])`. */
  function InterestsOf(prefs: Option<Preferences>): set<string> {
    if prefs.Some? && prefs.value.interests.Some? then ToSet(prefs.value.interests.value) else {}
  }

  lemma {:induction false} IntersectionWithinUnion(mine: set<string>, theirs: set<string>)
    ensures |mine * theirs| <= |mine + theirs|
    ensures |mine * theirs| == |mine + theirs| ==> mine == theirs
  {
    var both, all := mine * theirs, mine + theirs;
    var extra := all - both;
    assert all == both + extra && both !! extra;
    assert |all| == |both| + |extra|;
    if |both| == |all| {
      assert extra == {};
      forall x | x in mine ensures x in theirs { assert x in all; }
      forall x | x in theirs ensures x in mine { assert x in all; }
    }
  }

  /** Shared interests over all interests, 0 when neither user has any. */
  function Similarity(mine: set<string>, theirs: set<string>): (s: real)
    ensures 0.0 <= s <= 1.0
    ensures s == 0.0 <==> mine * theirs == {}
    ensures s == 1.0 <==> mine == theirs && mine != {}
  {
    IntersectionWithinUnion(mine, theirs);
    var total := |mine + theirs|;
    if total > 0 then
      if mine * theirs != {} then
        var shared := |mine * theirs|;
        assert shared > 0;
        assert shared as real / total as real == 1.0 <==> shared == total;
        if shared == total then
          assert mine == theirs;
          shared as real / total as real
        else
          assert mine * theirs != mine + theirs;
          shared as real / total as real
      else 0.0
    else
      assert mine == {};
      0.0
  }

  lemma SimilaritySymmetric(mine: set<string>, theirs: set<string>)
    ensures Similarity(mine, theirs) == Similarity(theirs, mine)
  {
    assert mine * theirs == theirs * mine && mine + theirs == theirs + mine;
  }

  function SimilarAll(mine: set<string>, users: seq<QueueUser>): (r: seq<Similar>)
    ensures |r| == |users|
    ensures forall k :: 0 <= k < |users| ==> r[k] == Similar(users[k], Similarity(mine, InterestsOf(users[k].preferences)))
  {
    seq(|users|, k requires 0 <= k < |users| => Similar(users[k], Similarity(mine, InterestsOf(users[k].preferences))))
  }

  function SimilaritiesOf(ms: seq<Similar>): (xs: seq<real>)
    ensures |xs| == |ms| && forall k :: 0 <= k < |ms| ==> xs[k] == ms[k].similarity
  {
    seq(|ms|, k requires 0 <= k < |ms| => ms[k].similarity)
  }

  /** `matchStrategies.interests`: the other user with the highest interest similarity,
      with no minimum. Reading the interests of missing preferences throws, but only
      once someone else is queued. */
  function InterestsStrategy(userId: string, userPreferences: Option<Preferences>, queue: seq<QueueUser>): (r: Outcome<Option<Similar>>)
    ensures (forall u :: u in queue ==> u.userId == userId) ==> r == Returned(None)
    ensures (exists u :: u in queue && u.userId != userId) ==>
      if userPreferences.None? then r == Threw
      else
        && r.Returned? && r.value.Some?
        && var best := r.value.value;
        && best.user in queue && best.user.userId != userId
        && best.similarity == Similarity(InterestsOf(userPreferences), InterestsOf(best.user.preferences))
        && forall u :: u in queue && u.userId != userId ==>
             Similarity(InterestsOf(userPreferences), InterestsOf(u.preferences)) <= best.similarity
  {
    var available := Available(userId, queue);
    if available == [] then Returned(None)
    else if userPreferences.None? then Threw
    else
      var mine := InterestsOf(userPreferences);
      var matches := SimilarAll(mine, available);
      var k := FirstMaxIndex(SimilaritiesOf(matches));
      MostSimilarIsMaximal(mine, available, k);
      Returned(Some(matches[k]))
  }

  lemma MostSimilarIsMaximal(mine: set<string>, available: seq<QueueUser>, k: nat)
    requires |available| > 0 && k == FirstMaxIndex(SimilaritiesOf(SimilarAll(mine, available)))
    ensures k < |available|
    ensures forall u :: u in available ==>
      Similarity(mine, InterestsOf(u.preferences)) <= SimilarAll(mine, available)[k].similarity
  {
    var xs := SimilaritiesOf(SimilarAll(mine, available));
    forall u | u in available
      ensures Similarity(mine, InterestsOf(u.preferences)) <= SimilarAll(mine, available)[k].similarity
    {
      var i :| 0 <= i < |available| && available[i] == u;
      assert xs[i] == Similarity(mine, InterestsOf(u.preferences));
    }
  }

  /** `Math.floor(rnd * n)`: an index of a list of length `n`. */
  function ScaledIndex(rnd: real, n: nat): (k: nat)
    requires 0.0 <= rnd < 1.0 && n > 0
    ensures k < n
    ensures k as real <= rnd * n as real < k as real + 1.0
  {
    var x := rnd * n as real;
    assert n as real - x == (1.0 - rnd) * n as real;
    assert (1.0 - rnd) * n as real > 0.0;
    assert 0.0 <= x < n as real;
    x.Floor
  }

  /** `matchStrategies.random`, with `Math.random()` passed in as `rnd`. */
  function RandomStrategy(userId: string, queue: seq<QueueUser>, rnd: real): (r: Option<QueueUser>)
    requires 0.0 <= rnd < 1.0
    ensures r.None? <==> forall u :: u in queue ==> u.userId == userId
    ensures r.Some? ==> r.value in queue && r.value.userId != userId
  {
    var available := Available(userId, queue);
    if available == [] then None
    else
      Some(available[ScaledIndex(rnd, |available|)])
  }

  /** `max(0, 1 - distance / 100)`; an infinite distance scores 0. */
  function DistanceScore(d: Distance): (s: real)
    ensures s >= 0.0
    ensures d.Km? && d.km >= 0.0 ==> s <= 1.0
    ensures s == 0.0 <==> d.Infinite? || d.km >= MAX_DISTANCE
  {
    if d.Infinite? then 0.0
    else if 1.0 - d.km / MAX_DISTANCE > 0.0 then 1.0 - d.km / MAX_DISTANCE
    else 0.0
  }

  function CombinedScore(d: Distance, mine: set<string>, theirs: set<string>): (c: real)
    ensures 0.0 <= c
    ensures d.Km? && d.km >= 0.0 ==> c <= WEIGHT_DISTANCE + WEIGHT_INTERESTS
  {
    DistanceScore(d) * WEIGHT_DISTANCE + Similarity(mine, theirs) * WEIGHT_INTERESTS
  }

  function HybridAll(location: Option<Location>, mine: set<string>, users: seq<QueueUser>, distance: DistanceFn): (r: seq<Hybrid>)
    ensures |r| == |users|
    ensures forall k :: 0 <= k < |users| ==>
      var d := distance(location, users[k].location);
      var theirs := InterestsOf(users[k].preferences);
      r[k] == Hybrid(users[k], CombinedScore(d, mine, theirs), DistanceScore(d), Similarity(mine, theirs))
  {
    seq(|users|, k requires 0 <= k < |users| =>
      var d := distance(location, users[k].location);
      var theirs := InterestsOf(users[k].preferences);
      Hybrid(users[k], CombinedScore(d, mine, theirs), DistanceScore(d), Similarity(mine, theirs)))
  }

  function CombinedOf(hs: seq<Hybrid>): (xs: seq<real>)
    ensures |xs| == |hs| && forall k :: 0 <= k < |hs| ==> xs[k] == hs[k].combinedScore
  {
    seq(|hs|, k requires 0 <= k < |hs| => hs[k].combinedScore)
  }

  /** `matchStrategies.hybrid`: the other user maximising
      0.5 * distanceScore + 0.3 * interestScore. */
  function HybridStrategy(userId: string, location: Option<Location>, preferences: Option<Preferences>,
                          queue: seq<QueueUser>, distance: DistanceFn): (r: Option<Hybrid>)
    ensures r.None? <==> forall u :: u in queue ==> u.userId == userId
    ensures r.Some? ==>
      var mine := InterestsOf(preferences);
      && r.value.user in queue && r.value.user.userId != userId
      && r.value.combinedScore == CombinedScore(distance(location, r.value.user.location), mine, InterestsOf(r.value.user.preferences))
      && forall u :: u in queue && u.userId != userId ==>
           CombinedScore(distance(location, u.location), mine, InterestsOf(u.preferences)) <= r.value.combinedScore
  {
    var available := Available(userId, queue);
    if available == [] then None
    else
      var mine := InterestsOf(preferences);
      var matches := HybridAll(location, mine, available, distance);
      var k := FirstMaxIndex(CombinedOf(matches));
      BestHybridIsMaximal(location, mine, available, distance, k);
      Some(matches[k])
  }

  lemma BestHybridIsMaximal(location: Option<Location>, mine: set<string>, available: seq<QueueUser>, distance: DistanceFn, k: nat)
    requires |available| > 0 && k == FirstMaxIndex(CombinedOf(HybridAll(location, mine, available, distance)))
    ensures k < |available|
    ensures forall u :: u in available ==>
      CombinedScore(distance(location, u.location), mine, InterestsOf(u.preferences))
        <= HybridAll(location, mine, available, distance)[k].combinedScore
  {
    var xs := CombinedOf(HybridAll(location, mine, available, distance));
    forall u | u in available
      ensures CombinedScore(distance(location, u.location), mine, InterestsOf(u.preferences))
        <= HybridAll(location, mine, available, distance)[k].combinedScore
    {
      var i :| 0 <= i < |available| && available[i] == u;
      assert xs[i] == CombinedScore(distance(location, u.location), mine, InterestsOf(u.preferences));
    }
  }

  datatype Strategy = DistanceBased | InterestBased | RandomPick | HybridScore

  /** `getMatchFunction`: a missing or unknown name selects the distance strategy. */
  function GetMatchFunction(strategy: Option<string>): (s: Strategy)
    ensures s == InterestBased <==> strategy == Some("interests")
    ensures s == RandomPick <==> strategy == Some("random")
    ensures s == HybridScore <==> strategy == Some("hybrid")
    ensures strategy.None? || strategy.value !in {"interests", "random", "hybrid"} ==> s == DistanceBased
  {
    match strategy.GetOr("distance")
    case "distance" => DistanceBased
    case "interests" => InterestBased
    case "random" => RandomPick
    case "hybrid" => HybridScore
    case _ => DistanceBased
  }

  /** The payload `validateUserData` checks. */
  datatype UserData = UserData(userId: Option<string>, location: Option<Location>, preferences: Option<Preferences>)

  datatype Validation = Valid | Invalid(error: string)

  const MISSING_FIELDS := "Missing userId or location"
  const BAD_COORDINATES := "Invalid location coordinates"
  const BAD_AGE := "Age out of range"

  /** A given age: JavaScript-truthy, so an age of 0 counts as not given. */
  predicate AgeGiven(p: Option<Preferences>) {
    p.Some? && TruthyNumber(p.value.age)
  }

  /** `validateUserData`: userId and location present, then both coordinates truthy
      (so 0 is rejected), then a given age within [18, 120]. */
  function ValidateUserData(d: UserData): (r: Validation)
    ensures r == Valid <==>
      && TruthyString(d.userId) && d.location.Some?
      && TruthyNumber(d.location.value.lat) && TruthyNumber(d.location.value.lon)
      && (AgeGiven(d.preferences) ==> AGE_MIN <= d.preferences.value.age.value <= AGE_MAX)
    ensures r == Invalid(MISSING_FIELDS) <==> !TruthyString(d.userId) || d.location.None?
    ensures r == Invalid(BAD_COORDINATES) <==>
      && TruthyString(d.userId) && d.location.Some?
      && (!TruthyNumber(d.location.value.lat) || !TruthyNumber(d.location.value.lon))
    ensures r == Invalid(BAD_AGE) <==>
      && TruthyString(d.userId) && d.location.Some?
      && TruthyNumber(d.location.value.lat) && TruthyNumber(d.location.value.lon)
      && AgeGiven(d.preferences) && !(AGE_MIN <= d.preferences.value.age.value <= AGE_MAX)
    ensures r.Valid? || r in {Invalid(MISSING_FIELDS), Invalid(BAD_COORDINATES), Invalid(BAD_AGE)}
  {
    if !TruthyString(d.userId) || d.location.None? then Invalid(MISSING_FIELDS)
    else if !TruthyNumber(d.location.value.lat) || !TruthyNumber(d.location.value.lon) then Invalid(BAD_COORDINATES)
    else if AgeGiven(d.preferences) && (d.preferences.value.age.value < AGE_MIN || d.preferences.value.age.value > AGE_MAX) then Invalid(BAD_AGE)
    else Valid
  }

  /** A coordinate of exactly 0 (the equator, the prime meridian) is rejected. */
  lemma ZeroCoordinateRejected(userId: string, lon: real)
    requires userId != ""
    ensures ValidateUserData(UserData(Some(userId), Some(Location(Some(0.0), Some(lon), None, None)), None)) == Invalid(BAD_COORDINATES)
  {
  }

  /** An age of 0 is falsy and skips the range check. */
  lemma ZeroAgeSkipsRangeCheck(userId: string, lat: real, lon: real)
    requires userId != "" && lat != 0.0 && lon != 0.0
    ensures ValidateUserData(UserData(Some(userId), Some(Location(Some(lat), Some(lon), None, None)), Some(Preferences(None, Some(0.0))))) == Valid
  {
  }
}
