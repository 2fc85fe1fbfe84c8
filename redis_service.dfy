/**
 * The hash-backed match queue and session store of
 * backend/services/redisService.js, and its nearest-match query.
 *
 * The queue is the Redis hash `match:queue` (field = userId, value = the JSON
 * payload), kept in insertion order. Each session is the hash
 * `match:session:<matchId>` with fields `user1` and `user2` and a TTL.
 * A storage error is a parameter of each operation: the source catches it,
 * logs it, and answers `false`, `[]` or `null`.
 */
module RedisService {
  import opened Common
  import opened OrderedMap
  import opened Geo

  const SESSION_PREFIX := "match:session:"
  const SESSION_TTL: nat := 3600

  /** The JSON object stored for a queued user; `JSON.stringify` drops the
      fields that are `undefined`, so each may be missing. */
  datatype Payload = Payload(
    userId: Option<string>,
    location: Option<Location>,
    preferences: Option<Preferences>,
    joinedAt: Option<real>)

  function SessionKey(matchId: string): string {
    SESSION_PREFIX + matchId
  }

  /** One element of `getMatchQueue`: `{ userId, ...JSON.parse(data) }`, so a
      userId inside the payload overrides the hash field. */
  function ReadEntry(key: string, p: Payload): QueueUser {
    QueueUser(p.userId.GetOr(key), p.location, p.preferences, p.joinedAt)
  }

  /** `Object.entries(hGetAll("match:queue")).map(...)`. */
  function ReadQueue(q: Assoc<string, Payload>): (r: seq<QueueUser>)
    ensures |r| == |q|
    ensures forall i :: 0 <= i < |q| ==> r[i] == ReadEntry(q[i].0, q[i].1)
  {
    seq(|q|, i requires 0 <= i < |q| => ReadEntry(q[i].0, q[i].1))
  }

  /** Every stored payload names no user or the user it is filed under. */
  predicate CarriesKey(q: Assoc<string, Payload>) {
    forall i :: 0 <= i < |q| ==> q[i].1.userId.None? || q[i].1.userId == Some(q[i].0)
  }

  /** Read back, each queue entry carries the userId it was filed under, so
      the userIds of the queue are exactly the hash's fields, in order. */
  lemma ReadQueueUserIds(q: Assoc<string, Payload>)
    requires CarriesKey(q)
    ensures forall i :: 0 <= i < |q| ==> ReadQueue(q)[i].userId == Keys(q)[i]
    ensures forall id :: id in Keys(q) <==> exists u :: u in ReadQueue(q) && u.userId == id
  {
    var r := ReadQueue(q);
    forall id | id in Keys(q) ensures exists u :: u in r && u.userId == id {
      var i :| 0 <= i < |q| && Keys(q)[i] == id;
      assert r[i] in r && r[i].userId == id;
    }
  }

  /** A payload filed under a different key than the userId it names reads
      back under the named user: a key is not enough to find the entry. */
  lemma PayloadUserIdOverridesKey()
    ensures ReadQueue([("alice", Payload(Some("bob"), None, None, None))])[0].userId == "bob"
  {
  }

  /** Putting an entry whose payload carries its key keeps the invariant. */
  lemma PutCarriesKey(q: Assoc<string, Payload>, userId: string, data: Payload)
    requires CarriesKey(q)
    requires data.userId.None? || data.userId == Some(userId)
    ensures CarriesKey(Put(q, userId, data))
  {
    var r := Put(q, userId, data);
    forall i | 0 <= i < |r| ensures r[i].1.userId.None? || r[i].1.userId == Some(r[i].0) {
      PutEntry(q, userId, data, i);
    }
  }

  /** Every entry of `Put(q, k, v)` is `(k, v)` or an entry of `q`. */
  lemma {:induction false} PutEntry<V>(q: Assoc<string, V>, k: string, v: V, i: nat)
    requires i < |Put(q, k, v)|
    ensures Put(q, k, v)[i] == (k, v) || Put(q, k, v)[i] in q
  {
    if q != [] && q[0].0 != k && i > 0 {
      PutEntry(q[1..], k, v, i - 1);
    }
  }

  lemma RemoveCarriesKey(q: Assoc<string, Payload>, userId: string)
    requires CarriesKey(q)
    ensures CarriesKey(Remove(q, userId))
  {
    var r := Remove(q, userId);
    forall i | 0 <= i < |r| ensures r[i].1.userId.None? || r[i].1.userId == Some(r[i].0) {
      RemoveEntry(q, userId, i);
    }
  }

  /** Every entry of `Remove(q, k)` is an entry of `q`. */
  lemma {:induction false} RemoveEntry<V>(q: Assoc<string, V>, k: string, i: nat)
    requires i < |Remove(q, k)|
    ensures Remove(q, k)[i] in q
  {
    if q[0].0 == k {
      RemoveEntry(q[1..], k, i);
    } else if i > 0 {
      RemoveEntry(q[1..], k, i - 1);
    }
  }

  /** HDEL of a field that is not there leaves the hash as it was. */
  lemma {:induction false} RemoveAbsentIsNoOp<V>(q: Assoc<string, V>, k: string)
    requires k !in Keys(q)
    ensures Remove(q, k) == q
  {
    if q != [] {
      assert Keys(q[1..]) == Keys(q)[1..];
      RemoveAbsentIsNoOp(q[1..], k);
    }
  }

  /** HSET of a field that is already there overwrites it: the user appears
      once, with the newest payload, and no entry is added. */
  lemma ReAddOverwrites(q: Assoc<string, Payload>, userId: string, first: Payload, second: Payload)
    requires Valid(q)
    ensures var r := Put(Put(q, userId, first), userId, second);
      && Valid(r)
      && Get(r, userId) == Some(second)
      && |r| == |Put(q, userId, first)|
      && Keys(r) == Keys(Put(q, userId, first))
  {
    PutKeepsValid(q, userId, first);
    PutKeepsValid(Put(q, userId, first), userId, second);
    PutSize(Put(q, userId, first), userId, second);
  }

  /** `calculateDistance`: `Infinity` when either location is missing, otherwise
      the great-circle distance, which is passed in. */
  function CalculateDistance(haversine: (Location, Location) -> real, loc1: Option<Location>, loc2: Option<Location>): (d: Distance)
    ensures d == Infinite <==> loc1.None? || loc2.None?
    ensures loc1.Some? && loc2.Some? ==> d == Km(haversine(loc1.value, loc2.value))
  {
    if loc1.None? || loc2.None? then Infinite else Km(haversine(loc1.value, loc2.value))
  }

  /** `calculateDistance` over a given great-circle formula. */
  function DistanceBy(haversine: (Location, Location) -> real): DistanceFn {
    (l1, l2) => CalculateDistance(haversine, l1, l2)
  }

  /** The selection of `findBestMatch` over a queue already read: the first
      nearest user other than the requester, with no distance cut-off. */
  function NearestOther(userId: string, userLocation: Option<Location>, queue: seq<QueueUser>, distance: DistanceFn): (r: Option<Ranked>)
    ensures r.None? <==> forall u :: u in queue ==> u.userId == userId
    ensures r.Some? ==>
      && r.value.user in queue && r.value.user.userId != userId
      && r.value.distance == distance(userLocation, r.value.user.location)
      && forall u :: u in queue && u.userId != userId ==>
           AtMost(r.value.distance, distance(userLocation, u.location))
  {
    var available := Available(userId, queue);
    if available == [] then None
    else
      var matches := RankAll(userLocation, available, distance);
      var k := FirstMinIndex(DistancesOf(matches));
      FirstNearestIsMinimal(matches, k);
      assert forall u :: u in available ==> Ranked(u, distance(userLocation, u.location)) in matches by {
        forall u | u in available ensures Ranked(u, distance(userLocation, u.location)) in matches {
          var i :| 0 <= i < |available| && available[i] == u;
          assert matches[i] == Ranked(u, distance(userLocation, u.location));
        }
      }
      Some(matches[k])
  }

  /** The hash stored under `key`; Redis treats a missing key as an empty hash. */
  function HashAt(sessions: map<string, Assoc<string, string>>, key: string): Assoc<string, string> {
    if key in sessions then sessions[key] else []
  }

  /** `getMatchSession`'s answer for a hash read: `null` when it has no fields. */
  function SessionView(h: Assoc<string, string>): (r: Option<Assoc<string, string>>)
    ensures r.None? <==> h == []
    ensures r.Some? ==> r.value == h
  {
    if |h| > 0 then Some(h) else None
  }

  /** `getMatchSession` over the session hashes as they are. */
  function LookupSession(sessions: map<string, Assoc<string, string>>, matchId: string, fails: bool): (r: Option<Assoc<string, string>>)
    ensures r.Some? <==> !fails && HashAt(sessions, SessionKey(matchId)) != []
    ensures r.Some? ==> r.value == HashAt(sessions, SessionKey(matchId))
  {
    if fails then None else SessionView(HashAt(sessions, SessionKey(matchId)))
  }

  /** The two field writes of `createMatchSession`. */
  function SessionHash(old_: Assoc<string, string>, user1Id: string, user2Id: string): Assoc<string, string> {
    Put(Put(old_, "user1", user1Id), "user2", user2Id)
  }

  /** A freshly created session reads back with both users. */
  lemma CreatedSessionReadsBack(old_: Assoc<string, string>, user1Id: string, user2Id: string)
    ensures var r := SessionView(SessionHash(old_, user1Id, user2Id));
      && r.Some?
      && Get(r.value, "user1") == Some(user1Id)
      && Get(r.value, "user2") == Some(user2Id)
  {
    var h := SessionHash(old_, user1Id, user2Id);
    assert "user1" != "user2";
    assert "user2" in Keys(h);
  }

  /** Where `createMatchSession` can stop: the source awaits two HSETs and an
      EXPIRE inside one `try`, so a failure keeps the writes before it. */
  datatype SessionWrite = AllSucceed | FirstFieldFails | SecondFieldFails | ExpireFails

  class RedisStore {
    /** The hash `match:queue`. */
    var queue: Assoc<string, Payload>
    /** The hashes `match:session:<matchId>`, by key. */
    var sessions: map<string, Assoc<string, string>>
    /** The TTL in seconds set on each session key. */
    var ttl: map<string, nat>

    ghost predicate Valid()
      reads this
    {
      OrderedMap.Valid(queue) && CarriesKey(queue)
    }

    constructor()
      ensures Valid()
      ensures queue == [] && sessions == map[] && ttl == map[]
    {
      queue := [];
      sessions := map[];
      ttl := map[];
    }

    /** `addToMatchQueue`: HSET of the payload under the userId. */
    method AddToMatchQueue(userId: string, data: Payload, fails: bool) returns (ok: bool)
      requires Valid()
      requires data.userId.None? || data.userId == Some(userId)
      modifies this
      ensures Valid()
      ensures ok == !fails
      ensures queue == if fails then old(queue) else Put(old(queue), userId, data)
      ensures sessions == old(sessions) && ttl == old(ttl)
    {
      if fails {
        return false;
      }
      PutKeepsValid(queue, userId, data);
      PutCarriesKey(queue, userId, data);
      queue := Put(queue, userId, data);
      return true;
    }

    /** `removeFromMatchQueue`: HDEL of the userId. */
    method RemoveFromMatchQueue(userId: string, fails: bool) returns (ok: bool)
      requires Valid()
      modifies this
      ensures Valid()
      ensures ok == !fails
      ensures queue == if fails then old(queue) else Remove(old(queue), userId)
      ensures sessions == old(sessions) && ttl == old(ttl)
    {
      if fails {
        return false;
      }
      RemoveKeepsValid(queue, userId);
      RemoveCarriesKey(queue, userId);
      queue := Remove(queue, userId);
      return true;
    }

    /** `getMatchQueue`: every entry in hash order, or `[]` after a storage error. */
    function GetMatchQueue(fails: bool): (r: seq<QueueUser>)
      reads this
      ensures fails ==> r == []
      ensures !fails && CarriesKey(queue) ==> |r| == |queue| && forall i :: 0 <= i < |r| ==> r[i].userId == queue[i].0
    {
      if fails then []
      else
        ReadQueue(queue)
    }

    /** `findBestMatch`: the nearest other queued user, by `calculateDistance`. */
    function FindBestMatch(userId: string, userLocation: Option<Location>, haversine: (Location, Location) -> real, fails: bool): (r: Option<Ranked>)
      reads this
      ensures r.None? <==> forall u :: u in GetMatchQueue(fails) ==> u.userId == userId
      ensures r.Some? ==>
        && r.value.user in GetMatchQueue(fails) && r.value.user.userId != userId
        && r.value.distance == CalculateDistance(haversine, userLocation, r.value.user.location)
        && forall u :: u in GetMatchQueue(fails) && u.userId != userId ==>
             AtMost(r.value.distance, CalculateDistance(haversine, userLocation, u.location))
    {
      NearestOther(userId, userLocation, GetMatchQueue(fails), DistanceBy(haversine))
    }

    /** `createMatchSession`: HSET user1, HSET user2, EXPIRE 3600. */
    method CreateMatchSession(matchId: string, user1Id: string, user2Id: string, outcome: SessionWrite) returns (ok: bool)
      modifies this
      ensures ok <==> outcome == AllSucceed
      ensures var key := SessionKey(matchId);
        sessions == match outcome
          case FirstFieldFails => old(sessions)
          case SecondFieldFails => old(sessions)[key := Put(HashAt(old(sessions), key), "user1", user1Id)]
          case _ => old(sessions)[key := SessionHash(HashAt(old(sessions), key), user1Id, user2Id)]
      ensures ttl == if outcome == AllSucceed then old(ttl)[SessionKey(matchId) := SESSION_TTL] else old(ttl)
      ensures queue == old(queue)
    {
      var key := SessionKey(matchId);
      var h := HashAt(sessions, key);
      match outcome
      case FirstFieldFails =>
        ok := false;
      case SecondFieldFails =>
        sessions := sessions[key := Put(h, "user1", user1Id)];
        ok := false;
      case ExpireFails =>
        sessions := sessions[key := SessionHash(h, user1Id, user2Id)];
        ok := false;
      case AllSucceed =>
        sessions := sessions[key := SessionHash(h, user1Id, user2Id)];
        ttl := ttl[key := SESSION_TTL];
        ok := true;
    }

    /** `getMatchSession`: the session hash, or `null` when it is empty or the
        read fails. */
    function GetMatchSession(matchId: string, fails: bool): (r: Option<Assoc<string, string>>)
      reads this
      ensures r == LookupSession(sessions, matchId, fails)
    {
      LookupSession(sessions, matchId, fails)
    }
  }

  /** A session whose second field write failed holds user1 only: it reads
      back, but with no `user2`. */
  lemma HalfWrittenSession(user1Id: string)
    ensures var r := SessionView(Put([], "user1", user1Id));
      r.Some? && Get(r.value, "user1") == Some(user1Id) && Get(r.value, "user2") == None
  {
  }
}
