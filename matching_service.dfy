/**
 * The matchmaking scheduler of backend/services/matchingService.js over the
 * Redis keys it uses, held as fields of one object:
 *   waiting_queue      a sorted set of candidates scored by join time   -> `queue`
 *   active_sessions    a set of deviceIds                               -> `active`
 *   match_session:<id> a string key per committed match (TTL 3600 s)    -> `sessions`
 *   device_match_map   a hash deviceId -> matchId                       -> `deviceMatch`
 *   the `matches` pub/sub channel                                       -> `published`
 * One scheduler tick and one cleanup are methods, called explicitly.
 */
module MatchingService {
  import opened Common
  import opened MatchScore

  const SNAPSHOT_LIMIT: nat := 50
  const SESSION_TTL: nat := 3600
  const MATCH_SESSION_PREFIX: string := "match_session:"

  /** A sorted-set member (a candidate's JSON, parsed) and its score (the join time). */
  datatype Entry = Entry(member: Candidate, joinTime: real)

  datatype Participant = Participant(deviceId: string, nickname: string)

  datatype MatchRecord = MatchRecord(
    matchId: string,
    userA: Participant,
    userB: Participant,
    reason: Strength,
    timestamp: real)

  /** A session string key: its value and the expiry it was written with. */
  datatype StoredSession = StoredSession(record: MatchRecord, ttl: nat)

  /** The engine's Redis state as one value. */
  datatype Store = Store(
    queue: seq<Entry>,
    active: set<string>,
    sessions: map<string, StoredSession>,
    deviceMatch: map<string, string>,
    published: seq<MatchRecord>)

  function SessionKey(matchId: string): string {
    MATCH_SESSION_PREFIX + matchId
  }

  /** A sorted set: ordered by score, each member once. */
  predicate WellFormedQueue(q: seq<Entry>) {
    && (forall i, j :: 0 <= i < j < |q| ==> q[i].joinTime <= q[j].joinTime)
    && (forall i, j :: 0 <= i < j < |q| ==> q[i].member != q[j].member)
  }

  /** A sorted set's tail is a sorted set that its head precedes. */
  lemma WellFormedTail(q: seq<Entry>)
    requires WellFormedQueue(q) && q != []
    ensures WellFormedQueue(q[1..])
    ensures forall e :: e in q[1..] ==> q[0].joinTime <= e.joinTime && q[0].member != e.member
  {
    var t := q[1..];
    forall i, j | 0 <= i < j < |t| ensures t[i].joinTime <= t[j].joinTime && t[i].member != t[j].member {
      assert t[i] == q[i + 1] && t[j] == q[j + 1];
    }
    forall e | e in t ensures q[0].joinTime <= e.joinTime && q[0].member != e.member {
      var k :| 0 <= k < |t| && t[k] == e;
      assert q[k + 1] == e;
    }
  }

  /** An entry that precedes every entry of a sorted set, and differs from
      them, can be put in front of it. */
  lemma WellFormedCons(x: Entry, q: seq<Entry>)
    requires WellFormedQueue(q)
    requires forall e :: e in q ==> x.joinTime <= e.joinTime && x.member != e.member
    ensures WellFormedQueue([x] + q)
  {
    var xq := [x] + q;
    forall i, j | 0 <= i < j < |xq| ensures xq[i].joinTime <= xq[j].joinTime && xq[i].member != xq[j].member {
      assert xq[j] == q[j - 1];
      if i > 0 {
        assert xq[i] == q[i - 1];
      } else {
        assert q[j - 1] in q;
      }
    }
  }

  /** ZRANGE 0 49: the first fifty entries in score order. */
  function Snapshot(q: seq<Entry>): (snap: seq<Entry>)
    ensures |snap| <= SNAPSHOT_LIMIT
    ensures |snap| == if |q| < SNAPSHOT_LIMIT then |q| else SNAPSHOT_LIMIT
    ensures snap == q[..|snap|]
  {
    if |q| < SNAPSHOT_LIMIT then q else q[..SNAPSHOT_LIMIT]
  }

  /** ZREM: every entry whose member is `m` is dropped; the rest keep their order. */
  function Zrem(q: seq<Entry>, m: Candidate): (r: seq<Entry>)
    ensures forall e :: e in r <==> e in q && e.member != m
    ensures |r| <= |q|
  {
    if q == [] then []
    else if q[0].member == m then Zrem(q[1..], m)
    else [q[0]] + Zrem(q[1..], m)
  }

  /** Removing members keeps a sorted set sorted and free of repeats. */
  lemma {:induction false} ZremKeepsWellFormed(q: seq<Entry>, m: Candidate)
    requires WellFormedQueue(q)
    ensures WellFormedQueue(Zrem(q, m))
  {
    if q != [] {
      WellFormedTail(q);
      ZremKeepsWellFormed(q[1..], m);
      if q[0].member != m {
        WellFormedCons(q[0], Zrem(q[1..], m));
      }
    }
  }

  // ------------------------------------------------------------------ selection

  /** The pair (i, k) of the snapshot is scored at all: different devices. */
  predicate Eligible(snap: seq<Entry>, i: nat, k: nat)
    requires i < |snap| && k < |snap|
  {
    snap[i].member.deviceId != snap[k].member.deviceId
  }

  /** A scoring function with the signature of `calculateMatchScore`; the engine
      uses `Score`, and the selection below is stated for any such function. */
  type Scorer = (Candidate, Candidate, real, real, int) -> Outcome<Option<Match>>

  /** The scorer's answer for (i, k): B's join time is the entry's score, and the
      queue size is the snapshot size. */
  function PairScore(sc: Scorer, snap: seq<Entry>, now: real, i: nat, k: nat): Outcome<Option<Match>>
    requires i < |snap| && k < |snap|
  {
    sc(snap[i].member, snap[k].member, now, snap[k].joinTime, |snap|)
  }

  /** Every eligible pair starting in one of the first `rows` rows was rejected. */
  predicate RowsRejected(sc: Scorer, snap: seq<Entry>, now: real, rows: nat) {
    forall i, k :: 0 <= i < rows && i < k < |snap| && Eligible(snap, i, k) ==> PairScore(sc, snap, now, i, k) == Returned(None)
  }

  /** Row `i` was scored without an exception up to (excluding) column `upto`. */
  predicate RowScoredUpTo(sc: Scorer, snap: seq<Entry>, now: real, i: nat, upto: nat)
    requires i < |snap|
  {
    forall k :: i < k < upto && k < |snap| && Eligible(snap, i, k) ==> PairScore(sc, snap, now, i, k).Returned?
  }

  /** Every eligible pair of row `i` was scored and rejected. */
  predicate RowRejected(sc: Scorer, snap: seq<Entry>, now: real, i: nat)
    requires i < |snap|
  {
    forall k :: i < k < |snap| && Eligible(snap, i, k) ==> PairScore(sc, snap, now, i, k) == Returned(None)
  }

  /** In row `i`, `m` on column `j` is the pick: every other `k > i` was scored and
      none beat `m`, and every `k` before `j` scored strictly lower (the first best
      wins ties). */
  predicate BestInRow(sc: Scorer, snap: seq<Entry>, now: real, i: nat, j: nat, m: Match) {
    && i < j < |snap|
    && Eligible(snap, i, j)
    && PairScore(sc, snap, now, i, j) == Returned(Some(m))
    && RowScoredUpTo(sc, snap, now, i, |snap|)
    && (forall k :: i < k < |snap| && Eligible(snap, i, k) && PairScore(sc, snap, now, i, k).value.Some? ==>
          PairScore(sc, snap, now, i, k).value.value.score <= m.score)
    && (forall k :: i < k < j && Eligible(snap, i, k) && PairScore(sc, snap, now, i, k).value.Some? ==>
          PairScore(sc, snap, now, i, k).value.value.score < m.score)
  }

  /** `m` on the pair (i, j) is what a tick commits: the earlier rows had no
      acceptable pair, and `j` is the pick of row `i`. */
  predicate IsChosenPair(sc: Scorer, snap: seq<Entry>, now: real, i: nat, j: nat, m: Match) {
    RowsRejected(sc, snap, now, i) && BestInRow(sc, snap, now, i, j, m)
  }

  /** How the scan of one row ended. */
  datatype RowResult =
    | RowThrew(k: nat)         // scoring (i, k) threw
    | RowNone                  // no acceptable partner in the row
    | RowBest(j: nat, m: Match)

  /** The inner loop of a tick: the strictly best later partner of candidate `i`. */
  method ScanRow(sc: Scorer, snap: seq<Entry>, now: real, i: nat) returns (r: RowResult)
    requires i < |snap|
    ensures r.RowThrew? ==>
      i < r.k < |snap| && Eligible(snap, i, r.k) && PairScore(sc, snap, now, i, r.k).Threw? && RowScoredUpTo(sc, snap, now, i, r.k)
    ensures r.RowNone? ==> RowRejected(sc, snap, now, i)
    ensures r.RowBest? ==> BestInRow(sc, snap, now, i, r.j, r.m)
  {
    var n := |snap|;
    var best: int := -1;
    var bestMatch := Match(0.0, LowTrafficCompatibility);
    var j := i + 1;
    while j < n
      invariant i + 1 <= j <= n
      invariant RowScoredUpTo(sc, snap, now, i, j)
      invariant best == -1 ==> forall k :: i < k < j && Eligible(snap, i, k) ==> PairScore(sc, snap, now, i, k) == Returned(None)
      invariant best != -1 ==> i < best < j && Eligible(snap, i, best) && PairScore(sc, snap, now, i, best) == Returned(Some(bestMatch))
      invariant best != -1 ==> forall k :: i < k < j && Eligible(snap, i, k) && PairScore(sc, snap, now, i, k).value.Some? ==>
                  PairScore(sc, snap, now, i, k).value.value.score <= bestMatch.score
      invariant best != -1 ==> forall k :: i < k < best && Eligible(snap, i, k) && PairScore(sc, snap, now, i, k).value.Some? ==>
                  PairScore(sc, snap, now, i, k).value.value.score < bestMatch.score
    {
      if snap[i].member.deviceId != snap[j].member.deviceId {
        var res := PairScore(sc, snap, now, i, j);
        if res.Threw? {
          return RowThrew(j);
        }
        if res.value.Some? && (best == -1 || res.value.value.score > bestMatch.score) {
          best, bestMatch := j, res.value.value;
        }
      }
      j := j + 1;
    }
    if best == -1 {
      return RowNone;
    }
    return RowBest(best, bestMatch);
  }

  /** The match record a commit writes and publishes. */
  function RecordOf(matchId: string, a: Candidate, b: Candidate, m: Match, now: real): MatchRecord {
    MatchRecord(matchId, Participant(a.deviceId, a.nickname), Participant(b.deviceId, b.nickname), m.strength, now)
  }

  /** The pipeline of a commit: remove both members from the queue,
      mark both devices active, write the session with its TTL, map both devices
      to the match, publish. */
  function ApplyCommit(s: Store, a: Candidate, b: Candidate, matchId: string, rec: MatchRecord): Store {
    Store(
      Zrem(Zrem(s.queue, a), b),
      s.active + {a.deviceId, b.deviceId},
      s.sessions[SessionKey(matchId) := StoredSession(rec, SESSION_TTL)],
      s.deviceMatch[a.deviceId := matchId][b.deviceId := matchId],
      s.published + [rec])
  }

  /** The deletions of `cleanupMatchData`. */
  function CleanupState(s: Store, matchId: string, deviceIds: seq<string>): Store {
    s.(sessions := s.sessions - {SessionKey(matchId)},
       deviceMatch := s.deviceMatch - ToSet(deviceIds),
       active := s.active - ToSet(deviceIds))
  }

  function PoolDevices(q: seq<Entry>): set<string> {
    set e | e in q :: e.member.deviceId
  }

  /** How one scheduler tick ended. */
  datatype TickOutcome =
    | ReadFailed                       // ZRANGE rejected; the catch swallowed it
    | TooFew                           // fewer than two candidates in the snapshot
    | NoPair                           // every eligible pair was rejected
    | Abandoned(i: nat, k: nat)        // scoring (i, k) threw; the tick was dropped
    | Paired(i: nat, j: nat, m: Match) // (i, j) was committed

  /** The outer loop of a tick over the snapshot: rows in order until one
      throws or has an acceptable partner. */
  method SelectPair(sc: Scorer, snap: seq<Entry>, now: real) returns (outcome: TickOutcome)
    ensures !outcome.TooFew? && !outcome.ReadFailed?
    ensures outcome.NoPair? ==> RowsRejected(sc, snap, now, |snap|)
    ensures outcome.Abandoned? ==>
      outcome.i < outcome.k < |snap| && Eligible(snap, outcome.i, outcome.k)
      && PairScore(sc, snap, now, outcome.i, outcome.k).Threw?
      && RowsRejected(sc, snap, now, outcome.i) && RowScoredUpTo(sc, snap, now, outcome.i, outcome.k)
    ensures outcome.Paired? ==> IsChosenPair(sc, snap, now, outcome.i, outcome.j, outcome.m)
  {
    var i := 0;
    while i < |snap|
      invariant 0 <= i <= |snap|
      invariant RowsRejected(sc, snap, now, i)
    {
      var row := ScanRow(sc, snap, now, i);
      if row.RowThrew? {
        return Abandoned(i, row.k);
      }
      if row.RowBest? {
        return Paired(i, row.j, row.m);
      }
      RowsRejectedNext(sc, snap, now, i);
      i := i + 1;
    }
    return NoPair;
  }

  /** One more rejected row extends the rejected prefix. */
  lemma RowsRejectedNext(sc: Scorer, snap: seq<Entry>, now: real, i: nat)
    requires i < |snap| && RowsRejected(sc, snap, now, i) && RowRejected(sc, snap, now, i)
    ensures RowsRejected(sc, snap, now, i + 1)
  {
  }

  class MatchStore {
    var queue: seq<Entry>
    var active: set<string>
    var sessions: map<string, StoredSession>
    var deviceMatch: map<string, string>
    var published: seq<MatchRecord>

    function State(): Store
      reads this
    {
      Store(queue, active, sessions, deviceMatch, published)
    }

    constructor ()
      ensures State() == Store([], {}, map[], map[], [])
    {
      queue, active, sessions, deviceMatch, published := [], {}, map[], map[], [];
    }

    /** One run of the `setInterval` body of `processQueue`; `readFails` says
        whether the ZRANGE call rejects. */
    method Tick(now: real, matchId: string, readFails: bool) returns (outcome: TickOutcome)
      requires WellFormedQueue(queue)
      modifies this
      ensures WellFormedQueue(queue)
      ensures outcome.ReadFailed? <==> readFails
      ensures outcome.TooFew? <==> !readFails && |Snapshot(old(queue))| < 2
      ensures !outcome.Paired? ==> State() == old(State())
      ensures outcome.NoPair? ==> RowsRejected(Score, Snapshot(old(queue)), now, |Snapshot(old(queue))|)
      ensures outcome.Abandoned? ==>
        var snap := Snapshot(old(queue));
        outcome.i < outcome.k < |snap| && Eligible(snap, outcome.i, outcome.k)
        && PairScore(Score, snap, now, outcome.i, outcome.k).Threw?
        && RowsRejected(Score, snap, now, outcome.i) && RowScoredUpTo(Score, snap, now, outcome.i, outcome.k)
      ensures outcome.Paired? ==>
        var snap := Snapshot(old(queue));
        IsChosenPair(Score, snap, now, outcome.i, outcome.j, outcome.m)
        && var a, b := snap[outcome.i].member, snap[outcome.j].member;
        State() == ApplyCommit(old(State()), a, b, matchId, RecordOf(matchId, a, b, outcome.m, now))
    {
      if readFails {
        return ReadFailed;
      }
      var snap := Snapshot(queue);
      if |snap| < 2 {
        return TooFew;
      }
      outcome := SelectPair(Score, snap, now);
      if outcome.Paired? {
        var a, b := snap[outcome.i].member, snap[outcome.j].member;
        Commit(a, b, matchId, RecordOf(matchId, a, b, outcome.m, now));
      }
    }

    /** The pipeline of a commit, applied as one step with every command succeeding. */
    method Commit(a: Candidate, b: Candidate, matchId: string, rec: MatchRecord)
      requires WellFormedQueue(queue)
      modifies this
      ensures WellFormedQueue(queue)
      ensures State() == ApplyCommit(old(State()), a, b, matchId, rec)
    {
      ZremKeepsWellFormed(queue, a);
      ZremKeepsWellFormed(Zrem(queue, a), b);
      queue := Zrem(Zrem(queue, a), b);
      active := active + {a.deviceId, b.deviceId};
      sessions := sessions[SessionKey(matchId) := StoredSession(rec, SESSION_TTL)];
      deviceMatch := deviceMatch[a.deviceId := matchId][b.deviceId := matchId];
      published := published + [rec];
    }

    /** `cleanupMatchData`, run when its grace delay has elapsed. */
    method Cleanup(matchId: string, deviceIds: seq<string>)
      modifies this
      ensures State() == CleanupState(old(State()), matchId, deviceIds)
    {
      sessions := sessions - {SessionKey(matchId)};
      for k := 0 to |deviceIds|
        invariant deviceMatch == old(deviceMatch) - ToSet(deviceIds[..k])
        invariant active == old(active) - ToSet(deviceIds[..k])
        invariant sessions == old(sessions) - {SessionKey(matchId)}
        invariant queue == old(queue) && published == old(published)
      {
        assert ToSet(deviceIds[..k + 1]) == ToSet(deviceIds[..k]) + {deviceIds[k]};
        deviceMatch := deviceMatch - {deviceIds[k]};
        active := active - {deviceIds[k]};
      }
      assert deviceIds[..|deviceIds|] == deviceIds;
    }
  }

  // ------------------------------------------------------------------ properties

  /** A committed pair consists of two different queue members of different devices. */
  lemma ChosenPairIsTwoMembers(sc: Scorer, snap: seq<Entry>, now: real, i: nat, j: nat, m: Match)
    requires IsChosenPair(sc, snap, now, i, j, m)
    ensures snap[i].member != snap[j].member
    ensures snap[i].member.deviceId != snap[j].member.deviceId
  {
  }

  /** The commit removes exactly the two chosen members from the queue. */
  lemma CommitRemovesExactlyThePair(s: Store, a: Candidate, b: Candidate, matchId: string, rec: MatchRecord)
    ensures forall e :: e in ApplyCommit(s, a, b, matchId, rec).queue <==> e in s.queue && e.member != a && e.member != b
  {
  }

  /** In a sorted set holding both members once each, the queue shrinks by exactly two. */
  lemma {:induction false} ZremAbsent(q: seq<Entry>, m: Candidate)
    requires forall e :: e in q ==> e.member != m
    ensures Zrem(q, m) == q
  {
    if q != [] {
      ZremAbsent(q[1..], m);
      assert [q[0]] + q[1..] == q;
    }
  }

  /** In a sorted set, removing a present member drops exactly one entry. */
  lemma {:induction false} ZremPresent(q: seq<Entry>, e: Entry)
    requires WellFormedQueue(q) && e in q
    ensures |Zrem(q, e.member)| == |q| - 1
  {
    WellFormedTail(q);
    if q[0] == e {
      ZremAbsent(q[1..], e.member);
    } else {
      ZremPresent(q[1..], e);
    }
  }

  /** With both members queued once each, the queue shrinks by exactly two. */
  lemma CommitShrinksQueueByTwo(s: Store, ea: Entry, eb: Entry, matchId: string, rec: MatchRecord)
    requires WellFormedQueue(s.queue) && ea in s.queue && eb in s.queue && ea.member != eb.member
    ensures |ApplyCommit(s, ea.member, eb.member, matchId, rec).queue| == |s.queue| - 2
  {
    ZremPresent(s.queue, ea);
    var q1 := Zrem(s.queue, ea.member);
    ZremKeepsWellFormed(s.queue, ea.member);
    ZremPresent(q1, eb);
  }

  /** Both devices end up active and mapped to the same new match, whose record is
      stored with the one-hour TTL and published once. */
  lemma CommitRegistersBoth(s: Store, a: Candidate, b: Candidate, matchId: string, rec: MatchRecord)
    ensures var t := ApplyCommit(s, a, b, matchId, rec);
      && a.deviceId in t.active && b.deviceId in t.active
      && t.deviceMatch[a.deviceId] == matchId && t.deviceMatch[b.deviceId] == matchId
      && t.sessions[SessionKey(matchId)] == StoredSession(rec, 3600)
      && t.published == s.published + [rec]
      && t.active - {a.deviceId, b.deviceId} == s.active - {a.deviceId, b.deviceId}
  {
  }

  /** The commit keeps the waiting devices and the active devices disjoint, provided
      each of the two chosen devices has only the chosen entry in the queue. */
  lemma CommitKeepsPoolAndActiveDisjoint(s: Store, a: Candidate, b: Candidate, matchId: string, rec: MatchRecord)
    requires PoolDevices(s.queue) !! s.active
    requires forall e :: e in s.queue && e.member.deviceId == a.deviceId ==> e.member == a
    requires forall e :: e in s.queue && e.member.deviceId == b.deviceId ==> e.member == b
    ensures var t := ApplyCommit(s, a, b, matchId, rec); PoolDevices(t.queue) !! t.active
  {
    var t := ApplyCommit(s, a, b, matchId, rec);
    forall d | d in PoolDevices(t.queue) ensures d !in t.active {
      var e :| e in t.queue && e.member.deviceId == d;
      assert e in s.queue;
    }
  }

  /** Without that proviso the commit can leave a matched device waiting: a device
      queued twice (two different member strings) keeps one entry after its match. */
  lemma CommitCanLeaveActiveDeviceQueued()
    ensures
      var ans := Some(map["q1" := "x"]);
      var a1 := Candidate("dev-a", "Ann", None, ans);
      var a2 := Candidate("dev-a", "Annie", None, ans);
      var b := Candidate("dev-b", "Bob", None, ans);
      var s := Store([Entry(a1, 1.0), Entry(a2, 2.0), Entry(b, 3.0)], {}, map[], map[], []);
      var t := ApplyCommit(s, a1, b, "m1", RecordOf("m1", a1, b, Match(8.0, StrongPersonalityAlignment), 4.0));
      PoolDevices(s.queue) !! s.active && "dev-a" in PoolDevices(t.queue) && "dev-a" in t.active
  {
    var ans := Some(map["q1" := "x"]);
    var a1 := Candidate("dev-a", "Ann", None, ans);
    var a2 := Candidate("dev-a", "Annie", None, ans);
    var b := Candidate("dev-b", "Bob", None, ans);
    var s := Store([Entry(a1, 1.0), Entry(a2, 2.0), Entry(b, 3.0)], {}, map[], map[], []);
    var t := ApplyCommit(s, a1, b, "m1", RecordOf("m1", a1, b, Match(8.0, StrongPersonalityAlignment), 4.0));
    assert Entry(a2, 2.0) in t.queue;
  }

  /** Cleanup run twice leaves the same state as cleanup run once. */
  lemma CleanupIdempotent(s: Store, matchId: string, deviceIds: seq<string>)
    ensures CleanupState(CleanupState(s, matchId, deviceIds), matchId, deviceIds) == CleanupState(s, matchId, deviceIds)
  {
  }

  /** Cleanup removes the session key and the listed devices and touches nothing else. */
  lemma CleanupRemovesOnlyListed(s: Store, matchId: string, deviceIds: seq<string>)
    ensures var t := CleanupState(s, matchId, deviceIds);
      && SessionKey(matchId) !in t.sessions
      && (forall d :: d in deviceIds ==> d !in t.deviceMatch && d !in t.active)
      && (forall key :: key in s.sessions && key != SessionKey(matchId) ==> key in t.sessions && t.sessions[key] == s.sessions[key])
      && (forall d :: d in s.deviceMatch && d !in deviceIds ==> d in t.deviceMatch && t.deviceMatch[d] == s.deviceMatch[d])
      && (forall d :: d in s.active && d !in deviceIds ==> d in t.active)
      && t.queue == s.queue && t.published == s.published
  {
  }

  /** Cleaning up a match right after its commit, with both of its devices, gives back
      the previous active set, device map and session keys, except that the two devices
      are no longer active or mapped even if they were before. */
  lemma CleanupUndoesCommit(s: Store, a: Candidate, b: Candidate, matchId: string, rec: MatchRecord)
    ensures var t := CleanupState(ApplyCommit(s, a, b, matchId, rec), matchId, [a.deviceId, b.deviceId]);
      && t.active == s.active - {a.deviceId, b.deviceId}
      && t.deviceMatch == s.deviceMatch - {a.deviceId, b.deviceId}
      && t.sessions == s.sessions - {SessionKey(matchId)}
  {
    var ids := [a.deviceId, b.deviceId];
    assert ToSet(ids) == {a.deviceId, b.deviceId};
  }
}
