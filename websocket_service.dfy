/**
 * The location-based socket server of backend/services/websocketService.js.
 *
 * The `connections` Map (userId -> socket, location, matchId) is a field of
 * `LocationServer`; each `handle*` function is a method that rewrites it and
 * the Redis store behind it. What a handler sends is appended to `outbox`,
 * addressed to a socket. The socket that a message arrived on (`ws` in the
 * source) and the socket registered for a user can differ, so both appear.
 * Storage is taken not to fail here; `RedisService` models its errors.
 */
module WebsocketService {
  import opened Common
  import opened OrderedMap
  import opened Geo
  import opened JsText
  import opened RedisService

  type SocketId = nat

  /** An entry of `connections`. */
  datatype Connection = Connection(socket: SocketId, location: Option<Location>, matchId: Option<string>, joinedAt: real)

  /** The JSON messages the server sends. */
  datatype Outgoing =
    | ConnectionAck(userId: string)
    | MatchFound(matchId: string, partnerId: string, partnerLocation: Option<Location>)
    | WaitingForMatch
    | MatchStarted(sessionId: Option<string>, startedWith: string)
    | ChatFrom(from: string, text: Option<string>, timestamp: real)
    | ChatSent(sentAt: real)
    | MatchRejected
    | PartnerLeft
    | PartnerDisconnected
    | ErrorReply(error: string)

  datatype Delivery = Delivery(to: SocketId, message: Outgoing)

  /** The fields of an incoming `payload` that the handlers read. */
  datatype Request = Request(
    latitude: Option<real>,
    longitude: Option<real>,
    city: Option<string>,
    country: Option<string>,
    preferences: Option<Preferences>,
    text: Option<string>,
    matchId: Option<string>)

  /** A parsed incoming message `{ type, payload }`. */
  datatype Incoming = Incoming(kind: string, payload: Option<Request>)

  const INVALID_FORMAT := "Invalid message format"
  const UNKNOWN_TYPE := "Unknown message type"

  /** `session.user1 === userId ? session.user2 : session.user1`; a missing
      field is `undefined`. */
  function Partner(session: Assoc<string, string>, userId: string): Option<string> {
    if Get(session, "user1") == Some(userId) then Get(session, "user2") else Get(session, "user1")
  }

  /** In a session of two different users, each one's partner is the other. */
  lemma PartnerIsTheOther(session: Assoc<string, string>, a: string, b: string)
    requires Get(session, "user1") == Some(a) && Get(session, "user2") == Some(b)
    requires a != b
    ensures Partner(session, a) == Some(b)
    ensures Partner(session, b) == Some(a)
  {
  }

  /** A caller who is not in the session is sent to user1, and in a session of a
      user with itself the partner is that same user. */
  lemma PartnerOfOutsiderIsUser1(session: Assoc<string, string>, a: string, b: string, c: string)
    requires Get(session, "user1") == Some(a) && Get(session, "user2") == Some(b)
    ensures c != a ==> Partner(session, c) == Some(a)
    ensures a == b ==> Partner(session, a) == Some(a)
  {
  }

  /** The session's partner, when the session holds one for this user. */
  function PartnerIn(session: Option<Assoc<string, string>>, userId: string): Option<string> {
    if session.None? then None else Partner(session.value, userId)
  }

  /** `the `${matchId}`` text of an optional id. */
  function IdText(matchId: Option<string>): string {
    matchId.GetOr("undefined")
  }

  /** `{ lat: payload.latitude, lon: payload.longitude, city, country }`. */
  function LocationOf(r: Request): Location {
    Location(r.latitude, r.longitude, r.city, r.country)
  }

  /** The queue payload `handleFindMatch` stores. */
  function QueueData(userId: string, c: Connection, r: Request, now: real): RedisService.Payload {
    RedisService.Payload(Some(userId), c.location, Some(r.preferences.GetOr(Preferences(None, None))), Some(now))
  }

  /** The session hash `getMatchSession` answers for this id. */
  function SessionOf(sessions: map<string, Assoc<string, string>>, matchId: Option<string>): Option<Assoc<string, string>> {
    LookupSession(sessions, IdText(matchId), false)
  }

  /** The socket of the `partnerConnection` a handler notifies, if the
      partner is connected. */
  function PartnerSocket(connections: map<string, Connection>, session: Option<Assoc<string, string>>, userId: string): (r: Option<SocketId>)
    ensures r.Some? <==> PartnerIn(session, userId).Some? && PartnerIn(session, userId).value in connections
    ensures r.Some? ==> r.value == connections[PartnerIn(session, userId).value].socket
  {
    var p := PartnerIn(session, userId);
    if p.Some? && p.value in connections then Some(connections[p.value].socket) else None
  }

  class LocationServer {
    var connections: map<string, Connection>
    var outbox: seq<Delivery>
    const redis: RedisStore

    ghost predicate Valid()
      reads this, redis
    {
      redis.Valid()
    }

    constructor(store: RedisStore)
      ensures redis == store
      ensures connections == map[] && outbox == []
    {
      redis := store;
      connections := map[];
      outbox := [];
    }

    /** The `connection` event: register the user (the query's `userId`, or a
        fresh uuid) with no location and no match, and acknowledge. */
    method Connect(ws: SocketId, requested: Option<string>, freshId: string, now: real) returns (userId: string)
      modifies this
      ensures userId == if TruthyString(requested) then requested.value else freshId
      ensures connections == old(connections)[userId := Connection(ws, None, None, now)]
      ensures outbox == old(outbox) + [Delivery(ws, ConnectionAck(userId))]
    {
      userId := if TruthyString(requested) then requested.value else freshId;
      connections := connections[userId := Connection(ws, None, None, now)];
      outbox := outbox + [Delivery(ws, ConnectionAck(userId))];
    }

    /** `handleLocationUpdate`: replace the caller's location, when the caller
        is connected. Reading a missing payload throws. */
    method HandleLocationUpdate(userId: string, payload: Option<Request>) returns (threw: bool)
      modifies this
      ensures threw <==> userId in old(connections) && payload.None?
      ensures connections == if userId in old(connections) && payload.Some?
        then old(connections)[userId := old(connections)[userId].(location := Some(LocationOf(payload.value)))]
        else old(connections)
      ensures outbox == old(outbox)
    {
      threw := false;
      if userId in connections {
        if payload.None? {
          return true;
        }
        var c := connections[userId];
        connections := connections[userId := c.(location := Some(LocationOf(payload.value)))];
      }
    }

    /** `handleFindMatch`: queue the caller, look for the nearest other queued
        user, and on a match create the session, tell both, and take both off
        the queue. */
    method HandleFindMatch(userId: string, payload: Option<Request>, now: real, matchId: string,
                           haversine: (Location, Location) -> real) returns (threw: bool)
      requires Valid()
      modifies this, redis
      ensures Valid()
      ensures connections == old(connections)
      ensures threw <==> userId in old(connections) && payload.None?
      ensures userId !in old(connections) || payload.None? ==>
        outbox == old(outbox) && redis.queue == old(redis.queue) && redis.sessions == old(redis.sessions) && redis.ttl == old(redis.ttl)
      ensures userId in old(connections) && payload.Some? ==>
        var c := old(connections)[userId];
        var queued := Put(old(redis.queue), userId, QueueData(userId, c, payload.value, now));
        var found := NearestOther(userId, c.location, ReadQueue(queued), DistanceBy(haversine));
        if found.None? then
          && redis.queue == queued
          && Get(redis.queue, userId) == Some(QueueData(userId, c, payload.value, now))
          && redis.sessions == old(redis.sessions) && redis.ttl == old(redis.ttl)
          && outbox == old(outbox) + [Delivery(c.socket, WaitingForMatch)]
        else
          var p := found.value.user.userId;
          var key := SessionKey(matchId);
          && redis.queue == Remove(Remove(queued, userId), p)
          && userId !in Keys(redis.queue) && p !in Keys(redis.queue)
          && redis.sessions == old(redis.sessions)[key := SessionHash(HashAt(old(redis.sessions), key), userId, p)]
          && redis.ttl == old(redis.ttl)[key := SESSION_TTL]
          && outbox == old(outbox) + [Delivery(c.socket, MatchFound(matchId, p, found.value.user.location))]
               + (if p in old(connections) then [Delivery(old(connections)[p].socket, MatchFound(matchId, userId, c.location))] else [])
    {
      if userId !in connections {
        return false;
      }
      if payload.None? {
        return true;
      }
      threw := false;
      var c := connections[userId];
      var _ := redis.AddToMatchQueue(userId, QueueData(userId, c, payload.value, now), false);
      var found := redis.FindBestMatch(userId, c.location, haversine, false);
      if found.Some? {
        AnnounceMatch(userId, c, found.value.user, matchId);
      } else {
        outbox := outbox + [Delivery(c.socket, WaitingForMatch)];
      }
    }

    /** The matched branch of `handleFindMatch`: create the session, send
        `match_found` to the caller and to a connected partner, and take both
        off the queue. */
    method AnnounceMatch(userId: string, c: Connection, partner: QueueUser, matchId: string)
      requires Valid()
      modifies this, redis
      ensures Valid()
      ensures connections == old(connections)
      ensures redis.queue == Remove(Remove(old(redis.queue), userId), partner.userId)
      ensures userId !in Keys(redis.queue) && partner.userId !in Keys(redis.queue)
      ensures var key := SessionKey(matchId);
        redis.sessions == old(redis.sessions)[key := SessionHash(HashAt(old(redis.sessions), key), userId, partner.userId)]
      ensures redis.ttl == old(redis.ttl)[SessionKey(matchId) := SESSION_TTL]
      ensures outbox == old(outbox) + [Delivery(c.socket, MatchFound(matchId, partner.userId, partner.location))]
        + (if partner.userId in old(connections)
           then [Delivery(old(connections)[partner.userId].socket, MatchFound(matchId, userId, c.location))]
           else [])
    {
      var p := partner.userId;
      var _ := redis.CreateMatchSession(matchId, userId, p, AllSucceed);
      outbox := outbox + [Delivery(c.socket, MatchFound(matchId, p, partner.location))];
      if p in connections {
        outbox := outbox + [Delivery(connections[p].socket, MatchFound(matchId, userId, c.location))];
      }
      ghost var queued := redis.queue;
      var _ := redis.RemoveFromMatchQueue(userId, false);
      var _ := redis.RemoveFromMatchQueue(p, false);
      assert Get(redis.queue, p) == None;
      assert Get(Remove(queued, userId), userId) == None;
    }

    /** `handleAcceptMatch`: record the match id on the caller's connection;
        when the session exists and the partner is connected, tell both that
        the match started. Destructuring a missing payload throws. */
    method HandleAcceptMatch(userId: string, payload: Option<Request>) returns (threw: bool)
      modifies this
      ensures threw <==> payload.None?
      ensures connections == if userId in old(connections) && payload.Some?
        then old(connections)[userId := old(connections)[userId].(matchId := payload.value.matchId)]
        else old(connections)
      ensures outbox == if userId in old(connections) && payload.Some?
        then
          var mid := payload.value.matchId;
          var partnerSock := PartnerSocket(connections, SessionOf(old(redis.sessions), mid), userId);
          if partnerSock.Some?
          then old(outbox) + [Delivery(old(connections)[userId].socket, MatchStarted(mid, PartnerIn(SessionOf(old(redis.sessions), mid), userId).value)),
                              Delivery(partnerSock.value, MatchStarted(mid, userId))]
          else old(outbox)
        else old(outbox)
    {
      if payload.None? {
        return true;
      }
      threw := false;
      if userId !in connections {
        return;
      }
      var mid := payload.value.matchId;
      var c := connections[userId].(matchId := mid);
      connections := connections[userId := c];
      var session := redis.GetMatchSession(IdText(mid), false);
      var partnerSock := PartnerSocket(connections, session, userId);
      if partnerSock.Some? {
        outbox := outbox + [Delivery(c.socket, MatchStarted(mid, PartnerIn(session, userId).value)),
                            Delivery(partnerSock.value, MatchStarted(mid, userId))];
      }
    }

    /** `handleChatMessage`: relay the text to the partner and acknowledge,
        only when the caller has a match id, the session exists and the
        partner is connected. */
    method HandleChatMessage(userId: string, payload: Option<Request>, now: real) returns (threw: bool)
      modifies this
      ensures connections == old(connections)
      ensures var relays := userId in old(connections) && TruthyString(old(connections)[userId].matchId)
                && PartnerSocket(old(connections), SessionOf(old(redis.sessions), old(connections)[userId].matchId), userId).Some?;
        && (threw <==> relays && payload.None?)
        && outbox == if relays && payload.Some?
             then old(outbox) + [Delivery(PartnerSocket(old(connections), SessionOf(old(redis.sessions), old(connections)[userId].matchId), userId).value, ChatFrom(userId, payload.value.text, now)),
                                 Delivery(old(connections)[userId].socket, ChatSent(now))]
             else old(outbox)
    {
      threw := false;
      if userId !in connections || !TruthyString(connections[userId].matchId) {
        return;
      }
      var c := connections[userId];
      var session := redis.GetMatchSession(IdText(c.matchId), false);
      var partnerSock := PartnerSocket(connections, session, userId);
      if partnerSock.Some? {
        if payload.None? {
          return true;
        }
        outbox := outbox + [Delivery(partnerSock.value, ChatFrom(userId, payload.value.text, now)),
                            Delivery(c.socket, ChatSent(now))];
      }
    }

    /** `handleRejectMatch`: clear the caller's match id and confirm. With no
        connection the confirmation dereferences `undefined` and throws. */
    method HandleRejectMatch(userId: string) returns (threw: bool)
      modifies this
      ensures threw <==> userId !in old(connections)
      ensures connections == if userId in old(connections)
        then old(connections)[userId := old(connections)[userId].(matchId := None)]
        else old(connections)
      ensures outbox == if userId in old(connections)
        then old(outbox) + [Delivery(old(connections)[userId].socket, MatchRejected)]
        else old(outbox)
    {
      if userId !in connections {
        return true;
      }
      var c := connections[userId].(matchId := None);
      connections := connections[userId := c];
      outbox := outbox + [Delivery(c.socket, MatchRejected)];
      return false;
    }

    /** `handleLeaveChat`: tell a connected partner, then clear the caller's
        match id. */
    method HandleLeaveChat(userId: string)
      modifies this
      ensures connections == if userId in old(connections)
        then old(connections)[userId := old(connections)[userId].(matchId := None)]
        else old(connections)
      ensures outbox == if userId in old(connections) && TruthyString(old(connections)[userId].matchId)
          && PartnerSocket(old(connections), SessionOf(old(redis.sessions), old(connections)[userId].matchId), userId).Some?
        then old(outbox) + [Delivery(PartnerSocket(old(connections), SessionOf(old(redis.sessions), old(connections)[userId].matchId), userId).value, PartnerLeft)]
        else old(outbox)
    {
      if userId !in connections {
        return;
      }
      var c := connections[userId];
      if TruthyString(c.matchId) {
        var session := redis.GetMatchSession(IdText(c.matchId), false);
        var partnerSock := PartnerSocket(connections, session, userId);
        if partnerSock.Some? {
          outbox := outbox + [Delivery(partnerSock.value, PartnerLeft)];
        }
      }
      connections := connections[userId := c.(matchId := None)];
    }

    /** `handleUserDisconnect`: take the user off the queue, tell a connected
        partner, and delete the connection. The entry is deleted by userId, so
        a stale socket closing drops the user's newer connection too. */
    method HandleUserDisconnect(userId: string)
      requires Valid()
      modifies this, redis
      ensures Valid()
      ensures redis.queue == Remove(old(redis.queue), userId)
      ensures userId !in Keys(redis.queue)
      ensures redis.sessions == old(redis.sessions) && redis.ttl == old(redis.ttl)
      ensures connections == old(connections) - {userId}
      ensures userId !in connections
      ensures outbox == if userId in old(connections) && TruthyString(old(connections)[userId].matchId)
          && PartnerSocket(old(connections), SessionOf(old(redis.sessions), old(connections)[userId].matchId), userId).Some?
        then old(outbox) + [Delivery(PartnerSocket(old(connections), SessionOf(old(redis.sessions), old(connections)[userId].matchId), userId).value, PartnerDisconnected)]
        else old(outbox)
    {
      var _ := redis.RemoveFromMatchQueue(userId, false);
      if userId in connections && TruthyString(connections[userId].matchId) {
        var session := redis.GetMatchSession(IdText(connections[userId].matchId), false);
        var partnerSock := PartnerSocket(connections, session, userId);
        if partnerSock.Some? {
          outbox := outbox + [Delivery(partnerSock.value, PartnerDisconnected)];
        }
      }
      connections := connections - {userId};
    }

    /** A user reconnects on socket `newer` while the old socket `stale` is
        still open; when `stale` then closes, its handler disconnects the
        user's id, which drops the newer connection as well. */
    method StaleCloseDropsReconnected(stale: SocketId, newer: SocketId, id: string, t1: real, t2: real)
      requires Valid() && id != ""
      modifies this, redis
      ensures Valid()
      ensures connections == old(connections) - {id}
      ensures id !in connections
    {
      var first := Connect(stale, Some(id), "", t1);
      var second := Connect(newer, Some(id), "", t2);
      assert second == first == id;
      assert connections[id].socket == newer;
      HandleUserDisconnect(first);
    }

    /** The `message` event on socket `ws`: `message` is the parsed JSON, or
        `None` when parsing fails or yields no object. An error thrown by a
        handler is answered on `ws` with "Invalid message format"; an unknown
        type with "Unknown message type". */
    method Receive(ws: SocketId, userId: string, message: Option<Incoming>, now: real, matchId: string,
                   haversine: (Location, Location) -> real)
      requires Valid()
      modifies this, redis
      ensures Valid()
      ensures message.None? ==>
        outbox == old(outbox) + [Delivery(ws, ErrorReply(INVALID_FORMAT))] && connections == old(connections)
      ensures message.Some? && message.value.kind !in {"location", "find_match", "chat", "accept_match", "reject_match", "leave_chat"} ==>
        outbox == old(outbox) + [Delivery(ws, ErrorReply(UNKNOWN_TYPE))] && connections == old(connections)
      ensures message.Some? && message.value.kind == "reject_match" ==>
        outbox == old(outbox) + [if userId in old(connections)
                                   then Delivery(old(connections)[userId].socket, MatchRejected)
                                   else Delivery(ws, ErrorReply(INVALID_FORMAT))]
    {
      if message.None? {
        outbox := outbox + [Delivery(ws, ErrorReply(INVALID_FORMAT))];
        return;
      }
      var payload := message.value.payload;
      var threw := false;
      match message.value.kind {
      case "location" =>
        threw := HandleLocationUpdate(userId, payload);
      case "find_match" =>
        threw := HandleFindMatch(userId, payload, now, matchId, haversine);
      case "chat" =>
        threw := HandleChatMessage(userId, payload, now);
      case "accept_match" =>
        threw := HandleAcceptMatch(userId, payload);
      case "reject_match" =>
        threw := HandleRejectMatch(userId);
      case "leave_chat" =>
        HandleLeaveChat(userId);
      case _ =>
        outbox := outbox + [Delivery(ws, ErrorReply(UNKNOWN_TYPE))];
      }
      if threw {
        outbox := outbox + [Delivery(ws, ErrorReply(INVALID_FORMAT))];
      }
    }
  }
}
