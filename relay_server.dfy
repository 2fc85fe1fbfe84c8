/**
 * The chat-relay room registry of backend/server.js: `sessions[matchId]` is
 * a room, an object from deviceId to socket, and each socket's `message`
 * and `close` handlers read and rewrite it.
 *
 * Rooms are insertion-ordered dictionaries (the order `Object.entries`
 * walks them in). A socket is open until it closes or the server closes it
 * on `leave`; what is sent is appended to `sent`.
 */
module RelayServer {
  import opened Common
  import opened OrderedMap
  import opened JsText

  type SocketId = nat

  /** deviceId -> socket. */
  type Room = Assoc<string, SocketId>

  datatype Frame = PartnerMessage(text: Option<string>) | PartnerLeft

  datatype Sent = Sent(to: SocketId, frame: Frame)

  /** A parsed incoming frame `{ action, text }`. */
  datatype Request = Request(action: Option<string>, text: Option<string>)

  const DEFAULT_ROOM := "default"
  const DEVICE_PREFIX := "device-"

  function RoomAt(rooms: map<string, Room>, matchId: string): Room {
    if matchId in rooms then rooms[matchId] else []
  }

  /** What one pass over a room's entries sends: to every socket registered
      under another deviceId that is still open, in entry order. */
  function Deliveries(room: Room, deviceId: string, open: set<SocketId>, frame: Frame): seq<Sent>
  {
    if room == [] then []
    else
      var last := room[|room| - 1];
      Deliveries(room[..|room| - 1], deviceId, open, frame)
        + (if last.0 != deviceId && last.1 in open then [Sent(last.1, frame)] else [])
  }

  /** A pass reaches exactly the open sockets of the other devices of the
      room, and never an entry of the sender's own deviceId. */
  lemma {:induction false} DeliveriesReachExactlyOthers(room: Room, deviceId: string, open: set<SocketId>, frame: Frame)
    ensures forall d :: d in Deliveries(room, deviceId, open, frame) <==>
      exists i :: 0 <= i < |room| && room[i].0 != deviceId && room[i].1 in open && d == Sent(room[i].1, frame)
    ensures |Deliveries(room, deviceId, open, frame)| <= |room|
  {
    if room != [] {
      var init := room[..|room| - 1];
      DeliveriesReachExactlyOthers(init, deviceId, open, frame);
      forall d | d in Deliveries(room, deviceId, open, frame)
        ensures exists i :: 0 <= i < |room| && room[i].0 != deviceId && room[i].1 in open && d == Sent(room[i].1, frame)
      {
        if d in Deliveries(init, deviceId, open, frame) {
          var i :| 0 <= i < |init| && init[i].0 != deviceId && init[i].1 in open && d == Sent(init[i].1, frame);
          assert room[i] == init[i];
        } else {
          assert room[|room| - 1].0 != deviceId && d == Sent(room[|room| - 1].1, frame);
        }
      }
      forall d | exists i :: 0 <= i < |room| && room[i].0 != deviceId && room[i].1 in open && d == Sent(room[i].1, frame)
        ensures d in Deliveries(room, deviceId, open, frame)
      {
        var i :| 0 <= i < |room| && room[i].0 != deviceId && room[i].1 in open && d == Sent(room[i].1, frame);
        if i < |init| {
          assert init[i] == room[i];
        }
      }
    }
  }

  /** The close handler as written: delete the device, then the room if it is
      now empty. Reading a room that is already gone throws, and the
      exception escapes the handler. */
  function ClosedRoomsAsWritten(rooms: map<string, Room>, matchId: string, deviceId: string): Outcome<map<string, Room>> {
    if matchId !in rooms then Threw
    else
      var room := Remove(rooms[matchId], deviceId);
      if room == [] then Returned(rooms - {matchId}) else Returned(rooms[matchId := room])
  }

  /** Socket 1 and socket 2 both connected as device "A" to room "m"; the
      second registration replaced the first. Closing socket 1 unregisters
      the live socket 2 and deletes the room, and closing socket 2 afterwards
      throws. */
  lemma StaleCloseDropsLiveSocket()
    ensures var rooms := map["m" := [("A", 2)]];
      && ClosedRoomsAsWritten(rooms, "m", "A") == Returned(map[])
      && ClosedRoomsAsWritten(map[], "m", "A") == Threw
  {
    var rooms: map<string, Room> := map["m" := [("A", 2)]];
    assert Remove(rooms["m"], "A") == [];
    assert rooms - {"m"} == map[];
  }

  /** The close handler as intended: delete the device only while it still
      names the closing socket, then the room if it is now empty. */
  function ClosedRooms(rooms: map<string, Room>, matchId: string, deviceId: string, ws: SocketId): (r: map<string, Room>)
    ensures forall m :: m != matchId ==> (m in r <==> m in rooms) && (m in rooms ==> r[m] == rooms[m])
    ensures matchId in r ==> r[matchId] != []
    ensures Get(RoomAt(rooms, matchId), deviceId) == Some(ws) ==> Get(RoomAt(r, matchId), deviceId) == None
  {
    if matchId !in rooms then rooms
    else
      var room := if Get(rooms[matchId], deviceId) == Some(ws) then Remove(rooms[matchId], deviceId) else rooms[matchId];
      if room == [] then rooms - {matchId} else rooms[matchId := room]
  }

  /** Closing one socket never unregisters another one, in any room. */
  lemma ClosingKeepsOtherSockets(rooms: map<string, Room>, matchId: string, deviceId: string, ws: SocketId, m: string, id: string, s: SocketId)
    requires Get(RoomAt(rooms, m), id) == Some(s) && s != ws
    ensures Get(RoomAt(ClosedRooms(rooms, matchId, deviceId, ws), m), id) == Some(s)
  {
    var r := ClosedRooms(rooms, matchId, deviceId, ws);
    if m == matchId && Get(rooms[matchId], deviceId) == Some(ws) {
      assert id != deviceId;
      assert Get(Remove(rooms[matchId], deviceId), id) == Some(s);
      assert Remove(rooms[matchId], deviceId) != [];
    }
  }

  /** Each room is a well-formed dictionary. */
  predicate RoomsValid(rooms: map<string, Room>) {
    forall m :: m in rooms ==> Valid(rooms[m])
  }

  class RelayHub {
    var rooms: map<string, Room>
    var open: set<SocketId>
    var sent: seq<Sent>

    ghost predicate Valid()
      reads this
    {
      RoomsValid(rooms)
    }

    constructor()
      ensures Valid() && rooms == map[] && open == {} && sent == []
    {
      rooms := map[];
      open := {};
      sent := [];
    }

    /** The `connection` event: the query's matchId (or "default") and deviceId
        (or "device-" and a random suffix); the device's entry in that room
        now names this socket. */
    method Connect(ws: SocketId, requestedMatch: Option<string>, requestedDevice: Option<string>, randomSuffix: string)
      returns (matchId: string, deviceId: string)
      requires Valid()
      modifies this
      ensures Valid()
      ensures matchId == if TruthyString(requestedMatch) then requestedMatch.value else DEFAULT_ROOM
      ensures deviceId == if TruthyString(requestedDevice) then requestedDevice.value else DEVICE_PREFIX + randomSuffix
      ensures rooms == old(rooms)[matchId := Put(RoomAt(old(rooms), matchId), deviceId, ws)]
      ensures Get(rooms[matchId], deviceId) == Some(ws)
      ensures open == old(open) + {ws} && sent == old(sent)
    {
      matchId := if TruthyString(requestedMatch) then requestedMatch.value else DEFAULT_ROOM;
      deviceId := if TruthyString(requestedDevice) then requestedDevice.value else DEVICE_PREFIX + randomSuffix;
      PutKeepsValid(RoomAt(rooms, matchId), deviceId, ws);
      rooms := rooms[matchId := Put(RoomAt(rooms, matchId), deviceId, ws)];
      open := open + {ws};
    }

    /** One `for … of Object.entries(room)` pass sending `frame`. */
    method Broadcast(room: Room, deviceId: string, frame: Frame)
      modifies this
      ensures sent == old(sent) + Deliveries(room, deviceId, open, frame)
      ensures rooms == old(rooms) && open == old(open)
    {
      for k := 0 to |room|
        invariant sent == old(sent) + Deliveries(room[..k], deviceId, open, frame)
        invariant rooms == old(rooms) && open == old(open)
      {
        assert room[..k + 1][..k] == room[..k];
        var (id, socket) := room[k];
        if id != deviceId && socket in open {
          sent := sent + [Sent(socket, frame)];
        }
      }
      assert room[..|room|] == room;
    }

    /** The `message` event of the socket `ws` registered as `deviceId` in
        `matchId`. `message` relays the text to the others; `leave` tells them,
        unregisters the device (the room stays, even if empty) and closes `ws`.
        With the room gone, the loop throws and the error is caught: nothing
        happens. Anything else, or an unparsable frame, is ignored. */
    method Receive(ws: SocketId, matchId: string, deviceId: string, request: Option<Request>)
      requires Valid()
      modifies this
      ensures Valid()
      ensures var action := if request.Some? && matchId in old(rooms) then request.value.action else None;
        if action == Some("message") then
          && sent == old(sent) + Deliveries(old(rooms)[matchId], deviceId, old(open), PartnerMessage(request.value.text))
          && rooms == old(rooms) && open == old(open)
        else if action == Some("leave") then
          && sent == old(sent) + Deliveries(old(rooms)[matchId], deviceId, old(open), PartnerLeft)
          && rooms == old(rooms)[matchId := Remove(old(rooms)[matchId], deviceId)]
          && open == old(open) - {ws}
        else
          sent == old(sent) && rooms == old(rooms) && open == old(open)
    {
      if request.None? || matchId !in rooms {
        return;
      }
      var room := rooms[matchId];
      if request.value.action == Some("message") {
        Broadcast(room, deviceId, PartnerMessage(request.value.text));
      } else if request.value.action == Some("leave") {
        Broadcast(room, deviceId, PartnerLeft);
        RemoveKeepsValid(room, deviceId);
        rooms := rooms[matchId := Remove(room, deviceId)];
        open := open - {ws};
      }
    }

    /** The `close` event of `ws`, by the intended rule `ClosedRooms`. */
    method Close(ws: SocketId, matchId: string, deviceId: string)
      requires Valid()
      modifies this
      ensures Valid()
      ensures rooms == ClosedRooms(old(rooms), matchId, deviceId, ws)
      ensures open == old(open) - {ws} && sent == old(sent)
    {
      open := open - {ws};
      if matchId in rooms {
        var room := rooms[matchId];
        if Get(room, deviceId) == Some(ws) {
          RemoveKeepsValid(room, deviceId);
          room := Remove(room, deviceId);
        }
        if room == [] {
          rooms := rooms - {matchId};
        } else {
          rooms := rooms[matchId := room];
        }
      }
    }
  }
}
