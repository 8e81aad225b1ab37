/**
 The socket event handlers of the chat server as functions from the state before
 the event to the state after it and the events emitted, in emission order.
 These are the specifications the `ChatServer` methods are proved against.
 */
module Handlers {
  import opened ChatState

  /**
   `room.users.delete(u)` followed by "remove room if empty": the room loses `u`,
   and it leaves the directory (and the key order) exactly when nobody is left.
   */
  function RemoveMember(s: State, code: string, u: string): (t: State)
    requires WellFormed(s) && code in s.rooms
    ensures WellFormed(t)
    ensures t.active == s.active && t.bindings == s.bindings && t.gone == s.gone
    ensures code in t.rooms <==> s.rooms[code] - {u} != {}
    ensures code in t.rooms ==> t.rooms[code] == s.rooms[code] - {u}
    ensures forall c :: c != code ==> (c in t.rooms <==> c in s.rooms)
    ensures forall c :: c != code && c in s.rooms ==> t.rooms[c] == s.rooms[c]
    ensures t.order == (if code in t.rooms then s.order else Drop(s.order, code))
  {
    var left := s.rooms[code] - {u};
    if left == {} then s.(rooms := s.rooms - {code}, order := Drop(s.order, code))
    else s.(rooms := s.rooms[code := left])
  }

  /**
   `join`: a username that is already active gets an `error` back and nothing
   changes; otherwise the room is created if new, the name joins it and the
   active set, and the connection is bound to both.
   */
  function Join(s: State, conn: ConnId, username: string, roomCode: string, now: string): (o: Outcome)
    requires WellFormed(s)
    ensures WellFormed(o.next)
    ensures username in s.active ==> o.next == s && o.emitted == [ErrorTo(conn, TakenMessage)]
    ensures username !in s.active ==> o.next == Admit(s, conn, username, roomCode)
  {
    if username in s.active then
      Outcome(s, [ErrorTo(conn, TakenMessage)])
    else
      var t := Admit(s, conn, username, roomCode);
      var snap := SnapshotOf(t);
      var joined := UserJoined(roomCode, JoinedText(username), now, t.rooms[roomCode]);
      if roomCode == AdminRoom then
        Outcome(t, [ActiveRoomsToAll(snap), AdminRoomsTo(conn, snap), joined, ActiveRoomsToAll(snap)])
      else
        Outcome(t, [ActiveRoomsToAll(snap), joined, ActiveRoomsToAll(snap)])
  }

  /**
   The state changes of a successful `join`: create the room if it is new (its key
   goes last in the map's order), add the name to it and to the active set, and
   bind the connection to the name and the room.
   */
  function Admit(s: State, conn: ConnId, username: string, roomCode: string): (t: State)
    requires WellFormed(s)
    ensures WellFormed(t)
    ensures t.rooms.Keys == s.rooms.Keys + {roomCode}
    ensures t.order == (if roomCode in s.rooms then s.order else s.order + [roomCode])
    ensures t.rooms[roomCode] == (if roomCode in s.rooms then s.rooms[roomCode] else {}) + {username}
    ensures forall c :: c in s.rooms && c != roomCode ==> t.rooms[c] == s.rooms[c]
    ensures t.active == s.active + {username}
    ensures t.bindings == s.bindings[conn := Binding(username, roomCode)]
    ensures t.gone == s.gone
  {
    var created := roomCode !in s.rooms;
    var members := (if created then {} else s.rooms[roomCode]) + {username};
    var order := if created then s.order + [roomCode] else s.order;
    assert Distinct(order) by {
      if created {
        assert forall i :: 0 <= i < |s.order| ==> order[i] == s.order[i];
      }
    }
    State(s.rooms[roomCode := members], order, s.active + {username},
          s.bindings[conn := Binding(username, roomCode)], s.gone)
  }

  /**
   `leaveGroup` takes effect only when the connection has a non-empty bound
   username and room code (JavaScript truthiness) and that room still exists.
   */
  predicate LeaveApplies(s: State, conn: ConnId) {
    && conn in s.bindings
    && s.bindings[conn].username != ""
    && s.bindings[conn].room != ""
    && s.bindings[conn].room in s.rooms
  }

  /**
   `leaveGroup`: the bound name leaves its room (which goes when it empties) and
   the active set, the binding is cleared; `userLeft` is sent only to a room that
   still exists, then the directory is broadcast twice (plain and detailed).
   */
  function LeaveGroup(s: State, conn: ConnId, now: string): (o: Outcome)
    requires WellFormed(s)
    ensures WellFormed(o.next)
    ensures !LeaveApplies(s, conn) ==> o.next == s && o.emitted == []
    ensures LeaveApplies(s, conn) ==>
      var b := s.bindings[conn];
      && (b.room in o.next.rooms <==> s.rooms[b.room] - {b.username} != {})
      && (b.room in o.next.rooms ==> o.next.rooms[b.room] == s.rooms[b.room] - {b.username})
      && (forall c :: c != b.room ==> (c in o.next.rooms <==> c in s.rooms))
      && (forall c :: c != b.room && c in s.rooms ==> o.next.rooms[c] == s.rooms[c])
      && o.next.order == (if b.room in o.next.rooms then s.order else Drop(s.order, b.room))
      && o.next.active == s.active - {b.username}
      && o.next.bindings == s.bindings - {conn}
      && o.next.gone == s.gone
  {
    if LeaveApplies(s, conn) then
      var b := s.bindings[conn];
      var t := RemoveMember(s, b.room, b.username);
      var t' := t.(active := t.active - {b.username}, bindings := t.bindings - {conn});
      var notify := if b.room in t.rooms
                    then [UserLeft(b.room, LeftText(b.username), now, t.rooms[b.room])]
                    else [];
      Outcome(t', notify + [ActiveRoomsToAll(SnapshotOf(t')), RoomUpdateToAll(Details(t'.rooms, t'.order))])
    else
      Outcome(s, [])
  }

  /**
   `message` relays when the room named in the payload exists and the user named
   in the payload is one of its members (and that name is not empty, since the
   `find` result is checked for truthiness).
   */
  predicate Relays(s: State, msg: ChatMessage) {
    msg.room in s.rooms && msg.user in s.rooms[msg.room] && msg.user != ""
  }

  /**
   `message`: the sender's own binding plays no part; the relayed copy keeps the
   payload's user, text and room and takes the server's time.
   */
  function Message(s: State, sender: ConnId, msg: ChatMessage, now: string): (o: Outcome)
    ensures o.next == s
    ensures Relays(s, msg) ==> o.emitted == [MessageTo(msg.room, msg.(time := now))]
    ensures !Relays(s, msg) ==> o.emitted == []
  {
    if Relays(s, msg) then
      Outcome(s, [MessageTo(msg.room, ChatMessage(msg.user, msg.text, now, msg.room))])
    else
      Outcome(s, [])
  }

  /**
   `kickUser` takes effect when the room exists, the name is a non-empty member of
   it, and the transport finds a connection whose id equals that NAME (the source
   looks the username up as a socket id); `socketFound` is that lookup's answer.
   */
  predicate KickApplies(s: State, roomCode: string, username: string, socketFound: bool) {
    roomCode in s.rooms && username in s.rooms[roomCode] && username != "" && socketFound
  }

  /**
   `kickUser`: the member is removed (the room goes when it empties), the active
   set and every binding are left as they were.
   */
  function KickUser(s: State, roomCode: string, username: string, socketFound: bool, now: string): (o: Outcome)
    requires WellFormed(s)
    ensures WellFormed(o.next)
    ensures !KickApplies(s, roomCode, username, socketFound) ==> o.next == s && o.emitted == []
    ensures KickApplies(s, roomCode, username, socketFound) ==>
      && o.next.active == s.active
      && o.next.bindings == s.bindings
      && o.next.gone == s.gone
      && (roomCode in o.next.rooms <==> s.rooms[roomCode] != {username})
      && (roomCode in o.next.rooms ==> o.next.rooms[roomCode] == s.rooms[roomCode] - {username})
      && (forall c :: c != roomCode ==> (c in o.next.rooms <==> c in s.rooms))
      && (forall c :: c != roomCode && c in s.rooms ==> o.next.rooms[c] == s.rooms[c])
      && o.next.order == (if roomCode in o.next.rooms then s.order else Drop(s.order, roomCode))
  {
    if KickApplies(s, roomCode, username, socketFound) then
      var t := RemoveMember(s, roomCode, username);
      assert s.rooms[roomCode] - {username} == {} <==> s.rooms[roomCode] == {username};
      Outcome(t, [KickedTo(username, KickedMessage),
                  UserLeft(roomCode, KickedText(username), now, s.rooms[roomCode] - {username}),
                  ActiveRoomsToAll(SnapshotOf(t))])
    else
      Outcome(s, [])
  }

  /** The username `socket.data` holds for `conn`, if it ever completed a join and has not left. */
  function BoundName(s: State, conn: ConnId): Option<string> {
    if conn in s.bindings then Some(s.bindings[conn].username) else None
  }

  /**
   What the `disconnect` handler itself does: walk the rooms in the map's order
   and remove the bound name from the first one that holds it. The active set,
   the bindings and the closed connections are untouched.
   */
  function VacateFirstRoom(s: State, conn: ConnId, now: string): (o: Outcome)
    requires WellFormed(s)
    ensures WellFormed(o.next)
    ensures o.next.active == s.active && o.next.bindings == s.bindings && o.next.gone == s.gone
    ensures BoundName(s, conn).None? ==> o.next == s && o.emitted == []
    ensures BoundName(s, conn).Some? ==>
      var u := BoundName(s, conn).value;
      match FirstHolder(s.rooms, s.order, u)
      case None => o.next == s && o.emitted == []
      case Some(i) =>
        var code := s.order[i];
        && (code in o.next.rooms <==> s.rooms[code] - {u} != {})
        && (code in o.next.rooms ==> o.next.rooms[code] == s.rooms[code] - {u})
        && (forall c :: c != code ==> (c in o.next.rooms <==> c in s.rooms))
        && (forall c :: c != code && c in s.rooms ==> o.next.rooms[c] == s.rooms[c])
        && o.next.order == (if code in o.next.rooms then s.order else Drop(s.order, code))
        && o.emitted == (if code in o.next.rooms
                         then [UserLeft(code, LeftText(u), now, o.next.rooms[code])]
                         else [])
                        + [ActiveRoomsToAll(SnapshotOf(o.next))]
  {
    match BoundName(s, conn)
    case None => Outcome(s, [])
    case Some(u) =>
      match FirstHolder(s.rooms, s.order, u)
      case None => Outcome(s, [])
      case Some(i) =>
        var code := s.order[i];
        var t := RemoveMember(s, code, u);
        var notify := if code in t.rooms
                      then [UserLeft(code, LeftText(u), now, t.rooms[code])]
                      else [];
        Outcome(t, notify + [ActiveRoomsToAll(SnapshotOf(t))])
  }

  /**
   `disconnect`: the transport closes the connection for good, then the handler
   vacates the first room holding the bound name. The active set and the
   bindings are untouched.
   */
  function Disconnect(s: State, conn: ConnId, now: string): (o: Outcome)
    requires WellFormed(s)
    ensures WellFormed(o.next)
    ensures o.next.active == s.active && o.next.bindings == s.bindings && o.next.gone == s.gone + {conn}
    ensures BoundName(s, conn).None? ==> o.next == s.(gone := s.gone + {conn}) && o.emitted == []
    ensures BoundName(s, conn).Some? ==>
      var u := BoundName(s, conn).value;
      match FirstHolder(s.rooms, s.order, u)
      case None => o.next == s.(gone := s.gone + {conn}) && o.emitted == []
      case Some(i) =>
        var code := s.order[i];
        && (code in o.next.rooms <==> s.rooms[code] - {u} != {})
        && (code in o.next.rooms ==> o.next.rooms[code] == s.rooms[code] - {u})
        && (forall c :: c != code ==> (c in o.next.rooms <==> c in s.rooms))
        && (forall c :: c != code && c in s.rooms ==> o.next.rooms[c] == s.rooms[c])
        && o.next.order == (if code in o.next.rooms then s.order else Drop(s.order, code))
        && o.emitted == (if code in o.next.rooms
                         then [UserLeft(code, LeftText(u), now, o.next.rooms[code])]
                         else [])
                        + [ActiveRoomsToAll(SnapshotOf(o.next))]
  {
    VacateFirstRoom(s.(gone := s.gone + {conn}), conn, now)
  }

  /** `getActiveRooms`: the current listing, to the requester only. */
  function GetActiveRooms(s: State, conn: ConnId): (o: Outcome)
    requires WellFormed(s)
    ensures o.next == s
    ensures o.emitted == [ActiveRoomsTo(conn, SnapshotOf(s))]
  {
    Outcome(s, [ActiveRoomsTo(conn, SnapshotOf(s))])
  }

  /**
   One inbound event with its payload, and the connection it arrives on; `now`
   is the server clock when it is handled. `kickUser` comes from an admin's
   connection, which plays no other part.
   */
  datatype Request =
    | JoinReq(conn: ConnId, username: string, roomCode: string, now: string)
    | LeaveGroupReq(conn: ConnId, now: string)
    | MessageReq(sender: ConnId, msg: ChatMessage, now: string)
    | KickUserReq(admin: ConnId, roomCode: string, username: string, socketFound: bool, now: string)
    | DisconnectReq(conn: ConnId, now: string)
    | GetActiveRoomsReq(conn: ConnId)

  /** The connection an event arrives on. */
  function Origin(req: Request): ConnId {
    match req
    case JoinReq(conn, _, _, _) => conn
    case LeaveGroupReq(conn, _) => conn
    case MessageReq(sender, _, _) => sender
    case KickUserReq(admin, _, _, _, _) => admin
    case DisconnectReq(conn, _) => conn
    case GetActiveRoomsReq(conn) => conn
  }

  /**
   Dispatch one event to its handler. A connection that has disconnected sends
   nothing more, so an event on it never reaches a handler.
   */
  function Step(s: State, req: Request): (o: Outcome)
    requires WellFormed(s)
    ensures WellFormed(o.next)
    ensures Origin(req) in s.gone ==> o.next == s && o.emitted == []
  {
    if Origin(req) in s.gone then Outcome(s, [])
    else match req
      case JoinReq(conn, username, roomCode, now) => Join(s, conn, username, roomCode, now)
      case LeaveGroupReq(conn, now) => LeaveGroup(s, conn, now)
      case MessageReq(sender, msg, now) => Message(s, sender, msg, now)
      case KickUserReq(_, roomCode, username, socketFound, now) => KickUser(s, roomCode, username, socketFound, now)
      case DisconnectReq(conn, now) => Disconnect(s, conn, now)
      case GetActiveRoomsReq(conn) => GetActiveRooms(s, conn)
  }

  /** The state after handling `reqs` one at a time, each to completion. */
  function Run(s: State, reqs: seq<Request>): (t: State)
    requires WellFormed(s)
    ensures WellFormed(t)
    decreases |reqs|
  {
    if reqs == [] then s else Run(Step(s, reqs[0]).next, reqs[1..])
  }
}
