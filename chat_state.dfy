/**
 The server's in-memory room directory and connection registry.

 `activeRooms` is a JavaScript `Map` from room code to a set of usernames; a `Map`
 iterates its keys in insertion order, so the model keeps that order beside the
 map. `activeUsernames` is a set of names, and each connection carries its own
 `socket.data.username` / `socket.data.room`, gathered here in one map keyed by
 the connection id.
 */
module ChatState {

  datatype Option<T> = None | Some(value: T)

  /** Socket.IO connection ids are strings. */
  type ConnId = string

  /** What `socket.data` holds after a join: the username and the room code. */
  datatype Binding = Binding(username: string, room: string)

  /**
   `gone` is not a variable of the server: it records which connections the
   transport has already closed. Socket.IO delivers nothing from a connection
   after its `disconnect` and never hands out its id again.
   */
  datatype State = State(
    rooms: map<string, set<string>>,   // activeRooms: room code -> room.users
    order: seq<string>,                // the keys of activeRooms, in insertion order
    active: set<string>,               // activeUsernames
    bindings: map<ConnId, Binding>,    // socket.data of each connection that joined
    gone: set<ConnId>)                 // connections already disconnected

  /** The state when the process starts: both collections empty, no connection bound or closed. */
  const Initial: State := State(map[], [], {}, map[], {})

  /** The room code whose joiner also receives the `adminRooms` listing. */
  const AdminRoom: string := "main"

  const TakenMessage: string := "Username is already taken. Please choose another one."
  const KickedMessage: string := "You have been kicked from the room"

  /** The `message` texts of `userJoined` and `userLeft`. */
  function JoinedText(username: string): string { username + " has joined the chat" }
  function LeftText(username: string): string { username + " has left the chat" }
  function KickedText(username: string): string { username + " has been kicked from the chat" }

  /** One entry of the `activeRooms` / `adminRooms` payload. */
  datatype RoomInfo = RoomInfo(name: string, userCount: nat)

  /** One entry of the `roomUpdate` payload, which also lists the members. */
  datatype RoomDetail = RoomDetail(id: string, userCount: nat, users: set<string>)

  /** The `message` payload; `time` is the server's clock reading, kept as an opaque string. */
  datatype ChatMessage = ChatMessage(user: string, text: string, time: string, room: string)

  /**
   Everything the handlers emit. `...ToAll` goes to every connection, `...To(conn, ...)`
   to one connection, and the events carrying a `room` go to that Socket.IO room.
   */
  datatype Event =
    | ErrorTo(conn: ConnId, message: string)
    | ActiveRoomsToAll(rooms: seq<RoomInfo>)
    | ActiveRoomsTo(conn: ConnId, rooms: seq<RoomInfo>)
    | AdminRoomsTo(conn: ConnId, rooms: seq<RoomInfo>)
    | UserJoined(room: string, message: string, time: string, users: set<string>)
    | UserLeft(room: string, message: string, time: string, users: set<string>)
    | RoomUpdateToAll(details: seq<RoomDetail>)
    | MessageTo(room: string, msg: ChatMessage)
    | KickedTo(conn: ConnId, message: string)

  /** The state after a handler ran, and what it emitted, in emission order. */
  datatype Outcome = Outcome(next: State, emitted: seq<Event>)

  ghost predicate Distinct(xs: seq<string>) {
    forall i, j :: 0 <= i < j < |xs| ==> xs[i] != xs[j]
  }

  /** `order` lists every key of `rooms` exactly once: what a `Map` keeps for its iteration. */
  ghost predicate WellFormed(s: State) {
    && Distinct(s.order)
    && (forall code :: code in s.order <==> code in s.rooms)
  }

  /** A room is in the directory if and only if it has at least one member. */
  ghost predicate NoEmptyRoom(s: State) {
    forall code :: code in s.rooms ==> s.rooms[code] != {}
  }

  /** Every room member holds an active username. */
  ghost predicate MembersActive(s: State) {
    forall code, u :: code in s.rooms && u in s.rooms[code] ==> u in s.active
  }

  /** No username is a member of two rooms. */
  ghost predicate OneRoomPerUser(s: State) {
    forall c1, c2, u :: c1 in s.rooms && c2 in s.rooms && u in s.rooms[c1] && u in s.rooms[c2] ==> c1 == c2
  }

  /**
   A bound username is active and bound to one connection only, and if it is a
   member of some room, that room is the one its binding names.
   */
  ghost predicate BindingsConsistent(s: State) {
    && (forall c :: c in s.bindings ==> s.bindings[c].username in s.active)
    && (forall c1, c2 :: c1 in s.bindings && c2 in s.bindings && c1 != c2 ==>
          s.bindings[c1].username != s.bindings[c2].username)
    && (forall c, code :: c in s.bindings && code in s.rooms && s.bindings[c].username in s.rooms[code] ==>
          code == s.bindings[c].room)
  }

  /** The invariant every handler preserves. */
  ghost predicate Inv(s: State) {
    && WellFormed(s)
    && NoEmptyRoom(s)
    && MembersActive(s)
    && OneRoomPerUser(s)
    && BindingsConsistent(s)
  }

  /** `Map.delete` on the key order: the key goes, the others keep their order. */
  function Drop(order: seq<string>, code: string): (o: seq<string>)
    ensures forall x :: x in o <==> x in order && x != code
    ensures Distinct(order) ==> Distinct(o)
    ensures |o| <= |order|
  {
    if order == [] then []
    else if order[0] == code then Drop(order[1..], code)
    else
      var rest := Drop(order[1..], code);
      assert Distinct(order) ==> Distinct(order[1..]) && order[0] !in rest by {
        if Distinct(order) {
          assert forall i :: 0 <= i < |order[1..]| ==> order[1..][i] == order[i + 1];
        }
      }
      [order[0]] + rest
  }

  /**
   The `{name, userCount}` list built from `activeRooms.entries()`: one entry per
   room, in the map's order, counting that room's members.
   */
  function Snapshot(rooms: map<string, set<string>>, order: seq<string>): (snap: seq<RoomInfo>)
    requires forall code :: code in order ==> code in rooms
    ensures |snap| == |order|
    ensures forall i :: 0 <= i < |snap| ==>
              snap[i].name == order[i] && snap[i].userCount == |rooms[order[i]]|
  {
    if order == [] then []
    else [RoomInfo(order[0], |rooms[order[0]]|)] + Snapshot(rooms, order[1..])
  }

  /** The `{id, userCount, users}` list that `roomUpdate` carries. */
  function Details(rooms: map<string, set<string>>, order: seq<string>): (ds: seq<RoomDetail>)
    requires forall code :: code in order ==> code in rooms
    ensures |ds| == |order|
    ensures forall i :: 0 <= i < |ds| ==>
              ds[i].id == order[i] && ds[i].users == rooms[order[i]] && ds[i].userCount == |ds[i].users|
  {
    if order == [] then []
    else [RoomDetail(order[0], |rooms[order[0]]|, rooms[order[0]])] + Details(rooms, order[1..])
  }

  function SnapshotOf(s: State): seq<RoomInfo>
    requires WellFormed(s)
  {
    Snapshot(s.rooms, s.order)
  }

  /**
   The index of the first room, in the map's order, whose members include `u`:
   the room the `disconnect` loop stops at.
   */
  function FirstHolder(rooms: map<string, set<string>>, order: seq<string>, u: string): (k: Option<nat>)
    ensures k.Some? ==> k.value < |order| && order[k.value] in rooms && u in rooms[order[k.value]]
    ensures k.Some? ==> forall j :: 0 <= j < k.value ==> !(order[j] in rooms && u in rooms[order[j]])
    ensures k.None? ==> forall j :: 0 <= j < |order| ==> !(order[j] in rooms && u in rooms[order[j]])
  {
    if order == [] then None
    else if order[0] in rooms && u in rooms[order[0]] then Some(0)
    else match FirstHolder(rooms, order[1..], u)
      case None => None
      case Some(k) => Some(k + 1)
  }
}
