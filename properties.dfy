/**
 What the handlers guarantee together: the directory invariant holds in every
 state reachable from start-up, the room listing reflects exactly the occupied
 rooms, and the places where the code's behaviour is weaker than a session-based
 design would be (names reserved after kick and disconnect, messages trusted on
 the payload's word).
 */
module Properties {
  import opened ChatState
  import opened Handlers

  lemma InitialSatisfiesInv()
    ensures Inv(Initial)
  {
  }

  /** Taking one member out of one room keeps the invariant, whatever the room and name. */
  lemma RemoveMemberPreservesInv(s: State, code: string, u: string)
    requires Inv(s) && code in s.rooms
    ensures Inv(RemoveMember(s, code, u))
  {
  }

  /** Admitting a name that is not active keeps the invariant. */
  lemma AdmitPreservesInv(s: State, conn: ConnId, username: string, roomCode: string)
    requires Inv(s) && username !in s.active
    ensures Inv(Admit(s, conn, username, roomCode))
  {
    var t := Admit(s, conn, username, roomCode);
    // the new name was in no room and held by no connection
    assert forall c :: c in s.rooms ==> username !in s.rooms[c];
    assert forall c :: c in s.bindings ==> s.bindings[c].username != username;
    forall c1, c2, v | c1 in t.rooms && c2 in t.rooms && v in t.rooms[c1] && v in t.rooms[c2]
      ensures c1 == c2
    {
      if v != username {
        assert v in s.rooms[c1] && v in s.rooms[c2];
      }
    }
    forall c, c' | c in t.bindings && c' in t.rooms && t.bindings[c].username in t.rooms[c']
      ensures c' == t.bindings[c].room
    {
      if c != conn {
        assert t.bindings[c].username in s.rooms[c'];
      }
    }
  }

  lemma JoinPreservesInv(s: State, conn: ConnId, username: string, roomCode: string, now: string)
    requires Inv(s)
    ensures Inv(Join(s, conn, username, roomCode, now).next)
  {
    if username !in s.active {
      AdmitPreservesInv(s, conn, username, roomCode);
    }
  }

  /**
   What a successful `join` emits: the listing to everyone first and last, the
   `adminRooms` listing to the joiner exactly when the room is "main", the
   `userJoined` notice with the room's members in between, and no error.
   */
  lemma JoinAnnounces(s: State, conn: ConnId, username: string, roomCode: string, now: string)
    requires WellFormed(s) && username !in s.active
    ensures var o := Join(s, conn, username, roomCode, now);
      var listing := ActiveRoomsToAll(SnapshotOf(o.next));
      && |o.emitted| == (if roomCode == AdminRoom then 4 else 3)
      && o.emitted[0] == listing && o.emitted[|o.emitted| - 1] == listing
      && o.emitted[|o.emitted| - 2] == UserJoined(roomCode, JoinedText(username), now, o.next.rooms[roomCode])
      && (AdminRoomsTo(conn, SnapshotOf(o.next)) in o.emitted <==> roomCode == AdminRoom)
      && (forall e :: e in o.emitted ==> !e.ErrorTo?)
  {
  }

  /** Listing one more key at the end lists the earlier keys as before, then the new one. */
  lemma SnapshotAppend(rooms: map<string, set<string>>, rooms': map<string, set<string>>,
                        order: seq<string>, code: string)
    requires forall c :: c in order ==> c in rooms && c in rooms' && rooms'[c] == rooms[c]
    requires code in rooms'
    ensures Snapshot(rooms', order + [code]) == Snapshot(rooms, order) + [RoomInfo(code, |rooms'[code]|)]
  {
  }

  /**
   A `join` that creates a room adds it at the end of the listing with one member,
   and every earlier entry keeps its place and its count.
   */
  lemma NewRoomListedLast(s: State, conn: ConnId, username: string, roomCode: string, now: string)
    requires WellFormed(s) && username !in s.active && roomCode !in s.rooms
    ensures SnapshotOf(Join(s, conn, username, roomCode, now).next) == SnapshotOf(s) + [RoomInfo(roomCode, 1)]
  {
    var t := Admit(s, conn, username, roomCode);
    assert |t.rooms[roomCode]| == 1 by {
      assert t.rooms[roomCode] == {username};
    }
    SnapshotAppend(s.rooms, t.rooms, s.order, roomCode);
  }

  /** Releasing a name that is in no room, together with its binding, keeps the invariant. */
  lemma ReleasePreservesInv(t: State, conn: ConnId)
    requires Inv(t) && conn in t.bindings
    requires forall c :: c in t.rooms ==> t.bindings[conn].username !in t.rooms[c]
    ensures Inv(t.(active := t.active - {t.bindings[conn].username}, bindings := t.bindings - {conn}))
  {
  }

  lemma LeaveGroupPreservesInv(s: State, conn: ConnId, now: string)
    requires Inv(s)
    ensures Inv(LeaveGroup(s, conn, now).next)
  {
    if LeaveApplies(s, conn) {
      var b := s.bindings[conn];
      var t := RemoveMember(s, b.room, b.username);
      RemoveMemberPreservesInv(s, b.room, b.username);
      forall c | c in t.rooms
        ensures b.username !in t.rooms[c]
      {
        if c != b.room {
          assert t.rooms[c] == s.rooms[c];
        }
      }
      ReleasePreservesInv(t, conn);
    }
  }

  /**
   What a `leaveGroup` that takes effect emits: `userLeft` to the room only if the
   room survived, then the listing and the detailed `roomUpdate`, both of the new
   directory, to everyone.
   */
  lemma LeaveGroupAnnounces(s: State, conn: ConnId, now: string)
    requires WellFormed(s) && LeaveApplies(s, conn)
    ensures var o := LeaveGroup(s, conn, now);
      var b := s.bindings[conn];
      && |o.emitted| == (if b.room in o.next.rooms then 3 else 2)
      && (b.room in o.next.rooms ==>
            o.emitted[0] == UserLeft(b.room, LeftText(b.username), now, o.next.rooms[b.room]))
      && o.emitted[|o.emitted| - 2] == ActiveRoomsToAll(SnapshotOf(o.next))
      && o.emitted[|o.emitted| - 1] == RoomUpdateToAll(Details(o.next.rooms, o.next.order))
  {
  }

  lemma KickUserPreservesInv(s: State, roomCode: string, username: string, socketFound: bool, now: string)
    requires Inv(s)
    ensures Inv(KickUser(s, roomCode, username, socketFound, now).next)
  {
    if KickApplies(s, roomCode, username, socketFound) {
      RemoveMemberPreservesInv(s, roomCode, username);
    }
  }

  /**
   What a `kickUser` that takes effect emits: `kicked` to the connection whose id
   is the name, `userLeft` with the remaining members (even when none remain),
   then the listing of the new directory.
   */
  lemma KickUserAnnounces(s: State, roomCode: string, username: string, now: string)
    requires WellFormed(s) && KickApplies(s, roomCode, username, true)
    ensures var o := KickUser(s, roomCode, username, true, now);
      o.emitted == [KickedTo(username, KickedMessage),
                    UserLeft(roomCode, KickedText(username), now, s.rooms[roomCode] - {username}),
                    ActiveRoomsToAll(SnapshotOf(o.next))]
  {
  }

  lemma DisconnectPreservesInv(s: State, conn: ConnId, now: string)
    requires Inv(s)
    ensures Inv(Disconnect(s, conn, now).next)
  {
    match BoundName(s, conn)
    case None =>
    case Some(u) =>
      match FirstHolder(s.rooms, s.order, u)
      case None =>
      case Some(i) =>
        RemoveMemberPreservesInv(s.(gone := s.gone + {conn}), s.order[i], u);
  }

  lemma StepPreservesInv(s: State, req: Request)
    requires Inv(s)
    ensures Inv(Step(s, req).next)
  {
    if Origin(req) !in s.gone {
      match req
      case JoinReq(conn, username, roomCode, now) => JoinPreservesInv(s, conn, username, roomCode, now);
      case LeaveGroupReq(conn, now) => LeaveGroupPreservesInv(s, conn, now);
      case MessageReq(sender, msg, now) =>
      case KickUserReq(_, roomCode, username, socketFound, now) =>
        KickUserPreservesInv(s, roomCode, username, socketFound, now);
      case DisconnectReq(conn, now) => DisconnectPreservesInv(s, conn, now);
      case GetActiveRoomsReq(conn) =>
    }
  }

  lemma {:induction false} RunPreservesInv(s: State, reqs: seq<Request>)
    requires Inv(s)
    ensures Inv(Run(s, reqs))
    decreases |reqs|
  {
    if reqs != [] {
      StepPreservesInv(s, reqs[0]);
      RunPreservesInv(Step(s, reqs[0]).next, reqs[1..]);
    }
  }

  /** Deleting a key the map does not hold leaves the key order as it was. */
  lemma {:induction false} DropAbsent(order: seq<string>, code: string)
    requires code !in order
    ensures Drop(order, code) == order
  {
    if order != [] {
      DropAbsent(order[1..], code);
      assert order == [order[0]] + order[1..];
    }
  }

  /**
   `Map.delete` keeps the order of the other keys: deleting the key at position
   `k` of a duplicate-free order closes the gap and moves nothing else.
   */
  lemma {:induction false} DropAt(order: seq<string>, k: nat)
    requires Distinct(order) && k < |order|
    ensures Drop(order, order[k]) == order[..k] + order[k + 1..]
  {
    DistinctTail(order);
    if k == 0 {
      DropAbsent(order[1..], order[0]);
    } else {
      var rest := order[1..];
      assert order[0] != order[k] && rest[k - 1] == order[k];
      DropAt(rest, k - 1);
      assert order[..k] == [order[0]] + rest[..k - 1];
      assert order[k + 1..] == rest[k..];
    }
  }

  /** The tail of a duplicate-free order is duplicate-free and does not repeat the head. */
  lemma DistinctTail(order: seq<string>)
    requires Distinct(order) && order != []
    ensures Distinct(order[1..]) && order[0] !in order[1..]
  {
  }

  /**
   In every state reachable from start-up by any sequence of events: rooms exist
   exactly while they have members, each name is in at most one room, and every
   member's name is active.
   */
  lemma ReachableStatesSatisfyInv(reqs: seq<Request>)
    ensures Inv(Run(Initial, reqs))
  {
    InitialSatisfiesInv();
    RunPreservesInv(Initial, reqs);
  }

  /**
   The `activeRooms` listing names every room of the directory exactly once and
   nothing else, and each count is the room's member count, which is never zero.
   */
  lemma SnapshotListsOccupiedRooms(s: State)
    requires Inv(s)
    ensures var snap := SnapshotOf(s);
      && (forall code :: code in s.rooms <==> exists i :: 0 <= i < |snap| && snap[i].name == code)
      && (forall i :: 0 <= i < |snap| ==> snap[i].name in s.rooms && snap[i].userCount == |s.rooms[snap[i].name]|)
      && (forall i :: 0 <= i < |snap| ==> snap[i].userCount > 0)
      && (forall i, j :: 0 <= i < j < |snap| ==> snap[i].name != snap[j].name)
  {
  }

  /**
   A name leaves `activeUsernames` only through a `leaveGroup` from the live
   connection bound to it: `kickUser` and `disconnect` never release a name.
   */
  lemma OnlyLeaveGroupReleasesNames(s: State, req: Request, u: string)
    requires WellFormed(s)
    requires u in s.active && u !in Step(s, req).next.active
    ensures req.LeaveGroupReq? && req.conn !in s.gone
    ensures req.conn in s.bindings && s.bindings[req.conn].username == u
  {
  }

  /**
   After a kick the name is out of the room but still active, so a later `join`
   under that name is refused from any connection.
   */
  lemma KickKeepsNameReserved(s: State, roomCode: string, username: string, now: string,
                              conn: ConnId, nextRoom: string, later: string)
    requires Inv(s) && KickApplies(s, roomCode, username, true)
    ensures var t := KickUser(s, roomCode, username, true, now).next;
      && (roomCode in t.rooms ==> username !in t.rooms[roomCode])
      && username in t.active
      && Join(t, conn, username, nextRoom, later).emitted == [ErrorTo(conn, TakenMessage)]
  {
  }

  /**
   Under the invariant the name is in at most one room, so the room `disconnect`
   stops at is the only one: afterwards the name is in no room, yet it is still
   active, so the name cannot be joined again; and the connection is closed.
   */
  lemma DisconnectKeepsNameReserved(s: State, conn: ConnId, now: string,
                                    other: ConnId, nextRoom: string, later: string)
    requires Inv(s) && conn in s.bindings
    ensures var u := s.bindings[conn].username;
      var t := Disconnect(s, conn, now).next;
      && (forall code :: code in t.rooms ==> u !in t.rooms[code])
      && u in t.active
      && conn in t.gone
      && Join(t, other, u, nextRoom, later).emitted == [ErrorTo(other, TakenMessage)]
  {
  }

  /**
   `u` is the name bound to the closed connection `c`, and no room holds it. It
   is still taken, and since nothing can reach the connection's binding again,
   nothing can release it.
   */
  ghost predicate Retired(s: State, c: ConnId, u: string) {
    && c in s.gone && c in s.bindings && s.bindings[c].username == u
    && u in s.active
    && forall code :: code in s.rooms ==> u !in s.rooms[code]
  }

  /** A `join` from an open connection can neither take a retired name nor rebind its connection. */
  lemma JoinKeepsRetired(s: State, c: ConnId, u: string, conn: ConnId, username: string, roomCode: string, now: string)
    requires Inv(s) && Retired(s, c, u) && conn !in s.gone
    ensures Retired(Join(s, conn, username, roomCode, now).next, c, u)
  {
    if username !in s.active {
      var t := Admit(s, conn, username, roomCode);
      assert t.bindings[c] == s.bindings[c];
    }
  }

  /** A `leaveGroup` from a live connection releases that connection's own name, never a retired one. */
  lemma LeaveGroupKeepsRetired(s: State, c: ConnId, u: string, conn: ConnId, now: string)
    requires Inv(s) && Retired(s, c, u) && conn !in s.gone
    ensures Retired(LeaveGroup(s, conn, now).next, c, u)
  {
    if LeaveApplies(s, conn) {
      assert s.bindings[conn].username != u;
    }
  }

  /** A kick only shrinks a room; it releases no name and touches no binding. */
  lemma KickUserKeepsRetired(s: State, c: ConnId, u: string, roomCode: string, username: string,
                             socketFound: bool, now: string)
    requires Inv(s) && Retired(s, c, u)
    ensures Retired(KickUser(s, roomCode, username, socketFound, now).next, c, u)
  {
  }

  /** Another connection closing only shrinks a room and closes one more connection. */
  lemma DisconnectKeepsRetired(s: State, c: ConnId, u: string, conn: ConnId, now: string)
    requires Inv(s) && Retired(s, c, u)
    ensures Retired(Disconnect(s, conn, now).next, c, u)
  {
  }

  /** No event, from any live connection, brings a retired name back or frees it. */
  lemma StepKeepsRetired(s: State, c: ConnId, u: string, req: Request)
    requires Inv(s) && Retired(s, c, u)
    ensures Retired(Step(s, req).next, c, u)
  {
    if Origin(req) !in s.gone {
      match req
      case JoinReq(conn, username, roomCode, now) => JoinKeepsRetired(s, c, u, conn, username, roomCode, now);
      case LeaveGroupReq(conn, now) => LeaveGroupKeepsRetired(s, c, u, conn, now);
      case MessageReq(sender, msg, now) =>
      case KickUserReq(_, roomCode, username, socketFound, now) =>
        KickUserKeepsRetired(s, c, u, roomCode, username, socketFound, now);
      case DisconnectReq(conn, now) => DisconnectKeepsRetired(s, c, u, conn, now);
      case GetActiveRoomsReq(conn) =>
    }
  }

  lemma {:induction false} RunKeepsRetired(s: State, c: ConnId, u: string, reqs: seq<Request>)
    requires Inv(s) && Retired(s, c, u)
    ensures Retired(Run(s, reqs), c, u)
    decreases |reqs|
  {
    if reqs != [] {
      StepKeepsRetired(s, c, u, reqs[0]);
      StepPreservesInv(s, reqs[0]);
      RunKeepsRetired(Step(s, reqs[0]).next, c, u, reqs[1..]);
    }
  }

  /**
   A name whose connection dropped without a `leaveGroup` stays taken for the
   rest of the process: whatever events follow, it is in `activeUsernames`, in
   no room, and every `join` asking for it is refused.
   */
  lemma DisconnectedNameTakenForever(s: State, conn: ConnId, now: string, reqs: seq<Request>,
                                     other: ConnId, nextRoom: string, later: string)
    requires Inv(s) && conn in s.bindings
    ensures var u := s.bindings[conn].username;
      var t := Run(Disconnect(s, conn, now).next, reqs);
      && u in t.active
      && (forall code :: code in t.rooms ==> u !in t.rooms[code])
      && Join(t, other, u, nextRoom, later).emitted == [ErrorTo(other, TakenMessage)]
  {
    var u := s.bindings[conn].username;
    var closed := Disconnect(s, conn, now).next;
    DisconnectKeepsNameReserved(s, conn, now, other, nextRoom, later);
    DisconnectPreservesInv(s, conn, now);
    assert Retired(closed, conn, u);
    RunKeepsRetired(closed, conn, u, reqs);
    RunPreservesInv(closed, reqs);
  }

  /** Who sends a `message` makes no difference to what happens. */
  lemma MessageIgnoresSender(s: State, sender: ConnId, other: ConnId, msg: ChatMessage, now: string)
    ensures Message(s, sender, msg, now) == Message(s, other, msg, now)
  {
  }

  /**
   A connection that never joined, or is bound to another name, still gets a
   message relayed under the payload's user, provided that user is a member of
   the payload's room.
   */
  lemma ImpersonationIsRelayed(s: State, sender: ConnId, msg: ChatMessage, now: string)
    requires Relays(s, msg)
    requires sender !in s.bindings || s.bindings[sender].username != msg.user
    ensures Message(s, sender, msg, now).emitted == [MessageTo(msg.room, msg.(time := now))]
    ensures Message(s, sender, msg, now).emitted[0].msg.user == msg.user
  {
  }

  /** Kicking the only member deletes the room: the next listing does not name it. */
  lemma KickingLastMemberDeletesRoom(s: State, roomCode: string, username: string, now: string)
    requires Inv(s) && roomCode in s.rooms && s.rooms[roomCode] == {username} && username != ""
    ensures var t := KickUser(s, roomCode, username, true, now).next;
      && roomCode !in t.rooms
      && forall i :: 0 <= i < |SnapshotOf(t)| ==> SnapshotOf(t)[i].name != roomCode
  {
  }

  /** The state after the first join of "alice" into "bio1" on a fresh server. */
  lemma FirstJoin(now: string)
    ensures Join(Initial, "c1", "alice", "bio1", now).next
            == State(map["bio1" := {"alice"}], ["bio1"], {"alice"}, map["c1" := Binding("alice", "bio1")], {})
  {
  }

  /** "bob" joins "alice" in "bio1" on a second connection: both are listed, and counted. */
  lemma SecondJoin(now: string)
    ensures var s1 := State(map["bio1" := {"alice"}], ["bio1"], {"alice"}, map["c1" := Binding("alice", "bio1")], {});
      var o := Join(s1, "c2", "bob", "bio1", now);
      && SnapshotOf(o.next) == [RoomInfo("bio1", 2)]
      && UserJoined("bio1", JoinedText("bob"), now, {"alice", "bob"}) in o.emitted
  {
    var s1 := State(map["bio1" := {"alice"}], ["bio1"], {"alice"}, map["c1" := Binding("alice", "bio1")], {});
    assert "bob" !in s1.active;
    var o := Join(s1, "c2", "bob", "bio1", now);
    var t := o.next;
    assert t.rooms.Keys == {"bio1"} && t.order == ["bio1"];
    assert t.rooms["bio1"] == {"alice", "bob"};
    assert |t.rooms["bio1"]| == 2;
    var snap := SnapshotOf(t);
    assert |snap| == 1 && snap[0] == RoomInfo("bio1", 2);
  }

  /** Two people joining "bio1" on two connections: one room, counted twice, both listed. */
  lemma TwoJoinsShareOneRoom(now: string)
    ensures var s1 := Join(Initial, "c1", "alice", "bio1", now);
      var s2 := Join(s1.next, "c2", "bob", "bio1", now);
      && SnapshotOf(s2.next) == [RoomInfo("bio1", 2)]
      && UserJoined("bio1", "bob has joined the chat", now, {"alice", "bob"}) in s2.emitted
  {
    assert "bob" + " has joined the chat" == "bob has joined the chat";
    FirstJoin(now);
    SecondJoin(now);
  }

  /**
   An explicit leave and a disconnect are not interchangeable: after "alice"
   joins and leaves, the name is free and unbound; after a join and the
   connection drops, the room is gone just the same but the name stays active,
   and no `roomUpdate` goes out.
   */
  lemma DisconnectIsNotLeave(now: string)
    ensures var s1 := Join(Initial, "c1", "alice", "bio1", now).next;
      var left := LeaveGroup(s1, "c1", now);
      var dropped := Disconnect(s1, "c1", now);
      && left.next.rooms == dropped.next.rooms == map[]
      && left.next.active == {} && left.next.bindings == map[]
      && dropped.next.active == {"alice"} && "c1" in dropped.next.gone
      && RoomUpdateToAll([]) in left.emitted
      && forall e :: e in dropped.emitted ==> !e.RoomUpdateToAll?
  {
    FirstJoin(now);
    var s1 := State(map["bio1" := {"alice"}], ["bio1"], {"alice"}, map["c1" := Binding("alice", "bio1")], {});
    assert FirstHolder(s1.rooms, s1.order, "alice") == Some(0);
  }

  /** Under the invariant, the first room in map order holding a bound name is the room its binding records. */
  lemma FirstHolderIsBoundRoom(s: State, conn: ConnId)
    requires Inv(s) && conn in s.bindings
    requires s.bindings[conn].room in s.rooms && s.bindings[conn].username in s.rooms[s.bindings[conn].room]
    ensures var b := s.bindings[conn];
      var k := FirstHolder(s.rooms, s.order, b.username);
      k.Some? && s.order[k.value] == b.room
  {
  }

  /**
   On the ordinary path, where the bound name is still in the room its binding
   records, `disconnect` changes the directory exactly as `leaveGroup` does and
   emits the same events, less the final `roomUpdate`.
   */
  lemma DisconnectCleansUpLikeLeave(s: State, conn: ConnId, now: string)
    requires Inv(s) && LeaveApplies(s, conn)
    requires s.bindings[conn].username in s.rooms[s.bindings[conn].room]
    ensures var d := Disconnect(s, conn, now);
      var l := LeaveGroup(s, conn, now);
      && d.next.rooms == l.next.rooms && d.next.order == l.next.order
      && |l.emitted| > 0 && d.emitted == l.emitted[..|l.emitted| - 1]
      && l.emitted[|l.emitted| - 1] == RoomUpdateToAll(Details(l.next.rooms, l.next.order))
  {
    FirstHolderIsBoundRoom(s, conn);
    var b := s.bindings[conn];
    var closed := s.(gone := s.gone + {conn});
    var t := RemoveMember(s, b.room, b.username);
    assert RemoveMember(closed, b.room, b.username) == t.(gone := closed.gone);
  }

  /** A bound name that no room holds: `disconnect` finds nothing, emits nothing and only closes the connection. */
  lemma DisconnectOfRoomlessName(s: State, conn: ConnId, now: string)
    requires WellFormed(s) && conn in s.bindings
    requires forall code :: code in s.rooms ==> s.bindings[conn].username !in s.rooms[code]
    ensures Disconnect(s, conn, now) == Outcome(s.(gone := s.gone + {conn}), [])
  {
  }

  /**
   A bound name that no room holds, while the recorded room lives on: `leaveGroup`
   still frees the name and announces `userLeft` with the room's unchanged
   members, the listing and `roomUpdate`.
   */
  lemma LeaveOfRoomlessName(s: State, conn: ConnId, now: string)
    requires WellFormed(s) && LeaveApplies(s, conn)
    requires forall code :: code in s.rooms ==> s.bindings[conn].username !in s.rooms[code]
    requires s.rooms[s.bindings[conn].room] != {}
    ensures var b := s.bindings[conn];
      var l := LeaveGroup(s, conn, now);
      && l.next.rooms == s.rooms && l.next.order == s.order
      && l.next.active == s.active - {b.username}
      && l.emitted == [UserLeft(b.room, LeftText(b.username), now, s.rooms[b.room]),
                       ActiveRoomsToAll(SnapshotOf(l.next)),
                       RoomUpdateToAll(Details(l.next.rooms, l.next.order))]
  {
    var b := s.bindings[conn];
    assert s.rooms[b.room] - {b.username} == s.rooms[b.room];
    assert RemoveMember(s, b.room, b.username).rooms == s.rooms;
  }

  /**
   After a kick that leaves the room alive, the kicked name is in no room. A
   `leaveGroup` from its connection still frees the name and announces
   `userLeft`, the listing and `roomUpdate`; a `disconnect` finds no room,
   emits nothing and only closes the connection.
   */
  lemma LeaveAfterKickDiffersFromDisconnect(s: State, conn: ConnId, kickTime: string, now: string)
    requires Inv(s) && LeaveApplies(s, conn)
    requires var b := s.bindings[conn]; b.username in s.rooms[b.room] && s.rooms[b.room] != {b.username}
    ensures var b := s.bindings[conn];
      var k := KickUser(s, b.room, b.username, true, kickTime).next;
      var d := Disconnect(k, conn, now);
      var l := LeaveGroup(k, conn, now);
      && d.next == k.(gone := k.gone + {conn}) && d.emitted == []
      && b.username in d.next.active
      && b.username in k.active && l.next.active == k.active - {b.username}
      && l.next.rooms == k.rooms
      && l.emitted == [UserLeft(b.room, LeftText(b.username), now, k.rooms[b.room]),
                       ActiveRoomsToAll(SnapshotOf(l.next)),
                       RoomUpdateToAll(Details(l.next.rooms, l.next.order))]
  {
    var b := s.bindings[conn];
    assert KickApplies(s, b.room, b.username, true);
    var k := KickUser(s, b.room, b.username, true, kickTime).next;
    assert b.room in k.rooms && k.rooms[b.room] == s.rooms[b.room] - {b.username};
    assert k.bindings == s.bindings && k.active == s.active;
    assert forall code :: code in k.rooms ==> b.username !in k.rooms[code];
    DisconnectOfRoomlessName(k, conn, now);
    LeaveOfRoomlessName(k, conn, now);
  }

  /**
   A second successful `join` on a connection overwrites its `socket.data`. The
   old name keeps its room and stays taken, yet no connection is bound to it
   any more, so no `leaveGroup` can release it.
   */
  lemma RejoinOrphansOldName(s: State, conn: ConnId, newName: string, roomCode: string, now: string)
    requires Inv(s) && conn in s.bindings && newName !in s.active
    ensures var u := s.bindings[conn].username;
      var t := Join(s, conn, newName, roomCode, now).next;
      && u in t.active
      && (forall code :: code in s.rooms && u in s.rooms[code] ==> code in t.rooms && u in t.rooms[code])
      && t.bindings[conn] == Binding(newName, roomCode)
      && (forall c :: c in t.bindings ==> t.bindings[c].username != u)
  {
  }
}
