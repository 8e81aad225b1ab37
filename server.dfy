/**
 The server process's mutable state and its socket handlers, written step by step
 as the handlers update `activeRooms`, `activeUsernames` and `socket.data` in
 place. Every handler is proved to have exactly the effect, and to emit exactly
 the events, that the matching function of `Handlers` describes, and to keep the
 directory invariant of `ChatState`.

 Each state-changing handler comes in two layers: `ApplyX` holds the handler's
 statements and needs only the key order to be well formed; `X` is the entry
 point, which also carries the invariant across the call.
 */
module Server {
  import opened ChatState
  import opened Handlers
  import Properties

  class ChatServer {
    var rooms: map<string, set<string>>     // activeRooms
    var order: seq<string>                  // activeRooms' key order
    var active: set<string>                 // activeUsernames
    var bindings: map<ConnId, Binding>      // socket.data of every connection
    var gone: set<ConnId>                   // connections the transport has closed
    var sent: seq<Event>                    // everything emitted so far, oldest first

    /** The directory and the registry, without the record of emissions. */
    function Model(): State
      reads this`rooms, this`order, this`active, this`bindings, this`gone
    {
      State(rooms, order, active, bindings, gone)
    }

    ghost predicate Valid()
      reads this
    {
      Inv(Model())
    }

    constructor ()
      ensures Valid() && Model() == Initial && sent == []
    {
      rooms, order, active, bindings, gone, sent := map[], [], {}, map[], {}, [];
      Properties.InitialSatisfiesInv();
    }

    /** `getActiveRooms`: the listing, to the requester only. */
    method GetActiveRooms(conn: ConnId)
      requires Valid()
      modifies this`sent
      ensures Valid()
      ensures sent == old(sent) + Handlers.GetActiveRooms(Model(), conn).emitted
    {
      sent := sent + [ActiveRoomsTo(conn, Snapshot(rooms, order))];
    }

    /**
     The state changes of a `join` that passed the name check: create the room if
     it is new, add the name to it and to `activeUsernames`, fill `socket.data`.
     */
    method Enter(conn: ConnId, username: string, roomCode: string)
      requires WellFormed(Model())
      modifies this`rooms, this`order, this`active, this`bindings
      ensures Model() == Admit(old(Model()), conn, username, roomCode)
    {
      if roomCode !in rooms {
        rooms := rooms[roomCode := {}];
        order := order + [roomCode];
      }
      rooms := rooms[roomCode := rooms[roomCode] + {username}];
      active := active + {username};
      bindings := bindings[conn := Binding(username, roomCode)];
    }

    method ApplyJoin(conn: ConnId, username: string, roomCode: string, now: string)
      requires WellFormed(Model())
      modifies this
      ensures Model() == Handlers.Join(old(Model()), conn, username, roomCode, now).next
      ensures sent == old(sent) + Handlers.Join(old(Model()), conn, username, roomCode, now).emitted
    {
      if username in active {
        sent := sent + [ErrorTo(conn, TakenMessage)];
        return;
      }
      Enter(conn, username, roomCode);
      var snap := Snapshot(rooms, order);  // `broadcastActiveRooms` and `adminRooms` read the same map
      var joined := UserJoined(roomCode, JoinedText(username), now, rooms[roomCode]);
      if roomCode == AdminRoom {
        sent := sent + [ActiveRoomsToAll(snap), AdminRoomsTo(conn, snap), joined, ActiveRoomsToAll(snap)];
      } else {
        sent := sent + [ActiveRoomsToAll(snap), joined, ActiveRoomsToAll(snap)];
      }
    }

    method Join(conn: ConnId, username: string, roomCode: string, now: string)
      requires Valid()
      modifies this
      ensures Valid()
      ensures Model() == Handlers.Join(old(Model()), conn, username, roomCode, now).next
      ensures sent == old(sent) + Handlers.Join(old(Model()), conn, username, roomCode, now).emitted
    {
      ApplyJoin(conn, username, roomCode, now);
      Properties.JoinPreservesInv(old(Model()), conn, username, roomCode, now);
    }

    /**
     `room.users.delete(u)` and "remove room if empty", which `leaveGroup`,
     `kickUser` and `disconnect` each do in place.
     */
    method RemoveFromRoom(code: string, u: string)
      requires WellFormed(Model()) && code in rooms
      modifies this`rooms, this`order
      ensures Model() == RemoveMember(old(Model()), code, u)
    {
      var users := rooms[code] - {u};
      if users == {} {
        rooms := rooms - {code};
        order := Drop(order, code);
      } else {
        rooms := rooms[code := users];
      }
    }

    method ApplyLeaveGroup(conn: ConnId, now: string)
      requires WellFormed(Model())
      modifies this
      ensures Model() == Handlers.LeaveGroup(old(Model()), conn, now).next
      ensures sent == old(sent) + Handlers.LeaveGroup(old(Model()), conn, now).emitted
    {
      if conn in bindings && bindings[conn].username != "" && bindings[conn].room != ""
         && bindings[conn].room in rooms
      {
        var username := bindings[conn].username;
        var room := bindings[conn].room;
        RemoveFromRoom(room, username);
        ghost var removed := Model();
        active := active - {username};
        var notify: seq<Event> := [];
        if room in rooms {
          notify := [UserLeft(room, LeftText(username), now, rooms[room])];
        }
        bindings := bindings - {conn};
        assert Model() == removed.(active := removed.active - {username}, bindings := removed.bindings - {conn});
        sent := sent + (notify + [ActiveRoomsToAll(Snapshot(rooms, order)), RoomUpdateToAll(Details(rooms, order))]);
      }
    }

    method LeaveGroup(conn: ConnId, now: string)
      requires Valid()
      modifies this
      ensures Valid()
      ensures Model() == Handlers.LeaveGroup(old(Model()), conn, now).next
      ensures sent == old(sent) + Handlers.LeaveGroup(old(Model()), conn, now).emitted
    {
      ApplyLeaveGroup(conn, now);
      Properties.LeaveGroupPreservesInv(old(Model()), conn, now);
    }

    method Message(sender: ConnId, msg: ChatMessage, now: string)
      requires Valid()
      modifies this`sent
      ensures Valid()
      ensures sent == old(sent) + Handlers.Message(Model(), sender, msg, now).emitted
    {
      if Relays(Model(), msg) {
        sent := sent + [MessageTo(msg.room, ChatMessage(msg.user, msg.text, now, msg.room))];
      }
    }

    /** `socketFound` is the transport's answer to looking the username up as a socket id. */
    method ApplyKickUser(roomCode: string, username: string, socketFound: bool, now: string)
      requires WellFormed(Model())
      modifies this
      ensures Model() == Handlers.KickUser(old(Model()), roomCode, username, socketFound, now).next
      ensures sent == old(sent) + Handlers.KickUser(old(Model()), roomCode, username, socketFound, now).emitted
    {
      if roomCode in rooms && username in rooms[roomCode] && username != "" && socketFound {
        var kicked := KickedTo(username, KickedMessage);
        var left := UserLeft(roomCode, KickedText(username), now, rooms[roomCode] - {username});
        RemoveFromRoom(roomCode, username);
        sent := sent + [kicked, left, ActiveRoomsToAll(Snapshot(rooms, order))];
      }
    }

    method KickUser(roomCode: string, username: string, socketFound: bool, now: string)
      requires Valid()
      modifies this
      ensures Valid()
      ensures Model() == Handlers.KickUser(old(Model()), roomCode, username, socketFound, now).next
      ensures sent == old(sent) + Handlers.KickUser(old(Model()), roomCode, username, socketFound, now).emitted
    {
      ApplyKickUser(roomCode, username, socketFound, now);
      Properties.KickUserPreservesInv(old(Model()), roomCode, username, socketFound, now);
    }

    /**
     The `disconnect` handler's loop: walk the rooms in the map's order; the
     first one holding the bound name loses it, and the walk stops there.
     */
    method Vacate(conn: ConnId, now: string)
      requires WellFormed(Model())
      modifies this`rooms, this`order, this`sent
      ensures Model() == VacateFirstRoom(old(Model()), conn, now).next
      ensures sent == old(sent) + VacateFirstRoom(old(Model()), conn, now).emitted
    {
      var who := BoundName(Model(), conn);
      var i := 0;
      while i < |order|
        invariant 0 <= i <= |order|
        invariant Model() == old(Model()) && sent == old(sent)
        invariant who.Some? ==> forall j :: 0 <= j < i ==> who.value !in rooms[order[j]]
      {
        var code := order[i];
        if who.Some? && who.value in rooms[code] {
          var username := who.value;
          assert FirstHolder(rooms, order, username) == Some(i);
          RemoveFromRoom(code, username);
          var notify: seq<Event> := [];
          if code in rooms {
            notify := [UserLeft(code, LeftText(username), now, rooms[code])];
          }
          sent := sent + (notify + [ActiveRoomsToAll(Snapshot(rooms, order))]);
          return;  // the source's `break`, after which the handler ends
        }
        i := i + 1;
      }
    }

    /** `disconnect`: the transport has closed the connection, then the handler runs. */
    method ApplyDisconnect(conn: ConnId, now: string)
      requires WellFormed(Model())
      modifies this
      ensures Model() == Handlers.Disconnect(old(Model()), conn, now).next
      ensures sent == old(sent) + Handlers.Disconnect(old(Model()), conn, now).emitted
    {
      gone := gone + {conn};
      Vacate(conn, now);
    }

    method Disconnect(conn: ConnId, now: string)
      requires Valid()
      modifies this
      ensures Valid()
      ensures Model() == Handlers.Disconnect(old(Model()), conn, now).next
      ensures sent == old(sent) + Handlers.Disconnect(old(Model()), conn, now).emitted
    {
      ApplyDisconnect(conn, now);
      Properties.DisconnectPreservesInv(old(Model()), conn, now);
    }
  }
}
