# Chat server room and session state, in Dafny

This project models the server side of a multi-room chat: the Socket.IO
handlers of `server/src/index.ts` and the in-memory state they share. The
state has three parts. `activeRooms` maps a room code to the set of member
usernames. `activeUsernames` is the set of names currently taken. Each
connection's `socket.data` holds the username and room code bound at join.
Six handlers read or change this state: `getActiveRooms`, `join`, `leaveGroup`,
`message`, `kickUser` and `disconnect`. There is also the `broadcastActiveRooms`
listing.

The model is four files in two layers: a specification of values, and the server as it runs.

- `chat_state.dfy` (module `ChatState`) holds the state as a value `State`. It
  also defines the events the server emits, the `{name, userCount}` listing
  (`Snapshot`) and the `roomUpdate` detail list (`Details`), and the invariant
  `Inv`. A JavaScript `Map` iterates in insertion order, so the state keeps the
  key order (`order`) beside the map; `Drop` is `Map.delete` on that order.
- `handlers.dfy` (module `Handlers`) gives each handler as a function from the
  state before an event to an `Outcome`: the state after it, and the list of
  events emitted, in emission order. The state also records the connections the
  transport has closed (`gone`). Socket.IO delivers nothing from a connection
  after its `disconnect` and never reuses its id, so `Step`, the dispatcher,
  ignores any event from a closed connection. The handlers themselves, like the
  source's, never look at `gone`.
- `properties.dfy` (module `Properties`) proves what the handlers guarantee.
  Every handler keeps `Inv`, so `Inv` holds in every state reachable from
  start-up. The invariant says seven things. The key order lists each key of
  the map exactly once and nothing else. No room is empty. Every member's name
  is taken. Each name is in at most one room. Every bound name is taken. No
  name is bound to two connections. When a room holds a bound name, that room
  is the one recorded in the binding.
- `server.dfy` (module `Server`) is the server as it runs. It is a class
  `ChatServer` whose fields are the module-level collections, the closed
  connections and a log `sent` of everything emitted. Its methods update the
  fields in place, with the same effects as the handlers and the emissions in
  the same order. `disconnect` is a loop over the rooms in map
  order that stops at the first room holding the name. Each method is proved
  to leave exactly the state, and to append exactly the events, that the
  matching `Handlers` function gives. Each entry method (the six handlers)
  also keeps `Valid()`, which is `Inv` of its fields; the `Apply` methods and
  the helpers they call need only the key order to be well formed.

Where the code does something other than what a session-based design would
do, the model follows the code. Lemmas in `Properties` then state the
difference:

- `kickUser` and `disconnect` never release a username; only `leaveGroup`
  does. A kicked or disconnected name therefore stays taken.
- `disconnect` sends no `roomUpdate` and does not release the name, so it is
  not the same as `leaveGroup`. The closed connection can send no later
  `leaveGroup`, so the name of a dropped connection stays taken, and in no
  room, for the rest of the process, whatever events follow. On the ordinary
  path, where the name is still in the room its binding records, `disconnect`
  changes the rooms and their order exactly as `leaveGroup` does and emits the
  same events without the final `roomUpdate`. After a kick the two part ways:
  `leaveGroup` still frees the name and announces the room, while `disconnect`
  finds no room and emits nothing.
- A second `join` on the same connection under a new name overwrites
  `socket.data`. The old name keeps its room and stays taken, but no
  connection is bound to it any more, so no `leaveGroup` can release it.
- `message` trusts the payload's `user` and `room`. The sender's own binding
  plays no part.
- `kickUser` looks the target's socket up using the USERNAME as a socket id.
  The model takes the answer of that lookup as a boolean input, `socketFound`.
  When the lookup fails, nothing happens. When it succeeds, the `kicked` event
  is addressed to the connection whose id equals the name.

## Model

| member | source | states |
|---|---|---|
| ChatState.Drop | server/src/index.ts:130 | `Map.delete` on the key order: exactly the other keys remain, still without duplicates |
| ChatState.Snapshot | server/src/index.ts:55-61 | the `{name, userCount}` listing has one entry per key, in map order, and each count is that room's member count |
| ChatState.Details | server/src/index.ts:143-149 | the `roomUpdate` list has one entry per key, in map order, with the room's members and their count |
| ChatState.FirstHolder | server/src/index.ts:205-207 | the position of the first room, in map order, whose members include the name; `None` when no room holds it |
| Handlers.RemoveMember | server/src/index.ts:124-130 | the member leaves the room; the room leaves the map exactly when it is left empty; every other room, the taken names and the bindings are unchanged; the key order is unchanged when the room survives and loses only that key (`Drop`) when it goes |
| Handlers.Join | server/src/index.ts:75-82 | a taken name gets one `error` to the requester and nothing changes; otherwise the new state is the admitted one |
| Handlers.Admit | server/src/index.ts:84-94 | the room is created if new and its key goes last; the name joins that room and the taken set; the connection is bound to name and room; other rooms are unchanged |
| Handlers.LeaveGroup | server/src/index.ts:119-156 | with no bound name or room, or the room gone, nothing happens; otherwise the name leaves its room (the room goes if emptied) and the taken set, and the binding is cleared; the key order loses the room's key only if the room went |
| Handlers.Message | server/src/index.ts:158-172 | relays exactly one `message` with the payload's user, text and room and the server time, exactly when that room exists and lists that user; the state never changes |
| Handlers.KickUser | server/src/index.ts:174-201 | when the room holds the name and the socket lookup succeeds, the name leaves the room (the room goes if it was the only member); taken names and bindings are unchanged; the key order loses the room's key only if the room went; otherwise nothing happens |
| Handlers.VacateFirstRoom | server/src/index.ts:204-226 | with no bound name, or no room holding it, nothing happens; otherwise only the first room in map order holding the name loses it (and goes, with its key, if emptied); taken names, bindings and closed connections never change; `userLeft` only to a surviving room, then the listing |
| Handlers.Disconnect | server/src/index.ts:203-227 | the connection is closed; only the first room holding the bound name loses it (and goes, with its key, if emptied); taken names and bindings never change; `userLeft` only to a surviving room, then the listing |
| Handlers.GetActiveRooms | server/src/index.ts:67-73 | the current listing goes to the requester only; the state does not change |
| Handlers.Step | server/src/index.ts:63-75 | dispatching any inbound event keeps the key order matching the map; an event from a closed connection changes nothing and emits nothing |
| Handlers.Run | server/src/index.ts:63-75 | handling events one at a time, each to completion, keeps the key order matching the map |
| Properties.InitialSatisfiesInv | server/src/index.ts:51-52 | the empty start-up state satisfies the invariant |
| Properties.RemoveMemberPreservesInv | server/src/index.ts:124-130 | removing a member, and the room if emptied, keeps the invariant |
| Properties.AdmitPreservesInv | server/src/index.ts:79-94 | admitting a name that passed the taken check keeps the invariant: the name was in no room and bound to no connection |
| Properties.JoinPreservesInv | server/src/index.ts:75-117 | `join` keeps the invariant |
| Properties.JoinAnnounces | server/src/index.ts:96-116 | a successful `join` emits the listing first and last, `adminRooms` to the joiner exactly for room "main", `userJoined` with the room's members just before the last listing, and no error |
| Properties.SnapshotAppend | server/src/index.ts:56-59 | listing one more key at the end keeps the earlier entries and adds the new room's entry last |
| Properties.NewRoomListedLast | server/src/index.ts:85-97 | a `join` that creates a room lists it last with one member, and every earlier entry keeps its place and count |
| Properties.ReleasePreservesInv | server/src/index.ts:126-154 | releasing a name held by no room, together with its binding, keeps the invariant |
| Properties.LeaveGroupPreservesInv | server/src/index.ts:119-156 | `leaveGroup` keeps the invariant |
| Properties.LeaveGroupAnnounces | server/src/index.ts:128-149 | a `leaveGroup` that takes effect emits `userLeft` with the remaining members only if the room survived, then the listing and `roomUpdate` of the new state |
| Properties.KickUserPreservesInv | server/src/index.ts:174-201 | `kickUser` keeps the invariant |
| Properties.KickUserAnnounces | server/src/index.ts:182-197 | a kick that takes effect emits `kicked` to the target, `userLeft` with the remaining members even when none remain, then the listing |
| Properties.DisconnectPreservesInv | server/src/index.ts:203-227 | `disconnect` keeps the invariant |
| Properties.StepPreservesInv | server/src/index.ts:63-75 | every handler keeps the invariant |
| Properties.RunPreservesInv | server/src/index.ts:63-75 | any sequence of events keeps the invariant |
| Properties.ReachableStatesSatisfyInv | server/src/index.ts:51-52 | every state reachable from start-up satisfies the invariant |
| Properties.DropAbsent | server/src/index.ts:130 | deleting a key the map does not hold leaves the key order unchanged |
| Properties.DropAt | server/src/index.ts:194 | deleting the key at position k closes the gap and keeps the order of all other keys |
| Properties.SnapshotListsOccupiedRooms | server/src/index.ts:55-61 | the listing names every room exactly once and nothing else; each count is the room's size and is never zero |
| Properties.OnlyLeaveGroupReleasesNames | server/src/index.ts:123-126 | a name leaves the taken set only through `leaveGroup` on the still-open connection bound to it |
| Properties.KickKeepsNameReserved | server/src/index.ts:183-185 | after a kick the name is out of the room but still taken, so a later `join` with that name gets the error |
| Properties.DisconnectKeepsNameReserved | server/src/index.ts:205-209 | after `disconnect` the name is in no room but still taken, the connection is closed, and a later `join` with that name gets the error |
| Properties.JoinKeepsRetired | server/src/index.ts:79-94 | a `join` from an open connection can neither take a retired name nor rebind its closed connection |
| Properties.LeaveGroupKeepsRetired | server/src/index.ts:119-156 | a `leaveGroup` from an open connection releases only that connection's own name, never a retired one |
| Properties.KickUserKeepsRetired | server/src/index.ts:174-201 | a kick keeps a retired name taken, roomless and bound to its closed connection |
| Properties.DisconnectKeepsRetired | server/src/index.ts:203-227 | another connection's `disconnect` keeps a retired name taken, roomless and bound |
| Properties.StepKeepsRetired | server/src/index.ts:63-75 | no single event brings a retired name back into a room or frees it |
| Properties.RunKeepsRetired | server/src/index.ts:63-75 | no sequence of events brings a retired name back into a room or frees it |
| Properties.DisconnectedNameTakenForever | server/src/index.ts:203-227 | after `disconnect`, whatever events follow, the name stays taken and in no room, and every `join` asking for it is refused |
| Properties.MessageIgnoresSender | server/src/index.ts:158-161 | the sending connection makes no difference to what `message` does |
| Properties.ImpersonationIsRelayed | server/src/index.ts:159-169 | a connection that is unbound, or bound to another name, still gets a message relayed under the payload's user |
| Properties.KickingLastMemberDeletesRoom | server/src/index.ts:193-197 | kicking a room's only member deletes the room; the next listing does not name it |
| Properties.FirstJoin | server/src/index.ts:84-94 | the first join of "alice" into "bio1" gives exactly one room, one taken name and one binding |
| Properties.SecondJoin | server/src/index.ts:89-113 | "bob" joining "alice" in "bio1" counts two members and announces both |
| Properties.TwoJoinsShareOneRoom | server/src/index.ts:75-117 | two joins to one code share one room: the listing is `[{bio1, 2}]` and `userJoined` carries "bob has joined the chat" and both names |
| Properties.DisconnectIsNotLeave | server/src/index.ts:203-227 | after one join, leave and disconnect both empty the directory, but only leave frees the name and the binding and sends `roomUpdate`; disconnect closes the connection |
| Properties.FirstHolderIsBoundRoom | server/src/index.ts:205-207 | under the invariant, the room the `disconnect` loop stops at for a bound name still in its room is the room its binding records |
| Properties.DisconnectCleansUpLikeLeave | server/src/index.ts:203-227 | when the bound name is still in its recorded room, `disconnect` leaves the same rooms and key order as `leaveGroup`, and emits leave's events less the final `roomUpdate` |
| Properties.DisconnectOfRoomlessName | server/src/index.ts:205-207 | when no room holds the bound name, `disconnect` emits nothing and only closes the connection |
| Properties.LeaveOfRoomlessName | server/src/index.ts:123-149 | when no room holds the bound name but its recorded room lives on, `leaveGroup` keeps the rooms and order, frees the name, and emits `userLeft`, the listing and `roomUpdate` |
| Properties.LeaveAfterKickDiffersFromDisconnect | server/src/index.ts:174-227 | after a kick that leaves the room alive, `leaveGroup` frees the name and announces, while `disconnect` emits nothing and keeps the name taken |
| Properties.RejoinOrphansOldName | server/src/index.ts:89-94 | a second join on a bound connection rebinds it to the new name; the old name keeps its rooms and stays taken, yet no connection is bound to it |
| Server.ChatServer.constructor | server/src/index.ts:51-52 | a new server has empty collections, no bindings, no closed connections, nothing sent, and satisfies the invariant |
| Server.ChatServer.GetActiveRooms | server/src/index.ts:67-73 | appends exactly the events of `Handlers.GetActiveRooms` and keeps the invariant |
| Server.ChatServer.Enter | server/src/index.ts:85-94 | the in-place updates of a successful join produce the admitted state |
| Server.ChatServer.ApplyJoin | server/src/index.ts:75-117 | the handler's statements give the state and the emissions of `Handlers.Join` |
| Server.ChatServer.Join | server/src/index.ts:75-117 | as `ApplyJoin`, and the invariant is kept |
| Server.ChatServer.RemoveFromRoom | server/src/index.ts:124-130 | the in-place delete, and the room delete when emptied, give `Handlers.RemoveMember` |
| Server.ChatServer.ApplyLeaveGroup | server/src/index.ts:119-156 | the handler's statements give the state and the emissions of `Handlers.LeaveGroup` |
| Server.ChatServer.LeaveGroup | server/src/index.ts:119-156 | as `ApplyLeaveGroup`, and the invariant is kept |
| Server.ChatServer.Message | server/src/index.ts:158-172 | appends exactly the events of `Handlers.Message`, changes nothing else and keeps the invariant |
| Server.ChatServer.ApplyKickUser | server/src/index.ts:174-201 | the handler's statements give the state and the emissions of `Handlers.KickUser` |
| Server.ChatServer.KickUser | server/src/index.ts:174-201 | as `ApplyKickUser`, and the invariant is kept |
| Server.ChatServer.Vacate | server/src/index.ts:204-226 | the loop over the rooms in map order, with its early exit, gives the state and the emissions of `Handlers.VacateFirstRoom` |
| Server.ChatServer.ApplyDisconnect | server/src/index.ts:203-227 | closing the connection and then the loop give the state and the emissions of `Handlers.Disconnect` |
| Server.ChatServer.Disconnect | server/src/index.ts:203-227 | as `ApplyDisconnect`, and the invariant is kept |

## Left out

- The Express app, static file serving, CORS, the single-page fallback route and the port listen (server/src/index.ts:7-19, 230-238) are HTTP plumbing outside the room state.
- Socket.IO delivery is not modelled: `socket.join`, `socket.leave` and which connections `io.to(room)` reaches. An event sent to a room is recorded with the room code as its address.
- `io.sockets.sockets.get` is a call into the transport. Its answer is the boolean input `socketFound` of `KickUser`.
- `new Date().toLocaleTimeString()` is the clock. It is a `now` string supplied with each event.
- `console.log` output is not modelled.
- The `messages` array of each room is created and never used, so it is not modelled.
- `Array.from(room.users)` lists members in insertion order. The model keeps members as a set, so the order of names inside `users` payloads is not modelled.
- Payload shapes such as `{message}` and `{rooms}` are folded into the `Event` constructors; each constructor keeps the payload's fields.
- The client files are not part of this model: they hold no server state.
- Payload fields are taken to be strings, as the TypeScript annotations declare. A missing (`undefined`) field is not modelled. For example, a `join` without a username would add `undefined` to the taken set (server/src/index.ts:79-91), and a later `disconnect` on a connection that never joined would then match that entry (server/src/index.ts:206).
- The class methods, like the source's handlers, do not check whether their connection is closed; that guarantee belongs to the transport and is modelled only in `Handlers.Step`.
