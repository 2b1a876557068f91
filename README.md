# Room-code matchmaking server in Dafny

This project models the Socket.IO server of a two-player Connect Four game
(`server.js`), in its room-code version. One player creates a room and gets a
four-digit code. A second player joins with that code, and the server pairs
them. A coin flip decides who moves first. When both players kept the default
name `玩家一` ("player one"), the second mover is renamed `玩家二`. After that
the server relays each move to the other player and tells a player when the
opponent disconnects.

The model has four modules:

- `RoomCodes` (`room_codes.dfy`) covers the candidate codes of
  `generateRoomCode`:
  - `Math.floor(1000 + Math.random() * 9000).toString()`, with the decimal
    rendering written out as `ToDecimal` and inverted by `DecimalValue`;
  - the set of all 9000 room codes;
  - the fact that some draw of `Math.random()` yields a free code exactly when
    not every code is taken.
- `Matchmaking` (`matchmaking.dfy`) holds the values the server exchanges:
  - the emitted events, and one `Delivery` per emit, addressed to a set of
    sockets;
  - the default display name;
  - how roles and names are settled when a joiner meets a creator;
  - `Inbox`, the events one socket receives from a sequence of emits.
- `RoomServer` (`server.dfy`) is the server itself, a class `Server`. Its
  fields are:
  - `pendingRooms`, the process-wide table from a code to the socket that
    created it;
  - `playerName`, `roomCode` and `room`, the three attributes the handlers
    set on sockets, as maps keyed by socket;
  - `groups`, the Socket.IO groups and their members;
  - `live`, the connected sockets;
  - `outbox`, the log of every emit.

  There is one method per event handler. Each method states its whole new
  state and keeps the invariant `Valid()`. `Valid()` has two parts:
  - the predicate `Consistent` on a value-level `Snapshot` of every field but
    the outbox;
  - `AddressedBelow`: no emit is addressed to a socket that has not
    connected yet.

  `Connect`, `CreateRoom`, `JoinRoom` and `Disconnect` each have one lemma
  showing that their change keeps `Consistent`. `MakeMove` needs none,
  because it changes only the outbox.
- `Scenarios` (`scenarios.dfy`) has short runs of handlers over any
  consistent server. They are proved from the handlers' contracts alone, and
  show what the code does in its corner cases:
  - a creator can join its own room;
  - a second `createRoom` leaves the first room pending after the creator
    leaves;
  - a consumed code can be drawn again, and the new creator then shares a
    group with the old players;
  - `socket.room` is never cleared.

How the environment is modelled:

- `socket.emit(e)` is a delivery to `{socket}`. `socket.to(g).emit(e)` is a
  delivery to the members of `g` other than the sender.
- Socket.IO removes a disconnecting socket from all its groups before the
  `disconnect` handler runs. `Disconnect` does this removal itself. The order
  does not matter, because the sender is never a recipient.
- `Math.random()` becomes parameters:
  - `draws`, the successive values in [0, 1) that `generateRoomCode`
    consumes, as exact reals;
  - `coin`, the outcome of `Math.random() < 0.5` in `joinRoom`.
- The `do … while` of `generateRoomCode` ends only if some draw yields a free
  code. This is its precondition. `FreeDrawExists` shows that such a draw
  exists exactly when fewer than all 9000 codes are pending.

## Model

| member | source | states |
|---|---|---|
| RoomCodes.ToDecimal | server.js:28 | `toString` of a non-negative integer is a non-empty digit string with no leading zero unless the number is 0 |
| RoomCodes.DecimalRoundTrip | server.js:28 | parsing the decimal rendering of n gives back n |
| RoomCodes.ToDecimalInjective | server.js:28 | numbers with the same rendering are equal, so distinct numbers give distinct codes |
| RoomCodes.DecimalCanonical | server.js:28 | every digit string without a leading zero is the rendering of its own value |
| RoomCodes.CodeOf | server.js:28 | a number in 1000..9999 renders as a room code: four digits, the first not zero, whose value is that number |
| RoomCodes.DrawToNumber | server.js:28 | `Math.floor(1000 + r * 9000)` lies in 1000..9999 for every draw r in [0, 1) |
| RoomCodes.DrawnCode | server.js:28 | every draw yields a four-digit room code, never one with a leading zero and never "0000", whose value is the drawn number |
| RoomCodes.SmallestCodes | server.js:28 | draw 0 yields "1000" and draw 1/9000 yields "1001" |
| RoomCodes.RoomCodeRange | server.js:28 | every room code has a value in 1000..9999 and is the rendering of that value |
| RoomCodes.AllCodes | server.js:28 | the room codes form a set of exactly 9000 strings |
| RoomCodes.DrawFor | server.js:28 | every number of 1000..9999 is produced by some draw |
| RoomCodes.FreeDrawExists | server.js:27-29 | a draw yielding a code outside the table exists if and only if not every room code is taken, in particular whenever fewer than 9000 codes are pending |
| Matchmaking.DisplayName | server.js:39 | `name \|\| '玩家一'`: an absent or empty name becomes `玩家一`, any other name is kept; the result is never empty |
| Matchmaking.AssignRoles | server.js:76-89 | the first and second movers are the creator and the joiner in some order; when both names are `玩家一` they are told `玩家一` and `玩家二`; otherwise each player keeps its own name |
| Matchmaking.CoinDecidesFirstMover | server.js:77-81 | for two distinct players each coin value makes a different one of them move first |
| Matchmaking.ResolvedNames | server.js:86-89 | two default names end up different; two identical custom names are left identical |
| Matchmaking.GameStarts | server.js:93-103 | two gameStart emits, one to each mover, with playerNumber 1 and 2 and each opponentName equal to the other's yourName |
| Matchmaking.InboxAppend | server.js:50-136 | what a socket receives from two batches of emits is what it receives from the first followed by the second; this belongs to the view of every emit of the handlers as a delivery in one log |
| Matchmaking.InboxPush | server.js:115 | one more emit adds its event to the inbox of exactly its recipients |
| Matchmaking.InboxOfUnaddressed | server.js:33 | a socket that no emit addresses has received nothing |
| RoomServer.ConnectKeepsConsistent | server.js:33 | a new connection keeps the server invariant |
| RoomServer.CreateKeepsConsistent | server.js:38-50 | registering a room keeps the server invariant |
| RoomServer.JoinKeepsConsistent | server.js:64-108 | pairing two players and consuming the code keeps the server invariant |
| RoomServer.DisconnectKeepsConsistent | server.js:120-138 | dissolving a pending room and leaving all groups keeps the server invariant |
| RoomServer.Server.constructor | server.js:22 | the server starts with an empty pending-room table, no sockets and no emits |
| RoomServer.Server.Connect | server.js:33 | a new connection is a fresh socket with no name, no code, no room, no group and no pending room, and it has received nothing |
| RoomServer.Server.GenerateRoomCode | server.js:25-31 | the loop returns a room code in 1000..9999 that is not pending; it is the first draw whose code is free, and every earlier draw hit a pending code |
| RoomServer.Server.CreateRoom | server.js:37-51 | the new code was not pending and is now mapped to the caller, with every other entry unchanged; the caller's name is its display name, its roomCode is the new code, and it joins that group; the caller alone receives roomCreated with that code |
| RoomServer.Server.JoinRoom | server.js:54-109 | an unknown code leaves every table, attribute and group unchanged and emits exactly one joinError to the caller; a pending code is consumed, other entries are kept, both players' room becomes the code, the joiner joins the group, the name fix applies to the second mover, and the two gameStart emits follow the roles |
| RoomServer.Server.MakeMove | server.js:112-117 | without a room nothing is emitted; with one, the identical payload goes to every other member of the room's group, each of them live, and never to the sender; each socket's inbox grows by exactly that |
| RoomServer.Server.Disconnect | server.js:120-138 | the pending entry under the socket's roomCode is removed exactly when its creator is this socket; the socket leaves all groups; with a room, every other member of that group receives exactly one opponentLeft |
| Scenarios.Match | server.js:37-117 | two unnamed sockets meet: the joiner receives the gameStart its coin gives it, under a name different from the creator's, and then the creator's move; both stay connected and the server stays consistent |
| Scenarios.PartnerLeaves | server.js:112-137 | when one player leaves, the other receives opponentLeft and keeps its room, and the player that left receives nothing more; the survivor's next move is still relayed to the other members of that room |
| Scenarios.SelfJoin | server.js:54-103 | a creator joining its own room receives roomCreated and both gameStart events, and ends up named `玩家二`; the server stays consistent |
| Scenarios.StaleRoom | server.js:37-130 | after two creations and a disconnect, the first code stays pending with a creator that is no longer connected; the server stays consistent |
| Scenarios.RecycledCode | server.js:27-116 | a code whose game has started can be drawn again, and a move of an old player then reaches the new creator; the server stays consistent |

## Left out

- The HTTP static file serving and the landing-page route (server.js:13-17) are plumbing.
- The port choice and `server.listen` (server.js:11, server.js:142-144) are environment and I/O.
- The `console.log` calls are logging only.
- The Socket.IO transport is replaced by the `groups` map and the outbox. Emits to a socket that has already disconnected are kept in the outbox, although the transport drops them. The group named after each socket's own id is not modelled.
- `Math.random()` is replaced by parameters. The 50/50 distribution of the roles is a probabilistic claim and is not stated.
- Floating point is not modelled: a draw is an exact real in [0, 1).
- No queue mode (`waitingPlayer`, `joinGame`) exists in this code (server.js:19), so none is modelled.
- JavaScript values other than strings, and the exceptions they raise, are not modelled. The model takes a name as `Option<string>`, a code as a string and a move as an opaque string. What server.js does instead:
  - `data.name || '玩家一'` (server.js:39, server.js:64) does not convert the name. A falsy name (absent, `""`, `0`, `false`, `null`) becomes `玩家一`; the model covers the absent and the empty string. A truthy name that is not a string, such as a number or an object, is stored and emitted as it is.
  - A code that is not a string is turned into a string only by the table lookup (server.js:56) and the delete (server.js:108). `socket.join` (server.js:69), `room` on both sockets (server.js:72-73) and the later `socket.to(socket.room)` (server.js:115, server.js:136) all get the raw value.
  - A missing `data` makes `data.name` (server.js:39) or the destructuring at server.js:55 throw a `TypeError`.
  - A code such as `constructor` or `__proto__` finds an inherited property of `pendingRooms` (server.js:56). Its `player1` is undefined, so `player1.room = roomCode` (server.js:72) throws a `TypeError`. By then the joiner's name and group join (server.js:64, server.js:69) have already happened.
  - Nothing in server.js catches these exceptions. They escape the listener, so under Node's default handling of an uncaught exception a single client can stop the whole server process, not just one handler.
- RoomServer.Server.CreateRoom: states the new outbox exactly, but not each socket's inbox. That view follows from `Matchmaking.InboxPush`, as the scenarios use it.
- RoomServer.Server.Disconnect: states the new outbox exactly, but not each socket's inbox. That view follows from `Matchmaking.InboxPush`, as the scenarios use it.
