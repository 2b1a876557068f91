/** The room-code server of server.js: the process-wide pending-room table,
    the attributes the handlers attach to each socket, the Socket.IO groups
    (rooms) sockets have joined, and a log of everything emitted. One method
    per event handler; each runs to completion before the next event. */
module RoomServer {
  import opened RoomCodes
  import opened Matchmaking

  function MembersOf(groups: map<string, set<ConnId>>, g: string): set<ConnId> {
    if g in groups then groups[g] else {}
  }

  /** The values of the server's fields at one moment. */
  datatype Snapshot = Snapshot(pending: map<string, ConnId>, names: map<ConnId, string>,
                               codes: map<ConnId, string>, rooms: map<ConnId, string>,
                               groups: map<string, set<ConnId>>, live: set<ConnId>, nextId: nat)

  /** The invariant of the server's state. */
  ghost predicate Consistent(s: Snapshot)
  {
    // socket identities are handed out in order
    && (forall c :: c in s.live ==> c < s.nextId)
    && (forall c :: c in s.names ==> c < s.nextId)
    && (forall c :: c in s.codes ==> c < s.nextId)
    && (forall c :: c in s.rooms ==> c < s.nextId)
    // a pending room's code is a generated code, and its creator has a name;
    // while the creator is connected it is a member of the room's group
    && (forall code :: code in s.pending ==>
          IsRoomCode(code) && s.pending[code] < s.nextId && s.pending[code] in s.names &&
          (s.pending[code] in s.live ==> s.pending[code] in MembersOf(s.groups, code)))
    // only connected sockets are members of groups
    && (forall g, m :: g in s.groups && m in s.groups[g] ==> m in s.live)
    // socket.room and socket.roomCode only ever hold generated codes, and a
    // connected socket is a member of the group its room names
    && (forall c :: c in s.rooms ==> IsRoomCode(s.rooms[c]) && (c in s.live ==> c in MembersOf(s.groups, s.rooms[c])))
    && (forall c :: c in s.codes ==> IsRoomCode(s.codes[c]))
  }

  /** Group members are connected sockets, whose identities are already handed out. */
  lemma MembersConnected(s: Snapshot, g: string)
    requires Consistent(s)
    ensures forall x :: x in MembersOf(s.groups, g) ==> x in s.live && x < s.nextId
  {
  }

  lemma ConnectKeepsConsistent(s: Snapshot, t: Snapshot)
    requires Consistent(s)
    requires t == s.(live := s.live + {s.nextId}, nextId := s.nextId + 1)
    ensures Consistent(t)
  {
  }

  lemma CreateKeepsConsistent(s: Snapshot, t: Snapshot, c: ConnId, code: string, name: string)
    requires Consistent(s) && c in s.live && IsRoomCode(code)
    requires t == s.(pending := s.pending[code := c], names := s.names[c := name], codes := s.codes[c := code],
                     groups := s.groups[code := MembersOf(s.groups, code) + {c}])
    ensures Consistent(t)
  {
  }

  lemma JoinKeepsConsistent(s: Snapshot, t: Snapshot, c: ConnId, code: string)
    requires Consistent(s) && c in s.live && code in s.pending
    requires forall x :: x in t.names <==> x in s.names || x == c
    requires t == s.(pending := s.pending - {code}, names := t.names,
                     rooms := s.rooms[s.pending[code] := code][c := code],
                     groups := s.groups[code := MembersOf(s.groups, code) + {c}])
    ensures Consistent(t)
  {
  }

  lemma DisconnectKeepsConsistent(s: Snapshot, t: Snapshot, c: ConnId)
    requires Consistent(s)
    requires t.pending.Keys <= s.pending.Keys && forall code :: code in t.pending ==> t.pending[code] == s.pending[code]
    requires t == s.(pending := t.pending, groups := map g | g in s.groups :: s.groups[g] - {c}, live := s.live - {c})
    ensures Consistent(t)
  {
  }

  class Server {
    /** pendingRooms: room code -> the socket that created it (player1). */
    var pendingRooms: map<string, ConnId>
    /** socket.playerName, socket.roomCode and socket.room of each socket that has one. */
    var playerName: map<ConnId, string>
    var roomCode: map<ConnId, string>
    var room: map<ConnId, string>
    /** The Socket.IO groups: group name -> its members. */
    var groups: map<string, set<ConnId>>
    /** The sockets still connected, and the next socket identity to hand out. */
    var live: set<ConnId>
    var nextId: ConnId
    /** Every emit so far, in order. */
    var outbox: seq<Delivery>

    /** The members of group g (none when nobody ever joined it). */
    function Members(g: string): set<ConnId>
      reads this
    {
      MembersOf(groups, g)
    }

    /** The events socket c has been sent so far. */
    ghost function Received(c: ConnId): seq<Event>
      reads this
    {
      Inbox(outbox, c)
    }

    ghost function Snap(): Snapshot
      reads this
    {
      Snapshot(pendingRooms, playerName, roomCode, room, groups, live, nextId)
    }

    /** The invariant: the fields are consistent, and no emit so far is
        addressed to a socket that has not connected yet. */
    ghost predicate Valid()
      reads this
    {
      Consistent(Snap()) && AddressedBelow(outbox, nextId)
    }

    /** The process starts with no sockets and an empty pending-room table. */
    constructor ()
      ensures Valid()
      ensures pendingRooms == map[] && playerName == map[] && roomCode == map[] && room == map[]
      ensures groups == map[] && live == {} && outbox == []
    {
      pendingRooms, playerName, roomCode, room := map[], map[], map[], map[];
      groups, live, nextId, outbox := map[], {}, 0, [];
    }

    /** A client connects: a new socket with no attributes and no group. */
    method Connect() returns (c: ConnId)
      requires Valid()
      modifies this`live, this`nextId
      ensures Valid()
      ensures c !in old(live) && live == old(live) + {c}
      ensures c !in playerName && c !in roomCode && c !in room
      ensures forall g :: c !in Members(g)
      ensures forall code :: code in pendingRooms ==> pendingRooms[code] != c
      ensures Received(c) == []
    {
      c := nextId;
      live, nextId := live + {c}, nextId + 1;
      ConnectKeepsConsistent(old(Snap()), Snap());
      InboxOfUnaddressed(outbox, c);
    }

    /** generateRoomCode: draws[i] is the i-th value of Math.random(); the
        loop draws until a candidate is not a key of the table. The loop ends
        only if some draw is free, which FreeDrawExists ties to the number of
        pending rooms. */
    method GenerateRoomCode(draws: seq<real>) returns (code: string, used: nat)
      requires forall i :: 0 <= i < |draws| ==> IsDraw(draws[i])
      requires exists i :: 0 <= i < |draws| && DrawnCode(draws[i]) !in pendingRooms
      ensures IsRoomCode(code) && 1000 <= DecimalValue(code) <= 9999
      ensures code !in pendingRooms
      ensures used < |draws| && code == DrawnCode(draws[used])
      ensures forall i :: 0 <= i < used ==> DrawnCode(draws[i]) in pendingRooms
    {
      used := 0;
      code := DrawnCode(draws[0]);
      while code in pendingRooms
        invariant used < |draws| && code == DrawnCode(draws[used])
        invariant forall i :: 0 <= i < used ==> DrawnCode(draws[i]) in pendingRooms
        invariant exists i :: used <= i < |draws| && DrawnCode(draws[i]) !in pendingRooms
        decreases |draws| - used
      {
        used := used + 1;
        code := DrawnCode(draws[used]);
      }
    }

    /** The createRoom handler. */
    method CreateRoom(c: ConnId, name: Option<string>, draws: seq<real>) returns (code: string)
      requires Valid() && c in live
      requires forall i :: 0 <= i < |draws| ==> IsDraw(draws[i])
      requires exists i :: 0 <= i < |draws| && DrawnCode(draws[i]) !in pendingRooms
      modifies this`pendingRooms, this`playerName, this`roomCode, this`groups, this`outbox
      ensures Valid()
      ensures IsRoomCode(code) && code !in old(pendingRooms)
      ensures exists k :: 0 <= k < |draws| && code == DrawnCode(draws[k]) &&
                forall i :: 0 <= i < k ==> DrawnCode(draws[i]) in old(pendingRooms)
      ensures pendingRooms == old(pendingRooms)[code := c]
      ensures playerName == old(playerName)[c := DisplayName(name)]
      ensures roomCode == old(roomCode)[c := code]
      ensures groups == old(groups)[code := old(Members(code)) + {c}]
      ensures outbox == old(outbox) + [Delivery({c}, RoomCreated(code))]
    {
      var used;
      code, used := GenerateRoomCode(draws);
      playerName := playerName[c := DisplayName(name)];
      pendingRooms := pendingRooms[code := c];
      roomCode := roomCode[c := code];
      groups := groups[code := Members(code) + {c}];
      CreateKeepsConsistent(old(Snap()), Snap(), c, code, DisplayName(name));
      outbox := outbox + [Delivery({c}, RoomCreated(code))];
    }

    /** The joinRoom handler; `coin` is the outcome of `Math.random() < 0.5`. */
    method JoinRoom(c: ConnId, name: Option<string>, code: string, coin: bool)
      requires Valid() && c in live
      modifies this`pendingRooms, this`playerName, this`room, this`groups, this`outbox
      ensures Valid()
      // an unknown code: one joinError to the caller, nothing else changes
      ensures code !in old(pendingRooms) ==>
        && pendingRooms == old(pendingRooms) && playerName == old(playerName)
        && room == old(room) && groups == old(groups)
        && outbox == old(outbox) + [Delivery({c}, JoinError(RoomNotFound))]
      // a pending code: the creator and the caller are paired and the code is consumed
      ensures code in old(pendingRooms) ==>
        var creator := old(pendingRooms[code]);
        var names := old(playerName)[c := DisplayName(name)];
        var roles := AssignRoles(creator, c, coin, names[creator], names[c]);
        && pendingRooms == old(pendingRooms) - {code}
        && room == old(room)[creator := code][c := code]
        && groups == old(groups)[code := old(Members(code)) + {c}]
        && playerName == (if BothDefault(names[creator], names[c]) then names[roles.p2 := SecondDefault] else names)
        && outbox == old(outbox) + GameStarts(roles)
    {
      if code !in pendingRooms {
        PushAddressed(outbox, Delivery({c}, JoinError(RoomNotFound)), nextId);
        outbox := outbox + [Delivery({c}, JoinError(RoomNotFound))];
        return;
      }
      var player1, player2 := pendingRooms[code], c;
      var names := playerName[player2 := DisplayName(name)];
      var roles := AssignRoles(player1, player2, coin, names[player1], names[player2]);
      if names[roles.p1] == FirstDefault && names[roles.p2] == FirstDefault {
        names := names[roles.p2 := SecondDefault];
      }
      GameStartsAddressed(outbox, roles, nextId);
      pendingRooms, playerName, room, groups, outbox :=
        pendingRooms - {code}, names, room[player1 := code][player2 := code],
        groups[code := Members(code) + {c}], outbox + GameStarts(roles);
      JoinKeepsConsistent(old(Snap()), Snap(), c, code);
    }

    /** The makeMove handler: relay the payload to the rest of the socket's room. */
    method MakeMove(c: ConnId, data: Payload)
      requires Valid() && c in live
      modifies this`outbox
      ensures Valid()
      ensures c !in room ==> outbox == old(outbox)
      ensures c in room ==> outbox == old(outbox) + [Delivery(Members(room[c]) - {c}, OpponentMove(data))]
      ensures forall d :: Received(d) ==
                old(Received(d)) + (if c in room && d in Members(room[c]) && d != c then [OpponentMove(data)] else [])
      ensures Received(c) == old(Received(c))
      ensures c in room ==> forall d :: d in Members(room[c]) - {c} ==> d in live
    {
      if c in room {
        var d := Delivery(Members(room[c]) - {c}, OpponentMove(data));
        MembersConnected(Snap(), room[c]);
        PushAddressed(outbox, d, nextId);
        outbox := outbox + [d];
        forall x ensures Received(x) == old(Received(x)) + (if x in d.to then [d.event] else []) {
          InboxPush(old(outbox), d, x);
        }
      }
    }

    /** The disconnect handler, together with Socket.IO's removal of the
        socket from every group it had joined. */
    method Disconnect(c: ConnId)
      requires Valid() && c in live
      modifies this`pendingRooms, this`groups, this`live, this`outbox
      ensures Valid()
      ensures live == old(live) - {c}
      ensures pendingRooms ==
        if c in roomCode && roomCode[c] in old(pendingRooms) && old(pendingRooms)[roomCode[c]] == c
        then old(pendingRooms) - {roomCode[c]} else old(pendingRooms)
      ensures groups == map g | g in old(groups) :: old(groups)[g] - {c}
      ensures c !in room ==> outbox == old(outbox)
      ensures c in room ==> outbox == old(outbox) + [Delivery(old(Members(room[c])) - {c}, OpponentLeft)]
    {
      if c in roomCode && roomCode[c] in pendingRooms {
        if pendingRooms[roomCode[c]] == c {
          pendingRooms := pendingRooms - {roomCode[c]};
        }
      }
      var recipients := if c in room then Members(room[c]) - {c} else {};
      if c in room {
        MembersConnected(Snap(), room[c]);
      }
      PushAddressed(outbox, Delivery(recipients, OpponentLeft), nextId);
      groups := map g | g in groups :: groups[g] - {c};
      live := live - {c};
      DisconnectKeepsConsistent(old(Snap()), Snap(), c);
      if c in room {
        outbox := outbox + [Delivery(recipients, OpponentLeft)];
      }
    }
  }
}
