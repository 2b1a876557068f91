/** Short runs of the server's handlers from any consistent state, each
    proved from the handlers' contracts alone: an ordinary game, and the
    corner cases of server.js that the model keeps as they are. */
module Scenarios {
  import opened RoomCodes
  import opened Matchmaking
  import opened RoomServer

  /** Two connected sockets without names meet: the creator learns the code,
      both get a gameStart under different default names, and the first
      move of the creator reaches the joiner. */
  method Match(s: Server, a: ConnId, b: ConnId, r: real, coin: bool, m: Payload) returns (code: string)
    requires s.Valid() && a in s.live && b in s.live && a != b
    requires IsDraw(r) && DrawnCode(r) !in s.pendingRooms
    modifies s
    ensures code == DrawnCode(r) && code !in s.pendingRooms
    ensures a in s.room && b in s.room && s.room[a] == s.room[b] == code
    ensures s.Valid() && s.live == old(s.live)
    ensures s.Received(b) == old(s.Received(b)) +
      [if coin then GameStart(2, SecondDefault, FirstDefault) else GameStart(1, FirstDefault, SecondDefault), OpponentMove(m)]
  {
    assert [r][0] == r;
    code := s.CreateRoom(a, None, [r]);
    s.JoinRoom(b, None, code, coin);
    MatchEvents(old(s.outbox), a, b, code, coin);
    s.MakeMove(a, m);
  }

  lemma MatchEvents(out: seq<Delivery>, a: ConnId, b: ConnId, code: string, coin: bool)
    requires a != b
    ensures Inbox(out + [Delivery({a}, RoomCreated(code))] + GameStarts(AssignRoles(a, b, coin, FirstDefault, FirstDefault)), b)
         == Inbox(out, b) + [if coin then GameStart(2, SecondDefault, FirstDefault) else GameStart(1, FirstDefault, SecondDefault)]
  {
    var ds := GameStarts(AssignRoles(a, b, coin, FirstDefault, FirstDefault));
    InboxPush(out, Delivery({a}, RoomCreated(code)), b);
    InboxAppend(out + [Delivery({a}, RoomCreated(code))], ds, b);
    InboxPush([ds[0]], ds[1], b);
    assert [ds[0]] + [ds[1]] == ds;
    InboxPush([], ds[0], b);
  }

  /** When a player leaves, the other player of its room is told, and its own
      socket.room keeps naming the room: its next move is still relayed to
      that room, and the player that left gets nothing more. */
  method PartnerLeaves(s: Server, a: ConnId, b: ConnId, m: Payload)
    requires s.Valid() && a in s.live && b in s.live && a != b
    requires a in s.room && b in s.room && s.room[a] == s.room[b]
    modifies s
    ensures s.Received(b) == old(s.Received(b)) + [OpponentLeft]
    ensures b in s.room && s.room[b] == old(s.room[b])
    ensures a !in s.live && s.Received(a) == old(s.Received(a))
    ensures s.Valid() && s.live == old(s.live) - {a}
    ensures |s.outbox| > 0 && s.outbox[|s.outbox| - 1] == Delivery(s.Members(s.room[b]) - {b}, OpponentMove(m))
  {
    s.Disconnect(a);
    InboxPush(old(s.outbox), Delivery(old(s.Members(s.room[a])) - {a}, OpponentLeft), b);
    InboxPush(old(s.outbox), Delivery(old(s.Members(s.room[a])) - {a}, OpponentLeft), a);
    assert a !in s.Members(s.room[b]);
    s.MakeMove(b, m);
  }

  /** A creator joins its own room: it is both player 1 and player 2, gets
      both gameStart events, and its name is changed to the second default. */
  method SelfJoin(s: Server, a: ConnId, r: real, coin: bool) returns (code: string)
    requires s.Valid() && a in s.live
    requires IsDraw(r) && DrawnCode(r) !in s.pendingRooms
    modifies s
    ensures code == DrawnCode(r) && code !in s.pendingRooms
    ensures a in s.room && s.room[a] == code && a in s.playerName && s.playerName[a] == SecondDefault
    ensures s.Valid() && s.live == old(s.live)
    ensures s.Received(a) == old(s.Received(a)) + [RoomCreated(code), GameStart(1, FirstDefault, SecondDefault), GameStart(2, SecondDefault, FirstDefault)]
  {
    assert [r][0] == r;
    code := s.CreateRoom(a, None, [r]);
    s.JoinRoom(a, None, code, coin);
    SelfJoinEvents(old(s.outbox), a, code, coin);
  }

  lemma SelfJoinEvents(out: seq<Delivery>, a: ConnId, code: string, coin: bool)
    ensures Inbox(out + [Delivery({a}, RoomCreated(code))] + GameStarts(AssignRoles(a, a, coin, FirstDefault, FirstDefault)), a)
         == Inbox(out, a) + [RoomCreated(code), GameStart(1, FirstDefault, SecondDefault), GameStart(2, SecondDefault, FirstDefault)]
  {
    var ds := GameStarts(AssignRoles(a, a, coin, FirstDefault, FirstDefault));
    InboxPush(out, Delivery({a}, RoomCreated(code)), a);
    InboxAppend(out + [Delivery({a}, RoomCreated(code))], ds, a);
    InboxPush([ds[0]], ds[1], a);
    assert [ds[0]] + [ds[1]] == ds;
    InboxPush([], ds[0], a);
  }

  /** A code whose game has started is no longer pending, but its group keeps
      its players. When a later creation draws the same code, the creator
      joins that group, and a move of an old player then reaches it. */
  method RecycledCode(s: Server, a: ConnId, b: ConnId, r: real, m: Payload)
    requires s.Valid() && a in s.live && b in s.live && a != b
    requires IsDraw(r) && DrawnCode(r) !in s.pendingRooms
    requires b in s.room && s.room[b] == DrawnCode(r)
    modifies s
    ensures DrawnCode(r) in s.pendingRooms && s.pendingRooms[DrawnCode(r)] == a
    ensures s.Valid() && s.live == old(s.live)
    ensures s.Received(a) == old(s.Received(a)) + [RoomCreated(DrawnCode(r)), OpponentMove(m)]
  {
    assert [r][0] == r;
    var code := s.CreateRoom(a, None, [r]);
    InboxPush(old(s.outbox), Delivery({a}, RoomCreated(code)), a);
    s.MakeMove(b, m);
  }

  /** A socket that creates a second room keeps its first room pending; its
      disconnect dissolves only the second, so the first stays joinable with
      a creator that has left. r1 and r2 are the draws of the two creations. */
  method StaleRoom(s: Server, a: ConnId, r1: real, r2: real) returns (first: string)
    requires s.Valid() && a in s.live
    requires IsDraw(r1) && IsDraw(r2) && DrawnCode(r1) != DrawnCode(r2)
    requires DrawnCode(r1) !in s.pendingRooms && DrawnCode(r2) !in s.pendingRooms
    modifies s
    ensures first == DrawnCode(r1)
    ensures first in s.pendingRooms && s.pendingRooms[first] == a && a !in s.live
    ensures s.Valid() && s.live == old(s.live) - {a}
  {
    assert [r1][0] == r1;
    first := s.CreateRoom(a, None, [r1]);
    assert [r2][0] == r2 && DrawnCode(r2) !in s.pendingRooms;
    var second := s.CreateRoom(a, None, [r2]);
    s.Disconnect(a);
  }
}
