/** The values the room-code server exchanges with its clients: connection
    handles, outbound events, the deliveries that carry them, display names
    and the resolution of roles and names when a joiner meets a creator. */
module Matchmaking {

  /** A connection (a Socket.IO socket), identified by an opaque number. */
  type ConnId = nat

  datatype Option<T> = None | Some(value: T)

  /** A move as a client sends it; the server relays it without looking inside. */
  type Payload = string

  /** The events the server emits (server.js, the emit calls). */
  datatype Event =
    | RoomCreated(roomCode: string)
    | JoinError(message: string)
    | GameStart(playerNumber: nat, yourName: string, opponentName: string)
    | OpponentMove(move: Payload)
    | OpponentLeft

  /** One emit: `socket.emit` addresses {socket}, `socket.to(g).emit` every
      member of group g but the socket itself. */
  datatype Delivery = Delivery(to: set<ConnId>, event: Event)

  /** The default name of a player who gives none ("player one"). */
  const FirstDefault: string := "玩家一"

  /** The name the second mover gets when both players carry the default ("player two"). */
  const SecondDefault: string := "玩家二"

  /** The text of the joinError event ("error: this room cannot be found"). */
  const RoomNotFound: string := "錯誤：找不到這個房間"

  /** `data.name || '玩家一'`: an absent or empty name becomes the default. */
  function DisplayName(name: Option<string>): (r: string)
    ensures r != ""
    ensures name.Some? && name.value != "" ==> r == name.value
    ensures name.None? || name.value == "" ==> r == FirstDefault
  {
    match name
    case Some(n) => if n != "" then n else FirstDefault
    case None => FirstDefault
  }

  /** Who moves first and under which names the two players meet. */
  datatype Roles = Roles(p1: ConnId, p2: ConnId, p1Name: string, p2Name: string)

  predicate BothDefault(name1: string, name2: string) {
    name1 == FirstDefault && name2 == FirstDefault
  }

  /** The role assignment and name-collision rule of joinRoom: `coin` is the
      outcome of `Math.random() < 0.5`; player1 is the creator, player2 the
      joiner, and name1, name2 their display names. */
  function AssignRoles(player1: ConnId, player2: ConnId, coin: bool, name1: string, name2: string): (r: Roles)
    ensures {r.p1, r.p2} == {player1, player2}
    ensures BothDefault(name1, name2) ==> r.p1Name == FirstDefault && r.p2Name == SecondDefault
    ensures !BothDefault(name1, name2) ==> {(r.p1, r.p1Name), (r.p2, r.p2Name)} == {(player1, name1), (player2, name2)}
  {
    var (p1, p2, n1, n2) := if coin then (player1, player2, name1, name2) else (player2, player1, name2, name1);
    if n1 == FirstDefault && n2 == FirstDefault then Roles(p1, p2, n1, SecondDefault) else Roles(p1, p2, n1, n2)
  }

  /** Which of two distinct players moves first is decided by the coin alone:
      each of them is player 1 for exactly one of its values. */
  lemma CoinDecidesFirstMover(player1: ConnId, player2: ConnId, name1: string, name2: string)
    requires player1 != player2
    ensures AssignRoles(player1, player2, true, name1, name2).p1 == player1
    ensures AssignRoles(player1, player2, false, name1, name2).p1 == player2
  {
  }

  /** Two players who both kept the default name are told different names;
      two players who chose the same name of their own keep it. */
  lemma ResolvedNames(player1: ConnId, player2: ConnId, coin: bool, name1: string, name2: string)
    ensures var r := AssignRoles(player1, player2, coin, name1, name2);
      (BothDefault(name1, name2) ==> r.p1Name != r.p2Name) &&
      (name1 == name2 && !BothDefault(name1, name2) ==> r.p1Name == r.p2Name == name1)
  {
  }

  /** The two gameStart emits of joinRoom, player 1's first. */
  function GameStarts(r: Roles): (ds: seq<Delivery>)
    ensures |ds| == 2 && ds[0].to == {r.p1} && ds[1].to == {r.p2}
    ensures ds[0].event.GameStart? && ds[1].event.GameStart?
    ensures ds[0].event.playerNumber == 1 && ds[1].event.playerNumber == 2
    ensures ds[0].event.yourName == r.p1Name && ds[1].event.yourName == r.p2Name
    ensures ds[0].event.opponentName == ds[1].event.yourName && ds[1].event.opponentName == ds[0].event.yourName
  {
    [Delivery({r.p1}, GameStart(1, r.p1Name, r.p2Name)), Delivery({r.p2}, GameStart(2, r.p2Name, r.p1Name))]
  }

  /** The events a connection receives from a sequence of emits, in order. */
  function Inbox(out: seq<Delivery>, c: ConnId): seq<Event>
  {
    if out == [] then []
    else (if c in out[0].to then [out[0].event] else []) + Inbox(out[1..], c)
  }

  lemma {:induction false} InboxAppend(a: seq<Delivery>, b: seq<Delivery>, c: ConnId)
    ensures Inbox(a + b, c) == Inbox(a, c) + Inbox(b, c)
  {
    if a == [] {
      assert a + b == b;
    } else {
      assert (a + b)[1..] == a[1..] + b;
      InboxAppend(a[1..], b, c);
    }
  }

  /** Every recipient of every emit in `out` is below `bound`. */
  predicate AddressedBelow(out: seq<Delivery>, bound: nat) {
    forall i, x :: 0 <= i < |out| && x in out[i].to ==> x < bound
  }

  /** Emits addressed below the bound, followed by more of them, stay below it. */
  lemma AddressedAppend(out: seq<Delivery>, more: seq<Delivery>, bound: nat)
    requires AddressedBelow(out, bound) && AddressedBelow(more, bound)
    ensures AddressedBelow(out + more, bound)
  {
    forall i, x | 0 <= i < |out + more| && x in (out + more)[i].to ensures x < bound {
      if i >= |out| {
        assert (out + more)[i] == more[i - |out|];
      }
    }
  }

  lemma PushAddressed(out: seq<Delivery>, d: Delivery, bound: nat)
    requires AddressedBelow(out, bound) && forall x :: x in d.to ==> x < bound
    ensures AddressedBelow(out + [d], bound)
  {
    AddressedAppend(out, [d], bound);
  }

  lemma GameStartsAddressed(out: seq<Delivery>, r: Roles, bound: nat)
    requires AddressedBelow(out, bound) && r.p1 < bound && r.p2 < bound
    ensures AddressedBelow(out + GameStarts(r), bound)
  {
    AddressedAppend(out, GameStarts(r), bound);
  }

  /** A connection that no emit addresses has received nothing. */
  lemma {:induction false} InboxOfUnaddressed(out: seq<Delivery>, c: ConnId)
    requires forall i :: 0 <= i < |out| ==> c !in out[i].to
    ensures Inbox(out, c) == []
  {
    if out != [] {
      assert forall i :: 0 <= i < |out[1..]| ==> out[1..][i] == out[i + 1];
      InboxOfUnaddressed(out[1..], c);
    }
  }

  /** Appending one emit adds its event to the inbox of exactly its recipients. */
  lemma InboxPush(out: seq<Delivery>, d: Delivery, c: ConnId)
    ensures Inbox(out + [d], c) == Inbox(out, c) + (if c in d.to then [d.event] else [])
  {
    InboxAppend(out, [d], c);
    assert Inbox([d], c) == (if c in d.to then [d.event] else []) + Inbox([], c);
  }
}
