/**
 * The server-side room state machine of src/lib/socket.ts: the process-wide
 * room map and the five socket handlers `join_room`, `claim_bingo`,
 * `start_game`, `call_number` and `disconnect`.
 *
 * Each handler runs to completion on Node's single event loop, so each is
 * one sequential operation here. What a handler emits is returned as a list
 * of messages, each tagged with its recipient: the requesting socket only
 * (`socket.emit`) or every socket in the room (`io.to(roomId).emit`).
 *
 * The handlers are the methods of `Registry`, which holds the room map and
 * updates a room field by field as the source does. Each is proved against a
 * value-level step function on `GameRoom` (`JoinStep`, `StartStep`,
 * `CallStep`, `ClaimStep`, `LeaveStep`), about which the properties of the
 * protocol are proved.
 */
module Rooms {
  import opened Wrappers
  import WinCheck

  datatype Player = Player(id: string, name: string, isHost: bool)

  /** The contents of a room object, apart from its immutable id. */
  datatype GameRoom = GameRoom(
    host: Option<string>,
    players: seq<Player>,
    gameStarted: bool,
    calledNumbers: seq<int>,
    winner: Option<string>)

  /** `socket.emit` reaches the requesting connection; `io.to(roomId).emit` every connection in the room. */
  datatype Recipient = Requester | Everyone(roomId: string)

  datatype Event =
    | RoomError(message: string)
    | RoomState(players: seq<Player>, gameStarted: bool, calledNumbers: seq<int>, winner: Option<string>)
      /** the `room_state` that `disconnect` sends after a host hand-off, which carries no `winner` field */
    | RoomStateNoWinner(players: seq<Player>, gameStarted: bool, calledNumbers: seq<int>)
    | GameOver(winnerName: string, card: WinCheck.Card)
    | BingoInvalid
    | NumberAlreadyCalled(number: int)
    | PlayerLeft(socketId: string)

  datatype Message = Message(to: Recipient, event: Event)

  /** The new room contents and the messages of one handler run. */
  datatype Step = Step(room: GameRoom, out: seq<Message>)

  /** The room the creation endpoint stores: no host, no players, not started, nothing called, no winner. */
  function NewRoom(): (g: GameRoom)
    ensures Consistent(g) && g.players == [] && !g.gameStarted && g.winner == None
  {
    GameRoom(None, [], false, [], None)
  }

  /** The full `room_state` snapshot of a room. */
  function Snapshot(g: GameRoom): Event
  {
    RoomState(g.players, g.gameStarted, g.calledNumbers, g.winner)
  }

  /** JavaScript truthiness of a nullable string: `null` and `""` are false. */
  predicate Truthy(s: Option<string>)
  {
    s.Some? && s.value != ""
  }

  // ----- Players -----

  predicate HasId(ps: seq<Player>, sid: string)
  {
    exists i | 0 <= i < |ps| :: ps[i].id == sid
  }

  predicate UniqueIds(ps: seq<Player>)
  {
    forall i, j | 0 <= i < j < |ps| :: ps[i].id != ps[j].id
  }

  predicate UniqueNames(ps: seq<Player>)
  {
    forall i, j | 0 <= i < j < |ps| :: ps[i].name != ps[j].name
  }

  predicate NoDuplicates(xs: seq<int>)
  {
    forall i, j | 0 <= i < j < |xs| :: xs[i] != xs[j]
  }

  /**
   * What every handler keeps: socket ids and names are unique within the
   * room, no number is called twice, and a round with a winner is over.
   * (A single host is NOT kept: see `SecondHostNotDemoted`.)
   */
  predicate Consistent(g: GameRoom)
  {
    && UniqueIds(g.players)
    && UniqueNames(g.players)
    && NoDuplicates(g.calledNumbers)
    && (g.winner.Some? ==> !g.gameStarted)
  }

  /** `players.filter(p => p.id !== sid)`. */
  function WithoutId(ps: seq<Player>, sid: string): (r: seq<Player>)
    ensures !HasId(r, sid)
    ensures forall p | p in r :: p in ps && p.id != sid
    ensures forall p | p in ps && p.id != sid :: p in r
    ensures |r| <= |ps|
  {
    if ps == [] then []
    else if ps[0].id == sid then WithoutId(ps[1..], sid)
    else [ps[0]] + WithoutId(ps[1..], sid)
  }

  /** `players.findIndex(p => p.id === sid)`: the first index holding `sid`, or -1. */
  function FirstIndex(ps: seq<Player>, sid: string): (k: int)
    ensures -1 <= k < |ps|
    ensures k >= 0 ==> ps[k].id == sid && forall j | 0 <= j < k :: ps[j].id != sid
    ensures k < 0 <==> !HasId(ps, sid)
  {
    if ps == [] then -1
    else if ps[0].id == sid then 0
    else
      var k := FirstIndex(ps[1..], sid);
      if k < 0 then -1 else k + 1
  }

  /** Filtering out an absent id changes nothing. */
  lemma {:induction false} WithoutAbsentId(ps: seq<Player>, sid: string)
    requires !HasId(ps, sid)
    ensures WithoutId(ps, sid) == ps
  {
    if ps != [] {
      assert ps[0].id != sid;
      assert !HasId(ps[1..], sid) by {
        forall i | 0 <= i < |ps[1..]| ensures ps[1..][i].id != sid {
          assert ps[1..][i] == ps[i + 1];
        }
      }
      WithoutAbsentId(ps[1..], sid);
    }
  }

  /** Dropping the first player keeps ids unique. */
  lemma TailUniqueIds(ps: seq<Player>)
    requires ps != [] && UniqueIds(ps)
    ensures UniqueIds(ps[1..])
  {
    forall i, j | 0 <= i < j < |ps[1..]| ensures ps[1..][i].id != ps[1..][j].id {
      assert ps[1..][i] == ps[i + 1] && ps[1..][j] == ps[j + 1];
    }
  }

  /** With unique ids, filtering an id out is splicing out its one entry: the others keep their order and flags. */
  lemma {:induction false} WithoutIdIsSplice(ps: seq<Player>, sid: string, k: int)
    requires UniqueIds(ps) && 0 <= k < |ps| && ps[k].id == sid
    ensures WithoutId(ps, sid) == ps[..k] + ps[k + 1..]
    decreases k
  {
    if k == 0 {
      assert !HasId(ps[1..], sid) by {
        forall i | 0 <= i < |ps[1..]| ensures ps[1..][i].id != sid {
          assert ps[1..][i] == ps[i + 1];
        }
      }
      WithoutAbsentId(ps[1..], sid);
      assert ps[..0] + ps[1..] == ps[1..];
    } else {
      TailUniqueIds(ps);
      assert ps[1..][k - 1] == ps[k];
      WithoutIdIsSplice(ps[1..], sid, k - 1);
      assert WithoutId(ps, sid) == [ps[0]] + WithoutId(ps[1..], sid);
      ConsSplice(ps, k);
    }
  }

  /** Splicing index `k` out of the tail, then putting the head back, splices `k` out of the whole. */
  lemma ConsSplice<T>(xs: seq<T>, k: int)
    requires 0 < k < |xs|
    ensures [xs[0]] + (xs[1..][..k - 1] + xs[1..][k..]) == xs[..k] + xs[k + 1..]
  {
    assert xs[1..][..k - 1] == xs[1..k] && xs[1..][k..] == xs[k + 1..];
    assert [xs[0]] + xs[1..k] == xs[..k];
  }

  /** Removing one entry keeps ids and names unique. */
  lemma SpliceKeepsUnique(ps: seq<Player>, k: int)
    requires 0 <= k < |ps| && UniqueIds(ps) && UniqueNames(ps)
    ensures UniqueIds(ps[..k] + ps[k + 1..]) && UniqueNames(ps[..k] + ps[k + 1..])
  {
    var r := ps[..k] + ps[k + 1..];
    forall i | 0 <= i < |r| ensures r[i] == ps[if i < k then i else i + 1] {}
  }

  /** The players after the filter keep unique ids and names. */
  lemma WithoutIdKeepsUnique(ps: seq<Player>, sid: string)
    requires UniqueIds(ps) && UniqueNames(ps)
    ensures UniqueIds(WithoutId(ps, sid)) && UniqueNames(WithoutId(ps, sid))
  {
    var k := FirstIndex(ps, sid);
    if k < 0 {
      WithoutAbsentId(ps, sid);
    } else {
      WithoutIdIsSplice(ps, sid, k);
      SpliceKeepsUnique(ps, k);
    }
  }

  // ----- join_room -----

  /** `players.find(p => p.name === playerName && p.id !== socket.id)` finds someone. */
  predicate NameTaken(ps: seq<Player>, sid: string, name: string)
  {
    exists i | 0 <= i < |ps| :: ps[i].name == name && ps[i].id != sid
  }

  /** The entry a successful join appends. */
  function Joiner(g: GameRoom, sid: string, name: string, wantsHost: bool): Player
  {
    Player(sid, name, wantsHost || WithoutId(g.players, sid) == [])
  }

  /** `join_room` on an existing room. */
  function JoinStep(g: GameRoom, roomId: string, sid: string, name: string, wantsHost: bool): (s: Step)
    ensures Consistent(g) ==> Consistent(s.room)
    ensures NameTaken(g.players, sid, name) ==> s == Step(g, [Message(Requester, RoomError("Name already taken"))])
    ensures !NameTaken(g.players, sid, name) ==>
      && |s.room.players| > 0
      && (forall i | 0 <= i < |s.room.players| :: s.room.players[i].id == sid <==> i == |s.room.players| - 1)
      && s.room.players[|s.room.players| - 1].name == name
      && s.out == [Message(Everyone(roomId), Snapshot(s.room))]
    ensures s.room.gameStarted == g.gameStarted && s.room.calledNumbers == g.calledNumbers && s.room.winner == g.winner
  {
    if NameTaken(g.players, sid, name) then
      Step(g, [Message(Requester, RoomError("Name already taken"))])
    else
      var p := Joiner(g, sid, name, wantsHost);
      var g' := g.(players := WithoutId(g.players, sid) + [p],
                   host := if p.isHost then Some(sid) else g.host);
      assert Consistent(g) ==> Consistent(g') by {
        if Consistent(g) {
          JoinerKeepsUnique(g.players, p);
        }
      }
      Step(g', [Message(Everyone(roomId), Snapshot(g'))])
  }

  /** Appending the joiner after its stale entry is gone keeps ids and names unique, since its name was free. */
  lemma JoinerKeepsUnique(ps: seq<Player>, p: Player)
    requires UniqueIds(ps) && UniqueNames(ps) && !NameTaken(ps, p.id, p.name)
    ensures UniqueIds(WithoutId(ps, p.id) + [p]) && UniqueNames(WithoutId(ps, p.id) + [p])
  {
    WithoutIdKeepsUnique(ps, p.id);
    var rest := WithoutId(ps, p.id);
    forall i | 0 <= i < |rest| ensures rest[i].id != p.id && rest[i].name != p.name {
      assert rest[i] in ps;
    }
  }

  /** A join keeps everyone else in their order with their `isHost` flags: no one is demoted. */
  lemma JoinKeepsOthers(g: GameRoom, roomId: string, sid: string, name: string, wantsHost: bool)
    requires Consistent(g) && !NameTaken(g.players, sid, name)
    ensures var ps := JoinStep(g, roomId, sid, name, wantsHost).room.players;
      if HasId(g.players, sid) then
        exists k | 0 <= k < |g.players| && g.players[k].id == sid ::
          ps == g.players[..k] + g.players[k + 1..] + [Joiner(g, sid, name, wantsHost)]
      else ps == g.players + [Joiner(g, sid, name, wantsHost)]
  {
    var k := FirstIndex(g.players, sid);
    if k >= 0 {
      WithoutIdIsSplice(g.players, sid, k);
    } else {
      WithoutAbsentId(g.players, sid);
    }
  }

  /**
   * The joiner is host iff it asked to be or no one else is left once its
   * stale entry is gone; only then does `room.host` move to it.
   */
  lemma JoinHostRule(g: GameRoom, roomId: string, sid: string, name: string, wantsHost: bool)
    requires !NameTaken(g.players, sid, name)
    ensures var r := JoinStep(g, roomId, sid, name, wantsHost).room;
      && r.players[|r.players| - 1].isHost == (wantsHost || forall p | p in g.players :: p.id == sid)
      && r.host == (if r.players[|r.players| - 1].isHost then Some(sid) else g.host)
  {
    var rest := WithoutId(g.players, sid);
    if rest != [] {
      assert rest[0] in g.players;
    }
  }

  /** Joining twice from one socket under one name leaves exactly one entry for it. */
  lemma JoinTwiceOneEntry(g: GameRoom, roomId: string, sid: string, name: string, wantsHost: bool)
    requires !NameTaken(g.players, sid, name)
    ensures var r := JoinStep(JoinStep(g, roomId, sid, name, wantsHost).room, roomId, sid, name, wantsHost).room;
      |r.players| > 0 && forall i | 0 <= i < |r.players| :: r.players[i].id == sid <==> i == |r.players| - 1
  {
    var r1 := JoinStep(g, roomId, sid, name, wantsHost).room;
    assert !NameTaken(r1.players, sid, name) by {
      forall i | 0 <= i < |r1.players| - 1 ensures r1.players[i].name != name {
        assert r1.players[i] in WithoutId(g.players, sid);
      }
    }
  }

  /** A second joiner asking to be host becomes host while the first keeps its flag: two players are marked host. */
  lemma SecondHostNotDemoted(roomId: string)
    ensures var r1 := JoinStep(NewRoom(), roomId, "a", "Alice", true).room;
      var r2 := JoinStep(r1, roomId, "b", "Bob", true).room;
      r2.players == [Player("a", "Alice", true), Player("b", "Bob", true)] && r2.host == Some("b")
  {
    var r1 := JoinStep(NewRoom(), roomId, "a", "Alice", true).room;
    assert r1.players == [Player("a", "Alice", true)];
    assert !NameTaken(r1.players, "b", "Bob");
    assert WithoutId(r1.players, "b") == r1.players;
  }

  /** A host that re-joins without asking to be host, while others remain, loses its flag but keeps `room.host`. */
  lemma RejoinKeepsStaleHost(roomId: string)
    ensures var r1 := JoinStep(NewRoom(), roomId, "a", "Alice", false).room;
      var r2 := JoinStep(r1, roomId, "b", "Bob", false).room;
      var r3 := JoinStep(r2, roomId, "a", "Alice", false).room;
      r3.players == [Player("b", "Bob", false), Player("a", "Alice", false)] && r3.host == Some("a")
  {
    var r1 := JoinStep(NewRoom(), roomId, "a", "Alice", false).room;
    assert r1.players == [Player("a", "Alice", true)] && r1.host == Some("a");
    assert !NameTaken(r1.players, "b", "Bob");
    assert WithoutId(r1.players, "b") == r1.players;
    var r2 := JoinStep(r1, roomId, "b", "Bob", false).room;
    assert r2.players == [Player("a", "Alice", true), Player("b", "Bob", false)];
    assert !NameTaken(r2.players, "a", "Alice");
    assert WithoutId(r2.players, "a") == [Player("b", "Bob", false)];
  }

  // ----- start_game -----

  /** `start_game`: only the room's host starts a round, which clears the called numbers and the winner. */
  function StartStep(g: GameRoom, roomId: string, sid: string): (s: Step)
    ensures Consistent(g) ==> Consistent(s.room)
    ensures g.host != Some(sid) ==> s == Step(g, [])
    ensures g.host == Some(sid) ==>
      && s.room.gameStarted && s.room.calledNumbers == [] && s.room.winner == None
      && s.out == [Message(Everyone(roomId), Snapshot(s.room))]
    ensures s.room.players == g.players && s.room.host == g.host
  {
    if g.host == Some(sid) then
      var g' := g.(gameStarted := true, calledNumbers := [], winner := None);
      Step(g', [Message(Everyone(roomId), Snapshot(g'))])
    else
      Step(g, [])
  }

  // ----- call_number -----

  /** `call_number`: the host appends a number not yet called; a repeat is reported to the host only; there is no range check. */
  function CallStep(g: GameRoom, roomId: string, sid: string, number: int): (s: Step)
    ensures Consistent(g) ==> Consistent(s.room)
    ensures g.host != Some(sid) ==> s == Step(g, [])
    ensures g.host == Some(sid) && number in g.calledNumbers ==>
      s == Step(g, [Message(Requester, NumberAlreadyCalled(number))])
    ensures g.host == Some(sid) && number !in g.calledNumbers ==>
      && s.room == g.(calledNumbers := g.calledNumbers + [number])
      && s.out == [Message(Everyone(roomId), Snapshot(s.room))]
  {
    if g.host == Some(sid) then
      if number !in g.calledNumbers then
        var g' := g.(calledNumbers := g.calledNumbers + [number]);
        Step(g', [Message(Everyone(roomId), Snapshot(g'))])
      else
        Step(g, [Message(Requester, NumberAlreadyCalled(number))])
    else
      Step(g, [])
  }

  /** The server accepts any integer from the host, in range or not. */
  lemma CallHasNoRangeCheck(g: GameRoom, roomId: string, sid: string)
    requires g.host == Some(sid) && g.calledNumbers == []
    ensures CallStep(g, roomId, sid, 0).room.calledNumbers == [0]
    ensures CallStep(g, roomId, sid, 76).room.calledNumbers == [76]
  {
  }

  // ----- claim_bingo -----

  /**
   * `claim_bingo`: ignored unless a round is running with no winner. The
   * card is checked against the room's own called numbers; a winning card
   * ends the round with the claimant's name, a losing one is reported to
   * the claimant only, and a card that makes the verifier throw aborts the
   * handler before anything changed.
   */
  function ClaimStep(g: GameRoom, roomId: string, name: string, card: WinCheck.Card): (s: Step)
    ensures Consistent(g) ==> Consistent(s.room)
    ensures !g.gameStarted || Truthy(g.winner) ==> s == Step(g, [])
    ensures s.room != g ==>
      && g.gameStarted && WinCheck.WinVerdict(card, g.calledNumbers) == WinCheck.Returned(true)
      && s.room == g.(winner := Some(name), gameStarted := false)
      && s.out == [Message(Everyone(roomId), Snapshot(s.room)), Message(Everyone(roomId), GameOver(name, card))]
    ensures s.room == g ==> forall m | m in s.out :: m.to == Requester
    ensures g.gameStarted && !Truthy(g.winner) ==>
      match WinCheck.WinVerdict(card, g.calledNumbers)
      case Returned(true) =>
        && s.room == g.(winner := Some(name), gameStarted := false)
        && s.out == [Message(Everyone(roomId), Snapshot(s.room)), Message(Everyone(roomId), GameOver(name, card))]
      case Returned(false) => s == Step(g, [Message(Requester, BingoInvalid)])
      case Threw => s == Step(g, [])
  {
    if !g.gameStarted || Truthy(g.winner) then
      Step(g, [])
    else
      match WinCheck.WinVerdict(card, g.calledNumbers)
      case Returned(true) =>
        var g' := g.(winner := Some(name), gameStarted := false);
        Step(g', [Message(Everyone(roomId), Snapshot(g')), Message(Everyone(roomId), GameOver(name, card))])
      case Returned(false) =>
        Step(g, [Message(Requester, BingoInvalid)])
      case Threw =>
        Step(g, [])
  }

  // ----- disconnect -----

  /**
   * `disconnect`, for one room: the socket's first entry is spliced out and
   * the room told; if that entry was marked host and players remain, the
   * first remaining player is marked host and becomes `room.host`.
   */
  function LeaveStep(g: GameRoom, roomId: string, sid: string): (s: Step)
    ensures Consistent(g) ==> Consistent(s.room) && !HasId(s.room.players, sid)
    ensures !HasId(g.players, sid) ==> s == Step(g, [])
    ensures HasId(g.players, sid) ==>
      && |s.room.players| == |g.players| - 1
      && s.out != [] && s.out[0] == Message(Everyone(roomId), PlayerLeft(sid))
    ensures s.room.host != g.host ==> |s.room.players| > 0 && s.room.players[0].isHost && s.room.host == Some(s.room.players[0].id)
    ensures s.room.gameStarted == g.gameStarted && s.room.calledNumbers == g.calledNumbers && s.room.winner == g.winner
    ensures HasId(g.players, sid) ==>
      var k := FirstIndex(g.players, sid);
      var rest := g.players[..k] + g.players[k + 1..];
      var promote := g.players[k].isHost && rest != [];
      && s.room.players == (if promote then rest[0 := rest[0].(isHost := true)] else rest)
      && s.room.host == (if promote then Some(rest[0].id) else g.host)
      && s.out == [Message(Everyone(roomId), PlayerLeft(sid))] +
                  (if promote then [Message(Everyone(roomId), RoomStateNoWinner(s.room.players, g.gameStarted, g.calledNumbers))] else [])
  {
    var k := FirstIndex(g.players, sid);
    if k < 0 then
      Step(g, [])
    else
      var player := g.players[k];
      var rest := g.players[..k] + g.players[k + 1..];
      assert Consistent(g) ==> UniqueIds(rest) && UniqueNames(rest) && !HasId(rest, sid) by {
        if Consistent(g) {
          SpliceDropsId(g.players, k);
        }
      }
      if player.isHost && |rest| > 0 then
        var ps := rest[0 := rest[0].(isHost := true)];
        PromoteKeepsIds(rest, sid);
        var g' := g.(players := ps, host := Some(ps[0].id));
        Step(g', [Message(Everyone(roomId), PlayerLeft(sid)),
                  Message(Everyone(roomId), RoomStateNoWinner(ps, g.gameStarted, g.calledNumbers))])
      else
        Step(g.(players := rest), [Message(Everyone(roomId), PlayerLeft(sid))])
  }

  /** With unique ids, splicing out the entry of `ps[k].id` leaves unique ids and names and no entry for that id. */
  lemma SpliceDropsId(ps: seq<Player>, k: int)
    requires 0 <= k < |ps| && UniqueIds(ps) && UniqueNames(ps)
    ensures var rest := ps[..k] + ps[k + 1..];
      UniqueIds(rest) && UniqueNames(rest) && !HasId(rest, ps[k].id)
  {
    SpliceKeepsUnique(ps, k);
    var rest := ps[..k] + ps[k + 1..];
    forall i | 0 <= i < |rest| ensures rest[i].id != ps[k].id {
      assert rest[i] == ps[if i < k then i else i + 1];
    }
  }

  /** Setting the first player's host flag changes no id or name. */
  lemma PromoteKeepsIds(ps: seq<Player>, sid: string)
    requires |ps| > 0
    ensures var ps' := ps[0 := ps[0].(isHost := true)];
      && (UniqueIds(ps) ==> UniqueIds(ps'))
      && (UniqueNames(ps) ==> UniqueNames(ps'))
      && (!HasId(ps, sid) ==> !HasId(ps', sid))
  {
    var ps' := ps[0 := ps[0].(isHost := true)];
    assert forall i | 0 <= i < |ps| :: ps'[i].id == ps[i].id && ps'[i].name == ps[i].name;
  }

  /** Whether `disconnect` deletes the room: the socket was in it and was its last player. */
  predicate Emptied(g: GameRoom, sid: string)
  {
    |g.players| == 1 && g.players[0].id == sid
  }

  /** Host hand-off: with players A (host), B, C in join order, A leaving makes B the one host. */
  lemma HostHandoff(roomId: string, started: bool, called: seq<int>)
    ensures var g := GameRoom(Some("A"), [Player("A", "a", true), Player("B", "b", false), Player("C", "c", false)], started, called, None);
      var s := LeaveStep(g, roomId, "A");
      && s.room.players == [Player("B", "b", true), Player("C", "c", false)]
      && s.room.host == Some("B")
      && s.out == [Message(Everyone(roomId), PlayerLeft("A")),
                   Message(Everyone(roomId), RoomStateNoWinner(s.room.players, started, called))]
  {
    var g := GameRoom(Some("A"), [Player("A", "a", true), Player("B", "b", false), Player("C", "c", false)], started, called, None);
    assert FirstIndex(g.players, "A") == 0;
  }

  /**
   * Leaving removes what a join's filter removes: with unique ids, the
   * players left are the others in their order, the first of them possibly
   * promoted to host.
   */
  lemma LeaveIsFilter(g: GameRoom, roomId: string, sid: string)
    requires UniqueIds(g.players)
    ensures var ps := LeaveStep(g, roomId, sid).room.players;
      var rest := WithoutId(g.players, sid);
      && |ps| == |rest|
      && (forall i | 0 < i < |ps| :: ps[i] == rest[i])
      && (ps != [] ==> ps[0].id == rest[0].id && ps[0].name == rest[0].name)
  {
    var k := FirstIndex(g.players, sid);
    if k >= 0 {
      WithoutIdIsSplice(g.players, sid, k);
    } else {
      WithoutAbsentId(g.players, sid);
    }
  }

  /** A newcomer that joins a non-empty room without asking to be host and then disconnects leaves the room as it was. */
  lemma JoinThenLeave(g: GameRoom, roomId: string, sid: string, name: string)
    requires g.players != [] && !HasId(g.players, sid) && !NameTaken(g.players, sid, name)
    ensures LeaveStep(JoinStep(g, roomId, sid, name, false).room, roomId, sid).room == g
  {
    WithoutAbsentId(g.players, sid);
    var r := JoinStep(g, roomId, sid, name, false).room;
    assert r.players == g.players + [Player(sid, name, false)];
    assert FirstIndex(r.players, sid) == |g.players|;
    assert r.players[..|g.players|] + r.players[|g.players| + 1..] == g.players;
  }

  // ----- Runs of requests against one room -----

  /** An inbound client event addressed to one room. */
  datatype Request =
    | JoinRequest(sid: string, name: string, wantsHost: bool)
    | StartRequest(sid: string)
    | CallRequest(sid: string, number: int)
    | ClaimRequest(name: string, card: WinCheck.Card)
    | LeaveRequest(sid: string)

  function Apply(g: GameRoom, roomId: string, r: Request): Step
  {
    match r
    case JoinRequest(sid, name, wantsHost) => JoinStep(g, roomId, sid, name, wantsHost)
    case StartRequest(sid) => StartStep(g, roomId, sid)
    case CallRequest(sid, number) => CallStep(g, roomId, sid, number)
    case ClaimRequest(name, card) => ClaimStep(g, roomId, name, card)
    case LeaveRequest(sid) => LeaveStep(g, roomId, sid)
  }

  /** The room after handling `rs` in order. */
  function Run(g: GameRoom, roomId: string, rs: seq<Request>): GameRoom
    decreases |rs|
  {
    if rs == [] then g else Run(Apply(g, roomId, rs[0]).room, roomId, rs[1..])
  }

  /** Every sequence of handlers keeps a consistent room consistent. */
  lemma {:induction false} RunConsistent(g: GameRoom, roomId: string, rs: seq<Request>)
    requires Consistent(g)
    ensures Consistent(Run(g, roomId, rs))
    decreases |rs|
  {
    if rs != [] {
      RunConsistent(Apply(g, roomId, rs[0]).room, roomId, rs[1..]);
    }
  }

  /**
   * Within a round (no `start_game` handled) the called numbers only grow
   * at the end, and a recorded winner stays: a round has at most one winner.
   */
  lemma {:induction false} RoundIsAppendOnly(g: GameRoom, roomId: string, rs: seq<Request>)
    requires Consistent(g)
    requires forall i | 0 <= i < |rs| :: !rs[i].StartRequest?
    ensures g.calledNumbers <= Run(g, roomId, rs).calledNumbers
    ensures g.winner.Some? ==> Run(g, roomId, rs).winner == g.winner
    decreases |rs|
  {
    if rs != [] {
      var g1 := Apply(g, roomId, rs[0]).room;
      assert !rs[0].StartRequest?;
      assert g.calledNumbers <= g1.calledNumbers;
      assert g.winner.Some? ==> g1.winner == g.winner;
      assert forall i | 0 <= i < |rs[1..]| :: !rs[1..][i].StartRequest? by {
        forall i | 0 <= i < |rs[1..]| ensures !rs[1..][i].StartRequest? {
          assert rs[1..][i] == rs[i + 1];
        }
      }
      RoundIsAppendOnly(g1, roomId, rs[1..]);
    }
  }

  /** A card the server would accept stays acceptable for the rest of the round. */
  lemma AcceptedStaysAccepted(g: GameRoom, roomId: string, rs: seq<Request>, card: WinCheck.Card)
    requires Consistent(g)
    requires forall i | 0 <= i < |rs| :: !rs[i].StartRequest?
    requires WinCheck.WinVerdict(card, g.calledNumbers) == WinCheck.Returned(true)
    ensures WinCheck.WinVerdict(card, Run(g, roomId, rs).calledNumbers) == WinCheck.Returned(true)
  {
    RoundIsAppendOnly(g, roomId, rs);
    var later := Run(g, roomId, rs).calledNumbers;
    forall x | x in g.calledNumbers ensures x in later {
      var i :| 0 <= i < |g.calledNumbers| && g.calledNumbers[i] == x;
      assert later[i] == x;
    }
    WinCheck.VerdictMonotone(card, g.calledNumbers, later);
  }

  // ----- The process-wide room map -----

  /**
   * `global.rooms`. A handler fetches the room, updates its fields one by
   * one and the map keeps the result: no other reference to a room outlives
   * a handler, so the room values stored here are the room objects' states.
   */
  class Registry {
    var rooms: map<string, GameRoom>

    /** Every stored room is consistent. */
    ghost predicate Valid()
      reads this
    {
      AllConsistent(rooms)
    }

    /** `global.rooms = new Map()`. */
    constructor ()
      ensures Valid() && rooms == map[]
    {
      rooms := map[];
    }

    /** `global.rooms.set(roomId, newRoom)` of the creation endpoint; the id comes from its UUID generator. */
    method CreateRoom(roomId: string)
      requires Valid()
      modifies this
      ensures Valid()
      ensures rooms == old(rooms)[roomId := NewRoom()]
    {
      rooms := rooms[roomId := NewRoom()];
    }

    /** The `join_room` handler. */
    method JoinRoom(sid: string, roomId: string, playerName: string, isHost: bool) returns (out: seq<Message>)
      requires Valid()
      modifies this
      ensures Valid()
      ensures roomId !in old(rooms) ==> rooms == old(rooms) && out == [Message(Requester, RoomError("Room not found"))]
      ensures roomId in old(rooms) ==>
        var s := JoinStep(old(rooms)[roomId], roomId, sid, playerName, isHost);
        rooms == old(rooms)[roomId := s.room] && out == s.out
    {
      if roomId !in rooms {
        return [Message(Requester, RoomError("Room not found"))];
      }
      var room := rooms[roomId];
      ghost var s := JoinStep(room, roomId, sid, playerName, isHost);
      if NameTaken(room.players, sid, playerName) {
        assert rooms == rooms[roomId := room];
        return [Message(Requester, RoomError("Name already taken"))];
      }
      room := room.(players := WithoutId(room.players, sid));
      var newPlayer := Player(sid, playerName, isHost || |room.players| == 0);
      room := room.(players := room.players + [newPlayer]);
      if newPlayer.isHost {
        room := room.(host := Some(sid));
      }
      rooms := rooms[roomId := room];
      out := [Message(Everyone(roomId), Snapshot(room))];
    }

    /** The `claim_bingo` handler. */
    method ClaimBingo(roomId: string, playerName: string, card: WinCheck.Card) returns (out: seq<Message>)
      requires Valid()
      modifies this
      ensures Valid()
      ensures roomId !in old(rooms) ==> rooms == old(rooms) && out == []
      ensures roomId in old(rooms) ==>
        var s := ClaimStep(old(rooms)[roomId], roomId, playerName, card);
        rooms == old(rooms)[roomId := s.room] && out == s.out
    {
      out := [];
      if roomId !in rooms {
        return;
      }
      var room := rooms[roomId];
      assert rooms == rooms[roomId := room];
      if !room.gameStarted || Truthy(room.winner) {
        return;
      }
      var isValid := WinCheck.VerifyWinningCard(card, room.calledNumbers);
      match isValid
      case Returned(true) =>
        room := room.(winner := Some(playerName));
        room := room.(gameStarted := false);
        rooms := rooms[roomId := room];
        out := [Message(Everyone(roomId), Snapshot(room)), Message(Everyone(roomId), GameOver(playerName, card))];
      case Returned(false) =>
        out := [Message(Requester, BingoInvalid)];
      case Threw =>
        // the handler stops with the exception; nothing was changed or sent
    }

    /** The `start_game` handler. */
    method StartGame(sid: string, roomId: string) returns (out: seq<Message>)
      requires Valid()
      modifies this
      ensures Valid()
      ensures roomId !in old(rooms) ==> rooms == old(rooms) && out == []
      ensures roomId in old(rooms) ==>
        var s := StartStep(old(rooms)[roomId], roomId, sid);
        rooms == old(rooms)[roomId := s.room] && out == s.out
    {
      out := [];
      if roomId !in rooms {
        return;
      }
      var room := rooms[roomId];
      assert rooms == rooms[roomId := room];
      if room.host == Some(sid) {
        room := room.(gameStarted := true);
        room := room.(calledNumbers := []);
        room := room.(winner := None);
        rooms := rooms[roomId := room];
        out := [Message(Everyone(roomId), Snapshot(room))];
      }
    }

    /** The `call_number` handler. */
    method CallNumber(sid: string, roomId: string, number: int) returns (out: seq<Message>)
      requires Valid()
      modifies this
      ensures Valid()
      ensures roomId !in old(rooms) ==> rooms == old(rooms) && out == []
      ensures roomId in old(rooms) ==>
        var s := CallStep(old(rooms)[roomId], roomId, sid, number);
        rooms == old(rooms)[roomId := s.room] && out == s.out
    {
      out := [];
      if roomId !in rooms {
        return;
      }
      var room := rooms[roomId];
      assert rooms == rooms[roomId := room];
      if room.host == Some(sid) {
        if number !in room.calledNumbers {
          room := room.(calledNumbers := room.calledNumbers + [number]);
          rooms := rooms[roomId := room];
          out := [Message(Everyone(roomId), Snapshot(room))];
        } else {
          out := [Message(Requester, NumberAlreadyCalled(number))];
        }
      }
    }

    /**
     * The `disconnect` handler: every room is visited once, in the order
     * `order`; each drops the socket's entry, and a room left empty by it is
     * deleted from the map.
     */
    method Disconnect(sid: string) returns (out: seq<Message>, ghost order: seq<string>)
      requires Valid()
      modifies this
      ensures Valid()
      ensures IsOrdering(order, old(rooms).Keys)
      ensures out == LeaveLog(order, old(rooms), sid)
      ensures rooms.Keys <= old(rooms).Keys
      ensures forall k | k in old(rooms) :: k in rooms <==> !Emptied(old(rooms)[k], sid)
      ensures forall k | k in rooms :: rooms[k] == LeaveStep(old(rooms)[k], k, sid).room
    {
      ghost var r0 := rooms;
      var pending := rooms.Keys;
      out, order := [], [];
      DisconnectStart(r0, sid);
      while pending != {}
        invariant DisconnectInv(r0, rooms, pending, order, out, sid)
        decreases pending
      {
        var roomId :| roomId in pending;
        ghost var before := rooms;
        var msgs := LeaveRoom(roomId, sid);
        DisconnectVisit(r0, before, pending, order, out, sid, roomId);
        out, order := out + msgs, order + [roomId];
        pending := pending - {roomId};
      }
      DisconnectDone(r0, rooms, order, out, sid);
    }

    /** One turn of `disconnect`'s `forEach`: the room drops the socket's entry, and is deleted if that emptied it. */
    method LeaveRoom(roomId: string, sid: string) returns (msgs: seq<Message>)
      requires roomId in rooms
      modifies this
      ensures rooms == VisitedMap(old(rooms), roomId, sid)
      ensures msgs == LeaveStep(old(rooms)[roomId], roomId, sid).out
    {
      var room := rooms[roomId];
      var playerIndex := FirstIndex(room.players, sid);
      msgs := [];
      if playerIndex == -1 {
        assert rooms == rooms[roomId := room];
        return;
      }
      var player := room.players[playerIndex];
      room := room.(players := room.players[..playerIndex] + room.players[playerIndex + 1..]);
      msgs := [Message(Everyone(roomId), PlayerLeft(sid))];
      if player.isHost && |room.players| > 0 {
        var newHost := room.players[0].(isHost := true);
        room := room.(players := room.players[0 := newHost]);
        room := room.(host := Some(newHost.id));
        msgs := msgs + [Message(Everyone(roomId), RoomStateNoWinner(room.players, room.gameStarted, room.calledNumbers))];
      }
      if |room.players| == 0 {
        rooms := rooms - {roomId};
      } else {
        rooms := rooms[roomId := room];
      }
    }
  }

  /** The room map once `disconnect` has visited `roomId`. */
  function VisitedMap(rooms: map<string, GameRoom>, roomId: string, sid: string): map<string, GameRoom>
    requires roomId in rooms
  {
    if Emptied(rooms[roomId], sid) then rooms - {roomId}
    else rooms[roomId := LeaveStep(rooms[roomId], roomId, sid).room]
  }

  /**
   * What holds of `disconnect` between two rooms: the keys of `r0` not
   * pending were visited in the order `order`, producing `out`; each
   * visited room is left or, if that emptied it, deleted; pending rooms
   * are untouched.
   */
  ghost predicate DisconnectInv(r0: map<string, GameRoom>, rooms: map<string, GameRoom>, pending: set<string>,
                                order: seq<string>, out: seq<Message>, sid: string)
  {
    && KeysVisited(r0, rooms, pending, sid)
    && RoomsVisited(r0, rooms, pending, sid)
    && AllConsistent(rooms)
    && LogVisited(r0, pending, order, out, sid)
  }

  /** A room is gone once visited exactly when the visit emptied it. */
  ghost predicate KeysVisited(r0: map<string, GameRoom>, rooms: map<string, GameRoom>, pending: set<string>, sid: string)
  {
    && pending <= r0.Keys && rooms.Keys <= r0.Keys
    && (forall k | k in r0 :: k in rooms <==> k in pending || !Emptied(r0[k], sid))
  }

  /** A pending room is untouched and a visited one is as the socket's leaving left it. */
  ghost predicate RoomsVisited(r0: map<string, GameRoom>, rooms: map<string, GameRoom>, pending: set<string>, sid: string)
  {
    forall k | k in rooms :: k in r0 && rooms[k] == if k in pending then r0[k] else LeaveStep(r0[k], k, sid).room
  }

  ghost predicate AllConsistent(rooms: map<string, GameRoom>)
  {
    forall k | k in rooms :: Consistent(rooms[k])
  }

  /** The visited keys were visited in the order `order`, which produced `out`. */
  ghost predicate LogVisited(r0: map<string, GameRoom>, pending: set<string>, order: seq<string>, out: seq<Message>, sid: string)
  {
    IsOrdering(order, r0.Keys - pending) && out == LeaveLog(order, r0, sid)
  }

  lemma DisconnectStart(r0: map<string, GameRoom>, sid: string)
    requires AllConsistent(r0)
    ensures DisconnectInv(r0, r0, r0.Keys, [], [], sid)
  {
  }

  lemma DisconnectVisit(r0: map<string, GameRoom>, rooms: map<string, GameRoom>, pending: set<string>,
                        order: seq<string>, out: seq<Message>, sid: string, roomId: string)
    requires DisconnectInv(r0, rooms, pending, order, out, sid)
    requires roomId in pending
    ensures roomId in rooms && rooms[roomId] == r0[roomId]
    ensures DisconnectInv(r0, VisitedMap(rooms, roomId, sid), pending - {roomId}, order + [roomId],
                          out + LeaveStep(rooms[roomId], roomId, sid).out, sid)
  {
    VisitKeys(r0, rooms, pending, sid, roomId);
    VisitRooms(r0, rooms, pending, sid, roomId);
    VisitConsistent(rooms, sid, roomId);
    OrderingExtend(order, r0.Keys, pending, roomId);
    LeaveLogAppend(order, roomId, r0, sid);
  }

  lemma VisitKeys(r0: map<string, GameRoom>, rooms: map<string, GameRoom>, pending: set<string>, sid: string, roomId: string)
    requires KeysVisited(r0, rooms, pending, sid) && RoomsVisited(r0, rooms, pending, sid) && roomId in pending
    ensures roomId in rooms && rooms[roomId] == r0[roomId]
    ensures KeysVisited(r0, VisitedMap(rooms, roomId, sid), pending - {roomId}, sid)
  {
    VisitedMapAt(rooms, roomId, sid);
  }

  lemma VisitRooms(r0: map<string, GameRoom>, rooms: map<string, GameRoom>, pending: set<string>, sid: string, roomId: string)
    requires KeysVisited(r0, rooms, pending, sid) && RoomsVisited(r0, rooms, pending, sid) && roomId in pending
    ensures RoomsVisited(r0, VisitedMap(rooms, roomId, sid), pending - {roomId}, sid)
  {
    var after := VisitedMap(rooms, roomId, sid);
    VisitedMapAt(rooms, roomId, sid);
    forall k | k in after
      ensures k in r0 && after[k] == (if k in pending - {roomId} then r0[k] else LeaveStep(r0[k], k, sid).room)
    {
      if k != roomId {
        assert after[k] == rooms[k];
      }
    }
  }

  lemma VisitConsistent(rooms: map<string, GameRoom>, sid: string, roomId: string)
    requires AllConsistent(rooms) && roomId in rooms
    ensures AllConsistent(VisitedMap(rooms, roomId, sid))
  {
    VisitedMapAt(rooms, roomId, sid);
  }

  lemma DisconnectDone(r0: map<string, GameRoom>, rooms: map<string, GameRoom>, order: seq<string>, out: seq<Message>, sid: string)
    requires DisconnectInv(r0, rooms, {}, order, out, sid)
    ensures IsOrdering(order, r0.Keys) && out == LeaveLog(order, r0, sid)
    ensures rooms.Keys <= r0.Keys
    ensures forall k | k in r0 :: k in rooms <==> !Emptied(r0[k], sid)
    ensures forall k | k in rooms :: rooms[k] == LeaveStep(r0[k], k, sid).room && Consistent(rooms[k])
  {
    assert r0.Keys - {} == r0.Keys;
  }

  /** `VisitedMap` key by key. */
  lemma VisitedMapAt(rooms: map<string, GameRoom>, roomId: string, sid: string)
    requires roomId in rooms
    ensures var after := VisitedMap(rooms, roomId, sid);
      && (forall k :: k in after <==> k in rooms && (k != roomId || !Emptied(rooms[roomId], sid)))
      && (forall k | k in after && k != roomId :: after[k] == rooms[k])
      && (roomId in after ==> after[roomId] == LeaveStep(rooms[roomId], roomId, sid).room)
  {
  }

  /** `order` lists every key of `keys` exactly once. */
  ghost predicate IsOrdering(order: seq<string>, keys: set<string>)
  {
    (forall i, j | 0 <= i < j < |order| :: order[i] != order[j]) && (forall k :: k in order <==> k in keys)
  }

  /** Visiting one more pending key extends an ordering of the visited keys. */
  lemma OrderingExtend(order: seq<string>, keys: set<string>, pending: set<string>, k: string)
    requires pending <= keys && k in pending
    requires IsOrdering(order, keys - pending)
    ensures IsOrdering(order + [k], keys - (pending - {k}))
  {
  }

  /** Everything `disconnect` sends, room by room in the order visited. */
  function LeaveLog(order: seq<string>, before: map<string, GameRoom>, sid: string): seq<Message>
    requires forall k | k in order :: k in before
  {
    if order == [] then []
    else
      var last := order[|order| - 1];
      LeaveLog(order[..|order| - 1], before, sid) + LeaveStep(before[last], last, sid).out
  }

  lemma LeaveLogAppend(order: seq<string>, k: string, before: map<string, GameRoom>, sid: string)
    requires forall j | j in order :: j in before
    requires k in before
    ensures LeaveLog(order + [k], before, sid) == LeaveLog(order, before, sid) + LeaveStep(before[k], k, sid).out
  {
    assert (order + [k])[..|order|] == order;
  }
}
