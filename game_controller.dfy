/**
 * The host's control panel of src/components/GameController.tsx: the numbers
 * still available to call, the number on display, the reset when a round
 * starts, and the guarded random pick of `callNumber`.
 */
module GameController {
  import opened Wrappers
  import Rooms

  /** Strictly ascending. */
  predicate Increasing(xs: seq<int>)
  {
    forall i, j | 0 <= i < j < |xs| :: xs[i] < xs[j]
  }

  /** `Array.from({ length: 75 }, (_, i) => i + 1)`: the numbers 1 to 75 in ascending order. */
  function AllNumbers(): (r: seq<int>)
    ensures Increasing(r)
    ensures forall x :: x in r <==> 1 <= x <= 75
  {
    var r := seq(75, i => i + 1);
    assert forall x | 1 <= x <= 75 :: x in r by {
      forall x | 1 <= x <= 75 ensures x in r {
        assert r[x - 1] == x;
      }
    }
    r
  }

  /** `xs.filter((n) => !calledNumbers.includes(n))`. */
  function NotCalled(xs: seq<int>, called: seq<int>): (r: seq<int>)
    ensures forall x :: x in r <==> x in xs && x !in called
    ensures Increasing(xs) ==> Increasing(r)
  {
    if xs == [] then []
    else if xs[0] in called then NotCalled(xs[1..], called)
    else
      var rest := NotCalled(xs[1..], called);
      assert Increasing(xs) ==> Increasing([xs[0]] + rest) by {
        if Increasing(xs) {
          assert Increasing(xs[1..]);
          forall x | x in rest ensures xs[0] < x {
            var i :| 0 <= i < |xs[1..]| && xs[1..][i] == x;
            assert xs[i + 1] == x;
          }
          var r := [xs[0]] + rest;
          forall i, j | 0 <= i < j < |r| ensures r[i] < r[j] {
            assert r[j] == rest[j - 1] && rest[j - 1] in rest;
            if i > 0 {
              assert r[i] == rest[i - 1];
            }
          }
        }
      }
      [xs[0]] + rest
  }

  /** The available numbers while a round runs: exactly those of 1..75 not called yet, in ascending order. */
  function Remaining(called: seq<int>): (r: seq<int>)
    ensures Increasing(r)
    ensures forall x :: x in r <==> 1 <= x <= 75 && x !in called
  {
    NotCalled(AllNumbers(), called)
  }

  /** With nothing called the filter keeps every number, in place. */
  lemma {:induction false} NothingCalledKeepsAll(xs: seq<int>)
    ensures NotCalled(xs, []) == xs
  {
    if xs != [] {
      NothingCalledKeepsAll(xs[1..]);
      assert [xs[0]] + xs[1..] == xs;
    }
  }

  /** The reset on start and the derivation agree when nothing has been called. */
  lemma ResetIsRemainingOfNothing()
    ensures AllNumbers() == Remaining([])
  {
    NothingCalledKeepsAll(AllNumbers());
  }

  /** `calledNumbers[calledNumbers.length - 1] || null`: the last number called, where 0 counts as none. */
  function CurrentNumber(called: seq<int>): (r: Option<int>)
    ensures r == None <==> called == [] || called[|called| - 1] == 0
    ensures r.Some? ==> r.value == called[|called| - 1] && r.value in called
  {
    if |called| > 0 && called[|called| - 1] != 0 then Some(called[|called| - 1]) else None
  }

  /**
   * The number on display, as line 37 derives it from the room's list,
   * after the host calls `n`: `n` itself if it was new, except that a 0
   * shows as none; a repeat leaves that derived display as it was, since
   * the server sends no new list. This is what every panel that receives
   * the room's list shows; the host's own panel has already set its
   * display to the pick, and after a repeat it keeps showing that pick.
   */
  lemma DisplayAfterCall(g: Rooms.GameRoom, roomId: string, sid: string, n: int)
    requires g.host == Some(sid)
    ensures CurrentNumber(Rooms.CallStep(g, roomId, sid, n).room.calledNumbers) ==
      if n in g.calledNumbers then CurrentNumber(g.calledNumbers) else if n == 0 then None else Some(n)
  {
  }

  /**
   * A host's `start_game` empties the called numbers, so the derived
   * availability and display equal the reset ones: all 75 numbers, none
   * shown.
   */
  lemma StartAgreesWithReset(g: Rooms.GameRoom, roomId: string, sid: string)
    requires g.host == Some(sid)
    ensures var called := Rooms.StartStep(g, roomId, sid).room.calledNumbers;
      Remaining(called) == AllNumbers() && CurrentNumber(called) == None
  {
    ResetIsRemainingOfNothing();
  }

  /**
   * A number the host picks from the available ones is one the server
   * appends: it lies in 1..75, was not called, and becomes the number on
   * display once the new called list arrives.
   */
  lemma HostPickAccepted(g: Rooms.GameRoom, roomId: string, sid: string, n: int)
    requires g.host == Some(sid)
    requires n in Remaining(g.calledNumbers)
    ensures 1 <= n <= 75
    ensures Rooms.CallStep(g, roomId, sid, n).room.calledNumbers == g.calledNumbers + [n]
    ensures CurrentNumber(Rooms.CallStep(g, roomId, sid, n).room.calledNumbers) == Some(n)
    ensures n !in Remaining(Rooms.CallStep(g, roomId, sid, n).room.calledNumbers)
  {
  }

  /**
   * The component: props `gameStarted`, `winner`, `calledNumbers` and
   * whether a socket exists, and state `availableNumbers`, `currentNumber`
   * and `autoPlay`.
   */
  class Controller {
    var gameStarted: bool
    var winner: Option<string>
    var calledNumbers: seq<int>
    const connected: bool
    var available: seq<int>
    var current: Option<int>
    var autoPlay: bool

    /** Every number the panel offers lies in 1..75: the list is only ever empty, all 75, or the uncalled ones. */
    ghost predicate Valid()
      reads this
    {
      forall x | x in available :: 1 <= x <= 75
    }

    /** The availability the component shows agrees with the called numbers. */
    ghost predicate InSync()
      reads this
    {
      gameStarted ==> available == Remaining(calledNumbers)
    }

    /**
     * The first render: empty state, then both effects in order. In a
     * running round the reset effect runs last, so every number shows as
     * available even if some were called before the component mounted.
     */
    constructor (gameStarted: bool, winner: Option<string>, calledNumbers: seq<int>, connected: bool)
      ensures this.gameStarted == gameStarted && this.winner == winner && this.calledNumbers == calledNumbers
      ensures this.connected == connected && !autoPlay
      ensures available == (if gameStarted then AllNumbers() else []) && current == None
      ensures Valid()
    {
      this.gameStarted := gameStarted;
      this.winner := winner;
      this.calledNumbers := calledNumbers;
      this.connected := connected;
      available := [];
      current := None;
      autoPlay := false;
      if gameStarted {
        available := Remaining(calledNumbers);
        current := CurrentNumber(calledNumbers);
      }
      if gameStarted {
        available := AllNumbers();
        current := None;
        autoPlay := false;
      }
    }

    /**
     * New props. The derivation effect runs when `gameStarted` changed or
     * a new `calledNumbers` list arrived (`newList`; a list with other
     * contents is always a new one); the reset effect runs after it, when
     * `gameStarted` changed. Each acts only while the round runs.
     */
    method ReceiveProps(started: bool, w: Option<string>, called: seq<int>, newList: bool)
      requires Valid()
      requires called != calledNumbers ==> newList
      modifies this
      ensures Valid()
      ensures gameStarted == started && winner == w && calledNumbers == called
      ensures var derive := started && (started != old(gameStarted) || newList);
        var reset := started && started != old(gameStarted);
        && available == (if reset then AllNumbers() else if derive then Remaining(called) else old(available))
        && current == (if reset then None else if derive then CurrentNumber(called) else old(current))
        && autoPlay == (if reset then false else old(autoPlay))
      ensures started && newList && (old(gameStarted) || called == []) ==> InSync()
    {
      var startedChanged := started != gameStarted;
      gameStarted, winner, calledNumbers := started, w, called;
      if startedChanged || newList {
        if gameStarted {
          available := Remaining(calledNumbers);
          current := CurrentNumber(calledNumbers);
        }
      }
      if startedChanged {
        if gameStarted {
          available := AllNumbers();
          current := None;
          autoPlay := false;
          if calledNumbers == [] {
            ResetIsRemainingOfNothing();
          }
        }
      }
    }

    /**
     * `callNumber`: with a winner or nothing left to call it stops
     * auto-play and sends nothing; otherwise it shows an available number
     * picked at random and sends it to the server if a socket exists. When
     * the availability is in sync, the number is in 1..75 and not called.
     */
    method CallNumber() returns (emitted: Option<int>)
      requires Valid()
      modifies this
      ensures Valid()
      ensures emitted.Some? ==> 1 <= emitted.value <= 75
      ensures gameStarted == old(gameStarted) && winner == old(winner) && calledNumbers == old(calledNumbers)
      ensures available == old(available)
      ensures Rooms.Truthy(winner) || available == [] ==> emitted == None && current == old(current) && !autoPlay
      ensures !Rooms.Truthy(winner) && available != [] ==>
        && current.Some? && current.value in available && autoPlay == old(autoPlay)
        && emitted == (if connected then current else None)
      ensures old(InSync()) && gameStarted && emitted.Some? ==> 1 <= emitted.value <= 75 && emitted.value !in calledNumbers
    {
      if Rooms.Truthy(winner) || |available| == 0 {
        autoPlay := false;
        return None;
      }
      var randomIndex :| 0 <= randomIndex < |available|;
      var number := available[randomIndex];
      assert number in available;
      current := Some(number);
      emitted := if connected then Some(number) else None;
    }
  }
}
