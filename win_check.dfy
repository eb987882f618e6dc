/**
 * The server-side win verifier `verifyWinningCard` of src/lib/socket.ts.
 *
 * A card arrives from a client as a column-major grid, `card[col][row]`,
 * of any shape: the server trusts the JSON it is given. The verifier reads
 * it with JavaScript's semantics: an index past the end of a column yields
 * `undefined` (never a called number), and indexing a missing column and
 * then calling `.every` on it throws a TypeError.
 */
module WinCheck {

  /** `card[col][row]`, as sent by a client. */
  type Card = seq<seq<int>>

  /** What one call of the verifier does: return a boolean, or throw. */
  datatype Verdict = Returned(win: bool) | Threw

  /** `calledSet.has(card[c][r])`: the cell exists and its number was called. */
  predicate CellCalled(card: Card, called: seq<int>, c: int, r: int)
  {
    0 <= c < |card| && 0 <= r < |card[c]| && card[c][r] in called
  }

  /** `isLineComplete(getRow(i))`: every column of the card has a called entry at row `i`. */
  predicate RowComplete(card: Card, called: seq<int>, i: int)
  {
    forall c | 0 <= c < |card| :: CellCalled(card, called, c, i)
  }

  /** `isLineComplete(card[i])` for a column that exists: all of its entries were called. */
  predicate ColumnComplete(card: Card, called: seq<int>, i: int)
    requires 0 <= i < |card|
  {
    forall r | 0 <= r < |card[i]| :: card[i][r] in called
  }

  /** `isLineComplete(diagonal1)`: the cells `card[i][i]`. */
  predicate DiagonalComplete(card: Card, called: seq<int>)
  {
    forall i | 0 <= i < 5 :: CellCalled(card, called, i, i)
  }

  /** `isLineComplete(diagonal2)`: the cells `card[i][4 - i]`. */
  predicate AntiDiagonalComplete(card: Card, called: seq<int>)
  {
    forall c, r | 0 <= c < 5 && r == 4 - c :: CellCalled(card, called, c, r)
  }

  /**
   * The verifier's outcome stated without its loop. With five columns or
   * more it is a win iff one of the rows 0..4, the columns 0..4 or the two
   * diagonals is complete. With fewer columns, the loop reaches the missing
   * column `|card|` and throws there, unless some row up to and including
   * that index, or some existing column, was complete first.
   */
  function WinVerdict(card: Card, called: seq<int>): Verdict
  {
    if |card| >= 5 then
      Returned((exists i | 0 <= i < 5 :: RowComplete(card, called, i) || ColumnComplete(card, called, i))
               || DiagonalComplete(card, called) || AntiDiagonalComplete(card, called))
    else if (exists i | 0 <= i <= |card| :: RowComplete(card, called, i))
         || (exists i | 0 <= i < |card| :: ColumnComplete(card, called, i)) then
      Returned(true)
    else
      Threw
  }

  /** `verifyWinningCard(card, calledNums)`: rows and columns in one loop with early return, then the diagonals. */
  method VerifyWinningCard(card: Card, called: seq<int>) returns (v: Verdict)
    ensures v == WinVerdict(card, called)
  {
    for i := 0 to 5
      invariant i <= |card|
      invariant forall j | 0 <= j < i :: j < |card| && !RowComplete(card, called, j) && !ColumnComplete(card, called, j)
    {
      if RowComplete(card, called, i) {
        return Returned(true);
      }
      if i >= |card| {
        // `card[i]` is undefined and `isLineComplete(undefined)` throws
        return Threw;
      }
      if ColumnComplete(card, called, i) {
        return Returned(true);
      }
    }
    var diagonal1 := DiagonalComplete(card, called);
    var diagonal2 := AntiDiagonalComplete(card, called);
    return Returned(diagonal1 || diagonal2);
  }

  // ----- The twelve lines of a 5x5 card, as a reference definition -----

  /** A card of exactly five columns of five numbers each. */
  predicate IsGrid<T>(g: seq<seq<T>>)
  {
    |g| == 5 && forall c | 0 <= c < 5 :: |g[c]| == 5
  }

  /** The lines the verifier recognises; no corners, diamond or 2x2 blocks. */
  datatype Line = Row(r: int) | Column(c: int) | Diagonal | AntiDiagonal

  /** All twelve of them. */
  function Lines(): (ls: seq<Line>)
    ensures |ls| == 12
  {
    [Row(0), Row(1), Row(2), Row(3), Row(4),
     Column(0), Column(1), Column(2), Column(3), Column(4),
     Diagonal, AntiDiagonal]
  }

  /** Whether cell (column `c`, row `r`) lies on `l`. */
  predicate OnLine(l: Line, c: int, r: int)
  {
    match l
    case Row(k) => r == k
    case Column(k) => c == k
    case Diagonal => c == r
    case AntiDiagonal => c + r == 4
  }

  /** Every number of a 5x5 card on line `l` has been called. */
  predicate LineCovered(card: Card, called: seq<int>, l: Line)
    requires IsGrid(card)
  {
    forall c, r | 0 <= c < 5 && 0 <= r < 5 && OnLine(l, c, r) :: card[c][r] in called
  }

  /** The win condition on a 5x5 card: some one of the twelve lines is covered. */
  predicate Bingo(card: Card, called: seq<int>)
    requires IsGrid(card)
  {
    exists l | l in Lines() :: LineCovered(card, called, l)
  }

  /** On a 5x5 card the verifier never throws, and accepts exactly when one of the twelve lines is covered. */
  lemma GridVerdict(card: Card, called: seq<int>)
    requires IsGrid(card)
    ensures WinVerdict(card, called) == Returned(Bingo(card, called))
  {
    if Bingo(card, called) {
      CoveredLineWins(card, called);
    }
    WinCoversLine(card, called);
  }

  /** A covered line makes the verifier accept. */
  lemma CoveredLineWins(card: Card, called: seq<int>)
    requires IsGrid(card) && Bingo(card, called)
    ensures WinVerdict(card, called) == Returned(true)
  {
    var l :| l in Lines() && LineCovered(card, called, l);
    match l
    case Row(k) =>
      assert RowComplete(card, called, k) by {
        forall c | 0 <= c < 5 ensures CellCalled(card, called, c, k) {
          assert OnLine(l, c, k);
        }
      }
    case Column(k) =>
      assert ColumnComplete(card, called, k) by {
        forall r | 0 <= r < 5 ensures card[k][r] in called {
          assert OnLine(l, k, r);
        }
      }
    case Diagonal =>
      assert DiagonalComplete(card, called) by {
        forall i | 0 <= i < 5 ensures CellCalled(card, called, i, i) {
          assert OnLine(l, i, i);
        }
      }
    case AntiDiagonal =>
      assert AntiDiagonalComplete(card, called) by {
        forall c, r | 0 <= c < 5 && r == 4 - c ensures CellCalled(card, called, c, r) {
          assert OnLine(l, c, r);
        }
      }
  }

  /** What the verifier accepts on a 5x5 card has a covered line. */
  lemma WinCoversLine(card: Card, called: seq<int>)
    requires IsGrid(card)
    ensures WinVerdict(card, called).Returned? && (WinVerdict(card, called).win ==> Bingo(card, called))
  {
    if WinVerdict(card, called).win {
      if i :| 0 <= i < 5 && RowComplete(card, called, i) {
        assert Row(i) in Lines();
        forall c, r | 0 <= c < 5 && 0 <= r < 5 && OnLine(Row(i), c, r) ensures card[c][r] in called {
          assert CellCalled(card, called, c, i);
        }
      } else if i :| 0 <= i < 5 && ColumnComplete(card, called, i) {
        assert Column(i) in Lines();
        assert LineCovered(card, called, Column(i));
      } else if DiagonalComplete(card, called) {
        assert Diagonal in Lines();
        forall c, r | 0 <= c < 5 && 0 <= r < 5 && OnLine(Diagonal, c, r) ensures card[c][r] in called {
          assert CellCalled(card, called, c, c);
        }
      } else {
        assert AntiDiagonal in Lines();
        forall c, r | 0 <= c < 5 && 0 <= r < 5 && OnLine(AntiDiagonal, c, r) ensures card[c][r] in called {
          assert CellCalled(card, called, c, r);
        }
      }
    }
  }

  /** A card with no columns at all is accepted whatever was called: `getRow(0)` is empty and `[].every` holds. */
  lemma EmptyCardAccepted(called: seq<int>)
    ensures WinVerdict([], called) == Returned(true)
  {
    assert RowComplete([], called, 0);
  }

  /** A card with one to four columns, none of them empty, makes the verifier throw while nothing has been called. */
  lemma ShortCardThrows(card: Card)
    requires 1 <= |card| < 5
    requires forall c | 0 <= c < |card| :: |card[c]| > 0
    ensures WinVerdict(card, []) == Threw
  {
    forall i | 0 <= i <= |card| ensures !RowComplete(card, [], i) {
      assert !CellCalled(card, [], 0, i);
    }
    forall i | 0 <= i < |card| ensures !ColumnComplete(card, [], i) {
      assert card[i][0] !in [];
    }
  }

  /** Calling more numbers never turns an accepted card into a rejected one. */
  lemma {:induction false} VerdictMonotone(card: Card, called: seq<int>, more: seq<int>)
    requires forall x | x in called :: x in more
    requires WinVerdict(card, called) == Returned(true)
    ensures WinVerdict(card, more) == Returned(true)
  {
    // every cell called before is called still
    forall c, r | CellCalled(card, called, c, r) ensures CellCalled(card, more, c, r) {
      var x := card[c][r];
      assert x in called;
    }
    if i :| 0 <= i <= |card| && i < 5 && RowComplete(card, called, i) {
      assert RowComplete(card, more, i);
    } else if i :| 0 <= i < |card| && i < 5 && ColumnComplete(card, called, i) {
      forall r | 0 <= r < |card[i]| ensures card[i][r] in more {
        var x := card[i][r];
        assert x in called;
      }
      assert ColumnComplete(card, more, i);
    } else {
      assert DiagonalComplete(card, called) || AntiDiagonalComplete(card, called);
    }
  }

  /** The standard card whose column `c` holds 15c+1 .. 15c+5 from top to bottom. */
  function SampleCard(): (card: Card)
    ensures IsGrid(card)
  {
    [[1, 2, 3, 4, 5], [16, 17, 18, 19, 20], [31, 32, 33, 34, 35],
     [46, 47, 48, 49, 50], [61, 62, 63, 64, 65]]
  }

  /** The four corners are not a winning shape for this verifier. */
  lemma CornersDoNotWin()
    ensures WinVerdict(SampleCard(), [1, 5, 61, 65]) == Returned(false)
  {
    var card, called := SampleCard(), [1, 5, 61, 65];
    // the middle column and the middle row each hold no called number
    forall i | 0 <= i < 5 ensures !RowComplete(card, called, i) && !ColumnComplete(card, called, i) {
      if i == 0 {
        assert !CellCalled(card, called, 1, 0) && card[0][2] !in called;
      } else if i == 1 {
        assert !CellCalled(card, called, 1, 1) && card[1][2] !in called;
      } else if i == 2 {
        assert !CellCalled(card, called, 1, 2) && card[2][2] !in called;
      } else if i == 3 {
        assert !CellCalled(card, called, 1, 3) && card[3][2] !in called;
      } else {
        assert !CellCalled(card, called, 1, 4) && card[4][2] !in called;
      }
    }
    assert !CellCalled(card, called, 1, 1);
    assert !CellCalled(card, called, 1, 3);
  }

  /** A completed row is a win: the first row of the sample card. */
  lemma FirstRowWins()
    ensures WinVerdict(SampleCard(), [1, 16, 31, 46, 61]) == Returned(true)
  {
    assert RowComplete(SampleCard(), [1, 16, 31, 46, 61], 0);
  }
}
