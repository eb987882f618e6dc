/**
 * The player's card component of src/components/BingoCard.tsx: card
 * generation, the marking derived from the called numbers, the cell toggle,
 * the client-side pattern check and the claim guard.
 *
 * Cards and markings are column-major, as in the source: `card[c][r]` is the
 * number in column `c` (B, I, N, G, O) and row `r`.
 */
module BingoCard {
  import opened Wrappers
  import WinCheck

  type Marks = seq<seq<bool>>

  // ----- Card generation -----

  /** The smallest number of column `c`: B holds 1-15, I 16-30, N 31-45, G 46-60, O 61-75. */
  function ColumnMin(c: int): int
  {
    15 * c + 1
  }

  /** A card as `generateBingoCard` builds it: 5x5, column `c` within its fifteen numbers, no number twice in a column. */
  predicate WellGenerated(card: WinCheck.Card)
  {
    && WinCheck.IsGrid(card)
    && (forall c, r | 0 <= c < 5 && 0 <= r < 5 :: ColumnMin(c) <= card[c][r] < ColumnMin(c) + 15)
    && (forall c, r, r' | 0 <= c < 5 && 0 <= r < r' < 5 :: card[c][r] != card[c][r'])
  }

  /** A generated card holds 25 pairwise distinct numbers of 1..75, none of them 0. */
  lemma GeneratedCardFacts(card: WinCheck.Card)
    requires WellGenerated(card)
    ensures forall c, r | 0 <= c < 5 && 0 <= r < 5 :: 1 <= card[c][r] <= 75
    ensures forall c, r, c', r' | 0 <= c < 5 && 0 <= r < 5 && 0 <= c' < 5 && 0 <= r' < 5 && (c != c' || r != r') ::
      card[c][r] != card[c'][r']
  {
    forall c, r, c', r' | 0 <= c < 5 && 0 <= r < 5 && 0 <= c' < 5 && 0 <= r' < 5 && (c != c' || r != r')
      ensures card[c][r] != card[c'][r']
    {
      if c == c' {
        if r < r' {
          assert card[c][r] != card[c][r'];
        } else {
          assert card[c][r'] != card[c][r];
        }
      }
    }
  }

  /** Fewer than `n` taken numbers cannot cover the `n` numbers from `lo` on. */
  lemma {:induction false} FreeValueExists(taken: set<int>, lo: int, n: nat)
    requires |taken| < n
    ensures exists v :: lo <= v < lo + n && v !in taken
  {
    var top := lo + n - 1;
    if top in taken {
      FreeValueExists(taken - {top}, lo, n - 1);
      var v :| lo <= v < lo + n - 1 && v !in taken - {top};
      assert v !in taken;
    }
  }

  /**
   * `generateBingoCard`. The rejection sampling with `Math.random` is an
   * arbitrary choice of a number of the column's range not used yet: the
   * choice is exactly the set of values the sampling can end with.
   */
  method GenerateBingoCard() returns (card: WinCheck.Card)
    ensures WellGenerated(card)
  {
    var a := new int[5, 5]((_, _) => 0);
    var usedNumbers: set<int> := {};
    for col := 0 to 5
      invariant forall v | v in usedNumbers :: 1 <= v < ColumnMin(col)
      invariant forall c, r | 0 <= c < col && 0 <= r < 5 :: ColumnMin(c) <= a[c, r] < ColumnMin(c) + 15
      invariant forall c, r, r' | 0 <= c < col && 0 <= r < r' < 5 :: a[c, r] != a[c, r']
    {
      usedNumbers := FillColumn(a, col, usedNumbers);
    }
    card := Contents(a);
  }

  /** One turn of the outer loop: the five rows of column `col`, each a number of the column's range not used before. */
  method FillColumn(a: array2<int>, col: int, usedNumbers: set<int>) returns (used: set<int>)
    requires a.Length0 == 5 && a.Length1 == 5 && 0 <= col < 5
    requires forall v | v in usedNumbers :: 1 <= v < ColumnMin(col)
    modifies a
    ensures forall c, r | 0 <= c < 5 && 0 <= r < 5 && c != col :: a[c, r] == old(a[c, r])
    ensures forall r | 0 <= r < 5 :: ColumnMin(col) <= a[col, r] < ColumnMin(col) + 15
    ensures forall r, r' | 0 <= r < r' < 5 :: a[col, r] != a[col, r']
    ensures forall v | v in used :: 1 <= v < ColumnMin(col + 1)
  {
    used := usedNumbers;
    var min := col * 15 + 1;
    var max := min + 14;
    ghost var inColumn: set<int> := {};
    for row := 0 to 5
      invariant forall v | v in used :: 1 <= v < min || v in inColumn
      invariant forall v | v in inColumn :: min <= v <= max
      invariant inColumn <= used
      invariant |inColumn| == row
      invariant forall r | 0 <= r < row :: a[col, r] in inColumn
      invariant forall r, r' | 0 <= r < r' < row :: a[col, r] != a[col, r']
      invariant forall c, r | 0 <= c < 5 && 0 <= r < 5 && c != col :: a[c, r] == old(a[c, r])
    {
      FreeValueExists(inColumn, min, 15);
      var number :| min <= number <= max && number !in used;
      used := used + {number};
      inColumn := inColumn + {number};
      a[col, row] := number;
    }
  }

  /** The numbers of a 5x5 array as the nested list the component keeps. */
  function Contents(a: array2<int>): (card: WinCheck.Card)
    requires a.Length0 == 5 && a.Length1 == 5
    reads a
    ensures WinCheck.IsGrid(card) && forall c, r | 0 <= c < 5 && 0 <= r < 5 :: card[c][r] == a[c, r]
  {
    seq(5, c requires 0 <= c < 5 reads a => seq(5, r requires 0 <= r < 5 reads a => a[c, r]))
  }

  // ----- Marking -----

  /** The initial, all-unmarked grid. */
  function Unmarked(): (m: Marks)
    ensures WinCheck.IsGrid(m) && forall c, r | 0 <= c < 5 && 0 <= r < 5 :: !m[c][r]
  {
    seq(5, _ => seq(5, _ => false))
  }

  /** A marking marks only cells holding 0 or a called number. */
  predicate MarksSound(card: WinCheck.Card, called: seq<int>, m: Marks)
  {
    forall c, r | 0 <= c < |m| && 0 <= r < |m[c]| && m[c][r] ::
      c < |card| && r < |card[c]| && (card[c][r] == 0 || card[c][r] in called)
  }

  /** The marking the component derives whenever the called numbers or the card change. */
  function Selection(card: WinCheck.Card, called: seq<int>): (m: Marks)
    ensures |m| == |card| && forall c | 0 <= c < |card| :: |m[c]| == |card[c]|
    ensures MarksSound(card, called, m)
    ensures forall c, r | 0 <= c < |card| && 0 <= r < |card[c]| && (card[c][r] == 0 || card[c][r] in called) :: m[c][r]
  {
    seq(|card|, c requires 0 <= c < |card| =>
      seq(|card[c]|, r requires 0 <= r < |card[c]| => card[c][r] == 0 || card[c][r] in called))
  }

  /** The grid with cell (`col`, `row`) flipped; a position outside the grid flips nothing. */
  function Toggle(m: Marks, col: int, row: int): (m': Marks)
    ensures |m'| == |m| && forall c | 0 <= c < |m| :: |m'[c]| == |m[c]|
    ensures forall c, r | 0 <= c < |m| && 0 <= r < |m[c]| :: m'[c][r] == (if c == col && r == row then !m[c][r] else m[c][r])
  {
    seq(|m|, i requires 0 <= i < |m| =>
      seq(|m[i]|, j requires 0 <= j < |m[i]| => if i == col && j == row then !m[i][j] else m[i][j]))
  }

  /** Flipping a cell that holds a called number keeps a marking sound. */
  lemma ToggleKeepsSound(card: WinCheck.Card, called: seq<int>, m: Marks, col: int, row: int)
    requires MarksSound(card, called, m)
    requires 0 <= col < |card| && 0 <= row < |card[col]| && card[col][row] in called
    ensures MarksSound(card, called, Toggle(m, col, row))
  {
  }

  // ----- The pattern check -----

  /** Every cell of the 5x5 marking on line `l` is marked. */
  predicate Marked(m: Marks, l: WinCheck.Line)
    requires WinCheck.IsGrid(m)
  {
    forall c, r | 0 <= c < 5 && 0 <= r < 5 && WinCheck.OnLine(l, c, r) :: m[c][r]
  }

  /** Some row, column or diagonal of the marking is fully marked. */
  predicate HasPattern(m: Marks)
    requires WinCheck.IsGrid(m)
  {
    exists l | l in WinCheck.Lines() :: Marked(m, l)
  }

  /** `checkWinningPattern`: rows, then columns, then the two diagonals, returning at the first full one. */
  method CheckWinningPattern(m: Marks) returns (b: bool)
    requires WinCheck.IsGrid(m)
    ensures b == HasPattern(m)
  {
    for row := 0 to 5
      invariant forall k | 0 <= k < row :: !Marked(m, WinCheck.Row(k))
    {
      var isRowComplete := forall col | 0 <= col < 5 :: m[col][row];
      if isRowComplete {
        assert WinCheck.Row(row) in WinCheck.Lines();
        assert Marked(m, WinCheck.Row(row));
        return true;
      }
    }
    for col := 0 to 5
      invariant forall k | 0 <= k < col :: !Marked(m, WinCheck.Column(k))
    {
      var isColComplete := forall r | 0 <= r < |m[col]| :: m[col][r];
      if isColComplete {
        assert WinCheck.Column(col) in WinCheck.Lines();
        assert Marked(m, WinCheck.Column(col));
        return true;
      }
    }
    var isMainDiagonalComplete := forall i | 0 <= i < 5 :: m[i][i];
    if isMainDiagonalComplete {
      assert WinCheck.Diagonal in WinCheck.Lines();
      assert Marked(m, WinCheck.Diagonal);
      return true;
    }
    var isOtherDiagonalComplete := forall c, r | 0 <= c < 5 && r == 4 - c :: m[c][r];
    if isOtherDiagonalComplete {
      assert WinCheck.AntiDiagonal in WinCheck.Lines();
      assert Marked(m, WinCheck.AntiDiagonal);
      return true;
    }
    forall l | l in WinCheck.Lines() ensures !Marked(m, l) {
      if l.AntiDiagonal? {
        var c, r :| 0 <= c < 5 && r == 4 - c && !m[c][r];
        assert WinCheck.OnLine(l, c, r);
      } else if l.Diagonal? {
        var i :| 0 <= i < 5 && !m[i][i];
        assert WinCheck.OnLine(l, i, i);
      }
    }
    return false;
  }

  /**
   * Client-side soundness: on a card without 0 entries, a sound marking
   * with a full line is a card the server's verifier accepts.
   */
  lemma ClaimSound(card: WinCheck.Card, called: seq<int>, m: Marks)
    requires WinCheck.IsGrid(card) && WinCheck.IsGrid(m)
    requires forall c, r | 0 <= c < 5 && 0 <= r < 5 :: card[c][r] != 0
    requires MarksSound(card, called, m) && HasPattern(m)
    ensures WinCheck.WinVerdict(card, called) == WinCheck.Returned(true)
  {
    var l :| l in WinCheck.Lines() && Marked(m, l);
    assert WinCheck.LineCovered(card, called, l);
    WinCheck.GridVerdict(card, called);
  }

  /**
   * The 0 entries are why: the client counts a 0 as marked, while the
   * server has no free-space rule and counts a 0 as called only once 0
   * itself was called.
   */
  lemma ZeroCellsWinOnlyOnTheClient()
    ensures var card := seq(5, _ => seq(5, _ => 0));
      && HasPattern(Selection(card, []))
      && WinCheck.WinVerdict(card, []) == WinCheck.Returned(false)
  {
    var card: WinCheck.Card := seq(5, _ => seq(5, _ => 0));
    assert WinCheck.Row(0) in WinCheck.Lines();
    assert Marked(Selection(card, []), WinCheck.Row(0));
    WinCheck.GridVerdict(card, []);
    forall l | l in WinCheck.Lines() ensures !WinCheck.LineCovered(card, [], l) {
      match l
      case Row(k) => assert WinCheck.OnLine(l, 0, k);
      case Column(k) => assert WinCheck.OnLine(l, k, 0);
      case Diagonal => assert WinCheck.OnLine(l, 0, 0);
      case AntiDiagonal => assert WinCheck.OnLine(l, 0, 4);
    }
  }

  /** The server has no free-space rule: once 0 itself was called, an all-0 card wins there too. */
  lemma ZeroCalledWins()
    ensures WinCheck.WinVerdict(seq(5, _ => seq(5, _ => 0)), [0]) == WinCheck.Returned(true)
  {
    var card: WinCheck.Card := seq(5, _ => seq(5, _ => 0));
    assert WinCheck.Row(0) in WinCheck.Lines() && WinCheck.LineCovered(card, [0], WinCheck.Row(0));
    WinCheck.GridVerdict(card, [0]);
  }

  // ----- The component -----

  /** The component's props (`calledNumbers`, `disabled`) and state (`card`, `selectedCells`). */
  class BingoCardView {
    var calledNumbers: seq<int>
    var disabled: bool
    var card: WinCheck.Card
    var selected: Marks

    /** Before the mount effect nothing is shown; after it the card is a generated one and every mark is sound. */
    ghost predicate Valid()
      reads this
    {
      if card == [] then selected == []
      else WellGenerated(card) && WinCheck.IsGrid(selected) && MarksSound(card, calledNumbers, selected)
    }

    /** The first render: `card` and `selectedCells` start empty. */
    constructor (calledNumbers: seq<int>, disabled: bool)
      ensures Valid()
      ensures this.calledNumbers == calledNumbers && this.disabled == disabled && card == [] && selected == []
    {
      this.calledNumbers := calledNumbers;
      this.disabled := disabled;
      card := [];
      selected := [];
    }

    /**
     * The mount effect: a fresh card and an unmarked grid; the new card
     * then triggers the marking effect, which derives the marks.
     */
    method Mount()
      modifies this
      ensures Valid()
      ensures WellGenerated(card) && selected == Selection(card, calledNumbers)
      ensures calledNumbers == old(calledNumbers) && disabled == old(disabled)
    {
      var newCard := GenerateBingoCard();
      card := newCard;
      selected := Unmarked();
      selected := Selection(card, calledNumbers);
    }

    /** New `calledNumbers` props and the marking effect they trigger, which does nothing before mount. */
    method SetCalledNumbers(called: seq<int>)
      requires Valid()
      modifies this
      ensures Valid()
      ensures calledNumbers == called && card == old(card) && disabled == old(disabled)
      ensures selected == if card == [] then old(selected) else Selection(card, called)
    {
      calledNumbers := called;
      if |card| == 0 {
        return;
      }
      selected := Selection(card, calledNumbers);
    }

    /** New `disabled` props; no effect depends on them. */
    method SetDisabled(d: bool)
      requires Valid()
      modifies this
      ensures Valid()
      ensures disabled == d && calledNumbers == old(calledNumbers) && card == old(card) && selected == old(selected)
    {
      disabled := d;
    }

    /**
     * `handleCellClick` on a rendered cell: flips that one cell, unless the
     * card is disabled, no marks exist yet, or the cell holds 0 or a number
     * not called.
     */
    method HandleCellClick(col: int, row: int)
      requires Valid()
      requires 0 <= col < |card| && 0 <= row < |card[col]|
      modifies this
      ensures Valid()
      ensures calledNumbers == old(calledNumbers) && disabled == old(disabled) && card == old(card)
      ensures selected ==
        if disabled || old(selected) == [] || card[col][row] == 0 || card[col][row] !in calledNumbers then old(selected)
        else Toggle(old(selected), col, row)
    {
      if disabled || |selected| == 0 {
        return;
      }
      var number := card[col][row];
      if number == 0 || number !in calledNumbers {
        return;
      }
      ToggleKeepsSound(card, calledNumbers, selected, col, row);
      selected := Toggle(selected, col, row);
    }

    /**
     * `handleBingoClaim`: the card is handed to `onBingoClaim` exactly when
     * the component is enabled, has a card and shows a full line; such a
     * card is one the server's verifier accepts against these called
     * numbers. (The alert on a failed check is not modelled.)
     */
    method HandleBingoClaim() returns (claimed: Option<WinCheck.Card>)
      requires Valid()
      ensures claimed.Some? <==> !disabled && card != [] && HasPattern(selected)
      ensures claimed.Some? ==> claimed.value == card
      ensures claimed.Some? ==> WinCheck.WinVerdict(card, calledNumbers) == WinCheck.Returned(true)
    {
      if disabled || |card| == 0 {
        return None;
      }
      var hasWinningPattern := CheckWinningPattern(selected);
      if !hasWinningPattern {
        return None;
      }
      GeneratedCardFacts(card);
      ClaimSound(card, calledNumbers, selected);
      return Some(card);
    }
  }
}
