/** The board view of `GameBoard`: replaying a prefix of the move list onto an empty
    19 x 19 grid, and the previous/next navigation over move indices. */
module GameBoard {
  import opened Wrappers
  import opened SgfTree
  import opened SgfFeatures

  /** The end index `Array.prototype.slice` uses for `end` on a list of length `len`: a
      negative end counts back from the length, and the result is clamped to [0, len]. */
  function SliceEnd(len: nat, end: int): (e: nat)
    ensures e <= len
    ensures 0 <= end <= len ==> e == end
    ensures end > len ==> e == len
    ensures end < 0 ==> e == if len + end < 0 then 0 else len + end
  {
    if end < 0 then (if len + end < 0 then 0 else len + end)
    else if end > len then len
    else end
  }

  /** `movePatterns.slice(0, moveIndex + 1)`. */
  function Shown(ps: seq<MovePattern>, moveIndex: int): (shown: seq<MovePattern>)
    ensures shown <= ps
  {
    ps[..SliceEnd(|ps|, moveIndex + 1)]
  }

  /** For any index from -1 up, the moves shown are the first `moveIndex + 1` moves, or
      all of them when the index runs past the end. */
  lemma ShownPrefix(ps: seq<MovePattern>, moveIndex: int)
    requires moveIndex >= -1
    ensures |Shown(ps, moveIndex)| == if moveIndex + 1 <= |ps| then moveIndex + 1 else |ps|
    ensures forall i :: 0 <= i < |Shown(ps, moveIndex)| ==> Shown(ps, moveIndex)[i] == ps[i]
  {
  }

  /** A position whose row `board[y]` does not exist: `board[y][x] = ...` then throws. */
  predicate RowMissing(p: Point) {
    p.NoRow? || (p.At? && !(0 <= p.y < BoardSize))
  }

  /** The stone a replay of `ms` leaves at column x, row y: the colour of the last move
      played there, or none. */
  function CellAt(ms: seq<MovePattern>, x: int, y: int): (c: Option<Colour>)
    ensures c.Some? ==> exists i :: 0 <= i < |ms| && ms[i].position == At(x, y) && ms[i].color == c.value
  {
    if ms == [] then None
    else if ms[|ms| - 1].position == At(x, y) then Some(ms[|ms| - 1].color)
    else CellAt(ms[..|ms| - 1], x, y)
  }

  /** A cell holds colour c exactly when some move put c there and no later move was
      played on the same point; it is empty exactly when no move was played there. */
  lemma {:induction false} CellAtIsLastWrite(ms: seq<MovePattern>, x: int, y: int)
    ensures CellAt(ms, x, y).None? <==> forall i :: 0 <= i < |ms| ==> ms[i].position != At(x, y)
    ensures CellAt(ms, x, y).Some? ==>
              exists i :: 0 <= i < |ms| && ms[i].position == At(x, y) && ms[i].color == CellAt(ms, x, y).value
                          && forall j :: i < j < |ms| ==> ms[j].position != At(x, y)
  {
    if ms != [] {
      var n := |ms| - 1;
      CellAtIsLastWrite(ms[..n], x, y);
      if ms[n].position != At(x, y) {
        if CellAt(ms, x, y).Some? {
          var i :| 0 <= i < n && ms[..n][i].position == At(x, y) && ms[..n][i].color == CellAt(ms, x, y).value
                   && forall j :: i < j < n ==> ms[..n][j].position != At(x, y);
          assert ms[i] == ms[..n][i];
          assert forall j :: i < j < |ms| ==> ms[j].position != At(x, y) by {
            forall j | i < j < |ms|
              ensures ms[j].position != At(x, y)
            {
              if j < n {
                assert ms[j] == ms[..n][j];
              }
            }
          }
        } else {
          forall i | 0 <= i < |ms|
            ensures ms[i].position != At(x, y)
          {
            if i < n {
              assert ms[i] == ms[..n][i];
            }
          }
        }
      }
    }
  }

  /** A move on another point, or a pass, leaves the cell as it was. */
  lemma ElsewhereLeavesCell(ms: seq<MovePattern>, m: MovePattern, x: int, y: int)
    requires m.position != At(x, y)
    ensures CellAt(ms + [m], x, y) == CellAt(ms, x, y)
  {
    assert (ms + [m])[..|ms|] == ms;
  }

  /** `getBoardState`: a fresh 19 x 19 grid of empty cells, then every shown move with a
      position writes its colour at `board[y][x]`. `applied` counts the moves replayed: it
      falls short of the shown moves exactly when a move has no row to write into, where
      the source throws. Columns outside the grid write no cell. */
  method GetBoardState(ps: seq<MovePattern>, moveIndex: int) returns (board: array2<Option<Colour>>, applied: nat)
    ensures fresh(board) && board.Length0 == BoardSize && board.Length1 == BoardSize
    ensures applied <= |Shown(ps, moveIndex)|
    ensures forall j :: 0 <= j < applied ==> !RowMissing(Shown(ps, moveIndex)[j].position)
    ensures applied < |Shown(ps, moveIndex)| ==> RowMissing(Shown(ps, moveIndex)[applied].position)
    ensures forall y, x :: 0 <= y < BoardSize && 0 <= x < BoardSize ==>
              board[y, x] == CellAt(Shown(ps, moveIndex)[..applied], x, y)
  {
    board := new Option<Colour>[BoardSize, BoardSize]((y, x) => None);
    var movesToShow := Shown(ps, moveIndex);
    applied := 0;
    while applied < |movesToShow|
      invariant applied <= |movesToShow|
      invariant forall j :: 0 <= j < applied ==> !RowMissing(movesToShow[j].position)
      invariant forall y, x :: 0 <= y < BoardSize && 0 <= x < BoardSize ==>
                  board[y, x] == CellAt(movesToShow[..applied], x, y)
    {
      var move := movesToShow[applied];
      assert movesToShow[..applied + 1] == movesToShow[..applied] + [move];
      match move.position {
        case Pass =>
          forall y, x | 0 <= y < BoardSize && 0 <= x < BoardSize
            ensures CellAt(movesToShow[..applied + 1], x, y) == CellAt(movesToShow[..applied], x, y)
          {
            ElsewhereLeavesCell(movesToShow[..applied], move, x, y);
          }
        case NoRow(_) =>
          return;
        case At(x, y) =>
          if !(0 <= y < BoardSize) {
            return;
          }
          if 0 <= x < BoardSize {
            board[y, x] := Some(move.color);
          }
          forall y', x' | 0 <= y' < BoardSize && 0 <= x' < BoardSize && (y', x') != (y, x)
            ensures CellAt(movesToShow[..applied + 1], x', y') == CellAt(movesToShow[..applied], x', y')
          {
            ElsewhereLeavesCell(movesToShow[..applied], move, x', y');
          }
      }
      applied := applied + 1;
    }
  }

  // ----- Navigation -----

  /** `handlePrevious`: one move back, never below 0. */
  function PreviousIndex(i: int): (r: int)
    ensures r >= 0
    ensures i >= 1 ==> r == i - 1
    ensures i < 1 ==> r == 0
  {
    if i - 1 >= 0 then i - 1 else 0
  }

  /** `handleNext`: one move forward, never past the last move; -1 when there is none. */
  function NextIndex(i: int, count: nat): (r: int)
    ensures r <= count - 1
    ensures i + 1 <= count - 1 ==> r == i + 1
    ensures i + 1 > count - 1 ==> r == count - 1
  {
    if count - 1 <= i + 1 then count - 1 else i + 1
  }

  /** The move index of the board view, over a fixed list of `moveCount` moves. */
  class MoveNavigator {
    const moveCount: nat
    var currentMoveIndex: int

    /** The index stays on a move; with no moves it is 0 or -1. */
    predicate Valid()
      reads this
    {
      if moveCount > 0 then 0 <= currentMoveIndex < moveCount
      else -1 <= currentMoveIndex <= 0
    }

    constructor (count: nat)
      ensures moveCount == count && currentMoveIndex == 0
      ensures Valid()
    {
      moveCount := count;
      currentMoveIndex := 0;
    }

    method HandlePrevious()
      requires Valid()
      modifies this
      ensures currentMoveIndex == PreviousIndex(old(currentMoveIndex))
      ensures Valid()
    {
      currentMoveIndex := if currentMoveIndex - 1 >= 0 then currentMoveIndex - 1 else 0;
    }

    method HandleNext()
      requires Valid()
      modifies this
      ensures currentMoveIndex == NextIndex(old(currentMoveIndex), moveCount)
      ensures Valid()
    {
      currentMoveIndex := if moveCount - 1 <= currentMoveIndex + 1 then moveCount - 1 else currentMoveIndex + 1;
    }
  }

  /** The index after a run of button presses (true = next, false = previous) from 0. */
  function Navigate(presses: seq<bool>, count: nat): (i: int)
    ensures i <= if count == 0 then 0 else count - 1
  {
    if presses == [] then 0
    else
      var i := Navigate(presses[..|presses| - 1], count);
      if presses[|presses| - 1] then NextIndex(i, count) else PreviousIndex(i)
  }

  /** However the buttons are pressed, the index names a move of the list, or is 0 or -1
      when the list is empty: the board never replays past the end. */
  lemma {:induction false} NavigateStaysInRange(presses: seq<bool>, count: nat)
    ensures count > 0 ==> 0 <= Navigate(presses, count) < count
    ensures count == 0 ==> -1 <= Navigate(presses, count) <= 0
  {
    if presses != [] {
      NavigateStaysInRange(presses[..|presses| - 1], count);
    }
  }
}
