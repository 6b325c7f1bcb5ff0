/** Per-move positional features and game-wide aggregates computed from extracted move
    records (`analyzeGame` and the helpers it calls). Distances are kept squared, so
    `distanceFromCenter < 5` is `distanceSq < 25` and `distanceFromCenter > 10` is
    `distanceSq > 100`; `Math.sqrt` enters only the aggression score, as a parameter. */
module SgfFeatures {
  import opened Wrappers
  import opened SgfTree

  datatype Quadrant = TopLeft | TopRight | BottomLeft | BottomRight | Center

  datatype Phase = Opening | Middlegame | Endgame

  /** One entry of `movePatterns`. `distanceSq` is the square of `distanceFromCenter`;
      `None` where that distance is NaN (a point whose row is NaN). */
  datatype MovePattern = MovePattern(
    moveNumber: nat,
    color: Colour,
    position: Point,
    distanceSq: Option<nat>,
    boardQuadrant: Quadrant,
    isCorner: bool,
    isSide: bool,
    isCenter: bool)

  /** The fields of the analysis that `analyzeGame` fills in. `aggressionLevel` is `None`
      where the source computes NaN. */
  datatype GameAnalysis = GameAnalysis(
    totalMoves: nat,
    blackMoves: nat,
    whiteMoves: nat,
    territoryBalance: real,
    aggressionLevel: Option<real>,
    gamePhase: Phase,
    movePatterns: seq<MovePattern>)

  /** The analysis an analyzer starts with. */
  const InitialAnalysis: GameAnalysis := GameAnalysis(0, 0, 0, 0.0, Some(0.0), Opening, [])

  /** Board centre line (both coordinates). */
  const CenterLine: int := 9

  /** Squared distance from the centre to a corner point: 9^2 + 9^2. */
  const MaxDistanceSq: nat := 162

  function Square(v: int): nat {
    if v < 0 then (-v) * (-v) else v * v
  }

  /** `calculateDistanceFromCenter`, squared: 0 for a pass. */
  function DistanceSq(p: Point): (d: Option<nat>)
    ensures p.Pass? ==> d == Some(0)
    ensures d.None? <==> p.NoRow?
  {
    match p
    case Pass => Some(0)
    case At(x, y) => Some(Square(x - CenterLine) + Square(y - CenterLine))
    case NoRow(_) => None
  }

  /** `getBoardQuadrant`. A point with a NaN row fails every comparison and falls through
      to the last line; a point with integer coordinates never does. */
  function BoardQuadrant(p: Point): (q: Quadrant)
    ensures q == Center <==> !p.At?
  {
    match p
    case At(x, y) =>
      if x < CenterLine && y < CenterLine then TopLeft
      else if x >= CenterLine && y < CenterLine then TopRight
      else if x < CenterLine && y >= CenterLine then BottomLeft
      else BottomRight
    case _ => Center
  }

  /** Within three lines of an edge (or beyond the board: there is no range check). */
  predicate NearEdge(v: int) {
    v <= 2 || v >= 16
  }

  lemma NearEdgeIsFar(v: int)
    requires NearEdge(v)
    ensures Square(v - CenterLine) >= 49
  {
    if v <= 2 {
      assert -(v - CenterLine) >= 7;
      assert (-(v - CenterLine)) * (-(v - CenterLine)) >= 7 * 7;
    } else {
      assert (v - CenterLine) * (v - CenterLine) >= 7 * 7;
    }
  }

  /** `isSideMove`; with a NaN row only the column test can succeed. Every side point is
      at distance at least 7 from the centre. */
  function IsSideMove(p: Point): (r: bool)
    ensures r ==> p != Pass
    ensures r && p.At? ==> DistanceSq(p).value >= 49
  {
    match p
    case At(x, y) =>
      if NearEdge(x) then NearEdgeIsFar(x); true
      else if NearEdge(y) then NearEdgeIsFar(y); true
      else false
    case NoRow(x) => NearEdge(x)
    case Pass => false
  }

  /** `isCornerMove`: a corner point is always a side point. */
  function IsCornerMove(p: Point): (r: bool)
    ensures r ==> p.At? && IsSideMove(p)
  {
    match p
    case At(x, y) => NearEdge(x) && NearEdge(y)
    case _ => false
  }

  /** `isCenterMove`: a centre point is never a side point. */
  function IsCenterMove(p: Point): (r: bool)
    ensures r ==> p.At? && !IsSideMove(p)
  {
    match p
    case At(x, y) => 6 <= x <= 12 && 6 <= y <= 12
    case _ => false
  }

  /** The pattern built for one move record: the record's number, colour and position with
      the features of that position; a corner is always a side, a centre never is. */
  function PatternOf(r: MoveRecord): (p: MovePattern)
    ensures p.moveNumber == r.moveNumber && p.color == r.color && p.position == r.position
    ensures p.distanceSq == DistanceSq(r.position)
    ensures p.isCorner ==> p.isSide
    ensures p.isCenter ==> !p.isSide
  {
    MovePattern(r.moveNumber, r.color, r.position, DistanceSq(r.position),
                BoardQuadrant(r.position), IsCornerMove(r.position), IsSideMove(r.position),
                IsCenterMove(r.position))
  }

  /** A pass gets distance 0, quadrant centre and no flag; a point with integer coordinates
      never gets quadrant centre. */
  lemma PatternOfPosition(r: MoveRecord)
    ensures r.position.Pass? ==>
              var m := PatternOf(r);
              m.distanceSq == Some(0) && m.boardQuadrant == Center && !m.isCorner && !m.isSide && !m.isCenter
    ensures r.position.At? ==> PatternOf(r).boardQuadrant != Center && PatternOf(r).distanceSq.Some?
  {
  }

  // ----- Counting and filtering -----

  /** `moves.filter(m => m.type === 'move')`, keeping order. */
  function MovesOnly(rs: seq<MoveRecord>): (ms: seq<MoveRecord>)
    ensures |ms| <= |rs|
    ensures forall i :: 0 <= i < |ms| ==> ms[i].kind == Move && ms[i] in rs
    ensures forall r :: r in rs && r.kind == Move ==> r in ms
  {
    if rs == [] then []
    else MovesOnly(rs[..|rs| - 1]) + (if rs[|rs| - 1].kind == Move then [rs[|rs| - 1]] else [])
  }

  /** `moves.filter(m => m.color === c && m.type === 'move').length` */
  function CountMovesOf(rs: seq<MoveRecord>, c: Colour): nat {
    if rs == [] then 0
    else CountMovesOf(rs[..|rs| - 1], c) + (if rs[|rs| - 1].kind == Move && rs[|rs| - 1].color == c then 1 else 0)
  }

  /** `movePatterns.filter(m => m.color === c).length` */
  function CountColour(ps: seq<MovePattern>, c: Colour): nat {
    if ps == [] then 0
    else CountColour(ps[..|ps| - 1], c) + (if ps[|ps| - 1].color == c then 1 else 0)
  }

  /** `analyzeMovePatterns`: one pattern per move record, setup records dropped, order kept. */
  function MovePatterns(rs: seq<MoveRecord>): (ps: seq<MovePattern>)
    ensures |ps| == |MovesOnly(rs)|
    ensures forall i :: 0 <= i < |ps| ==> ps[i] == PatternOf(MovesOnly(rs)[i])
  {
    seq(|MovesOnly(rs)|, i requires 0 <= i < |MovesOnly(rs)| => PatternOf(MovesOnly(rs)[i]))
  }

  /** Black and white move counts add up to the number of move records, and the pattern
      list has as many entries of each colour as there are move records of that colour. */
  lemma CountsAddUp(rs: seq<MoveRecord>)
    ensures CountMovesOf(rs, Black) + CountMovesOf(rs, White) == |MovesOnly(rs)|
    ensures CountColour(MovePatterns(rs), Black) == CountMovesOf(rs, Black)
    ensures CountColour(MovePatterns(rs), White) == CountMovesOf(rs, White)
  {
    MoveCountsAddUp(rs);
    PatternColourCount(rs, Black);
    PatternColourCount(rs, White);
  }

  lemma {:induction false} MoveCountsAddUp(rs: seq<MoveRecord>)
    ensures CountMovesOf(rs, Black) + CountMovesOf(rs, White) == |MovesOnly(rs)|
  {
    if rs != [] {
      MoveCountsAddUp(rs[..|rs| - 1]);
    }
  }

  lemma {:induction false} PatternColourCount(rs: seq<MoveRecord>, c: Colour)
    ensures CountColour(MovePatterns(rs), c) == CountMovesOf(rs, c)
  {
    if rs != [] {
      var init, last := rs[..|rs| - 1], rs[|rs| - 1];
      PatternColourCount(init, c);
      MovePatternsSnoc(rs);
      if last.kind == Move {
        CountColourSnoc(MovePatterns(init), PatternOf(last), c);
      } else {
        assert MovePatterns(rs) == MovePatterns(init) + [] == MovePatterns(init);
      }
    }
  }

  lemma CountColourSnoc(ps: seq<MovePattern>, p: MovePattern, c: Colour)
    ensures CountColour(ps + [p], c) == CountColour(ps, c) + (if p.color == c then 1 else 0)
  {
    assert (ps + [p])[..|ps|] == ps;
  }

  /** A record at the end adds its pattern when it is a move, and nothing otherwise. */
  lemma MovePatternsSnoc(rs: seq<MoveRecord>)
    requires rs != []
    ensures var last := rs[|rs| - 1];
            MovePatterns(rs) == MovePatterns(rs[..|rs| - 1]) + (if last.kind == Move then [PatternOf(last)] else [])
  {
    var init := rs[..|rs| - 1];
    assert MovesOnly(rs) == MovesOnly(init) + (if rs[|rs| - 1].kind == Move then [rs[|rs| - 1]] else []);
  }

  /** Move numbers of the records kept by the move filter strictly increase and stay within
      the length of the full list: the patterns are in extraction order. */
  lemma {:induction false} MovesOnlyInOrder(rs: seq<MoveRecord>)
    requires NumberedByPosition(rs)
    ensures forall i :: 0 <= i < |MovesOnly(rs)| ==> 0 < MovesOnly(rs)[i].moveNumber <= |rs|
    ensures forall i, j :: 0 <= i < j < |MovesOnly(rs)| ==> MovesOnly(rs)[i].moveNumber < MovesOnly(rs)[j].moveNumber
  {
    if rs != [] {
      var init := rs[..|rs| - 1];
      assert NumberedByPosition(init) by {
        forall i | 0 <= i < |init| ensures init[i] == rs[i] { }
      }
      MovesOnlyInOrder(init);
    }
  }

  /** The patterns of an extracted list carry strictly increasing move numbers. */
  lemma PatternsInExtractionOrder(root: Node, i: nat, j: nat)
    requires i < j < |MovePatterns(Extract(root).records)|
    ensures MovePatterns(Extract(root).records)[i].moveNumber < MovePatterns(Extract(root).records)[j].moveNumber
  {
    ExtractSpec(root);
    MovesOnlyInOrder(Extract(root).records);
  }

  // ----- Aggression -----

  /** What the model needs of `Math.sqrt` on the squared distances it is applied to. */
  ghost predicate SqrtLike(sqrt: nat -> real) {
    sqrt(0) == 0.0 && sqrt(MaxDistanceSq) > 0.0 && forall n: nat :: sqrt(n) >= 0.0
  }

  function Max(a: real, b: real): real {
    if a >= b then a else b
  }

  /** The per-move score `max(0, 1 - distanceFromCenter / sqrt(162))`; `None` is NaN,
      which `Math.max` propagates. */
  function AggressionScore(m: MovePattern, sqrt: nat -> real): (s: Option<real>)
    requires SqrtLike(sqrt)
    ensures s.None? <==> m.distanceSq.None?
    ensures s.Some? ==> 0.0 <= s.value <= 1.0
  {
    match m.distanceSq
    case None => None
    case Some(d) =>
      assert sqrt(d) / sqrt(MaxDistanceSq) >= 0.0;
      Some(Max(0.0, 1.0 - sqrt(d) / sqrt(MaxDistanceSq)))
  }

  /** `aggressionScores.reduce((sum, score) => sum + score, 0)`, left to right; NaN absorbs. */
  function SumScores(ps: seq<MovePattern>, sqrt: nat -> real): (s: Option<real>)
    requires SqrtLike(sqrt)
    ensures s.None? <==> exists i :: 0 <= i < |ps| && ps[i].distanceSq.None?
    ensures s.Some? ==> 0.0 <= s.value <= |ps| as real
  {
    if ps == [] then Some(0.0)
    else
      var init := ps[..|ps| - 1];
      match (SumScores(init, sqrt), AggressionScore(ps[|ps| - 1], sqrt))
      case (Some(a), Some(b)) =>
        assert forall i :: 0 <= i < |init| ==> init[i] == ps[i];
        Some(a + b)
      case (None, _) =>
        var i :| 0 <= i < |init| && init[i].distanceSq.None?;
        assert ps[i] == init[i];
        None
      case (_, None) => None
  }

  /** `analyzeSimpleAggression`: the mean score. With no moves the source divides 0 by 0
      and gets NaN; otherwise the mean lies in [0, 1]. */
  function AggressionLevel(ps: seq<MovePattern>, sqrt: nat -> real): (a: Option<real>)
    requires SqrtLike(sqrt)
    ensures |ps| == 0 ==> a.None?
    ensures a.None? <==> |ps| == 0 || exists i :: 0 <= i < |ps| && ps[i].distanceSq.None?
    ensures a.Some? ==> 0.0 <= a.value <= 1.0
  {
    if |ps| == 0 then None
    else
      match SumScores(ps, sqrt)
      case None => None
      case Some(total) =>
        var n := |ps| as real;
        assert total / n <= 1.0 by { assert total <= n; }
        Some(total / n)
  }

  /** A single move on the centre point gives the highest aggression, 1. */
  lemma CenterMoveIsFullyAggressive(m: MovePattern, sqrt: nat -> real)
    requires SqrtLike(sqrt)
    requires m.distanceSq == DistanceSq(At(CenterLine, CenterLine))
    ensures AggressionLevel([m], sqrt) == Some(1.0)
  {
    assert [m][..0] == [];
  }

  /** A move on a corner point of the board scores 0. */
  lemma CornerPointScoresZero(m: MovePattern, sqrt: nat -> real)
    requires SqrtLike(sqrt)
    requires m.distanceSq == DistanceSq(At(0, 0))
    ensures AggressionScore(m, sqrt) == Some(0.0)
  {
  }

  // ----- Territory -----

  /** corner 1.0, else side 0.5, else 0.1 */
  function TerritoryScore(m: MovePattern): real {
    if m.isCorner then 1.0 else if m.isSide then 0.5 else 0.1
  }

  /** The sum of the first `k` entries of `territoryScores`. */
  function PrefixScoreSum(ps: seq<MovePattern>, k: nat): real
    requires k <= |ps|
  {
    if k == 0 then 0.0 else PrefixScoreSum(ps, k - 1) + TerritoryScore(ps[k - 1])
  }

  lemma {:induction false} CountColoursAddUp(ps: seq<MovePattern>)
    ensures CountColour(ps, Black) + CountColour(ps, White) == |ps|
  {
    if ps != [] {
      CountColoursAddUp(ps[..|ps| - 1]);
    }
  }

  /** `analyzeSimpleTerritory` as written: each colour's filtered list is mapped through its
      own index into the score list of ALL patterns, so black gets the first `blackMoves`
      scores and white the first `whiteMoves` scores, whatever the colours of those moves. */
  function TerritoryBalance(ps: seq<MovePattern>): (b: real)
    ensures CountColour(ps, Black) == CountColour(ps, White) ==> b == 0.0
  {
    CountColoursAddUp(ps);
    PrefixScoreSum(ps, CountColour(ps, Black)) - PrefixScoreSum(ps, CountColour(ps, White))
  }

  function Flip(c: Colour): Colour {
    match c
    case Black => White
    case White => Black
  }

  /** The same moves with black and white exchanged. */
  function SwapColours(ps: seq<MovePattern>): (qs: seq<MovePattern>)
    ensures |qs| == |ps|
    ensures forall i :: 0 <= i < |ps| ==> qs[i] == ps[i].(color := Flip(ps[i].color))
  {
    seq(|ps|, i requires 0 <= i < |ps| => ps[i].(color := Flip(ps[i].color)))
  }

  lemma {:induction false} SwapCounts(ps: seq<MovePattern>, c: Colour)
    ensures CountColour(SwapColours(ps), c) == CountColour(ps, Flip(c))
  {
    if ps != [] {
      var init := ps[..|ps| - 1];
      SwapCounts(init, c);
      assert SwapColours(ps)[..|ps| - 1] == SwapColours(init);
    }
  }

  lemma {:induction false} SwapPrefixSum(ps: seq<MovePattern>, k: nat)
    requires k <= |ps|
    ensures PrefixScoreSum(SwapColours(ps), k) == PrefixScoreSum(ps, k)
  {
    if k > 0 {
      SwapPrefixSum(ps, k - 1);
    }
  }

  /** Exchanging the colours of all moves negates the balance. */
  lemma TerritoryBalanceAntisymmetric(ps: seq<MovePattern>)
    ensures TerritoryBalance(SwapColours(ps)) == -TerritoryBalance(ps)
  {
    SwapCounts(ps, Black);
    SwapCounts(ps, White);
    CountColoursAddUp(ps);
    SwapPrefixSum(ps, CountColour(ps, Black));
    SwapPrefixSum(ps, CountColour(ps, White));
  }

  /** The balance the scoring evidently means: the sum of black's own move scores minus
      the sum of white's own move scores. */
  function ColourScoreSum(ps: seq<MovePattern>, c: Colour): real {
    if ps == [] then 0.0
    else ColourScoreSum(ps[..|ps| - 1], c) + (if ps[|ps| - 1].color == c then TerritoryScore(ps[|ps| - 1]) else 0.0)
  }

  /** The balance with each colour summing its own moves' scores: it lies between minus the
      white move count and the black move count. */
  function TerritoryBalanceByColour(ps: seq<MovePattern>): (b: real)
    ensures -(CountColour(ps, White) as real) <= b <= CountColour(ps, Black) as real
  {
    ColourScoreSumBounds(ps, Black);
    ColourScoreSumBounds(ps, White);
    ColourScoreSum(ps, Black) - ColourScoreSum(ps, White)
  }

  /** Each of a colour's moves adds between 0.1 and 1 to its sum. */
  lemma {:induction false} ColourScoreSumBounds(ps: seq<MovePattern>, c: Colour)
    ensures 0.1 * CountColour(ps, c) as real <= ColourScoreSum(ps, c) <= CountColour(ps, c) as real
  {
    if ps != [] {
      ColourScoreSumBounds(ps[..|ps| - 1], c);
    }
  }

  lemma {:induction false} SwapColourScoreSum(ps: seq<MovePattern>, c: Colour)
    ensures ColourScoreSum(SwapColours(ps), c) == ColourScoreSum(ps, Flip(c))
  {
    if ps != [] {
      var init := ps[..|ps| - 1];
      SwapColourScoreSum(init, c);
      assert SwapColours(ps)[..|ps| - 1] == SwapColours(init);
    }
  }

  /** The by-colour balance is antisymmetric too, and each move moves it by its own score
      towards its own colour. */
  lemma TerritoryBalanceByColourSpec(ps: seq<MovePattern>, m: MovePattern)
    ensures TerritoryBalanceByColour(SwapColours(ps)) == -TerritoryBalanceByColour(ps)
    ensures TerritoryBalanceByColour(ps + [m]) ==
              TerritoryBalanceByColour(ps) + (if m.color == Black then TerritoryScore(m) else -TerritoryScore(m))
  {
    SwapColourScoreSum(ps, Black);
    SwapColourScoreSum(ps, White);
    assert (ps + [m])[..|ps + [m]| - 1] == ps;
  }

  /** A black corner move answered by a white centre move: as written the balance is 0
      (both colours are charged the first score, 1.0); by colour it is 1.0 - 0.1. */
  lemma TerritoryIndexingMismatch()
    ensures var ps := MovePatterns([MoveRecord(Move, Black, At(0, 0), 1), MoveRecord(Move, White, At(9, 9), 2)]);
            TerritoryBalance(ps) == 0.0 && TerritoryBalanceByColour(ps) == 0.9
  {
    var rs := [MoveRecord(Move, Black, At(0, 0), 1), MoveRecord(Move, White, At(9, 9), 2)];
    var ps := MovePatterns(rs);
    assert MovesOnly(rs) == rs by {
      assert rs[..1] == [rs[0]];
      assert rs[..1][..0] == [];
    }
    assert |ps| == 2 && ps[0] == PatternOf(rs[0]) && ps[1] == PatternOf(rs[1]);
    BlackCornerWhiteCentre(ps);
  }

  /** The scores of a black corner move followed by a white move that is neither corner nor
      side: 0 as written, 0.9 by colour. */
  lemma BlackCornerWhiteCentre(ps: seq<MovePattern>)
    requires |ps| == 2 && ps[0].color == Black && ps[1].color == White
    requires ps[0].isCorner && !ps[1].isCorner && !ps[1].isSide
    ensures TerritoryBalance(ps) == 0.0 && TerritoryBalanceByColour(ps) == 0.9
  {
    assert ps[..1] == [ps[0]];
    assert ps[..1][..0] == [];
    assert CountColour(ps[..1], Black) == 1 && CountColour(ps[..1], White) == 0;
    assert CountColour(ps, Black) == 1 && CountColour(ps, White) == 1;
    assert ColourScoreSum(ps[..1], Black) == 1.0 && ColourScoreSum(ps[..1], White) == 0.0;
    assert ColourScoreSum(ps, Black) == 1.0 && ColourScoreSum(ps, White) == 0.1;
  }

  // ----- Phase and the whole analysis -----

  /** `analyzeGamePhase`: opening up to 50 moves, middlegame up to 150, endgame above. */
  function GamePhase(totalMoves: nat): (ph: Phase)
    ensures ph == Opening <==> totalMoves <= 50
    ensures ph == Middlegame <==> 50 < totalMoves <= 150
    ensures ph == Endgame <==> totalMoves > 150
  {
    if totalMoves <= 50 then Opening
    else if totalMoves <= 150 then Middlegame
    else Endgame
  }

  /** The analysis `analyzeGame` leaves behind for a list of records. */
  function AnalysisOf(rs: seq<MoveRecord>, sqrt: nat -> real): (a: GameAnalysis)
    requires SqrtLike(sqrt)
    ensures a.movePatterns == MovePatterns(rs) && a.totalMoves == |a.movePatterns|
    ensures a.gamePhase == GamePhase(|a.movePatterns|)
    ensures a.aggressionLevel == AggressionLevel(a.movePatterns, sqrt)
    ensures a.territoryBalance == TerritoryBalanceByColour(a.movePatterns)
  {
    var ps := MovePatterns(rs);
    GameAnalysis(|MovesOnly(rs)|, CountMovesOf(rs, Black), CountMovesOf(rs, White),
                 TerritoryBalanceByColour(ps), AggressionLevel(ps, sqrt), GamePhase(|MovesOnly(rs)|), ps)
  }

  /** The aggregates agree with each other: totalMoves = blackMoves + whiteMoves = the number
      of patterns; the colour counts are those of the pattern list; the aggression level is
      NaN with no moves and within [0, 1] whenever it is a number; the balance lies between
      minus the white move count and the black move count. */
  lemma AnalysisConsistent(rs: seq<MoveRecord>, sqrt: nat -> real)
    requires SqrtLike(sqrt)
    ensures var a := AnalysisOf(rs, sqrt);
            && a.totalMoves == a.blackMoves + a.whiteMoves == |a.movePatterns|
            && a.blackMoves == CountColour(a.movePatterns, Black)
            && a.whiteMoves == CountColour(a.movePatterns, White)
            && (a.totalMoves == 0 ==> a.aggressionLevel.None?)
            && (a.aggressionLevel.Some? ==> 0.0 <= a.aggressionLevel.value <= 1.0)
            && -(a.whiteMoves as real) <= a.territoryBalance <= a.blackMoves as real
  {
    CountsAddUp(rs);
  }
}
