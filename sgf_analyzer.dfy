/** The analyzer object: it keeps the parsed tree, the extracted move list and the
    analysis as fields, and its methods fill them in step by step (`SGFAnalyzer`). */
module SgfAnalyzer {
  import opened Wrappers
  import opened SgfTree
  import opened SgfFeatures

  /** The message `parseSGF` rethrows whatever went wrong. */
  const InvalidFormat: string := "Invalid SGF file format"

  class Analyzer {
    var gameData: Option<Node>
    var moves: seq<MoveRecord>
    var analysis: GameAnalysis

    constructor ()
      ensures gameData == None && moves == [] && analysis == InitialAnalysis
    {
      gameData := None;
      moves := [];
      analysis := InitialAnalysis;
    }

    /** The `forEach` over the values of an `AB` or `AW` property. */
    method PushSetups(c: Colour, codes: seq<string>)
      modifies this`moves
      ensures moves == old(moves) + SetupRecords(c, codes)
    {
      for i := 0 to |codes|
        invariant moves == old(moves) + SetupRecords(c, codes[..i])
      {
        var record := MoveRecord(Setup, c, ParsePosition(codes[i]), 0);
        assert SetupRecords(c, codes[..i + 1]) == SetupRecords(c, codes[..i]) + [record];
        moves := moves + [record];
      }
      assert codes[..|codes|] == codes;
    }

    /** The body of the extraction loop for one node: its `AB` and `AW` setups, then its
        first `B` and first `W` value as moves. Returns false where the source throws. */
    method ExtractNode(node: Node) returns (completed: bool)
      modifies this`moves
      ensures Walk(moves, completed) == NodeStep(PropertiesOf(node), old(moves))
    {
      var props := PropertiesOf(node);
      if "AB" in props {
        PushSetups(Black, props["AB"]);
      }
      if "AW" in props {
        PushSetups(White, props["AW"]);
      }
      assert moves == old(moves) + SetupRecords(Black, ValuesOf(props, "AB")) + SetupRecords(White, ValuesOf(props, "AW"));
      if "B" in props {
        if props["B"] == [] {
          return false;
        }
        moves := moves + [MoveRecord(Move, Black, ParsePosition(props["B"][0]), |moves| + 1)];
      }
      if "W" in props {
        if props["W"] == [] {
          return false;
        }
        moves := moves + [MoveRecord(Move, White, ParsePosition(props["W"][0]), |moves| + 1)];
      }
      completed := true;
    }

    /** `extractMoves`: walk from `gameData` along first children, pushing setup stones
        and moves. Returns false where the source throws (a `B` or `W` property without a
        value); `moves` then holds what was pushed before the throw. */
    method ExtractMoves() returns (completed: bool)
      modifies this`moves
      ensures gameData.None? ==> moves == [] && completed
      ensures gameData.Some? ==> Walk(moves, completed) == Extract(gameData.value)
    {
      moves := [];
      if gameData.None? {
        return true;
      }
      var node := gameData.value;
      while true
        invariant ExtractFrom(node, moves) == Extract(gameData.value)
        decreases |MainLine(node)|
      {
        completed := ExtractNode(node);
        if !completed {
          return;
        }
        if |node.children| > 0 {
          node := node.children[0];
        } else {
          return;
        }
      }
    }

    method AnalyzeMovePatterns()
      modifies this`analysis
      ensures analysis == old(analysis).(movePatterns := MovePatterns(moves))
    {
      analysis := analysis.(movePatterns := MovePatterns(moves));
    }

    method AnalyzeSimpleAggression(sqrt: nat -> real)
      requires SqrtLike(sqrt)
      modifies this`analysis
      ensures analysis == old(analysis).(aggressionLevel := AggressionLevel(old(analysis).movePatterns, sqrt))
    {
      analysis := analysis.(aggressionLevel := AggressionLevel(analysis.movePatterns, sqrt));
    }

    method AnalyzeSimpleTerritory()
      modifies this`analysis
      ensures analysis == old(analysis).(territoryBalance := TerritoryBalanceByColour(old(analysis).movePatterns))
    {
      analysis := analysis.(territoryBalance := TerritoryBalanceByColour(analysis.movePatterns));
    }

    method AnalyzeGamePhase()
      modifies this`analysis
      ensures analysis == old(analysis).(gamePhase := GamePhase(old(analysis).totalMoves))
    {
      analysis := analysis.(gamePhase := GamePhase(analysis.totalMoves));
    }

    /** `analyzeGame`: the counts, then patterns, aggression, territory and phase, each
        computed from what the previous steps stored. */
    method AnalyzeGame(sqrt: nat -> real)
      requires SqrtLike(sqrt)
      modifies this`analysis
      ensures analysis == AnalysisOf(moves, sqrt)
    {
      analysis := analysis.(totalMoves := |MovesOnly(moves)|,
                            blackMoves := CountMovesOf(moves, Black),
                            whiteMoves := CountMovesOf(moves, White));
      AnalyzeMovePatterns();
      AnalyzeSimpleAggression(sqrt);
      AnalyzeSimpleTerritory();
      AnalyzeGamePhase();
    }

    /** `parseSGF`, given what the foreign parser produced: the list of root nodes of the
        file's games, or the error it threw. The walk starts at the first root (no root: no
        moves). Any error, from the parser or from extraction, becomes "Invalid SGF file
        format". */
    method ParseSgf(parsed: Result<seq<Node>, string>, sqrt: nat -> real) returns (r: Result<GameAnalysis, string>)
      requires SqrtLike(sqrt)
      modifies this
      ensures parsed.Failure? ==>
                r == Failure(InvalidFormat) && gameData == old(gameData) && moves == old(moves)
                && analysis == old(analysis)
      ensures parsed.Success? ==>
                gameData == (if parsed.value == [] then None else Some(parsed.value[0]))
                && moves == ExtractFirstGame(parsed.value).records
      ensures parsed.Success? && ExtractFirstGame(parsed.value).completed ==>
                analysis == AnalysisOf(moves, sqrt) && r == Success(analysis)
      ensures parsed.Success? && !ExtractFirstGame(parsed.value).completed ==>
                analysis == old(analysis) && r == Failure(InvalidFormat)
    {
      if parsed.Failure? {
        return Failure(InvalidFormat);
      }
      gameData := if parsed.value == [] then None else Some(parsed.value[0]);
      var completed := ExtractMoves();
      if !completed {
        return Failure(InvalidFormat);
      }
      AnalyzeGame(sqrt);
      r := Success(analysis);
    }
  }

  // ----- The parser's return value -----

  /** What the SGF parser hands back, seen as a JavaScript value: a node, or a list of
      root nodes (one per game in the file), which has neither `properties` nor `children`. */
  datatype ParsedValue = NodeValue(node: Node) | RootList(roots: seq<Node>)

  /** `extractMoves` started on the parser's value itself, as the analyzer does. A list
      of roots is read as a node without properties and without children. */
  function ExtractParsedAsWritten(v: ParsedValue): (w: Walk)
    ensures v.NodeValue? ==> w == Extract(v.node)
    ensures v.RootList? ==> w.records == [] && w.completed
  {
    match v
    case NodeValue(n) => Extract(n)
    case RootList(_) => Extract(Node(None, []))
  }

  /** Extraction from the first game of a list of roots: the walk along that root's main
      line, with the completion condition and numbering of `ExtractSpec`. */
  function ExtractFirstGame(roots: seq<Node>): (w: Walk)
    ensures roots == [] ==> w.records == [] && w.completed
    ensures roots != [] ==> (w.completed <==> LineIsClean(roots[0]))
    ensures roots != [] && w.completed ==> w.records == NumberFrom(MainLineEntries(MainLine(roots[0])), 0)
  {
    if roots == [] then Walk([], true)
    else
      ExtractSpec(roots[0]);
      Extract(roots[0])
  }

  /** A one-game file whose root holds a black move: read as written, the list of roots
      yields no move at all; read from its first root, it yields that move. */
  lemma RootListLosesMoves()
    ensures var roots := [Node(Some(map["B" := ["pd"]]), [])];
            ExtractParsedAsWritten(RootList(roots)).records == []
            && ExtractFirstGame(roots).records == [MoveRecord(Move, Black, At(15, 3), 1)]
  {
    var p := map["B" := ["pd"]];
    assert ValuesOf(p, "AB") == [] && ValuesOf(p, "AW") == [];
    assert SetupRecords(Black, []) == [] && SetupRecords(White, []) == [];
  }
}
