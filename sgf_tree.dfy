/** The game-record tree handed over by the SGF parser, point decoding, and the walk
    along the main line that turns the tree into a flat list of move records
    (`SGFAnalyzer.extractMoves` / `parsePosition`). */
module SgfTree {
  import opened Wrappers

  /** A node's property bag: property identifier (`AB`, `AW`, `B`, `W`, ...) to its raw values. */
  type Properties = map<string, seq<string>>

  /** A node of the parsed tree. `properties` may be missing; only `children[0]` is ever followed. */
  datatype Node = Node(properties: Option<Properties>, children: seq<Node>)

  datatype Colour = Black | White

  /** A decoded point. `At` carries the letter offsets from 'a' with no range check;
      `NoRow` is what a one-letter code gives: its column, and a row that is NaN
      (the second character code of a one-letter string is NaN). */
  datatype Point = Pass | At(x: int, y: int) | NoRow(x: int)

  datatype Kind = Setup | Move

  /** `moveNumber` is 0 for setup stones. */
  datatype MoveRecord = MoveRecord(kind: Kind, color: Colour, position: Point, moveNumber: nat)

  /** The records pushed by a walk, and whether the walk reached the end of the main line
      (`false`: it threw part-way, and `records` holds what had been pushed before). */
  datatype Walk = Walk(records: seq<MoveRecord>, completed: bool)

  const BoardSize: nat := 19

  /** The code that SGF reserves for a pass on boards up to 19x19. */
  const PassCode: string := "tt"

  /** `currentNode.properties || {}` */
  function PropertiesOf(n: Node): Properties {
    match n.properties
    case Some(p) => p
    case None => map[]
  }

  function ValuesOf(p: Properties, id: string): seq<string> {
    if id in p then p[id] else []
  }

  /** `parsePosition`: the empty code and "tt" are passes; otherwise the first two
      character codes minus 'a' give column and row (a one-letter code gives only the column). */
  function ParsePosition(code: string): (p: Point)
    ensures p.Pass? <==> code == "" || code == PassCode
    ensures p.NoRow? <==> |code| == 1
    ensures p.NoRow? ==> p.x == code[0] as int - 'a' as int
    ensures p.At? ==> |code| >= 2 && p.x == code[0] as int - 'a' as int && p.y == code[1] as int - 'a' as int
  {
    if code == PassCode || code == "" then Pass
    else if |code| == 1 then NoRow(code[0] as int - 'a' as int)
    else At(code[0] as int - 'a' as int, code[1] as int - 'a' as int)
  }

  predicate OnBoard(x: int, y: int) {
    0 <= x < BoardSize && 0 <= y < BoardSize
  }

  /** A two-letter code whose letters both lie in 'a'..'s'. */
  predicate IsBoardCode(code: string) {
    |code| == 2 && 'a' <= code[0] <= 's' && 'a' <= code[1] <= 's'
  }

  /** The SGF code of an on-board point. */
  function EncodePoint(x: int, y: int): (code: string)
    requires OnBoard(x, y)
    ensures IsBoardCode(code)
  {
    [('a' as int + x) as char, ('a' as int + y) as char]
  }

  /** Every on-board point survives encoding and decoding. */
  lemma DecodeEncode(x: int, y: int)
    requires OnBoard(x, y)
    ensures ParsePosition(EncodePoint(x, y)) == At(x, y)
  {
    var code := EncodePoint(x, y);
    assert code != PassCode by { assert code[0] != 't'; }
  }

  /** Every board code decodes to an on-board point and encodes back to itself,
      so decoding is a bijection from board codes onto [0,18] x [0,18]. */
  lemma EncodeDecode(code: string)
    requires IsBoardCode(code)
    ensures ParsePosition(code).At?
    ensures OnBoard(ParsePosition(code).x, ParsePosition(code).y)
    ensures EncodePoint(ParsePosition(code).x, ParsePosition(code).y) == code
  {
    assert code != PassCode by { assert code[0] != 't'; }
    var p := ParsePosition(code);
    var e := EncodePoint(p.x, p.y);
    assert e[0] == code[0] && e[1] == code[1];
  }

  /** The setup records pushed for the values of one `AB` or `AW` property, in value order. */
  function SetupRecords(c: Colour, codes: seq<string>): seq<MoveRecord> {
    seq(|codes|, i requires 0 <= i < |codes| => MoveRecord(Setup, c, ParsePosition(codes[i]), 0))
  }

  /** A `B` or `W` property present with no value: `parsePosition(undefined)` throws. */
  predicate ThrowsOn(p: Properties) {
    ("B" in p && p["B"] == []) || ("W" in p && p["W"] == [])
  }

  /** Push the move of property `id` (its first value only), numbered one past the records so far. */
  function PushPlay(c: Colour, p: Properties, id: string, acc: seq<MoveRecord>): seq<MoveRecord> {
    if id in p && p[id] != [] then acc + [MoveRecord(Move, c, ParsePosition(p[id][0]), |acc| + 1)]
    else acc
  }

  /** One iteration of the extraction loop on a node's properties. */
  function NodeStep(p: Properties, acc: seq<MoveRecord>): (w: Walk)
    ensures w.completed <==> !ThrowsOn(p)
    ensures acc <= w.records
  {
    var setups := acc + SetupRecords(Black, ValuesOf(p, "AB")) + SetupRecords(White, ValuesOf(p, "AW"));
    if "B" in p && p["B"] == [] then Walk(setups, false)
    else
      var afterB := PushPlay(Black, p, "B", setups);
      if "W" in p && p["W"] == [] then Walk(afterB, false)
      else Walk(PushPlay(White, p, "W", afterB), true)
  }

  /** The walk from node `n` onwards along first children, `acc` having been pushed already. */
  function ExtractFrom(n: Node, acc: seq<MoveRecord>): (w: Walk)
    ensures acc <= w.records
    ensures !ThrowsOn(PropertiesOf(n)) ==> NodeStep(PropertiesOf(n), acc).records <= w.records
    ensures w.completed ==> !ThrowsOn(PropertiesOf(n))
    decreases n
  {
    var w := NodeStep(PropertiesOf(n), acc);
    if !w.completed || |n.children| == 0 then w
    else ExtractFrom(n.children[0], w.records)
  }

  /** `extractMoves` run from the root with an empty list. */
  function Extract(root: Node): (w: Walk)
    ensures ThrowsOn(PropertiesOf(root)) ==> !w.completed
    ensures !ThrowsOn(PropertiesOf(root)) ==> NodeStep(PropertiesOf(root), []).records <= w.records
  {
    ExtractFrom(root, [])
  }

  /** The main line: the root, its first child, that node's first child, and so on. */
  function MainLine(n: Node): (line: seq<Node>)
    ensures |line| >= 1 && line[0] == n
    ensures forall i :: 0 <= i < |line| - 1 ==> |line[i].children| > 0 && line[i + 1] == line[i].children[0]
    decreases n
  {
    [n] + if |n.children| == 0 then [] else MainLine(n.children[0])
  }

  // ----- An independent description of what extraction yields -----

  /** What a node contributes, before numbering: every `AB` value, every `AW` value,
      the first `B` value, the first `W` value, in that order. */
  function NodeEntries(p: Properties): seq<MoveRecord> {
    SetupRecords(Black, ValuesOf(p, "AB")) + SetupRecords(White, ValuesOf(p, "AW"))
      + PlayEntry(Black, p, "B") + PlayEntry(White, p, "W")
  }

  /** The move of property `id`, unnumbered, if it has a value. */
  function PlayEntry(c: Colour, p: Properties, id: string): seq<MoveRecord> {
    if id in p && p[id] != [] then [MoveRecord(Move, c, ParsePosition(p[id][0]), 0)] else []
  }

  function MainLineEntries(line: seq<Node>): seq<MoveRecord> {
    if line == [] then [] else NodeEntries(PropertiesOf(line[0])) + MainLineEntries(line[1..])
  }

  /** Number the move records by their position in the whole list, `before` records preceding. */
  function NumberFrom(rs: seq<MoveRecord>, before: nat): seq<MoveRecord> {
    seq(|rs|, i requires 0 <= i < |rs| =>
      if rs[i].kind == Move then rs[i].(moveNumber := before + i + 1) else rs[i].(moveNumber := 0))
  }

  /** Setup records carry 0; a move record carries the count of records before it, plus one. */
  ghost predicate NumberedByPosition(rs: seq<MoveRecord>) {
    forall i :: 0 <= i < |rs| ==> rs[i].moveNumber == (if rs[i].kind == Move then i + 1 else 0)
  }

  lemma NumberFromAppend(a: seq<MoveRecord>, b: seq<MoveRecord>, before: nat)
    ensures NumberFrom(a + b, before) == NumberFrom(a, before) + NumberFrom(b, before + |a|)
  {
    var l, r := NumberFrom(a + b, before), NumberFrom(a, before) + NumberFrom(b, before + |a|);
    assert |l| == |r|;
    forall i | 0 <= i < |l| ensures l[i] == r[i] {
      if i >= |a| { assert (a + b)[i] == b[i - |a|]; }
    }
  }

  /** All records of `rs` are setup records numbered 0. */
  ghost predicate AllSetups(rs: seq<MoveRecord>) {
    forall i :: 0 <= i < |rs| ==> rs[i].kind == Setup && rs[i].moveNumber == 0
  }

  lemma AppendSetupsNumbered(acc: seq<MoveRecord>, s: seq<MoveRecord>)
    requires NumberedByPosition(acc) && AllSetups(s)
    ensures NumberedByPosition(acc + s)
    ensures NumberFrom(s, |acc|) == s
  {
    forall i | |acc| <= i < |acc + s| ensures (acc + s)[i] == s[i - |acc|] { }
  }

  lemma PushPlaySpec(c: Colour, p: Properties, id: string, acc: seq<MoveRecord>)
    requires NumberedByPosition(acc)
    ensures NumberedByPosition(PushPlay(c, p, id, acc))
    ensures PushPlay(c, p, id, acc) == acc + NumberFrom(PlayEntry(c, p, id), |acc|)
  {
  }

  /** The setup stones of a node, appended to numbered records, stay numbered. */
  lemma SetupsNumbered(p: Properties, acc: seq<MoveRecord>)
    requires NumberedByPosition(acc)
    ensures var s := acc + SetupRecords(Black, ValuesOf(p, "AB")) + SetupRecords(White, ValuesOf(p, "AW"));
            NumberedByPosition(s) && acc <= s
    ensures NumberFrom(SetupRecords(Black, ValuesOf(p, "AB")) + SetupRecords(White, ValuesOf(p, "AW")), |acc|)
              == SetupRecords(Black, ValuesOf(p, "AB")) + SetupRecords(White, ValuesOf(p, "AW"))
  {
    var setups := SetupRecords(Black, ValuesOf(p, "AB")) + SetupRecords(White, ValuesOf(p, "AW"));
    assert AllSetups(setups);
    AppendSetupsNumbered(acc, setups);
    assert acc + setups == acc + SetupRecords(Black, ValuesOf(p, "AB")) + SetupRecords(White, ValuesOf(p, "AW"));
  }

  /** One node's step completes unless it has an empty `B` or `W`, and only appends
      numbered records. */
  lemma NodeStepNumbered(p: Properties, acc: seq<MoveRecord>)
    requires NumberedByPosition(acc)
    ensures NodeStep(p, acc).completed == !ThrowsOn(p)
    ensures acc <= NodeStep(p, acc).records
    ensures NumberedByPosition(NodeStep(p, acc).records)
  {
    var s := acc + SetupRecords(Black, ValuesOf(p, "AB")) + SetupRecords(White, ValuesOf(p, "AW"));
    SetupsNumbered(p, acc);
    var afterB := PushPlay(Black, p, "B", s);
    PushPlaySpec(Black, p, "B", s);
    PushPlaySpec(White, p, "W", afterB);
  }

  /** A completed step appends the node's entries, numbered from the records before. */
  lemma NodeStepRecords(p: Properties, acc: seq<MoveRecord>)
    requires NumberedByPosition(acc) && !ThrowsOn(p)
    ensures NodeStep(p, acc).records == acc + NumberFrom(NodeEntries(p), |acc|)
  {
    var setups := SetupRecords(Black, ValuesOf(p, "AB")) + SetupRecords(White, ValuesOf(p, "AW"));
    var bs, ws := PlayEntry(Black, p, "B"), PlayEntry(White, p, "W");
    var s := acc + setups;
    SetupsNumbered(p, acc);
    assert s == acc + SetupRecords(Black, ValuesOf(p, "AB")) + SetupRecords(White, ValuesOf(p, "AW"));
    var afterB := PushPlay(Black, p, "B", s);
    PushPlaySpec(Black, p, "B", s);
    PushPlaySpec(White, p, "W", afterB);
    assert NodeStep(p, acc).records == PushPlay(White, p, "W", afterB);
    NumberThree(acc, setups, bs, ws);
  }

  /** Numbering three consecutive pieces one after another numbers their concatenation. */
  lemma NumberThree(acc: seq<MoveRecord>, setups: seq<MoveRecord>, bs: seq<MoveRecord>, ws: seq<MoveRecord>)
    requires NumberFrom(setups, |acc|) == setups
    ensures acc + setups + NumberFrom(bs, |acc| + |setups|) + NumberFrom(ws, |acc| + |setups| + |bs|)
              == acc + NumberFrom(setups + bs + ws, |acc|)
  {
    calc {
      acc + setups + NumberFrom(bs, |acc| + |setups|) + NumberFrom(ws, |acc| + |setups| + |bs|);
      acc + (NumberFrom(setups, |acc|) + NumberFrom(bs, |acc| + |setups|) + NumberFrom(ws, |acc| + |setups| + |bs|));
      { NumberFromAppend(setups, bs, |acc|); }
      acc + (NumberFrom(setups + bs, |acc|) + NumberFrom(ws, |acc| + |setups + bs|));
      { NumberFromAppend(setups + bs, ws, |acc|); }
      acc + NumberFrom(setups + bs + ws, |acc|);
    }
  }

  lemma NodeStepSpec(p: Properties, acc: seq<MoveRecord>)
    requires NumberedByPosition(acc)
    ensures NodeStep(p, acc).completed == !ThrowsOn(p)
    ensures acc <= NodeStep(p, acc).records
    ensures NumberedByPosition(NodeStep(p, acc).records)
    ensures NodeStep(p, acc).completed ==>
              NodeStep(p, acc).records == acc + NumberFrom(NodeEntries(p), |acc|)
  {
    NodeStepNumbered(p, acc);
    if !ThrowsOn(p) {
      NodeStepRecords(p, acc);
    }
  }

  /** No node of the main line from `n` has a `B` or `W` property without values. */
  ghost predicate LineIsClean(n: Node) {
    forall i :: 0 <= i < |MainLine(n)| ==> !ThrowsOn(PropertiesOf(MainLine(n)[i]))
  }

  lemma LineIsCleanStep(n: Node)
    ensures |n.children| == 0 ==> (LineIsClean(n) <==> !ThrowsOn(PropertiesOf(n)))
    ensures |n.children| > 0 ==>
              (LineIsClean(n) <==> !ThrowsOn(PropertiesOf(n)) && LineIsClean(n.children[0]))
  {
    var line := MainLine(n);
    if |n.children| == 0 {
      assert line == [n];
    } else {
      var c := n.children[0];
      assert line == [n] + MainLine(c);
      if LineIsClean(n) {
        forall i | 0 <= i < |MainLine(c)| ensures !ThrowsOn(PropertiesOf(MainLine(c)[i])) {
          assert MainLine(c)[i] == line[i + 1];
        }
      }
      if !ThrowsOn(PropertiesOf(n)) && LineIsClean(c) {
        forall i | 0 <= i < |line| ensures !ThrowsOn(PropertiesOf(line[i])) {
          if i > 0 { assert line[i] == MainLine(c)[i - 1]; }
        }
      }
    }
  }

  /** The walk from `n` completes exactly when its main line is clean, and only appends
      correctly numbered records to what was pushed before. */
  lemma {:induction false} ExtractFromCompletes(n: Node, acc: seq<MoveRecord>)
    requires NumberedByPosition(acc)
    ensures ExtractFrom(n, acc).completed <==> LineIsClean(n)
    ensures acc <= ExtractFrom(n, acc).records
    ensures NumberedByPosition(ExtractFrom(n, acc).records)
    decreases n
  {
    NodeStepSpec(PropertiesOf(n), acc);
    LineIsCleanStep(n);
    var w := NodeStep(PropertiesOf(n), acc);
    if w.completed && |n.children| > 0 {
      ExtractFromCompletes(n.children[0], w.records);
    }
  }

  /** A completed walk from `n` appends the main line's entries, numbered by position. */
  lemma {:induction false} ExtractFromRecords(n: Node, acc: seq<MoveRecord>)
    requires NumberedByPosition(acc)
    requires ExtractFrom(n, acc).completed
    ensures ExtractFrom(n, acc).records == acc + NumberFrom(MainLineEntries(MainLine(n)), |acc|)
    decreases n
  {
    var p := PropertiesOf(n);
    var w := NodeStep(p, acc);
    assert w.completed;
    assert NumberedByPosition(w.records) && w.records == acc + NumberFrom(NodeEntries(p), |acc|) by {
      NodeStepSpec(p, acc);
    }
    if |n.children| == 0 {
      assert MainLine(n) == [n];
      assert MainLineEntries([n]) == NodeEntries(p) + MainLineEntries([]);
    } else {
      var c := n.children[0];
      var rest := MainLineEntries(MainLine(c));
      assert MainLineEntries(MainLine(n)) == NodeEntries(p) + rest by {
        assert MainLine(n) == [n] + MainLine(c);
        assert MainLine(n)[1..] == MainLine(c);
      }
      ExtractFromRecords(c, w.records);
      RecordsJoin(acc, NodeEntries(p), rest, w.records);
      assert ExtractFrom(n, acc).records == ExtractFrom(c, w.records).records;
    }
  }

  /** Numbering one node's entries after `acc`, then the rest after those, numbers the
      entries of both after `acc`. */
  lemma RecordsJoin(acc: seq<MoveRecord>, e: seq<MoveRecord>, rest: seq<MoveRecord>, records: seq<MoveRecord>)
    requires records == acc + NumberFrom(e, |acc|)
    ensures records + NumberFrom(rest, |records|) == acc + NumberFrom(e + rest, |acc|)
  {
    NumberFromAppend(e, rest, |acc|);
  }

  /** What `extractMoves` produces from a root: it completes exactly when no main-line node
      has a `B` or `W` property without values; move numbers count every record before them
      (setup records included) plus one, setups carry 0; and the records are the main-line
      nodes' contributions, in node order, each node giving its `AB`, `AW`, first `B`,
      first `W` values in that order. */
  lemma ExtractSpec(root: Node)
    ensures Extract(root).completed <==> LineIsClean(root)
    ensures NumberedByPosition(Extract(root).records)
    ensures Extract(root).completed ==>
              Extract(root).records == NumberFrom(MainLineEntries(MainLine(root)), 0)
  {
    ExtractFromCompletes(root, []);
    if Extract(root).completed {
      ExtractFromRecords(root, []);
    }
  }

  /** Move numbers strictly increase along the extracted list. */
  lemma MoveNumbersIncrease(root: Node, i: nat, j: nat)
    requires i < j < |Extract(root).records|
    requires Extract(root).records[i].kind == Move && Extract(root).records[j].kind == Move
    ensures Extract(root).records[i].moveNumber < Extract(root).records[j].moveNumber
  {
    ExtractSpec(root);
  }

  /** Setup stones shift the numbering: one black setup stone followed by a black move
      gives that move number 2, not 1. */
  lemma SetupShiftsMoveNumber()
    ensures Extract(Node(Some(map["AB" := ["dd"], "B" := ["pp"]]), [])).records
            == [MoveRecord(Setup, Black, At(3, 3), 0), MoveRecord(Move, Black, At(15, 15), 2)]
  {
    var p := map["AB" := ["dd"], "B" := ["pp"]];
    assert ValuesOf(p, "AW") == [];
    assert SetupRecords(White, []) == [];
    assert SetupRecords(Black, ["dd"]) == [MoveRecord(Setup, Black, At(3, 3), 0)];
  }

  /** Only the first child is followed: the other children never influence the result. */
  lemma ExtractIgnoresVariations(n: Node, others: seq<Node>)
    requires |n.children| > 0
    ensures Extract(n) == Extract(n.(children := n.children[..1] + others))
  {
    var m := n.(children := n.children[..1] + others);
    assert m.children[0] == n.children[0];
    assert PropertiesOf(m) == PropertiesOf(n);
  }

  /** The main line alone: each node keeps its properties and only its first child. */
  function Prune(n: Node): (m: Node)
    ensures m.properties == n.properties
    ensures |m.children| == if |n.children| == 0 then 0 else 1
    decreases n
  {
    Node(n.properties, if |n.children| == 0 then [] else [Prune(n.children[0])])
  }

  /** At every depth only the first child is followed: removing every variation, however
      deep it branches, leaves the walk unchanged. */
  lemma {:induction false} ExtractFromIgnoresVariations(n: Node, acc: seq<MoveRecord>)
    ensures ExtractFrom(n, acc) == ExtractFrom(Prune(n), acc)
    decreases n
  {
    assert PropertiesOf(Prune(n)) == PropertiesOf(n);
    if |n.children| > 0 {
      ExtractFromIgnoresVariations(n.children[0], NodeStep(PropertiesOf(n), acc).records);
    }
  }
}
