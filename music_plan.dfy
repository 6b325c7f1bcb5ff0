/** The deterministic part of `MusicGenerator`: game statistics to scale, key and tempo;
    the move list cut into sections; each section turned into four note lists. Durations,
    velocities and times are the source's decimal constants, exact as reals. */
module MusicPlan {
  import opened Wrappers
  import opened SgfTree
  import opened SgfFeatures

  datatype ScaleName = MinorScale | MajorScale | LydianScale

  /** The three seven-note tables of `getScaleForGame`. */
  function ScaleTable(s: ScaleName): (t: seq<string>)
    ensures |t| == 7
  {
    match s
    case MinorScale => ["C", "D", "Eb", "F", "G", "Ab", "Bb"]
    case MajorScale => ["C", "D", "E", "F", "G", "A", "B"]
    case LydianScale => ["C", "D", "E", "F#", "G", "A", "B"]
  }

  /** `value > bound` where the value may be NaN or undefined (then the comparison is false). */
  predicate Above(v: Option<real>, bound: real) {
    v.Some? && v.value > bound
  }

  predicate Below(v: Option<nat>, bound: nat) {
    v.Some? && v.value < bound
  }

  predicate Beyond(v: Option<nat>, bound: nat) {
    v.Some? && v.value > bound
  }

  /** A field that may be missing, read for its truthiness. */
  predicate Truthy(b: Option<bool>) {
    b == Some(true)
  }

  /** `getScaleForGame`: minor above 0.7, major above 0.4, otherwise lydian; a NaN
      aggression fails both comparisons and gives lydian. */
  function ScaleForGame(aggression: Option<real>): (s: ScaleName)
    ensures s == MinorScale <==> aggression.Some? && aggression.value > 0.7
    ensures s == MajorScale <==> aggression.Some? && 0.4 < aggression.value <= 0.7
    ensures s == LydianScale <==> aggression.None? || aggression.value <= 0.4
  {
    if Above(aggression, 0.7) then MinorScale
    else if Above(aggression, 0.4) then MajorScale
    else LydianScale
  }

  /** `getKeyForGame`: C when black leads by more than 0.5, F when white does, else G. */
  function KeyForGame(balance: real): (k: string)
    ensures k == "C" <==> balance > 0.5
    ensures k == "F" <==> balance < -0.5
    ensures k == "G" <==> -0.5 <= balance <= 0.5
  {
    if balance > 0.5 then "C"
    else if balance < -0.5 then "F"
    else "G"
  }

  /** `getTempoForGame`: 140, 130 or 110 by aggression, 20 less beyond 200 moves. */
  function TempoForGame(aggression: Option<real>, totalMoves: nat): (t: int)
    ensures t in {90, 110, 120, 130, 140}
  {
    var base := if Above(aggression, 0.7) then 140 else if Above(aggression, 0.4) then 130 else 110;
    if totalMoves > 200 then base - 20 else base
  }

  /** Scale and tempo are chosen by the same aggression bands. */
  lemma ScaleAndTempoShareBands(aggression: Option<real>, totalMoves: nat)
    ensures TempoForGame(aggression, totalMoves) ==
              (match ScaleForGame(aggression)
               case MinorScale => 140
               case MajorScale => 130
               case LydianScale => 110)
              - (if totalMoves > 200 then 20 else 0)
    ensures ScaleForGame(aggression) == MinorScale <==> TempoForGame(aggression, 0) == 140
    ensures ScaleForGame(aggression) == MajorScale <==> TempoForGame(aggression, 0) == 130
    ensures ScaleForGame(aggression) == LydianScale <==> TempoForGame(aggression, 0) == 110
  {
  }

  // ----- Per-move notes -----

  /** What `createSection` reads of a move. Moves of the analysis carry the distance and
      the corner/side flags but no `aggression`; the placeholder moves carry only
      `aggression`. */
  datatype SectionMove = SectionMove(
    color: Colour,
    distanceSq: Option<nat>,
    isCorner: Option<bool>,
    isSide: Option<bool>,
    aggression: Option<real>)

  function FromPattern(m: MovePattern): SectionMove {
    SectionMove(m.color, m.distanceSq, Some(m.isCorner), Some(m.isSide), None)
  }

  function FromPatterns(ps: seq<MovePattern>): (ms: seq<SectionMove>)
    ensures |ms| == |ps|
  {
    seq(|ps|, i requires 0 <= i < |ps| => FromPattern(ps[i]))
  }

  /** The four placeholder moves of the fallback section. */
  const FallbackMoves: seq<SectionMove> := [
    SectionMove(Black, None, None, None, Some(0.5)),
    SectionMove(White, None, None, None, Some(0.4)),
    SectionMove(Black, None, None, None, Some(0.6)),
    SectionMove(White, None, None, None, Some(0.3))
  ]

  /** `distanceFromCenter < 5`, squared. */
  predicate NearCenter(m: SectionMove) {
    Below(m.distanceSq, 25)
  }

  /** 5 near the centre, 3 beyond distance 10, else 4. */
  function Octave(m: SectionMove): (o: string)
    ensures o == "5" <==> m.distanceSq.Some? && m.distanceSq.value < 25
    ensures o == "3" <==> m.distanceSq.Some? && m.distanceSq.value > 100
    ensures o == "4" <==> m.distanceSq.None? || 25 <= m.distanceSq.value <= 100
  {
    if NearCenter(m) then "5"
    else if Beyond(m.distanceSq, 100) then "3"
    else "4"
  }

  /** The scale index of `getNoteForMove`, reduced modulo the scale length at each step. */
  function NoteIndex(m: SectionMove, index: nat): nat {
    var base := index % 7;
    var placed := if Truthy(m.isCorner) then (base + 2) % 7
                  else if Truthy(m.isSide) then (base + 4) % 7
                  else base;
    if m.color == Black then (placed + 1) % 7 else placed
  }

  /** The index is `((index mod 7) + shift + black) mod 7`, with shift 2 for a corner,
      4 for a side, 0 otherwise: always a valid scale position. */
  lemma NoteIndexFormula(m: SectionMove, index: nat)
    ensures NoteIndex(m, index) ==
              ((index % 7) + (if Truthy(m.isCorner) then 2 else if Truthy(m.isSide) then 4 else 0)
               + (if m.color == Black then 1 else 0)) % 7
    ensures NoteIndex(m, index) < 7
  {
  }

  /** `getNoteForMove`: a scale position outside the table would give the text
      "undefined..." and the fallback "C4"; no pitch name contains "undefined" or "null". */
  function NoteForMove(m: SectionMove, scale: ScaleName, index: nat): string {
    var table := ScaleTable(scale);
    var i := NoteIndex(m, index);
    if i < |table| then table[i] + Octave(m) else "C4"
  }

  /** The fallback never fires: the melody note is a scale pitch plus the octave. */
  lemma NoteForMoveInScale(m: SectionMove, scale: ScaleName, index: nat)
    ensures NoteForMove(m, scale, index) == ScaleTable(scale)[NoteIndex(m, index)] + Octave(m)
  {
    NoteIndexFormula(m, index);
  }

  /** `getDurationForMove`: corner 1.0, side 0.75, else 0.5; times 0.8 near the centre. */
  function DurationForMove(m: SectionMove): (d: real)
    ensures d > 0.0
  {
    var base := if Truthy(m.isCorner) then 1.0 else if Truthy(m.isSide) then 0.75 else 0.5;
    if NearCenter(m) then base * 0.8 else base
  }

  /** For a move of the analysis, a corner or side point is never near the centre, so the
      melody duration is one of 0.4, 0.5, 0.75 and 1.0. */
  lemma AnalyzedDurations(r: MoveRecord)
    ensures DurationForMove(FromPattern(PatternOf(r))) in {0.4, 0.5, 0.75, 1.0}
  {
    var p := r.position;
    if IsSideMove(p) && p.At? {
      assert DistanceSq(p).value >= 49;
    }
  }

  /** `getVelocityForMove`: the source returns 1 before the computed value is used, so no
      feature of the move (centre flag, distance) changes the velocity. What this means for
      the notes (melody velocity 1, bass velocity 0.7) is stated by `SectionShape`. */
  function VelocityForMove(m: SectionMove): (v: real)
    ensures v == 1.0
  {
    1.0
  }

  /** `getPadNote`: the third, fifth or second scale degree at octave 4. */
  function PadNote(m: SectionMove, scale: ScaleName): string {
    var table := ScaleTable(scale);
    var degree := if Truthy(m.isCorner) then 2 else if Truthy(m.isSide) then 4 else 1;
    if degree < |table| then table[degree] + "4" else "C4"
  }

  /** The fallback never fires: a pad is the third scale pitch for a corner, the fifth for
      a side and the second otherwise (never the root), at octave 4. */
  lemma PadNoteIsChordTone(m: SectionMove, scale: ScaleName)
    ensures var n := PadNote(m, scale);
            |n| >= 2 && n[|n| - 1] == '4' && n[..|n| - 1] in ScaleTable(scale)[1..5]
    ensures PadNote(m, scale) ==
              ScaleTable(scale)[if Truthy(m.isCorner) then 2 else if Truthy(m.isSide) then 4 else 1] + "4"
  {
    var table := ScaleTable(scale);
    var degree := if Truthy(m.isCorner) then 2 else if Truthy(m.isSide) then 4 else 1;
    var n := PadNote(m, scale);
    assert n == table[degree] + "4";
    assert n[..|n| - 1] in table[1..5] by {
      assert n[..|n| - 1] == table[degree];
      assert table[degree] == table[1..5][degree - 1];
    }
  }

  // ----- Sections -----

  datatype NoteEvent = NoteEvent(note: string, duration: real, velocity: real, time: real)

  datatype SectionKind = OpeningSection | MiddleSection | EndingSection | FallbackSection

  datatype Section = Section(
    kind: SectionKind,
    duration: real,
    melody: seq<NoteEvent>,
    bass: seq<NoteEvent>,
    pads: seq<NoteEvent>,
    percussion: seq<NoteEvent>)

  datatype MusicStructure = MusicStructure(key: string, scale: ScaleName, tempo: int, sections: seq<Section>)

  /** Start of the move at `index` within its section: half a second per move. */
  function TimeOf(index: nat): real {
    index as real * 0.5
  }

  function MelodyEvent(m: SectionMove, scale: ScaleName, index: nat): NoteEvent {
    NoteEvent(NoteForMove(m, scale, index), DurationForMove(m), VelocityForMove(m), TimeOf(index))
  }

  function BassEvent(m: SectionMove, key: string, index: nat): NoteEvent {
    NoteEvent(key, DurationForMove(m) * 2.0, VelocityForMove(m) * 0.7, TimeOf(index))
  }

  function PadEvent(m: SectionMove, scale: ScaleName, index: nat): NoteEvent {
    NoteEvent(PadNote(m, scale), 2.0, 0.3, TimeOf(index))
  }

  predicate Aggressive(m: SectionMove) {
    Above(m.aggression, 0.6)
  }

  /** The percussion hits of a move list, one per move whose `aggression` exceeds 0.6. */
  function PercussionOf(moves: seq<SectionMove>): seq<NoteEvent> {
    if moves == [] then []
    else
      var last := moves[|moves| - 1];
      PercussionOf(moves[..|moves| - 1])
        + (if Aggressive(last) then [NoteEvent("C2", 0.1, last.aggression.value, TimeOf(|moves| - 1))] else [])
  }

  function MelodyOf(moves: seq<SectionMove>, scale: ScaleName): seq<NoteEvent> {
    seq(|moves|, i requires 0 <= i < |moves| => MelodyEvent(moves[i], scale, i))
  }

  function BassOf(moves: seq<SectionMove>, key: string): seq<NoteEvent> {
    seq(|moves|, i requires 0 <= i < |moves| => BassEvent(moves[i], key, i))
  }

  /** One pad note for each move whose index is divisible by 4. */
  function PadsOf(moves: seq<SectionMove>, scale: ScaleName): seq<NoteEvent> {
    seq((|moves| + 3) / 4, j requires 0 <= j < (|moves| + 3) / 4 => PadEvent(moves[4 * j], scale, 4 * j))
  }

  /** The section `createSection` builds from a move list. */
  function SectionOf(kind: SectionKind, moves: seq<SectionMove>, scale: ScaleName, key: string): Section {
    Section(kind, |moves| as real * 0.5, MelodyOf(moves, scale), BassOf(moves, key), PadsOf(moves, scale),
            PercussionOf(moves))
  }

  /** Extending the move list by the move at `index` appends its melody and bass notes,
      its pad note when `index` is divisible by 4, and its percussion hit if aggressive. */
  lemma SectionStep(moves: seq<SectionMove>, index: nat, scale: ScaleName, key: string)
    requires index < |moves|
    ensures MelodyOf(moves[..index + 1], scale) == MelodyOf(moves[..index], scale) + [MelodyEvent(moves[index], scale, index)]
    ensures BassOf(moves[..index + 1], key) == BassOf(moves[..index], key) + [BassEvent(moves[index], key, index)]
    ensures PadsOf(moves[..index + 1], scale) ==
              PadsOf(moves[..index], scale) + (if index % 4 == 0 then [PadEvent(moves[index], scale, index)] else [])
    ensures PercussionOf(moves[..index + 1]) ==
              PercussionOf(moves[..index])
              + (if Aggressive(moves[index]) then [NoteEvent("C2", 0.1, moves[index].aggression.value, TimeOf(index))] else [])
  {
    PadsStep(moves, index, scale);
    MelodyStep(moves, index, scale);
    BassStep(moves, index, key);
    assert moves[..index + 1][..index] == moves[..index];
  }

  lemma MelodyStep(moves: seq<SectionMove>, index: nat, scale: ScaleName)
    requires index < |moves|
    ensures MelodyOf(moves[..index + 1], scale) == MelodyOf(moves[..index], scale) + [MelodyEvent(moves[index], scale, index)]
  {
    var longer, shorter := MelodyOf(moves[..index + 1], scale), MelodyOf(moves[..index], scale);
    assert forall i :: 0 <= i < index ==> longer[i] == shorter[i];
  }

  lemma BassStep(moves: seq<SectionMove>, index: nat, key: string)
    requires index < |moves|
    ensures BassOf(moves[..index + 1], key) == BassOf(moves[..index], key) + [BassEvent(moves[index], key, index)]
  {
    var longer, shorter := BassOf(moves[..index + 1], key), BassOf(moves[..index], key);
    assert forall i :: 0 <= i < index ==> longer[i] == shorter[i];
  }

  lemma PadsStep(moves: seq<SectionMove>, index: nat, scale: ScaleName)
    requires index < |moves|
    ensures PadsOf(moves[..index + 1], scale) ==
              PadsOf(moves[..index], scale) + (if index % 4 == 0 then [PadEvent(moves[index], scale, index)] else [])
  {
    PadCountStep(index);
    var longer, shorter := PadsOf(moves[..index + 1], scale), PadsOf(moves[..index], scale);
    assert |longer| == |shorter| + (if index % 4 == 0 then 1 else 0);
    forall j | 0 <= j < |shorter|
      ensures longer[j] == shorter[j]
    {
      assert 4 * j < index;
    }
    if index % 4 == 0 {
      assert longer[|shorter|] == PadEvent(moves[index], scale, index);
    }
  }

  /** One more move adds a pad note exactly when its index is divisible by 4, and that
      pad note's position in the pad list times 4 is the move's index. */
  lemma PadCountStep(index: nat)
    ensures (index + 4) / 4 == (index + 3) / 4 + (if index % 4 == 0 then 1 else 0)
    ensures index % 4 == 0 ==> 4 * ((index + 3) / 4) == index
    ensures forall j :: 0 <= j < (index + 3) / 4 ==> 4 * j < index
  {
    var q, r := index / 4, index % 4;
    assert index == 4 * q + r && 0 <= r < 4;
    QuotientByFour(index + 4, q + 1, r);
    if r == 0 {
      QuotientByFour(index + 3, q, 3);
    } else {
      QuotientByFour(index + 3, q + 1, r - 1);
    }
  }

  lemma QuotientByFour(n: int, q: int, r: int)
    requires n == 4 * q + r && 0 <= r < 4
    ensures n / 4 == q && n % 4 == r
  {
  }

  /** `createSection`: one pass over the moves, pushing a melody and a bass note for every
      move, a pad note for every fourth move, and a percussion hit for aggressive moves. */
  method CreateSection(kind: SectionKind, moves: seq<SectionMove>, scale: ScaleName, key: string)
    returns (section: Section)
    ensures section == SectionOf(kind, moves, scale, key)
  {
    var melody, bass, pads, percussion := [], [], [], [];
    for index := 0 to |moves|
      invariant melody == MelodyOf(moves[..index], scale)
      invariant bass == BassOf(moves[..index], key)
      invariant pads == PadsOf(moves[..index], scale)
      invariant percussion == PercussionOf(moves[..index])
    {
      var move := moves[index];
      SectionStep(moves, index, scale, key);
      var note := NoteForMove(move, scale, index);
      var duration := DurationForMove(move);
      var velocity := VelocityForMove(move);
      melody := melody + [NoteEvent(note, duration, velocity, TimeOf(index))];
      bass := bass + [NoteEvent(key, duration * 2.0, velocity * 0.7, TimeOf(index))];
      if index % 4 == 0 {
        pads := pads + [NoteEvent(PadNote(move, scale), 2.0, 0.3, TimeOf(index))];
      }
      if Aggressive(move) {
        percussion := percussion + [NoteEvent("C2", 0.1, move.aggression.value, TimeOf(index))];
      }
    }
    assert moves[..|moves|] == moves;
    section := Section(kind, |moves| as real * 0.5, melody, bass, pads, percussion);
  }

  /** The shape of a section of n moves: it lasts 0.5 n seconds; melody and bass have n
      events and the pads ceil(n / 4), taken from the moves at indices divisible by 4; every
      event starts at 0.5 times its move's index; melody velocity is 1, the bass plays the
      bare key for twice the melody duration at velocity 0.7, pads last 2 at velocity 0.3. */
  lemma SectionShape(kind: SectionKind, moves: seq<SectionMove>, scale: ScaleName, key: string)
    ensures var s := SectionOf(kind, moves, scale, key);
            && s.duration == 0.5 * |moves| as real
            && |s.melody| == |s.bass| == |moves|
            && |s.pads| == (|moves| + 3) / 4
            && (forall i :: 0 <= i < |moves| ==>
                  s.melody[i].time == s.bass[i].time == 0.5 * i as real
                  && s.melody[i].velocity == 1.0
                  && s.bass[i].note == key && s.bass[i].velocity == 0.7
                  && s.bass[i].duration == 2.0 * s.melody[i].duration)
            && (forall j :: 0 <= j < |s.pads| ==>
                  4 * j < |moves| && s.pads[j].time == 0.5 * (4 * j) as real
                  && s.pads[j].duration == 2.0 && s.pads[j].velocity == 0.3)
  {
  }

  /** Percussion comes only from moves that carry an `aggression` above 0.6. */
  lemma {:induction false} PercussionNeedsAggression(moves: seq<SectionMove>)
    requires forall i :: 0 <= i < |moves| ==> !Aggressive(moves[i])
    ensures PercussionOf(moves) == []
  {
    if moves != [] {
      assert PercussionOf(moves[..|moves| - 1]) == [] by {
        PercussionNeedsAggression(moves[..|moves| - 1]);
      }
    }
  }

  // ----- The whole structure -----

  function Min(a: nat, b: nat): nat {
    if a <= b then a else b
  }

  /** `Array.prototype.slice(start, end)` for non-negative bounds: the elements from
      `start` up to `end` clamped to the length, none when that range is empty. */
  function Slice<T>(s: seq<T>, start: nat, end: nat): (r: seq<T>)
    ensures |r| == if start < Min(end, |s|) then Min(end, |s|) - start else 0
    ensures forall i :: 0 <= i < |r| ==> r[i] == s[start + i]
  {
    var e := Min(end, |s|);
    if start >= e then [] else s[start..e]
  }

  function OpeningWindow<T>(ps: seq<T>): seq<T> {
    Slice(ps, 0, Min(20, |ps|))
  }

  function MiddleWindow<T>(ps: seq<T>): seq<T> {
    Slice(ps, 20, Min(100, |ps|))
  }

  function EndingWindow<T>(ps: seq<T>): seq<T> {
    Slice(ps, 100, |ps|)
  }

  /** The three windows cut the move list into consecutive pieces of at most 20, at most
      80, and the rest. */
  lemma WindowsPartition<T>(ps: seq<T>)
    ensures OpeningWindow(ps) + MiddleWindow(ps) + EndingWindow(ps) == ps
    ensures |OpeningWindow(ps)| == Min(20, |ps|)
    ensures |MiddleWindow(ps)| == if |ps| <= 20 then 0 else Min(100, |ps|) - 20
    ensures |EndingWindow(ps)| == if |ps| <= 100 then 0 else |ps| - 100
  {
    var n := |ps|;
    if n <= 20 {
      assert OpeningWindow(ps) == ps;
    } else if n <= 100 {
      assert ps[0..20] + ps[20..n] == ps;
    } else {
      assert ps[0..20] + ps[20..100] + ps[100..n] == ps;
    }
  }

  /** The section built from one window, if the window holds any move. */
  function WindowSection(kind: SectionKind, window: seq<MovePattern>, scale: ScaleName, key: string): seq<Section> {
    if |window| > 0 then [SectionOf(kind, FromPatterns(window), scale, key)] else []
  }

  /** The sections `createMusicStructure` pushes: one per non-empty window, in order, or
      the fallback section alone when there is none. */
  function PlannedSections(ps: seq<MovePattern>, scale: ScaleName, key: string): seq<Section> {
    var built := WindowSection(OpeningSection, OpeningWindow(ps), scale, key)
                 + WindowSection(MiddleSection, MiddleWindow(ps), scale, key)
                 + WindowSection(EndingSection, EndingWindow(ps), scale, key);
    if |built| == 0 then [SectionOf(FallbackSection, FallbackMoves, scale, key)] else built
  }

  function StructureFor(a: GameAnalysis): MusicStructure {
    var scale := ScaleForGame(a.aggressionLevel);
    var key := KeyForGame(a.territoryBalance);
    MusicStructure(key, scale, TempoForGame(a.aggressionLevel, a.totalMoves),
                   PlannedSections(a.movePatterns, scale, key))
  }

  /** `createMusicStructure` */
  method CreateMusicStructure(a: GameAnalysis) returns (structure: MusicStructure)
    ensures structure == StructureFor(a)
  {
    var ps := a.movePatterns;
    var scale := ScaleForGame(a.aggressionLevel);
    var key := KeyForGame(a.territoryBalance);
    structure := MusicStructure(key, scale, TempoForGame(a.aggressionLevel, a.totalMoves), []);
    var openingMoves := Slice(ps, 0, Min(20, |ps|));
    var middleMoves := Slice(ps, 20, Min(100, |ps|));
    var endMoves := Slice(ps, 100, |ps|);
    if |openingMoves| > 0 {
      var section := CreateSection(OpeningSection, FromPatterns(openingMoves), scale, key);
      structure := structure.(sections := structure.sections + [section]);
    }
    if |middleMoves| > 0 {
      var section := CreateSection(MiddleSection, FromPatterns(middleMoves), scale, key);
      structure := structure.(sections := structure.sections + [section]);
    }
    if |endMoves| > 0 {
      var section := CreateSection(EndingSection, FromPatterns(endMoves), scale, key);
      structure := structure.(sections := structure.sections + [section]);
    }
    if |structure.sections| == 0 {
      var section := CreateSection(FallbackSection, FallbackMoves, scale, key);
      structure := structure.(sections := structure.sections + [section]);
    }
  }

  function Kinds(ss: seq<Section>): seq<SectionKind> {
    seq(|ss|, i requires 0 <= i < |ss| => ss[i].kind)
  }

  function TotalDuration(ss: seq<Section>): real {
    if ss == [] then 0.0 else ss[0].duration + TotalDuration(ss[1..])
  }

  lemma TotalDurationAppend(a: seq<Section>, b: seq<Section>)
    ensures TotalDuration(a + b) == TotalDuration(a) + TotalDuration(b)
  {
    if a != [] {
      calc {
        TotalDuration(a + b);
        (a + b)[0].duration + TotalDuration((a + b)[1..]);
        { assert (a + b)[0] == a[0]; assert (a + b)[1..] == a[1..] + b; }
        a[0].duration + TotalDuration(a[1..] + b);
        { TotalDurationAppend(a[1..], b); }
        a[0].duration + (TotalDuration(a[1..]) + TotalDuration(b));
      }
    } else {
      assert a + b == b;
    }
  }

  /** The sections of n moves: opening when n > 0, middle when n > 20, ending when
      n > 100, in that order; with no moves exactly one fallback section. */
  lemma PlannedKinds(ps: seq<MovePattern>, scale: ScaleName, key: string)
    ensures Kinds(PlannedSections(ps, scale, key)) ==
              if |ps| == 0 then [FallbackSection]
              else [OpeningSection] + (if |ps| > 20 then [MiddleSection] else [])
                   + (if |ps| > 100 then [EndingSection] else [])
  {
    WindowsPartition(ps);
    var ss := PlannedSections(ps, scale, key);
    if |ps| == 0 {
    } else if |ps| <= 20 {
      assert ss == WindowSection(OpeningSection, OpeningWindow(ps), scale, key);
    } else if |ps| <= 100 {
      assert ss == WindowSection(OpeningSection, OpeningWindow(ps), scale, key)
                   + WindowSection(MiddleSection, MiddleWindow(ps), scale, key);
    }
  }

  /** A section of k moves lasts 0.5 k seconds. */
  lemma WindowDuration(kind: SectionKind, window: seq<MovePattern>, scale: ScaleName, key: string)
    ensures TotalDuration(WindowSection(kind, window, scale, key)) == 0.5 * |window| as real
  {
    if |window| > 0 {
      assert WindowSection(kind, window, scale, key)[1..] == [];
    }
  }

  /** The planned sections last half a second per move, 2 seconds for the fallback. */
  lemma PlannedDuration(ps: seq<MovePattern>, scale: ScaleName, key: string)
    ensures TotalDuration(PlannedSections(ps, scale, key)) == if |ps| == 0 then 2.0 else 0.5 * |ps| as real
  {
    WindowsPartition(ps);
    var so := WindowSection(OpeningSection, OpeningWindow(ps), scale, key);
    var sm := WindowSection(MiddleSection, MiddleWindow(ps), scale, key);
    var se := WindowSection(EndingSection, EndingWindow(ps), scale, key);
    WindowDuration(OpeningSection, OpeningWindow(ps), scale, key);
    WindowDuration(MiddleSection, MiddleWindow(ps), scale, key);
    WindowDuration(EndingSection, EndingWindow(ps), scale, key);
    TotalDurationAppend(so, sm);
    TotalDurationAppend(so + sm, se);
    if |ps| == 0 {
      var f := [SectionOf(FallbackSection, FallbackMoves, scale, key)];
      assert PlannedSections(ps, scale, key) == f;
      assert f[1..] == [];
    }
  }

  /** No planned section has percussion: moves of the analysis carry no `aggression`,
      and no placeholder's exceeds 0.6. */
  lemma PlannedPercussion(ps: seq<MovePattern>, scale: ScaleName, key: string)
    ensures forall k :: 0 <= k < |PlannedSections(ps, scale, key)| ==> PlannedSections(ps, scale, key)[k].percussion == []
  {
    var so := WindowSection(OpeningSection, OpeningWindow(ps), scale, key);
    var sm := WindowSection(MiddleSection, MiddleWindow(ps), scale, key);
    var se := WindowSection(EndingSection, EndingWindow(ps), scale, key);
    var ss := PlannedSections(ps, scale, key);
    if |so + sm + se| == 0 {
      PercussionNeedsAggression(FallbackMoves);
      assert ss == [SectionOf(FallbackSection, FallbackMoves, scale, key)];
    } else {
      assert ss == so + sm + se;
      assert forall s: Section <- so + sm + se :: s.percussion == [] by {
        WindowPercussion(OpeningSection, OpeningWindow(ps), scale, key);
        WindowPercussion(MiddleSection, MiddleWindow(ps), scale, key);
        WindowPercussion(EndingSection, EndingWindow(ps), scale, key);
      }
      forall k | 0 <= k < |ss|
        ensures ss[k].percussion == []
      {
        assert ss[k] in so + sm + se;
      }
    }
  }

  lemma WindowPercussion(kind: SectionKind, window: seq<MovePattern>, scale: ScaleName, key: string)
    ensures forall s <- WindowSection(kind, window, scale, key) :: s.percussion == []
  {
    PercussionNeedsAggression(FromPatterns(window));
  }

  /** `generatePreview` */
  datatype Preview = Preview(key: string, scale: ScaleName, tempo: int,
                             aggression: Option<real>, balance: real, phase: Phase)

  function GeneratePreview(a: GameAnalysis): (p: Preview)
    ensures p.key == StructureFor(a).key && p.scale == StructureFor(a).scale && p.tempo == StructureFor(a).tempo
  {
    Preview(KeyForGame(a.territoryBalance), ScaleForGame(a.aggressionLevel),
            TempoForGame(a.aggressionLevel, a.totalMoves),
            a.aggressionLevel, a.territoryBalance, a.gamePhase)
  }
}
