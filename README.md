# sgf-music, modelled in Dafny

sgf-music turns a recorded game of Go (an SGF file) into music. The model covers three parts.

1. **Move extraction and analysis** (`SGFAnalyzer`).
   - The parsed game tree is walked along each node's first child.
   - `AB`/`AW` setup stones and `B`/`W` moves are collected as move records.
   - Each two-letter point code is decoded.
   - The records yield the move counts and per-move features: squared distance from the centre, quadrant, and corner, side and centre flags.
   - From those come an aggression level, a territory balance and a game phase.
2. **Music planning and scheduling** (`MusicGenerator`).
   - The analysis picks a scale, a key and a tempo.
   - The move list is cut into opening (moves 0-19), middle (20-99) and ending (100 on) sections. With no moves at all there is one fallback section of four placeholder moves.
   - Each section becomes melody, bass, pad and percussion note lists.
   - `playMusicStructure` turns the sections into triggers at absolute times, using a running offset.
3. **Board replay** (`GameBoard`).
   - A prefix of the moves is replayed onto an empty 19 x 19 grid.
   - The previous/next buttons move the index within bounds.

Modules:
- `Wrappers` (`wrappers.dfy`): `Option` and `Result`.
- `SgfTree` (`sgf_tree.dfy`): the node tree, point decoding, and the main-line walk as a function with its specification.
- `SgfFeatures` (`sgf_features.dfy`): per-move classification, counts, aggression, territory and phase.
- `SgfAnalyzer` (`sgf_analyzer.dfy`): the analyzer object as a class, whose methods update `gameData`, `moves` and `analysis` in place.
- `MusicPlan` (`music_plan.dfy`): scale, key, tempo, sections, and the `createSection` loop.
- `MusicPlayback` (`music_playback.dfy`): the trigger schedule of `playMusicStructure`.
- `GameBoard` (`game_board.dfy`): `getBoardState` on a 2-D array, and the navigation index as a small class.

How values are modelled:
- **Distances** are kept squared and exact. `distanceFromCenter < 5` becomes `distanceSq < 25`, and `> 10` becomes `distanceSq > 100`.
- **`Math.sqrt`** appears only in the aggression score. It is a parameter there, constrained to be non-negative, zero at zero and positive at 162.
- **NaN and undefined** are `None`. This covers:
  - the row of a one-letter point code (`Point.NoRow`);
  - the aggression mean of zero moves;
  - the missing distance and flags of the fallback placeholder moves.
- **JavaScript comparisons** against `None` are false, as in JavaScript.
- **Exceptions** in the extraction walk have one cause: a `B` or `W` property with no value, since `parsePosition(undefined)` throws. The walk result records whether it completed, and `parseSGF` then reports "Invalid SGF file format".
- **Move numbers follow the code.** A move's number is the count of all records pushed before it, setup stones included, plus one; setup stones carry 0. So move numbers strictly increase but need not be consecutive or start at 1 (`SgfTree.SetupShiftsMoveNumber`).

## Model

| member | source | states |
|---|---|---|
| SgfTree.ParsePosition | src/utils/sgfAnalyzer.js:89-95 | "" and "tt" are passes; a one-letter code has no row but the column of its character code minus 'a'; otherwise x and y are the first two character codes minus 'a', with no range check |
| SgfTree.DecodeEncode | src/utils/sgfAnalyzer.js:89-95 | every on-board point, encoded as two letters, decodes back to itself |
| SgfTree.EncodeDecode | src/utils/sgfAnalyzer.js:89-95 | every two-letter code in a..s decodes to an on-board point that encodes back to the same code |
| SgfTree.NodeStep | src/utils/sgfAnalyzer.js:39-79 | one iteration of the loop completes exactly when no `B`/`W` property is empty, and only ever appends to the records |
| SgfTree.ExtractFrom | src/utils/sgfAnalyzer.js:38-86 | the walk from a node keeps what was already pushed, and on a node that does not throw keeps that node's step; it completes only if that node does not throw |
| SgfTree.Extract | src/utils/sgfAnalyzer.js:34-87 | extraction from a root fails if the root throws, and otherwise begins with the root's own records |
| SgfTree.MainLine | src/utils/sgfAnalyzer.js:81-85 | the walk's node sequence is never empty, starts at the given node, and each later node is the first child of the one before it |
| SgfTree.PushPlaySpec | src/utils/sgfAnalyzer.js:63-79 | a `B` or `W` property with a value appends one move record for its first value, numbered one past the records before it; without one nothing is appended |
| SgfTree.NodeStepSpec | src/utils/sgfAnalyzer.js:39-79 | one node completes exactly when no `B`/`W` property is empty; it only appends; on completion it appends the AB setups, AW setups, first B, first W in that order, numbered by position |
| SgfTree.LineIsCleanStep | src/utils/sgfAnalyzer.js:38-86 | the walk from a node completes iff this node does not throw and (if it has children) the walk from its first child completes |
| SgfTree.ExtractFromCompletes | src/utils/sgfAnalyzer.js:38-86 | the walk completes exactly when no main-line node throws; it keeps what was already pushed and keeps every record numbered by position |
| SgfTree.ExtractFromRecords | src/utils/sgfAnalyzer.js:38-86 | a completed walk appends the main line's node entries, in node order, numbered by position |
| SgfTree.ExtractSpec | src/utils/sgfAnalyzer.js:34-87 | extraction from a root completes iff the main line is clean; its records are the main-line entries numbered by position (setups 0, moves = records before + 1) |
| SgfTree.MoveNumbersIncrease | src/utils/sgfAnalyzer.js:63-79 | of any two extracted move records, the later one has the larger move number |
| SgfTree.SetupShiftsMoveNumber | src/utils/sgfAnalyzer.js:41-69 | a root with one `AB` stone and one `B` move gives the move number 2, not 1 |
| SgfTree.ExtractIgnoresVariations | src/utils/sgfAnalyzer.js:81-82 | replacing the root's children after the first leaves extraction unchanged |
| SgfTree.ExtractFromIgnoresVariations | src/utils/sgfAnalyzer.js:81-85 | at every depth only first children matter: the walk over a tree equals the walk over the tree with every variation pruned |
| SgfFeatures.DistanceSq | src/utils/sgfAnalyzer.js:126-130 | a pass has distance 0; the distance is undefined (NaN) exactly for a point without a row |
| SgfFeatures.BoardQuadrant | src/utils/sgfAnalyzer.js:132-140 | the quadrant is "center" exactly when the position is not an integer point: the final `return 'center'` is unreachable for points |
| SgfFeatures.IsSideMove | src/utils/sgfAnalyzer.js:148-152 | a side move is never a pass; an integer side point lies at squared distance at least 49 from the centre (a one-letter code with a near-edge column is a side move with NaN distance) |
| SgfFeatures.IsCornerMove | src/utils/sgfAnalyzer.js:142-146 | every corner move is a side move |
| SgfFeatures.IsCenterMove | src/utils/sgfAnalyzer.js:154-158 | a centre move is never a side move |
| SgfFeatures.PatternOfPosition | src/utils/sgfAnalyzer.js:126-158 | a pass gets distance 0, quadrant centre and all flags false; an integer point never gets quadrant centre |
| SgfFeatures.PatternOf | src/utils/sgfAnalyzer.js:110-123 | the map callback keeps the record's number, colour and position and adds that position's distance; a corner is always a side, a centre never is |
| SgfFeatures.MovesOnly | src/utils/sgfAnalyzer.js:109 | the move filter keeps exactly the move records of the list: every kept record is a move from the list, and every move record of the list is kept |
| SgfFeatures.MovePatterns | src/utils/sgfAnalyzer.js:108-124 | one pattern per move record, same order, setups dropped |
| SgfFeatures.CountsAddUp | src/utils/sgfAnalyzer.js:98-100 | blackMoves + whiteMoves = totalMoves, and the pattern list has exactly blackMoves black and whiteMoves white entries |
| SgfFeatures.MovesOnlyInOrder | src/utils/sgfAnalyzer.js:98-124 | kept move numbers lie in 1..number of records and strictly increase |
| SgfFeatures.PatternsInExtractionOrder | src/utils/sgfAnalyzer.js:108-124 | the patterns of an extracted game are in strictly increasing move-number order |
| SgfFeatures.AggressionScore | src/utils/sgfAnalyzer.js:164-167 | a per-move score `max(0, 1 - d/sqrt(162))` lies in [0, 1], and is NaN exactly when the distance is |
| SgfFeatures.SumScores | src/utils/sgfAnalyzer.js:169 | the sum of the scores lies in [0, number of moves], and is NaN exactly when some distance is |
| SgfFeatures.AggressionLevel | src/utils/sgfAnalyzer.js:160-170 | the mean is NaN with zero moves or with a NaN distance, and otherwise lies in [0, 1] |
| SgfFeatures.CenterMoveIsFullyAggressive | src/utils/sgfAnalyzer.js:164-169 | a single move on the centre point gives aggression level 1 |
| SgfFeatures.CornerPointScoresZero | src/utils/sgfAnalyzer.js:164-166 | a move on a board corner scores 0 |
| SgfFeatures.TerritoryBalance | src/utils/sgfAnalyzer.js:172-193 | as written: each colour sums the first (its own count) scores of the whole list, so equal colour counts give balance 0 |
| SgfFeatures.TerritoryBalanceAntisymmetric | src/utils/sgfAnalyzer.js:172-193 | as written: exchanging the colours of all moves negates the balance |
| SgfFeatures.TerritoryIndexingMismatch | src/utils/sgfAnalyzer.js:182-190 | a black corner move and a white centre move: balance 0 as written, 0.9 by colour |
| SgfFeatures.BlackCornerWhiteCentre | src/utils/sgfAnalyzer.js:182-190 | any black corner move followed by a white move that is neither corner nor side: balance 0 as written, 0.9 by colour |
| SgfFeatures.TerritoryBalanceByColour | src/utils/sgfAnalyzer.js:172-193 | corrected balance: it lies between minus the white move count and the black move count |
| SgfFeatures.TerritoryBalanceByColourSpec | src/utils/sgfAnalyzer.js:172-193 | corrected balance: exchanging colours negates it, and each move shifts it by its own score towards its own colour |
| SgfFeatures.ColourScoreSumBounds | src/utils/sgfAnalyzer.js:176-180 | a colour's territory sum lies between 0.1 and 1 times its move count |
| SgfFeatures.GamePhase | src/utils/sgfAnalyzer.js:195-205 | opening iff at most 50 moves, middlegame iff 51 to 150, endgame iff more than 150 |
| SgfFeatures.AnalysisOf | src/utils/sgfAnalyzer.js:97-106 | the analysis's patterns are those of the moves; totalMoves is their number; phase, aggression and territory are computed from the stored patterns and count |
| SgfFeatures.AnalysisConsistent | src/utils/sgfAnalyzer.js:97-106 | in the analysis, totalMoves = blackMoves + whiteMoves = number of patterns; colour counts match the patterns; aggression is NaN with no moves and lies in [0, 1] whenever it is a number; the balance lies in [-whiteMoves, blackMoves] |
| SgfAnalyzer.Analyzer.constructor | src/utils/sgfAnalyzer.js:5-20 | no game, no moves, the initial analysis |
| SgfAnalyzer.Analyzer.PushSetups | src/utils/sgfAnalyzer.js:41-61 | the `forEach` appends one setup record (number 0) per value, in order |
| SgfAnalyzer.Analyzer.ExtractNode | src/utils/sgfAnalyzer.js:39-79 | the loop body for one node changes `moves` exactly as the node step of the walk does, and reports a throw |
| SgfAnalyzer.Analyzer.ExtractMoves | src/utils/sgfAnalyzer.js:34-87 | the `while` loop resets `moves` and leaves exactly the walk's records; completion as in the walk; no game gives no moves |
| SgfAnalyzer.Analyzer.AnalyzeMovePatterns | src/utils/sgfAnalyzer.js:108-124 | sets only `movePatterns`, to the patterns of the current moves |
| SgfAnalyzer.Analyzer.AnalyzeSimpleAggression | src/utils/sgfAnalyzer.js:160-170 | sets only `aggressionLevel`, from the stored patterns |
| SgfAnalyzer.Analyzer.AnalyzeSimpleTerritory | src/utils/sgfAnalyzer.js:172-193 | sets only `territoryBalance`, to the corrected by-colour balance of the stored patterns |
| SgfAnalyzer.Analyzer.AnalyzeGamePhase | src/utils/sgfAnalyzer.js:195-205 | sets only `gamePhase`, from the stored move count |
| SgfAnalyzer.Analyzer.AnalyzeGame | src/utils/sgfAnalyzer.js:97-106 | counts, then patterns, aggression, territory and phase, each from the fields just stored, give the analysis of the moves |
| SgfAnalyzer.Analyzer.ParseSgf | src/utils/sgfAnalyzer.js:22-32 | a parser error or a throwing walk gives "Invalid SGF file format", with the analysis untouched; otherwise it stores the first root and its records and returns their analysis |
| SgfAnalyzer.ExtractParsedAsWritten | src/utils/sgfAnalyzer.js:34-39 | as written: the walk on the parser's list of roots reads no properties and no children, so it yields no records |
| SgfAnalyzer.ExtractFirstGame | src/utils/sgfAnalyzer.js:34-87 | corrected: the walk from the first root completes iff its main line is clean and yields its entries numbered by position; no roots give no records |
| SgfAnalyzer.RootListLosesMoves | src/utils/sgfAnalyzer.js:24-39 | a one-game file with a black move: no records as written, that move from the first root |
| MusicPlan.ScaleTable | src/utils/musicGenerator.js:172-183 | every scale table has seven pitches |
| MusicPlan.KeyForGame | src/utils/musicGenerator.js:185-196 | key C iff balance > 0.5, F iff < -0.5, G iff in [-0.5, 0.5] |
| MusicPlan.TempoForGame | src/utils/musicGenerator.js:198-218 | the tempo is one of 90, 110, 120, 130, 140 |
| MusicPlan.ScaleAndTempoShareBands | src/utils/musicGenerator.js:172-218 | minor/major/lydian go with base tempo 140/130/110 (both directions), less 20 beyond 200 moves |
| MusicPlan.ScaleForGame | src/utils/musicGenerator.js:172-183 | minor iff aggression > 0.7, major iff in (0.4, 0.7], lydian iff at most 0.4 or NaN |
| MusicPlan.Octave | src/utils/musicGenerator.js:297-299 | octave 5 iff distance < 5, 3 iff distance > 10, 4 iff in [5, 10] or NaN |
| MusicPlan.NoteIndexFormula | src/utils/musicGenerator.js:294-312 | the scale index is ((index mod 7) + 2 corner / 4 side / 0 + 1 if black) mod 7, always below 7 |
| MusicPlan.NoteForMoveInScale | src/utils/musicGenerator.js:290-324 | `getNoteForMove` (`NoteForMove`) never reaches its "C4" fallback: the note is the scale pitch at the computed index followed by the octave |
| MusicPlan.DurationForMove | src/utils/musicGenerator.js:326-344 | every melody duration is positive |
| MusicPlan.AnalyzedDurations | src/utils/musicGenerator.js:326-344 | for analyzed moves the duration is one of 0.4, 0.5, 0.75, 1.0 |
| MusicPlan.PadNoteIsChordTone | src/utils/musicGenerator.js:366-386 | `getPadNote` (`PadNote`) never reaches its fallback: a corner gets the third scale pitch (`scale[2]`), a side the fifth (`scale[4]`), any other move the second (`scale[1]`), each followed by "4" |
| MusicPlan.SectionStep | src/utils/musicGenerator.js:232-278 | one more move appends its melody and bass notes, a pad note iff its index is divisible by 4, and a percussion hit iff its aggression exceeds 0.6 |
| MusicPlan.CreateSection | src/utils/musicGenerator.js:220-288 | the `forEach` loop builds exactly the section of the move list |
| MusicPlan.VelocityForMove | src/utils/musicGenerator.js:346-364 | every move gets velocity 1 whatever its centre flag and distance: the early `return 1` discards the computed loudness |
| MusicPlan.SectionShape | src/utils/musicGenerator.js:223-266 | duration 0.5 n; n melody and n bass notes at time 0.5 i; melody velocity 1; bass = bare key, twice the duration, velocity 0.7; ceil(n/4) pads at moves 4j, duration 2, velocity 0.3 |
| MusicPlan.PercussionNeedsAggression | src/utils/musicGenerator.js:268-277 | with no move above aggression 0.6 there is no percussion |
| MusicPlan.Slice | src/utils/musicGenerator.js:126-128 | JavaScript `slice`: its length is min(end, length) - start when positive and 0 otherwise, and its i-th element is the list's element start + i |
| MusicPlan.WindowsPartition | src/utils/musicGenerator.js:126-128 | the three windows concatenate to the move list, with sizes min(20, n), min(100, n) - 20 and n - 100 where positive |
| MusicPlan.CreateMusicStructure | src/utils/musicGenerator.js:102-170 | builds exactly the planned structure: key, scale, tempo and sections |
| MusicPlan.PlannedKinds | src/utils/musicGenerator.js:136-167 | sections are opening, then middle if n > 20, then ending if n > 100; with no moves, fallback only |
| MusicPlan.PlannedDuration | src/utils/musicGenerator.js:136-167 | total duration is 0.5 n, or 2 for the fallback |
| MusicPlan.PlannedPercussion | src/utils/musicGenerator.js:159-167 | no planned section has percussion |
| MusicPlan.GeneratePreview | src/utils/musicGenerator.js:500-515 | the preview's key, scale and tempo are those of the planned structure |
| MusicPlayback.ScheduleSnoc | src/utils/musicGenerator.js:397-470 | in `Schedule`, the triggers of the whole loop, a further section's triggers start at the sum of the earlier sections' durations |
| MusicPlayback.ScheduleVoice | src/utils/musicGenerator.js:406-419 | one voice's `forEach` appends the triggers of its playable events at offset + time, counting each |
| MusicPlayback.ScheduleSection | src/utils/musicGenerator.js:405-467 | a section adds its triggers, `SectionTriggers`: melody, bass, pad and percussion, in that order |
| MusicPlayback.PlayMusicStructure | src/utils/musicGenerator.js:388-477 | sets the tempo, and schedules every section at the running offset; `totalNotes` counts the triggers |
| MusicPlayback.FireAll | src/utils/musicGenerator.js:406-419 | when every event passes the guard, each becomes one trigger with its note, duration, velocity and offset time |
| MusicPlayback.ScheduleCountsEvents | src/utils/musicGenerator.js:397-470 | with all events playable, the trigger count is the number of events |
| MusicPlayback.SectionPlayable | src/utils/musicGenerator.js:232-278 | with a non-empty key, every event `createSection` builds passes the truthiness guard |
| MusicPlayback.PlannedNothingSkipped | src/utils/musicGenerator.js:394-470 | for a planned structure no event is skipped: triggers = events |
| MusicPlayback.FireTimes | src/utils/musicGenerator.js:406-419 | event times ascending in [0, d) give trigger times ascending in [offset, offset + d) |
| MusicPlayback.VoiceTimesInSection | src/utils/musicGenerator.js:405-467 | a voice's triggers in a section come from that voice's list only |
| MusicPlayback.SectionTimes | src/utils/musicGenerator.js:405-469 | a well-timed section's triggers on each voice ascend within [offset, offset + duration) |
| MusicPlayback.ScheduleTimes | src/utils/musicGenerator.js:394-470 | over well-timed sections each voice's trigger times strictly increase and stay in [start, start + total duration) |
| MusicPlayback.SectionWellTimed | src/utils/musicGenerator.js:232-278 | every section `createSection` builds has each voice's times ascending within its duration |
| MusicPlayback.PercussionTimes | src/utils/musicGenerator.js:268-277 | percussion times ascend within [0, 0.5 n) |
| MusicPlayback.MelodyTimes | src/utils/musicGenerator.js:241-246 | melody times ascend within [0, 0.5 n) |
| MusicPlayback.BassTimes | src/utils/musicGenerator.js:249-254 | bass times ascend within [0, 0.5 n) |
| MusicPlayback.PadTimes | src/utils/musicGenerator.js:257-266 | pad times ascend within [0, 0.5 n) |
| MusicPlayback.PlannedWellTimed | src/utils/musicGenerator.js:136-167 | every planned section is well timed |
| MusicPlayback.PlannedVoicesInOrder | src/utils/musicGenerator.js:394-470 | for the planned music, each voice's trigger times strictly increase and lie within [0, total duration) |
| GameBoard.SliceEnd | src/components/GameBoard.jsx:17 | `slice`'s end: negative counts back from the length, clamped to [0, length] |
| GameBoard.Shown | src/components/GameBoard.jsx:17 | the moves shown are always a prefix of the move list |
| GameBoard.ShownPrefix | src/components/GameBoard.jsx:17 | for index >= -1 the moves shown are the first index + 1, or all of them |
| GameBoard.CellAt | src/components/GameBoard.jsx:19-24 | a cell that holds a colour got it from some move played on that point |
| GameBoard.CellAtIsLastWrite | src/components/GameBoard.jsx:19-24 | a cell holds a colour iff some move was played there and it is the last such move's colour; empty iff none |
| GameBoard.ElsewhereLeavesCell | src/components/GameBoard.jsx:20-23 | a pass or a move elsewhere leaves a cell unchanged |
| GameBoard.GetBoardState | src/components/GameBoard.jsx:13-27 | a fresh 19 x 19 grid; each cell is the last colour played there among the replayed moves; replay stops exactly at the first move whose row is missing from the grid (no row, or a row outside 0..18), where the source throws |
| GameBoard.PreviousIndex | src/components/GameBoard.jsx:36-38 | one back, never below 0 |
| GameBoard.NextIndex | src/components/GameBoard.jsx:40-42 | one forward, never past length - 1 (so -1 for an empty list) |
| GameBoard.MoveNavigator.constructor | src/components/GameBoard.jsx:5 | the index starts at 0 |
| GameBoard.MoveNavigator.HandlePrevious | src/components/GameBoard.jsx:36-38 | the index becomes max(0, index - 1) and stays valid |
| GameBoard.MoveNavigator.HandleNext | src/components/GameBoard.jsx:40-42 | the index becomes min(length - 1, index + 1) and stays valid |
| GameBoard.Navigate | src/components/GameBoard.jsx:36-42 | after any sequence of presses from 0, the index is never past the last move (0 for an empty list) |
| GameBoard.NavigateStaysInRange | src/components/GameBoard.jsx:36-42 | any sequence of presses from 0 keeps the index on a move, or in {-1, 0} for an empty list |

## Left out

- **SGF text parsing.** This is done by the `@sabaki/sgf` library and is not part of this model. Its result is an input: the list of root nodes, or the error it raised.
- **Tone.js and the audio plumbing.** Left out: synths, effects, `initialize`, `Transport.start`, `stopMusic`, `setVolume` and `setTempo`. `playMusicStructure` yields its triggers as a list instead of calling `triggerAttackRelease`.
- **`generateMusicFromGame` and `testAudio`.** Asynchronous orchestration and timers.
- **`console.log` and `console.warn`.** Output only.
- **`generateInfluenceMap`, `calculatePointInfluence` and `analyzeScoreProgression`.** `analyzeGame` never calls them. The fields `influenceMap` and `scoreProgression`, which they would fill, are left out of `GameAnalysis`.
- **The loudness computation of `getVelocityForMove`.** It is dead code: the function returns 1 before using it (musicGenerator.js:361), so only the constant is modelled.
- **`captureCount`.** Only the constructor sets it, to 0; no operation changes it. It is left out of `GameAnalysis`.
- **The UI files.** App, file upload, music controls and game analysis panels are rendering and browser state. `handleMoveClick`, `getInfluenceColor` and the JSX of the board are also left out. `handleMoveClick` sets any index and has no logic to model.
- **Floating point.** Times, durations and scores are exact reals. JavaScript's rounding in `currentTime` sums and in the territory sums is not modelled.
- **Strings** are sequences of characters, not UTF-16 code units. Point codes are ASCII letters in practice.
- **Shared analysis object.** The analysis that `parseSGF` returns is a copy here. In the source it is the analyzer's own object, which later calls would mutate.
- **React state** `currentMoveIndex` is a class field. Re-rendering is not modelled.
- SgfFeatures.AggressionScore: `Math.sqrt` is a parameter constrained only to be non-negative, zero at zero and positive at 162. The contract gives bounds, not the numeric value.
- GameBoard.GetBoardState: a move whose column is outside 0..18 on an existing row writes no cell. In the source, a column of 19 or more grows that JavaScript row array beyond 19 entries; a negative column sets a property that is not an array index and leaves the length at 19. Neither effect is modelled.
- MusicPlan.NoteForMoveInScale: the source's fallback checks the note text for "undefined" or "null". The model checks the scale index instead, which is the only way such text could arise.

## Findings

| source | as written | input that shows it | evidently intended | confidence | as-written member | corrected member |
|---|---|---|---|---|---|---|
| src/utils/sgfAnalyzer.js:182-190 | each colour's filtered moves are mapped to `territoryScores[index]`, the index into the filtered list, while the scores are those of all moves, so black gets the first blackMoves scores and white the first whiteMoves scores | black corner move at (0,0), then white centre move at (9,9): balance 0 | each colour sums the scores of its own moves: balance 1.0 - 0.1 = 0.9 | not executed; high | SgfFeatures.TerritoryBalance | SgfFeatures.TerritoryBalanceByColour |
| src/utils/sgfAnalyzer.js:24-39 | the parser's return value, a list of root nodes (as the repository's debug script probes it), is used as the root node; a list has neither `properties` nor `children`, so no move is extracted and the music falls back to the placeholder section | a file with one game whose root holds `B[pd]`: no records | walk from the first root of the list: one black move at (15, 3) | not executed; medium (the library is not part of this model) | SgfAnalyzer.ExtractParsedAsWritten | SgfAnalyzer.ExtractFirstGame |

For each row:
- the counterexample lemmas are `SgfFeatures.TerritoryIndexingMismatch` and `SgfAnalyzer.RootListLosesMoves`;
- the rest of the model uses the corrected member: `SgfFeatures.AnalysisOf`, `SgfAnalyzer.Analyzer.AnalyzeSimpleTerritory` and `SgfAnalyzer.Analyzer.ParseSgf`.
