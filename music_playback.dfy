/** The scheduling arithmetic of `playMusicStructure`: every note event of every section is
    handed to its voice's synthesizer at the section's start offset plus the event's own
    time. The synthesizer calls are modelled as the list of triggers they receive. */
module MusicPlayback {
  import opened SgfFeatures
  import opened MusicPlan

  datatype Voice = MelodyVoice | BassVoice | PadVoice | PercussionVoice

  /** One `triggerAttackRelease(note, duration, time, velocity)` call on a voice. */
  datatype Trigger = Trigger(voice: Voice, note: string, duration: real, time: real, velocity: real)

  /** The truthiness guard `note.note && note.duration && note.velocity`. */
  predicate Playable(e: NoteEvent) {
    |e.note| > 0 && e.duration != 0.0 && e.velocity != 0.0
  }

  function VoiceEvents(s: Section, v: Voice): seq<NoteEvent> {
    match v
    case MelodyVoice => s.melody
    case BassVoice => s.bass
    case PadVoice => s.pads
    case PercussionVoice => s.percussion
  }

  /** The triggers one voice's `forEach` issues: one per playable event, in order, at
      `start` plus the event's time; an unplayable event is skipped. */
  function Fire(v: Voice, events: seq<NoteEvent>, start: real): seq<Trigger> {
    if events == [] then []
    else
      var e := events[|events| - 1];
      Fire(v, events[..|events| - 1], start)
        + (if Playable(e) then [Trigger(v, e.note, e.duration, start + e.time, e.velocity)] else [])
  }

  /** A section's triggers: melody, then bass, then pads, then percussion. */
  function SectionTriggers(s: Section, start: real): seq<Trigger> {
    Fire(MelodyVoice, s.melody, start) + Fire(BassVoice, s.bass, start)
      + Fire(PadVoice, s.pads, start) + Fire(PercussionVoice, s.percussion, start)
  }

  /** All triggers, with the running offset advanced by each section's duration. */
  function Schedule(ss: seq<Section>, start: real): seq<Trigger> {
    if ss == [] then []
    else SectionTriggers(ss[0], start) + Schedule(ss[1..], start + ss[0].duration)
  }

  /** The section after `ss` starts at `start` plus the sum of the durations in `ss`. */
  lemma {:induction false} ScheduleSnoc(ss: seq<Section>, s: Section, start: real)
    ensures Schedule(ss + [s], start) == Schedule(ss, start) + SectionTriggers(s, start + TotalDuration(ss))
  {
    if ss == [] {
      assert [] + [s] == [s];
      assert [s][1..] == [];
    } else {
      assert (ss + [s])[0] == ss[0];
      assert (ss + [s])[1..] == ss[1..] + [s];
      ScheduleSnoc(ss[1..], s, start + ss[0].duration);
    }
  }

  lemma TotalDurationSnoc(ss: seq<Section>, s: Section)
    ensures TotalDuration(ss + [s]) == TotalDuration(ss) + s.duration
  {
    TotalDurationAppend(ss, [s]);
    assert [s][1..] == [];
  }

  /** `forEach` over one voice's events, pushing a trigger and counting it when the event
      passes the guard. */
  method ScheduleVoice(v: Voice, events: seq<NoteEvent>, start: real, triggers: seq<Trigger>, count: nat)
    returns (triggers': seq<Trigger>, count': nat)
    requires count == |triggers|
    ensures triggers' == triggers + Fire(v, events, start)
    ensures count' == |triggers'|
  {
    triggers', count' := triggers, count;
    for i := 0 to |events|
      invariant triggers' == triggers + Fire(v, events[..i], start)
      invariant count' == |triggers'|
    {
      var note := events[i];
      assert events[..i + 1][..i] == events[..i];
      if |note.note| > 0 && note.duration != 0.0 && note.velocity != 0.0 {
        triggers' := triggers' + [Trigger(v, note.note, note.duration, start + note.time, note.velocity)];
        count' := count' + 1;
      }
    }
    assert events[..|events|] == events;
  }

  /** The body of the `forEach` over sections: its four voices, in order. */
  method ScheduleSection(section: Section, currentTime: real, triggers: seq<Trigger>, count: nat)
    returns (triggers': seq<Trigger>, count': nat)
    requires count == |triggers|
    ensures triggers' == triggers + SectionTriggers(section, currentTime)
    ensures count' == |triggers'|
  {
    triggers', count' := ScheduleVoice(MelodyVoice, section.melody, currentTime, triggers, count);
    triggers', count' := ScheduleVoice(BassVoice, section.bass, currentTime, triggers', count');
    triggers', count' := ScheduleVoice(PadVoice, section.pads, currentTime, triggers', count');
    triggers', count' := ScheduleVoice(PercussionVoice, section.percussion, currentTime, triggers', count');
  }

  /** `playMusicStructure`: sets the tempo, then schedules section after section, advancing
      the current time by each section's duration. Returns the tempo, the triggers issued and
      the note count. */
  method PlayMusicStructure(structure: MusicStructure) returns (bpm: int, triggers: seq<Trigger>, totalNotes: nat)
    ensures bpm == structure.tempo
    ensures triggers == Schedule(structure.sections, 0.0)
    ensures totalNotes == |triggers|
  {
    bpm := structure.tempo;
    var sections := structure.sections;
    var currentTime := 0.0;
    triggers, totalNotes := [], 0;
    for k := 0 to |sections|
      invariant currentTime == TotalDuration(sections[..k])
      invariant triggers == Schedule(sections[..k], 0.0)
      invariant totalNotes == |triggers|
    {
      var section := sections[k];
      triggers, totalNotes := ScheduleSection(section, currentTime, triggers, totalNotes);
      assert sections[..k + 1] == sections[..k] + [section];
      ScheduleSnoc(sections[..k], section, 0.0);
      TotalDurationSnoc(sections[..k], section);
      currentTime := currentTime + section.duration;
    }
    assert sections[..|sections|] == sections;
  }

  // ----- Nothing is skipped -----

  /** When every event passes the guard, the voice fires one trigger per event. */
  lemma {:induction false} FireAll(v: Voice, events: seq<NoteEvent>, start: real)
    requires forall e <- events :: Playable(e)
    ensures |Fire(v, events, start)| == |events|
    ensures forall i :: 0 <= i < |events| ==>
              Fire(v, events, start)[i] ==
                Trigger(v, events[i].note, events[i].duration, start + events[i].time, events[i].velocity)
  {
    if events != [] {
      FireAll(v, events[..|events| - 1], start);
    }
  }

  predicate AllPlayable(s: Section) {
    forall v: Voice :: forall e <- VoiceEvents(s, v) :: Playable(e)
  }

  function EventCount(ss: seq<Section>): nat {
    if ss == [] then 0
    else |ss[0].melody| + |ss[0].bass| + |ss[0].pads| + |ss[0].percussion| + EventCount(ss[1..])
  }

  /** With every event playable, the note count is the number of events. */
  lemma {:induction false} ScheduleCountsEvents(ss: seq<Section>, start: real)
    requires forall s <- ss :: AllPlayable(s)
    ensures |Schedule(ss, start)| == EventCount(ss)
  {
    if ss != [] {
      SectionCountsEvents(ss[0], start);
      ScheduleCountsEvents(ss[1..], start + ss[0].duration);
    }
  }

  lemma SectionCountsEvents(s: Section, start: real)
    requires AllPlayable(s)
    ensures |SectionTriggers(s, start)| == |s.melody| + |s.bass| + |s.pads| + |s.percussion|
  {
    assert forall e <- VoiceEvents(s, MelodyVoice) :: Playable(e);
    assert forall e <- VoiceEvents(s, BassVoice) :: Playable(e);
    assert forall e <- VoiceEvents(s, PadVoice) :: Playable(e);
    assert forall e <- VoiceEvents(s, PercussionVoice) :: Playable(e);
    FireAll(MelodyVoice, s.melody, start);
    FireAll(BassVoice, s.bass, start);
    FireAll(PadVoice, s.pads, start);
    FireAll(PercussionVoice, s.percussion, start);
  }

  /** Every event of a planned section passes the guard: notes are non-empty, durations
      positive, velocities 1, 0.7, 0.3 or an aggression above 0.6. */
  lemma SectionPlayable(kind: SectionKind, moves: seq<SectionMove>, scale: ScaleName, key: string)
    requires |key| > 0
    ensures AllPlayable(SectionOf(kind, moves, scale, key))
  {
    var s := SectionOf(kind, moves, scale, key);
    forall i | 0 <= i < |moves|
      ensures Playable(s.melody[i])
    {
      NoteForMoveInScale(moves[i], scale, i);
    }
    PercussionPlayable(moves);
  }

  lemma {:induction false} PercussionPlayable(moves: seq<SectionMove>)
    ensures forall e <- PercussionOf(moves) :: Playable(e)
  {
    if moves != [] {
      PercussionPlayable(moves[..|moves| - 1]);
    }
  }

  /** Every section of a planned structure is fully played: the note count of
      `playMusicStructure` equals the number of events the plan holds. */
  lemma PlannedNothingSkipped(a: GameAnalysis)
    ensures var ss := StructureFor(a).sections;
            |Schedule(ss, 0.0)| == EventCount(ss)
  {
    var scale := ScaleForGame(a.aggressionLevel);
    var key := KeyForGame(a.territoryBalance);
    var ps := a.movePatterns;
    var ss := PlannedSections(ps, scale, key);
    SectionPlayable(OpeningSection, FromPatterns(OpeningWindow(ps)), scale, key);
    SectionPlayable(MiddleSection, FromPatterns(MiddleWindow(ps)), scale, key);
    SectionPlayable(EndingSection, FromPatterns(EndingWindow(ps)), scale, key);
    SectionPlayable(FallbackSection, FallbackMoves, scale, key);
    assert forall s <- ss :: AllPlayable(s);
    ScheduleCountsEvents(ss, 0.0);
  }

  // ----- Trigger times -----

  /** The times of the triggers that go to voice `v`, in order. */
  function TimesOf(v: Voice, ts: seq<Trigger>): seq<real> {
    if ts == [] then []
    else TimesOf(v, ts[..|ts| - 1]) + (if ts[|ts| - 1].voice == v then [ts[|ts| - 1].time] else [])
  }

  function EventTimes(events: seq<NoteEvent>): seq<real> {
    seq(|events|, i requires 0 <= i < |events| => events[i].time)
  }

  predicate Increasing(xs: seq<real>) {
    forall i, j :: 0 <= i < j < |xs| ==> xs[i] < xs[j]
  }

  predicate Within(xs: seq<real>, lo: real, hi: real) {
    forall i :: 0 <= i < |xs| ==> lo <= xs[i] < hi
  }

  /** Strictly increasing and inside [lo, hi), stated element by element from the back:
      every earlier time lies below the last one. */
  predicate Ascending(xs: seq<real>, lo: real, hi: real) {
    xs == [] || (Ascending(xs[..|xs| - 1], lo, xs[|xs| - 1]) && lo <= xs[|xs| - 1] < hi)
  }

  /** `Ascending` is exactly "strictly increasing, all inside [lo, hi)". */
  lemma {:induction false} AscendingMeans(xs: seq<real>, lo: real, hi: real)
    ensures Ascending(xs, lo, hi) <==> Increasing(xs) && Within(xs, lo, hi)
  {
    if xs != [] {
      var n := |xs| - 1;
      var init, x := xs[..n], xs[n];
      AscendingMeans(init, lo, x);
      if Ascending(xs, lo, hi) {
        assert Increasing(init) && Within(init, lo, x);
        forall i, j | 0 <= i < j < |xs|
          ensures xs[i] < xs[j]
        {
          assert xs[i] == init[i];
          if j < n {
            assert xs[j] == init[j];
          }
        }
        forall i | 0 <= i < |xs|
          ensures lo <= xs[i] < hi
        {
          if i < n {
            assert xs[i] == init[i];
          }
        }
      }
      if Increasing(xs) && Within(xs, lo, hi) {
        forall i, j | 0 <= i < j < |init|
          ensures init[i] < init[j]
        {
          assert init[i] == xs[i] && init[j] == xs[j];
        }
        forall i | 0 <= i < |init|
          ensures lo <= init[i] < x
        {
          assert init[i] == xs[i];
        }
      }
    }
  }

  lemma {:induction false} AscendingWiden(xs: seq<real>, lo: real, hi: real, hi': real)
    requires Ascending(xs, lo, hi) && hi <= hi'
    ensures Ascending(xs, lo, hi')
  {
  }

  lemma {:induction false} AscendingSnoc(xs: seq<real>, x: real, lo: real, hi: real)
    requires Ascending(xs, lo, x) && lo <= x < hi
    ensures Ascending(xs + [x], lo, hi)
  {
    assert (xs + [x])[..|xs|] == xs;
  }

  /** Two runs of times, the second starting where the first's bound ends, join into one. */
  lemma {:induction false} AscendingAppend(xs: seq<real>, ys: seq<real>, lo: real, mid: real, hi: real)
    requires Ascending(xs, lo, mid) && Ascending(ys, mid, hi) && lo <= mid <= hi
    ensures Ascending(xs + ys, lo, hi)
  {
    if ys == [] {
      assert xs + ys == xs;
      AscendingWiden(xs, lo, mid, hi);
    } else {
      var n := |ys| - 1;
      AscendingAppend(xs, ys[..n], lo, mid, ys[n]);
      assert xs + ys == (xs + ys[..n]) + [ys[n]];
      AscendingSnoc(xs + ys[..n], ys[n], lo, hi);
    }
  }

  /** Each voice's events start in increasing order, inside the section's span. */
  predicate WellTimed(s: Section) {
    && s.duration >= 0.0
    && Ascending(EventTimes(s.melody), 0.0, s.duration)
    && Ascending(EventTimes(s.bass), 0.0, s.duration)
    && Ascending(EventTimes(s.pads), 0.0, s.duration)
    && Ascending(EventTimes(s.percussion), 0.0, s.duration)
  }

  lemma {:induction false} TimesOfAppend(v: Voice, a: seq<Trigger>, b: seq<Trigger>)
    ensures TimesOf(v, a + b) == TimesOf(v, a) + TimesOf(v, b)
  {
    if b == [] {
      assert a + b == a;
    } else {
      assert (a + b)[..|a + b| - 1] == a + b[..|b| - 1];
      TimesOfAppend(v, a, b[..|b| - 1]);
    }
  }

  /** The triggers of one voice's events keep their order and fall in [start, start + hi). */
  lemma {:induction false} FireTimes(v: Voice, events: seq<NoteEvent>, start: real, hi: real)
    requires Ascending(EventTimes(events), 0.0, hi)
    ensures Ascending(TimesOf(v, Fire(v, events, start)), start, start + hi)
  {
    if events != [] {
      var n := |events| - 1;
      var e := events[n];
      assert EventTimes(events)[..n] == EventTimes(events[..n]);
      assert Ascending(EventTimes(events[..n]), 0.0, e.time) && 0.0 <= e.time < hi;
      FireTimes(v, events[..n], start, e.time);
      FireSnocTimes(v, events, start);
      var earlier := TimesOf(v, Fire(v, events[..n], start));
      assert Ascending(earlier, start, start + e.time);
      if Playable(e) {
        AscendingSnoc(earlier, start + e.time, start, start + hi);
        assert TimesOf(v, Fire(v, events, start)) == earlier + [start + e.time];
      } else {
        AscendingWiden(earlier, start, start + e.time, start + hi);
        assert TimesOf(v, Fire(v, events, start)) == earlier;
      }
    }
  }

  /** The last event adds its own time, when it is played, to the voice's times. */
  lemma FireSnocTimes(v: Voice, events: seq<NoteEvent>, start: real)
    requires events != []
    ensures var e := events[|events| - 1];
            TimesOf(v, Fire(v, events, start))
              == TimesOf(v, Fire(v, events[..|events| - 1], start)) + (if Playable(e) then [start + e.time] else [])
  {
    var n := |events| - 1;
    var e := events[n];
    var t := Trigger(v, e.note, e.duration, start + e.time, e.velocity);
    var last := if Playable(e) then [t] else [];
    assert Fire(v, events, start) == Fire(v, events[..n], start) + last;
    TimesOfAppend(v, Fire(v, events[..n], start), last);
    TimesOfOne(v, t);
  }

  lemma TimesOfOne(v: Voice, t: Trigger)
    ensures TimesOf(v, [t]) == if t.voice == v then [t.time] else []
  {
    assert [t][..0] == [];
  }

  /** Another voice's `forEach` sends nothing to `v`. */
  lemma {:induction false} FireOtherVoice(v: Voice, w: Voice, events: seq<NoteEvent>, start: real)
    requires v != w
    ensures TimesOf(v, Fire(w, events, start)) == []
  {
    if events != [] {
      var n := |events| - 1;
      var e := events[n];
      FireOtherVoice(v, w, events[..n], start);
      var last := if Playable(e) then [Trigger(w, e.note, e.duration, start + e.time, e.velocity)] else [];
      TimesOfAppend(v, Fire(w, events[..n], start), last);
      if Playable(e) {
        assert last[..0] == [];
      }
    }
  }

  lemma VoiceTimesInSection(v: Voice, s: Section, start: real)
    ensures TimesOf(v, SectionTriggers(s, start)) == TimesOf(v, Fire(v, VoiceEvents(s, v), start))
  {
    var m, b, p, q := Fire(MelodyVoice, s.melody, start), Fire(BassVoice, s.bass, start),
                      Fire(PadVoice, s.pads, start), Fire(PercussionVoice, s.percussion, start);
    assert TimesOf(v, SectionTriggers(s, start)) == TimesOf(v, m) + TimesOf(v, b) + TimesOf(v, p) + TimesOf(v, q) by {
      TimesOfAppend(v, m, b);
      TimesOfAppend(v, m + b, p);
      TimesOfAppend(v, m + b + p, q);
    }
    match v
    case MelodyVoice =>
      FireOtherVoice(v, BassVoice, s.bass, start);
      FireOtherVoice(v, PadVoice, s.pads, start);
      FireOtherVoice(v, PercussionVoice, s.percussion, start);
      assert TimesOf(v, m) + [] + [] + [] == TimesOf(v, m);
    case BassVoice =>
      FireOtherVoice(v, MelodyVoice, s.melody, start);
      FireOtherVoice(v, PadVoice, s.pads, start);
      FireOtherVoice(v, PercussionVoice, s.percussion, start);
      assert [] + TimesOf(v, b) + [] + [] == TimesOf(v, b);
    case PadVoice =>
      FireOtherVoice(v, MelodyVoice, s.melody, start);
      FireOtherVoice(v, BassVoice, s.bass, start);
      FireOtherVoice(v, PercussionVoice, s.percussion, start);
      assert [] + [] + TimesOf(v, p) + [] == TimesOf(v, p);
    case PercussionVoice =>
      FireOtherVoice(v, MelodyVoice, s.melody, start);
      FireOtherVoice(v, BassVoice, s.bass, start);
      FireOtherVoice(v, PadVoice, s.pads, start);
      assert [] + [] + [] + TimesOf(v, q) == TimesOf(v, q);
  }

  lemma SectionTimes(v: Voice, s: Section, start: real)
    requires WellTimed(s)
    ensures Ascending(TimesOf(v, SectionTriggers(s, start)), start, start + s.duration)
  {
    VoiceTimesInSection(v, s, start);
    assert Ascending(EventTimes(VoiceEvents(s, v)), 0.0, s.duration);
    FireTimes(v, VoiceEvents(s, v), start, s.duration);
  }

  /** For well-timed sections, each voice's trigger times strictly increase across the
      whole schedule and stay inside [start, start + total duration). */
  lemma {:induction false} ScheduleTimes(v: Voice, ss: seq<Section>, start: real)
    requires forall s <- ss :: WellTimed(s)
    ensures TotalDuration(ss) >= 0.0
    ensures Ascending(TimesOf(v, Schedule(ss, start)), start, start + TotalDuration(ss))
  {
    if ss != [] {
      assert WellTimed(ss[0]);
      ScheduleTimes(v, ss[1..], start + ss[0].duration);
      ScheduleTimesStep(v, ss, start);
    }
  }

  /** The first section's times, then the rest's, already ascending from where the
      first section ends. */
  lemma ScheduleTimesStep(v: Voice, ss: seq<Section>, start: real)
    requires ss != [] && WellTimed(ss[0]) && TotalDuration(ss[1..]) >= 0.0
    requires var d := ss[0].duration;
             Ascending(TimesOf(v, Schedule(ss[1..], start + d)), start + d, start + d + TotalDuration(ss[1..]))
    ensures TotalDuration(ss) >= 0.0
    ensures Ascending(TimesOf(v, Schedule(ss, start)), start, start + TotalDuration(ss))
  {
    var d := ss[0].duration;
    var here, later := TimesOf(v, SectionTriggers(ss[0], start)), TimesOf(v, Schedule(ss[1..], start + d));
    assert Ascending(here, start, start + d) by {
      SectionTimes(v, ss[0], start);
    }
    AscendingAppend(here, later, start, start + d, start + d + TotalDuration(ss[1..]));
    ScheduleTimesJoin(v, ss, start);
  }

  /** A schedule's times on one voice: the first section's, then the rest's. */
  lemma ScheduleTimesJoin(v: Voice, ss: seq<Section>, start: real)
    requires ss != []
    ensures TimesOf(v, Schedule(ss, start))
              == TimesOf(v, SectionTriggers(ss[0], start)) + TimesOf(v, Schedule(ss[1..], start + ss[0].duration))
    ensures TotalDuration(ss) == ss[0].duration + TotalDuration(ss[1..])
  {
    TimesOfAppend(v, SectionTriggers(ss[0], start), Schedule(ss[1..], start + ss[0].duration));
  }

  lemma {:induction false} PercussionTimes(moves: seq<SectionMove>)
    ensures Ascending(EventTimes(PercussionOf(moves)), 0.0, 0.5 * |moves| as real)
  {
    if moves != [] {
      var n := |moves| - 1;
      var earlier := PercussionOf(moves[..n]);
      PercussionTimes(moves[..n]);
      if Aggressive(moves[n]) {
        var hit := NoteEvent("C2", 0.1, moves[n].aggression.value, TimeOf(n));
        assert EventTimes(PercussionOf(moves)) == EventTimes(earlier) + [hit.time];
        AscendingSnoc(EventTimes(earlier), hit.time, 0.0, 0.5 * |moves| as real);
      } else {
        assert PercussionOf(moves) == earlier + [];
        assert earlier + [] == earlier;
        AscendingWiden(EventTimes(earlier), 0.0, 0.5 * n as real, 0.5 * |moves| as real);
      }
    }
  }

  /** Every section `createSection` builds is well timed: events at half a second per
      move index, all before the section's end. */
  lemma SectionWellTimed(kind: SectionKind, moves: seq<SectionMove>, scale: ScaleName, key: string)
    ensures WellTimed(SectionOf(kind, moves, scale, key))
  {
    var s := SectionOf(kind, moves, scale, key);
    assert s.duration == 0.5 * |moves| as real;
    MelodyTimes(moves, scale);
    BassTimes(moves, key);
    PadTimes(moves, scale);
    PercussionTimes(moves);
  }

  lemma MelodyTimes(moves: seq<SectionMove>, scale: ScaleName)
    ensures Ascending(EventTimes(MelodyOf(moves, scale)), 0.0, 0.5 * |moves| as real)
  {
    var ts := EventTimes(MelodyOf(moves, scale));
    assert forall i :: 0 <= i < |ts| ==> ts[i] == 0.5 * i as real;
    assert Increasing(ts) && Within(ts, 0.0, 0.5 * |moves| as real);
    AscendingMeans(ts, 0.0, 0.5 * |moves| as real);
  }

  lemma BassTimes(moves: seq<SectionMove>, key: string)
    ensures Ascending(EventTimes(BassOf(moves, key)), 0.0, 0.5 * |moves| as real)
  {
    var ts := EventTimes(BassOf(moves, key));
    assert forall i :: 0 <= i < |ts| ==> ts[i] == 0.5 * i as real;
    assert Increasing(ts) && Within(ts, 0.0, 0.5 * |moves| as real);
    AscendingMeans(ts, 0.0, 0.5 * |moves| as real);
  }

  lemma PadTimes(moves: seq<SectionMove>, scale: ScaleName)
    ensures Ascending(EventTimes(PadsOf(moves, scale)), 0.0, 0.5 * |moves| as real)
  {
    var ts := EventTimes(PadsOf(moves, scale));
    var hi := 0.5 * |moves| as real;
    assert |ts| == (|moves| + 3) / 4;
    forall j | 0 <= j < |ts|
      ensures ts[j] == TimeOf(4 * j) && 0.0 <= ts[j] < hi
    {
      PadCountStep(|moves|);
      assert 4 * j < |moves|;
    }
    AscendingMeans(ts, 0.0, 0.5 * |moves| as real);
  }

  /** The whole point of the offsets: on every voice the planned music's trigger times
      strictly increase, and all fall within the total duration. */
  lemma PlannedVoicesInOrder(a: GameAnalysis, v: Voice)
    ensures var ss := StructureFor(a).sections;
            Increasing(TimesOf(v, Schedule(ss, 0.0)))
            && Within(TimesOf(v, Schedule(ss, 0.0)), 0.0, TotalDuration(ss))
  {
    var ss := StructureFor(a).sections;
    assert forall s <- ss :: WellTimed(s) by {
      PlannedWellTimed(a.movePatterns, ScaleForGame(a.aggressionLevel), KeyForGame(a.territoryBalance));
    }
    ScheduleTimes(v, ss, 0.0);
    AscendingMeans(TimesOf(v, Schedule(ss, 0.0)), 0.0, TotalDuration(ss));
  }

  lemma PlannedWellTimed(ps: seq<MovePattern>, scale: ScaleName, key: string)
    ensures forall s <- PlannedSections(ps, scale, key) :: WellTimed(s)
  {
    var so := WindowSection(OpeningSection, OpeningWindow(ps), scale, key);
    var sm := WindowSection(MiddleSection, MiddleWindow(ps), scale, key);
    var se := WindowSection(EndingSection, EndingWindow(ps), scale, key);
    var ss := PlannedSections(ps, scale, key);
    if |so + sm + se| == 0 {
      SectionWellTimed(FallbackSection, FallbackMoves, scale, key);
      assert ss == [SectionOf(FallbackSection, FallbackMoves, scale, key)];
    } else {
      assert ss == so + sm + se;
      WindowWellTimed(OpeningSection, OpeningWindow(ps), scale, key);
      WindowWellTimed(MiddleSection, MiddleWindow(ps), scale, key);
      WindowWellTimed(EndingSection, EndingWindow(ps), scale, key);
    }
  }

  lemma WindowWellTimed(kind: SectionKind, window: seq<MovePattern>, scale: ScaleName, key: string)
    ensures forall s <- WindowSection(kind, window, scale, key) :: WellTimed(s)
  {
    SectionWellTimed(kind, FromPatterns(window), scale, key);
  }
}
