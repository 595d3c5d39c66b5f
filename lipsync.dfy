/** Viseme lip-sync: picking the mouth shape for the current audio time from
    the message's cue timeline. */
module LipSync {
  import opened Wrappers
  import opened Catalogue

  /** One entry of `lipsync.mouthCues`: a time span in seconds and the
      one-letter viseme symbol shown during it. */
  datatype Cue = Cue(start: real, end: real, value: string)

  /** `t >= cue.start && t <= cue.end`: both ends are inclusive. */
  predicate Covers(c: Cue, t: real) {
    c.start <= t <= c.end
  }

  /** The index of the first cue, in timeline order, whose span holds `t`;
      None when no cue holds it. */
  function FirstMatch(cues: seq<Cue>, t: real): (r: Option<nat>)
    ensures r.Some? ==> r.value < |cues| && Covers(cues[r.value], t)
    ensures r.Some? ==> forall j | 0 <= j < r.value :: !Covers(cues[j], t)
    ensures r.None? ==> forall j | 0 <= j < |cues| :: !Covers(cues[j], t)
  {
    if cues == [] then None
    else if Covers(cues[0], t) then Some(0)
    else match FirstMatch(cues[1..], t)
      case None => None
      case Some(i) => Some(i + 1)
  }

  /** The mouth shape for time `t`: the viseme of the first cue holding `t`,
      the closed mouth when no cue holds it or its symbol is not in the
      table. */
  function MouthTarget(cues: seq<Cue>, t: real): (r: Viseme)
  {
    match FirstMatch(cues, t)
    case None => Closed
    case Some(i) => VisemeFor(cues[i].value)
  }

  /** The frame's scan of the timeline: walk the cues in order and stop at
      the first one whose span holds `t`. */
  method SampleMouth(cues: seq<Cue>, t: real) returns (open: real, smile: real, extra: seq<(string, real)>)
    ensures Viseme(open, smile, extra) == MouthTarget(cues, t)
  {
    open, smile, extra := 0.0, 0.0, [];
    var i := 0;
    while i < |cues|
      invariant 0 <= i <= |cues|
      invariant forall j | 0 <= j < i :: !Covers(cues[j], t)
      invariant open == 0.0 && smile == 0.0 && extra == []
    {
      var cue := cues[i];
      if t >= cue.start && t <= cue.end {
        var entry := VisemeFor(cue.value);
        open, smile := entry.open, entry.smile;
        extra := entry.extra;
        assert FirstMatch(cues, t) == Some(i);
        return;
      }
      i := i + 1;
    }
  }

  /** The first holding cue wins and decides the shape; another holding cue
      later in the timeline never does, however tightly it fits `t`. */
  lemma {:induction false} EarlierCueWins(cues: seq<Cue>, i: nat, j: nat, t: real)
    requires i < j < |cues| && Covers(cues[i], t) && Covers(cues[j], t)
    requires forall k | 0 <= k < i :: !Covers(cues[k], t)
    ensures FirstMatch(cues, t) == Some(i)
    ensures MouthTarget(cues, t) == VisemeFor(cues[i].value)
  {
    var r := FirstMatch(cues, t);
    assert r.Some? && r.value == i;
  }

  /** With no holding cue, or a symbol missing from the table, the mouth
      closes: opening 0, smile 0, nothing else written. */
  lemma ClosedWhenNoShape(cues: seq<Cue>, t: real)
    requires (forall j | 0 <= j < |cues| :: !Covers(cues[j], t))
          || (exists i | 0 <= i < |cues| :: Covers(cues[i], t) && cues[i].value !in Visemes
                && forall k | 0 <= k < i :: !Covers(cues[k], t))
    ensures MouthTarget(cues, t) == Closed
  {
    if !(forall j | 0 <= j < |cues| :: !Covers(cues[j], t)) {
      var i :| 0 <= i < |cues| && Covers(cues[i], t) && cues[i].value !in Visemes
               && forall k | 0 <= k < i :: !Covers(cues[k], t);
      var r := FirstMatch(cues, t);
      assert r.Some? && r.value == i;
    }
  }

  /** The table holds no row with extra channels, so the viseme stage only
      ever writes the two mouth channels. */
  lemma MouthTargetHasNoExtras(cues: seq<Cue>, t: real)
    ensures MouthTarget(cues, t).extra == []
  {
    match FirstMatch(cues, t)
    case None =>
    case Some(i) => VisemesHaveNoExtras(cues[i].value);
  }

  /** A sorted, non-overlapping timeline [A over 0..1, B over 1..2]: time 0.5
      shows A, time 1.5 shows B, time 2.5 shows the closed mouth. */
  lemma SortedTimelineSamples()
    ensures MouthTarget([Cue(0.0, 1.0, "A"), Cue(1.0, 2.0, "B")], 0.5) == Visemes["A"]
    ensures MouthTarget([Cue(0.0, 1.0, "A"), Cue(1.0, 2.0, "B")], 1.5) == Visemes["B"]
    ensures MouthTarget([Cue(0.0, 1.0, "A"), Cue(1.0, 2.0, "B")], 2.5) == Closed
  {
  }

  /** Two cues over the same span: the first in the timeline is chosen. */
  lemma OverlapTieBreak()
    ensures MouthTarget([Cue(0.0, 2.0, "A"), Cue(0.0, 2.0, "B")], 1.0) == Viseme(1.0, 0.38, [])
  {
    EarlierCueWins([Cue(0.0, 2.0, "A"), Cue(0.0, 2.0, "B")], 0, 1, 1.0);
  }
}
