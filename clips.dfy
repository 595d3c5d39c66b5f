/** The animation catalogue as the component prepares it: each clip keeps its
    name and duration but only the tracks that animate a node present in the
    character's scene; and the clip the character starts with. */
module Clips {
  import opened Wrappers

  /** A track is known by its name, `<node>.<property>`. */
  datatype Track = Track(name: string)

  datatype Clip = Clip(name: string, duration: real, tracks: seq<Track>)

  /** `name.split(".")[0]`: the text before the first '.', or all of it. */
  function NodeName(name: string): (r: string)
    ensures |r| <= |name| && r == name[..|r|]
    ensures forall k | 0 <= k < |r| :: r[k] != '.'
    ensures |r| < |name| ==> name[|r|] == '.'
  {
    if name == [] || name[0] == '.' then [] else [name[0]] + NodeName(name[1..])
  }

  /** The scene's node names, leaving out unnamed nodes (`if (child.name)`). */
  function ValidNodes(sceneNames: seq<string>): (r: set<string>)
    ensures forall n :: n in r <==> n in sceneNames && n != ""
  {
    set n | n in sceneNames && n != ""
  }

  predicate Keeps(nodes: set<string>, t: Track) {
    NodeName(t.name) in nodes
  }

  /** The tracks whose node is a known node, in their original order. */
  function FilterTracks(tracks: seq<Track>, nodes: set<string>): (r: seq<Track>)
    ensures |r| <= |tracks|
    ensures forall t :: t in r <==> t in tracks && Keeps(nodes, t)
  {
    if tracks == [] then []
    else (if Keeps(nodes, tracks[0]) then [tracks[0]] else []) + FilterTracks(tracks[1..], nodes)
  }

  /** Filtering keeps every track when every track's node is known. */
  lemma {:induction false} FilterKeepsKnown(tracks: seq<Track>, nodes: set<string>)
    requires forall i | 0 <= i < |tracks| :: Keeps(nodes, tracks[i])
    ensures FilterTracks(tracks, nodes) == tracks
  {
    if tracks != [] {
      FilterKeepsKnown(tracks[1..], nodes);
      assert [tracks[0]] + tracks[1..] == tracks;
    }
  }

  /** Filtering works piecewise, so tracks keep their relative order: the
      kept tracks of a list are those of its first part followed by those of
      the rest. */
  lemma {:induction false} FilterSplits(a: seq<Track>, b: seq<Track>, nodes: set<string>)
    ensures FilterTracks(a + b, nodes) == FilterTracks(a, nodes) + FilterTracks(b, nodes)
    decreases |a|
  {
    if a == [] {
      assert a + b == b;
    } else {
      assert (a + b)[0] == a[0];
      assert (a + b)[1..] == a[1..] + b;
      FilterSplits(a[1..], b, nodes);
    }
  }

  /** A track whose name starts with '.' (or is empty) names no node and is
      always dropped, since unnamed nodes are never collected. */
  lemma UnnamedNodeDropped(sceneNames: seq<string>, t: Track)
    requires t.name == [] || t.name[0] == '.'
    ensures !Keeps(ValidNodes(sceneNames), t)
  {
  }

  /** The filtered catalogue: one clip per source clip, in order, with the
      same name and duration and exactly the tracks of known nodes. */
  function FilterClips(clips: seq<Clip>, sceneNames: seq<string>): (r: seq<Clip>)
    ensures |r| == |clips|
    ensures forall i | 0 <= i < |clips| ::
      r[i].name == clips[i].name && r[i].duration == clips[i].duration
      && (forall t :: t in r[i].tracks <==> t in clips[i].tracks && NodeName(t.name) in sceneNames && NodeName(t.name) != "")
  {
    var nodes := ValidNodes(sceneNames);
    seq(|clips|, i requires 0 <= i < |clips| => Clip(clips[i].name, clips[i].duration, FilterTracks(clips[i].tracks, nodes)))
  }

  /** The starting animation: "Idle" if some clip has that name, otherwise
      the first clip's name; None when there is no clip. */
  function InitialAnimation(clips: seq<Clip>): (r: Option<string>)
    ensures r == Some("Idle") <==> exists i | 0 <= i < |clips| :: clips[i].name == "Idle"
    ensures (forall i | 0 <= i < |clips| :: clips[i].name != "Idle") ==>
      r == if |clips| == 0 then None else Some(clips[0].name)
  {
    if exists i | 0 <= i < |clips| :: clips[i].name == "Idle" then Some("Idle")
    else if |clips| == 0 then None
    else Some(clips[0].name)
  }
}
