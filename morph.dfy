/** The value-level view of the morph-target channels of a character: each
    mesh of the scene, in traversal order, with its channel dictionary (channel
    name to slot index) and its influence slots. A slot that holds no number
    (`undefined` in the source) is `None` and is read as 0. */
module Morph {
  import opened Wrappers
  import opened Blend

  datatype MeshState = MeshState(skinned: bool, dict: map<string, nat>, weights: seq<Option<real>>)

  /** One call of the blend step: drive `channel` toward `target` at `speed`. */
  datatype Command = Command(channel: string, target: real, speed: real)

  /** `morphTargetInfluences[index] || 0`. */
  function Read(w: Option<real>): (r: real) {
    w.GetOr(0.0)
  }

  /** Whether slot `j` of mesh `m` is the slot the blend step writes for `channel`. */
  predicate Hits(m: MeshState, channel: string, j: nat) {
    m.skinned && channel in m.dict && m.dict[channel] == j
  }

  /** One blend step on one mesh: in a skinned mesh whose dictionary names
      the channel, the channel's slot gets `cur + speed * (target - cur)` with
      a missing value read as 0; every other slot keeps its value, and a mesh
      that lacks the channel (or is not skinned) is unchanged. */
  function BlendMesh(m: MeshState, c: Command): (r: MeshState)
    ensures r.skinned == m.skinned && r.dict == m.dict && |r.weights| == |m.weights|
    ensures forall j | 0 <= j < |m.weights| ::
      r.weights[j] == if Hits(m, c.channel, j) then Some(Lerp(Read(m.weights[j]), c.target, c.speed)) else m.weights[j]
    ensures !(m.skinned && c.channel in m.dict) ==> r == m
  {
    if m.skinned && c.channel in m.dict && m.dict[c.channel] < |m.weights| then
      var j := m.dict[c.channel];
      m.(weights := m.weights[j := Some(Lerp(Read(m.weights[j]), c.target, c.speed))])
    else
      m
  }

  /** The commands applied one after another, first to last. */
  function ApplyMesh(m: MeshState, cmds: seq<Command>): (r: MeshState)
    ensures r.skinned == m.skinned && r.dict == m.dict && |r.weights| == |m.weights|
    decreases |cmds|
  {
    if cmds == [] then m else BlendMesh(ApplyMesh(m, cmds[..|cmds| - 1]), cmds[|cmds| - 1])
  }

  /** Applying one more command is one more blend step. */
  lemma ApplyMeshSnoc(m: MeshState, cmds: seq<Command>, c: Command)
    ensures ApplyMesh(m, cmds + [c]) == BlendMesh(ApplyMesh(m, cmds), c)
  {
    assert (cmds + [c])[..|cmds|] == cmds;
  }

  lemma {:induction false} ApplyMeshAppend(m: MeshState, a: seq<Command>, b: seq<Command>)
    ensures ApplyMesh(m, a + b) == ApplyMesh(ApplyMesh(m, a), b)
    decreases |b|
  {
    if b == [] {
      assert a + b == a;
    } else {
      var b' := b[..|b| - 1];
      assert (a + b)[..|a + b| - 1] == a + b';
      assert (a + b)[|a + b| - 1] == b[|b| - 1];
      ApplyMeshAppend(m, a, b');
    }
  }

  /** A slot that no command of the list hits keeps its value. */
  lemma {:induction false} ApplyMeshUntouched(m: MeshState, cmds: seq<Command>, j: nat)
    requires j < |m.weights|
    requires forall k | 0 <= k < |cmds| :: !Hits(m, cmds[k].channel, j)
    ensures ApplyMesh(m, cmds).weights[j] == m.weights[j]
    decreases |cmds|
  {
    if cmds != [] {
      var prefix := cmds[..|cmds| - 1];
      ApplyMeshUntouched(m, prefix, j);
    }
  }

  /** The value a channel of the mesh shows (0 when it is missing). */
  function ChannelValue(m: MeshState, channel: string): (r: real)
    requires channel in m.dict && m.dict[channel] < |m.weights|
  {
    Read(m.weights[m.dict[channel]])
  }

  /** The value a channel reaches when the commands addressed to it run in
      order over the starting value `v`, and every other command is skipped. */
  function Fold(v: real, channel: string, cmds: seq<Command>): (r: real)
    decreases |cmds|
  {
    if cmds == [] then v
    else
      var before := Fold(v, channel, cmds[..|cmds| - 1]);
      var c := cmds[|cmds| - 1];
      if c.channel == channel then Lerp(before, c.target, c.speed) else before
  }

  /** The fold over two commands. */
  lemma FoldPair(v: real, channel: string, c0: Command, c1: Command)
    ensures Fold(v, channel, [c0, c1]) ==
      var after0 := if c0.channel == channel then Lerp(v, c0.target, c0.speed) else v;
      if c1.channel == channel then Lerp(after0, c1.target, c1.speed) else after0
  {
    assert [c0, c1][..1] == [c0];
    assert [c0][..0] == [];
    assert Fold(v, channel, [c0]) == if c0.channel == channel then Lerp(v, c0.target, c0.speed) else v;
  }

  lemma {:induction false} FoldAppend(v: real, channel: string, a: seq<Command>, b: seq<Command>)
    ensures Fold(v, channel, a + b) == Fold(Fold(v, channel, a), channel, b)
    decreases |b|
  {
    if b == [] {
      assert a + b == a;
    } else {
      var b' := b[..|b| - 1];
      assert (a + b)[..|a + b| - 1] == a + b';
      assert (a + b)[|a + b| - 1] == b[|b| - 1];
      FoldAppend(v, channel, a, b');
    }
  }

  /** Commands addressed to other channels leave the folded value alone. */
  lemma {:induction false} FoldOthers(v: real, channel: string, cmds: seq<Command>)
    requires forall k | 0 <= k < |cmds| :: cmds[k].channel != channel
    ensures Fold(v, channel, cmds) == v
    decreases |cmds|
  {
    if cmds != [] {
      FoldOthers(v, channel, cmds[..|cmds| - 1]);
    }
  }

  /** A middle stretch of commands addressed to other channels can be skipped:
      the channel's value after `a + b + c` is that of `a` followed by `c`. */
  lemma FoldSkip(v: real, channel: string, a: seq<Command>, b: seq<Command>, c: seq<Command>)
    requires forall k | 0 <= k < |b| :: b[k].channel != channel
    ensures Fold(v, channel, a + b + c) == Fold(Fold(v, channel, a), channel, c)
  {
    FoldAppend(v, channel, a + b, c);
    FoldAppend(v, channel, a, b);
    FoldOthers(Fold(v, channel, a), channel, b);
  }

  /** The slot of a channel of a skinned mesh evolves exactly as the fold of
      the commands addressed to that channel, provided no other channel of the
      dictionary shares its slot. So the last command addressed to a channel
      in a frame is the one applied last to it: the order of the writers
      decides its final value. */
  lemma {:induction false} ChannelFollowsFold(m: MeshState, channel: string, cmds: seq<Command>)
    requires m.skinned && channel in m.dict && m.dict[channel] < |m.weights|
    requires forall other | other in m.dict && other != channel :: m.dict[other] != m.dict[channel]
    ensures ChannelValue(ApplyMesh(m, cmds), channel) == Fold(ChannelValue(m, channel), channel, cmds)
    decreases |cmds|
  {
    if cmds != [] {
      var prefix := cmds[..|cmds| - 1];
      ChannelFollowsFold(m, channel, prefix);
      var before := ApplyMesh(m, prefix);
      var c := cmds[|cmds| - 1];
      assert Hits(before, c.channel, m.dict[channel]) <==> c.channel == channel;
    }
  }
}
