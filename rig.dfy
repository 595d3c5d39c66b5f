/** The loaded character's meshes as objects whose influence arrays the frame
    loop writes in place, the blend step over all of them, and the frame
    body. */
module Rig {
  import opened Wrappers
  import opened Catalogue
  import opened Blend
  import opened Morph
  import opened LipSync
  import opened FrameSpec

  /** A mesh of the scene: whether it is skinned, its morph-target dictionary
      (channel name to slot) and its influence slots. */
  class Mesh {
    const skinned: bool
    const dict: map<string, nat>
    const influences: array<Option<real>>

    constructor (skinned: bool, dict: map<string, nat>, influences: array<Option<real>>)
      ensures this.skinned == skinned && this.dict == dict && this.influences == influences
    {
      this.skinned := skinned;
      this.dict := dict;
      this.influences := influences;
    }

    /** Every dictionary slot exists in the influence array. */
    predicate Valid() {
      forall k | k in dict :: dict[k] < influences.Length
    }

    ghost function State(): (r: MeshState)
      reads influences
    {
      MeshState(skinned, dict, influences[..])
    }
  }

  /** Every mesh is well formed and no two meshes share an influence array. */
  predicate SceneValid(meshes: seq<Mesh>) {
    (forall i | 0 <= i < |meshes| :: meshes[i].Valid())
    && (forall i, j | 0 <= i < j < |meshes| :: meshes[i].influences != meshes[j].influences)
  }

  ghost function Footprint(meshes: seq<Mesh>): (r: set<object>) {
    set i | 0 <= i < |meshes| :: meshes[i].influences
  }

  /** The blend step (`lerpMorphTarget`): every skinned mesh whose dictionary
      names `target` has that slot moved `speed` of the way toward `value`. */
  method LerpMorphTarget(meshes: seq<Mesh>, target: string, value: real, speed: real)
    requires SceneValid(meshes)
    modifies Footprint(meshes)
    ensures forall i | 0 <= i < |meshes| ::
      meshes[i].State() == BlendMesh(old(meshes[i].State()), Command(target, value, speed))
  {
    for i := 0 to |meshes|
      invariant forall j | 0 <= j < i ::
        meshes[j].State() == BlendMesh(old(meshes[j].State()), Command(target, value, speed))
      invariant forall j | i <= j < |meshes| :: meshes[j].State() == old(meshes[j].State())
    {
      var child := meshes[i];
      if child.skinned && target in child.dict {
        var index := child.dict[target];
        var current := Read(child.influences[index]);
        child.influences[index] := Some(Lerp(current, value, speed));
        assert child.State().weights == old(child.State()).weights[index := Some(Lerp(current, value, speed))];
      }
    }
  }

  /** One blend step in the middle of a frame: the scene, which so far shows
      the commands `done` applied to `start`, then shows `done + [c]`. */
  method Issue(meshes: seq<Mesh>, c: Command, ghost start: seq<MeshState>, ghost done: seq<Command>)
    requires SceneValid(meshes) && Shows(meshes, start, done)
    modifies Footprint(meshes)
    ensures Shows(meshes, start, done + [c])
  {
    LerpMorphTarget(meshes, c.channel, c.target, c.speed);
    forall i | 0 <= i < |meshes|
      ensures meshes[i].State() == ApplyMesh(start[i], done + [c])
    {
      ApplyMeshSnoc(start[i], done, c);
    }
  }

  ghost function States(meshes: seq<Mesh>): (r: seq<MeshState>)
    reads Footprint(meshes)
    ensures |r| == |meshes|
    ensures forall i | 0 <= i < |meshes| :: r[i] == meshes[i].State()
  {
    seq(|meshes|, i reads Footprint(meshes) requires 0 <= i < |meshes| => meshes[i].State())
  }

  /** The scene shows the commands `done` applied to `start`, mesh by mesh. */
  ghost predicate Shows(meshes: seq<Mesh>, start: seq<MeshState>, done: seq<Command>)
    reads Footprint(meshes)
  {
    |start| == |meshes| && forall i | 0 <= i < |meshes| :: meshes[i].State() == ApplyMesh(start[i], done)
  }

  /** The expression loop: for every head key except the two blink channels,
      one step toward the preset value at rate 0.1. */
  method ExpressionStage(meshes: seq<Mesh>, headKeys: seq<string>, expression: string,
                         ghost start: seq<MeshState>, ghost done: seq<Command>)
    requires SceneValid(meshes) && Shows(meshes, start, done)
    modifies Footprint(meshes)
    ensures Shows(meshes, start, done + ExpressionCommands(headKeys, expression))
  {
    ghost var sofar := done;
    for k := 0 to |headKeys|
      invariant sofar == done + ExpressionCommands(headKeys[..k], expression)
      invariant Shows(meshes, start, sofar)
    {
      var key := headKeys[k];
      assert headKeys[..k + 1][..k] == headKeys[..k];
      if !IsBlink(key) {
        var c := Command(key, PresetTarget(expression, key), ExpressionSpeed);
        Issue(meshes, c, start, sofar);
        sofar := sofar + [c];
      }
    }
    assert headKeys[..|headKeys|] == headKeys;
  }

  /** The two blink steps at rate 0.5. */
  method BlinkStage(meshes: seq<Mesh>, blink: bool, winkLeft: bool, winkRight: bool,
                    ghost start: seq<MeshState>, ghost done: seq<Command>)
    requires SceneValid(meshes) && Shows(meshes, start, done)
    modifies Footprint(meshes)
    ensures Shows(meshes, start, done + BlinkCommands(blink, winkLeft, winkRight))
  {
    var left := Command(BlinkLeft, if blink || winkLeft then 1.0 else 0.0, BlinkSpeed);
    Issue(meshes, left, start, done);
    var right := Command(BlinkRight, if blink || winkRight then 1.0 else 0.0, BlinkSpeed);
    Issue(meshes, right, start, done + [left]);
    assert done + [left] + [right] == done + BlinkCommands(blink, winkLeft, winkRight);
  }

  /** The steps for the sampled viseme's further channels, in entry order. */
  method ExtraStage(meshes: seq<Mesh>, extra: seq<(string, real)>, ghost start: seq<MeshState>, ghost done: seq<Command>)
    requires SceneValid(meshes) && Shows(meshes, start, done)
    modifies Footprint(meshes)
    ensures Shows(meshes, start, done + ExtraCommands(extra))
  {
    ghost var sofar := done;
    for j := 0 to |extra|
      invariant sofar == done + ExtraCommands(extra[..j])
      invariant Shows(meshes, start, sofar)
    {
      var c := Command(extra[j].0, extra[j].1, MouthSpeed);
      assert ExtraCommands(extra[..j + 1]) == ExtraCommands(extra[..j]) + [c];
      Issue(meshes, c, start, sofar);
      sofar := sofar + [c];
    }
    assert extra[..|extra|] == extra;
  }

  /** The viseme stage: when a message, its cue array and its audio are all
      present, sample the timeline at the audio time and step the mouth
      channels toward the shape at rate 0.2. */
  method MouthStage(meshes: seq<Mesh>, input: MouthInput, ghost start: seq<MeshState>, ghost done: seq<Command>)
    requires SceneValid(meshes) && Shows(meshes, start, done)
    modifies Footprint(meshes)
    ensures Shows(meshes, start, done + MouthCommands(input))
  {
    if ActiveCues(input).Some? {
      var cues := ActiveCues(input).value;
      var open, smile, extra := SampleMouth(cues, input.time);
      var openCmd := Command(MouthOpen, open, MouthSpeed);
      var smileCmd := Command(MouthSmile, smile, MouthSpeed);
      Issue(meshes, openCmd, start, done);
      Issue(meshes, smileCmd, start, done + [openCmd]);
      ExtraStage(meshes, extra, start, done + [openCmd] + [smileCmd]);
      assert MouthCommands(input) == [openCmd, smileCmd] + ExtraCommands(extra);
      assert done + [openCmd] + [smileCmd] + ExtraCommands(extra) == done + MouthCommands(input);
    } else {
      assert MouthCommands(input) == [];
      assert done + [] == done;
    }
  }

  /** The blending body of one frame: the expression loop over the head
      mesh's keys, the two blink channels, then the viseme stage; nothing in
      setup mode. */
  method FrameUpdate(meshes: seq<Mesh>, setupMode: bool, headKeys: seq<string>, expression: string,
                     blink: bool, winkLeft: bool, winkRight: bool, input: MouthInput)
    requires SceneValid(meshes)
    modifies Footprint(meshes)
    ensures forall i | 0 <= i < |meshes| ::
              meshes[i].State() == ApplyMesh(old(meshes[i].State()),
                                             FrameCommands(setupMode, headKeys, expression, blink, winkLeft, winkRight, input))
  {
    if setupMode {
      return;
    }
    ghost var start := States(meshes);
    ExpressionStage(meshes, headKeys, expression, start, []);
    ghost var e := ExpressionCommands(headKeys, expression);
    assert [] + e == e;
    BlinkStage(meshes, blink, winkLeft, winkRight, start, e);
    ghost var b := BlinkCommands(blink, winkLeft, winkRight);
    MouthStage(meshes, input, start, e + b);
    assert e + b + MouthCommands(input) == FrameCommands(setupMode, headKeys, expression, blink, winkLeft, winkRight, input);
  }
}
