/** The per-frame blending body as the ordered list of blend steps it issues:
    first the expression preset over every head channel except the two blink
    channels, then the two blink channels, then (when a message with cues and
    audio is active) the viseme mouth channels. */
module FrameSpec {
  import opened Wrappers
  import opened Catalogue
  import opened Blend
  import opened Morph
  import opened LipSync

  const BlinkLeft: string := "eyeBlinkLeft"
  const BlinkRight: string := "eyeBlinkRight"
  const MouthOpen: string := "mouthOpen"
  const MouthSmile: string := "mouthSmile"

  const ExpressionSpeed: real := 0.1
  const BlinkSpeed: real := 0.5
  const MouthSpeed: real := 0.2

  /** The `lipsync` object of a message; its `mouthCues` is None when it is
      missing or is not an array. */
  datatype LipsyncData = LipsyncData(mouthCues: Option<seq<Cue>>)

  /** What the frame reads about the active utterance: whether there is a
      message, its lip-sync data, whether an audio resource exists, and the
      audio clock. */
  datatype MouthInput = MouthInput(hasMessage: bool, lipsync: Option<LipsyncData>, hasAudio: bool, time: real)

  predicate IsBlink(key: string) {
    key == BlinkLeft || key == BlinkRight
  }

  /** The cue timeline the viseme stage samples this frame, or None when the
      stage is skipped. */
  function ActiveCues(input: MouthInput): (r: Option<seq<Cue>>)
    ensures r.Some? <==> input.hasMessage && input.hasAudio && input.lipsync.Some? && input.lipsync.value.mouthCues.Some?
    ensures r.Some? ==> r == input.lipsync.value.mouthCues
  {
    if input.hasMessage && input.lipsync.Some? && input.lipsync.value.mouthCues.Some? && input.hasAudio then
      input.lipsync.value.mouthCues
    else
      None
  }

  /** The steps the expression loop issues for one dictionary key. */
  function KeyCommands(expression: string, key: string): (r: seq<Command>) {
    if IsBlink(key) then [] else [Command(key, PresetTarget(expression, key), ExpressionSpeed)]
  }

  /** The expression loop over the head dictionary's keys, in key order. */
  function ExpressionCommands(keys: seq<string>, expression: string): (r: seq<Command>)
    decreases |keys|
  {
    if keys == [] then []
    else ExpressionCommands(keys[..|keys| - 1], expression) + KeyCommands(expression, keys[|keys| - 1])
  }

  /** The two blink steps. */
  function BlinkCommands(blink: bool, winkLeft: bool, winkRight: bool): (r: seq<Command>) {
    [Command(BlinkLeft, if blink || winkLeft then 1.0 else 0.0, BlinkSpeed),
     Command(BlinkRight, if blink || winkRight then 1.0 else 0.0, BlinkSpeed)]
  }

  /** The steps for a viseme's further channels, in entry order. */
  function ExtraCommands(extra: seq<(string, real)>): (r: seq<Command>) {
    seq(|extra|, i requires 0 <= i < |extra| => Command(extra[i].0, extra[i].1, MouthSpeed))
  }

  /** The viseme stage: nothing when it is skipped, otherwise the opening,
      the smile and the extra channels of the sampled shape. */
  function MouthCommands(input: MouthInput): (r: seq<Command>) {
    match ActiveCues(input)
    case None => []
    case Some(cues) =>
      var shape := MouthTarget(cues, input.time);
      [Command(MouthOpen, shape.open, MouthSpeed), Command(MouthSmile, shape.smile, MouthSpeed)]
        + ExtraCommands(shape.extra)
  }

  /** Everything one frame writes, in order; nothing in setup mode. */
  function FrameCommands(setupMode: bool, keys: seq<string>, expression: string,
                         blink: bool, winkLeft: bool, winkRight: bool, input: MouthInput): (r: seq<Command>)
  {
    if setupMode then []
    else ExpressionCommands(keys, expression) + BlinkCommands(blink, winkLeft, winkRight) + MouthCommands(input)
  }

  /** The expression loop writes exactly the non-blink keys, each toward
      its preset value (0 when the preset lacks it) at rate 0.1. */
  lemma {:induction false} ExpressionCommandsSpec(keys: seq<string>, expression: string)
    ensures forall c | c in ExpressionCommands(keys, expression) ::
      c.channel in keys && !IsBlink(c.channel)
      && c.target == PresetTarget(expression, c.channel) && c.speed == ExpressionSpeed
    ensures forall key | key in keys && !IsBlink(key) ::
      exists c | c in ExpressionCommands(keys, expression) :: c.channel == key
    decreases |keys|
  {
    if keys != [] {
      var prefix := keys[..|keys| - 1];
      var last := keys[|keys| - 1];
      ExpressionCommandsSpec(prefix, expression);
      assert keys == prefix + [last];
      var cmds := ExpressionCommands(keys, expression);
      assert cmds == ExpressionCommands(prefix, expression) + KeyCommands(expression, last);
      forall key | key in keys && !IsBlink(key)
        ensures exists c | c in cmds :: c.channel == key
      {
        if key == last {
          assert cmds[|cmds| - 1].channel == key;
        } else {
          assert key in prefix;
          var c :| c in ExpressionCommands(prefix, expression) && c.channel == key;
          assert c in cmds;
        }
      }
    }
  }

  /** An expression the table does not know (the empty name among them)
      drives every non-blink channel toward 0. */
  lemma UnknownExpressionRelaxes(keys: seq<string>, expression: string)
    requires expression !in Presets
    ensures forall c | c in ExpressionCommands(keys, expression) :: c.target == 0.0
  {
    ExpressionCommandsSpec(keys, expression);
  }

  predicate Distinct(keys: seq<string>) {
    forall i, j | 0 <= i < j < |keys| :: keys[i] != keys[j]
  }

  /** Over one frame's expression loop a dictionary key (keys are distinct)
      takes one step toward its preset value at rate 0.1 if it is not a
      blink channel, and is not written otherwise; a name that is not a key
      is not written. */
  lemma {:induction false} ExpressionFold(v: real, keys: seq<string>, expression: string, key: string)
    requires Distinct(keys)
    ensures key in keys && !IsBlink(key) ==>
      Fold(v, key, ExpressionCommands(keys, expression)) == Lerp(v, PresetTarget(expression, key), ExpressionSpeed)
    ensures key !in keys || IsBlink(key) ==> Fold(v, key, ExpressionCommands(keys, expression)) == v
    decreases |keys|
  {
    if keys != [] {
      var prefix := keys[..|keys| - 1];
      var last := keys[|keys| - 1];
      assert keys == prefix + [last];
      assert Distinct(prefix);
      ExpressionFold(v, prefix, expression, key);
      FoldAppend(v, key, ExpressionCommands(prefix, expression), KeyCommands(expression, last));
      if key == last {
        assert key !in prefix;
      }
    }
  }

  /** The viseme stage never writes a blink channel. */
  lemma MouthSparesBlinks(input: MouthInput, channel: string)
    requires IsBlink(channel)
    ensures forall k | 0 <= k < |MouthCommands(input)| :: MouthCommands(input)[k].channel != channel
  {
    match ActiveCues(input)
    case None =>
    case Some(cues) => MouthTargetHasNoExtras(cues, input.time);
  }

  /** Blink channels: the left one moves toward 1 iff `blink || winkLeft`
      and the right one toward 1 iff `blink || winkRight`, otherwise toward
      0, one step at rate 0.5 per frame, whatever else the frame does. */
  lemma BlinkFold(v: real, keys: seq<string>, expression: string,
                  blink: bool, winkLeft: bool, winkRight: bool, input: MouthInput)
    requires Distinct(keys)
    ensures Fold(v, BlinkLeft, FrameCommands(false, keys, expression, blink, winkLeft, winkRight, input))
         == Lerp(v, if blink || winkLeft then 1.0 else 0.0, BlinkSpeed)
    ensures Fold(v, BlinkRight, FrameCommands(false, keys, expression, blink, winkLeft, winkRight, input))
         == Lerp(v, if blink || winkRight then 1.0 else 0.0, BlinkSpeed)
  {
    var e := ExpressionCommands(keys, expression);
    var b := BlinkCommands(blink, winkLeft, winkRight);
    var m := MouthCommands(input);
    assert FrameCommands(false, keys, expression, blink, winkLeft, winkRight, input) == (e + b) + m;
    forall channel | IsBlink(channel)
      ensures Fold(v, channel, (e + b) + m) == Fold(Fold(v, channel, e), channel, b)
    {
      FoldAppend(v, channel, e + b, m);
      MouthSparesBlinks(input, channel);
      FoldOthers(Fold(v, channel, e + b), channel, m);
      FoldAppend(v, channel, e, b);
      ExpressionFold(v, keys, expression, channel);
    }
    ExpressionFold(v, keys, expression, BlinkLeft);
    ExpressionFold(v, keys, expression, BlinkRight);
    FoldPair(v, BlinkLeft, b[0], b[1]);
    FoldPair(v, BlinkRight, b[0], b[1]);
  }

  /** A mouth channel's value over a frame is the viseme stage's effect on
      the value the expression loop left: the blink steps do not touch it. */
  lemma MouthAfterExpression(v: real, keys: seq<string>, expression: string,
                             blink: bool, winkLeft: bool, winkRight: bool, input: MouthInput, channel: string)
    requires channel == MouthOpen || channel == MouthSmile
    ensures Fold(v, channel, FrameCommands(false, keys, expression, blink, winkLeft, winkRight, input))
         == Fold(Fold(v, channel, ExpressionCommands(keys, expression)), channel, MouthCommands(input))
  {
    FoldSkip(v, channel, ExpressionCommands(keys, expression), BlinkCommands(blink, winkLeft, winkRight), MouthCommands(input));
  }

  /** When the viseme stage runs, it issues exactly the opening and the smile
      steps of the sampled shape. */
  lemma MouthCommandsShape(input: MouthInput)
    requires ActiveCues(input).Some?
    ensures var shape := MouthTarget(ActiveCues(input).value, input.time);
      MouthCommands(input) == [Command(MouthOpen, shape.open, MouthSpeed), Command(MouthSmile, shape.smile, MouthSpeed)]
  {
    MouthTargetHasNoExtras(ActiveCues(input).value, input.time);
  }

  /** The mouth channels: when the viseme stage runs, its step at rate 0.2
      toward the sampled shape comes after whatever the expression loop did
      to the channel that frame; when it is skipped, only the expression loop
      touches them (and nothing does if they are not head keys). */
  lemma MouthFold(v: real, keys: seq<string>, expression: string,
                  blink: bool, winkLeft: bool, winkRight: bool, input: MouthInput)
    ensures ActiveCues(input).Some? ==>
      var shape := MouthTarget(ActiveCues(input).value, input.time);
      Fold(v, MouthOpen, FrameCommands(false, keys, expression, blink, winkLeft, winkRight, input))
        == Lerp(Fold(v, MouthOpen, ExpressionCommands(keys, expression)), shape.open, MouthSpeed)
      && Fold(v, MouthSmile, FrameCommands(false, keys, expression, blink, winkLeft, winkRight, input))
        == Lerp(Fold(v, MouthSmile, ExpressionCommands(keys, expression)), shape.smile, MouthSpeed)
    ensures ActiveCues(input).None? ==>
      Fold(v, MouthOpen, FrameCommands(false, keys, expression, blink, winkLeft, winkRight, input))
        == Fold(v, MouthOpen, ExpressionCommands(keys, expression))
      && Fold(v, MouthSmile, FrameCommands(false, keys, expression, blink, winkLeft, winkRight, input))
        == Fold(v, MouthSmile, ExpressionCommands(keys, expression))
  {
    var e := ExpressionCommands(keys, expression);
    var m := MouthCommands(input);
    MouthAfterExpression(v, keys, expression, blink, winkLeft, winkRight, input, MouthOpen);
    MouthAfterExpression(v, keys, expression, blink, winkLeft, winkRight, input, MouthSmile);
    if ActiveCues(input).Some? {
      MouthCommandsShape(input);
      FoldPair(Fold(v, MouthOpen, e), MouthOpen, m[0], m[1]);
      FoldPair(Fold(v, MouthSmile, e), MouthSmile, m[0], m[1]);
    } else {
      assert m == [];
    }
  }

  /** A channel that the expression loop writes and no later stage touches
      takes, over the whole frame, one rate-0.1 step toward its preset value. */
  lemma ExpressionOnlyFold(v: real, keys: seq<string>, expression: string,
                           blink: bool, winkLeft: bool, winkRight: bool, input: MouthInput, key: string)
    requires Distinct(keys) && key in keys && !IsBlink(key) && key != MouthOpen && key != MouthSmile
    ensures Fold(v, key, FrameCommands(false, keys, expression, blink, winkLeft, winkRight, input))
         == Lerp(v, PresetTarget(expression, key), ExpressionSpeed)
  {
    var e := ExpressionCommands(keys, expression);
    var later := BlinkCommands(blink, winkLeft, winkRight) + MouthCommands(input);
    if ActiveCues(input).Some? {
      MouthCommandsShape(input);
    }
    assert forall k | 0 <= k < |later| :: later[k].channel != key;
    FoldSkip(v, key, e, later, []);
    assert e + later + [] == FrameCommands(false, keys, expression, blink, winkLeft, winkRight, input);
    ExpressionFold(v, keys, expression, key);
  }

  /** The same on a mesh: a skinned mesh's slot for such a channel, when no
      other channel shares it, ends the frame one rate-0.1 step closer to the
      preset value. */
  lemma FrameExpressionChannel(mesh: MeshState, keys: seq<string>, expression: string,
                               blink: bool, winkLeft: bool, winkRight: bool, input: MouthInput, key: string)
    requires Distinct(keys) && key in keys && !IsBlink(key) && key != MouthOpen && key != MouthSmile
    requires mesh.skinned && key in mesh.dict && mesh.dict[key] < |mesh.weights|
    requires forall other | other in mesh.dict && other != key :: mesh.dict[other] != mesh.dict[key]
    ensures ChannelValue(ApplyMesh(mesh, FrameCommands(false, keys, expression, blink, winkLeft, winkRight, input)), key)
         == Lerp(ChannelValue(mesh, key), PresetTarget(expression, key), ExpressionSpeed)
  {
    var cmds := FrameCommands(false, keys, expression, blink, winkLeft, winkRight, input);
    ChannelFollowsFold(mesh, key, cmds);
    ExpressionOnlyFold(ChannelValue(mesh, key), keys, expression, blink, winkLeft, winkRight, input, key);
  }

  /** In setup mode the frame writes nothing. */
  lemma SetupModeWritesNothing(mesh: MeshState, keys: seq<string>, expression: string,
                               blink: bool, winkLeft: bool, winkRight: bool, input: MouthInput)
    ensures ApplyMesh(mesh, FrameCommands(true, keys, expression, blink, winkLeft, winkRight, input)) == mesh
  {
  }
}
