/** The two static tables of the avatar component: the facial-expression
    presets (channel name to target weight) and the viseme table (mouth-shape
    symbol to mouth opening and smile). Weights are the decimal literals of the
    source, read as reals. */
module Catalogue {
  import opened Wrappers

  type Preset = map<string, real>

  /** The expression presets, keyed by expression name. */
  const Presets: map<string, Preset> := map[
    "default" := map[],
    "smile" := map[
      "browInnerUp" := 0.17,
      "eyeSquintLeft" := 0.4,
      "eyeSquintRight" := 0.44,
      "noseSneerLeft" := 0.1700000727403593,
      "noseSneerRight" := 0.14000002836874015,
      "mouthPressLeft" := 0.61,
      "mouthPressRight" := 0.41000000000000003],
    "funnyFace" := map[
      "jawLeft" := 0.63,
      "mouthPucker" := 0.53,
      "noseSneerLeft" := 1.0,
      "noseSneerRight" := 0.39,
      "mouthLeft" := 1.0,
      "eyeLookUpLeft" := 1.0,
      "eyeLookUpRight" := 1.0,
      "cheekPuff" := 0.9999924982764238,
      "mouthDimpleLeft" := 0.414743888682652,
      "mouthRollLower" := 0.32,
      "mouthSmileLeft" := 0.35499733688813034,
      "mouthSmileRight" := 0.35499733688813034],
    "sad" := map[
      "mouthFrownLeft" := 1.0,
      "mouthFrownRight" := 1.0,
      "mouthShrugLower" := 0.78341,
      "browInnerUp" := 0.452,
      "eyeSquintLeft" := 0.72,
      "eyeSquintRight" := 0.75,
      "eyeLookDownLeft" := 0.5,
      "eyeLookDownRight" := 0.5,
      "jawForward" := 1.0],
    "surprised" := map[
      "eyeWideLeft" := 0.5,
      "eyeWideRight" := 0.5,
      "jawOpen" := 0.351,
      "mouthFunnel" := 1.0,
      "browInnerUp" := 1.0],
    "angry" := map[
      "browDownLeft" := 1.0,
      "browDownRight" := 1.0,
      "eyeSquintLeft" := 1.0,
      "eyeSquintRight" := 1.0,
      "jawForward" := 1.0,
      "jawLeft" := 1.0,
      "mouthShrugLower" := 1.0,
      "noseSneerLeft" := 1.0,
      "noseSneerRight" := 0.42,
      "eyeLookDownLeft" := 0.16,
      "eyeLookDownRight" := 0.16,
      "cheekSquintLeft" := 1.0,
      "cheekSquintRight" := 1.0,
      "mouthClose" := 0.23,
      "mouthFunnel" := 0.63,
      "mouthDimpleRight" := 1.0],
    "crazy" := map[
      "browInnerUp" := 0.9,
      "jawForward" := 1.0,
      "noseSneerLeft" := 0.5700000000000001,
      "noseSneerRight" := 0.51,
      "eyeLookDownLeft" := 0.39435766259644545,
      "eyeLookUpRight" := 0.4039761421719682,
      "eyeLookInLeft" := 0.9618479575523053,
      "eyeLookInRight" := 0.9618479575523053,
      "jawOpen" := 0.9618479575523053,
      "mouthDimpleLeft" := 0.9618479575523053,
      "mouthDimpleRight" := 0.9618479575523053,
      "mouthStretchLeft" := 0.27893590769016857,
      "mouthStretchRight" := 0.2885543872656917,
      "mouthSmileLeft" := 0.5578718153803371,
      "mouthSmileRight" := 0.38473918302092225,
      "tongueOut" := 0.9618479575523053]
  ]

  /** The preset named `name`, or None for a name the table does not have
      (the empty name the component starts with, among others). */
  function LookupPreset(name: string): (r: Option<Preset>)
    ensures r.Some? <==> name in Presets
    ensures r.Some? ==> r.value == Presets[name]
  {
    if name in Presets then Some(Presets[name]) else None
  }

  /** The expression names the table knows are exactly the seven presets;
      the empty name the component starts with is not one of them. */
  lemma PresetNames(name: string)
    ensures Presets.Keys == {"default", "smile", "funnyFace", "sad", "surprised", "angry", "crazy"}
    ensures LookupPreset(name).Some? <==>
      name in {"default", "smile", "funnyFace", "sad", "surprised", "angry", "crazy"}
    ensures LookupPreset("") == None
  {
  }

  /** `mapping?.[key] ?? 0`: the weight the expression `name` asks of channel
      `key`; 0 when the expression or its entry for the channel is missing. */
  function PresetTarget(name: string, key: string): (r: real)
    ensures name in Presets && key in Presets[name] ==> r == Presets[name][key]
    ensures name !in Presets || key !in Presets[name] ==> r == 0.0
  {
    match LookupPreset(name)
    case None => 0.0
    case Some(preset) => if key in preset then preset[key] else 0.0
  }

  /** A row of the viseme table: how far the mouth opens, how much it smiles,
      and any further channel written with them, in entry order. */
  datatype Viseme = Viseme(open: real, smile: real, extra: seq<(string, real)>)

  /** The closed, neutral mouth used when no row applies. */
  const Closed: Viseme := Viseme(0.0, 0.0, [])

  /** The viseme table, keyed by the one-letter cue symbol. */
  const Visemes: map<string, Viseme> := map[
    "A" := Viseme(1.0, 0.38, []),
    "B" := Viseme(0.0, 0.36, []),
    "C" := Viseme(1.0, 0.66, []),
    "D" := Viseme(1.0, 0.0, []),
    "E" := Viseme(0.49, 0.14, []),
    "F" := Viseme(0.0, 0.7, []),
    "G" := Viseme(1.0, 0.0, []),
    "H" := Viseme(0.0, 0.31, []),
    "I" := Viseme(0.41, 1.0, []),
    "J" := Viseme(0.3, 0.6, []),
    "K" := Viseme(0.72, 0.41, []),
    "L" := Viseme(0.72, 0.41, []),
    "M" := Viseme(0.0, 0.41, []),
    "N" := Viseme(0.0, 0.6, []),
    "O" := Viseme(1.0, 0.0, []),
    "P" := Viseme(0.0, 0.19, []),
    "Q" := Viseme(0.72, 0.41, []),
    "R" := Viseme(0.38, 0.19, []),
    "S" := Viseme(0.11, 0.49, []),
    "T" := Viseme(0.33, 0.18, []),
    "U" := Viseme(0.37, 0.0, []),
    "V" := Viseme(0.45, 0.0, []),
    "W" := Viseme(0.6, 0.4, []),
    "X" := Viseme(0.3, 0.3, []),
    "Y" := Viseme(0.4, 0.6, []),
    "Z" := Viseme(0.2, 0.5, [])
  ]

  /** `corresponding[symbol] || {open: 0, smile: 0}`. */
  function VisemeFor(symbol: string): (r: Viseme)
    ensures symbol in Visemes ==> r == Visemes[symbol]
    ensures symbol !in Visemes ==> r == Closed
  {
    if symbol in Visemes then Visemes[symbol] else Closed
  }

  /** Every row of the table holds only an opening and a smile, so no cue
      ever writes a channel besides the two mouth channels. */
  lemma VisemesHaveNoExtras(symbol: string)
    ensures VisemeFor(symbol).extra == []
  {
  }

  /** The table's keys are exactly the 26 capital letters. */
  lemma VisemeAlphabet(symbol: string)
    ensures symbol in Visemes <==> |symbol| == 1 && 'A' <= symbol[0] <= 'Z'
  {
    if |symbol| == 1 && 'A' <= symbol[0] <= 'Z' {
      var c := symbol[0];
      assert symbol == [c];
    }
  }
}
