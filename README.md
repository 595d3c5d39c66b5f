# Avatar blending engine — a verified Dafny model

This project models the per-frame facial and animation logic of the talking
avatar component `src/components/Avatar.jsx`. Every frame, the component
blends the morph-target weights of its skinned meshes in a fixed order:

1. the facial-expression preset is applied over every channel of the head
   mesh's dictionary except the two blink channels, at rate 0.1;
2. the two blink channels follow the blink and wink flags, at rate 0.5;
3. when a message with a cue timeline and an audio resource is active, the
   mouth follows the viseme of the first cue that covers the audio clock, at
   rate 0.2.

Around the frame sit three other pieces:

- a clip catalogue, filtered to the tracks whose node exists in the scene;
- a crossfade controller that fades every other action out and restarts the
  target clip;
- a session state machine driven by chat messages and the end of their audio.

Weights are real numbers, so the blend step `cur + speed * (target - cur)` is
exact.

The modules follow the program's structure:

- `Catalogue`: the seven expression presets and the 26-entry viseme table,
  with their values exactly as written, and the lookups into them. A missing
  key reads as 0 and an unknown symbol as the closed mouth.
- `Blend`: the linear step and what repeating it does. It gives a closed
  form, a monotone approach to the target that never overshoots, and
  convergence to within any tolerance after a computable number of frames.
- `Morph`: a value-level specification of a mesh, which has a skinned flag,
  a channel-to-slot dictionary, and slots that may be holes. A frame is an
  ordered list of blend commands, and `ApplyMesh` folds that list over a
  mesh. `Fold` tracks one channel through the fold.
- `LipSync`: the first-match cue search, as a function and as the loop the
  component runs (`SampleMouth`, with an early exit).
- `FrameSpec`: the command list one frame issues, stage by stage, and the
  lemmas that give the final value of each kind of channel. These cover:
  - expression channels;
  - blink channels, including whatever the later stages do;
  - mouth channels, whose viseme step comes after the expression step;
  - setup mode, which writes nothing.
- `Rig`: meshes as objects whose influence arrays are updated in place. The
  in-place `LerpMorphTarget` and the staged `FrameUpdate` are proved to leave
  every mesh exactly as `ApplyMesh` of the frame's commands says.
- `Clips`: the track filter (the text before the first '.' must name a scene
  node) and the choice of the initial clip.
- `Animation`: actions, and an animator that holds the `animation` state.
  - Its effect runs on every change of the state, and its cleanup runs
    before the next effect.
  - The mixer's "finished" listeners are tracked as a list, each tagged
    with the target whose effect installed it.
  - The invariant `Valid` says that at most one listener exists, and only
    for a current target other than "Idle".
  - Setting the state to the value it already holds is a no-op; this is how
    React state setters behave.
- `Session`: the `Avatar` object: the message effect, the audio's end
  handler, the forwarding of the mixer's event, and the frame driver.
  - Every pause and play call on an audio player is recorded in order, so
    the model shows that the previous audio is paused before the new one
    plays.
  - The invariant says that only the player the component holds can be
    playing.

The crossfade outcome of a request is one two-state predicate,
`Animation.Animator.Requested`, which `SetAnimation` ensures and every
session handler passes on. It also states the cleanup the effect leaves
pending for a started clip (`Animation.CleanupFor`), so the next request
fades that clip out, "Idle" included. A request for a clip with no action still changes
the `animation` state, so the previous effect's cleanup runs: the previous
target fades out and its "finished" listener is removed. The mixer's
"finished" event fires when any action completes, not only the target, so
any completion while a listener is installed returns the avatar to "Idle"
(`Animation.Animator.OnFinished`).

Mounting runs the component's effects once, in declaration order. The
message effect requests a clip for the chat hook's current message ("Idle"
when there is none), and the animation effect starts the initial clip. The
requested clip, when it differs from the initial one, replaces it through
the effect's cleanup; when it is the initial clip nothing changes. So, with
no message, a catalogue without an "Idle" clip settles on "Idle" with its
first clip faded out (`Session.Avatar.constructor`).

## Model

| member | source | states |
|---|---|---|
| Catalogue.PresetNames | src/components/Avatar.jsx:8-87 | the table knows exactly the seven expression names default, smile, funnyFace, sad, surprised, angry and crazy; a lookup succeeds exactly for those, and the empty starting expression is not one |
| Catalogue.PresetTarget | src/components/Avatar.jsx:253-255 | a channel's expression target is the preset's value when the preset has the key, and 0 otherwise, including when the expression is unknown |
| Catalogue.VisemeFor | src/components/Avatar.jsx:270 | a cue symbol maps to its table entry, and an unknown symbol to open = smile = 0 |
| Catalogue.VisemesHaveNoExtras | src/components/Avatar.jsx:89-116 | no viseme entry has a channel besides open and smile |
| Catalogue.VisemeAlphabet | src/components/Avatar.jsx:89-116 | the viseme table's keys are exactly the single letters A to Z |
| Blend.Lerp | src/components/Avatar.jsx:241 | after a step, the distance to the target is (1 - speed) times the distance before it |
| Blend.LerpBetween | src/components/Avatar.jsx:241 | for 0 < speed <= 1, a step moves strictly toward the target and never past it; speed 1 reaches it |
| Blend.LerpContracts | src/components/Avatar.jsx:241 | a step shrinks the absolute distance to the target by the factor 1 - speed, strictly when not already there |
| Blend.IterateClosedForm | src/components/Avatar.jsx:241 | after n frames, the remaining distance is (1 - speed)^n times the initial one |
| Blend.ExpressionRamp | src/components/Avatar.jsx:255 | a channel driven from 0 toward 1 at rate 0.1 holds 1 - 0.9^n after n frames |
| Blend.ExpressionRampFirstFrames | src/components/Avatar.jsx:255 | the first two frames of that ramp give 0.1 and 0.19 |
| Blend.PowBound | src/components/Avatar.jsx:241 | Bernoulli's inequality for the step factor, (1 - s)^n (1 + n s) <= 1, which bounds how fast repeated steps close the distance |
| Blend.DistanceAfter | src/components/Avatar.jsx:241 | the absolute distance after n frames is (1 - speed)^n times the initial absolute distance |
| Blend.ClosedAfter | src/components/Avatar.jsx:241 | after n frames with n * speed * eps above the initial distance, the channel is within eps of its target |
| Blend.Converges | src/components/Avatar.jsx:241 | for any positive rate and tolerance, some number of frames brings the channel within the tolerance of its target |
| Morph.BlendMesh | src/components/Avatar.jsx:236-242 | on a skinned mesh whose dictionary has the channel, exactly that slot becomes the lerp of its old value (a hole reads as 0); every other slot and every other mesh is unchanged |
| Morph.ApplyMeshAppend | src/components/Avatar.jsx:235-244 | applying two command lists in a row is applying their concatenation |
| Morph.ApplyMeshUntouched | src/components/Avatar.jsx:235-244 | a slot that no command of the list addresses keeps its value |
| Morph.ChannelFollowsFold | src/components/Avatar.jsx:238-241 | on a skinned mesh where no other channel shares the slot, the channel's value after a command list is the fold of that list's steps for that channel alone |
| LipSync.FirstMatch | src/components/Avatar.jsx:268-280 | the result is the first cue index whose start <= t <= end; None means that no cue covers t |
| LipSync.SampleMouth | src/components/Avatar.jsx:263-280 | the cue loop with its early break yields the first matching cue's viseme, or the closed mouth |
| LipSync.EarlierCueWins | src/components/Avatar.jsx:268-279 | of two cues that both cover t, the earlier one decides the mouth shape |
| LipSync.ClosedWhenNoShape | src/components/Avatar.jsx:264-270 | when no cue covers t, or the covering cue's symbol is unknown, the target is open = smile = 0 with no extra channels |
| LipSync.MouthTargetHasNoExtras | src/components/Avatar.jsx:266-277 | the sampled shape never carries extra channels |
| LipSync.SortedTimelineSamples | src/components/Avatar.jsx:268-280 | on a two-cue timeline, each cue covers its own interval, and a time past both gives the closed mouth |
| LipSync.OverlapTieBreak | src/components/Avatar.jsx:268-279 | of two cues over the same interval, the first one's shape is used |
| FrameSpec.ActiveCues | src/components/Avatar.jsx:262 | the viseme stage runs exactly when there is a message, a cue array and an audio resource, and it samples that array |
| FrameSpec.ExpressionCommandsSpec | src/components/Avatar.jsx:250-257 | the expression loop writes only non-blink dictionary keys, each toward its preset target at rate 0.1, and writes every such key |
| FrameSpec.UnknownExpressionRelaxes | src/components/Avatar.jsx:253-255 | an unknown or empty expression drives every written channel toward 0 |
| FrameSpec.ExpressionFold | src/components/Avatar.jsx:252-257 | over the expression loop, a non-blink key takes one rate-0.1 step toward its target; blink channels and names that are not keys are left alone |
| FrameSpec.BlinkFold | src/components/Avatar.jsx:259-260 | over a whole frame, the left blink channel takes one rate-0.5 step toward 1 iff blink or winkLeft (toward 0 otherwise), and likewise the right one with winkRight |
| FrameSpec.MouthSparesBlinks | src/components/Avatar.jsx:282-286 | the viseme stage never writes a blink channel |
| FrameSpec.MouthCommandsShape | src/components/Avatar.jsx:282-286 | when the viseme stage runs, it issues exactly a mouthOpen step and a mouthSmile step toward the sampled shape at rate 0.2 |
| FrameSpec.MouthAfterExpression | src/components/Avatar.jsx:252-287 | the blink steps between the expression loop and the viseme stage never affect a mouth channel |
| FrameSpec.MouthFold | src/components/Avatar.jsx:252-287 | when the viseme stage runs, mouthOpen and mouthSmile take their rate-0.2 step after the frame's expression step; when it does not run, only the expression loop affects them |
| FrameSpec.ExpressionOnlyFold | src/components/Avatar.jsx:249-287 | over a whole frame, a non-blink, non-mouth key takes exactly one rate-0.1 step toward its preset target |
| FrameSpec.FrameExpressionChannel | src/components/Avatar.jsx:235-257 | the same for the slot of a skinned mesh, when the slot is not shared |
| FrameSpec.SetupModeWritesNothing | src/components/Avatar.jsx:249 | in setup mode, the frame leaves every mesh unchanged |
| Rig.LerpMorphTarget | src/components/Avatar.jsx:235-244 | the in-place loop over the meshes leaves each mesh exactly as one blend step of the command specifies |
| Rig.ExpressionStage | src/components/Avatar.jsx:252-257 | the key loop applies the expression commands in dictionary-key order |
| Rig.BlinkStage | src/components/Avatar.jsx:259-260 | the two blink steps are applied in order |
| Rig.ExtraStage | src/components/Avatar.jsx:284-286 | each extra viseme channel is applied at rate 0.2, in entry order |
| Rig.MouthStage | src/components/Avatar.jsx:262-287 | the guarded viseme stage applies the mouth commands of the sampled cue, or nothing |
| Rig.FrameUpdate | src/components/Avatar.jsx:249-288 | after the frame body, every mesh equals ApplyMesh of its old state and the frame's whole command list |
| Clips.NodeName | src/components/Avatar.jsx:151 | the node name is the longest prefix of the track name without '.', and it ends at the first '.' |
| Clips.ValidNodes | src/components/Avatar.jsx:144-147 | the known nodes are exactly the non-empty scene node names |
| Clips.FilterTracks | src/components/Avatar.jsx:150-153 | a track is kept exactly when it is in the input and its node name is known |
| Clips.FilterKeepsKnown | src/components/Avatar.jsx:150-153 | a clip whose tracks all name known nodes keeps its whole track list |
| Clips.FilterSplits | src/components/Avatar.jsx:150-153 | filtering distributes over concatenation, so the relative order of kept tracks is preserved |
| Clips.UnnamedNodeDropped | src/components/Avatar.jsx:146-152 | a track whose name is empty or starts with '.' is never kept |
| Clips.FilterClips | src/components/Avatar.jsx:149-155 | the filtered catalogue has the same clips in order, with the same names and durations, each holding exactly its tracks on known nodes |
| Clips.InitialAnimation | src/components/Avatar.jsx:159-161 | the initial clip is "Idle" iff such a clip exists; otherwise it is the first clip's name, or none for an empty catalogue |
| Animation.FadedOut | src/components/Avatar.jsx:215 | a fade-out request sets a 0.5 fade-out and leaves the rest of the action state unchanged |
| Animation.Action.Reset | src/components/Avatar.jsx:218 | reset rewinds the action, unpauses and enables it, and cancels its fade; nothing else changes |
| Animation.Action.FadeInOver | src/components/Avatar.jsx:218 | records a fade-in over the given duration; nothing else changes |
| Animation.Action.FadeOutOver | src/components/Avatar.jsx:215 | records a fade-out over the given duration; nothing else changes |
| Animation.Action.Play | src/components/Avatar.jsx:218 | the action is scheduled; nothing else changes |
| Animation.Action.SetLoop | src/components/Avatar.jsx:219 | sets the loop mode; nothing else changes |
| Animation.Action.Start | src/components/Avatar.jsx:218-221 | whatever its prior state, the target ends reset, fading in over 0.5, playing, looping once, clamped and at time scale 0.5 |
| Animation.Animator.constructor | src/components/Avatar.jsx:159-161 | mounting starts the state at the initial clip and runs the effect once for it: a clip with an action is started, every other action fades out, and its listener and pending cleanup are set; otherwise nothing changes and no cleanup is pending |
| Animation.Animator.FadeOutOthers | src/components/Avatar.jsx:214-216 | every action except the target gets a 0.5 fade-out and the target is untouched |
| Animation.Animator.RunEffect | src/components/Avatar.jsx:209-233 | a clip without an action changes nothing. Otherwise every other action gets a 0.5 fade-out, and the target is reset, fades in over 0.5, plays once at time scale 0.5 and clamps. A finish listener is installed only for a target other than "Idle" |
| Animation.Animator.RunCleanup | src/components/Avatar.jsx:226-232 | the previous target fades out over 0.5 and its listener, if any, is removed; no other action changes |
| Animation.Animator.SetAnimation | src/components/Avatar.jsx:209-233 | ensures `Requested(name)`. Setting the state it already holds changes nothing. Otherwise a clip with an action becomes the sole target: it restarts, every other action gets a 0.5 fade-out, the listeners are exactly [name] unless it is "Idle", and the pending cleanup is its fade-out, with the listener's removal unless it is "Idle". A clip without an action leaves only the previous target faded out, and no listener |
| Animation.Animator.RequestedOthers | src/components/Avatar.jsx:214-232 | under `Requested(name)`, an action other than the new target fades out once when a new target started or when it was the previous target; otherwise it is untouched |
| Animation.Animator.OnFinished | src/components/Avatar.jsx:224-225 | with a listener installed, the state was not "Idle" and the outcome is `Requested("Idle")`, which leaves Idle's fade-out pending; with none, nothing changes (`Kept`) |
| Animation.RemoveListener | src/components/Avatar.jsx:227 | removing a listener drops exactly one occurrence of it, and nothing when it is absent |
| Session.OrDefault | src/components/Avatar.jsx:188-189 | a missing or empty field gives the default, and any other value is kept |
| Session.AudioPlayer.Play | src/components/Avatar.jsx:198 | the player is playing |
| Session.AudioPlayer.Pause | src/components/Avatar.jsx:180 | the player is not playing |
| Session.Avatar.constructor | src/components/Avatar.jsx:143-233 | mounting filters the catalogue and runs the message effect for the initial message. The state ends on the requested clip, which is started if it has an action, with its listener unless it is "Idle" and with its fade-out pending as the cleanup (removing the listener too for a clip other than "Idle"). The session holds a freshly created animator. Every other action is faded out from its prior state, or from `Started` if it was the initial clip, and stays untouched when neither clip has an action. Audio, lip-sync and expression are as the message effect leaves them |
| Session.Avatar.Mount | src/components/Avatar.jsx:159-233 | the message effect's first run after the initial clip's effect: the state ends on the requested clip. That clip is started unless it was the initial clip, its listener is the only one, and its fade-out is the pending cleanup. Other actions fade out once when the requested clip has an action or they were the initial clip's |
| Session.Avatar.OnMessage | src/components/Avatar.jsx:176-207 | the animator's outcome is `Requested` of "Idle" for a null message, else of the message's animation or "Talking_1". A null message also pauses and drops the old audio and clears lip-sync and the expression. A message sets the expression to its facialExpression or "smile", takes its lip-sync, and pauses any old audio before a fresh player for it starts; afterwards only that player can be playing; `Requested` also fixes the new pending cleanup, so a clip started here fades out when the next request replaces it |
| Session.Avatar.ReturnToIdle | src/components/Avatar.jsx:177-186 | the animator's outcome is `Requested("Idle")`. The held audio is paused and dropped, lip-sync is cleared and the expression becomes empty; `Requested` also fixes the new pending cleanup, so a clip started here fades out when the next request replaces it |
| Session.Avatar.Speak | src/components/Avatar.jsx:188-199 | the animator's outcome is `Requested` of the message's clip or "Talking_1". The expression takes the message's value or "smile" and the lip-sync is the message's. The old audio is paused before a fresh player for the message starts; `Requested` also fixes the new pending cleanup, so a clip started here fades out when the next request replaces it |
| Session.Avatar.ClearUtterance | src/components/Avatar.jsx:179-184 | the held audio is paused and dropped, lip-sync is cleared, the expression becomes empty, and the message is kept |
| Session.Avatar.ShowUtterance | src/components/Avatar.jsx:189-199 | the expression and lip-sync come from the message, any old audio is paused, and a fresh player plays the message's audio |
| Session.Avatar.StopAudio | src/components/Avatar.jsx:179-195 | the held audio, if any, is paused (and logged) and dropped |
| Session.Avatar.StartAudio | src/components/Avatar.jsx:197-199 | a fresh player for the payload is created, started, logged and held |
| Session.Avatar.OnAudioEnded | src/components/Avatar.jsx:201-206 | the animator's outcome is `Requested("Idle")`. The callback is notified exactly once when it exists. Lip-sync and audio are cleared, and the message, expression and blink flags stay; `Requested` also fixes the new pending cleanup, so a clip started here fades out when the next request replaces it |
| Session.Avatar.EndPlayback | src/components/Avatar.jsx:203-205 | the callback is notified once if it exists, lip-sync and audio are cleared, and nothing else in the session changes |
| Session.Avatar.OnClipFinished | src/components/Avatar.jsx:224-225 | with a listener installed, the animator's outcome is `Requested("Idle")`; with none, the animator is `Kept` unchanged; `Requested` also fixes the new pending cleanup, so a clip started here fades out when the next request replaces it |
| Session.Avatar.Frame | src/components/Avatar.jsx:246-289 | one frame leaves every mesh as ApplyMesh of the commands for the session's expression, flags and utterance |

## Left out

- Scene loading and cloning, node traversal and the logging effect are not modelled. A scene is given as its list of node names and its mesh table, and the head dictionary's keys are a parameter of the frame. That parameter is empty until the node map has been collected.
- Audio decoding and playback are not modelled. A player is an object with a playing flag, and its clock `currentTime` is the frame's `time` parameter.
- The mixer's `update(delta)` and the evolution of fade weights over time are not modelled. An action records only the fade and configuration it was last asked for, and three.js internals such as the loop counter are not tracked.
- React scheduling and batching are not modelled. Each effect runs atomically right after the state it depends on changes, in declaration order on mount, and chat-hook state arrives as method arguments. The action table is given with one distinct action per filtered clip name, as `useAnimations` builds it.
- Floating-point rounding is not modelled: weights are real numbers, and NaN and infinities do not arise.
- The module-global `setupMode` flag is a parameter of the frame.
- JSX markup, model preloading and the chat input UI (`UI.jsx`) are not modelled; UI.jsx is not part of this model.
- JavaScript prototype keys (a channel or expression called "constructor", for instance) are not modelled; every lookup treats the tables as plain maps.
- An undefined `animation` state (an empty catalogue, before the message effect's request replaces it during mounting) is treated as having no action.
- The `!actions` early return is not modelled, because the actions object always exists.
- The clip's uuid and the duration recomputation of `AnimationClip` are not modelled.
- Rig.LerpMorphTarget: not modelled for a dictionary slot beyond the end of the influence array, where JavaScript would grow the array. `Mesh.Valid` requires every slot to be in range.
- Rig.FrameUpdate: not modelled for meshes that share one influence array; `SceneValid` requires the arrays to be distinct.
- The blink and wink setters are never called in the component, so the three flags stay false. The model keeps them as state that the frame reads.
