/** The avatar component's session state and its event handlers: the message
    effect, the audio's end handler, and the per-frame update that reads
    that state. */
module Session {
  import opened Wrappers
  import opened Clips
  import opened Animation
  import opened Rig
  import opened Morph
  import opened FrameSpec

  /** One utterance from the chat hook. Optional fields are None when the
      message lacks them. */
  datatype Message = Message(audio: string, lipsync: Option<LipsyncData>,
                             facialExpression: Option<string>, animation: Option<string>, text: string)

  const TalkingClip: string := "Talking_1"
  const SmileExpression: string := "smile"

  /** JavaScript's `value || fallback` on an optional string: a missing or
      empty value gives the fallback. */
  function OrDefault(value: Option<string>, fallback: string): (r: string)
    ensures value.Some? && value.value != "" ==> r == value.value
    ensures value.None? || value.value == "" ==> r == fallback
  {
    if value.Some? && value.value != "" then value.value else fallback
  }

  /** The clip the message effect requests for `msg`. */
  function RequestedClip(msg: Option<Message>): (r: string) {
    if msg.None? then IdleClip else OrDefault(msg.value.animation, TalkingClip)
  }

  /** How one action's state composes over mounting, from `before` through
      the initial clip's effect (`mounted`) to the requested clip's (`after`):
      `started` says the initial clip had an action, `isFirst` that this is
      it, `sameClip` that the request repeats the initial clip and `hasAction`
      that the requested clip has an action (other than this one). */
  lemma SettleAfterMount(before: ActionState, mounted: ActionState, after: ActionState,
                         started: bool, isFirst: bool, sameClip: bool, hasAction: bool)
    requires isFirst ==> started
    requires mounted == if !started then before else if isFirst then Started else FadedOut(before)
    requires sameClip ==> started == hasAction && !isFirst
    requires after == if sameClip then mounted else if hasAction || isFirst then FadedOut(mounted) else mounted
    ensures after == if isFirst then FadedOut(Started) else if started || hasAction then FadedOut(before) else before
  {
  }

  /** An audio element playing a message's base64 payload. */
  class AudioPlayer {
    const payload: string
    var playing: bool

    constructor (payload: string)
      ensures this.payload == payload && !playing
    {
      this.payload := payload;
      playing := false;
    }

    method Play()
      modifies this
      ensures playing
    {
      playing := true;
    }

    method Pause()
      modifies this
      ensures !playing
    {
      playing := false;
    }
  }

  /** What happened to the audio players, in order. */
  datatype AudioEvent = Paused(player: AudioPlayer) | Played(player: AudioPlayer)

  class Avatar {
    /** The filtered clip catalogue. */
    const clips: seq<Clip>
    const animator: Animator
    const meshes: seq<Mesh>
    /** Whether the chat hook supplied an `onMessagePlayed` callback. */
    const onMessagePlayed: bool

    var message: Option<Message>
    var lipsync: Option<LipsyncData>
    var audio: AudioPlayer?
    var facialExpression: string
    var blink: bool
    var winkLeft: bool
    var winkRight: bool
    /** How many times `onMessagePlayed` has been called. */
    var playedNotifications: nat

    /** Every audio player the component has created, and the pause/play
        calls made on them. */
    ghost var players: set<AudioPlayer>
    ghost var audioEvents: seq<AudioEvent>

    /** The animator's invariant holds, the scene is well formed, and at most
        one audio player is playing: the one the component holds. */
    ghost predicate Valid()
      reads this, animator, players
    {
      animator.Valid() && SceneValid(meshes)
      && (audio != null ==> audio in players)
      && forall p | p in players && p.playing :: p == audio
    }

    /** Mounting. The catalogue is filtered against the scene's node names,
        the session starts with no audio, no lip-sync and the empty
        expression, and the animator starts on the initial clip. The
        component's effects then run once: the message effect for the chat
        hook's current message `initial`, which requests a clip, and the
        animation effect for the initial clip, whose cleanup runs when the
        requested clip replaces it. */
    constructor (sourceClips: seq<Clip>, sceneNames: seq<string>, actions: map<string, Action>,
                 meshes: seq<Mesh>, onMessagePlayed: bool, initial: Option<Message>)
      requires SceneValid(meshes)
      requires actions.Keys == set c | c in FilterClips(sourceClips, sceneNames) :: c.name
      requires forall n, k | n in actions && k in actions && n != k :: actions[n] != actions[k]
      modifies actions.Values
      ensures Valid()
      ensures clips == FilterClips(sourceClips, sceneNames) && fresh(animator) && animator.actions == actions
      ensures this.meshes == meshes && this.onMessagePlayed == onMessagePlayed
      ensures message == initial && !blink && !winkLeft && !winkRight && playedNotifications == 0
      ensures initial.None? ==> audio == null && lipsync == None && facialExpression == "" && audioEvents == []
      ensures initial.Some? ==>
        facialExpression == OrDefault(initial.value.facialExpression, SmileExpression)
        && lipsync == initial.value.lipsync
        && audio != null && fresh(audio) && audio.playing && audio.payload == initial.value.audio
        && audioEvents == [Played(audio)]
      ensures var req := RequestedClip(initial);
        animator.animation == Some(req)
        && animator.listeners == (if req in actions && req != IdleClip then [req] else [])
        && animator.cleanup == (if req in actions then CleanupFor(req) else NoCleanup)
        && (req in actions ==> actions[req].Snapshot() == Started)
      ensures var first := InitialAnimation(clips); var req := RequestedClip(initial);
        var started := first.Some? && first.value in actions;
        forall a | a in actions.Values && (req !in actions || a != actions[req]) ::
          a.Snapshot() ==
            if started && a == actions[first.value] then FadedOut(Started)
            else if started || req in actions then FadedOut(old(a.Snapshot()))
            else old(a.Snapshot())
    {
      var filtered := FilterClips(sourceClips, sceneNames);
      var first := InitialAnimation(filtered);
      var req := RequestedClip(initial);
      var started := first.Some? && first.value in actions;
      clips := filtered;
      animator := new Animator(actions, first);
      this.meshes := meshes;
      this.onMessagePlayed := onMessagePlayed;
      message, lipsync, audio, facialExpression := None, None, null, "";
      blink, winkLeft, winkRight := false, false, false;
      playedNotifications := 0;
      players, audioEvents := {}, [];
      new;
      assert started ==> animator.cleanup == CleanupFor(first.value);
      assert !started ==> animator.cleanup == NoCleanup;
      label mounted:
      Mount(initial);
      forall a | a in actions.Values && (req !in actions || a != actions[req])
        ensures a.Snapshot() ==
          if started && a == actions[first.value] then FadedOut(Started)
          else if started || req in actions then FadedOut(old(a.Snapshot()))
          else old(a.Snapshot())
      {
        SettleAfterMount(old(a.Snapshot()), old@mounted(a.Snapshot()), a.Snapshot(),
                         started, started && a == actions[first.value], first == Some(req), req in actions);
      }
    }

    /** The message effect's first run, after the animation effect has run
        for the initial clip (whose cleanup is pending exactly when that clip
        has an action): the requested clip ends `Started` unless it is the
        initial clip, the actions other than it fade out once when it has an
        action or when they are the initial clip's, and its listener is the
        only one. */
    method Mount(initial: Option<Message>)
      requires Valid()
      requires var first := animator.animation;
        if first.Some? && first.value in animator.actions then animator.cleanup == CleanupFor(first.value)
        else animator.cleanup == NoCleanup
      modifies this, animator, animator.actions.Values, audio
      ensures Valid() && message == initial
      ensures playedNotifications == old(playedNotifications)
      ensures blink == old(blink) && winkLeft == old(winkLeft) && winkRight == old(winkRight)
      ensures old(audio) != null ==> !old(audio).playing
      ensures initial.None? ==>
        audio == null && lipsync == None && facialExpression == ""
        && audioEvents == old(audioEvents) + (if old(audio) != null then [Paused(old(audio))] else [])
      ensures initial.Some? ==>
        facialExpression == OrDefault(initial.value.facialExpression, SmileExpression)
        && lipsync == initial.value.lipsync
        && audio != null && fresh(audio) && audio.playing && audio.payload == initial.value.audio
        && audioEvents == old(audioEvents) + (if old(audio) != null then [Paused(old(audio))] else []) + [Played(audio)]
      ensures var req := RequestedClip(initial); var actions := animator.actions;
        animator.animation == Some(req)
        && animator.listeners == (if req in actions && req != IdleClip then [req] else [])
        && animator.cleanup == (if req in actions then CleanupFor(req) else NoCleanup)
        && (req in actions ==>
              actions[req].Snapshot() == if old(animator.animation) == Some(req) then old(actions[req].Snapshot()) else Started)
      ensures var req := RequestedClip(initial); var actions := animator.actions; var first := old(animator.animation);
        forall a | a in actions.Values && (req !in actions || a != actions[req]) ::
          a.Snapshot() ==
            if first == Some(req) then old(a.Snapshot())
            else if req in actions || (first.Some? && first.value in actions && a == actions[first.value]) then FadedOut(old(a.Snapshot()))
            else old(a.Snapshot())
    {
      OnMessage(initial);
      animator.RequestedOthers(RequestedClip(initial));
    }

    /** The message effect. A null message returns everything to idle: the
        "Idle" clip, audio paused and dropped, no lip-sync, no expression. A
        message sets the clip (default "Talking_1"), the expression (default
        "smile") and the lip-sync data, pauses the previous audio, and then
        starts a new player for the message's audio. */
    method OnMessage(msg: Option<Message>)
      requires Valid()
      modifies this, animator, animator.actions.Values, audio
      ensures Valid() && message == msg && animator.Requested(RequestedClip(msg))
      ensures playedNotifications == old(playedNotifications)
      ensures blink == old(blink) && winkLeft == old(winkLeft) && winkRight == old(winkRight)
      ensures old(audio) != null ==> !old(audio).playing
      ensures msg.None? ==>
        animator.animation == Some(IdleClip) && audio == null && lipsync == None && facialExpression == ""
        && audioEvents == old(audioEvents) + (if old(audio) != null then [Paused(old(audio))] else [])
      ensures msg.Some? ==>
        animator.animation == Some(OrDefault(msg.value.animation, TalkingClip))
        && facialExpression == OrDefault(msg.value.facialExpression, SmileExpression)
        && lipsync == msg.value.lipsync
        && audio != null && fresh(audio) && audio.playing && audio.payload == msg.value.audio
        && audioEvents == old(audioEvents) + (if old(audio) != null then [Paused(old(audio))] else []) + [Played(audio)]
    {
      message := msg;
      if msg.None? {
        ReturnToIdle();
      } else {
        Speak(msg.value);
      }
    }

    /** The null-message branch of the message effect. */
    method ReturnToIdle()
      requires Valid()
      modifies this, animator, animator.actions.Values, audio
      ensures Valid() && message == old(message) && animator.Requested(IdleClip)
      ensures audio == null && lipsync == None && facialExpression == ""
      ensures old(audio) != null ==> !old(audio).playing
      ensures audioEvents == old(audioEvents) + (if old(audio) != null then [Paused(old(audio))] else [])
      ensures playedNotifications == old(playedNotifications)
      ensures blink == old(blink) && winkLeft == old(winkLeft) && winkRight == old(winkRight)
    {
      animator.SetAnimation(IdleClip);
      ClearUtterance();
    }

    /** The rest of the null-message branch: the held audio is paused and
        dropped, lip-sync is cleared and the expression becomes empty. */
    method ClearUtterance()
      requires Valid()
      modifies this, audio
      ensures Valid() && message == old(message)
      ensures audio == null && lipsync == None && facialExpression == ""
      ensures old(audio) != null ==> !old(audio).playing
      ensures audioEvents == old(audioEvents) + (if old(audio) != null then [Paused(old(audio))] else [])
      ensures playedNotifications == old(playedNotifications)
      ensures blink == old(blink) && winkLeft == old(winkLeft) && winkRight == old(winkRight)
    {
      StopAudio();
      lipsync := None;
      facialExpression := "";
    }

    /** The message branch of the message effect. */
    method Speak(m: Message)
      requires Valid()
      modifies this, animator, animator.actions.Values, audio
      ensures Valid() && message == old(message) && animator.Requested(OrDefault(m.animation, TalkingClip))
      ensures facialExpression == OrDefault(m.facialExpression, SmileExpression) && lipsync == m.lipsync
      ensures old(audio) != null ==> !old(audio).playing
      ensures audio != null && fresh(audio) && audio.playing && audio.payload == m.audio
      ensures audioEvents == old(audioEvents) + (if old(audio) != null then [Paused(old(audio))] else []) + [Played(audio)]
      ensures playedNotifications == old(playedNotifications)
      ensures blink == old(blink) && winkLeft == old(winkLeft) && winkRight == old(winkRight)
    {
      animator.SetAnimation(OrDefault(m.animation, TalkingClip));
      ShowUtterance(m);
    }

    /** The rest of the message branch: the expression and lip-sync are set,
        the current audio player, if any, is paused, and a fresh one plays
        the message's audio. */
    method ShowUtterance(m: Message)
      requires Valid()
      modifies this, audio
      ensures Valid() && audio != null && fresh(audio) && audio.playing && audio.payload == m.audio
      ensures facialExpression == OrDefault(m.facialExpression, SmileExpression) && lipsync == m.lipsync
      ensures old(audio) != null ==> !old(audio).playing
      ensures audioEvents == old(audioEvents) + (if old(audio) != null then [Paused(old(audio))] else []) + [Played(audio)]
      ensures message == old(message)
      ensures blink == old(blink) && winkLeft == old(winkLeft) && winkRight == old(winkRight)
      ensures playedNotifications == old(playedNotifications)
    {
      facialExpression := OrDefault(m.facialExpression, SmileExpression);
      lipsync := m.lipsync;
      StopAudio();
      StartAudio(m.audio);
    }

    /** Pauses and drops the current audio player, if there is one. */
    method StopAudio()
      requires Valid()
      modifies this, audio
      ensures Valid() && audio == null
      ensures old(audio) != null ==> !old(audio).playing
      ensures audioEvents == old(audioEvents) + (if old(audio) != null then [Paused(old(audio))] else [])
      ensures message == old(message) && lipsync == old(lipsync) && facialExpression == old(facialExpression)
      ensures blink == old(blink) && winkLeft == old(winkLeft) && winkRight == old(winkRight)
      ensures playedNotifications == old(playedNotifications)
    {
      if audio != null {
        audio.Pause();
        audioEvents := audioEvents + [Paused(audio)];
        audio := null;
      }
    }

    /** Starts a fresh player for `payload`; requires that none is held. */
    method StartAudio(payload: string)
      requires Valid() && audio == null
      modifies this
      ensures Valid() && audio != null && fresh(audio) && audio.playing && audio.payload == payload
      ensures audioEvents == old(audioEvents) + [Played(audio)]
      ensures message == old(message) && lipsync == old(lipsync) && facialExpression == old(facialExpression)
      ensures blink == old(blink) && winkLeft == old(winkLeft) && winkRight == old(winkRight)
      ensures playedNotifications == old(playedNotifications)
    {
      var player := new AudioPlayer(payload);
      player.Play();
      audioEvents := audioEvents + [Played(player)];
      players := players + {player};
      audio := player;
    }

    /** The audio's end handler: playback has stopped; the clip returns to
        "Idle", the callback is notified once if it exists, and lip-sync and
        audio are cleared. The message and expression stay as they are. */
    method OnAudioEnded()
      requires Valid() && audio != null
      modifies this, animator, animator.actions.Values, audio
      ensures Valid() && animator.Requested(IdleClip)
      ensures lipsync == None && audio == null && !old(audio).playing
      ensures blink == old(blink) && winkLeft == old(winkLeft) && winkRight == old(winkRight)
      ensures playedNotifications == old(playedNotifications) + (if onMessagePlayed then 1 else 0)
      ensures message == old(message) && facialExpression == old(facialExpression)
      ensures audioEvents == old(audioEvents)
    {
      audio.playing := false;
      animator.SetAnimation(IdleClip);
      EndPlayback();
    }

    /** The rest of the end handler once playback has stopped: the callback
        is notified if it exists, and lip-sync and audio are cleared. */
    method EndPlayback()
      requires Valid() && audio != null && !audio.playing
      modifies this
      ensures Valid() && lipsync == None && audio == null
      ensures blink == old(blink) && winkLeft == old(winkLeft) && winkRight == old(winkRight)
      ensures playedNotifications == old(playedNotifications) + (if onMessagePlayed then 1 else 0)
      ensures message == old(message) && facialExpression == old(facialExpression)
      ensures audioEvents == old(audioEvents)
    {
      if onMessagePlayed {
        playedNotifications := playedNotifications + 1;
      }
      lipsync := None;
      audio := null;
    }

    /** The mixer's "finished" event, forwarded to the animator. */
    method OnClipFinished()
      requires Valid()
      modifies animator, animator.actions.Values
      ensures Valid()
      ensures old(animator.listeners) == [] ==> animator.Kept()
      ensures old(animator.listeners) != [] ==> old(animator.animation) != Some(IdleClip) && animator.Requested(IdleClip)
    {
      animator.OnFinished();
    }

    /** What the frame reads about the current utterance at audio time `time`. */
    function MouthState(time: real): (r: MouthInput)
      reads this
    {
      MouthInput(message.Some?, lipsync, audio != null, time)
    }

    /** One frame's blending, driven by the session's expression, blink
        flags and active utterance; `headKeys` are the keys of the head
        mesh's dictionary (empty before the scene's nodes are collected) and
        `time` is the audio clock. */
    method Frame(setupMode: bool, headKeys: seq<string>, time: real)
      requires Valid()
      modifies Footprint(meshes)
      ensures forall i | 0 <= i < |meshes| ::
                meshes[i].State() == ApplyMesh(old(meshes[i].State()),
                  FrameCommands(setupMode, headKeys, facialExpression, blink, winkLeft, winkRight, MouthState(time)))
    {
      FrameUpdate(meshes, setupMode, headKeys, facialExpression, blink, winkLeft, winkRight, MouthState(time));
    }
  }
}
