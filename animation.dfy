/** The crossfade controller: the mixer's actions (one per clip), the effect
    that runs whenever the `animation` state changes, the cleanup that effect
    leaves behind, and the mixer's "finished" listener that returns the
    character to "Idle". */
module Animation {
  import opened Wrappers

  /** The last fade requested of an action. */
  datatype Fade = NoFade | FadeIn(duration: real) | FadeOut(duration: real)

  /** `THREE.LoopRepeat` (the default, endless) or `THREE.LoopOnce` with its
      repetition count. */
  datatype Loop = Repeat | Once(repetitions: nat)

  /** Everything the controller sets on an action, as one value. */
  datatype ActionState = ActionState(time: real, paused: bool, enabled: bool, running: bool,
                                     fade: Fade, loop: Loop, clampWhenFinished: bool, timeScale: real)

  const CrossfadeTime: real := 0.5
  const PlaybackRate: real := 0.5
  const IdleClip: string := "Idle"

  /** A target clip's configuration after `reset().fadeIn(0.5).play()`,
      `setLoop(LoopOnce, 1)`, `clampWhenFinished = true`, `timeScale = 0.5`. */
  const Started: ActionState :=
    ActionState(0.0, false, true, true, FadeIn(CrossfadeTime), Once(1), true, PlaybackRate)

  /** An action after `fadeOut(0.5)`. */
  function FadedOut(s: ActionState): (r: ActionState)
    ensures r.fade == FadeOut(CrossfadeTime)
    ensures r.(fade := s.fade) == s
  {
    s.(fade := FadeOut(CrossfadeTime))
  }

  /** A mixer action playing one clip. */
  class Action {
    const clip: string
    var time: real
    var paused: bool
    var enabled: bool
    var running: bool
    var fade: Fade
    var loop: Loop
    var clampWhenFinished: bool
    var timeScale: real

    /** A fresh action, with the mixer's defaults. */
    constructor (clip: string)
      ensures this.clip == clip
      ensures Snapshot() == ActionState(0.0, false, true, false, NoFade, Repeat, false, 1.0)
    {
      this.clip := clip;
      time, paused, enabled, running := 0.0, false, true, false;
      fade, loop, clampWhenFinished, timeScale := NoFade, Repeat, false, 1.0;
    }

    ghost function Snapshot(): (r: ActionState)
      reads this
    {
      ActionState(time, paused, enabled, running, fade, loop, clampWhenFinished, timeScale)
    }

    /** Back to the start of the clip, unpaused and enabled, any fade
        cancelled. */
    method Reset()
      modifies this
      ensures Snapshot() == old(Snapshot()).(time := 0.0, paused := false, enabled := true, fade := NoFade)
    {
      time, paused, enabled, fade := 0.0, false, true, NoFade;
    }

    method FadeInOver(duration: real)
      modifies this
      ensures Snapshot() == old(Snapshot()).(fade := FadeIn(duration))
    {
      fade := FadeIn(duration);
    }

    method FadeOutOver(duration: real)
      modifies this
      ensures Snapshot() == old(Snapshot()).(fade := FadeOut(duration))
    {
      fade := FadeOut(duration);
    }

    method Play()
      modifies this
      ensures Snapshot() == old(Snapshot()).(running := true)
    {
      running := true;
    }

    method SetLoop(mode: Loop)
      modifies this
      ensures Snapshot() == old(Snapshot()).(loop := mode)
    {
      loop := mode;
    }

    /** `reset().fadeIn(0.5).play()`, `setLoop(LoopOnce, 1)`,
        `clampWhenFinished = true`, `timeScale = 0.5`: whatever the action's
        state was, it ends in the `Started` configuration. */
    method Start()
      modifies this
      ensures Snapshot() == Started
    {
      Reset();
      FadeInOver(CrossfadeTime);
      Play();
      SetLoop(Once(1));
      clampWhenFinished := true;
      timeScale := PlaybackRate;
    }
  }

  /** What the last run of the animation effect left to do when the
      `animation` state next changes. */
  datatype Cleanup =
    | NoCleanup                            // the effect returned early
    | FadeOutOnly(clip: string)            // the target was "Idle"
    | RemoveListenerAndFadeOut(clip: string)  // any other target

  /** The cleanup the effect returns after starting `name`: a fade-out, and
      for a target other than "Idle" also the listener's removal. */
  function CleanupFor(name: string): (r: Cleanup)
    ensures r != NoCleanup && r.clip == name
    ensures r.FadeOutOnly? <==> name == IdleClip
  {
    if name == IdleClip then FadeOutOnly(name) else RemoveListenerAndFadeOut(name)
  }

  class Animator {
    /** `actions`: one action per clip name. */
    const actions: map<string, Action>
    /** The `animation` state: the clip the character should be playing. */
    var animation: Option<string>
    /** The mixer's "finished" listeners, each tagged with the target whose
        effect installed it. */
    var listeners: seq<string>
    /** The cleanup returned by the last run of the effect. */
    var cleanup: Cleanup

    /** At most one "finished" listener exists; it belongs to the current
        target and only when that target is not "Idle". */
    ghost predicate Valid()
      reads this
    {
      match cleanup
      case NoCleanup => listeners == []
      case FadeOutOnly(n) => listeners == [] && n == IdleClip && n in actions && animation == Some(n)
      case RemoveListenerAndFadeOut(n) => listeners == [n] && n != IdleClip && n in actions && animation == Some(n)
    }

    /** Mounting: the `animation` state starts at `initial` and the effect
        runs once for it. */
    constructor (actions: map<string, Action>, initial: Option<string>)
      modifies actions.Values
      ensures Valid() && this.actions == actions && animation == initial
      ensures initial.Some? && initial.value in actions ==>
        var target := actions[initial.value];
        target.Snapshot() == Started
        && (forall a | a in actions.Values && a != target :: a.Snapshot() == FadedOut(old(a.Snapshot())))
        && listeners == (if initial.value == IdleClip then [] else [initial.value])
        && cleanup == CleanupFor(initial.value)
      ensures !(initial.Some? && initial.value in actions) ==>
        listeners == [] && cleanup == NoCleanup
        && forall a | a in actions.Values :: a.Snapshot() == old(a.Snapshot())
    {
      this.actions := actions;
      animation := initial;
      listeners := [];
      cleanup := NoCleanup;
      new;
      RunEffect();
    }

    /** The animation effect for the current `animation` state: nothing if
        the clip has no action; otherwise every other action fades out over
        0.5, the target restarts, fades in over 0.5 and plays once at half
        speed, clamped on its last frame; a "finished" listener that sets the
        state to "Idle" is installed only for a target other than "Idle". */
    method RunEffect()
      requires Valid() && cleanup == NoCleanup
      modifies this, actions.Values
      ensures Valid() && animation == old(animation)
      ensures old(animation).Some? && old(animation).value in actions ==>
        var n := old(animation).value;
        var target := actions[n];
        target.Snapshot() == Started
        && (forall a | a in actions.Values && a != target :: a.Snapshot() == FadedOut(old(a.Snapshot())))
        && listeners == (if n == IdleClip then [] else [n])
        && cleanup == CleanupFor(n)
      ensures !(old(animation).Some? && old(animation).value in actions) ==>
        listeners == old(listeners) && cleanup == NoCleanup
        && forall a | a in actions.Values :: a.Snapshot() == old(a.Snapshot())
    {
      if animation.None? || animation.value !in actions {
        return;
      }
      var name := animation.value;
      var action := actions[name];
      FadeOutOthers(action);
      action.Start();
      if name != IdleClip {
        listeners := listeners + [name];
        cleanup := RemoveListenerAndFadeOut(name);
      } else {
        cleanup := FadeOutOnly(name);
      }
    }

    /** `Object.values(actions).forEach(a => a !== action && a.fadeOut(0.5))`:
        every action except `target` gets a 0.5 fade-out. */
    method FadeOutOthers(target: Action)
      requires target in actions.Values
      modifies actions.Values
      ensures target.Snapshot() == old(target.Snapshot())
      ensures forall a | a in actions.Values && a != target :: a.Snapshot() == FadedOut(old(a.Snapshot()))
    {
      var rest := actions.Values;
      while rest != {}
        invariant rest <= actions.Values
        invariant forall a | a in actions.Values && a !in rest ::
          a.Snapshot() == if a == target then old(a.Snapshot()) else FadedOut(old(a.Snapshot()))
        invariant forall a | a in rest :: a.Snapshot() == old(a.Snapshot())
        decreases rest
      {
        var a :| a in rest;
        if a != target {
          a.FadeOutOver(CrossfadeTime);
        }
        rest := rest - {a};
      }
    }

    /** The cleanup of the previous effect, run before the effect runs again:
        the previous target fades out over 0.5 and its listener, if any, is
        removed. */
    method RunCleanup()
      requires Valid()
      modifies this, actions.Values
      ensures Valid() && animation == old(animation) && cleanup == NoCleanup && listeners == []
      ensures old(cleanup) != NoCleanup ==>
        var target := actions[old(cleanup).clip];
        target.Snapshot() == FadedOut(old(target.Snapshot()))
        && forall a | a in actions.Values && a != target :: a.Snapshot() == old(a.Snapshot())
      ensures old(cleanup) == NoCleanup ==> forall a | a in actions.Values :: a.Snapshot() == old(a.Snapshot())
    {
      match cleanup {
        case NoCleanup =>
        case FadeOutOnly(n) =>
          actions[n].FadeOutOver(CrossfadeTime);
        case RemoveListenerAndFadeOut(n) =>
          listeners := RemoveListener(listeners, n);
          actions[n].FadeOutOver(CrossfadeTime);
      }
      cleanup := NoCleanup;
    }

    /** Nothing observable changed: the state, the listeners, the pending
        cleanup and every action. */
    twostate predicate Kept()
      reads this, actions.Values
    {
      animation == old(animation) && listeners == old(listeners) && cleanup == old(cleanup)
      && forall a | a in actions.Values :: a.Snapshot() == old(a.Snapshot())
    }

    /** The outcome of `setAnimation(name)`. The same state changes nothing.
        Otherwise the state becomes `name`; a clip with an action becomes the
        sole target (restarted, every other action given a 0.5 fade-out, a
        listener exactly when it is not "Idle"); a clip without one leaves
        only the previous target faded out and no listener. */
    twostate predicate Requested(name: string)
      requires old(Valid())
      reads this, actions.Values
    {
      if old(animation) == Some(name) then Kept()
      else
        animation == Some(name)
        && (name in actions ==>
              var target := actions[name];
              target.Snapshot() == Started
              && (forall a | a in actions.Values && a != target :: a.Snapshot() == FadedOut(old(a.Snapshot())))
              && listeners == (if name == IdleClip then [] else [name])
              && cleanup == CleanupFor(name))
        && (name !in actions ==>
              listeners == [] && cleanup == NoCleanup
              && (forall a | a in actions.Values && (old(cleanup) == NoCleanup || a != actions[old(cleanup).clip]) ::
                    a.Snapshot() == old(a.Snapshot()))
              && (old(cleanup) != NoCleanup ==>
                    var previous := actions[old(cleanup).clip];
                    previous.Snapshot() == FadedOut(old(previous.Snapshot()))))
    }

    /** What `Requested(name)` leaves the actions other than the new target:
        each fades out once when a new target was started or when it was the
        previous target, and is otherwise untouched. */
    twostate lemma RequestedOthers(name: string)
      requires old(Valid()) && Requested(name)
      ensures forall a | a in actions.Values && (name !in actions || a != actions[name]) ::
        a.Snapshot() ==
          if old(animation) == Some(name) then old(a.Snapshot())
          else if name in actions || (old(cleanup) != NoCleanup && a == actions[old(cleanup).clip]) then FadedOut(old(a.Snapshot()))
          else old(a.Snapshot())
    {
    }

    /** `setAnimation(name)`: no change when the state already holds `name`;
        otherwise the previous effect is cleaned up and the effect runs for
        `name`. */
    method SetAnimation(name: string)
      requires Valid()
      modifies this, actions.Values
      ensures Valid() && Requested(name)
    {
      if animation == Some(name) {
        return;
      }
      RunCleanup();
      animation := Some(name);
      RunEffect();
    }

    /** The mixer's "finished" event, raised when any action completes: every
        installed listener sets the state to "Idle". */
    method OnFinished()
      requires Valid()
      modifies this, actions.Values
      ensures Valid()
      ensures old(listeners) == [] ==> Kept()
      ensures old(listeners) != [] ==> old(animation) != Some(IdleClip) && Requested(IdleClip)
    {
      if listeners != [] {
        SetAnimation(IdleClip);
      }
    }
  }

  /** `removeEventListener`: drop the first listener tagged `clip`. */
  function RemoveListener(listeners: seq<string>, clip: string): (r: seq<string>)
    ensures clip !in listeners ==> r == listeners
    ensures clip in listeners ==> |r| == |listeners| - 1 && multiset(r) == multiset(listeners) - multiset{clip}
  {
    if listeners == [] then []
    else if listeners[0] == clip then
      assert listeners == [clip] + listeners[1..];
      listeners[1..]
    else
      assert listeners == [listeners[0]] + listeners[1..];
      [listeners[0]] + RemoveListener(listeners[1..], clip)
  }
}
