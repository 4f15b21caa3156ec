/**
 * The page's controls as a value: the flag `running`, the requested camera
 * `facingMode`, and the `disabled` flags of the start, stop and switch
 * buttons. Each handler's effect on them is a function here; the class
 * `Controller.Page` is proved to apply exactly these functions.
 */
module Session {

  /** The camera the page asks for: "environment" (the rear camera) or "user" (the front camera). */
  datatype FacingMode = Environment | User

  /** The switch handler's `facingMode === "environment" ? "user" : "environment"`. */
  function Toggled(m: FacingMode): FacingMode
  {
    if m == Environment then User else Environment
  }

  /** Toggling always changes the mode, and two toggles restore it. */
  lemma ToggledInvolution(m: FacingMode)
    ensures Toggled(m) != m
    ensures Toggled(Toggled(m)) == m
  {
  }

  datatype Controls = Controls(
    running: bool,
    facingMode: FacingMode,
    startDisabled: bool,
    stopDisabled: bool,
    switchDisabled: bool)

  /** Ready to start: not running, only the start button enabled. */
  predicate Idle(c: Controls)
  {
    !c.running && !c.startDisabled && c.stopDisabled && c.switchDisabled
  }

  /** Running: the start button disabled, stop and switch enabled. */
  predicate Live(c: Controls)
  {
    c.running && c.startDisabled && !c.stopDisabled && !c.switchDisabled
  }

  /** The two states the controls rest in between clicks. */
  predicate Consistent(c: Controls)
  {
    Idle(c) || Live(c)
  }

  /** Past the secure-context check of `initCameraAndModel`: the start button is disabled while loading. */
  function Loading(c: Controls): Controls
  {
    c.(startDisabled := true)
  }

  /** The end of a successful `initCameraAndModel`. */
  function Started(c: Controls): Controls
  {
    c.(running := true, stopDisabled := false, switchDisabled := false)
  }

  /** `stop`. */
  function Stopped(c: Controls): Controls
  {
    c.(running := false, startDisabled := false, stopDisabled := true, switchDisabled := true)
  }

  /** `handleError`, which re-enables start and disables the rest but does not touch `running`. */
  function Errored(c: Controls): Controls
  {
    c.(startDisabled := false, stopDisabled := true, switchDisabled := true)
  }

  /** The switch handler's toggle, which no failure of the restart undoes. */
  function Switched(c: Controls): Controls
  {
    c.(facingMode := Toggled(c.facingMode))
  }

  /**
   * A click on start: `initCameraAndModel().catch(handleError)`. In an
   * insecure context init returns before touching any control; otherwise it
   * disables start, and then either completes (`succeeds`) or rejects and
   * `handleError` runs.
   */
  function StartClick(c: Controls, secure: bool, succeeds: bool): Controls
  {
    if !secure then c
    else if succeeds then Started(Loading(c))
    else Errored(Loading(c))
  }

  /** In an insecure context a start click changes no control. */
  lemma InsecureStartChangesNothing(c: Controls, succeeds: bool)
    ensures StartClick(c, false, succeeds) == c
  {
  }

  /** A successful start leaves the controls live, with the same facing mode. */
  lemma SuccessfulStartIsLive(c: Controls)
    ensures Live(StartClick(c, true, true))
    ensures StartClick(c, true, true).facingMode == c.facingMode
  {
  }

  /**
   * A failed start re-enables start and disables stop and switch; `running`
   * keeps the value it had before the click.
   */
  lemma FailedStartKeepsRunning(c: Controls)
    ensures var e := StartClick(c, true, false);
      !e.startDisabled && e.stopDisabled && e.switchDisabled &&
      e.running == c.running && e.facingMode == c.facingMode
  {
  }

  /** `handleError` on live controls leaves `running` set while the start button is enabled again. */
  lemma ErrorWhileLiveKeepsRunning(c: Controls)
    requires Live(c)
    ensures Errored(c).running && !Errored(c).startDisabled
    ensures !Consistent(Errored(c))
  {
  }

  /** `stop` always ends idle, keeps the facing mode, and a second `stop` changes nothing. */
  lemma StopIdempotent(c: Controls)
    ensures Idle(Stopped(c))
    ensures Stopped(c).facingMode == c.facingMode
    ensures Stopped(Stopped(c)) == Stopped(c)
  {
  }

  /** A switch click changes the facing mode and nothing else; two clicks restore the controls. */
  lemma SwitchTwiceRestores(c: Controls)
    ensures Switched(c).facingMode != c.facingMode
    ensures Switched(c).(facingMode := c.facingMode) == c
    ensures Switched(Switched(c)) == c
  {
  }

  /**
   * Every click a browser lets through (the button is not disabled) takes
   * consistent controls to consistent controls. So the page is either idle
   * or live between clicks, and `handleError` only ever runs on controls that
   * are not running.
   */
  lemma ClicksKeepConsistent(c: Controls, secure: bool, succeeds: bool)
    requires Consistent(c)
    ensures !c.startDisabled ==> !c.running && Consistent(StartClick(c, secure, succeeds))
    ensures !c.stopDisabled ==> Consistent(Stopped(c))
    ensures !c.switchDisabled ==> Consistent(Switched(c))
  {
  }

  /**
   * Between clicks, start can only be clicked when `running` is clear. This
   * does not mean no webcam is open: a webcam that was set up but failed to
   * play is left as it is by `handleError`, and the next start replaces it
   * without stopping it.
   */
  lemma NoStartWhileRunning(c: Controls)
    requires Consistent(c)
    ensures c.running ==> c.startDisabled
  {
  }
}
