/**
 * The page itself: the module-level state of the script (`running`,
 * `facingMode`, whether a model and a webcam exist) together with the parts
 * of the document the script writes (the buttons' `disabled` flags, the
 * status badge, the result panel and the bar chart), and one method per
 * handler.
 *
 * Every `await` on the classifier library or the camera is an outcome passed
 * in by the caller. Each handler runs as one step, except the frame loop,
 * which is split at its `await`: `LoopFired` is the animation-frame callback
 * up to the call of the classifier, and `PredictResolved` or
 * `PredictRejected` is what happens when that call settles. Frames scheduled
 * and classifier calls outstanding are counted, so the interleavings the
 * loop allows stay visible.
 */
module Controller {
  import opened Labels
  import opened Ranking
  import opened Presenter
  import opened Session

  /** The colour class of the status badge. */
  datatype Tone = Neutral | Good | Bad

  /** How a promise from the library or the camera settled; `message` is the error's `message`, if any. */
  datatype Outcome = Resolved | Rejected(message: JsString)

  /** How the camera answers `setup({ facingMode })`, the fallback `setup()`, and `play()`. */
  datatype CameraResponse = CameraResponse(preferred: Outcome, fallback: Outcome, play: Outcome)

  /** Which settings the webcam was set up with, if any. */
  datatype Setup = NotSetUp | Facing(mode: FacingMode) | DefaultCamera

  /** The script's `webcam` variable: not yet created, or a webcam with its setup and whether it plays. */
  datatype Webcam = NoWebcam | Webcam(setup: Setup, playing: bool)

  const InsecureNotice: string := "Para usar la cámara, abrí esta página en HTTPS (GitHub Pages)."
  const HttpsRequired: string := "Necesitás HTTPS para usar la cámara."
  const LoadingModel: string := "Cargando modelo…"
  const LiveNotice: string := "En vivo"
  const StoppedNotice: string := "Detenido"
  const StoppedLabel: string := "Cámara detenida"
  const StoppedDetail: string := "Presioná Iniciar cámara para reanudar."
  const ErrorLabel: string := "Error con la cámara o el modelo"
  const ErrorDetail: string := "Revisá permisos del navegador y que la URL del modelo esté disponible."

  /** `startCamera` resolves when one of the two setups succeeds and the webcam then plays. */
  predicate CameraStarts(response: CameraResponse)
  {
    (response.preferred.Resolved? || response.fallback.Resolved?) && response.play.Resolved?
  }

  /**
   * What `startCamera` leaves behind when asked for `facing`: a new webcam,
   * set up with the requested mode, or failing that with default settings;
   * it plays exactly when the promise resolves, and a rejection carries the
   * error of the step that failed.
   */
  ghost predicate Opened(w: Webcam, outcome: Outcome, facing: FacingMode, response: CameraResponse)
  {
    w.Webcam? &&
    w.setup == (if response.preferred.Resolved? then Facing(facing)
                else if response.fallback.Resolved? then DefaultCamera
                else NotSetUp) &&
    (outcome.Resolved? <==> CameraStarts(response)) &&
    (outcome.Rejected? ==> outcome == if w.setup == NotSetUp then response.fallback else response.play) &&
    w.playing == outcome.Resolved?
  }

  class Page {
    var running: bool
    var facingMode: FacingMode
    var startDisabled: bool
    var stopDisabled: bool
    var switchDisabled: bool
    var modelLoaded: bool
    var webcam: Webcam
    /** The webcam's canvas has replaced the placeholder in the video container. */
    var feedShown: bool
    var statusText: string
    var statusTone: Tone
    var resultLabel: string
    var resultDetail: Detail
    var panel: Panel
    var rows: seq<BarRow>
    /** Animation-frame callbacks requested and not yet run. */
    var pendingFrames: nat
    /** Classifier calls made by the loop and not yet settled. */
    var inFlight: nat

    function ControlState(): Controls
      reads this
    {
      Controls(running, facingMode, startDisabled, stopDisabled, switchDisabled)
    }

    /** Between clicks the controls are idle or live, and a running page has a model and a webcam to run the loop on. */
    ghost predicate Valid()
      reads this
    {
      Consistent(ControlState()) && (running ==> modelLoaded && webcam.Webcam?)
    }

    /**
     * The page as the script finds it: idle, asking for the rear camera, and
     * warning about an insecure context. The other texts come from the
     * document and are left open.
     */
    constructor(protocol: string, hostname: string)
      ensures Valid() && Idle(ControlState()) && facingMode == Environment
      ensures !modelLoaded && webcam == NoWebcam && !feedShown && rows == []
      ensures pendingFrames == 0 && inFlight == 0 && panel == Panel(false, false)
      ensures !IsSecureContext(protocol, hostname) ==> statusText == InsecureNotice && statusTone == Neutral
    {
      running := false;
      facingMode := Environment;
      startDisabled, stopDisabled, switchDisabled := false, true, true;
      modelLoaded, webcam, feedShown := false, NoWebcam, false;
      statusText, statusTone := "", Neutral;
      resultLabel, resultDetail, panel := "", Message(""), Panel(false, false);
      rows := [];
      pendingFrames, inFlight := 0, 0;
      new;
      if !IsSecureContext(protocol, hostname) {
        ToastStatus(InsecureNotice, Neutral);
      }
    }

    /** `toastStatus`: the badge shows the text in the given tone. */
    method ToastStatus(text: string, tone: Tone)
      modifies this`statusText, this`statusTone
      ensures statusText == text && statusTone == tone
    {
      statusText := text;
      statusTone := tone;
    }

    /** `buildBars`: empty the chart, then append one blank row per label. */
    method BuildBars(labels: LabelList)
      modifies this`rows
      ensures rows == BuildRows(labels)
    {
      rows := [];
      var names := BarLabels(labels);
      var i := 0;
      while i < |names|
        invariant 0 <= i <= |names|
        invariant |rows| == i
        invariant forall k :: 0 <= k < i ==> rows[k] == BarRow(MapLabel(names[k]), Blank, FillNeutral)
      {
        rows := rows + [BarRow(MapLabel(names[i]), Blank, FillNeutral)];
        i := i + 1;
      }
    }

    /** `updateBars`: resynchronise the number of rows, then write entry `i` into row `i` where that row exists. */
    method UpdateBars(prediction: seq<Prediction>)
      modifies this`rows
      ensures rows == UpdateRows(old(rows), prediction)
    {
      if |rows| != |prediction| {
        BuildBars(Array(DisplayNames(prediction)));
      }
      ghost var base := rows;
      var i := 0;
      while i < |prediction|
        invariant 0 <= i <= |prediction|
        invariant |rows| == |base|
        invariant forall k :: 0 <= k < |rows| ==> rows[k] == if k < i then RowFor(prediction[k]) else base[k]
      {
        if i < |rows| {
          var p := prediction[i];
          var name := MapLabel(p.className);
          var fill := if IsRecyclableClass(Str(name)) then FillGood else FillNeutral;
          rows := rows[i := BarRow(name, Level(p.probability), fill)];
        }
        i := i + 1;
      }
    }

    /**
     * `predict` once the classifier has answered with `a`: sort it in place,
     * then show the verdict, the detail, the panel classes and the bars of
     * the top entry. An empty answer throws when the top entry is read, after
     * the sort and before anything is written.
     */
    method Predict(a: array<Prediction>) returns (thrown: bool)
      modifies a, this`resultLabel, this`resultDetail, this`panel, this`rows
      ensures a[..] == SortDesc(old(a[..]))
      ensures thrown <==> Present(old(rows), old(a[..])).None?
      ensures thrown ==> unchanged(this)
      ensures !thrown ==>
        var v := Present(old(rows), old(a[..])).value;
        resultLabel == v.verdict && resultDetail == v.detail && panel == v.panel && rows == v.rows
    {
      SortByProbability(a);
      if a.Length == 0 {
        return true;
      }
      var top := a[0];
      var displayName := MapLabel(top.className);
      var recyclable := IsRecyclableClass(Str(displayName));
      resultLabel := if recyclable then "RECICLABLE" else "NO RECICLABLE";
      resultDetail := Confidence(top.probability, displayName);
      panel := panel.(bad := !recyclable);
      panel := panel.(good := recyclable);
      UpdateBars(a[..]);
      thrown := false;
    }

    /** `startCamera`: a new webcam, set up with the requested facing mode or else with defaults, then played and shown. */
    method StartCamera(response: CameraResponse) returns (outcome: Outcome)
      modifies this`webcam, this`feedShown
      ensures Opened(webcam, outcome, facingMode, response)
      ensures feedShown == (old(feedShown) || outcome.Resolved?)
    {
      webcam := Webcam(NotSetUp, false);
      if response.preferred.Resolved? {
        webcam := webcam.(setup := Facing(facingMode));
      } else if response.fallback.Resolved? {
        webcam := webcam.(setup := DefaultCamera);
      } else {
        return response.fallback;
      }
      if response.play.Rejected? {
        return response.play;
      }
      webcam := webcam.(playing := true);
      feedShown := true;
      outcome := Resolved;
    }

    /** `restartCamera`: nothing without a webcam; otherwise stop it and start a new one. */
    method RestartCamera(response: CameraResponse) returns (outcome: Outcome)
      modifies this`webcam, this`feedShown
      ensures old(webcam).NoWebcam? ==> outcome == Resolved && unchanged(this)
      ensures old(webcam).Webcam? ==> Opened(webcam, outcome, facingMode, response)
      ensures feedShown == (old(feedShown) || (old(webcam).Webcam? && outcome.Resolved?))
    {
      if webcam.NoWebcam? {
        return Resolved;
      }
      webcam := webcam.(playing := false);
      outcome := StartCamera(response);
    }

    /**
     * `initCameraAndModel`. In an insecure context it only warns; otherwise
     * it goes on with `LoadAndStart`.
     */
    method InitCameraAndModel(protocol: string, hostname: string, load: Outcome, labels: LabelList, response: CameraResponse)
      returns (outcome: Outcome)
      modifies this`running, this`startDisabled, this`stopDisabled, this`switchDisabled, this`modelLoaded,
        this`webcam, this`feedShown, this`statusText, this`statusTone, this`rows, this`pendingFrames
      ensures !IsSecureContext(protocol, hostname) ==>
        outcome == Resolved && statusText == HttpsRequired && statusTone == Bad &&
        ControlState() == old(ControlState()) && modelLoaded == old(modelLoaded) && webcam == old(webcam) &&
        rows == old(rows) && pendingFrames == old(pendingFrames)
      ensures !IsSecureContext(protocol, hostname) ==> feedShown == old(feedShown)
      ensures IsSecureContext(protocol, hostname) ==>
        Launched(old(ControlState()), old(rows), old(webcam), old(pendingFrames), old(feedShown), old(modelLoaded),
                 load, labels, response, outcome)
    {
      if !IsSecureContext(protocol, hostname) {
        ToastStatus(HttpsRequired, Bad);
        return Resolved;
      }
      outcome := LoadAndStart(load, labels, response);
    }

    /**
     * What `initCameraAndModel` leaves in a secure context: start disabled;
     * the model loaded, the bars built from its labels and the camera started,
     * up to the step that failed; the camera's canvas shown once it plays;
     * and, only if every step succeeded, the controls live, the badge
     * "En vivo" and the first frame requested.
     */
    ghost predicate Launched(c: Controls, rows0: seq<BarRow>, webcam0: Webcam, frames0: nat, feed0: bool, loaded0: bool,
                             load: Outcome, labels: LabelList, response: CameraResponse, outcome: Outcome)
      reads this
    {
      (outcome.Resolved? <==> load.Resolved? && CameraStarts(response)) &&
      startDisabled && facingMode == c.facingMode &&
      (if outcome.Resolved? then running && !stopDisabled && !switchDisabled
       else running == c.running && stopDisabled == c.stopDisabled && switchDisabled == c.switchDisabled) &&
      (load.Rejected? ==> outcome == load && modelLoaded == loaded0 && rows == rows0 && webcam == webcam0) &&
      (load.Resolved? ==> modelLoaded && rows == BuildRows(labels) && Opened(webcam, outcome, facingMode, response)) &&
      (outcome.Resolved? ==> statusText == LiveNotice && statusTone == Good) &&
      (outcome.Rejected? ==> statusText == LoadingModel && statusTone == Neutral) &&
      feedShown == (feed0 || outcome.Resolved?) &&
      pendingFrames == frames0 + (if outcome.Resolved? then 1 else 0)
    }

    /** The body of `initCameraAndModel` past its secure-context check. */
    method LoadAndStart(load: Outcome, labels: LabelList, response: CameraResponse) returns (outcome: Outcome)
      modifies this`running, this`startDisabled, this`stopDisabled, this`switchDisabled, this`modelLoaded,
        this`webcam, this`feedShown, this`statusText, this`statusTone, this`rows, this`pendingFrames
      ensures Launched(old(ControlState()), old(rows), old(webcam), old(pendingFrames), old(feedShown), old(modelLoaded),
                       load, labels, response, outcome)
    {
      startDisabled := true;
      ToastStatus(LoadingModel, Neutral);
      if load.Rejected? {
        return load;
      }
      modelLoaded := true;
      BuildBars(labels);
      outcome := StartCamera(response);
      if outcome.Rejected? {
        return;
      }
      GoLive();
    }

    /** The end of `initCameraAndModel`: set `running`, enable stop and switch, say "En vivo" and request the first frame. */
    method GoLive()
      modifies this`running, this`stopDisabled, this`switchDisabled, this`statusText, this`statusTone, this`pendingFrames
      ensures running && !stopDisabled && !switchDisabled
      ensures statusText == LiveNotice && statusTone == Good
      ensures pendingFrames == old(pendingFrames) + 1
    {
      running := true;
      stopDisabled := false;
      switchDisabled := false;
      ToastStatus(LiveNotice, Good);
      pendingFrames := pendingFrames + 1;
    }

    /** `handleError`: report the error, enable start and disable stop and switch; `running` is left as it is. */
    method HandleError(message: JsString)
      modifies this`statusText, this`statusTone, this`startDisabled, this`stopDisabled, this`switchDisabled,
        this`resultLabel, this`resultDetail
      ensures ControlState() == Errored(old(ControlState()))
      ensures statusText == "Error: " + OrElse(message, "ver consola") && statusTone == Bad
      ensures resultLabel == ErrorLabel && resultDetail == Message(ErrorDetail)
    {
      ToastStatus("Error: " + OrElse(message, "ver consola"), Bad);
      startDisabled := false;
      stopDisabled := true;
      switchDisabled := true;
      resultLabel := ErrorLabel;
      resultDetail := Message(ErrorDetail);
    }

    /** A click on start: `initCameraAndModel().catch(handleError)`. */
    method StartClicked(protocol: string, hostname: string, load: Outcome, labels: LabelList, response: CameraResponse)
      returns (outcome: Outcome)
      requires Valid() && !startDisabled
      modifies this`running, this`startDisabled, this`stopDisabled, this`switchDisabled, this`modelLoaded,
        this`webcam, this`feedShown, this`statusText, this`statusTone, this`rows, this`pendingFrames,
        this`resultLabel, this`resultDetail
      ensures Valid()
      ensures ControlState() ==
        StartClick(old(ControlState()), IsSecureContext(protocol, hostname), load.Resolved? && CameraStarts(response))
      ensures !IsSecureContext(protocol, hostname) ==>
        outcome == Resolved && statusText == HttpsRequired && statusTone == Bad &&
        modelLoaded == old(modelLoaded) && webcam == old(webcam) && feedShown == old(feedShown) &&
        rows == old(rows) && pendingFrames == old(pendingFrames)
      ensures IsSecureContext(protocol, hostname) ==>
        (outcome.Resolved? <==> load.Resolved? && CameraStarts(response)) &&
        (load.Rejected? ==> outcome == load && modelLoaded == old(modelLoaded) && rows == old(rows) && webcam == old(webcam)) &&
        (load.Resolved? ==> modelLoaded && rows == BuildRows(labels) && Opened(webcam, outcome, facingMode, response)) &&
        feedShown == (old(feedShown) || outcome.Resolved?)
      ensures outcome.Resolved? ==> resultLabel == old(resultLabel) && resultDetail == old(resultDetail)
      ensures outcome.Rejected? ==>
        statusText == "Error: " + OrElse(outcome.message, "ver consola") && statusTone == Bad &&
        resultLabel == ErrorLabel && resultDetail == Message(ErrorDetail) && pendingFrames == old(pendingFrames)
      ensures IsSecureContext(protocol, hostname) && outcome.Resolved? ==>
        statusText == LiveNotice && statusTone == Good && pendingFrames == old(pendingFrames) + 1
    {
      outcome := InitCameraAndModel(protocol, hostname, load, labels, response);
      if outcome.Rejected? {
        HandleError(outcome.message);
      }
    }

    /** `stop`: clear `running`, enable start, disable stop and switch, stop the webcam and show the stopped panel. */
    method Stop()
      modifies this`running, this`startDisabled, this`stopDisabled, this`switchDisabled, this`webcam,
        this`statusText, this`statusTone, this`panel, this`resultLabel, this`resultDetail
      ensures Valid()
      ensures ControlState() == Stopped(old(ControlState()))
      ensures webcam == (if old(webcam).Webcam? then old(webcam).(playing := false) else NoWebcam)
      ensures statusText == StoppedNotice && statusTone == Neutral && panel == Panel(false, false)
      ensures resultLabel == StoppedLabel && resultDetail == Message(StoppedDetail)
    {
      running := false;
      startDisabled := false;
      stopDisabled := true;
      switchDisabled := true;
      if webcam.Webcam? {
        webcam := webcam.(playing := false);
      }
      ToastStatus(StoppedNotice, Neutral);
      panel := Panel(false, false);
      resultLabel := StoppedLabel;
      resultDetail := Message(StoppedDetail);
    }

    /** A click on switch: toggle the facing mode, then restart the camera; a failed restart is not caught and the toggle stays. */
    method SwitchClicked(response: CameraResponse) returns (outcome: Outcome)
      requires Valid() && !switchDisabled
      modifies this`facingMode, this`webcam, this`feedShown
      ensures Valid()
      ensures ControlState() == Switched(old(ControlState()))
      ensures Opened(webcam, outcome, facingMode, response)
      ensures feedShown == (old(feedShown) || outcome.Resolved?)
    {
      facingMode := Toggled(facingMode);
      outcome := RestartCamera(response);
    }

    /**
     * An animation frame runs `loop`: it consumes its request and, if the page
     * is running, updates the webcam and calls the classifier.
     */
    method LoopFired() returns (predicting: bool)
      requires Valid() && pendingFrames > 0
      modifies this`pendingFrames, this`inFlight
      ensures predicting == running
      ensures predicting ==> modelLoaded && webcam.Webcam?
      ensures pendingFrames == old(pendingFrames) - 1
      ensures inFlight == old(inFlight) + (if predicting then 1 else 0)
    {
      pendingFrames := pendingFrames - 1;
      if !running {
        return false;
      }
      inFlight := inFlight + 1;
      predicting := true;
    }

    /**
     * The classifier answered `a`: `predict` shows it, and `loop` then asks
     * for the next frame without looking at `running` again. A throw from
     * `predict` ends this chain of frames and reaches no handler.
     */
    method PredictResolved(a: array<Prediction>) returns (thrown: bool)
      requires inFlight > 0
      modifies a, this`inFlight, this`pendingFrames, this`resultLabel, this`resultDetail, this`panel, this`rows
      ensures inFlight == old(inFlight) - 1
      ensures thrown <==> a.Length == 0
      ensures pendingFrames == old(pendingFrames) + (if thrown then 0 else 1)
      ensures a[..] == SortDesc(old(a[..]))
      ensures thrown ==>
        resultLabel == old(resultLabel) && resultDetail == old(resultDetail) && panel == old(panel) && rows == old(rows)
      ensures !thrown ==>
        var v := Present(old(rows), old(a[..])).value;
        resultLabel == v.verdict && resultDetail == v.detail && panel == v.panel && rows == v.rows
    {
      inFlight := inFlight - 1;
      thrown := Predict(a);
      if !thrown {
        pendingFrames := pendingFrames + 1;
      }
    }

    /** The classifier rejected: the chain of frames ends, and nothing on the page changes. */
    method PredictRejected()
      requires inFlight > 0
      modifies this`inFlight
      ensures inFlight == old(inFlight) - 1
    {
      inFlight := inFlight - 1;
    }
  }

  /**
   * Stop and start again while a classifier call is outstanding: the old
   * chain of frames is still waiting on its call, and the new one makes its
   * own, so two calls are outstanding at once.
   */
  method TwoLoopChains() returns (page: Page)
    ensures page.running && page.inFlight == 2
  {
    var works := CameraResponse(Resolved, Resolved, Resolved);
    page := new Page("https:", "example.org");
    var outcome := page.StartClicked("https:", "example.org", Resolved, NotAnArray, works);
    var predicting := page.LoopFired();
    page.Stop();
    outcome := page.StartClicked("https:", "example.org", Resolved, NotAnArray, works);
    predicting := page.LoopFired();
  }

  /**
   * The camera refuses both setups: the click ends idle again, with the
   * camera's error on the badge and the error texts in the result panel.
   */
  method CameraRefused(message: string) returns (page: Page)
    requires message != []
    ensures Idle(page.ControlState())
    ensures page.statusText == "Error: " + message && page.statusTone == Bad
    ensures page.resultLabel == ErrorLabel && page.webcam == Webcam(NotSetUp, false)
  {
    var refused := Rejected(Str(message));
    page := new Page("https:", "example.org");
    var outcome := page.StartClicked("https:", "example.org", Resolved, NotAnArray, CameraResponse(refused, refused, Resolved));
  }
}
