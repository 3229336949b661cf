/** The simulation panel (class SimulationPanel): a second copy of the engine
    inside the widget, with its own run state (running, paused, step count,
    iteration limit), the marking and the marking saved at start. The scene is
    reduced to whether one is attached; what its extractNetData hands over is
    a parameter of the handlers that call it. The timer is reduced to whether
    it runs and its interval, the four buttons to their enabled flags. */
module SimulationWidget {
  import opened PetriNet

  /** Enabled flags of the start, pause and step buttons (reset stays enabled). */
  datatype Buttons = Buttons(start: bool, pause: bool, step: bool)

  /** The buttons for a run state: start and step go together, pause is their
      opposite; start is offered when idle or paused. */
  function ButtonStates(isRunning: bool, isPaused: bool): (b: Buttons)
    ensures b.start <==> !isRunning || isPaused
    ensures b.pause == !b.start && b.step == b.start
  {
    Buttons(!isRunning || isPaused, isRunning && !isPaused, !isRunning || isPaused)
  }

  /** Whether a step must stop on the limit; a limit of zero or less is none. */
  predicate LimitHit(maxIterations: int, stepCount: int) {
    maxIterations > 0 && stepCount >= maxIterations
  }

  /** The panel's iteration limit for a configuration: -1 for an infinite run,
      the iteration count otherwise; only a positive count ever stops a run. */
  function IterationLimit(s: Settings): (limit: int)
    ensures s.infinite ==> limit < 0
    ensures limit > 0 ==> limit == s.iterations
    ensures forall c :: LimitHit(limit, c) <==> !s.infinite && 0 < s.iterations <= c
  {
    if s.infinite then -1 else s.iterations
  }

  /** The timer interval for a configuration: the step time when positive,
      otherwise 1 ms. */
  function TimerInterval(s: Settings): (ms: int)
    ensures ms >= 1
    ensures s.stepTimeMs > 0 ==> ms == s.stepTimeMs
    ensures s.stepTimeMs <= 0 ==> ms == 1
  {
    if s.stepTimeMs > 0 then s.stepTimeMs else 1
  }

  class SimulationPanel {
    /** Whether a scene is attached. */
    var hasScene: bool
    var places: seq<Place>
    var transitions: seq<Transition>
    var initialPlaces: seq<Place>
    var settings: Settings
    var isRunning: bool
    var isPaused: bool
    var stepCount: int
    var maxIterations: int
    /** Whether the step timer runs, and its interval in milliseconds. */
    var timerActive: bool
    var timerInterval: int
    var buttons: Buttons

    /** Every arc names a place, and the saved marking has as many places. */
    ghost predicate Valid()
      reads this
    {
      WellFormedNet(transitions, |places|) && |initialPlaces| == |places|
    }

    /** A fresh panel: no scene, no net, no limit, only pause disabled. */
    constructor ()
      ensures !hasScene && places == [] && transitions == [] && initialPlaces == []
      ensures settings == DefaultSettings && maxIterations == -1
      ensures !isRunning && !isPaused && stepCount == 0
      ensures !timerActive && timerInterval == 0
      ensures buttons == Buttons(true, false, true)
      ensures Valid()
    {
      hasScene := false;
      places, transitions, initialPlaces := [], [], [];
      settings := DefaultSettings;
      isRunning, isPaused, stepCount, maxIterations := false, false, 0, -1;
      timerActive, timerInterval := false, 0;
      buttons := Buttons(true, false, true);
    }

    method SetScene(attached: bool)
      modifies this`hasScene
      ensures hasScene == attached
    {
      hasScene := attached;
    }

    /** Stores the configuration and derives the iteration limit and the
        timer interval from it. */
    method SetSettings(s: Settings)
      modifies this`settings, this`maxIterations, this`timerInterval
      ensures settings == s
      ensures maxIterations == IterationLimit(s) && timerInterval == TimerInterval(s)
    {
      settings := s;
      maxIterations := if s.infinite then -1 else s.iterations;
      if s.stepTimeMs > 0 {
        timerInterval := s.stepTimeMs;
      } else {
        timerInterval := 1;
      }
    }

    method UpdateButtonStates()
      modifies this`buttons
      ensures buttons == ButtonStates(isRunning, isPaused)
    {
      buttons := Buttons(!isRunning || isPaused, isRunning && !isPaused, !isRunning || isPaused);
    }

    method SaveInitialState()
      modifies this`initialPlaces
      ensures initialPlaces == places
    {
      initialPlaces := places;
    }

    method RestoreInitialState()
      modifies this`places
      ensures places == initialPlaces
    {
      places := initialPlaces;
    }

    /** Start or resume. When not running, the net is loaded from the scene,
        its marking saved and the count zeroed; a running (possibly paused)
        run keeps all of that. Either way the panel ends running, not paused,
        with the timer on. Nothing happens without a scene. */
    method OnStartClicked(scenePlaces: seq<Place>, sceneTransitions: seq<Transition>)
      requires Valid() && WellFormedNet(sceneTransitions, |scenePlaces|)
      modifies this
      ensures Valid()
      ensures hasScene == old(hasScene) && settings == old(settings)
      ensures maxIterations == old(maxIterations) && timerInterval == old(timerInterval)
      ensures !hasScene ==>
                && places == old(places) && transitions == old(transitions) && initialPlaces == old(initialPlaces)
                && isRunning == old(isRunning) && isPaused == old(isPaused) && stepCount == old(stepCount)
                && timerActive == old(timerActive) && buttons == old(buttons)
      ensures hasScene && !old(isRunning) ==>
                && places == scenePlaces && transitions == sceneTransitions && initialPlaces == scenePlaces
                && stepCount == 0
      ensures hasScene && old(isRunning) ==>
                && places == old(places) && transitions == old(transitions) && initialPlaces == old(initialPlaces)
                && stepCount == old(stepCount)
      ensures hasScene ==> isRunning && !isPaused && timerActive && buttons == ButtonStates(true, false)
    {
      if !hasScene {
        return;
      }
      if !isRunning {
        places, transitions := scenePlaces, sceneTransitions;
        SaveInitialState();
        stepCount := 0;
      }
      isRunning := true;
      isPaused := false;
      timerActive := true;
      UpdateButtonStates();
    }

    /** Pause: stops the timer and marks the run paused; the run flag and the
        marking stay. */
    method OnPauseClicked()
      modifies this
      ensures isPaused && !timerActive && buttons == ButtonStates(isRunning, true)
      ensures isRunning == old(isRunning) && stepCount == old(stepCount)
      ensures places == old(places) && transitions == old(transitions) && initialPlaces == old(initialPlaces)
      ensures hasScene == old(hasScene) && settings == old(settings)
      ensures maxIterations == old(maxIterations) && timerInterval == old(timerInterval)
    {
      isPaused := true;
      timerActive := false;
      UpdateButtonStates();
    }

    /** Reset: idle, not paused, count zero, saved marking restored. */
    method OnResetClicked()
      modifies this
      ensures !isRunning && !isPaused && stepCount == 0 && !timerActive
      ensures places == initialPlaces && initialPlaces == old(initialPlaces)
      ensures buttons == ButtonStates(false, false)
      ensures transitions == old(transitions) && hasScene == old(hasScene) && settings == old(settings)
      ensures maxIterations == old(maxIterations) && timerInterval == old(timerInterval)
      ensures old(Valid()) ==> Valid()
    {
      timerActive := false;
      isRunning := false;
      isPaused := false;
      stepCount := 0;
      RestoreInitialState();
      UpdateButtonStates();
    }

    /** Reset followed by start. */
    method StartSimulation(scenePlaces: seq<Place>, sceneTransitions: seq<Transition>)
      requires Valid() && WellFormedNet(sceneTransitions, |scenePlaces|)
      modifies this
      ensures Valid()
      ensures stepCount == 0
      ensures hasScene == old(hasScene) && settings == old(settings)
      ensures maxIterations == old(maxIterations) && timerInterval == old(timerInterval)
      ensures hasScene ==>
                && places == scenePlaces && transitions == sceneTransitions && initialPlaces == scenePlaces
                && isRunning && !isPaused && timerActive && buttons == ButtonStates(true, false)
      ensures !hasScene ==>
                && places == old(initialPlaces) && transitions == old(transitions) && initialPlaces == old(initialPlaces)
                && !isRunning && !isPaused && !timerActive && buttons == ButtonStates(false, false)
    {
      OnResetClicked();
      OnStartClicked(scenePlaces, sceneTransitions);
    }

    /** The indices of the transitions that have input arcs and whose every
        input arc finds its weight in tokens, ascending, without repetition. */
    method EnabledTransitions() returns (enabledTransitions: seq<int>)
      requires Valid()
      ensures StrictlyIncreasing(enabledTransitions)
      ensures forall x :: x in enabledTransitions <==>
                0 <= x < |transitions| && |transitions[x].inputPlaces| > 0 && Enabled(transitions[x], places)
      ensures enabledTransitions == EnabledSet(transitions, places, true)
    {
      enabledTransitions := [];
      var i := 0;
      while i < |transitions|
        invariant 0 <= i <= |transitions|
        invariant enabledTransitions == EnabledAmong(transitions, places, i, true)
      {
        var t := transitions[i];
        var enabled := true;
        var j := 0;
        while j < |t.inputPlaces|
          invariant 0 <= j <= |t.inputPlaces|
          invariant enabled
          invariant forall k :: 0 <= k < j ==> places[t.inputPlaces[k]].tokens >= t.inputWeights[k]
        {
          var placeIdx := t.inputPlaces[j];
          var weight := t.inputWeights[j];
          if places[placeIdx].tokens < weight {
            enabled := false;
            break;
          }
          j := j + 1;
        }
        assert enabled == Enabled(t, places);
        if enabled && |t.inputPlaces| > 0 {
          enabledTransitions := enabledTransitions + [i];
        }
        i := i + 1;
      }
      EnabledSetExactly(transitions, places, true);
    }

    /** Takes the input weights from the input places, then adds the output
        weights to the output places; always reports success. */
    method FireTransition(t: Transition) returns (ok: bool)
      requires WellFormed(t, |places|)
      modifies this`places
      ensures ok
      ensures places == Fired(old(places), t)
    {
      var m := places;
      var i := 0;
      while i < |t.inputPlaces|
        invariant 0 <= i <= |t.inputPlaces|
        invariant m == ApplyArcs(places, t.inputPlaces[..i], t.inputWeights[..i], false)
      {
        var placeIdx := t.inputPlaces[i];
        var weight := t.inputWeights[i];
        assert t.inputPlaces[..i + 1][..i] == t.inputPlaces[..i];
        assert t.inputWeights[..i + 1][..i] == t.inputWeights[..i];
        m := Adjust(m, placeIdx, -weight);
        i := i + 1;
      }
      assert t.inputPlaces[..i] == t.inputPlaces && t.inputWeights[..i] == t.inputWeights;
      ghost var consumed := m;
      i := 0;
      while i < |t.outputPlaces|
        invariant 0 <= i <= |t.outputPlaces|
        invariant m == ApplyArcs(consumed, t.outputPlaces[..i], t.outputWeights[..i], true)
      {
        var placeIdx := t.outputPlaces[i];
        var weight := t.outputWeights[i];
        assert t.outputPlaces[..i + 1][..i] == t.outputPlaces[..i];
        assert t.outputWeights[..i + 1][..i] == t.outputWeights[..i];
        m := Adjust(m, placeIdx, weight);
        i := i + 1;
      }
      assert t.outputPlaces[..i] == t.outputPlaces && t.outputWeights[..i] == t.outputWeights;
      places := m;
      return true;
    }

    /** One step (button or timer). Without a scene nothing happens; with an
        empty marking the net is loaded and saved and nothing else happens.
        On the limit the run stops with marking and count untouched. Otherwise
        the count goes up first; then either no transition is enabled and the
        run stops, or the transition at position draw mod n of the enabled
        list (n its length) fires. */
    method OnStepSimulation(scenePlaces: seq<Place>, sceneTransitions: seq<Transition>, draw: nat)
      requires Valid() && WellFormedNet(sceneTransitions, |scenePlaces|)
      modifies this
      ensures Valid()
      ensures hasScene == old(hasScene) && settings == old(settings) && isPaused == old(isPaused)
      ensures maxIterations == old(maxIterations) && timerInterval == old(timerInterval)
      ensures !hasScene ==>
                && places == old(places) && transitions == old(transitions) && initialPlaces == old(initialPlaces)
                && isRunning == old(isRunning) && stepCount == old(stepCount)
                && timerActive == old(timerActive) && buttons == old(buttons)
      ensures hasScene && old(places) == [] ==>
                && places == scenePlaces && transitions == sceneTransitions && initialPlaces == scenePlaces
                && isRunning == old(isRunning) && stepCount == old(stepCount)
                && timerActive == old(timerActive) && buttons == old(buttons)
      ensures hasScene && old(places) != [] ==>
                transitions == old(transitions) && initialPlaces == old(initialPlaces)
      ensures hasScene && old(places) != [] && LimitHit(maxIterations, old(stepCount)) ==>
                && places == old(places) && stepCount == old(stepCount)
                && !isRunning && !timerActive && buttons == ButtonStates(false, isPaused)
      ensures hasScene && old(places) != [] && !LimitHit(maxIterations, old(stepCount)) ==>
                && stepCount == old(stepCount) + 1
                && places == Next(transitions, old(places), draw, true)
      ensures hasScene && old(places) != [] && !LimitHit(maxIterations, old(stepCount))
              && Deadlocked(transitions, old(places), true) ==>
                !isRunning && !timerActive && buttons == ButtonStates(false, isPaused)
      ensures hasScene && old(places) != [] && !LimitHit(maxIterations, old(stepCount))
              && !Deadlocked(transitions, old(places), true) ==>
                isRunning == old(isRunning) && timerActive == old(timerActive) && buttons == old(buttons)
    {
      if !hasScene || |places| == 0 {
        if hasScene {
          places, transitions := scenePlaces, sceneTransitions;
          SaveInitialState();
        }
        return;
      }

      if maxIterations > 0 && stepCount >= maxIterations {
        timerActive := false;
        isRunning := false;
        UpdateButtonStates();
        return;
      }

      stepCount := stepCount + 1;

      var enabledTransitions := EnabledTransitions();
      if |enabledTransitions| == 0 {
        timerActive := false;
        isRunning := false;
        UpdateButtonStates();
        return;
      }

      var selectedIdx := enabledTransitions[draw % |enabledTransitions|];
      var fired := FireTransition(transitions[selectedIdx]);
    }
  }
}
