# Petri-net execution engine, modelled in Dafny

This project models the execution engine of a Petri-net editor. A net has
places holding integer token counts and transitions whose weighted input arcs
take tokens and whose weighted output arcs add them. The engine finds the
enabled transitions, picks one at random, fires it, and repeats. It stops on
deadlock, when no transition is enabled, or on an iteration limit.

The repository holds two independent copies of this engine, and both are
modelled:

- `SimulationEngine` (`simulations.dfy`) models the headless class
  `Simulations`. Its state is the marking, the marking saved by `setPlaces`,
  the transitions, the settings, the running flag, the iteration counter and
  whether its timer is armed. Each operation is a method of a Dafny class.
  `canFire` and `getEnabledTransitions` are scanning loops, and `fire` has two
  update loops. `start` runs the instant-mode loop. In timed mode,
  `OnTimerTick` is called once per tick.
- `SimulationWidget` (`simulation_panel.dfy`) models the widget
  `SimulationPanel`. It has its own run state (running, paused, step count,
  iteration limit), the same two markings, the timer (running or not, and its
  interval) and the enabled flags of its buttons.
- `PetriNet` (`petri_net.dfy`) holds what both copies share: the
  `SimPlace`/`SimTransition` records, the enabling predicate and the
  specification of firing. It also holds the lemmas about them: exact
  characterisation of the enabled list, token arithmetic, non-negativity, and
  how the two copies' enabled lists relate.

The marking is a `seq<Place>` field that the methods reassign. `QVector` has
value semantics, so `_places = _initialPlaces` is a copy. The fire loops update
a local copy arc by arc, exactly as the C++ does in place, and then store it
back.

The random choice becomes a caller-supplied `draw: nat`. The index used is
`draw % n`, where `n` is the length of the enabled list. For the panel
(`rand() % size`) this is exact. For `QRandomGenerator::bounded(n)` it means
every index can be reached (take `draw` equal to the index). The instant loop
draws `rng(k)` for its k-th step.

Points where the code's behaviour is easy to misread:

- A transition with no input arcs is never enabled in the panel
  (Widgets/simulationpanel.cpp:181). `Simulations::canFire` has no such guard,
  so such a transition is always enabled there (`PetriNet.SourceTransitions`).
- `Simulations` saves the marking to reset to in `setPlaces`, not in `start`.
  The panel saves it in `onStartClicked` only when it is not already running.
- The enabling test looks at each input arc separately. Two arcs from the same
  place can therefore both pass it and drive that place below zero
  (`PetriNet.DuplicateInputArcsOverdraw`). The editor's `addArc` does not
  prevent duplicate arcs. Non-negativity is proved only for transitions whose
  input places are distinct.
- In the engine's instant mode, the limit is checked after the step. So a
  limit of zero or less still allows one step. The timer tick checks the limit
  before the step.
- The panel increments its step count before it finds a deadlock. The engine
  increments its counter only after a transition fires.

## Model

| member | source | states |
|---|---|---|
| `PetriNet.EnabledAmong` | Simulation/simulations.cpp:136-145 | the list built by the scan holds only indices of transitions already scanned |
| `PetriNet.EnabledAmongExactly` | Simulation/simulations.cpp:136-145 | after scanning k transitions the list is strictly ascending, and x is in it iff x < k and transition x is fireable (both directions) |
| `PetriNet.EnabledSetExactly` | Widgets/simulationpanel.cpp:167-184 | the enabled list of the whole net is strictly ascending, and it contains exactly the fireable transitions |
| `PetriNet.PanelSetIsEngineSetWithoutSources` | Widgets/simulationpanel.cpp:181 | the panel's enabled list equals the engine's list with the transitions that have no input arcs removed, in the same order |
| `PetriNet.SourceTransitions` | Simulation/simulations.cpp:103-115 | a transition with no input arcs is always in the engine's enabled list and never in the panel's |
| `PetriNet.SameEnabledSetWithoutSources` | Widgets/simulationpanel.cpp:167-184 | when every transition has an input arc, the panel's and the engine's enabled lists are equal |
| `PetriNet.SameStepWithoutSources` | Widgets/simulationpanel.cpp:195-202 | when every transition has an input arc, the same draw makes a panel step and an engine step fire the same transition |
| `PetriNet.Adjust` | Simulation/simulations.cpp:125 | one arc's update moves one place's count by the given amount, keeps its id, and leaves every other place alone |
| `PetriNet.ApplyArcs` | Simulation/simulations.cpp:122-126 | applying a list of arcs one after the other keeps the number of places |
| `PetriNet.Fired` | Simulation/simulations.cpp:117-134 | firing keeps the number of places |
| `PetriNet.ApplyArcsAt` | Simulation/simulations.cpp:122-133 | after a list of arcs, each place's count has moved by the total weight of the arcs that name it (subtracted when consuming, added when producing), and its id is kept |
| `PetriNet.FiredAt` | Simulation/simulations.cpp:117-134 | after firing, each place holds its old count minus the weight of the input arcs naming it plus the weight of the output arcs naming it, under the same id |
| `PetriNet.FiredFrame` | Simulation/simulations.cpp:117-134 | a place that no arc of the transition names is unchanged by firing |
| `PetriNet.FiredInputPlace` | Simulation/simulations.cpp:122-126 | with distinct input places, each input place loses exactly its arc's weight, plus whatever the outputs add back |
| `PetriNet.AdjustTotal` | Simulation/simulations.cpp:125 | one arc's update changes the total token count by exactly that arc's amount |
| `PetriNet.ApplyArcsTotal` | Simulation/simulations.cpp:122-133 | consuming (producing) along a list of arcs lowers (raises) the total by the sum of their weights |
| `PetriNet.FiredTotal` | Simulation/simulations.cpp:117-134 | firing changes the total token count by the sum of the output weights minus the sum of the input weights |
| `PetriNet.FirePreservesNonNegative` | Simulation/simulations.cpp:103-134 | firing an enabled transition with distinct input places and positive weights keeps every count non-negative |
| `PetriNet.DuplicateInputArcsOverdraw` | Simulation/simulations.cpp:107-113 | two input arcs of weight 1 from a place holding one token pass the enabling test, and firing leaves that place at -1 |
| `PetriNet.Next` | Simulation/simulations.cpp:70-80 | one step keeps the number of places |
| `PetriNet.NextFiresOneFireable` | Simulation/simulations.cpp:68-82 | a step on a deadlocked marking changes nothing; otherwise it fires one transition that is fireable in that marking |
| `PetriNet.NextPreservesNonNegative` | Simulation/simulations.cpp:68-82 | a step of a net with distinct input places and positive weights keeps every count non-negative |
| `SimulationEngine.Run` | Simulation/simulations.cpp:35-41 | a run of n steps keeps the number of places |
| `SimulationEngine.RunNonNegative` | Simulation/simulations.cpp:35-41 | a run of any length over such a net keeps every count non-negative |
| `SimulationEngine.RunStaysDeadlocked` | Simulation/simulations.cpp:72-76 | once a run reaches a deadlocked marking, further steps leave it unchanged |
| `SimulationEngine.OneShotNetDeadlocksAfterOneStep` | Simulation/simulations.cpp:68-92 | for p0 (1 token), t0 (weight 1 in, weight 2 out to p1) and p1 (0 tokens), one step gives p0 = 0 and p1 = 2, and that marking is deadlocked |
| `SimulationEngine.Simulations.constructor` | Simulation/simulations.h:56-63 | a new engine is idle with counter 0, empty net, default settings (finite, 100 iterations, 100 ms) |
| `SimulationEngine.Simulations.SetPlaces` | Simulation/simulations.cpp:12-16 | the marking and the marking to reset to both become the given places; nothing else changes |
| `SimulationEngine.Simulations.SetTransitions` | Simulation/simulations.cpp:18-21 | only the transitions change |
| `SimulationEngine.Simulations.SetSettings` | Simulation/simulations.cpp:23-26 | only the settings change |
| `SimulationEngine.Simulations.CanFire` | Simulation/simulations.cpp:103-115 | the result is true iff every input arc's weight is at most its place's tokens; it is true for a transition with no input arcs |
| `SimulationEngine.Simulations.GetEnabledTransitions` | Simulation/simulations.cpp:136-145 | the result is strictly ascending and contains x iff transition x is enabled |
| `SimulationEngine.Simulations.Fire` | Simulation/simulations.cpp:117-134 | the marking becomes the fired marking of the transition (see FiredAt, FiredTotal), enabled or not; no other field changes |
| `SimulationEngine.Simulations.Stop` | Simulation/simulations.cpp:47-52 | the run ends and the timer is disarmed; the marking and counter stay |
| `SimulationEngine.Simulations.Reset` | Simulation/simulations.cpp:54-66 | the marking becomes the saved one, the counter 0, and the run and timer are off; the saved marking, transitions and settings stay |
| `SimulationEngine.Simulations.Step` | Simulation/simulations.cpp:68-92 | on deadlock, the marking and counter stay and the run stops; otherwise the marking is the firing of the transition the draw selects, and the counter goes up by exactly 1 |
| `SimulationEngine.Simulations.OnTimerTick` | Simulation/simulations.cpp:94-101 | once a finite run's counter reaches the limit, the tick stops the run without firing; otherwise it is one step: on deadlock the run stops and the timer is disarmed with counter and marking kept, else one enabled transition fires and the counter rises by exactly 1; a counter at or below max(limit, 0) stays there |
| `SimulationEngine.Simulations.Start` | Simulation/simulations.cpp:28-45 | timed mode arms the timer with counter 0; instant mode ends as `RunInstantly` states: stopped, counter equal to the number of transitions fired |
| `SimulationEngine.Simulations.RunInstantly` | Simulation/simulations.cpp:33-41 | the instant loop ends stopped; the marking equals the run of its counter's length from the old marking; every one of those steps fired (none met a deadlock); the counter is at most max(limit, 1), anything below that means deadlock, and a net deadlocked from the start counts zero steps |
| `SimulationEngine.LiveBeforeLastStep` | Simulation/simulations.cpp:72-76 | if the marking before a run's last step was not deadlocked, none of the markings before any earlier step was, because a deadlock would have persisted |
| `SimulationEngine.ResetTwice` | Simulation/simulations.cpp:54-59 | a second reset leaves exactly the state the first one left (reset is idempotent) |
| `SimulationEngine.ResetAfterSetPlaces` | Simulation/simulations.cpp:12-16 | after setPlaces, a reset restores exactly the places that were set |
| `SimulationWidget.ButtonStates` | Widgets/simulationpanel.cpp:246-251 | start is enabled iff idle or paused; pause is enabled exactly when start is not; step always matches start |
| `SimulationWidget.IterationLimit` | Widgets/simulationpanel.cpp:64 | an infinite run gets a negative limit; a positive limit is the iteration count; the limit stops a step iff the run is finite, its iteration count is positive, and the count has reached it |
| `SimulationWidget.TimerInterval` | Widgets/simulationpanel.cpp:67-71 | the interval is the step time when that is positive, otherwise 1 ms; it is always at least 1 |
| `SimulationWidget.SimulationPanel.constructor` | Widgets/simulationpanel.h:49-58 | a new panel has no scene, an empty net, no limit (-1), is idle with count 0, and only its pause button is disabled |
| `SimulationWidget.SimulationPanel.SetScene` | Widgets/simulationpanel.cpp:56-59 | records whether a scene is attached |
| `SimulationWidget.SimulationPanel.SetSettings` | Widgets/simulationpanel.cpp:61-76 | stores the settings and derives the limit and the timer interval from them |
| `SimulationWidget.SimulationPanel.UpdateButtonStates` | Widgets/simulationpanel.cpp:246-251 | the button flags become those of the current run state |
| `SimulationWidget.SimulationPanel.SaveInitialState` | Widgets/simulationpanel.cpp:253-256 | the saved marking becomes a copy of the current one |
| `SimulationWidget.SimulationPanel.RestoreInitialState` | Widgets/simulationpanel.cpp:258-260 | the current marking becomes the saved one |
| `SimulationWidget.SimulationPanel.OnStartClicked` | Widgets/simulationpanel.cpp:96-119 | without a scene nothing changes; when not running, loads the scene's net, saves its marking and zeroes the count; when running, keeps them; either way ends running, unpaused, timer on |
| `SimulationWidget.SimulationPanel.OnPauseClicked` | Widgets/simulationpanel.cpp:121-128 | sets paused and stops the timer; the run flag, count and marking stay |
| `SimulationWidget.SimulationPanel.OnResetClicked` | Widgets/simulationpanel.cpp:130-141 | ends idle, unpaused, with count 0, timer off, and the saved marking restored |
| `SimulationWidget.SimulationPanel.StartSimulation` | Widgets/simulationpanel.cpp:78-83 | reset then start: with a scene, the run starts fresh on the scene's net with count 0, only the pause button enabled; without one the panel ends idle on the saved marking with the idle buttons; the scene flag, settings, limit and timer interval are kept |
| `SimulationWidget.SimulationPanel.EnabledTransitions` | Widgets/simulationpanel.cpp:166-184 | the list is strictly ascending and contains x iff transition x has an input arc and every input arc's weight is at most its place's tokens |
| `SimulationWidget.SimulationPanel.FireTransition` | Widgets/simulationpanel.cpp:225-244 | the marking becomes the fired marking of the transition, and the result is always true |
| `SimulationWidget.SimulationPanel.OnStepSimulation` | Widgets/simulationpanel.cpp:143-223 | without a scene nothing changes; an empty marking is loaded from the scene and saved; at the limit the run stops with marking and count untouched; otherwise the count goes up by 1 first, then a deadlock stops the run with the marking untouched, or the selected enabled transition fires |

## Left out

- Qt signals (`markingChanged`, `stepCompleted`, `simulationFinished`,
  `simulationStarted`, …) are not modelled. The double `simulationFinished` of
  an instant run that ends on a deadlock at the limit is therefore not visible
  either.
- Timers are reduced to a flag (and, for the panel, an interval). Timed mode is
  modelled as calls of `OnTimerTick` / `OnStepSimulation`, not as wall-clock
  scheduling.
- Random sources are replaced by a caller-supplied draw. Uniformity is a
  statistical property and is not modelled.
- Logging (`addLog`, `clearLogs`, `qDebug`, timestamps) and the formatting of
  the marking into text are not modelled.
- The panel's synchronisation of token counts back into the scene's graphics
  items is not modelled. `PetriNetScene` declares no `extractNetData`.
  Its result is a parameter that the caller guarantees to be well formed.
- The editor, the rendering of places, transitions and arcs, and the main
  windows are not part of this model.
- Token counts and counters are unbounded integers. 32-bit overflow of `int`
  is not modelled.
- SimulationEngine.Simulations.Start: the instant loop of an infinite run
  (step time 0 with `infinite` set) need not terminate. The `requires` clause
  therefore excludes it.
- SimulationEngine.Simulations.CanFire: requires well-formed arc vectors and
  in-range indices. The C++ indexes without checks, so a malformed net is
  undefined behaviour there, not a handled case. The same holds for Fire, Step,
  OnTimerTick, Start and the panel's handlers.
