/** The headless execution engine (class Simulations): a marking, the marking
    captured when the places were set, the transitions, the run settings, the
    running flag and the iteration counter. Timed mode is the timer's tick
    handler called once per tick; the timer itself is reduced to whether it is
    armed. */
module SimulationEngine {
  import opened PetriNet

  /** Whether a bounded run has used up its iterations. */
  predicate LimitReached(s: Settings, iteration: int) {
    !s.infinite && iteration >= s.iterations
  }

  /** The marking after n steps from m, step k drawing rng(k). */
  function Run(ts: seq<Transition>, m: seq<Place>, rng: nat -> nat, n: nat): (r: seq<Place>)
    requires WellFormedNet(ts, |m|)
    ensures |r| == |m|
  {
    if n == 0 then m else Next(ts, Run(ts, m, rng, n - 1), rng(n - 1), false)
  }

  /** A run over a net whose transitions have distinct input places and
      positive weights never drives a token count below zero. */
  lemma {:induction false} RunNonNegative(ts: seq<Transition>, m: seq<Place>, rng: nat -> nat, n: nat)
    requires WellFormedNet(ts, |m|) && NonNegative(m)
    requires forall k :: 0 <= k < |ts| ==> PositiveWeights(ts[k]) && Distinct(ts[k].inputPlaces)
    ensures NonNegative(Run(ts, m, rng, n))
  {
    if n > 0 {
      RunNonNegative(ts, m, rng, n - 1);
      NextPreservesNonNegative(ts, Run(ts, m, rng, n - 1), rng(n - 1), false);
    }
  }

  /** Once a run deadlocks, further steps change nothing. */
  lemma {:induction false} RunStaysDeadlocked(ts: seq<Transition>, m: seq<Place>, rng: nat -> nat, n: nat, j: nat)
    requires WellFormedNet(ts, |m|) && Deadlocked(ts, Run(ts, m, rng, n), false)
    ensures Run(ts, m, rng, n + j) == Run(ts, m, rng, n)
  {
    if j > 0 {
      RunStaysDeadlocked(ts, m, rng, n, j - 1);
      assert Run(ts, m, rng, n + j) == Next(ts, Run(ts, m, rng, n + j - 1), rng(n + j - 1), false);
    }
  }

  /** One more step of the instant loop: a deadlocked step keeps marking and
      counter, any other extends the run by one step. */
  lemma StepExtendsRun(ts: seq<Transition>, m: seq<Place>, rng: nat -> nat, n: nat, c: int, p: seq<Place>)
    requires WellFormedNet(ts, |m|)
    requires n > 0 ==> !Deadlocked(ts, Run(ts, m, rng, n - 1), false)
    requires Deadlocked(ts, Run(ts, m, rng, n), false) ==> p == Run(ts, m, rng, n) && c == n
    requires !Deadlocked(ts, Run(ts, m, rng, n), false) ==> p == Next(ts, Run(ts, m, rng, n), rng(n), false) && c == n + 1
    ensures c >= 0 && p == Run(ts, m, rng, c)
    ensures c > 0 ==> !Deadlocked(ts, Run(ts, m, rng, c - 1), false)
  {
    assert Run(ts, m, rng, n + 1) == Next(ts, Run(ts, m, rng, n), rng(n), false);
  }

  /** A run whose last step found an enabled transition found one at every
      earlier step too, since a deadlock would have persisted. */
  lemma {:induction false} LiveBeforeLastStep(ts: seq<Transition>, m: seq<Place>, rng: nat -> nat, n: nat)
    requires WellFormedNet(ts, |m|)
    requires n > 0 ==> !Deadlocked(ts, Run(ts, m, rng, n - 1), false)
    ensures forall k :: 0 <= k < n ==> !Deadlocked(ts, Run(ts, m, rng, k), false)
  {
    forall k | 0 <= k < n
      ensures !Deadlocked(ts, Run(ts, m, rng, k), false)
    {
      if Deadlocked(ts, Run(ts, m, rng, k), false) {
        RunStaysDeadlocked(ts, m, rng, k, n - 1 - k);
        assert false;
      }
    }
  }

  /** p0 (one token) feeds t0 with weight 1, t0 puts two tokens on p1: one step
      moves the token over and leaves a deadlock. */
  lemma OneShotNetDeadlocksAfterOneStep(rng: nat -> nat)
    ensures var ts := [Transition("t0", [0], [1], [1], [2])];
            var m := [Place("p0", 1), Place("p1", 0)];
            WellFormedNet(ts, |m|)
            && Run(ts, m, rng, 1) == [Place("p0", 0), Place("p1", 2)]
            && Deadlocked(ts, Run(ts, m, rng, 1), false)
  {
    var ts := [Transition("t0", [0], [1], [1], [2])];
    var m := [Place("p0", 1), Place("p1", 0)];
    assert EnabledSet(ts, m, false) == [0];
    var m1 := Fired(m, ts[0]);
    FiredAt(m, ts[0], 0);
    FiredAt(m, ts[0], 1);
    assert m1 == [Place("p0", 0), Place("p1", 2)];
    assert !Enabled(ts[0], m1);
    assert EnabledSet(ts, m1, false) == [];
  }

  class Simulations {
    var places: seq<Place>
    var initialPlaces: seq<Place>
    var transitions: seq<Transition>
    var settings: Settings
    var running: bool
    var currentIteration: int
    /** Whether the step timer is running. */
    var timerArmed: bool

    /** Every arc names a place, and the saved marking has as many places. */
    ghost predicate Valid()
      reads this
    {
      WellFormedNet(transitions, |places|) && |initialPlaces| == |places|
    }

    constructor ()
      ensures places == [] && initialPlaces == [] && transitions == []
      ensures settings == DefaultSettings
      ensures !running && currentIteration == 0 && !timerArmed
      ensures Valid()
    {
      places, initialPlaces, transitions := [], [], [];
      settings := DefaultSettings;
      running, currentIteration, timerArmed := false, 0, false;
    }

    /** Loads a marking and keeps it as the one to reset to. */
    method SetPlaces(ps: seq<Place>)
      modifies this
      ensures places == ps && initialPlaces == ps
      ensures transitions == old(transitions) && settings == old(settings)
      ensures running == old(running) && currentIteration == old(currentIteration)
      ensures timerArmed == old(timerArmed)
    {
      places := ps;
      initialPlaces := ps;
    }

    method SetTransitions(ts: seq<Transition>)
      modifies this
      ensures transitions == ts
      ensures places == old(places) && initialPlaces == old(initialPlaces) && settings == old(settings)
      ensures running == old(running) && currentIteration == old(currentIteration)
      ensures timerArmed == old(timerArmed)
    {
      transitions := ts;
    }

    method SetSettings(s: Settings)
      modifies this
      ensures settings == s
      ensures places == old(places) && initialPlaces == old(initialPlaces) && transitions == old(transitions)
      ensures running == old(running) && currentIteration == old(currentIteration)
      ensures timerArmed == old(timerArmed)
    {
      settings := s;
    }

    /** Transition t is enabled iff every input arc finds its weight in tokens;
        a transition without input arcs is always enabled. */
    method CanFire(t: nat) returns (b: bool)
      requires Valid() && t < |transitions|
      ensures b <==> forall i :: 0 <= i < |transitions[t].inputPlaces| ==>
                       places[transitions[t].inputPlaces[i]].tokens >= transitions[t].inputWeights[i]
      ensures b == Enabled(transitions[t], places)
    {
      var tr := transitions[t];
      var i := 0;
      while i < |tr.inputPlaces|
        invariant 0 <= i <= |tr.inputPlaces|
        invariant forall j :: 0 <= j < i ==> places[tr.inputPlaces[j]].tokens >= tr.inputWeights[j]
      {
        var placeIdx := tr.inputPlaces[i];
        var weight := tr.inputWeights[i];
        if places[placeIdx].tokens < weight {
          return false;
        }
        i := i + 1;
      }
      return true;
    }

    /** The indices of the enabled transitions, ascending, without repetition. */
    method GetEnabledTransitions() returns (enabled: seq<int>)
      requires Valid()
      ensures StrictlyIncreasing(enabled)
      ensures forall x :: x in enabled <==> 0 <= x < |transitions| && Enabled(transitions[x], places)
      ensures enabled == EnabledSet(transitions, places, false)
    {
      enabled := [];
      var i := 0;
      while i < |transitions|
        invariant 0 <= i <= |transitions|
        invariant enabled == EnabledAmong(transitions, places, i, false)
      {
        var ok := CanFire(i);
        if ok {
          enabled := enabled + [i];
        }
        i := i + 1;
      }
      EnabledSetExactly(transitions, places, false);
    }

    /** Consumes the input tokens of transition t, then produces its output
        tokens; the engine does not check that t is enabled. */
    method Fire(t: nat)
      requires Valid() && t < |transitions|
      modifies this
      ensures initialPlaces == old(initialPlaces) && transitions == old(transitions) && settings == old(settings)
      ensures running == old(running) && currentIteration == old(currentIteration)
      ensures timerArmed == old(timerArmed)
      ensures places == Fired(old(places), transitions[t])
      ensures Valid()
    {
      var tr := transitions[t];
      // The marking is a value; it is updated arc by arc and stored back.
      var m := places;
      var i := 0;
      while i < |tr.inputPlaces|
        invariant 0 <= i <= |tr.inputPlaces|
        invariant m == ApplyArcs(places, tr.inputPlaces[..i], tr.inputWeights[..i], false)
      {
        var placeIdx := tr.inputPlaces[i];
        var weight := tr.inputWeights[i];
        assert tr.inputPlaces[..i + 1][..i] == tr.inputPlaces[..i];
        assert tr.inputWeights[..i + 1][..i] == tr.inputWeights[..i];
        m := Adjust(m, placeIdx, -weight);
        i := i + 1;
      }
      assert tr.inputPlaces[..i] == tr.inputPlaces && tr.inputWeights[..i] == tr.inputWeights;
      ghost var consumed := m;
      i := 0;
      while i < |tr.outputPlaces|
        invariant 0 <= i <= |tr.outputPlaces|
        invariant m == ApplyArcs(consumed, tr.outputPlaces[..i], tr.outputWeights[..i], true)
      {
        var placeIdx := tr.outputPlaces[i];
        var weight := tr.outputWeights[i];
        assert tr.outputPlaces[..i + 1][..i] == tr.outputPlaces[..i];
        assert tr.outputWeights[..i + 1][..i] == tr.outputWeights[..i];
        m := Adjust(m, placeIdx, weight);
        i := i + 1;
      }
      assert tr.outputPlaces[..i] == tr.outputPlaces && tr.outputWeights[..i] == tr.outputWeights;
      places := m;
    }

    /** Ends the run and disarms the timer. */
    method Stop()
      modifies this
      ensures !running && !timerArmed
      ensures places == old(places) && initialPlaces == old(initialPlaces)
      ensures transitions == old(transitions) && settings == old(settings)
      ensures currentIteration == old(currentIteration)
    {
      running := false;
      timerArmed := false;
    }

    /** Restores the saved marking, zeroes the counter and ends the run. */
    method Reset()
      modifies this
      ensures places == initialPlaces && initialPlaces == old(initialPlaces)
      ensures currentIteration == 0 && !running && !timerArmed
      ensures transitions == old(transitions) && settings == old(settings)
      ensures old(Valid()) ==> Valid()
    {
      places := initialPlaces;
      currentIteration := 0;
      running := false;
      timerArmed := false;
    }

    /** One step: on deadlock the run stops and nothing else changes; otherwise
        the transition at position draw mod n of the enabled list (n its length)
        fires and the counter goes up by one. */
    method Step(draw: nat)
      requires Valid()
      modifies this
      ensures initialPlaces == old(initialPlaces) && transitions == old(transitions) && settings == old(settings)
      ensures Valid()
      ensures Deadlocked(transitions, old(places), false) ==>
                places == old(places) && currentIteration == old(currentIteration) && !running && !timerArmed
      ensures !Deadlocked(transitions, old(places), false) ==>
                && currentIteration == old(currentIteration) + 1
                && running == old(running) && timerArmed == old(timerArmed)
      ensures places == Next(transitions, old(places), draw, false)
    {
      var enabled := GetEnabledTransitions();
      if enabled == [] {
        Stop();
        return;
      }
      var index := draw % |enabled|;
      Fire(enabled[index]);
      currentIteration := currentIteration + 1;
    }

    /** Timed mode, one tick: a bounded run whose counter has reached the limit
        stops without firing; otherwise one step. */
    method OnTimerTick(draw: nat)
      requires Valid()
      modifies this
      ensures initialPlaces == old(initialPlaces) && transitions == old(transitions) && settings == old(settings)
      ensures Valid()
      ensures LimitReached(settings, old(currentIteration)) ==>
                places == old(places) && currentIteration == old(currentIteration) && !running && !timerArmed
      ensures !LimitReached(settings, old(currentIteration)) ==>
                places == Next(transitions, old(places), draw, false)
      ensures !LimitReached(settings, old(currentIteration)) && Deadlocked(transitions, old(places), false) ==>
                places == old(places) && currentIteration == old(currentIteration) && !running && !timerArmed
      ensures !LimitReached(settings, old(currentIteration)) && !Deadlocked(transitions, old(places), false) ==>
                && currentIteration == old(currentIteration) + 1
                && running == old(running) && timerArmed == old(timerArmed)
      ensures !settings.infinite && old(currentIteration) <= Max(settings.iterations, 0) ==>
                currentIteration <= Max(settings.iterations, 0)
    {
      if LimitReached(settings, currentIteration) {
        Stop();
        return;
      }
      Step(draw);
    }

    /** Starts a run from counter zero. With a zero step time the whole run
        happens here (RunInstantly); otherwise the timer is armed and
        OnTimerTick drives the run. */
    method Start(rng: nat -> nat)
      requires Valid()
      requires settings.stepTimeMs == 0 ==> !settings.infinite
      modifies this
      ensures initialPlaces == old(initialPlaces) && transitions == old(transitions) && settings == old(settings)
      ensures Valid()
      ensures settings.stepTimeMs != 0 ==>
                running && timerArmed && currentIteration == 0 && places == old(places)
      ensures settings.stepTimeMs == 0 ==>
                && !running && !timerArmed
                && 0 <= currentIteration <= Max(settings.iterations, 1)
                && places == Run(transitions, old(places), rng, currentIteration)
                && (currentIteration < Max(settings.iterations, 1) ==> Deadlocked(transitions, places, false))
                && (forall k :: 0 <= k < currentIteration ==> !Deadlocked(transitions, Run(transitions, old(places), rng, k), false))
                && (Deadlocked(transitions, old(places), false) ==> currentIteration == 0)
    {
      running := true;
      currentIteration := 0;
      if settings.stepTimeMs == 0 {
        RunInstantly(rng);
      } else {
        timerArmed := true;
      }
    }

    /** The instant-mode loop of Start: steps until deadlock or, checked after
        each step, until the limit; so a limit of zero or less still allows
        one step. The counter ends at the number of transitions fired. */
    method RunInstantly(rng: nat -> nat)
      requires Valid() && !settings.infinite
      requires running && currentIteration == 0
      modifies this
      ensures initialPlaces == old(initialPlaces) && transitions == old(transitions) && settings == old(settings)
      ensures Valid()
      ensures !running && !timerArmed
      ensures 0 <= currentIteration <= Max(settings.iterations, 1)
      ensures places == Run(transitions, old(places), rng, currentIteration)
      ensures currentIteration < Max(settings.iterations, 1) ==> Deadlocked(transitions, places, false)
      ensures forall k :: 0 <= k < currentIteration ==> !Deadlocked(transitions, Run(transitions, old(places), rng, k), false)
      ensures Deadlocked(transitions, old(places), false) ==> currentIteration == 0
    {
      ghost var m0, ts := places, transitions;
      ghost var limit := Max(settings.iterations, 1);
      while running
        invariant Valid()
        invariant initialPlaces == old(initialPlaces) && transitions == ts && settings == old(settings)
        invariant 0 <= currentIteration < limit
        invariant places == Run(ts, m0, rng, currentIteration)
        invariant !running ==> Deadlocked(ts, places, false) && !timerArmed
        invariant currentIteration > 0 ==> !Deadlocked(ts, Run(ts, m0, rng, currentIteration - 1), false)
        decreases (if running then 1 else 0) + limit - currentIteration
      {
        ghost var before: nat := currentIteration;
        Step(rng(currentIteration));
        StepExtendsRun(ts, m0, rng, before, currentIteration, places);
        if LimitReached(settings, currentIteration) {
          Stop();
          break;
        }
      }
      LiveBeforeLastStep(ts, m0, rng, currentIteration);
    }
  }

  /** A state of the engine, for comparing two moments of one object. */
  datatype Snapshot = Snapshot(
    places: seq<Place>, initialPlaces: seq<Place>, transitions: seq<Transition>,
    settings: Settings, running: bool, currentIteration: int, timerArmed: bool)

  function SnapshotOf(s: Simulations): Snapshot
    reads s
  {
    Snapshot(s.places, s.initialPlaces, s.transitions, s.settings, s.running, s.currentIteration, s.timerArmed)
  }

  /** Reset is idempotent: a second reset leaves the engine exactly as the
      first did. */
  method ResetTwice(s: Simulations)
    modifies s
    ensures SnapshotOf(s) == Snapshot(old(s.initialPlaces), old(s.initialPlaces), old(s.transitions),
                                      old(s.settings), false, 0, false)
  {
    s.Reset();
    var once := SnapshotOf(s);
    s.Reset();
    assert SnapshotOf(s) == once;
  }

  /** Loading places makes the current marking the one Reset restores. */
  method ResetAfterSetPlaces(s: Simulations, ps: seq<Place>)
    modifies s
    ensures s.places == ps && s.currentIteration == 0 && !s.running
  {
    s.SetPlaces(ps);
    assert s.places == s.initialPlaces;
    s.Reset();
  }
}
