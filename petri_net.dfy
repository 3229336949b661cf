/** The net the engine runs on: places with token counts, transitions with
    weighted input and output arcs, and the enabling and firing rules shared by
    the headless engine (SimulationEngine) and the simulation panel
    (SimulationWidget). */
module PetriNet {

  /** A place and its current token count (SimPlace). */
  datatype Place = Place(id: string, tokens: int)

  /** A transition (SimTransition): arc i of the inputs takes inputWeights[i]
      tokens from place inputPlaces[i]; likewise for the outputs. */
  datatype Transition = Transition(
    id: string,
    inputPlaces: seq<int>,
    outputPlaces: seq<int>,
    inputWeights: seq<int>,
    outputWeights: seq<int>)

  /** Run configuration (SimulationSettings). */
  datatype Settings = Settings(infinite: bool, iterations: int, stepTimeMs: int)

  /** The values of SimulationSettings' member initialisers. */
  const DefaultSettings := Settings(false, 100, 100)

  function Max(a: int, b: int): int { if a < b then b else a }

  /** Every entry of idx is the index of one of n places. */
  predicate InRange(idx: seq<int>, n: int) {
    forall i :: 0 <= i < |idx| ==> 0 <= idx[i] < n
  }

  /** The shape the engine relies on and never checks: parallel vectors of
      equal length whose indices name places of a marking with n places. */
  predicate WellFormed(t: Transition, n: nat) {
    && |t.inputWeights| == |t.inputPlaces|
    && |t.outputWeights| == |t.outputPlaces|
    && InRange(t.inputPlaces, n)
    && InRange(t.outputPlaces, n)
  }

  predicate WellFormedNet(ts: seq<Transition>, n: nat) {
    forall k :: 0 <= k < |ts| ==> WellFormed(ts[k], n)
  }

  /** Arc weights are positive, as the editor creates them. */
  predicate PositiveWeights(t: Transition) {
    && (forall i :: 0 <= i < |t.inputWeights| ==> t.inputWeights[i] > 0)
    && (forall i :: 0 <= i < |t.outputWeights| ==> t.outputWeights[i] > 0)
  }

  predicate Distinct(idx: seq<int>) {
    forall i, j :: 0 <= i < j < |idx| ==> idx[i] != idx[j]
  }

  predicate NonNegative(m: seq<Place>) {
    forall q :: 0 <= q < |m| ==> m[q].tokens >= 0
  }

  predicate StrictlyIncreasing(s: seq<int>) {
    forall i, j :: 0 <= i < j < |s| ==> s[i] < s[j]
  }

  // ---------------------------------------------------------------------------
  // Enabling

  /** Every input arc, taken on its own, finds at least its weight in tokens.
      A transition without input arcs satisfies this vacuously. */
  predicate Enabled(t: Transition, m: seq<Place>)
    requires WellFormed(t, |m|)
  {
    forall i :: 0 <= i < |t.inputPlaces| ==> m[t.inputPlaces[i]].tokens >= t.inputWeights[i]
  }

  /** Enabled, and, when refuseSources holds (the panel's extra guard), also
      fed by at least one input arc. */
  predicate Fireable(t: Transition, m: seq<Place>, refuseSources: bool)
    requires WellFormed(t, |m|)
  {
    Enabled(t, m) && (!refuseSources || |t.inputPlaces| > 0)
  }

  /** The indices below k of fireable transitions, in the order a scan from
      index 0 upwards appends them. */
  function EnabledAmong(ts: seq<Transition>, m: seq<Place>, k: nat, refuseSources: bool): (r: seq<int>)
    requires k <= |ts| && WellFormedNet(ts, |m|)
    ensures forall i :: 0 <= i < |r| ==> 0 <= r[i] < k
  {
    if k == 0 then []
    else
      EnabledAmong(ts, m, k - 1, refuseSources)
        + (if Fireable(ts[k - 1], m, refuseSources) then [k - 1] else [])
  }

  /** The enabled list of a whole net. */
  function EnabledSet(ts: seq<Transition>, m: seq<Place>, refuseSources: bool): (r: seq<int>)
    requires WellFormedNet(ts, |m|)
    ensures forall i :: 0 <= i < |r| ==> 0 <= r[i] < |ts|
  {
    EnabledAmong(ts, m, |ts|, refuseSources)
  }

  predicate Deadlocked(ts: seq<Transition>, m: seq<Place>, refuseSources: bool)
    requires WellFormedNet(ts, |m|)
  {
    EnabledSet(ts, m, refuseSources) == []
  }

  /** The scan yields exactly the fireable indices below k, ascending and
      without repetition. */
  lemma {:induction false} EnabledAmongExactly(ts: seq<Transition>, m: seq<Place>, k: nat, refuseSources: bool)
    requires k <= |ts| && WellFormedNet(ts, |m|)
    ensures StrictlyIncreasing(EnabledAmong(ts, m, k, refuseSources))
    ensures forall x :: x in EnabledAmong(ts, m, k, refuseSources) <==>
                          0 <= x < k && Fireable(ts[x], m, refuseSources)
  {
    if k > 0 {
      EnabledAmongExactly(ts, m, k - 1, refuseSources);
    }
  }

  /** The enabled list of the whole net: exactly the fireable transitions,
      ascending, without repetition. */
  lemma EnabledSetExactly(ts: seq<Transition>, m: seq<Place>, refuseSources: bool)
    requires WellFormedNet(ts, |m|)
    ensures StrictlyIncreasing(EnabledSet(ts, m, refuseSources))
    ensures forall x :: x in EnabledSet(ts, m, refuseSources) <==>
                          0 <= x < |ts| && Fireable(ts[x], m, refuseSources)
  {
    EnabledAmongExactly(ts, m, |ts|, refuseSources);
  }

  /** The members of an enabled list whose transition has input arcs, in order. */
  function DropSources(ts: seq<Transition>, s: seq<int>): (r: seq<int>)
    requires InRange(s, |ts|)
    ensures |r| <= |s|
  {
    if s == [] then []
    else
      var n := |s| - 1;
      DropSources(ts, s[..n]) + (if |ts[s[n]].inputPlaces| > 0 then [s[n]] else [])
  }

  /** The panel's enabled list is the engine's with the source transitions
      (no input arcs) removed. */
  lemma {:induction false} PanelSetIsEngineSetWithoutSources(ts: seq<Transition>, m: seq<Place>, k: nat)
    requires k <= |ts| && WellFormedNet(ts, |m|)
    ensures EnabledAmong(ts, m, k, true) == DropSources(ts, EnabledAmong(ts, m, k, false))
  {
    if k > 0 {
      PanelSetIsEngineSetWithoutSources(ts, m, k - 1);
      var prev := EnabledAmong(ts, m, k - 1, false);
      var tail: seq<int> := if |ts[k - 1].inputPlaces| > 0 then [k - 1] else [];
      if Fireable(ts[k - 1], m, false) {
        var s := prev + [k - 1];
        assert s[..|prev|] == prev;
        assert DropSources(ts, s) == DropSources(ts, prev) + tail;
        assert EnabledAmong(ts, m, k, true) == EnabledAmong(ts, m, k - 1, true) + tail;
      } else {
        assert EnabledAmong(ts, m, k, false) == prev;
        assert EnabledAmong(ts, m, k, true) == EnabledAmong(ts, m, k - 1, true);
      }
    }
  }

  /** The engine always lists a source transition; the panel never does. */
  lemma SourceTransitions(ts: seq<Transition>, m: seq<Place>, x: int)
    requires WellFormedNet(ts, |m|) && 0 <= x < |ts| && |ts[x].inputPlaces| == 0
    ensures x in EnabledSet(ts, m, false)
    ensures x !in EnabledSet(ts, m, true)
  {
    EnabledSetExactly(ts, m, false);
    EnabledSetExactly(ts, m, true);
  }

  /** Without source transitions the two engines see the same enabled list,
      so the same draw selects the same transition. */
  lemma SameEnabledSetWithoutSources(ts: seq<Transition>, m: seq<Place>)
    requires WellFormedNet(ts, |m|)
    requires forall k :: 0 <= k < |ts| ==> |ts[k].inputPlaces| > 0
    ensures EnabledSet(ts, m, true) == EnabledSet(ts, m, false)
  {
    PanelSetIsEngineSetWithoutSources(ts, m, |ts|);
    DropSourcesKeepsAll(ts, EnabledSet(ts, m, false));
  }

  lemma {:induction false} DropSourcesKeepsAll(ts: seq<Transition>, s: seq<int>)
    requires InRange(s, |ts|)
    requires forall i :: 0 <= i < |s| ==> |ts[s[i]].inputPlaces| > 0
    ensures DropSources(ts, s) == s
  {
    if s != [] {
      var n := |s| - 1;
      DropSourcesKeepsAll(ts, s[..n]);
      assert s[..n] + [s[n]] == s;
    }
  }

  // ---------------------------------------------------------------------------
  // Firing

  /** m with delta added to the tokens of place p. */
  function Adjust(m: seq<Place>, p: int, delta: int): (r: seq<Place>)
    requires 0 <= p < |m|
    ensures |r| == |m| && r[p].tokens == m[p].tokens + delta && r[p].id == m[p].id
    ensures forall q :: 0 <= q < |m| && q != p ==> r[q] == m[q]
  {
    m[p := m[p].(tokens := m[p].tokens + delta)]
  }

  /** The arcs (idx[i], w[i]) applied one after the other, each adding its
      weight (produce) or taking it away (consume). */
  function ApplyArcs(m: seq<Place>, idx: seq<int>, w: seq<int>, produce: bool): (r: seq<Place>)
    requires |w| == |idx| && InRange(idx, |m|)
    ensures |r| == |m|
  {
    if idx == [] then m
    else
      var n := |idx| - 1;
      Adjust(ApplyArcs(m, idx[..n], w[..n], produce), idx[n], if produce then w[n] else -w[n])
  }

  /** The marking after firing t: inputs consumed, then outputs produced. */
  function Fired(m: seq<Place>, t: Transition): (r: seq<Place>)
    requires WellFormed(t, |m|)
    ensures |r| == |m|
  {
    ApplyArcs(ApplyArcs(m, t.inputPlaces, t.inputWeights, false), t.outputPlaces, t.outputWeights, true)
  }

  /** The total weight of the arcs among (idx, w) that touch place p. */
  function Flow(idx: seq<int>, w: seq<int>, p: int): int
    requires |w| == |idx|
  {
    if idx == [] then 0
    else
      var n := |idx| - 1;
      Flow(idx[..n], w[..n], p) + (if idx[n] == p then w[n] else 0)
  }

  function Sum(w: seq<int>): int {
    if w == [] then 0 else Sum(w[..|w| - 1]) + w[|w| - 1]
  }

  /** The number of tokens in the whole net. */
  function Total(m: seq<Place>): int {
    if m == [] then 0 else Total(m[..|m| - 1]) + m[|m| - 1].tokens
  }

  lemma {:induction false} ApplyArcsAt(m: seq<Place>, idx: seq<int>, w: seq<int>, produce: bool, q: int)
    requires |w| == |idx| && InRange(idx, |m|) && 0 <= q < |m|
    ensures ApplyArcs(m, idx, w, produce)[q].id == m[q].id
    ensures ApplyArcs(m, idx, w, produce)[q].tokens
              == m[q].tokens + (if produce then Flow(idx, w, q) else -Flow(idx, w, q))
  {
    if idx != [] {
      var n := |idx| - 1;
      ApplyArcsAt(m, idx[..n], w[..n], produce, q);
    }
  }

  /** Firing t moves every place by its output flow minus its input flow and
      renames nothing. */
  lemma FiredAt(m: seq<Place>, t: Transition, q: int)
    requires WellFormed(t, |m|) && 0 <= q < |m|
    ensures Fired(m, t)[q].id == m[q].id
    ensures Fired(m, t)[q].tokens
              == m[q].tokens - Flow(t.inputPlaces, t.inputWeights, q) + Flow(t.outputPlaces, t.outputWeights, q)
  {
    var consumed := ApplyArcs(m, t.inputPlaces, t.inputWeights, false);
    ApplyArcsAt(m, t.inputPlaces, t.inputWeights, false, q);
    ApplyArcsAt(consumed, t.outputPlaces, t.outputWeights, true, q);
  }

  lemma {:induction false} FlowOutside(idx: seq<int>, w: seq<int>, q: int)
    requires |w| == |idx| && q !in idx
    ensures Flow(idx, w, q) == 0
  {
    if idx != [] {
      var n := |idx| - 1;
      assert idx[..n] + [idx[n]] == idx;
      FlowOutside(idx[..n], w[..n], q);
    }
  }

  /** With distinct places, the flow into the place of arc j is that arc's weight. */
  lemma {:induction false} FlowAtDistinct(idx: seq<int>, w: seq<int>, j: int)
    requires |w| == |idx| && Distinct(idx) && 0 <= j < |idx|
    ensures Flow(idx, w, idx[j]) == w[j]
  {
    var n := |idx| - 1;
    if j == n {
      assert idx[n] !in idx[..n];
      FlowOutside(idx[..n], w[..n], idx[n]);
    } else {
      FlowAtDistinct(idx[..n], w[..n], j);
    }
  }

  lemma {:induction false} FlowNonNegative(idx: seq<int>, w: seq<int>, q: int)
    requires |w| == |idx| && forall i :: 0 <= i < |w| ==> w[i] > 0
    ensures Flow(idx, w, q) >= 0
  {
    if idx != [] {
      var n := |idx| - 1;
      FlowNonNegative(idx[..n], w[..n], q);
    }
  }

  /** Places that no arc of t touches keep their tokens. */
  lemma FiredFrame(m: seq<Place>, t: Transition, q: int)
    requires WellFormed(t, |m|) && 0 <= q < |m|
    requires q !in t.inputPlaces && q !in t.outputPlaces
    ensures Fired(m, t)[q] == m[q]
  {
    FiredAt(m, t, q);
    FlowOutside(t.inputPlaces, t.inputWeights, q);
    FlowOutside(t.outputPlaces, t.outputWeights, q);
  }

  /** With distinct input places, each input place loses exactly its arc's weight
      (before production). */
  lemma FiredInputPlace(m: seq<Place>, t: Transition, j: int)
    requires WellFormed(t, |m|) && Distinct(t.inputPlaces) && 0 <= j < |t.inputPlaces|
    ensures Fired(m, t)[t.inputPlaces[j]].tokens
              == m[t.inputPlaces[j]].tokens - t.inputWeights[j]
                 + Flow(t.outputPlaces, t.outputWeights, t.inputPlaces[j])
  {
    FiredAt(m, t, t.inputPlaces[j]);
    FlowAtDistinct(t.inputPlaces, t.inputWeights, j);
  }

  lemma {:induction false} AdjustTotal(m: seq<Place>, p: int, delta: int)
    requires 0 <= p < |m|
    ensures Total(Adjust(m, p, delta)) == Total(m) + delta
  {
    var n := |m| - 1;
    var a := Adjust(m, p, delta);
    if p == n {
      assert a[..n] == m[..n];
    } else {
      assert a[..n] == Adjust(m[..n], p, delta);
      AdjustTotal(m[..n], p, delta);
    }
  }

  lemma {:induction false} ApplyArcsTotal(m: seq<Place>, idx: seq<int>, w: seq<int>, produce: bool)
    requires |w| == |idx| && InRange(idx, |m|)
    ensures Total(ApplyArcs(m, idx, w, produce)) == Total(m) + (if produce then Sum(w) else -Sum(w))
  {
    if idx != [] {
      var n := |idx| - 1;
      ApplyArcsTotal(m, idx[..n], w[..n], produce);
      AdjustTotal(ApplyArcs(m, idx[..n], w[..n], produce), idx[n], if produce then w[n] else -w[n]);
    }
  }

  /** Firing changes the number of tokens in the net by the output weights
      minus the input weights. */
  lemma FiredTotal(m: seq<Place>, t: Transition)
    requires WellFormed(t, |m|)
    ensures Total(Fired(m, t)) == Total(m) - Sum(t.inputWeights) + Sum(t.outputWeights)
  {
    ApplyArcsTotal(m, t.inputPlaces, t.inputWeights, false);
    ApplyArcsTotal(ApplyArcs(m, t.inputPlaces, t.inputWeights, false), t.outputPlaces, t.outputWeights, true);
  }

  /** Firing an enabled transition whose input places are distinct keeps every
      token count non-negative. */
  lemma FirePreservesNonNegative(m: seq<Place>, t: Transition)
    requires WellFormed(t, |m|) && PositiveWeights(t) && Distinct(t.inputPlaces)
    requires NonNegative(m) && Enabled(t, m)
    ensures NonNegative(Fired(m, t))
  {
    forall q | 0 <= q < |m|
      ensures Fired(m, t)[q].tokens >= 0
    {
      FiredAt(m, t, q);
      FlowNonNegative(t.outputPlaces, t.outputWeights, q);
      if q in t.inputPlaces {
        var j :| 0 <= j < |t.inputPlaces| && t.inputPlaces[j] == q;
        FlowAtDistinct(t.inputPlaces, t.inputWeights, j);
      } else {
        FlowOutside(t.inputPlaces, t.inputWeights, q);
      }
    }
  }

  /** The enabling test looks at each input arc alone, so two arcs from the
      same place can pass it together and overdraw that place. */
  lemma DuplicateInputArcsOverdraw()
    ensures var m := [Place("p0", 1)];
            var t := Transition("t0", [0, 0], [], [1, 1], []);
            WellFormed(t, |m|) && Enabled(t, m) && Fired(m, t)[0].tokens == -1
  {
    var m := [Place("p0", 1)];
    var t := Transition("t0", [0, 0], [], [1, 1], []);
    FiredAt(m, t, 0);
    assert t.inputPlaces[..1] == [0];
    assert t.inputWeights[..1] == [1];
  }

  // ---------------------------------------------------------------------------
  // One step

  /** The marking after one step: the transition at position draw mod n of the
      enabled list (n its length) fires; a deadlocked marking stays. */
  function Next(ts: seq<Transition>, m: seq<Place>, draw: nat, refuseSources: bool): (r: seq<Place>)
    requires WellFormedNet(ts, |m|)
    ensures |r| == |m|
  {
    var en := EnabledSet(ts, m, refuseSources);
    if en == [] then m else Fired(m, ts[en[draw % |en|]])
  }

  /** A step on a deadlocked marking changes nothing; otherwise it is the
      firing of one transition that is fireable in that marking. */
  lemma NextFiresOneFireable(ts: seq<Transition>, m: seq<Place>, draw: nat, refuseSources: bool)
    requires WellFormedNet(ts, |m|)
    ensures Deadlocked(ts, m, refuseSources) ==> Next(ts, m, draw, refuseSources) == m
    ensures !Deadlocked(ts, m, refuseSources) ==>
              exists x :: 0 <= x < |ts| && Fireable(ts[x], m, refuseSources)
                          && Next(ts, m, draw, refuseSources) == Fired(m, ts[x])
  {
    var en := EnabledSet(ts, m, refuseSources);
    if en != [] {
      EnabledSetExactly(ts, m, refuseSources);
      var x := en[draw % |en|];
      assert x in en;
      assert Next(ts, m, draw, refuseSources) == Fired(m, ts[x]);
    }
  }

  /** Without source transitions a panel step and an engine step with the
      same draw fire the same transition. */
  lemma SameStepWithoutSources(ts: seq<Transition>, m: seq<Place>, draw: nat)
    requires WellFormedNet(ts, |m|)
    requires forall k :: 0 <= k < |ts| ==> |ts[k].inputPlaces| > 0
    ensures Next(ts, m, draw, true) == Next(ts, m, draw, false)
  {
    SameEnabledSetWithoutSources(ts, m);
  }

  /** A step of a net whose transitions have distinct input places and positive
      weights keeps every token count non-negative. */
  lemma NextPreservesNonNegative(ts: seq<Transition>, m: seq<Place>, draw: nat, refuseSources: bool)
    requires WellFormedNet(ts, |m|) && NonNegative(m)
    requires forall k :: 0 <= k < |ts| ==> PositiveWeights(ts[k]) && Distinct(ts[k].inputPlaces)
    ensures NonNegative(Next(ts, m, draw, refuseSources))
  {
    var en := EnabledSet(ts, m, refuseSources);
    if en != [] {
      EnabledSetExactly(ts, m, refuseSources);
      var x := en[draw % |en|];
      assert x in en;
      FirePreservesNonNegative(m, ts[x]);
    }
  }
}
