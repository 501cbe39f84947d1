/**
 * Airtime smoothing: the state kept between probes for each radio (keyed
 * `mac-band`) and the moving average emitted from it. The last
 * `(ticks, uptime)` reading of a radio is remembered; once a later reading
 * shows the uptime advanced and the tick counter not wound back, the tick
 * rate since the previous reading is appended to a short history and the
 * clamped mean of that history is emitted.
 */
module Airtime {
  import opened Js

  /** A cleaned tick counter or a parsed uptime: finite, or NaN when the field does not parse. */
  type Reading = n: Number | Parsed(n) witness NaN

  datatype Sample = Sample(ticks: Reading, uptime: Reading)

  /** The number of instantaneous samples the moving average spans. */
  const Window := 3

  /** A reading advances on the previous one: uptime strictly later, ticks not smaller. */
  predicate Advances(prev: Sample, cur: Sample) {
    Greater(cur.uptime, prev.uptime) && AtLeast(cur.ticks, prev.ticks)
  }

  /** `(deltaTicks / (deltaUptimeSeconds * 100)) * 100`. */
  function Instant(prev: Sample, cur: Sample): (u: real)
    requires Advances(prev, cur)
    ensures cur.ticks.Finite? && prev.ticks.Finite? && cur.uptime.Finite? && prev.uptime.Finite?
    ensures u == (cur.ticks.r - prev.ticks.r) / (cur.uptime.r - prev.uptime.r)
    ensures u >= 0.0
  {
    var dT := cur.ticks.r - prev.ticks.r;
    var dU := cur.uptime.r - prev.uptime.r;
    RateScaled(dT, dU);
    (dT / (dU * 100.0)) * 100.0
  }

  /** Scaling the interval by 100 and the quotient back by 100 gives the plain rate. */
  lemma RateScaled(dT: real, dU: real)
    requires dT >= 0.0 && dU > 0.0
    ensures (dT / (dU * 100.0)) * 100.0 == dT / dU
    ensures dT / dU >= 0.0
  {
    var q := dT / (dU * 100.0);
    assert q * (dU * 100.0) == dT;
    assert (q * 100.0) * dU == dT;
  }

  /** `history.push(x)`, then `history.shift()` when the history has grown beyond the window. */
  function Push(history: seq<real>, x: real): seq<real> {
    var h := history + [x];
    if |h| > Window then h[1..] else h
  }

  /** The pushed history is a non-empty suffix of the old one plus the new sample, at most a window long. */
  lemma PushWindow(history: seq<real>, x: real)
    requires |history| <= Window
    ensures var h := Push(history, x);
      1 <= |h| <= Window && h[|h| - 1] == x &&
      h == (history + [x])[|history| + 1 - |h|..] &&
      (|history| < Window ==> h == history + [x])
  {
  }

  /** `reduce((a, b) => a + b)`. */
  function Sum(h: seq<real>): real {
    if h == [] then 0.0 else Sum(h[..|h| - 1]) + h[|h| - 1]
  }

  lemma {:induction false} SumNonNegative(h: seq<real>)
    requires forall i :: 0 <= i < |h| ==> h[i] >= 0.0
    ensures Sum(h) >= 0.0
  {
    if h != [] {
      SumNonNegative(h[..|h| - 1]);
    }
  }

  function Mean(h: seq<real>): real
    requires |h| > 0
  {
    Sum(h) / |h| as real
  }

  /** `Math.max(0, Math.min(100, x))`. */
  function Clamp(x: real): (c: real)
    ensures 0.0 <= c <= 100.0
    ensures 0.0 <= x <= 100.0 ==> c == x
  {
    var m := if x < 100.0 then x else 100.0;
    if m > 0.0 then m else 0.0
  }

  /** The two dictionaries kept between probes. */
  datatype State = State(last: map<string, Sample>, history: map<string, seq<real>>)

  /** What one radio's observation leaves behind, and what it emits. */
  datatype Observation = Observation(state: State, emitted: Option<real>)

  /**
   * The observation of reading `cur` for `key`: when a previous reading
   * exists and `cur` advances on it, its rate is pushed onto the key's
   * history (created empty if absent) and the clamped mean emitted. The
   * reading is stored in either case.
   */
  function Step(s: State, key: string, cur: Sample): Observation {
    if key in s.last && Advances(s.last[key], cur) then
      var h := Push(if key in s.history then s.history[key] else [], Instant(s.last[key], cur));
      Observation(State(s.last[key := cur], s.history[key := h]), Some(Clamp(Mean(h))))
    else
      Observation(State(s.last[key := cur], s.history), None)
  }

  /**
   * The state invariant: a history exists only for a radio with a stored
   * reading, holds one to `Window` samples, and every sample is a
   * non-negative rate.
   */
  predicate Consistent(s: State) {
    forall k :: k in s.history ==>
      k in s.last && 1 <= |s.history[k]| <= Window &&
      forall i :: 0 <= i < |s.history[k]| ==> s.history[k][i] >= 0.0
  }

  // ---------------------------------------------------------------------
  // Properties of one observation

  /** A radio seen for the first time emits nothing and leaves every history as it was. */
  lemma FirstObservation(s: State, key: string, cur: Sample)
    requires key !in s.last
    ensures Step(s, key, cur).emitted == None
    ensures Step(s, key, cur).state.history == s.history
  {
  }

  /** Whatever happens, the stored reading for the key becomes the current one. */
  lemma ReadingStored(s: State, key: string, cur: Sample)
    ensures Step(s, key, cur).state.last == s.last[key := cur]
  {
  }

  /** No other radio's reading or history changes. */
  lemma OtherKeysUnchanged(s: State, key: string, cur: Sample, other: string)
    requires other != key
    ensures var t := Step(s, key, cur).state;
      (other in t.last <==> other in s.last) && (other in s.last ==> t.last[other] == s.last[other]) &&
      (other in t.history <==> other in s.history) && (other in s.history ==> t.history[other] == s.history[other])
  {
  }

  /** A value is emitted exactly when a previous reading exists and the new one advances on it. */
  lemma EmitsIffAdvances(s: State, key: string, cur: Sample)
    ensures Step(s, key, cur).emitted.Some? <==> key in s.last && Advances(s.last[key], cur)
    ensures Step(s, key, cur).emitted.None? ==> Step(s, key, cur).state.history == s.history
  {
  }

  /** A reboot (uptime not after the stored one) or a wound-back counter only re-seeds the state. */
  lemma Reseeds(s: State, key: string, cur: Sample)
    requires key in s.last
    requires !Greater(cur.uptime, s.last[key].uptime) || Greater(s.last[key].ticks, cur.ticks)
    ensures Step(s, key, cur) == Observation(State(s.last[key := cur], s.history), None)
  {
  }

  /** Pushing a non-negative sample onto a consistent history keeps it consistent. */
  lemma PushKeeps(history: seq<real>, x: real)
    requires |history| <= Window && x >= 0.0
    requires forall i :: 0 <= i < |history| ==> history[i] >= 0.0
    ensures var h := Push(history, x);
      1 <= |h| <= Window && forall i :: 0 <= i < |h| ==> h[i] >= 0.0
  {
    var h := Push(history, x);
    forall i | 0 <= i < |h|
      ensures h[i] >= 0.0
    {
      if |history| + 1 > Window {
        assert h[i] == (history + [x])[i + 1];
      } else {
        assert h[i] == (history + [x])[i];
      }
    }
  }

  /** The mean of non-negative samples is non-negative. */
  lemma MeanNonNegative(h: seq<real>)
    requires |h| > 0
    requires forall i :: 0 <= i < |h| ==> h[i] >= 0.0
    ensures Mean(h) >= 0.0
  {
    SumNonNegative(h);
    var n := |h| as real;
    assert Mean(h) * n == Sum(h);
  }

  /** The history of `key` before an observation: empty when the radio has none yet. */
  function HistoryOf(s: State, key: string): (h: seq<real>)
    requires Consistent(s)
    ensures |h| <= Window && forall i :: 0 <= i < |h| ==> h[i] >= 0.0
  {
    if key in s.history then s.history[key] else []
  }

  /**
   * An advancing observation appends the tick rate since the stored reading to
   * the key's history, dropping the oldest sample beyond the window, and emits
   * the mean of the new history, which is a percentage.
   */
  lemma AdvancingObservation(s: State, key: string, cur: Sample)
    requires Consistent(s)
    requires key in s.last && Advances(s.last[key], cur)
    ensures
      var prev := s.last[key];
      var o := Step(s, key, cur);
      var h := Push(HistoryOf(s, key), (cur.ticks.r - prev.ticks.r) / (cur.uptime.r - prev.uptime.r));
      o.state == State(s.last[key := cur], s.history[key := h]) &&
      1 <= |h| <= Window && (forall i :: 0 <= i < |h| ==> h[i] >= 0.0) &&
      Mean(h) >= 0.0 && o.emitted == Some(if Mean(h) < 100.0 then Mean(h) else 100.0)
  {
    var x := Instant(s.last[key], cur);
    var h := Push(HistoryOf(s, key), x);
    PushKeeps(HistoryOf(s, key), x);
    MeanNonNegative(h);
  }

  /** An emitted value always lies in [0, 100]. */
  lemma EmittedBounded(s: State, key: string, cur: Sample)
    ensures var e := Step(s, key, cur).emitted; e.Some? ==> 0.0 <= e.value <= 100.0
  {
  }

  /** Every observation keeps the state invariant. */
  lemma StepConsistent(s: State, key: string, cur: Sample)
    requires Consistent(s)
    ensures Consistent(Step(s, key, cur).state)
  {
    if key in s.last && Advances(s.last[key], cur) {
      var x := Instant(s.last[key], cur);
      PushKeeps(HistoryOf(s, key), x);
      ConsistentPut(s, key, cur, Push(HistoryOf(s, key), x));
    } else {
      ConsistentReseed(s, key, cur);
    }
  }

  /** The outcome of an advancing observation, given the pushed history. */
  lemma StepAdvancing(s: State, key: string, cur: Sample, h: seq<real>)
    requires key in s.last && Advances(s.last[key], cur)
    requires h == Push(if key in s.history then s.history[key] else [], Instant(s.last[key], cur))
    ensures |h| > 0
    ensures Step(s, key, cur) == Observation(State(s.last[key := cur], s.history[key := h]), Some(Clamp(Mean(h))))
  {
  }

  /** The outcome of an observation that does not advance. */
  lemma StepResting(s: State, key: string, cur: Sample)
    requires !(key in s.last && Advances(s.last[key], cur))
    ensures Step(s, key, cur) == Observation(State(s.last[key := cur], s.history), None)
  {
  }

  /** Storing a reading together with a well-formed history for its key keeps the invariant. */
  lemma ConsistentPut(s: State, key: string, cur: Sample, h: seq<real>)
    requires Consistent(s)
    requires 1 <= |h| <= Window && forall i :: 0 <= i < |h| ==> h[i] >= 0.0
    ensures Consistent(State(s.last[key := cur], s.history[key := h]))
  {
    var t := State(s.last[key := cur], s.history[key := h]);
    forall k | k in t.history
      ensures k in t.last && 1 <= |t.history[k]| <= Window
      ensures forall i :: 0 <= i < |t.history[k]| ==> t.history[k][i] >= 0.0
    {
      if k != key {
        assert t.history[k] == s.history[k];
      }
    }
  }

  /** Storing a reading and leaving the histories alone keeps the invariant. */
  lemma ConsistentReseed(s: State, key: string, cur: Sample)
    requires Consistent(s)
    ensures Consistent(State(s.last[key := cur], s.history))
  {
    var t := State(s.last[key := cur], s.history);
    forall k | k in t.history
      ensures k in t.last
    {
      assert k in s.last;
    }
  }

  // ---------------------------------------------------------------------
  // The dictionaries as process-wide mutable state

  /** `lastAirtimeState` and `airtimeHistory`. */
  class Store {
    var last: map<string, Sample>
    var history: map<string, seq<real>>

    function Contents(): State
      reads this
    {
      State(last, history)
    }

    ghost predicate Valid()
      reads this
    {
      Consistent(Contents())
    }

    constructor ()
      ensures last == map[] && history == map[]
      ensures Valid()
    {
      last := map[];
      history := map[];
    }

    /** One radio's airtime reading: the emitted gauge value, if any. */
    method Observe(key: string, cur: Sample) returns (emitted: Option<real>)
      requires Valid()
      modifies this
      ensures Valid()
      ensures Observation(Contents(), emitted) == Step(old(Contents()), key, cur)
    {
      ghost var s := Contents();
      StepConsistent(s, key, cur);
      emitted := None;
      if key in last && Advances(last[key], cur) {
        var instant := Instant(last[key], cur);
        ghost var before := if key in history then history[key] else [];
        if key !in history {
          history := history[key := []];
        }
        var h := history[key] + [instant];
        if |h| > Window {
          h := h[1..];
        }
        assert h == Push(before, instant);
        history := history[key := h];
        emitted := Some(Clamp(Mean(h)));
        assert history == s.history[key := h];
        StepAdvancing(s, key, cur, h);
      } else {
        StepResting(s, key, cur);
      }
      last := last[key := cur];
    }
  }

  // ---------------------------------------------------------------------
  // A trace

  /**
   * Three readings of one radio ten seconds apart, 10 then 16 busy ticks per
   * second: the first seeds the state, the second emits 10, the third the mean 13.
   */
  lemma ThreeReadings(s: State, key: string)
    requires key !in s.last && key !in s.history
    ensures
      var o1 := Step(s, key, Sample(Finite(1000.0), Finite(100.0)));
      var o2 := Step(o1.state, key, Sample(Finite(1100.0), Finite(110.0)));
      var o3 := Step(o2.state, key, Sample(Finite(1260.0), Finite(120.0)));
      o1.emitted == None && o2.emitted == Some(10.0) && o3.emitted == Some(13.0) &&
      o3.state.history[key] == [10.0, 16.0]
  {
    var a := Sample(Finite(1000.0), Finite(100.0));
    var b := Sample(Finite(1100.0), Finite(110.0));
    var c := Sample(Finite(1260.0), Finite(120.0));
    TraceArithmetic(a, b, c);
    StepResting(s, key, a);
    var s1 := State(s.last[key := a], s.history);
    StepAdvancing(s1, key, b, [10.0]);
    var s2 := State(s.last[key := b], s.history[key := [10.0]]);
    assert s1.last[key := b] == s2.last;
    StepAdvancing(s2, key, c, [10.0, 16.0]);
    assert s2.last[key := c] == s.last[key := c];
  }

  /** The rates and means of the trace above. */
  lemma TraceArithmetic(a: Sample, b: Sample, c: Sample)
    requires a == Sample(Finite(1000.0), Finite(100.0))
    requires b == Sample(Finite(1100.0), Finite(110.0))
    requires c == Sample(Finite(1260.0), Finite(120.0))
    ensures Advances(a, b) && Advances(b, c)
    ensures Instant(a, b) == 10.0 && Instant(b, c) == 16.0
    ensures Push([], 10.0) == [10.0] && Clamp(Mean([10.0])) == 10.0
    ensures Push([10.0], 16.0) == [10.0, 16.0]
    ensures Clamp(Mean([10.0, 16.0])) == 13.0
  {
    assert [10.0][..0] == [];
    assert [10.0, 16.0][..1] == [10.0];
    assert Sum([10.0, 16.0]) == 26.0;
  }
}
