/**
 * The uRLLC latency monitor: one ping per second towards the cloud host, and a
 * hysteresis on the alert marker (the file `latencia.alerta`). The monitor's
 * whole state is the pair (marker present?, start of the calm period or unset);
 * the states NORMAL, ALERT and COOLDOWN are read off that pair.
 */
module LatencyMonitor {
  import opened Wrappers

  /** Latency target for uRLLC traffic: 5.0 ms, written in microseconds. */
  const ThresholdUs: int := 5000

  /** Length of the calm period, in seconds, before the marker is removed. */
  const CalmPeriod: int := 70

  /**
   * One iteration of the monitoring loop: the probe's reading in microseconds
   * (negative when the ping failed or its output could not be parsed) and the
   * clock, in whole seconds, at which the iteration looks at it.
   */
  datatype Sample = Sample(reading: int, now: int)

  /**
   * `marker`: the alert file exists. `timer`: the start of the calm period;
   * `None` stands for the sentinel 0 of the source.
   */
  datatype AlertState = AlertState(marker: bool, timer: Option<int>)

  /** The three states of the hysteresis, as they follow from (marker, timer). */
  datatype Phase = Normal | Alert | Cooldown

  /** How a reading compares with the threshold. */
  datatype Verdict = Above | AtOrBelow | Failed

  function PhaseOf(s: AlertState): Phase {
    if !s.marker then Normal else if s.timer.None? then Alert else Cooldown
  }

  function VerdictOf(reading: int): Verdict {
    if reading < 0 then Failed else if reading > ThresholdUs then Above else AtOrBelow
  }

  /** The state invariant the loop keeps: a running calm period implies the marker. */
  predicate Consistent(s: AlertState) {
    s.timer.Some? ==> s.marker
  }

  /** The state when the monitor starts: the timer is unset, the marker may be left over. */
  function Initial(markerPresent: bool): (s: AlertState)
    ensures Consistent(s) && s.timer.None?
    ensures PhaseOf(s) == if markerPresent then Alert else Normal
  {
    AlertState(markerPresent, None)
  }

  /** True when the calm period has run for strictly more than `CalmPeriod` seconds. */
  predicate CalmOver(s: AlertState, now: int) {
    s.timer.Some? && now - s.timer.value > CalmPeriod
  }

  /** One iteration of the monitoring loop. */
  function Step(s: AlertState, x: Sample): (r: AlertState)
    // a reading above the threshold asserts the marker and discards the calm period
    ensures VerdictOf(x.reading) == Above ==> r.marker && r.timer.None?
    // a good reading without the marker changes nothing
    ensures VerdictOf(x.reading) == AtOrBelow && !s.marker ==> r == s
    // the first good reading under an alert starts the calm period at `now`
    ensures VerdictOf(x.reading) == AtOrBelow && PhaseOf(s) == Alert ==> r == AlertState(true, Some(x.now))
    // during the calm period the marker goes away exactly when the period is over
    ensures VerdictOf(x.reading) == AtOrBelow && PhaseOf(s) == Cooldown ==>
              (r.marker <==> !CalmOver(s, x.now)) && (r.marker ==> r == s) && (!r.marker ==> r.timer.None?)
    // a failed probe unsets the timer and leaves the marker alone
    ensures VerdictOf(x.reading) == Failed ==> r.marker == s.marker && r.timer.None?
    ensures Consistent(s) ==> Consistent(r)
  {
    if x.reading >= 0 then
      if x.reading > ThresholdUs then
        AlertState(true, None)
      else if s.marker then
        if s.timer.None? then AlertState(true, Some(x.now))
        else if x.now - s.timer.value > CalmPeriod then AlertState(false, None)
        else s
      else s
    else
      AlertState(s.marker, None)
  }

  /**
   * The hysteresis written as a table over the three phases, for comparison
   * with `Step`. It follows the code: a failed probe during the calm period
   * falls back to ALERT (the next good reading starts a new calm period).
   */
  function NextPhase(p: Phase, v: Verdict, calmOver: bool): Phase {
    match p
    case Normal => if v == Above then Alert else Normal
    case Alert => if v == AtOrBelow then Cooldown else Alert
    case Cooldown =>
      match v
      case Above => Alert
      case Failed => Alert
      case AtOrBelow => if calmOver then Normal else Cooldown
  }

  lemma StepFollowsPhaseTable(s: AlertState, x: Sample)
    ensures PhaseOf(Step(s, x)) == NextPhase(PhaseOf(s), VerdictOf(x.reading), CalmOver(s, x.now))
  {
  }

  /** The state after the loop has seen the samples `xs` in order. */
  function Run(s: AlertState, xs: seq<Sample>): AlertState
    decreases |xs|
  {
    if xs == [] then s else Step(Run(s, xs[..|xs| - 1]), xs[|xs| - 1])
  }

  lemma {:induction false} RunConsistent(s: AlertState, xs: seq<Sample>)
    requires Consistent(s)
    ensures Consistent(Run(s, xs))
    decreases |xs|
  {
    if xs != [] {
      RunConsistent(s, xs[..|xs| - 1]);
    }
  }

  /** Sample `j` of `xs` is a good reading that starts the calm period. */
  predicate StartsCalm(s0: AlertState, xs: seq<Sample>, j: int)
    requires 0 <= j < |xs|
  {
    PhaseOf(Run(s0, xs[..j])) == Alert && VerdictOf(xs[j].reading) == AtOrBelow
  }

  /** How a step can leave the timer set: it started it, or it kept the state. */
  lemma StepWithTimer(s: AlertState, x: Sample)
    requires Step(s, x).timer.Some?
    ensures VerdictOf(x.reading) == AtOrBelow
    ensures s.timer.None? ==> PhaseOf(s) == Alert && Step(s, x).timer == Some(x.now)
    ensures s.timer.Some? ==> Step(s, x) == s
  {
  }

  /** The last step of a non-empty run. */
  lemma RunLast(s0: AlertState, xs: seq<Sample>)
    requires xs != []
    ensures Run(s0, xs) == Step(Run(s0, xs[..|xs| - 1]), xs[|xs| - 1])
  {
  }

  /**
   * A running calm period was started by a good reading of the trace, at the
   * time it records, and every reading since was good as well.
   */
  lemma {:induction false} CalmStartedByGoodReading(s0: AlertState, xs: seq<Sample>) returns (j: nat)
    requires s0.timer.None?
    requires Run(s0, xs).timer.Some?
    ensures j < |xs| && StartsCalm(s0, xs, j) && Run(s0, xs).timer.value == xs[j].now
    ensures forall i :: j < i < |xs| ==> VerdictOf(xs[i].reading) == AtOrBelow
    decreases |xs|
  {
    var n := |xs| - 1;
    var before := Run(s0, xs[..n]);
    RunLast(s0, xs);
    StepWithTimer(before, xs[n]);
    if before.timer.None? {
      j := n;
    } else {
      j := CalmStartedByGoodReading(s0, xs[..n]);
      assert xs[..n][..j] == xs[..j];
      assert StartsCalm(s0, xs[..n], j);
      forall i | j < i < |xs| ensures VerdictOf(xs[i].reading) == AtOrBelow {
        if i < n {
          assert xs[i] == xs[..n][i];
        }
      }
    }
  }

  /** The reading that removes the marker, and the one that started the calm period before it. */
  lemma RemovalWitness(s0: AlertState, xs: seq<Sample>) returns (j: nat)
    requires s0.timer.None?
    requires |xs| > 0 && Run(s0, xs[..|xs| - 1]).marker && !Run(s0, xs).marker
    ensures j < |xs| - 1 && StartsCalm(s0, xs, j) && xs[|xs| - 1].now - xs[j].now > CalmPeriod
    ensures forall i :: j < i < |xs| ==> VerdictOf(xs[i].reading) == AtOrBelow
  {
    var n := |xs| - 1;
    var before := Run(s0, xs[..n]);
    RunLast(s0, xs);
    assert PhaseOf(before) == Cooldown && VerdictOf(xs[n].reading) == AtOrBelow;
    j := CalmStartedByGoodReading(s0, xs[..n]);
    assert xs[..n][..j] == xs[..j];
    assert StartsCalm(s0, xs[..n], j);
    forall i | j < i < |xs| ensures VerdictOf(xs[i].reading) == AtOrBelow {
      if i < n {
        assert xs[i] == xs[..n][i];
      }
    }
  }

  /**
   * The marker is removed only by a good reading that arrives more than
   * `CalmPeriod` seconds after an earlier good reading started the calm
   * period, with nothing but good readings in between.
   */
  lemma MarkerRemovedOnlyAfterCalm(s0: AlertState, xs: seq<Sample>)
    requires s0.timer.None?
    requires |xs| > 0 && Run(s0, xs[..|xs| - 1]).marker && !Run(s0, xs).marker
    ensures VerdictOf(xs[|xs| - 1].reading) == AtOrBelow
    ensures exists j :: 0 <= j < |xs| - 1 && StartsCalm(s0, xs, j) && xs[|xs| - 1].now - xs[j].now > CalmPeriod &&
              forall i :: j < i < |xs| ==> VerdictOf(xs[i].reading) == AtOrBelow
  {
    var j := RemovalWitness(s0, xs);
  }

  /** The marker appears only because of a reading above the threshold. */
  lemma {:induction false} MarkerRaisedOnlyByHighReading(s: AlertState, xs: seq<Sample>)
    requires !s.marker && Run(s, xs).marker
    ensures exists i :: 0 <= i < |xs| && VerdictOf(xs[i].reading) == Above
    decreases |xs|
  {
    var n := |xs| - 1;
    if Run(s, xs[..n]).marker {
      MarkerRaisedOnlyByHighReading(s, xs[..n]);
      var i :| 0 <= i < n && VerdictOf(xs[..n][i].reading) == Above;
      assert xs[i] == xs[..n][i];
    } else {
      assert VerdictOf(xs[n].reading) == Above;
    }
  }

  /** Once asserted, the marker stays while no good reading arrives. */
  lemma {:induction false} MarkerHeldWithoutGoodReading(s: AlertState, xs: seq<Sample>)
    requires s.marker
    requires forall i :: 0 <= i < |xs| ==> VerdictOf(xs[i].reading) != AtOrBelow
    ensures Run(s, xs).marker
    decreases |xs|
  {
    if xs != [] {
      MarkerHeldWithoutGoodReading(s, xs[..|xs| - 1]);
    }
  }

  /** While every reading is good and the calm period is not over, nothing changes. */
  lemma {:induction false} CalmPeriodHolds(t: int, xs: seq<Sample>)
    requires forall i :: 0 <= i < |xs| ==> VerdictOf(xs[i].reading) == AtOrBelow && xs[i].now - t <= CalmPeriod
    ensures Run(AlertState(true, Some(t)), xs) == AlertState(true, Some(t))
    decreases |xs|
  {
    if xs != [] {
      CalmPeriodHolds(t, xs[..|xs| - 1]);
    }
  }

  /**
   * The clean-up on interrupt: the marker is removed if present. The timer
   * variable is deliberately left as it is, as the handler does not touch it.
   */
  function Shutdown(s: AlertState): (r: AlertState)
    ensures !r.marker && PhaseOf(r) == Normal
    ensures r.timer == s.timer
  {
    AlertState(false, s.timer)
  }

  /** The monitoring process: the timer variable and the marker file it owns. */
  class Monitor {
    var marker: bool
    var timer: Option<int>

    function State(): AlertState
      reads this
    {
      AlertState(marker, timer)
    }

    predicate Valid()
      reads this
    {
      Consistent(State())
    }

    constructor (markerPresent: bool)
      ensures State() == Initial(markerPresent) && Valid()
    {
      marker := markerPresent;
      timer := None;
    }

    /** The body of the monitoring loop for one reading. */
    method Tick(x: Sample)
      modifies this
      ensures State() == Step(old(State()), x)
      ensures old(Valid()) ==> Valid()
    {
      if x.reading >= 0 {
        if x.reading > ThresholdUs {
          if !marker {
            marker := true;
          }
          timer := None;
        } else {
          if marker {
            if timer.None? {
              timer := Some(x.now);
            } else if x.now - timer.value > CalmPeriod {
              marker := false;
              timer := None;
            }
          }
        }
      } else {
        timer := None;
      }
    }

    /** The monitoring loop over a finite sequence of readings. */
    method Watch(xs: seq<Sample>)
      modifies this
      ensures State() == Run(old(State()), xs)
      ensures old(Valid()) ==> Valid()
    {
      for i := 0 to |xs|
        invariant State() == Run(old(State()), xs[..i])
        invariant old(Valid()) ==> Valid()
      {
        assert xs[..i + 1][..i] == xs[..i];
        Tick(xs[i]);
      }
      assert xs[..|xs|] == xs;
    }

    /** The handler for an interrupt: the marker file is removed if present. */
    method Interrupt()
      modifies this
      ensures State() == Shutdown(old(State()))
    {
      if marker {
        marker := false;
      }
    }
  }
}
