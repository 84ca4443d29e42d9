/** The brewing-timer modal of App.tsx as a pure state machine over the three
    state cells `activeStepIndex`, `timeLeft` and `isRunning`.

    Each user action or elapsed second is one handler followed by one re-run of
    the countdown effect: the effect re-arms the one-second interval while the
    timer runs with time left and otherwise, at zero, switches the run off. */
module TimerSpec {
  import opened Catalog

  /** A snapshot of the modal's state cells. */
  datatype Session = Session(index: int, timeLeft: int, running: bool)

  /** `isFinished`: the index has run past the last step. */
  predicate IsFinished(steps: seq<BrewingStep>, s: Session) {
    s.index >= |steps|
  }

  /** The invariant of every reachable session: the index names a step, the time
      left lies within that step's duration, and a countdown at zero is stopped. */
  predicate Valid(steps: seq<BrewingStep>, s: Session) {
    && 0 <= s.index < |steps|
    && 0 <= s.timeLeft <= steps[s.index].duration
    && (s.timeLeft == 0 ==> !s.running)
  }

  /** One run of the countdown effect after a state change: while running with
      time left it only re-arms the interval; at zero, unless finished, it stops the run. */
  function Settle(steps: seq<BrewingStep>, s: Session): Session {
    if s.running && s.timeLeft > 0 then s
    else if s.timeLeft == 0 && !IsFinished(steps, s) then s.(running := false)
    else s
  }

  /** Opening a guide: the first step, its full duration, not running. */
  function Init(steps: seq<BrewingStep>): Session
    requires |steps| > 0
  {
    Settle(steps, Session(0, steps[0].duration, false))
  }

  /** One second elapses: the interval, armed only while running with time left,
      decrements the time left by one. */
  function Tick(steps: seq<BrewingStep>, s: Session): Session {
    Settle(steps, if s.running && s.timeLeft > 0 then s.(timeLeft := s.timeLeft - 1) else s)
  }

  /** The Start Timer / Pause button. */
  function Toggle(steps: seq<BrewingStep>, s: Session): Session {
    Settle(steps, s.(running := !s.running))
  }

  /** `handleNext`: below the last step, move to the next step at its full duration
      and start it; on the last step, close the modal (the second component is true)
      and leave the state as it is. */
  function Next(steps: seq<BrewingStep>, s: Session): (Session, bool)
    requires 0 <= s.index
  {
    if s.index < |steps| - 1 then
      (Settle(steps, Session(s.index + 1, steps[s.index + 1].duration, true)), false)
    else
      (s, true)
  }

  /** The reset button: the current step back to its full duration, stopped. */
  function Reset(steps: seq<BrewingStep>, s: Session): Session
    requires 0 <= s.index < |steps|
  {
    Settle(steps, Session(s.index, steps[s.index].duration, false))
  }

  /** The seconds of the current step already elapsed. */
  function Elapsed(steps: seq<BrewingStep>, s: Session): int
    requires 0 <= s.index < |steps|
  {
    steps[s.index].duration - s.timeLeft
  }

  /** The progress ring's percentage; 0 for a step without countdown. */
  function Progress(steps: seq<BrewingStep>, s: Session): real
    requires 0 <= s.index < |steps|
  {
    var d := steps[s.index].duration;
    if d > 0 then (Elapsed(steps, s) as real / d as real) * 100.0 else 0.0
  }

  /** The button shown beside reset: a toggle while time is left, otherwise an
      advance, labelled Finish on the last step. */
  datatype Control = StartTimer | Pause | NextPhase | Finish

  function Primary(steps: seq<BrewingStep>, s: Session): Control {
    if s.timeLeft > 0 then (if s.running then Pause else StartTimer)
    else if s.index < |steps| - 1 then NextPhase
    else Finish
  }

  function Label(c: Control): string {
    match c
    case StartTimer => "Start Timer"
    case Pause => "Pause"
    case NextPhase => "Next Phase"
    case Finish => "Finish"
  }

  /** What can happen to an open modal: a second elapses, or one of its three buttons is pressed. */
  datatype Input = Second | PressPrimary | PressReset | PressClose

  /** One input; the second component is true when the modal closes. */
  function Apply(steps: seq<BrewingStep>, s: Session, e: Input): (r: (Session, bool))
    requires Valid(steps, s)
    ensures Valid(steps, r.0)
  {
    TickEffect(steps, s);
    ToggleEffect(steps, s);
    NextEffect(steps, s);
    ResetEffect(steps, s);
    match e
    case Second => (Tick(steps, s), false)
    case PressPrimary => if s.timeLeft > 0 then (Toggle(steps, s), false) else Next(steps, s)
    case PressReset => (Reset(steps, s), false)
    case PressClose => (s, true)
  }

  /** A sequence of inputs, up to the one that closes the modal. */
  function Run(steps: seq<BrewingStep>, s: Session, es: seq<Input>): (r: (Session, bool))
    requires Valid(steps, s)
    ensures Valid(steps, r.0)
    decreases |es|
  {
    if es == [] then (s, false)
    else
      var a := Apply(steps, s, es[0]);
      if a.1 then a else Run(steps, a.0, es[1..])
  }

  /** `n` seconds in a row. */
  function Ticks(steps: seq<BrewingStep>, s: Session, n: nat): Session
    decreases n
  {
    if n == 0 then s else Ticks(steps, Tick(steps, s), n - 1)
  }

  function Repeat(e: Input, n: nat): (r: seq<Input>)
    ensures |r| == n && forall i :: 0 <= i < n ==> r[i] == e
  {
    if n == 0 then [] else [e] + Repeat(e, n - 1)
  }

  /** Following a guide from step `j` on: press the main button to advance to each
      step and let its countdown run out. */
  function Phases(steps: seq<BrewingStep>, j: nat): seq<Input>
    decreases |steps| - j
  {
    if j >= |steps| then [] else [PressPrimary] + Repeat(Second, steps[j].duration) + Phases(steps, j + 1)
  }

  /** Brewing a whole guide: start the first countdown if it has one, advance through
      every later step letting each countdown run out, then press Finish. */
  function Protocol(steps: seq<BrewingStep>): seq<Input>
    requires |steps| > 0
  {
    (if steps[0].duration > 0 then [PressPrimary] + Repeat(Second, steps[0].duration) else [])
    + Phases(steps, 1) + [PressPrimary]
  }

  // ------------------------------------------------------- one operation each

  /** A freshly opened timer is at the first step with its full duration, stopped, and valid. */
  lemma InitEffect(steps: seq<BrewingStep>)
    requires |steps| > 0
    ensures Init(steps) == Session(0, steps[0].duration, false)
    ensures Valid(steps, Init(steps))
  {
  }

  /** A second only counts down a running timer, by exactly one, and stops it at zero;
      the step never advances on its own. */
  lemma TickEffect(steps: seq<BrewingStep>, s: Session)
    requires Valid(steps, s)
    ensures Valid(steps, Tick(steps, s))
    ensures Tick(steps, s).index == s.index
    ensures s.running ==> Tick(steps, s) == Session(s.index, s.timeLeft - 1, s.timeLeft > 1)
    ensures !s.running ==> Tick(steps, s) == s
  {
  }

  /** The toggle flips the run while time is left and does nothing at zero. */
  lemma ToggleEffect(steps: seq<BrewingStep>, s: Session)
    requires Valid(steps, s)
    ensures Valid(steps, Toggle(steps, s))
    ensures s.timeLeft > 0 ==> Toggle(steps, s) == s.(running := !s.running)
    ensures s.timeLeft == 0 ==> Toggle(steps, s) == s
  {
  }

  /** Advancing below the last step moves to the next step at its full duration and
      runs it exactly when it has a countdown; on the last step it reports finished. */
  lemma NextEffect(steps: seq<BrewingStep>, s: Session)
    requires Valid(steps, s)
    ensures Valid(steps, Next(steps, s).0)
    ensures Next(steps, s).1 <==> s.index == |steps| - 1
    ensures Next(steps, s).1 ==> Next(steps, s).0 == s
    ensures !Next(steps, s).1 ==>
      var d := steps[s.index + 1].duration;
      Next(steps, s).0 == Session(s.index + 1, d, d > 0)
  {
  }

  /** Reset restores the current step's full duration and stops, keeping the step. */
  lemma ResetEffect(steps: seq<BrewingStep>, s: Session)
    requires Valid(steps, s)
    ensures Valid(steps, Reset(steps, s))
    ensures Reset(steps, s) == Session(s.index, steps[s.index].duration, false)
  {
  }

  /** In a valid session the finished flag is never raised, the elapsed time lies in
      0..duration, and a step without countdown is never running. */
  lemma ValidConsequences(steps: seq<BrewingStep>, s: Session)
    requires Valid(steps, s)
    ensures !IsFinished(steps, s)
    ensures 0 <= Elapsed(steps, s) <= steps[s.index].duration
    ensures steps[s.index].duration == 0 ==> !s.running
  {
  }

  /** The main button is an advance exactly when the countdown is at zero, and pressing
      it toggles, advances or closes as its label says. */
  lemma PrimaryEffect(steps: seq<BrewingStep>, s: Session)
    requires Valid(steps, s)
    ensures Primary(steps, s) in {NextPhase, Finish} <==> s.timeLeft == 0
    ensures Primary(steps, s) == Finish <==> s.timeLeft == 0 && s.index == |steps| - 1
    ensures var r := Apply(steps, s, PressPrimary);
      && (Primary(steps, s) == StartTimer ==> r == (s.(running := true), false))
      && (Primary(steps, s) == Pause ==> r == (s.(running := false), false))
      && (Primary(steps, s) == NextPhase ==> !r.1 && r.0.index == s.index + 1)
      && (Primary(steps, s) == Finish <==> r.1)
  {
    ToggleEffect(steps, s);
    NextEffect(steps, s);
  }

  // ---------------------------------------------------------------- progress

  lemma DivAtMostOne(x: real, y: real)
    requires 0.0 <= x <= y && y > 0.0
    ensures 0.0 <= x / y <= 1.0
  {
    assert x / y * y == x;
  }

  lemma DivMonotone(x: real, x': real, y: real)
    requires 0.0 <= x <= x' && y > 0.0
    ensures x / y <= x' / y
  {
    assert x' / y - x / y == (x' - x) / y;
  }

  /** The progress ring stays between 0 and 100 percent: 0 on a step without countdown
      or at its full duration, 100 once a countdown has run out. */
  lemma ProgressBounds(steps: seq<BrewingStep>, s: Session)
    requires Valid(steps, s)
    ensures 0.0 <= Progress(steps, s) <= 100.0
    ensures steps[s.index].duration == 0 ==> Progress(steps, s) == 0.0
    ensures s.timeLeft == steps[s.index].duration ==> Progress(steps, s) == 0.0
    ensures s.timeLeft == 0 && steps[s.index].duration > 0 ==> Progress(steps, s) == 100.0
  {
    var d := steps[s.index].duration;
    if d > 0 {
      DivAtMostOne(Elapsed(steps, s) as real, d as real);
    }
  }

  /** A second never moves the progress ring backwards. */
  lemma ProgressMonotone(steps: seq<BrewingStep>, s: Session)
    requires Valid(steps, s)
    ensures Tick(steps, s).index == s.index
    ensures Progress(steps, s) <= Progress(steps, Tick(steps, s))
  {
    var t := Tick(steps, s);
    var d := steps[s.index].duration;
    if d > 0 {
      DivMonotone(Elapsed(steps, s) as real, Elapsed(steps, t) as real, d as real);
    }
  }

  // ------------------------------------------------------ runs of seconds

  /** From a running countdown with `timeLeft` seconds, `n <= timeLeft` seconds leave
      `timeLeft - n`, still running exactly when time is left. */
  lemma {:induction false} CountDown(steps: seq<BrewingStep>, s: Session, n: nat)
    requires Valid(steps, s) && s.running && n <= s.timeLeft
    ensures Ticks(steps, s, n) == Session(s.index, s.timeLeft - n, s.timeLeft - n > 0)
    decreases n
  {
    if n > 0 {
      var t := Tick(steps, s);
      assert t == Session(s.index, s.timeLeft - 1, s.timeLeft > 1);
      if n > 1 {
        CountDown(steps, t, n - 1);
      }
    }
  }

  /** Reset after any number of seconds restores the same state as reset right away. */
  lemma {:induction false} ResetAfterTicks(steps: seq<BrewingStep>, s: Session, n: nat)
    requires Valid(steps, s)
    ensures Valid(steps, Ticks(steps, s, n))
    ensures Reset(steps, Ticks(steps, s, n)) == Reset(steps, s)
    decreases n
  {
    if n > 0 {
      TickEffect(steps, s);
      ResetAfterTicks(steps, Tick(steps, s), n - 1);
    }
  }

  // ------------------------------------------------------------------ runs

  lemma {:induction false} RunAppend(steps: seq<BrewingStep>, s: Session, a: seq<Input>, b: seq<Input>)
    requires Valid(steps, s)
    ensures Run(steps, s, a + b) ==
      if Run(steps, s, a).1 then Run(steps, s, a) else Run(steps, Run(steps, s, a).0, b)
    decreases |a|
  {
    if a != [] {
      assert (a + b)[0] == a[0] && (a + b)[1..] == a[1..] + b;
      var x := Apply(steps, s, a[0]);
      if !x.1 {
        RunAppend(steps, x.0, a[1..], b);
      }
    } else {
      assert a + b == b;
    }
  }

  /** Letting a countdown of `n` seconds run out from its start stops it at zero, on the same step. */
  lemma {:induction false} RunSeconds(steps: seq<BrewingStep>, s: Session, n: nat)
    requires Valid(steps, s) && s.timeLeft == n && (n > 0 ==> s.running)
    ensures Run(steps, s, Repeat(Second, n)) == (Session(s.index, 0, false), false)
    decreases n
  {
    if n > 0 {
      var r := Repeat(Second, n);
      assert r[0] == Second && r[1..] == Repeat(Second, n - 1);
      TickEffect(steps, s);
      RunSeconds(steps, Tick(steps, s), n - 1);
    }
  }

  /** From a stopped, run-out step `j - 1`, pressing Next Phase and letting the new
      countdown run out leaves step `j` stopped at zero. */
  lemma AdvanceAndRunOut(steps: seq<BrewingStep>, j: nat)
    requires 1 <= j < |steps|
    ensures Run(steps, Session(j - 1, 0, false), [PressPrimary] + Repeat(Second, steps[j].duration))
            == (Session(j, 0, false), false)
  {
    var s := Session(j - 1, 0, false);
    var d := steps[j].duration;
    var s1 := Session(j, d, d > 0);
    var es := [PressPrimary] + Repeat(Second, d);
    NextEffect(steps, s);
    assert Apply(steps, s, PressPrimary) == (s1, false);
    assert es[0] == PressPrimary && es[1..] == Repeat(Second, d);
    RunSeconds(steps, s1, d);
  }

  /** From a stopped, run-out step `j - 1`, following the guide reaches the last step, run out. */
  lemma {:induction false} RunPhases(steps: seq<BrewingStep>, j: nat)
    requires 1 <= j <= |steps|
    ensures Run(steps, Session(j - 1, 0, false), Phases(steps, j)) == (Session(|steps| - 1, 0, false), false)
    decreases |steps| - j
  {
    if j < |steps| {
      var step := [PressPrimary] + Repeat(Second, steps[j].duration);
      assert Phases(steps, j) == step + Phases(steps, j + 1);
      RunAppend(steps, Session(j - 1, 0, false), step, Phases(steps, j + 1));
      AdvanceAndRunOut(steps, j);
      RunPhases(steps, j + 1);
    }
  }

  /** Brewing a whole guide: every input before the last leaves the modal open, at the
      last step with its countdown run out, and the last press of Finish closes it. */
  lemma BrewGuide(steps: seq<BrewingStep>)
    requires |steps| > 0
    ensures var p := Protocol(steps);
      && Run(steps, Init(steps), p[..|p| - 1]) == (Session(|steps| - 1, 0, false), false)
      && Run(steps, Init(steps), p) == (Session(|steps| - 1, 0, false), true)
  {
    var s0 := Init(steps);
    var d := steps[0].duration;
    var start := if d > 0 then [PressPrimary] + Repeat(Second, d) else [];
    var p := Protocol(steps);
    assert p[..|p| - 1] == start + Phases(steps, 1);
    assert Run(steps, s0, start) == (Session(0, 0, false), false) by {
      if d > 0 {
        var s1 := Session(0, d, true);
        ToggleEffect(steps, s0);
        assert Apply(steps, s0, PressPrimary) == (s1, false);
        assert start[0] == PressPrimary && start[1..] == Repeat(Second, d);
        RunSeconds(steps, s1, d);
      }
    }
    RunAppend(steps, s0, start, Phases(steps, 1));
    RunPhases(steps, 1);
    var last := Session(|steps| - 1, 0, false);
    NextEffect(steps, last);
    assert Run(steps, last, [PressPrimary]) == (last, true);
    RunAppend(steps, s0, p[..|p| - 1], [PressPrimary]);
    assert p == p[..|p| - 1] + [PressPrimary];
  }
}
