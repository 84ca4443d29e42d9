/** The brewing-timer modal as an object whose three state cells its handlers
    update in place; each method is proved against the matching function of TimerSpec. */
module TimerModal {
  import opened Catalog
  import TimerSpec

  class BrewingTimer {
    /** The guide's steps, fixed for the life of the modal. */
    const steps: seq<BrewingStep>
    var index: int
    var timeLeft: int
    var running: bool

    function State(): TimerSpec.Session
      reads this
    {
      TimerSpec.Session(index, timeLeft, running)
    }

    ghost predicate Valid()
      reads this
    {
      TimerSpec.Valid(steps, State())
    }

    /** Opening a guide; its first step is indexed unguarded, so it must have one. */
    constructor (steps: seq<BrewingStep>)
      requires |steps| > 0
      ensures this.steps == steps
      ensures Valid() && State() == TimerSpec.Init(steps)
    {
      this.steps := steps;
      index := 0;
      timeLeft := steps[0].duration;
      running := false;
      new;
      Settle();
    }

    /** The countdown effect, re-run after every state change. */
    method Settle()
      modifies this
      ensures State() == TimerSpec.Settle(steps, old(State()))
    {
      if running && timeLeft > 0 {
        // the interval is re-armed; nothing changes now
      } else if timeLeft == 0 && index < |steps| {
        running := false;
      }
    }

    /** One second elapses. */
    method Tick()
      requires Valid()
      modifies this
      ensures Valid() && State() == TimerSpec.Tick(steps, old(State()))
    {
      if running && timeLeft > 0 {
        timeLeft := timeLeft - 1;
      }
      Settle();
    }

    /** The Start Timer / Pause button. */
    method Toggle()
      requires Valid()
      modifies this
      ensures Valid() && State() == TimerSpec.Toggle(steps, old(State()))
    {
      running := !running;
      Settle();
    }

    /** `handleNext`; `finished` reports that the modal asked to be closed. */
    method Next() returns (finished: bool)
      requires Valid()
      modifies this
      ensures Valid() && (State(), finished) == TimerSpec.Next(steps, old(State()))
    {
      if index < |steps| - 1 {
        timeLeft := steps[index + 1].duration;
        index := index + 1;
        running := true;
        Settle();
        finished := false;
      } else {
        finished := true;
      }
    }

    /** The reset button. */
    method Reset()
      requires Valid()
      modifies this
      ensures Valid() && State() == TimerSpec.Reset(steps, old(State()))
    {
      timeLeft := steps[index].duration;
      running := false;
      Settle();
    }

    /** The main button: a toggle while time is left, otherwise an advance. */
    method PressPrimary() returns (closed: bool)
      requires Valid()
      modifies this
      ensures Valid() && (State(), closed) == TimerSpec.Apply(steps, old(State()), TimerSpec.PressPrimary)
    {
      if timeLeft > 0 {
        Toggle();
        closed := false;
      } else {
        closed := Next();
      }
    }
  }
}
