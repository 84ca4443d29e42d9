/** The timer run on the catalog's own guides: every guide opens a timer, shows
    "Next Phase" at "0:00" when opened, and can be brewed to the end. */
module Brewing {
  import opened Catalog
  import opened TimerSpec
  import Clock
  import TimerModal

  /** A freshly opened timer on any guide sits at zero on its instructional first step:
      the clock reads "0:00", the ring is empty and the main button reads "Next Phase". */
  lemma FreshTimerShowsNextPhase()
    ensures forall i :: 0 <= i < |BrewingGuides| ==>
      var steps := BrewingGuides[i].steps;
      && |steps| > 0
      && Init(steps).timeLeft == 0
      && Clock.Format(Init(steps).timeLeft) == "0:00"
      && Progress(steps, Init(steps)) == 0.0
      && Primary(steps, Init(steps)) == NextPhase
      && Label(Primary(steps, Init(steps))) == "Next Phase"
  {
    EveryGuideStartsInstant();
    Clock.FaceExamples();
  }

  /** Every guide of the catalog brews to the end: the last press of Finish closes the modal. */
  lemma EveryGuideBrews()
    ensures forall i :: 0 <= i < |BrewingGuides| ==>
      var steps := BrewingGuides[i].steps;
      |steps| > 0 && Run(steps, Init(steps), Protocol(steps)) == (Session(|steps| - 1, 0, false), true)
  {
    forall i | 0 <= i < |BrewingGuides|
      ensures var steps := BrewingGuides[i].steps;
        |steps| > 0 && Run(steps, Init(steps), Protocol(steps)) == (Session(|steps| - 1, 0, false), true)
    {
      EveryGuideHasSteps();
      BrewGuide(BrewingGuides[i].steps);
    }
  }

  /** The first phase of Pour Over: Next starts the 45-second bloom countdown by itself,
      and 45 seconds later it has stopped by itself at 0, with the modal still open. */
  lemma PourOverBloom()
    ensures Run(PourOver.steps, Init(PourOver.steps), [PressPrimary]) == (Session(1, 45, true), false)
    ensures Run(PourOver.steps, Init(PourOver.steps), [PressPrimary] + Repeat(Second, 45))
         == (Session(1, 0, false), false)
  {
    var steps := PourOver.steps;
    PourOverDurations();
    var s0 := Init(steps);
    InitEffect(steps);
    NextEffect(steps, s0);
    var s1 := Session(1, 45, true);
    assert Run(steps, s0, [PressPrimary]) == (s1, false) by {
      assert Apply(steps, s0, PressPrimary) == (s1, false);
    }
    RunAppend(steps, s0, [PressPrimary], Repeat(Second, 45));
    RunSeconds(steps, s1, 45);
  }

  /** The Pour Over scenario: Next, 45 seconds, Next, 90 seconds, Next, 45 seconds, Next.
      Only the last press closes the modal, and no state along the way runs a step
      without countdown. */
  lemma PourOverScenario()
    ensures var steps := PourOver.steps;
      var p := [PressPrimary] + Repeat(Second, 45) + [PressPrimary] + Repeat(Second, 90)
             + [PressPrimary] + Repeat(Second, 45) + [PressPrimary];
      && Protocol(steps) == p
      && Run(steps, Init(steps), p[..|p| - 1]) == (Session(3, 0, false), false)
      && Run(steps, Init(steps), p) == (Session(3, 0, false), true)
      && forall k :: 0 <= k <= |p| ==>
           var st := Run(steps, Init(steps), p[..k]).0;
           steps[st.index].duration == 0 ==> !st.running
  {
    var steps := PourOver.steps;
    PourOverDurations();
    assert Phases(steps, 4) == [];
    assert Phases(steps, 1) == [PressPrimary] + Repeat(Second, 45) + [PressPrimary] + Repeat(Second, 90)
             + [PressPrimary] + Repeat(Second, 45);
    BrewGuide(steps);
    var p := Protocol(steps);
    forall k | 0 <= k <= |p|
      ensures var st := Run(steps, Init(steps), p[..k]).0;
        steps[st.index].duration == 0 ==> !st.running
    {
      ValidConsequences(steps, Run(steps, Init(steps), p[..k]).0);
    }
  }

  /** The clock faces of the Pour Over countdowns as they start, and of its total time.
      That the total matches the guide's time label holds for this one guide only:
      the catalog does not tie labels to step totals (French Press sums to 270 seconds
      against its "4:00"). */
  lemma PourOverFaces()
    ensures Clock.Format(PourOver.steps[1].duration) == "0:45"
    ensures Clock.Format(PourOver.steps[2].duration) == "1:30"
    ensures Clock.Format(TotalDuration(PourOver.steps)) == PourOver.time
  {
    PourOverDurations();
    Clock.FaceExamples();
  }

  /** Lets the current countdown of the modal run out, one second at a time. */
  method RunOut(timer: TimerModal.BrewingTimer) returns (ticks: nat)
    requires timer.Valid() && timer.running == (timer.timeLeft > 0)
    modifies timer
    ensures timer.Valid() && timer.index == old(timer.index)
    ensures timer.timeLeft == 0 && !timer.running
    ensures ticks == old(timer.timeLeft)
  {
    ticks := 0;
    while timer.timeLeft > 0
      invariant timer.Valid() && timer.index == old(timer.index)
      invariant timer.running == (timer.timeLeft > 0)
      invariant ticks + timer.timeLeft == old(timer.timeLeft)
      decreases timer.timeLeft
    {
      timer.Tick();
      ticks := ticks + 1;
    }
  }

  /** A user brewing a guide on the modal object: start the first countdown if it has
      one, then press the main button and let each countdown run out until it closes.
      The modal closes after one press per step (plus the start press), having counted
      down every second of the guide. */
  method BrewThrough(steps: seq<BrewingStep>) returns (presses: nat, seconds: nat)
    requires |steps| > 0
    ensures presses == |steps| + (if steps[0].duration > 0 then 1 else 0)
    ensures seconds == TotalDuration(steps)
  {
    var timer := new TimerModal.BrewingTimer(steps);
    var closed := false;
    presses := 0;
    if timer.timeLeft > 0 {
      closed := timer.PressPrimary();
      presses := 1;
    }
    seconds := RunOut(timer);
    TotalDurationPrefix(steps, 0);
    while !closed
      invariant timer.Valid() && timer.steps == steps
      invariant timer.timeLeft == 0 && !timer.running
      invariant seconds == TotalDuration(steps[..timer.index + 1])
      invariant closed ==> timer.index == |steps| - 1
      invariant presses == timer.index + (if closed then 1 else 0) + (if steps[0].duration > 0 then 1 else 0)
      decreases |steps| - timer.index, if closed then 0 else 1
    {
      NextEffect(steps, timer.State());
      closed := timer.PressPrimary();
      presses := presses + 1;
      if !closed {
        TotalDurationPrefix(steps, timer.index);
        var ticks := RunOut(timer);
        seconds := seconds + ticks;
      }
    }
    assert steps[..timer.index + 1] == steps;
  }
}
