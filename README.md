# Brewing timer of the BlueBottle storefront, in Dafny

The storefront shows a coffee menu and a set of brewing guides. Opening a guide
starts an interactive timer, the `BrewingTimerModal` of `App.tsx`. It walks through
the guide's ordered steps, each with a countdown of a whole number of seconds; a
duration of 0 marks an instructional step with no countdown. This project models:

- **The timer modal**, which has three state cells: the step index, the seconds
  left and whether the countdown runs. It has four ways to change them: a second
  elapsing, the Start Timer / Pause toggle, Next Phase / Finish (`handleNext`) and
  reset.
  - Each change is modelled as one atomic transition: the handler, then one re-run
    of the countdown effect. While the timer runs with time left, the effect only
    re-arms the one-second interval. When the time left is 0, it switches the run
    off.
  - `TimerSpec` states this as pure functions over a `Session` value. It also has
    an input alphabet (a second, the main button, reset, close) and `Run` over
    input sequences.
  - `TimerModal.BrewingTimer` is the same controller as an object. Its fields are
    updated in place, and each method is proved equal to the matching `TimerSpec`
    function.
- **The clock face** `m:ss` (`Clock.Format`), with a parser and proofs that the
  two are inverse.
- **The static catalog** of `services/mockData.ts` and the record shapes of
  `types.ts` (`Catalog`), with well-formedness lemmas.
- **The timer run on the catalog** (`Brewing`): every guide opens a timer that
  shows "Next Phase" at "0:00", every guide can be brewed to the end, and the Pour
  Over scenario runs step by step.

Three points of the code's behaviour the model keeps as written:

- `handleNext` never moves the index past the last step. On the last step it
  calls `onClose`, and the parent unmounts the modal. So the "finished" index
  (`activeStepIndex >= steps.length`) is never reached. The model returns a
  "closed" flag and leaves the state unchanged.
- `handleNext` itself does not check that the countdown is at zero; only the
  rendering at App.tsx:248-267 does. `Next` models the handler as written, without
  a guard. `PressPrimary` models what the user can actually press.
- A 0-duration step entered by `handleNext` is first set running, and the effect
  then stops it at once. The model's `Next` therefore ends with
  `running == (duration > 0)`.

Modules: `Options` (an option type), `Catalog`, `Clock`, `TimerSpec`,
`TimerModal` and `Brewing`.

## Model

| member | source | states |
|---|---|---|
| `Catalog.EveryGuideHasSteps` | services/mockData.ts:62-115 | every brewing guide has at least one step, so the unguarded `guide.steps[0]` of App.tsx:154 is defined for every guide |
| `Catalog.EveryGuideStartsInstant` | services/mockData.ts:69-113 | every guide has at least two steps and its first step has duration 0 |
| `Catalog.EveryProfileInRange` | services/mockData.ts:4-60 | every product carries a flavour profile whose body, acidity and sweetness all lie in 1..5 |
| `Catalog.IdsAreDistinct` | services/mockData.ts:4-115 | product ids are pairwise distinct, and so are guide ids; both serve as list keys |
| `Catalog.PourOverDurations` | services/mockData.ts:69-74 | the Pour Over steps last 0, 45, 90 and 45 seconds, 180 in all |
| `TimerSpec.Init` | App.tsx:153-155 | the three initial state cells of the modal after the mount-time effect run; its properties are in `TimerSpec.InitEffect` |
| `TimerSpec.Settle` | App.tsx:160-170 | one run of the countdown effect on the state (re-arm while running with time left, otherwise stop at zero); its properties are in the `...Effect` lemmas |
| `TimerSpec.Tick` | App.tsx:160-170 | the interval's `prev - 1` update followed by the effect; its properties are in `TimerSpec.TickEffect` and `TimerSpec.CountDown` |
| `TimerSpec.Toggle` | App.tsx:250 | `setIsRunning(!isRunning)` followed by the effect; its properties are in `TimerSpec.ToggleEffect` |
| `TimerSpec.Next` | App.tsx:172-180 | `handleNext`: the three setters below the last step, `onClose` on it; its properties are in `TimerSpec.NextEffect` |
| `TimerSpec.Reset` | App.tsx:270 | the reset button's two setters followed by the effect; its properties are in `TimerSpec.ResetEffect` and `TimerSpec.ResetAfterTicks` |
| `TimerSpec.IsFinished` | App.tsx:158 | the `isFinished` flag that guards the effect's else-branch; `TimerSpec.ValidConsequences` proves it never holds for a valid state |
| `TimerSpec.Elapsed` | App.tsx:182 | the seconds already counted down, `activeStep.duration - timeLeft`; `TimerSpec.ValidConsequences` bounds it by 0..duration |
| `TimerSpec.Progress` | App.tsx:182 | the ring's percentage; its properties are in `TimerSpec.ProgressBounds` and `TimerSpec.ProgressMonotone` |
| `TimerSpec.Primary` | App.tsx:248-265 | which main button is rendered; its properties are in `TimerSpec.PrimaryEffect` |
| `TimerSpec.Label` | App.tsx:253-265 | the text of each main button ("Start Timer", "Pause", "Next Phase", "Finish"); used by `Brewing.FreshTimerShowsNextPhase` |
| `Clock.Decimal` | App.tsx:223 | `String(n)` of a whole number; its properties are in `Clock.DecimalIsNumeral` and `Clock.DecimalOfValue` |
| `Clock.PadStart` | App.tsx:223 | `padStart(width, fill)`; its property for the seconds is `Clock.PaddedSeconds` |
| `Clock.Format` | App.tsx:223 | the `m:ss` face; its properties are in `Clock.FormatDigits`, `Clock.ParseFormat`, `Clock.FormatParse` and `Clock.FormatInjective` |
| `Clock.Parse` | App.tsx:223 | has no counterpart in the source: an independent reader of faces, written as the inverse that `Clock.ParseFormat` and `Clock.FormatParse` relate to `Clock.Format`; it accepts only strings with a colon three places from the end |
| `Catalog.TotalDuration` | services/mockData.ts:69-74 | has no counterpart in the source: the sum of a guide's step durations, used by `Catalog.PourOverDurations` and `Brewing.BrewThrough` |
| `Clock.DecimalOfValue` | App.tsx:223 | `String` of the value of a canonical numeral gives the numeral back |
| `Clock.DecimalIsNumeral` | App.tsx:223 | `String(n)`, for the whole numbers it writes without exponent, is a canonical decimal numeral of value `n`, a single digit exactly when `n < 10` |
| `Clock.PaddedSeconds` | App.tsx:223 | for `sec < 60`, padding `String(sec)` to width 2 with '0' gives exactly the two digits of `sec` |
| `Clock.FaceDigits` | App.tsx:223 | the face of `m` minutes and `sec < 60` seconds is canonical minutes worth `m`, a colon, and two digits worth `sec` |
| `Clock.FormatDigits` | App.tsx:223 | the face of `t` is canonical minutes, ':' and exactly two digits of seconds; the seconds are worth `t % 60 < 60` and `minutes * 60 + seconds == t` |
| `Clock.ParseFormat` | App.tsx:223 | reading a face back gives the number of seconds it shows |
| `Clock.FormatParse` | App.tsx:223 | every string the reader accepts is the face of the number it reads, so the face is a bijection onto those strings |
| `Clock.FormatInjective` | App.tsx:223 | two different numbers of seconds (below 2^53, as a double holds them) never show the same face |
| `Clock.FaceExamples` | App.tsx:223 | 0, 45, 90 and 180 seconds show as "0:00", "0:45", "1:30" and "3:00" |
| `TimerSpec.InitEffect` | App.tsx:153-155 | opening a guide gives index 0, the first step's full duration, not running, and satisfies the invariant |
| `TimerSpec.TickEffect` | App.tsx:160-170 | a second changes only the time left, and only when running: it drops by exactly one and the run stops at zero; the index never advances; a stopped timer is unchanged; the invariant is kept |
| `TimerSpec.ToggleEffect` | App.tsx:248-250 | with time left, the toggle flips the run and nothing else; at zero, the effect turns the flip back, so nothing changes; the invariant is kept |
| `TimerSpec.NextEffect` | App.tsx:172-180 | below the last step: index + 1, the new step's full duration, running exactly when that duration is positive; on the last step: reports finished with the state unchanged; the invariant is kept |
| `TimerSpec.ResetEffect` | App.tsx:270 | reset restores the current step's full duration, stops the run and keeps the index; the invariant is kept |
| `TimerSpec.ValidConsequences` | App.tsx:157-158 | under the invariant `isFinished` is false, the elapsed time lies in 0..duration, and a 0-duration step is never running |
| `TimerSpec.PrimaryEffect` | App.tsx:248-266 | the main button is Next Phase or Finish exactly when the time left is 0, and Finish exactly on the last step; pressing Start Timer starts, Pause stops, Next Phase advances, and only Finish closes |
| `TimerSpec.ProgressBounds` | App.tsx:182 | progress is in [0, 100]: 0 for a step without countdown or at full duration, 100 when a countdown has run out |
| `TimerSpec.ProgressMonotone` | App.tsx:182 | a second never moves progress backwards and never changes the step |
| `TimerSpec.Apply` | App.tsx:160-270 | every input (a second, the main button, reset, close) keeps the invariant: index within the steps, time left in 0..duration, stopped at zero |
| `TimerSpec.Run` | App.tsx:160-270 | any sequence of inputs, up to the one that closes the modal, keeps the invariant |
| `TimerSpec.CountDown` | App.tsx:160-170 | from a running countdown with `timeLeft` seconds, `n <= timeLeft` seconds leave `timeLeft - n` on the same step, still running exactly when time is left |
| `TimerSpec.ResetAfterTicks` | App.tsx:270 | a reset after any number of seconds gives the same state as a reset right away |
| `TimerSpec.RunSeconds` | App.tsx:160-170 | letting a just-started countdown of `d` seconds run for `d` seconds ends at 0, stopped, on the same step, with the modal open |
| `TimerSpec.AdvanceAndRunOut` | App.tsx:172-180 | from a stopped step at zero, Next Phase and the new step's countdown lead to the next step, stopped at zero |
| `TimerSpec.RunPhases` | App.tsx:172-180 | advancing through every later step and letting each countdown run out reaches the last step at zero, with the modal still open |
| `TimerSpec.BrewGuide` | App.tsx:160-180 | for any non-empty guide: start the first countdown if it has one, advance through each step and let it run out; everything before the final press of Finish leaves the modal open on the last step, and that press closes it |
| `TimerModal.BrewingTimer.constructor` | App.tsx:152-155 | a new timer requires a non-empty step list and starts in the opening state, satisfying the invariant |
| `TimerModal.BrewingTimer.Settle` | App.tsx:160-170 | the countdown effect updates the fields exactly as `TimerSpec.Settle` does |
| `TimerModal.BrewingTimer.Tick` | App.tsx:160-170 | a second updates the fields exactly as `TimerSpec.Tick` does and keeps the invariant |
| `TimerModal.BrewingTimer.Toggle` | App.tsx:250 | the toggle updates the fields exactly as `TimerSpec.Toggle` does and keeps the invariant |
| `TimerModal.BrewingTimer.Next` | App.tsx:172-180 | `handleNext` updates the fields and the finished flag exactly as `TimerSpec.Next` does and keeps the invariant |
| `TimerModal.BrewingTimer.Reset` | App.tsx:270 | reset updates the fields exactly as `TimerSpec.Reset` does and keeps the invariant |
| `TimerModal.BrewingTimer.PressPrimary` | App.tsx:248-266 | the main button acts as the input `PressPrimary` of `TimerSpec.Apply`: a toggle while time is left, otherwise `handleNext` |
| `Brewing.FreshTimerShowsNextPhase` | App.tsx:248-265 | on every catalog guide, a freshly opened timer shows "0:00" and an empty ring, and its main button reads "Next Phase", not "Start Timer" |
| `Brewing.EveryGuideBrews` | services/mockData.ts:62-115 | every catalog guide brews to the end: following it closes the modal on its last step |
| `Brewing.PourOverBloom` | services/mockData.ts:71 | after the first Next Phase the 45-second bloom countdown runs by itself (App.tsx:174-176 sets it running), and 45 seconds later it is stopped at 0 on the same step with the modal open |
| `Brewing.PourOverScenario` | services/mockData.ts:69-74 | Next, 45 seconds, Next, 90 seconds, Next, 45 seconds, Next: only the last press closes the modal, and no state along the way runs a 0-duration step |
| `Brewing.PourOverFaces` | services/mockData.ts:66-74 | the Pour Over countdowns show "0:45" and "1:30" when they start, and its total of 180 seconds shows as its time label "3:00" |
| `Brewing.RunOut` | App.tsx:160-170 | ticking the object until its countdown is 0 takes exactly `timeLeft` seconds and leaves it stopped on the same step |
| `Brewing.BrewThrough` | App.tsx:160-180 | using the object to brew any guide takes one press per step plus a start press when the first step has a countdown, and counts down exactly the guide's total seconds |

## Data

The record types and catalog constants are values rather than functions; they map to the source as follows.

| declaration | source | what it holds |
|---|---|---|
| `Catalog.FlavorProfile` | types.ts:1-5 | three integer scores, documented as 1..5 |
| `Catalog.Product` | types.ts:7-17 | a menu entry; the optional `flavorProfile` is an `Option` |
| `Catalog.BrewingStep` | types.ts:19-23 | label, duration in whole seconds (`nat`) and instruction; the field `label` is named `stepLabel` |
| `Catalog.BrewingGuide` | types.ts:25-32 | a guide with its ordered steps |
| `Catalog.CoffeeMenu` | services/mockData.ts:4-60 | the five products, field for field |
| `Catalog.BrewingGuides` | services/mockData.ts:62-115 | the four guides, field for field |
| `Catalog.Categories` | services/mockData.ts:117 | the five category names |
| `TimerSpec.Session` | App.tsx:153-155 | the modal's three state cells: step index, seconds left, running |
| `TimerSpec.Control` | App.tsx:248-265 | the four forms of the main button |
| `TimerSpec.Input` | App.tsx:160-270 | the events the modal reacts to: a second, the main button, reset, close |

## Left out

- The radar chart (App.tsx:11-124): floating-point trigonometry and SVG markup.
- The stroke offset and circumference of the progress ring (App.tsx:183, 215) use floating-point π and are not modelled.
- `TimerSpec.Progress` is computed on exact reals. JavaScript's double rounding of the percentage is not modelled.
- The scheduling itself (`setInterval`/`clearInterval`) is modelled only through its effect on state: a second is an explicit `Second` input or `Tick` call. The guarantee that exactly one interval is live is not modelled.
- React's batching of the state setters is not modelled: each handler followed by the effect re-run is one atomic step.
- Unmounting is not modelled. When `handleNext` or the close button calls `onClose`, the model reports "closed" and `Run` ignores later inputs.
- The view routing, the toast, the `setTimeout` calls in `handleBack` and `showToast`, the hero carousel interval (App.tsx:360-365) and `window.scrollTo` (App.tsx:673-675) are presentational or browser I/O.
- Price rendering (`price/1000` at App.tsx:524, `toLocaleString` at App.tsx:612) is floating-point and locale-dependent, and so is left out. All JSX layout, animation and CSS is left out, and so is components/Button.tsx.
- Clock.Format: models the face exactly for t < 2^53; JavaScript's exponent notation for values of 10^21 and above, and the inexact `/` and `%` beyond 2^53, are not modelled (the largest catalog duration is 43200). `Clock.Decimal` likewise writes every whole number in plain digits.
- `Clock.Format` takes a `nat`. For negative input, JavaScript's truncating `%` would give another face. That case cannot arise, because the invariant keeps the time left non-negative.
- Step durations are typed `nat`, so "a non-negative whole number of seconds" is a typing fact: the catalog constants type-check.
- Flavour scores are `int`, so a fractional score is not representable. Their 1..5 range is proved by `Catalog.EveryProfileInRange`.
- `CATEGORIES` (services/mockData.ts:117) is encoded as a constant. No property is stated about it, because nothing in the core uses it.
