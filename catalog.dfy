/** The record shapes of types.ts and the static catalog of services/mockData.ts:
    the coffee menu and the brewing guides, as read-only constants. */
module Catalog {
  import opened Options

  /** Three flavour scores; types.ts documents each as lying in 1..5 but does not enforce it. */
  datatype FlavorProfile = FlavorProfile(body: int, acidity: int, sweetness: int)

  /** A product of the menu; `price` is in whole won. */
  datatype Product = Product(
    id: int,
    name: string,
    subTitle: string,
    price: int,
    image: string,
    description: string,
    tags: seq<string>,
    flavorProfile: Option<FlavorProfile>,
    notes: seq<string>)

  /** One phase of a guide; a duration of 0 is an instructional step with no countdown.
      The duration is a whole number of seconds, hence a `nat`. */
  datatype BrewingStep = BrewingStep(stepLabel: string, duration: nat, description: string)

  datatype BrewingGuide = BrewingGuide(
    id: int,
    title: string,
    time: string,
    temp: string,
    image: string,
    steps: seq<BrewingStep>)

  // ---------------------------------------------------------------- the menu

  const BellaDonovan := Product(1, "Bella Donovan", "Blend • Organic", 6000,
    "https://images.unsplash.com/photo-1514432324607-a09d9b4aefdd?auto=format&fit=crop&w=800&q=80",
    "Our most popular blend. A variation of the Moka-Java blend, it pairs a jammy and wild Ethiopian bean with an earthy Sumatra foundation.",
    ["Best Seller", "Blend"], Some(FlavorProfile(4, 2, 4)),
    ["Raspberry", "Chocolate", "Molasses"])

  const ThreeAfricas := Product(2, "Three Africas", "Single Origin • Radiant", 7500,
    "https://images.unsplash.com/photo-1610632380989-680fe40816c6?auto=format&fit=crop&w=800&q=80",
    "Three distinct African coffees converge in this radiant blend. Golden raisin and winey blueberry notes shine through.",
    ["Fruity", "Light Roast"], Some(FlavorProfile(3, 4, 3)),
    ["Golden Raisin", "Winey Blueberry", "Lemon Zest"])

  const HayesValley := Product(3, "Hayes Valley", "Espresso • Dark", 6500,
    "https://images.unsplash.com/photo-1514432324607-a09d9b4aefdd?auto=format&fit=crop&w=800&q=80",
    "Our darkest espresso. Baking chocolate, orange zest, and brown sugar notes make this the perfect base for a latte.",
    ["Espresso", "Bold"], Some(FlavorProfile(5, 1, 4)),
    ["Baking Chocolate", "Orange Zest", "Brown Sugar"])

  const NightLightDecaf := Product(4, "Night Light Decaf", "Decaf • Swiss Water", 6800,
    "https://images.unsplash.com/photo-1509042239860-f550ce710b93?auto=format&fit=crop&w=800&q=80",
    "A decaf that drinks like a regular. Creamy, delicious, and free of chemical solvents.",
    ["Decaf", "Evening"], Some(FlavorProfile(3, 2, 5)),
    ["Creme Brulee", "Vanilla", "Key Lime"])

  const GiantSteps := Product(5, "Giant Steps", "Blend • Dark", 6500,
    "https://images.unsplash.com/photo-1514066558159-fc8c737ef259?auto=format&fit=crop&w=800&q=80",
    "Rich, profound, and viscous. This blend stands up to cream and sugar with notes of cocoa and toasted marshmallow.",
    ["Bold", "Dark Roast"], Some(FlavorProfile(5, 1, 3)),
    ["Cocoa", "Toasted Marshmallow", "Graham Cracker"])

  const CoffeeMenu: seq<Product> := [BellaDonovan, ThreeAfricas, HayesValley, NightLightDecaf, GiantSteps]

  // ------------------------------------------------------------- the guides

  const PourOver := BrewingGuide(1, "Pour Over", "3:00", "93°C",
    "https://images.unsplash.com/photo-1544787219-7f47ccb76574?auto=format&fit=crop&w=600&q=80",
    [ BrewingStep("GRIND", 0, "30g coffee, medium-fine grind."),
      BrewingStep("BLOOM", 45, "Pour 60g water. Watch it rise."),
      BrewingStep("POUR", 90, "Pour slowly in circles to 350g."),
      BrewingStep("DRAW DOWN", 45, "Wait for the drip to finish.") ])

  const FrenchPress := BrewingGuide(2, "French Press", "4:00", "95°C",
    "https://images.unsplash.com/photo-1511920170033-f8396924c348?auto=format&fit=crop&w=800&q=80",
    [ BrewingStep("PREP", 0, "Coarse grind. Warm the vessel."),
      BrewingStep("POUR", 60, "Pour all water rapidly. Stir."),
      BrewingStep("STEEP", 180, "Place lid. Do not plunge yet."),
      BrewingStep("PLUNGE", 30, "Press down gently. Serve.") ])

  const Aeropress := BrewingGuide(3, "Aeropress", "1:30", "90°C",
    "https://images.unsplash.com/photo-1514432324607-a09d9b4aefdd?auto=format&fit=crop&w=800&q=80",
    [ BrewingStep("PREP", 0, "Insert filter & wet cap. Add coffee."),
      BrewingStep("POUR", 10, "Pour water to level 4. Stir 10s."),
      BrewingStep("PRESS", 30, "Insert plunger & press gently."),
      BrewingStep("DILUTE", 0, "Add water to taste if needed.") ])

  const ColdBrew := BrewingGuide(4, "Cold Brew", "12:00", "Cold",
    "https://images.unsplash.com/photo-1461023058943-07fcbe16d735?auto=format&fit=crop&w=800&q=80",
    [ BrewingStep("GRIND", 0, "Extra coarse grind. 1:8 ratio."),
      BrewingStep("COMBINE", 60, "Mix coffee & cold water."),
      BrewingStep("STEEP", 43200, "Fridge for 12-24 hours."),
      BrewingStep("FILTER", 120, "Strain through cheesecloth.") ])

  const BrewingGuides: seq<BrewingGuide> := [PourOver, FrenchPress, Aeropress, ColdBrew]

  const Categories: seq<string> := ["All", "Blend", "Single Origin", "Espresso", "Cold Brew"]

  // ------------------------------------------------------- well-formedness

  /** A score is on the documented 1..5 scale. */
  predicate ScoreInRange(x: int) { 1 <= x <= 5 }

  predicate ProfileInRange(p: FlavorProfile) {
    ScoreInRange(p.body) && ScoreInRange(p.acidity) && ScoreInRange(p.sweetness)
  }

  /** Ids are usable as list keys: no two entries share one. */
  predicate DistinctProductIds(ps: seq<Product>) {
    forall i, j :: 0 <= i < j < |ps| ==> ps[i].id != ps[j].id
  }

  predicate DistinctGuideIds(gs: seq<BrewingGuide>) {
    forall i, j :: 0 <= i < j < |gs| ==> gs[i].id != gs[j].id
  }

  /** A guide can open a timer: it has a first step to index. */
  predicate HasSteps(g: BrewingGuide) { |g.steps| > 0 }

  /** The sum of the step durations of a guide, in seconds. */
  function TotalDuration(steps: seq<BrewingStep>): nat {
    if steps == [] then 0 else TotalDuration(steps[..|steps| - 1]) + steps[|steps| - 1].duration
  }

  /** Extending a prefix of the steps by one step adds that step's duration. */
  lemma TotalDurationPrefix(steps: seq<BrewingStep>, k: nat)
    requires k < |steps|
    ensures TotalDuration(steps[..k + 1]) == TotalDuration(steps[..k]) + steps[k].duration
  {
    assert steps[..k + 1][..k] == steps[..k];
  }

  // ---------------------------------------------------------------- lemmas

  /** Every guide can open a timer: `guide.steps[0]` is always defined. */
  lemma EveryGuideHasSteps()
    ensures forall i :: 0 <= i < |BrewingGuides| ==> HasSteps(BrewingGuides[i])
  {
  }

  /** Every guide opens on an instructional step of duration 0, followed by at least one more step. */
  lemma EveryGuideStartsInstant()
    ensures forall i :: 0 <= i < |BrewingGuides| ==>
      |BrewingGuides[i].steps| >= 2 && BrewingGuides[i].steps[0].duration == 0
  {
  }

  /** Every product has a flavour profile, and all its scores lie in 1..5. */
  lemma EveryProfileInRange()
    ensures forall i :: 0 <= i < |CoffeeMenu| ==>
      CoffeeMenu[i].flavorProfile.Some? && ProfileInRange(CoffeeMenu[i].flavorProfile.value)
  {
  }

  /** Product ids and guide ids are pairwise distinct, so they are valid list keys. */
  lemma IdsAreDistinct()
    ensures DistinctProductIds(CoffeeMenu)
    ensures DistinctGuideIds(BrewingGuides)
  {
    assert forall i :: 0 <= i < |CoffeeMenu| ==> CoffeeMenu[i].id == i + 1;
    assert forall i :: 0 <= i < |BrewingGuides| ==> BrewingGuides[i].id == i + 1;
  }

  /** The Pour Over guide runs 0, 45, 90 and 45 seconds, three minutes in all. */
  lemma PourOverDurations()
    ensures |PourOver.steps| == 4
    ensures PourOver.steps[0].duration == 0 && PourOver.steps[1].duration == 45
    ensures PourOver.steps[2].duration == 90 && PourOver.steps[3].duration == 45
    ensures TotalDuration(PourOver.steps) == 180
  {
    var s := PourOver.steps;
    assert s[..0] == [];
    TotalDurationPrefix(s, 0);
    TotalDurationPrefix(s, 1);
    TotalDurationPrefix(s, 2);
    TotalDurationPrefix(s, 3);
    assert s[..4] == s;
  }
}
