/** The integration tests' expectations, replayed against the model. The
    user-to-segment fixture of the mock segment service (user 1 is "p1",
    user 2 is "p2", user 3 is "p3", any other user fails) is applied by hand:
    each check passes the resolved segment. */
module Scenarios {
  import opened Offers
  import opened Registry
  import opened Engine

  /** The six offers registered before every test. */
  const Setup: seq<Offer> := [
    Offer(1, "FLATX", 10, ["p1"]),
    Offer(1, "FLATP", 20, ["p2"]),
    Offer(2, "FLATX", 50, ["p1"]),
    Offer(3, "FLATP", 15, ["p1", "p2"]),
    Offer(4, "FLATX", 100, ["p3"]),
    Offer(5, "FLATP", 25, ["p1", "p2", "p3"])
  ]

  /** Two offers for restaurant 6 and segment "p1", flat amount first. */
  const SameRestaurant: seq<Offer> := Setup + [Offer(6, "FLATX", 10, ["p1"]), Offer(6, "FLATP", 20, ["p1"])]

  /** Two offers for restaurant 7 and segment "p1", flat amount first. */
  const TypeOrder: seq<Offer> := Setup + [Offer(7, "FLATX", 50, ["p1"]), Offer(7, "FLATP", 40, ["p1"])]

  /** Flat-amount offers, clamping of small and negative carts. */
  lemma FlatAmountScenarios()
    ensures Apply(Setup, 200, 1, "p1") == 190
    ensures Apply(Setup, 200, 2, "p1") == 150
    ensures Apply(Setup, 0, 1, "p1") == 0
    ensures Apply(Setup, 5, 1, "p1") == 0
    ensures Apply(Setup, -100, 1, "p1") == 0
  {
    ApplyUsesFirstMatch(Setup, 200, 1, "p1", 0);
    ApplyUsesFirstMatch(Setup, 200, 2, "p1", 2);
    ApplyUsesFirstMatch(Setup, 0, 1, "p1", 0);
    ApplyUsesFirstMatch(Setup, 5, 1, "p1", 0);
    ApplyUsesFirstMatch(Setup, -100, 1, "p1", 0);
  }

  /** A 20% offer on several cart sizes. */
  lemma PercentScenarios()
    ensures Apply(Setup, 200, 1, "p2") == 160
    ensures Apply(Setup, 1000, 1, "p2") == 800
    ensures Apply(Setup, 1000000, 1, "p2") == 800000
  {
    ApplyUsesFirstMatch(Setup, 200, 1, "p2", 1);
    ApplyUsesFirstMatch(Setup, 1000, 1, "p2", 1);
    ApplyUsesFirstMatch(Setup, 1000000, 1, "p2", 1);
  }

  /** An offer listing "p1" and "p2" serves both segments. */
  lemma MultiSegmentScenarios()
    ensures Apply(Setup, 200, 3, "p1") == 170
    ensures Apply(Setup, 200, 3, "p2") == 170
  {
    assert IsFirstMatch(Setup, 3, "p1", 3);
    assert IsFirstMatch(Setup, 3, "p2", 3);
    ApplyUsesFirstMatch(Setup, 200, 3, "p1", 3);
    ApplyUsesFirstMatch(Setup, 200, 3, "p2", 3);
  }

  /** An offer listing every segment. */
  lemma AllSegmentsScenario()
    ensures Apply(Setup, 400, 5, "p1") == 300
  {
    assert IsFirstMatch(Setup, 5, "p1", 5);
    ApplyUsesFirstMatch(Setup, 400, 5, "p1", 5);
  }

  /** An unknown restaurant, and a user whose segment lookup failed. */
  lemma NoMatchScenarios()
    ensures Apply(Setup, 200, 10, "p1") == 200
    ensures Apply(Setup, 200, 1, "unknown") == 200
  {
  }

  /** Two offers for the same restaurant and segment: the one added first
      applies, whatever its rule. */
  lemma FirstAddedWins()
    ensures Apply(SameRestaurant, 200, 6, "p1") == 190
    ensures Apply(TypeOrder, 200, 7, "p1") == 150
  {
    ApplyUsesFirstMatch(SameRestaurant, 200, 6, "p1", 6);
    ApplyUsesFirstMatch(TypeOrder, 200, 7, "p1", 6);
  }

  /** Truncation of the percentage result: 33% off 100 leaves 67. */
  lemma TruncationScenarios()
    ensures Apply(Setup + [Offer(8, "FLATP", 33, ["p1"])], 100, 8, "p1") == 67
    ensures Apply(Setup + [Offer(25, "FLATP", 15, ["p1"])], 100, 25, "p1") == 85
  {
    ApplyUsesFirstMatch(Setup + [Offer(8, "FLATP", 33, ["p1"])], 100, 8, "p1", 6);
    ApplyUsesFirstMatch(Setup + [Offer(25, "FLATP", 15, ["p1"])], 100, 25, "p1", 6);
  }

  /** Ten offers registered in a loop, restaurants 50 to 59; restaurant 50
      gets a flat 60 off for "p3". */
  const Bulk: seq<Offer> := Setup + [
    Offer(50, "FLATX", 60, ["p3"]), Offer(51, "FLATP", 61, ["p1"]),
    Offer(52, "FLATX", 62, ["p2"]), Offer(53, "FLATP", 63, ["p3"]),
    Offer(54, "FLATX", 64, ["p1"]), Offer(55, "FLATP", 65, ["p2"]),
    Offer(56, "FLATX", 66, ["p3"]), Offer(57, "FLATP", 67, ["p1"]),
    Offer(58, "FLATX", 68, ["p2"]), Offer(59, "FLATP", 69, ["p3"])
  ]

  lemma BulkScenario()
    ensures Apply(Bulk, 200, 50, "p3") == 140
  {
    assert IsFirstMatch(Bulk, 50, "p3", 6);
    ApplyUsesFirstMatch(Bulk, 200, 50, "p3", 6);
  }

  /** Three offers for restaurant 150; each segment gets the first offer
      listing it. */
  const Complex: seq<Offer> := Setup + [
    Offer(150, "FLATX", 50, ["p1"]),
    Offer(150, "FLATP", 30, ["p2"]),
    Offer(150, "FLATP", 25, ["p1", "p2", "p3"])
  ]

  lemma ComplexScenario()
    ensures Apply(Complex, 300, 150, "p1") == 250
    ensures Apply(Complex, 300, 150, "p2") == 210
    ensures Apply(Complex, 300, 150, "p3") == 225
  {
    assert IsFirstMatch(Complex, 150, "p1", 6);
    assert IsFirstMatch(Complex, 150, "p2", 7);
    assert IsFirstMatch(Complex, 150, "p3", 8);
    ApplyUsesFirstMatch(Complex, 300, 150, "p1", 6);
    ApplyUsesFirstMatch(Complex, 300, 150, "p2", 7);
    ApplyUsesFirstMatch(Complex, 300, 150, "p3", 8);
  }

  /** The tests register the six setup offers again before every test, so
      the registry a test sees is the setup followed by whatever came after.
      The setup's answers survive all of it. */
  lemma SetupAnswersSurvive(more: seq<Offer>)
    ensures Apply(Setup + more, 200, 1, "p1") == 190
    ensures Apply(Setup + more, 200, 1, "p2") == 160
    ensures Apply(Setup + more, 200, 3, "p1") == 170
  {
    FlatAmountScenarios();
    PercentScenarios();
    MultiSegmentScenarios();
    AppendKeepsApply(Setup, more, 200, 1, "p1");
    AppendKeepsApply(Setup, more, 200, 1, "p2");
    AppendKeepsApply(Setup, more, 200, 3, "p1");
  }

  /** The tests share one registry that is never cleared. Once the
      offer-creation test has posted a flat 50 off for restaurant 10 and
      "p1", the "no applicable offer" expectation of 200 for restaurant 10
      no longer holds; it holds only on a registry without that offer, as
      `NoMatchScenarios` shows. */
  lemma SharedRegistryBreaksNoMatch()
    ensures Apply(Setup + [Offer(10, "FLATX", 50, ["p1"])], 200, 10, "p1") == 150
  {
    ApplyUsesFirstMatch(Setup + [Offer(10, "FLATX", 50, ["p1"])], 200, 10, "p1", 6);
  }
}
