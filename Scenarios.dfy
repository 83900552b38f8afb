/**
 * The companies of the unit-test fixture, and the verdicts the tests expect of them,
 * derived from the model.
 */
module Scenarios {
  import opened Wrappers
  import opened Text
  import opened Requirements
  import opened SimpleRequirements
  import opened CompositeRequirements
  import opened Companies
  import opened EligibilityService

  /** Company A: (apartment OR house) AND property insurance. */
  const CompanyA := Company("Company A", Some(
    Composite(And, [Composite(Or, [Simple("apartment"), Simple("house")]), Simple("property insurance")])))

  /** Company F: (scooter OR bike OR motorcycle) AND driving license AND motorcycle insurance. */
  const CompanyF := Company("Company F", Some(
    Composite(And, [
      Composite(Or, [Simple("scooter"), Simple("bike"), Simple("motorcycle")]),
      Simple("driving license"),
      Simple("motorcycle insurance")])))

  /** Company J: no requirements. */
  const CompanyJ := Company("Company J", None)

  /** Company K: a PayPal account, stored as the constructor normalizes it. */
  const CompanyK := Company("Company K", Some(Simple("paypal account")))

  const Fixture := [CompanyA, CompanyF, CompanyJ, CompanyK]

  /** The leaf of Company K is what the constructor makes of "PayPal account". */
  lemma PayPalLeafIsNormalized()
    ensures NewSimple(Some("PayPal account")) == Ok(Simple("paypal account"))
  {
    var s := "PayPal account";
    TrimOfTrimmed(s);
    assert Lower(s) == "paypal account";
  }

  /** Proof helper: a non-empty item already in normal form is stored unchanged by the
      leaf constructor. */
  lemma NormalLeafBuilt(item: string)
    requires item != [] && Normalize(item) == item
    ensures NewSimple(Some(item)) == Ok(Simple(item))
  {
    assert !IsTrimmable(item[0]);
  }

  /** Proof helper: the node constructor keeps two given children in order. */
  lemma PairBuilt(op: Op, x: Requirement, y: Requirement)
    ensures NewComposite(Some(op), Some([Some(x), Some(y)])) == Ok(Composite(op, [x, y]))
  {
    var given := [Some(x), Some(y)];
    assert seq(|given|, i requires 0 <= i < |given| => given[i].value) == [x, y];
  }

  /** Proof helper: the node constructor keeps three given children in order. */
  lemma TripleBuilt(op: Op, x: Requirement, y: Requirement, z: Requirement)
    ensures NewComposite(Some(op), Some([Some(x), Some(y), Some(z)])) == Ok(Composite(op, [x, y, z]))
  {
    var given := [Some(x), Some(y), Some(z)];
    assert seq(|given|, i requires 0 <= i < |given| => given[i].value) == [x, y, z];
  }

  /** Proof helper: a name with a kept character at both ends is stored unchanged by the
      company constructor. */
  lemma TrimmedNameBuilt(name: string, requirement: Option<Requirement>)
    requires name != [] && !IsTrimmable(name[0]) && !IsTrimmable(name[|name| - 1])
    ensures NewCompany(Some(name), requirement) == Ok(Company(name, requirement))
  {
    TrimOfTrimmed(name);
  }

  /** The constructors, called as the fixture calls them, build Company A: each leaf stores
      its item as given, each node keeps its children in order, and the company keeps its
      name and tree. */
  lemma CompanyABuilt()
    ensures NewSimple(Some("apartment")) == Ok(Simple("apartment"))
    ensures NewSimple(Some("house")) == Ok(Simple("house"))
    ensures NewSimple(Some("property insurance")) == Ok(Simple("property insurance"))
    ensures NewComposite(Some(Or), Some([Some(Simple("apartment")), Some(Simple("house"))]))
        == Ok(Composite(Or, [Simple("apartment"), Simple("house")]))
    ensures NewComposite(Some(And), Some([Some(Composite(Or, [Simple("apartment"), Simple("house")])),
                                          Some(Simple("property insurance"))]))
        == Ok(CompanyA.requirement.value)
    ensures NewCompany(Some("Company A"), CompanyA.requirement) == Ok(CompanyA)
  {
    NormalizeOfNormal("apartment");
    NormalLeafBuilt("apartment");
    HouseIsNormal();
    NormalLeafBuilt("house");
    PropertyInsuranceIsNormal();
    NormalLeafBuilt("property insurance");
    PairBuilt(Or, Simple("apartment"), Simple("house"));
    PairBuilt(And, Composite(Or, [Simple("apartment"), Simple("house")]), Simple("property insurance"));
    TrimmedNameBuilt("Company A", CompanyA.requirement);
  }

  /** The constructors, called as the fixture calls them, build Company F. */
  lemma CompanyFBuilt()
    ensures NewSimple(Some("scooter")) == Ok(Simple("scooter"))
    ensures NewSimple(Some("bike")) == Ok(Simple("bike"))
    ensures NewSimple(Some("motorcycle")) == Ok(Simple("motorcycle"))
    ensures NewSimple(Some("driving license")) == Ok(Simple("driving license"))
    ensures NewSimple(Some("motorcycle insurance")) == Ok(Simple("motorcycle insurance"))
    ensures NewComposite(Some(Or), Some([Some(Simple("scooter")), Some(Simple("bike")), Some(Simple("motorcycle"))]))
        == Ok(Composite(Or, [Simple("scooter"), Simple("bike"), Simple("motorcycle")]))
    ensures NewComposite(Some(And), Some([Some(Composite(Or, [Simple("scooter"), Simple("bike"), Simple("motorcycle")])),
                                          Some(Simple("driving license")),
                                          Some(Simple("motorcycle insurance"))]))
        == Ok(CompanyF.requirement.value)
    ensures NewCompany(Some("Company F"), CompanyF.requirement) == Ok(CompanyF)
  {
    NormalizeOfNormal("scooter");
    NormalLeafBuilt("scooter");
    BikeIsNormal();
    NormalLeafBuilt("bike");
    NormalizeOfNormal("motorcycle");
    NormalLeafBuilt("motorcycle");
    DrivingLicenseIsNormal();
    NormalLeafBuilt("driving license");
    MotorcycleInsuranceIsNormal();
    NormalLeafBuilt("motorcycle insurance");
    TripleBuilt(Or, Simple("scooter"), Simple("bike"), Simple("motorcycle"));
    TripleBuilt(And, Composite(Or, [Simple("scooter"), Simple("bike"), Simple("motorcycle")]),
                Simple("driving license"), Simple("motorcycle insurance"));
    TrimmedNameBuilt("Company F", CompanyF.requirement);
  }

  /** The constructors, called as the fixture calls them, build Companies J and K. */
  lemma CompaniesJAndKBuilt()
    ensures NewCompany(Some("Company J"), None) == Ok(CompanyJ)
    ensures NewSimple(Some("PayPal account")) == Ok(Simple("paypal account"))
    ensures NewCompany(Some("Company K"), Some(Simple("paypal account"))) == Ok(CompanyK)
  {
    TrimmedNameBuilt("Company J", None);
    PayPalLeafIsNormalized();
    TrimmedNameBuilt("Company K", Some(Simple("paypal account")));
  }

  /** Proof helper: a node over two children is described as the two descriptions around
      the operator, inside parentheses. */
  lemma PairDescription(op: Op, x: Requirement, y: Requirement)
    ensures Description(Composite(op, [x, y])) == "(" + Description(x) + " " + Symbol(op) + " " + Description(y) + ")"
  {
    var parts := Descriptions([x, y]);
    var sep := " " + Symbol(op) + " ";
    assert parts[1..] == [Description(y)];
    assert Join(parts, sep) == Description(x) + sep + Description(y);
  }

  /** Proof helper: an AND over an OR of two leaves and a third leaf, as Company A's tree
      is shaped, is described with the OR group nested inside the AND. */
  lemma NestedPairDescription(a: string, b: string, c: string)
    ensures Description(Composite(And, [Composite(Or, [Simple(a), Simple(b)]), Simple(c)]))
        == "((" + a + " OR " + b + ") AND " + c + ")"
  {
    var inner := Composite(Or, [Simple(a), Simple(b)]);
    PairDescription(Or, Simple(a), Simple(b));
    assert Description(inner) == "(" + a + " OR " + b + ")";
    PairDescription(And, inner, Simple(c));
  }

  /** Company A's requirement is described as the detailed evaluation shows it, with the
      OR group nested inside the AND. */
  lemma CompanyADescription()
    ensures RequirementDescription(CompanyA) == "((apartment OR house) AND property insurance)"
  {
    var tree := Composite(And, [Composite(Or, [Simple("apartment"), Simple("house")]), Simple("property insurance")]);
    calc {
      RequirementDescription(CompanyA);
      Description(tree);
      { NestedPairDescription("apartment", "house", "property insurance"); }
      "((" + "apartment" + " OR " + "house" + ") AND " + "property insurance" + ")";
      "((apartment OR house) AND property insurance)";
    }
  }

  /** A set whose every element is already in normal form is its own normalization. */
  lemma NormalSetIsFixed(possessions: set<string>)
    requires forall p :: p in possessions ==> Normalize(p) == p
    ensures NormalizedSet(possessions) == possessions
  {
  }

  /** A company's verdict read off the normalized possession set. */
  lemma EligibleByNormalizedSet(c: Company, possessions: set<string>, normalized: set<string>)
    requires NormalizedSet(possessions) == normalized
    ensures Eligible(c, possessions) == (c.requirement.None? || Holds(c.requirement.value, normalized))
  {
    if c.requirement.Some? {
      SatisfiedByAgreesWithHolds(c.requirement.value, possessions);
    }
  }

  /** An OR over two leaves holds when either item is present. */
  lemma EitherOfTwo(r: Requirement, a: string, b: string, n: set<string>)
    requires r == Composite(Or, [Simple(a), Simple(b)])
    ensures Holds(r, n) <==> a in n || b in n
  {
    assert r.children[0] == Simple(a);
    assert r.children[1] == Simple(b);
  }

  /** An OR over three leaves holds when one of the three items is present. */
  lemma OneOfThree(r: Requirement, a: string, b: string, c: string, n: set<string>)
    requires r == Composite(Or, [Simple(a), Simple(b), Simple(c)])
    ensures Holds(r, n) <==> a in n || b in n || c in n
  {
    assert r.children[0] == Simple(a);
    assert r.children[1] == Simple(b);
    assert r.children[2] == Simple(c);
  }

  /** An AND over a node and a leaf holds when both do. */
  lemma NodeAndLeaf(r: Requirement, x: Requirement, b: string, n: set<string>)
    requires r == Composite(And, [x, Simple(b)])
    ensures Holds(r, n) <==> Holds(x, n) && b in n
  {
    assert r.children[0] == x;
    assert r.children[1] == Simple(b);
  }

  /** An AND over a node and two leaves holds when all three do. */
  lemma NodeAndTwoLeaves(r: Requirement, x: Requirement, b: string, c: string, n: set<string>)
    requires r == Composite(And, [x, Simple(b), Simple(c)])
    ensures Holds(r, n) <==> Holds(x, n) && b in n && c in n
  {
    assert r.children[0] == x;
    assert r.children[1] == Simple(b);
    assert r.children[2] == Simple(c);
  }

  /** Company A asks for an apartment or a house, and property insurance. */
  lemma CompanyAAsks(possessions: set<string>, n: set<string>)
    requires NormalizedSet(possessions) == n
    ensures Eligible(CompanyA, possessions) <==> ("apartment" in n || "house" in n) && "property insurance" in n
  {
    EligibleByNormalizedSet(CompanyA, possessions, n);
    var a := CompanyA.requirement.value;
    EitherOfTwo(a.children[0], "apartment", "house", n);
    NodeAndLeaf(a, a.children[0], "property insurance", n);
  }

  /** Company F asks for a scooter, a bike or a motorcycle, a driving license and
      motorcycle insurance. */
  lemma CompanyFAsks(possessions: set<string>, n: set<string>)
    requires NormalizedSet(possessions) == n
    ensures Eligible(CompanyF, possessions)
        <==> ("scooter" in n || "bike" in n || "motorcycle" in n) && "driving license" in n && "motorcycle insurance" in n
  {
    EligibleByNormalizedSet(CompanyF, possessions, n);
    var f := CompanyF.requirement.value;
    OneOfThree(f.children[0], "scooter", "bike", "motorcycle", n);
    NodeAndTwoLeaves(f, f.children[0], "driving license", "motorcycle insurance", n);
  }

  /** Company J takes everyone; Company K asks for a PayPal account. */
  lemma CompaniesJAndKAsk(possessions: set<string>, n: set<string>)
    requires NormalizedSet(possessions) == n
    ensures Eligible(CompanyJ, possessions)
    ensures Eligible(CompanyK, possessions) <==> "paypal account" in n
  {
    EligibleByNormalizedSet(CompanyK, possessions, n);
  }

  /** Proof helper: a set of two strings in normal form is its own normalization. */
  lemma NormalPair(p: set<string>, a: string, b: string)
    requires p == {a, b}
    requires Normalize(a) == a && Normalize(b) == b
    ensures NormalizedSet(p) == p
  {
    NormalSetIsFixed(p);
  }

  lemma BikeIsNormal()
    ensures Normalize("bike") == "bike"
  {
    NormalizeOfNormal("bike");
  }

  lemma DrivingLicenseIsNormal()
    ensures Normalize("driving license") == "driving license"
  {
    NormalizeOfNormal("driving license");
  }

  lemma MotorcycleInsuranceIsNormal()
    ensures Normalize("motorcycle insurance") == "motorcycle insurance"
  {
    NormalizeOfNormal("motorcycle insurance");
  }

  lemma HouseIsNormal()
    ensures Normalize("house") == "house"
  {
    NormalizeOfNormal("house");
  }

  lemma PropertyInsuranceIsNormal()
    ensures Normalize("property insurance") == "property insurance"
  {
    NormalizeOfNormal("property insurance");
  }

  /** A string with no trimmable character at either end normalizes to its lower case. */
  lemma NormalizeOfTrimmed(s: string, t: string)
    requires s != [] && !IsTrimmable(s[0]) && !IsTrimmable(s[|s| - 1])
    requires Lower(s) == t
    ensures Normalize(s) == t
  {
    TrimOfTrimmed(s);
  }

  lemma ShoutedBike()
    ensures Normalize("BIKE") == "bike"
  {
    NormalizeOfTrimmed("BIKE", "bike");
  }

  lemma ShoutedDrivingLicense()
    ensures Normalize("DRIVING LICENSE") == "driving license"
  {
    NormalizeOfTrimmed("DRIVING LICENSE", "driving license");
  }

  lemma ShoutedMotorcycleInsurance()
    ensures Normalize("MOTORCYCLE INSURANCE") == "motorcycle insurance"
  {
    NormalizeOfTrimmed("MOTORCYCLE INSURANCE", "motorcycle insurance");
  }

  /** Proof helper: membership facts about the literal set of a bike and a driving
      license, kept apart so that the scenario below reasons about names only. */
  lemma BikeAndLicenseLacks(p: set<string>)
    requires p == {"bike", "driving license"}
    ensures "bike" in p && "driving license" in p
    ensures "paypal account" !in p && "property insurance" !in p && "motorcycle insurance" !in p
  {
  }

  /** With a bike and a driving license, only Company J (no requirements) is open: Company F
      still lacks motorcycle insurance, A property insurance and K a PayPal account. */
  lemma VerdictsWithBikeAndLicense(p: set<string>)
    requires p == {"bike", "driving license"}
    ensures Eligible(CompanyJ, p)
    ensures !Eligible(CompanyF, p)
    ensures !Eligible(CompanyA, p)
    ensures !Eligible(CompanyK, p)
  {
    BikeIsNormal();
    DrivingLicenseIsNormal();
    NormalPair(p, "bike", "driving license");
    BikeAndLicenseLacks(p);
    CompanyAAsks(p, p);
    CompanyFAsks(p, p);
    CompaniesJAndKAsk(p, p);
  }

  /** Filtering a list that starts with `x` keeps `x` when its verdict is the wanted one,
      then filters the rest. */
  lemma FilterCons(xs: seq<Company>, x: Company, cs: seq<Company>, p: set<string>, want: bool)
    requires xs == [x] + cs
    ensures Filter(xs, p, want) == (if Eligible(x, p) == want then [x] else []) + Filter(cs, p, want)
  {
    assert xs[1..] == cs;
  }

  /** The names of the fixture, all different. */
  lemma FixtureNames()
    ensures DistinctNames(Fixture)
    ensures Names(Fixture) == {"Company A", "Company F", "Company J", "Company K"}
  {
    assert Fixture[0].name == "Company A" && Fixture[1].name == "Company F";
    assert Fixture[2].name == "Company J" && Fixture[3].name == "Company K";
  }

  /** When the verdicts are those of a bike and a driving license, the service lists
      Company J alone as eligible. */
  lemma FixtureEligibleFromVerdicts(p: set<string>)
    requires Eligible(CompanyJ, p) && !Eligible(CompanyF, p) && !Eligible(CompanyA, p) && !Eligible(CompanyK, p)
    ensures GetEligibleCompanies(Some(Fixture), Some(p)) == Ok([CompanyJ])
  {
    var s3 := [CompanyK];
    var s2 := [CompanyJ] + s3;
    var s1 := [CompanyF] + s2;
    calc {
      Filter(Fixture, p, true);
      { FilterCons(Fixture, CompanyA, s1, p, true); }
      Filter(s1, p, true);
      { FilterCons(s1, CompanyF, s2, p, true); }
      Filter(s2, p, true);
      { FilterCons(s2, CompanyJ, s3, p, true); }
      [CompanyJ] + Filter(s3, p, true);
      { FilterCons(s3, CompanyK, [], p, true); }
      [CompanyJ] + Filter([], p, true);
      [CompanyJ];
    }
  }

  /** ... and the other three, in fixture order, as ineligible. */
  lemma FixtureIneligibleFromVerdicts(p: set<string>)
    requires Eligible(CompanyJ, p) && !Eligible(CompanyF, p) && !Eligible(CompanyA, p) && !Eligible(CompanyK, p)
    ensures GetIneligibleCompanies(Some(Fixture), Some(p)) == Ok([CompanyA, CompanyF, CompanyK])
  {
    var s3 := [CompanyK];
    var s2 := [CompanyJ] + s3;
    var s1 := [CompanyF] + s2;
    calc {
      Filter(Fixture, p, false);
      { FilterCons(Fixture, CompanyA, s1, p, false); }
      [CompanyA] + Filter(s1, p, false);
      { FilterCons(s1, CompanyF, s2, p, false); }
      [CompanyA] + ([CompanyF] + Filter(s2, p, false));
      { FilterCons(s2, CompanyJ, s3, p, false); }
      [CompanyA] + ([CompanyF] + Filter(s3, p, false));
      { FilterCons(s3, CompanyK, [], p, false); }
      [CompanyA] + ([CompanyF] + ([CompanyK] + Filter([], p, false)));
      [CompanyA, CompanyF, CompanyK];
    }
  }

  /** The same verdicts, collected by name. */
  lemma FixtureMapFromVerdicts(p: set<string>)
    requires Eligible(CompanyJ, p) && !Eligible(CompanyF, p) && !Eligible(CompanyA, p) && !Eligible(CompanyK, p)
    ensures DistinctNames(Fixture)
    ensures
      var m := EvaluateEligibility(Some(Fixture), Some(p));
      && m.Ok? && m.value.Keys == {"Company A", "Company F", "Company J", "Company K"}
      && m.value["Company J"] && !m.value["Company F"] && !m.value["Company A"] && !m.value["Company K"]
  {
    FixtureNames();
    var m := EvaluateEligibility(Some(Fixture), Some(p));
    assert CanWork(Fixture[0], Some(p)) == Ok(m.value[Fixture[0].name]);
    assert CanWork(Fixture[1], Some(p)) == Ok(m.value[Fixture[1].name]);
    assert CanWork(Fixture[2], Some(p)) == Ok(m.value[Fixture[2].name]);
    assert CanWork(Fixture[3], Some(p)) == Ok(m.value[Fixture[3].name]);
  }

  /** The fixture evaluated with a bike and a driving license: four named verdicts, one
      eligible company and three ineligible ones. */
  lemma FixtureWithBikeAndLicense(p: set<string>)
    requires p == {"bike", "driving license"}
    ensures DistinctNames(Fixture)
    ensures
      var m := EvaluateEligibility(Some(Fixture), Some(p));
      && m.Ok? && m.value.Keys == {"Company A", "Company F", "Company J", "Company K"}
      && m.value["Company J"] && !m.value["Company F"] && !m.value["Company A"] && !m.value["Company K"]
    ensures GetEligibleCompanies(Some(Fixture), Some(p)) == Ok([CompanyJ])
    ensures GetIneligibleCompanies(Some(Fixture), Some(p)) == Ok([CompanyA, CompanyF, CompanyK])
  {
    VerdictsWithBikeAndLicense(p);
    FixtureEligibleFromVerdicts(p);
    FixtureIneligibleFromVerdicts(p);
    FixtureMapFromVerdicts(p);
  }

  /** With nothing at all, only Company J is open. */
  lemma FixtureWithNothing(p: set<string>)
    requires p == {}
    ensures
      var m := EvaluateEligibility(Some(Fixture), Some(p));
      && m.Ok? && m.value["Company J"] && !m.value["Company F"] && !m.value["Company A"] && !m.value["Company K"]
  {
    assert NormalizedSet(p) == {};
    CompanyAAsks(p, {});
    CompanyFAsks(p, {});
    CompaniesJAndKAsk(p, {});
    FixtureMapFromVerdicts(p);
  }

  /** Proof helper: membership facts about the two literal sets of the insurance
      scenario. */
  lemma WithInsuranceHas(p: set<string>, shouted: set<string>)
    requires p == {"bike", "driving license", "motorcycle insurance"}
    requires shouted == {"BIKE", "DRIVING LICENSE", "MOTORCYCLE INSURANCE"}
    ensures "bike" in p && "driving license" in p && "motorcycle insurance" in p
    ensures "BIKE" in shouted && "DRIVING LICENSE" in shouted && "MOTORCYCLE INSURANCE" in shouted
  {
  }

  /** Adding motorcycle insurance opens Company F, whatever the case it is written in. */
  lemma CompanyFWithInsurance(p: set<string>, shouted: set<string>)
    requires p == {"bike", "driving license", "motorcycle insurance"}
    requires shouted == {"BIKE", "DRIVING LICENSE", "MOTORCYCLE INSURANCE"}
    ensures Eligible(CompanyF, p)
    ensures Eligible(CompanyF, shouted)
  {
    WithInsuranceHas(p, shouted);
    BikeIsNormal();
    DrivingLicenseIsNormal();
    MotorcycleInsuranceIsNormal();
    CompanyFAsks(p, NormalizedSet(p));
    ShoutedBike();
    ShoutedDrivingLicense();
    ShoutedMotorcycleInsurance();
    CompanyFAsks(shouted, NormalizedSet(shouted));
  }

  /** Proof helper: membership facts about the two literal sets of the house scenario. */
  lemma HouseMembership(p: set<string>, q: set<string>)
    requires p == {"house"}
    requires q == {"house", "property insurance"}
    ensures "property insurance" !in p
    ensures "house" in q && "property insurance" in q
  {
  }

  /** Company A with a house alone is closed; with property insurance as well it is open. */
  lemma CompanyAWithHouse(p: set<string>, q: set<string>)
    requires p == {"house"}
    requires q == {"house", "property insurance"}
    ensures !Eligible(CompanyA, p)
    ensures Eligible(CompanyA, q)
  {
    HouseIsNormal();
    PropertyInsuranceIsNormal();
    NormalPair(p, "house", "house");
    NormalPair(q, "house", "property insurance");
    HouseMembership(p, q);
    CompanyAAsks(p, p);
    CompanyAAsks(q, q);
  }

  /** Company J's description is the fallback text, and a null list is refused. */
  lemma FallbackAndNullList()
    ensures RequirementDescription(CompanyJ) == "No requirements"
    ensures EvaluateEligibility(None, Some({"bike"})) == Err(IllegalArgument("Companies list cannot be null"))
    ensures EvaluateEligibility(Some(Fixture), None) == Err(IllegalArgument("Possessions set cannot be null"))
  {
  }
}
