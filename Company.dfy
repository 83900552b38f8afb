/** `Company`: a trimmed, non-empty name and an optional requirement tree. */
module Companies {
  import opened Wrappers
  import opened Text
  import opened Requirements

  /** `requirement == None` is a company without requirements. */
  datatype Company = Company(name: string, requirement: Option<Requirement>)

  const NameNullOrEmpty := "Company name cannot be null or empty"
  const PossessionsNull := "Possessions cannot be null"
  const NoRequirements := "No requirements"

  /** What the constructor guarantees: the name is non-empty and already trimmed, and a
      present requirement is a well-formed tree. */
  predicate WellFormed(c: Company) {
    && c.name != []
    && Trim(c.name) == c.name
    && (c.requirement.Some? ==> Valid(c.requirement.value))
  }

  /** The constructor with `validateName`: a null name, or one that is empty once trimmed,
      is refused; otherwise the name is stored trimmed and the requirement as given. */
  function NewCompany(name: Option<string>, requirement: Option<Requirement>): (r: Result<Company>)
    ensures r.Ok? <==> name.Some? && exists i :: 0 <= i < |name.value| && !IsTrimmable(name.value[i])
    ensures r.Err? ==> r.error == IllegalArgument(NameNullOrEmpty)
    ensures r.Ok? ==> r.value.name == Trim(name.value) && r.value.requirement == requirement
    ensures r.Ok? ==> (WellFormed(r.value) <==> (requirement.Some? ==> Valid(requirement.value)))
  {
    match name
    case None => Err(IllegalArgument(NameNullOrEmpty))
    case Some(s) =>
      if Trim(s) == [] then Err(IllegalArgument(NameNullOrEmpty))
      else
        TrimIdempotent(s);
        Ok(Company(Trim(s), requirement))
  }

  /** Whether a candidate holding `possessions` may work here. */
  predicate Eligible(c: Company, possessions: set<string>) {
    c.requirement.None? || SatisfiedBy(c.requirement.value, possessions)
  }

  /** `canWork`: a null set is refused first, even for a company without requirements; then
      a company without requirements accepts everyone and any other defers to its tree. */
  function CanWork(c: Company, possessions: Option<set<string>>): (r: Result<bool>)
    ensures possessions.None? ==> r == Err(IllegalArgument(PossessionsNull))
    ensures possessions.Some? && c.requirement.None? ==> r == Ok(true)
    ensures possessions.Some? && c.requirement.Some? ==> r == IsSatisfiedBy(c.requirement.value, possessions)
    ensures possessions.Some? ==> r == Ok(Eligible(c, possessions.value))
  {
    if possessions.None? then Err(IllegalArgument(PossessionsNull))
    else if c.requirement.None? then Ok(true)
    else IsSatisfiedBy(c.requirement.value, possessions)
  }

  /** `getRequirementDescription`: the tree's description, or "No requirements". */
  function RequirementDescription(c: Company): (d: string)
    ensures c.requirement.None? ==> d == NoRequirements
    ensures c.requirement.Some? ==> d == Description(c.requirement.value)
  {
    match c.requirement
    case None => NoRequirements
    case Some(req) => Description(req)
  }

  /** A company that requires something turns away a candidate who has nothing, while one
      without requirements takes them. */
  lemma EmptyHandedCandidate(c: Company)
    requires WellFormed(c)
    ensures CanWork(c, Some({})) == Ok(c.requirement.None?)
  {
    if c.requirement.Some? {
      NothingSatisfiesNoValid(c.requirement.value);
    }
  }

  /** Gaining possessions never costs a candidate a job. */
  lemma EligibilityMonotone(c: Company, p: set<string>, q: set<string>)
    requires p <= q
    requires CanWork(c, Some(p)) == Ok(true)
    ensures CanWork(c, Some(q)) == Ok(true)
  {
    if c.requirement.Some? {
      Monotone(c.requirement.value, p, q);
    }
  }

  /** The fallback text cannot be mistaken for the description of a real requirement: a
      leaf's item is lower-case and a node's description starts with a parenthesis. */
  lemma FallbackIsDistinct(c: Company)
    requires WellFormed(c)
    requires c.requirement.Some?
    ensures RequirementDescription(c) != NoRequirements
  {
    match c.requirement.value
    case Simple(item) =>
      assert !IsAsciiUpper(Normalize(item)[0]);
      assert IsAsciiUpper(NoRequirements[0]);
    case Composite(_, _) =>
      assert RequirementDescription(c)[0] == '(';
      assert NoRequirements[0] == 'N';
  }
}
