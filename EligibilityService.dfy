/**
 * `JobEligibilityService`: stateless folds over a list of companies that evaluate each
 * one against the same possession set and collect the verdicts by name or as lists.
 */
module EligibilityService {
  import opened Wrappers
  import opened Requirements
  import opened Companies

  /** `EligibilityResult`: a verdict together with the requirement it was reached on. */
  datatype EligibilityResult = EligibilityResult(eligible: bool, requirementDescription: string)

  const CompaniesNull := "Companies list cannot be null"
  const PossessionsNull := "Possessions set cannot be null"

  /** `validateInput`: the list is checked before the set; `None` means both are present. */
  function ValidateInput(companies: Option<seq<Company>>, possessions: Option<set<string>>): (e: Option<Exception>)
    ensures e.None? <==> companies.Some? && possessions.Some?
    ensures companies.None? ==> e == Some(IllegalArgument(CompaniesNull))
    ensures companies.Some? && possessions.None? ==> e == Some(IllegalArgument(PossessionsNull))
  {
    if companies.None? then Some(IllegalArgument(CompaniesNull))
    else if possessions.None? then Some(IllegalArgument(PossessionsNull))
    else None
  }

  function Names(cs: seq<Company>): set<string> {
    set c | c in cs :: c.name
  }

  /** No two companies of the list share a name. */
  predicate DistinctNames(cs: seq<Company>) {
    forall i, j :: 0 <= i < j < |cs| ==> cs[i].name != cs[j].name
  }

  /** `cs[j]` is the first company whose name repeats that of an earlier one. */
  predicate FirstRepeatAt(cs: seq<Company>, j: int) {
    && 0 <= j < |cs|
    && DistinctNames(cs[..j])
    && exists i :: 0 <= i < j && cs[i].name == cs[j].name
  }

  /** `collect(Collectors.toMap(Company::getName, value))`, which has no merge function:
      one entry per company, keyed by its name, or, when a name repeats, the exception
      thrown on reaching its first repetition. */
  function CollectByName<V>(cs: seq<Company>, value: Company -> V): (r: Result<map<string, V>>)
    ensures r.Ok? <==> DistinctNames(cs)
    ensures r.Ok? ==> r.value.Keys == Names(cs)
    ensures r.Ok? ==> forall i :: 0 <= i < |cs| ==> r.value[cs[i].name] == value(cs[i])
    ensures r.Err? ==> exists j :: FirstRepeatAt(cs, j) && r.error == DuplicateKey(cs[j].name)
  {
    if cs == [] then Ok(map[])
    else
      var last := cs[|cs| - 1];
      match CollectByName(cs[..|cs| - 1], value)
      case Err(e) =>
        var j :| FirstRepeatAt(cs[..|cs| - 1], j) && e == DuplicateKey(cs[..|cs| - 1][j].name);
        RepeatInPrefix(cs, j);
        Err(e)
      case Ok(m) =>
        if last.name in m then
          RepeatOfLast(cs);
          Err(DuplicateKey(last.name))
        else
          assert cs == cs[..|cs| - 1] + [last];
          CollectNewName(cs[..|cs| - 1], last, m, value);
          Ok(m[last.name := value(last)])
  }

  /** The first repetition of a list without its last company is the first of the list. */
  lemma RepeatInPrefix(cs: seq<Company>, j: int)
    requires cs != [] && FirstRepeatAt(cs[..|cs| - 1], j)
    ensures FirstRepeatAt(cs, j) && !DistinctNames(cs)
    ensures cs[j] == cs[..|cs| - 1][j]
  {
    var init := cs[..|cs| - 1];
    assert cs[..j] == init[..j];
    var i :| 0 <= i < j && init[i].name == init[j].name;
    assert cs[i] == init[i] && cs[j] == init[j];
  }

  /** When the companies before the last have distinct names and one of them has the last
      one's name, the last company is the first repetition. */
  lemma RepeatOfLast(cs: seq<Company>)
    requires cs != [] && DistinctNames(cs[..|cs| - 1])
    requires cs[|cs| - 1].name in Names(cs[..|cs| - 1])
    ensures FirstRepeatAt(cs, |cs| - 1) && !DistinctNames(cs)
  {
    var init := cs[..|cs| - 1];
    var c :| c in init && c.name == cs[|cs| - 1].name;
    var i :| 0 <= i < |init| && init[i] == c;
    assert cs[i] == c;
  }

  /** Adding the entry of a company with a new name to the map collected from the ones
      before it gives the map of the whole list. */
  lemma CollectNewName<V>(init: seq<Company>, last: Company, m: map<string, V>, value: Company -> V)
    requires DistinctNames(init)
    requires m.Keys == Names(init)
    requires forall i :: 0 <= i < |init| ==> m[init[i].name] == value(init[i])
    requires last.name !in m
    ensures DistinctNames(init + [last])
    ensures m[last.name := value(last)].Keys == Names(init + [last])
    ensures forall i :: 0 <= i < |init| + 1 ==> m[last.name := value(last)][(init + [last])[i].name] == value((init + [last])[i])
  {
    var cs := init + [last];
    forall i | 0 <= i < |init| ensures cs[i] == init[i] && cs[i].name != last.name {
      assert init[i] in init;
    }
  }

  /** The first repetition is unique: a list has at most one. */
  lemma FirstRepeatUnique(cs: seq<Company>, j: int, k: int)
    requires FirstRepeatAt(cs, j) && FirstRepeatAt(cs, k)
    ensures j == k
  {
  }

  /** `xs` is `ys` with some elements left out and the rest in their order. */
  predicate IsSubsequence<T(==)>(xs: seq<T>, ys: seq<T>)
    decreases |ys|
  {
    || xs == []
    || (&& ys != []
        && ((xs[0] == ys[0] && IsSubsequence(xs[1..], ys[1..])) || IsSubsequence(xs, ys[1..])))
  }

  /** `filter(c -> canWork(c, possessions))`, or its negation, then
      `collect(Collectors.toList())`: the companies whose verdict is `want`, in order. */
  function Filter(cs: seq<Company>, possessions: set<string>, want: bool): seq<Company> {
    if cs == [] then []
    else if Eligible(cs[0], possessions) == want then [cs[0]] + Filter(cs[1..], possessions, want)
    else Filter(cs[1..], possessions, want)
  }

  /** A company is kept exactly when it is in the list and its verdict is `want`, every
      copy of it is kept, and the kept ones are a subsequence of the list. */
  lemma {:induction false} FilterKeeps(cs: seq<Company>, possessions: set<string>, want: bool)
    ensures forall c :: c in Filter(cs, possessions, want) <==> c in cs && Eligible(c, possessions) == want
    ensures forall c ::
      multiset(Filter(cs, possessions, want))[c] == if Eligible(c, possessions) == want then multiset(cs)[c] else 0
    ensures IsSubsequence(Filter(cs, possessions, want), cs)
  {
    if cs != [] {
      FilterKeeps(cs[1..], possessions, want);
      assert cs == [cs[0]] + cs[1..];
    }
  }

  /** `evaluateEligibility`: after validation, each company's name mapped to its verdict,
      exactly as `canWork` would give it; a repeated name makes the collection throw. */
  function EvaluateEligibility(companies: Option<seq<Company>>, possessions: Option<set<string>>)
    : (r: Result<map<string, bool>>)
    ensures ValidateInput(companies, possessions).Some? ==> r == Err(ValidateInput(companies, possessions).value)
    ensures ValidateInput(companies, possessions).None? ==> (r.Ok? <==> DistinctNames(companies.value))
    ensures ValidateInput(companies, possessions).None? && r.Err? ==>
        exists j :: FirstRepeatAt(companies.value, j) && r.error == DuplicateKey(companies.value[j].name)
    ensures r.Ok? ==> r.value.Keys == Names(companies.value)
    ensures r.Ok? ==> forall i :: 0 <= i < |companies.value| ==>
        CanWork(companies.value[i], possessions) == Ok(r.value[companies.value[i].name])
  {
    match ValidateInput(companies, possessions)
    case Some(e) => Err(e)
    case None =>
      var p := possessions.value;
      CollectByName(companies.value, c => Eligible(c, p))
  }

  /** `getEligibleCompanies`: the companies whose `canWork` holds, in list order. */
  function GetEligibleCompanies(companies: Option<seq<Company>>, possessions: Option<set<string>>)
    : (r: Result<seq<Company>>)
    ensures r.Err? <==> ValidateInput(companies, possessions).Some?
    ensures r.Err? ==> Some(r.error) == ValidateInput(companies, possessions)
    ensures r.Ok? ==> IsSubsequence(r.value, companies.value)
    ensures r.Ok? ==> forall c :: c in r.value <==> c in companies.value && CanWork(c, possessions) == Ok(true)
    ensures r.Ok? ==> forall c ::
      multiset(r.value)[c] == if CanWork(c, possessions) == Ok(true) then multiset(companies.value)[c] else 0
  {
    match ValidateInput(companies, possessions)
    case Some(e) => Err(e)
    case None =>
      var p := possessions.value;
      FilterKeeps(companies.value, p, true);
      Ok(Filter(companies.value, p, true))
  }

  /** `getIneligibleCompanies`: the companies whose `canWork` fails, in list order. */
  function GetIneligibleCompanies(companies: Option<seq<Company>>, possessions: Option<set<string>>)
    : (r: Result<seq<Company>>)
    ensures r.Err? <==> ValidateInput(companies, possessions).Some?
    ensures r.Err? ==> Some(r.error) == ValidateInput(companies, possessions)
    ensures r.Ok? ==> IsSubsequence(r.value, companies.value)
    ensures r.Ok? ==> forall c :: c in r.value <==> c in companies.value && CanWork(c, possessions) == Ok(false)
    ensures r.Ok? ==> forall c ::
      multiset(r.value)[c] == if CanWork(c, possessions) == Ok(false) then multiset(companies.value)[c] else 0
  {
    match ValidateInput(companies, possessions)
    case Some(e) => Err(e)
    case None =>
      var p := possessions.value;
      FilterKeeps(companies.value, p, false);
      Ok(Filter(companies.value, p, false))
  }

  /** `getDetailedEligibility`: each company's name mapped to its verdict and the
      description of what it requires; a repeated name makes the collection throw. */
  function GetDetailedEligibility(companies: Option<seq<Company>>, possessions: Option<set<string>>)
    : (r: Result<map<string, EligibilityResult>>)
    ensures ValidateInput(companies, possessions).Some? ==> r == Err(ValidateInput(companies, possessions).value)
    ensures ValidateInput(companies, possessions).None? ==> (r.Ok? <==> DistinctNames(companies.value))
    ensures ValidateInput(companies, possessions).None? && r.Err? ==>
        exists j :: FirstRepeatAt(companies.value, j) && r.error == DuplicateKey(companies.value[j].name)
    ensures r.Ok? ==> r.value.Keys == Names(companies.value)
    ensures r.Ok? ==> forall i :: 0 <= i < |companies.value| ==>
        var c := companies.value[i];
        && CanWork(c, possessions) == Ok(r.value[c.name].eligible)
        && r.value[c.name].requirementDescription == RequirementDescription(c)
  {
    match ValidateInput(companies, possessions)
    case Some(e) => Err(e)
    case None =>
      var p := possessions.value;
      CollectByName(companies.value, c => EligibilityResult(Eligible(c, p), RequirementDescription(c)))
  }

  /** Filtering for either verdict splits a list: together the two parts hold every
      element exactly as often as the list does. */
  lemma {:induction false} FilterSplits(cs: seq<Company>, possessions: set<string>)
    ensures |Filter(cs, possessions, true)| + |Filter(cs, possessions, false)| == |cs|
    ensures multiset(Filter(cs, possessions, true)) + multiset(Filter(cs, possessions, false)) == multiset(cs)
  {
    if cs != [] {
      FilterSplits(cs[1..], possessions);
      assert cs == [cs[0]] + cs[1..];
    }
  }

  /** The eligible and the ineligible lists partition the input: no company is in both, and
      between them they hold every company of the list, as many times as it occurs. */
  lemma EligibleAndIneligiblePartition(companies: seq<Company>, possessions: set<string>)
    ensures GetEligibleCompanies(Some(companies), Some(possessions)).Ok?
    ensures GetIneligibleCompanies(Some(companies), Some(possessions)).Ok?
    ensures
      var yes := GetEligibleCompanies(Some(companies), Some(possessions)).value;
      var no := GetIneligibleCompanies(Some(companies), Some(possessions)).value;
      && |yes| + |no| == |companies|
      && multiset(yes) + multiset(no) == multiset(companies)
      && (forall c :: !(c in yes && c in no))
  {
    FilterSplits(companies, possessions);
    FilterKeeps(companies, possessions, true);
    FilterKeeps(companies, possessions, false);
  }

  /** The plain and the detailed evaluations agree: both fail on the same repeated name,
      or both succeed with the same names and the same verdict for each. */
  lemma DetailedAgreesWithPlain(companies: seq<Company>, possessions: set<string>)
    ensures
      var plain := EvaluateEligibility(Some(companies), Some(possessions));
      var detailed := GetDetailedEligibility(Some(companies), Some(possessions));
      && plain.Ok? == detailed.Ok?
      && (plain.Err? ==> plain.error == detailed.error)
      && (plain.Ok? ==> plain.value.Keys == detailed.value.Keys)
      && (plain.Ok? ==> forall n :: n in plain.value ==> plain.value[n] == detailed.value[n].eligible)
  {
    var plain := EvaluateEligibility(Some(companies), Some(possessions));
    var detailed := GetDetailedEligibility(Some(companies), Some(possessions));
    if plain.Err? {
      var j :| FirstRepeatAt(companies, j) && plain.error == DuplicateKey(companies[j].name);
      var k :| FirstRepeatAt(companies, k) && detailed.error == DuplicateKey(companies[k].name);
      FirstRepeatUnique(companies, j, k);
    } else {
      forall n | n in plain.value ensures plain.value[n] == detailed.value[n].eligible {
        var c :| c in companies && c.name == n;
        var i :| 0 <= i < |companies| && companies[i] == c;
      }
    }
  }
}
