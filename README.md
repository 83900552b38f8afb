# Job eligibility, modelled in Dafny

The system decides which companies a candidate may work for. A candidate is described by
a set of possessions such as "bike" or "driving license". Each company either has no
requirement or has a requirement tree. A leaf of the tree (`SimpleRequirement`) asks for
one item. A node (`CompositeRequirement`) combines a non-empty, ordered list of
sub-requirements with AND or OR. Items and possessions are compared after trimming and
lower-casing. A tree can also be rendered as a fully parenthesised description, such as
`((apartment OR house) AND property insurance)`. `JobEligibilityService` evaluates a list
of companies against one possession set. It returns the verdicts keyed by company name,
the eligible and the ineligible companies in list order, or the verdicts together with
each company's description.

The model is made of these modules:

- `Wrappers`: Java `null` becomes `Option`. A call that can throw returns a `Result`
  holding the value or the exception with its message.
- `Text`: `String.trim()` and `String.toLowerCase()`, and `Normalize`, which applies
  both. Trimming is modelled as the two index scans it performs.
- `Requirements`: the requirement tree and its evaluation (`SatisfiedBy`, and
  `IsSatisfiedBy`, which adds the null check). It also holds the description
  (`Description`), an independent reference semantics (`Holds`, which tests membership
  in the possession set normalized once), and the properties that relate them.
- `SimpleRequirements` and `CompositeRequirements`: the validating constructors. The
  loop of `CompositeRequirement.getDescription` is a method proved equal to
  `Description`.
- `Companies`: the validating constructor, `canWork` and `getRequirementDescription`.
- `EligibilityService`: the four service operations. `Collectors.toMap` is modelled
  with its duplicate-key failure, and `filter(...).collect(toList())` as an
  order-preserving filter.
- `Scenarios`: the companies of the unit-test fixture and the verdicts the tests expect,
  derived from the model.

The model follows the code in these places, where it does more than its Javadoc says:

- A null possession set passed straight to a requirement's `isSatisfiedBy` raises a
  `NullPointerException` from `Objects.requireNonNull`
  (src/main/java/com/jobeligibility/domain/SimpleRequirement.java:36,
  src/main/java/com/jobeligibility/domain/CompositeRequirement.java:74). A null operator
  given to `CompositeRequirement` does the same
  (src/main/java/com/jobeligibility/domain/CompositeRequirement.java:58), although the
  constructor's Javadoc at line 55 lists only `IllegalArgumentException`.
- `Company.canWork` refuses a null set with an `IllegalArgumentException` whose message,
  "Possessions cannot be null", differs from the service's "Possessions set cannot be
  null".
- Two companies with the same name make `evaluateEligibility` and
  `getDetailedEligibility` throw the `IllegalStateException` of `Collectors.toMap`.
  The Javadoc of both (src/main/java/com/jobeligibility/service/JobEligibilityService.java:27
  and :77) lists only `IllegalArgumentException`. `getEligibleCompanies` and
  `getIneligibleCompanies` do not throw in that case.

## Model

| member | source | states |
|---|---|---|
| `Text.Trim` | src/main/java/com/jobeligibility/domain/Company.java:30-33 | The result is a contiguous slice of the input; every character cut from either end is at or below U+0020; the result starts and ends with a kept character; it is empty exactly when every character is trimmable |
| `Text.TrimIdempotent` | src/main/java/com/jobeligibility/domain/Company.java:33 | Trimming an already trimmed name changes nothing, so a stored company name is its own trim |
| `Text.Normalize` | src/main/java/com/jobeligibility/domain/SimpleRequirement.java:31 | `trim().toLowerCase()` is no longer than its input; it is empty exactly when every character of the input is at or below U+0020; it has no trimmable character at either end and no ASCII capital |
| `Text.NormalizeIdempotent` | src/main/java/com/jobeligibility/domain/SimpleRequirement.java:38 | Normalizing a normalized string changes nothing, so re-normalizing the stored item at comparison time is harmless |
| `Text.NormalizeOfNormal` | src/main/java/com/jobeligibility/domain/SimpleRequirement.java:31 | A string that is already trimmed and has no ASCII capital is its own normal form |
| `Requirements.Symbol` | src/main/java/com/jobeligibility/domain/CompositeRequirement.java:21-33 | AND is written "AND" and OR is written "OR", and the two symbols differ |
| `Requirements.IsSatisfiedBy` | src/main/java/com/jobeligibility/domain/CompositeRequirement.java:73-80 | A null set throws `NullPointerException("Possessions set cannot be null")`; any present set, even an empty one, yields the verdict of the tree |
| `Requirements.JoinSnoc` | src/main/java/com/jobeligibility/domain/CompositeRequirement.java:85-90 | Appending one part to a separated join adds exactly one separator and the part; the first part gets no separator |
| `Requirements.SatisfiedByAgreesWithHolds` | src/main/java/com/jobeligibility/domain/SimpleRequirement.java:35-40 | Normalizing each possession at every leaf gives the same verdict as membership in the possession set normalized once, for every tree |
| `Requirements.NormalizationInvariant` | src/main/java/com/jobeligibility/domain/SimpleRequirement.java:37-39 | Two possession sets that normalize to the same set get the same verdict from every tree |
| `Requirements.PreNormalizingIsEquivalent` | src/main/java/com/jobeligibility/domain/SimpleRequirement.java:38 | Normalizing the possession set beforehand changes no verdict |
| `Requirements.Monotone` | src/main/java/com/jobeligibility/domain/CompositeRequirement.java:76-79 | A tree satisfied by a set is satisfied by every superset of it |
| `Requirements.NothingSatisfiesNoValid` | src/main/java/com/jobeligibility/domain/CompositeRequirement.java:62-79 | A tree built through the constructors is never satisfied by the empty set, because every node has at least one child and every leaf a non-empty item |
| `Requirements.HoldsAllAnd` | src/main/java/com/jobeligibility/domain/CompositeRequirement.java:77 | Under the reference semantics, a tree of AND nodes only holds exactly when all of its items are present |
| `Requirements.HoldsAllOr` | src/main/java/com/jobeligibility/domain/CompositeRequirement.java:78 | Under the reference semantics, a tree of OR nodes only holds exactly when one of its items is present |
| `Requirements.AllAndNeedsEveryItem` | src/main/java/com/jobeligibility/domain/CompositeRequirement.java:77 | A tree of AND nodes only is satisfied exactly when every item is among the normalized possessions |
| `Requirements.AllOrNeedsOneItem` | src/main/java/com/jobeligibility/domain/CompositeRequirement.java:78 | A tree of OR nodes only is satisfied exactly when some item is among the normalized possessions |
| `Requirements.DescriptionParenthesised` | src/main/java/com/jobeligibility/domain/CompositeRequirement.java:83-93 | When no item contains a parenthesis, the description has exactly one "(" and one ")" per operator node |
| `SimpleRequirements.NewSimple` | src/main/java/com/jobeligibility/domain/SimpleRequirement.java:23-32 | The constructor succeeds exactly when the item is present and has a character above U+0020. Otherwise it throws `IllegalArgumentException("Required item cannot be null or empty")`. On success the leaf stores the normalized item and satisfies the tree invariant |
| `SimpleRequirements.LeafIgnoresCaseAndSpace` | src/main/java/com/jobeligibility/domain/SimpleRequirement.java:31-39 | Items that normalize alike build the same leaf; a leaf is satisfied exactly when some possession normalizes to the normalized item |
| `SimpleRequirements.LeafDescription` | src/main/java/com/jobeligibility/domain/SimpleRequirement.java:43-45 | A leaf's description is the normalized item, which is itself in normal form |
| `CompositeRequirements.NewComposite` | src/main/java/com/jobeligibility/domain/CompositeRequirement.java:46-70 | The checks run in order: a null operator throws `NullPointerException`; a null or empty list throws `IllegalArgumentException`; a null element throws `IllegalArgumentException`. Each carries its message. On success the node keeps the operator and the children in order, and it satisfies the tree invariant exactly when every child does |
| `CompositeRequirements.GetDescription` | src/main/java/com/jobeligibility/domain/CompositeRequirement.java:83-93 | The `StringBuilder` loop yields exactly `Description`: "(", the children's descriptions separated by " AND " or " OR ", then ")" |
| `CompositeRequirements.OrderIrrelevant` | src/main/java/com/jobeligibility/domain/CompositeRequirement.java:76-79 | Permuting a node's children changes no verdict |
| `CompositeRequirements.SingleChild` | src/main/java/com/jobeligibility/domain/CompositeRequirement.java:76-92 | A node with one child has that child's verdict under either operator, and its description is the child's in one pair of parentheses |
| `CompositeRequirements.TwoLeavesBuilt` | src/main/java/com/jobeligibility/domain/CompositeRequirement.java:46-70 | Building AND over two leaves through the constructor keeps both leaves, in order |
| `CompositeRequirements.TwoLeavesDescription` | src/main/java/com/jobeligibility/domain/CompositeRequirement.java:83-93 | AND over the leaves `a` and `b` is described as exactly "(a AND b)" |
| `CompositeRequirements.EmptyListRefused` | src/main/java/com/jobeligibility/domain/CompositeRequirement.java:63-65 | An empty list of sub-requirements is refused with `IllegalArgumentException("Sub-requirements cannot be null or empty")` |
| `Companies.NewCompany` | src/main/java/com/jobeligibility/domain/Company.java:24-34 | The constructor succeeds exactly when the name is present and not blank. Otherwise it throws `IllegalArgumentException("Company name cannot be null or empty")`. On success it stores the trimmed name and the requirement as given |
| `Companies.CanWork` | src/main/java/com/jobeligibility/domain/Company.java:43-54 | A null set throws `IllegalArgumentException("Possessions cannot be null")` even when the company has no requirement. With a set, a company without a requirement accepts and any other defers to its tree. The result is always the plain verdict `Eligible` |
| `Companies.RequirementDescription` | src/main/java/com/jobeligibility/domain/Company.java:79-81 | The tree's description, or "No requirements" when there is no tree |
| `Companies.EmptyHandedCandidate` | src/main/java/com/jobeligibility/domain/Company.java:43-54 | With no possessions, a well-formed company accepts exactly when it has no requirement |
| `Companies.EligibilityMonotone` | src/main/java/com/jobeligibility/domain/Company.java:43-54 | Gaining possessions never makes a company refuse a candidate it accepted |
| `Companies.FallbackIsDistinct` | src/main/java/com/jobeligibility/domain/Company.java:79-81 | No well-formed requirement is described as "No requirements", so the fallback cannot be mistaken for a real description |
| `EligibilityService.ValidateInput` | src/main/java/com/jobeligibility/service/JobEligibilityService.java:92-99 | The list is checked before the set, each with its own `IllegalArgumentException` message; validation passes exactly when both are present |
| `EligibilityService.CollectByName` | src/main/java/com/jobeligibility/service/JobEligibilityService.java:32-36 | The map succeeds exactly when the names are distinct. Its keys are then the names, and each name maps to its own company's value. Otherwise the exception names the first name that repeats an earlier one |
| `EligibilityService.FirstRepeatUnique` | src/main/java/com/jobeligibility/service/JobEligibilityService.java:32-36 | A list has at most one first repetition, so the key in the exception is determined by the list |
| `EligibilityService.FilterKeeps` | src/main/java/com/jobeligibility/service/JobEligibilityService.java:50-52 | The filtered list holds exactly the companies with the wanted verdict, in list order, each as many times as the list holds it |
| `EligibilityService.EvaluateEligibility` | src/main/java/com/jobeligibility/service/JobEligibilityService.java:29-37 | Invalid input throws the validation error. Distinct names give a map from every name to exactly the verdict `canWork` returns. A repeated name throws naming the first repetition |
| `EligibilityService.GetEligibleCompanies` | src/main/java/com/jobeligibility/service/JobEligibilityService.java:47-53 | Invalid input throws the validation error. Otherwise the result is a subsequence of the list holding exactly the companies `canWork` accepts, each as many times as the list holds it |
| `EligibilityService.GetIneligibleCompanies` | src/main/java/com/jobeligibility/service/JobEligibilityService.java:63-69 | Invalid input throws the validation error. Otherwise the result is a subsequence of the list holding exactly the companies `canWork` refuses, each as many times as the list holds it |
| `EligibilityService.GetDetailedEligibility` | src/main/java/com/jobeligibility/service/JobEligibilityService.java:79-90 | Like `evaluateEligibility`, and each entry also carries the company's requirement description |
| `EligibilityService.FilterSplits` | src/main/java/com/jobeligibility/service/JobEligibilityService.java:50-67 | The accepted and the refused lists together hold every company of the input as many times as it occurs |
| `EligibilityService.EligibleAndIneligiblePartition` | src/main/java/com/jobeligibility/service/JobEligibilityService.java:47-69 | The eligible and the ineligible lists partition the input: they share no company, and their lengths and contents add up to the input's |
| `EligibilityService.DetailedAgreesWithPlain` | src/main/java/com/jobeligibility/service/JobEligibilityService.java:29-90 | The plain and the detailed evaluation fail together with the same exception, or succeed together with the same names and the same verdicts |
| `Scenarios.PayPalLeafIsNormalized` | src/test/java/com/jobeligibility/JobEligibilityServiceTest.java:200-202 | The leaf built from "PayPal account" stores "paypal account" |
| `Scenarios.CompanyABuilt` | src/test/java/com/jobeligibility/JobEligibilityServiceTest.java:176-183 | Each leaf constructor of the fixture's Company A stores its item as given, the OR and AND nodes keep their children in order, and the company constructor yields exactly the Company A the scenarios use |
| `Scenarios.CompanyFBuilt` | src/test/java/com/jobeligibility/JobEligibilityServiceTest.java:185-195 | The five leaves, the OR node over three leaves, the AND node and the company constructor yield exactly the Company F the scenarios use |
| `Scenarios.CompaniesJAndKBuilt` | src/test/java/com/jobeligibility/JobEligibilityServiceTest.java:197-202 | "Company J" without a requirement, and "Company K" with the leaf built from "PayPal account", are exactly the Companies J and K the scenarios use |
| `Scenarios.CompanyADescription` | src/test/java/com/jobeligibility/JobEligibilityServiceTest.java:99-101 | Company A's requirement is described as "((apartment OR house) AND property insurance)", which contains "property insurance" as the detailed evaluation test expects |
| `Scenarios.CompanyAAsks` | src/test/java/com/jobeligibility/JobEligibilityServiceTest.java:175-183 | Company A accepts exactly when an apartment or a house, and property insurance, are among the normalized possessions |
| `Scenarios.CompanyFAsks` | src/test/java/com/jobeligibility/JobEligibilityServiceTest.java:185-195 | Company F accepts exactly when a scooter, a bike or a motorcycle, a driving license and motorcycle insurance are among the normalized possessions |
| `Scenarios.CompaniesJAndKAsk` | src/test/java/com/jobeligibility/JobEligibilityServiceTest.java:197-202 | Company J accepts everyone; Company K accepts exactly when a PayPal account is among the normalized possessions |
| `Scenarios.VerdictsWithBikeAndLicense` | src/test/java/com/jobeligibility/JobEligibilityServiceTest.java:36-50 | With a bike and a driving license only Company J accepts |
| `Scenarios.FixtureWithBikeAndLicense` | src/test/java/com/jobeligibility/JobEligibilityServiceTest.java:36-80 | The service maps the four names to those verdicts, lists Company J alone as eligible, and lists A, F and K, in that order, as ineligible |
| `Scenarios.FixtureWithNothing` | src/test/java/com/jobeligibility/JobEligibilityServiceTest.java:107-119 | With an empty set only Company J accepts |
| `Scenarios.CompanyFWithInsurance` | src/test/java/com/jobeligibility/JobEligibilityServiceTest.java:123-166 | Adding motorcycle insurance opens Company F, whether the possessions are written in lower or upper case |
| `Scenarios.CompanyAWithHouse` | src/test/java/com/jobeligibility/JobEligibilityServiceTest.java:175-183 | A house alone does not open Company A; a house with property insurance does |
| `Scenarios.FallbackAndNullList` | src/test/java/com/jobeligibility/JobEligibilityServiceTest.java:96-153 | Company J is described as "No requirements"; a null list and a null set are refused with their messages |

## Left out

- Aliasing: `CompositeRequirement` keeps an unmodifiable view of the caller's list, so
  later changes the caller makes to that list show through. The model stores an
  immutable copy of the children.
- The varargs constructor: it only wraps its array with `Arrays.asList`, so it is folded
  into `CompositeRequirements.NewComposite`. A null array, on which `Arrays.asList` throws
  `NullPointerException`, is not modelled.
- A null element inside the possession set, and a null company inside the list: these
  raise `NullPointerException` deep inside a stream. The model's sets and lists hold no
  null.
- `toLowerCase()` is modelled on the ASCII letters only. Locale-dependent and non-ASCII
  case mappings are not modelled.
- The duplicate-key exception carries the repeated key only. The rest of the JDK message, which
  prints the two clashing values, is not modelled.
- Stream evaluation order and short-circuiting of `allMatch` and `anyMatch` are not
  modelled. The verdict is the same, because evaluation has no side effects.
- The result maps are unordered maps, as the `HashMap` behind `Collectors.toMap` is.
  Iteration order is not modelled.
- `equals`, `hashCode` and `toString` of every class are not modelled, and neither are the
  plain getters. Datatype equality plays the role of `equals`.
- `JobEligibilityApplication` (console input and output) and `CompanyRepository` (the
  sample data) are not part of this model. The unit-test fixture is reproduced in
  `Scenarios`.
- Immutability and thread safety hold by construction: every model value is immutable.
