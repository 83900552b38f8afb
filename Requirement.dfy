/**
 * The requirement tree: a closed sum of a single-item leaf and an operator node over an
 * ordered, non-empty list of children, with its two operations, evaluation against a set
 * of possessions and rendering as a fully parenthesised description.
 */
module Requirements {
  import opened Wrappers
  import opened Text

  /** `CompositeRequirement.LogicalOperator`. */
  datatype Op = And | Or

  /** The token an operator is written with in a description. */
  function Symbol(op: Op): (s: string)
    ensures s == "AND" || s == "OR"
    ensures op == And <==> s == "AND"
  {
    match op
    case And => "AND"
    case Or => "OR"
  }

  /** `SimpleRequirement` holds one normalized item; `CompositeRequirement` an operator
      and its sub-requirements in construction order. No third kind exists. */
  datatype Requirement =
    | Simple(item: string)
    | Composite(op: Op, children: seq<Requirement>)

  /** What the constructors guarantee of every node: a leaf's item is non-empty and
      already in normal form, a composite has at least one child, and so on below. */
  predicate Valid(r: Requirement)
    decreases r
  {
    match r
    case Simple(item) => item != [] && Normalize(item) == item
    case Composite(_, cs) => |cs| > 0 && forall i :: 0 <= i < |cs| ==> Valid(cs[i])
  }

  /** `isSatisfiedBy` once its possession set is known not to be null: a leaf matches when
      some possession normalizes to its item; AND needs every child, OR at least one. */
  predicate SatisfiedBy(r: Requirement, possessions: set<string>)
    decreases r
  {
    match r
    case Simple(item) => exists p :: p in possessions && Normalize(p) == item
    case Composite(And, cs) => forall i :: 0 <= i < |cs| ==> SatisfiedBy(cs[i], possessions)
    case Composite(Or, cs) => exists i :: 0 <= i < |cs| && SatisfiedBy(cs[i], possessions)
  }

  const PossessionsNull := "Possessions set cannot be null"

  /** `Requirement.isSatisfiedBy`: both implementations first reject a null set with
      `Objects.requireNonNull`; a present set, even an empty one, always yields a verdict. */
  function IsSatisfiedBy(r: Requirement, possessions: Option<set<string>>): (res: Result<bool>)
    ensures res.Ok? <==> possessions.Some?
    ensures possessions.None? ==> res.error == NullPointer(PossessionsNull)
    ensures possessions.Some? ==> res.value == SatisfiedBy(r, possessions.value)
  {
    match possessions
    case None => Err(NullPointer(PossessionsNull))
    case Some(p) => Ok(SatisfiedBy(r, p))
  }

  /** The separated concatenation `d1 + sep + d2 + sep + ... + dn`. */
  function Join(parts: seq<string>, sep: string): string
  {
    if |parts| == 0 then ""
    else if |parts| == 1 then parts[0]
    else parts[0] + sep + Join(parts[1..], sep)
  }

  /** `getDescription`: a leaf renders as its item, a composite as its children's
      descriptions joined by the operator between single spaces, inside one pair of
      parentheses. */
  function Description(r: Requirement): string
    decreases r
  {
    match r
    case Simple(item) => item
    case Composite(op, cs) =>
      "(" + Join(Descriptions(cs), " " + Symbol(op) + " ") + ")"
  }

  /** The descriptions of a list of children, in order. */
  function Descriptions(cs: seq<Requirement>): (ds: seq<string>)
    decreases cs
    ensures |ds| == |cs|
    ensures forall i :: 0 <= i < |cs| ==> ds[i] == Description(cs[i])
  {
    seq(|cs|, i requires 0 <= i < |cs| => Description(cs[i]))
  }

  /** Appending one more part to a join adds one separator and the part, which is what the
      description loop does on each pass. */
  lemma {:induction false} JoinSnoc(parts: seq<string>, x: string, sep: string)
    ensures Join(parts + [x], sep) == if parts == [] then x else Join(parts, sep) + sep + x
  {
    if |parts| >= 2 {
      assert (parts + [x])[1..] == parts[1..] + [x];
      JoinSnoc(parts[1..], x, sep);
    } else if |parts| == 1 {
      assert (parts + [x])[1..] == [x];
    }
  }

  /** The possession set as the leaves see it: every possession normalized. */
  function NormalizedSet(possessions: set<string>): (n: set<string>)
    ensures forall p :: p in possessions ==> Normalize(p) in n
  {
    set p | p in possessions :: Normalize(p)
  }

  /** A reference semantics over an already normalized set, where a leaf is plain
      membership: what evaluation becomes when possessions are normalized once up front. */
  predicate Holds(r: Requirement, normalized: set<string>)
    decreases r
  {
    match r
    case Simple(item) => item in normalized
    case Composite(And, cs) => forall i :: 0 <= i < |cs| ==> Holds(cs[i], normalized)
    case Composite(Or, cs) => exists i :: 0 <= i < |cs| && Holds(cs[i], normalized)
  }

  /** Normalizing each possession at every comparison gives the same verdict as testing
      membership in the set normalized once. */
  lemma {:induction false} SatisfiedByAgreesWithHolds(r: Requirement, possessions: set<string>)
    ensures SatisfiedBy(r, possessions) == Holds(r, NormalizedSet(possessions))
    decreases r
  {
    match r
    case Simple(_) =>
    case Composite(_, cs) =>
      forall i | 0 <= i < |cs| {
        SatisfiedByAgreesWithHolds(cs[i], possessions);
      }
  }

  /** Evaluation only sees possessions up to case and surrounding whitespace: two sets that
      normalize alike are indistinguishable to every tree. */
  lemma NormalizationInvariant(r: Requirement, p: set<string>, q: set<string>)
    requires NormalizedSet(p) == NormalizedSet(q)
    ensures SatisfiedBy(r, p) == SatisfiedBy(r, q)
  {
    SatisfiedByAgreesWithHolds(r, p);
    SatisfiedByAgreesWithHolds(r, q);
  }

  /** Normalizing the possession set before evaluating it changes no verdict. */
  lemma PreNormalizingIsEquivalent(r: Requirement, possessions: set<string>)
    ensures SatisfiedBy(r, NormalizedSet(possessions)) == SatisfiedBy(r, possessions)
  {
    var n := NormalizedSet(possessions);
    forall x | x in n ensures Normalize(x) == x {
      var p :| p in possessions && Normalize(p) == x;
      NormalizeIdempotent(p);
    }
    assert NormalizedSet(n) == n;
    NormalizationInvariant(r, n, possessions);
  }

  /** Having more never hurts: a tree satisfied by a set is satisfied by every superset. */
  lemma {:induction false} Monotone(r: Requirement, p: set<string>, q: set<string>)
    requires p <= q
    requires SatisfiedBy(r, p)
    ensures SatisfiedBy(r, q)
    decreases r
  {
    match r
    case Simple(_) =>
    case Composite(And, cs) =>
      forall i | 0 <= i < |cs| ensures SatisfiedBy(cs[i], q) {
        Monotone(cs[i], p, q);
      }
    case Composite(Or, cs) =>
      var i :| 0 <= i < |cs| && SatisfiedBy(cs[i], p);
      Monotone(cs[i], p, q);
  }

  /** A well-formed tree is never satisfied by the empty set: every leaf fails, an AND has
      a failing child because it has a child, and an OR has no satisfied one. */
  lemma {:induction false} NothingSatisfiesNoValid(r: Requirement)
    requires Valid(r)
    ensures !SatisfiedBy(r, {})
    decreases r
  {
    match r
    case Simple(_) =>
    case Composite(And, cs) =>
      NothingSatisfiesNoValid(cs[0]);
    case Composite(Or, cs) =>
      forall i | 0 <= i < |cs| ensures !SatisfiedBy(cs[i], {}) {
        NothingSatisfiesNoValid(cs[i]);
      }
  }

  /** `x` is the item of some leaf of `r`. */
  predicate HasItem(r: Requirement, x: string)
    decreases r
  {
    match r
    case Simple(item) => item == x
    case Composite(_, cs) => exists i :: 0 <= i < |cs| && HasItem(cs[i], x)
  }

  /** Every operator node of `r` uses `op`. */
  predicate Uniform(r: Requirement, op: Op)
    decreases r
  {
    match r
    case Simple(_) => true
    case Composite(o, cs) => o == op && forall i :: 0 <= i < |cs| ==> Uniform(cs[i], op)
  }

  lemma {:induction false} HoldsAllAnd(r: Requirement, n: set<string>)
    requires Uniform(r, And)
    ensures Holds(r, n) <==> forall x :: HasItem(r, x) ==> x in n
    decreases r
  {
    match r
    case Simple(_) =>
    case Composite(_, cs) =>
      forall i | 0 <= i < |cs| ensures Holds(cs[i], n) <==> forall x :: HasItem(cs[i], x) ==> x in n {
        HoldsAllAnd(cs[i], n);
      }
  }

  lemma {:induction false} HoldsAllOr(r: Requirement, n: set<string>)
    requires Uniform(r, Or)
    ensures Holds(r, n) <==> exists x :: HasItem(r, x) && x in n
    decreases r
  {
    match r
    case Simple(item) =>
      assert HasItem(r, item);
    case Composite(_, cs) =>
      forall i | 0 <= i < |cs| ensures Holds(cs[i], n) <==> exists x :: HasItem(cs[i], x) && x in n {
        HoldsAllOr(cs[i], n);
      }
      if Holds(r, n) {
        var i :| 0 <= i < |cs| && Holds(cs[i], n);
        var x :| HasItem(cs[i], x) && x in n;
        assert HasItem(r, x);
      }
  }

  /** A tree built from AND alone is satisfied exactly when every one of its items is
      among the normalized possessions. */
  lemma AllAndNeedsEveryItem(r: Requirement, possessions: set<string>)
    requires Uniform(r, And)
    ensures SatisfiedBy(r, possessions) <==> forall x :: HasItem(r, x) ==> x in NormalizedSet(possessions)
  {
    SatisfiedByAgreesWithHolds(r, possessions);
    HoldsAllAnd(r, NormalizedSet(possessions));
  }

  /** A tree built from OR alone is satisfied exactly when one of its items is among the
      normalized possessions. */
  lemma AllOrNeedsOneItem(r: Requirement, possessions: set<string>)
    requires Uniform(r, Or)
    ensures SatisfiedBy(r, possessions) <==> exists x :: HasItem(r, x) && x in NormalizedSet(possessions)
  {
    SatisfiedByAgreesWithHolds(r, possessions);
    HoldsAllOr(r, NormalizedSet(possessions));
  }

  /** How many times `c` occurs in `s`. */
  function Occurrences(s: string, c: char): (n: nat)
    ensures n == 0 <==> c !in s
    ensures n <= |s|
  {
    if s == [] then 0 else (if s[0] == c then 1 else 0) + Occurrences(s[1..], c)
  }

  lemma {:induction false} OccurrencesAppend(a: string, b: string, c: char)
    ensures Occurrences(a + b, c) == Occurrences(a, c) + Occurrences(b, c)
  {
    if a == [] {
      assert a + b == b;
    } else {
      assert (a + b)[1..] == a[1..] + b;
      OccurrencesAppend(a[1..], b, c);
    }
  }

  function Sum(xs: seq<nat>): nat
  {
    if xs == [] then 0 else xs[0] + Sum(xs[1..])
  }

  /** The occurrences of `c` in each part. */
  function Tally(parts: seq<string>, c: char): seq<nat>
  {
    seq(|parts|, i requires 0 <= i < |parts| => Occurrences(parts[i], c))
  }

  /** A separator without `c` adds no occurrence of `c` to a join. */
  lemma {:induction false} JoinOccurrences(parts: seq<string>, sep: string, c: char)
    requires c !in sep
    ensures Occurrences(Join(parts, sep), c) == Sum(Tally(parts, c))
  {
    if |parts| == 1 {
      assert Tally(parts, c)[1..] == [];
    } else if |parts| > 1 {
      assert Tally(parts, c)[1..] == Tally(parts[1..], c);
      JoinOccurrences(parts[1..], sep, c);
      OccurrencesAppend(parts[0], sep, c);
      OccurrencesAppend(parts[0] + sep, Join(parts[1..], sep), c);
    }
  }

  /** No leaf item of `r` contains a parenthesis. */
  predicate ParenFree(r: Requirement)
    decreases r
  {
    match r
    case Simple(item) => '(' !in item && ')' !in item
    case Composite(_, cs) => forall i :: 0 <= i < |cs| ==> ParenFree(cs[i])
  }

  /** The number of operator nodes in `r`. */
  function OperatorNodes(r: Requirement): nat
    decreases r
  {
    match r
    case Simple(_) => 0
    case Composite(_, cs) => 1 + Sum(seq(|cs|, i requires 0 <= i < |cs| => OperatorNodes(cs[i])))
  }

  /** Descriptions are fully parenthesised: when no item carries a parenthesis, each
      operator node contributes exactly one opening and one closing parenthesis. */
  lemma {:induction false} DescriptionParenthesised(r: Requirement)
    requires ParenFree(r)
    ensures Occurrences(Description(r), '(') == OperatorNodes(r)
    ensures Occurrences(Description(r), ')') == OperatorNodes(r)
    decreases r
  {
    match r
    case Simple(_) =>
    case Composite(op, cs) =>
      var ds := Descriptions(cs);
      var sep := " " + Symbol(op) + " ";
      var counts := seq(|cs|, i requires 0 <= i < |cs| => OperatorNodes(cs[i]));
      forall i | 0 <= i < |cs|
        ensures Occurrences(ds[i], '(') == counts[i] && Occurrences(ds[i], ')') == counts[i]
      {
        DescriptionParenthesised(cs[i]);
      }
      assert Tally(ds, '(') == counts;
      assert Tally(ds, ')') == counts;
      assert '(' !in sep && ')' !in sep;
      JoinOccurrences(ds, sep, '(');
      JoinOccurrences(ds, sep, ')');
      var j := Join(ds, sep);
      OccurrencesAppend("(", j, '(');
      OccurrencesAppend("(" + j, ")", '(');
      OccurrencesAppend("(", j, ')');
      OccurrencesAppend("(" + j, ")", ')');
  }
}
