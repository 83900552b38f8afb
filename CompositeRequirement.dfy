/** `CompositeRequirement`: an AND or OR node over a non-empty list of sub-requirements. */
module CompositeRequirements {
  import opened Wrappers
  import opened Requirements

  const OperatorNull := "Operator cannot be null"
  const ChildrenNullOrEmpty := "Sub-requirements cannot be null or empty"
  const ChildNull := "Sub-requirements cannot contain null elements"

  /** No element of the list is null. */
  predicate NoneNull(children: seq<Option<Requirement>>) {
    forall i :: 0 <= i < |children| ==> children[i].Some?
  }

  /** The list constructor (the varargs one wraps its array as a list and delegates here):
      the operator is checked first, then the list for null or empty, then its elements for
      null; on success the node keeps the operator and the children in their order. */
  function NewComposite(op: Option<Op>, children: Option<seq<Option<Requirement>>>): (r: Result<Requirement>)
    ensures r.Ok? <==> op.Some? && children.Some? && children.value != [] && NoneNull(children.value)
    ensures op.None? ==> r == Err(NullPointer(OperatorNull))
    ensures op.Some? && (children.None? || children.value == []) ==> r == Err(IllegalArgument(ChildrenNullOrEmpty))
    ensures op.Some? && children.Some? && children.value != [] && !NoneNull(children.value)
        ==> r == Err(IllegalArgument(ChildNull))
    ensures r.Ok? ==> r.value.Composite? && r.value.op == op.value
    ensures r.Ok? ==> (&& |r.value.children| == |children.value|
                       && forall i :: 0 <= i < |children.value| ==> children.value[i] == Some(r.value.children[i]))
    ensures r.Ok? ==> (Valid(r.value) <==> forall i :: 0 <= i < |children.value| ==> Valid(children.value[i].value))
  {
    if op.None? then Err(NullPointer(OperatorNull))
    else if children.None? || children.value == [] then Err(IllegalArgument(ChildrenNullOrEmpty))
    else if !NoneNull(children.value) then Err(IllegalArgument(ChildNull))
    else
      var cs := children.value;
      Ok(Composite(op.value, seq(|cs|, i requires 0 <= i < |cs| => cs[i].value)))
  }

  /** `getDescription` as the code computes it: a leaf returns its item; a node starts a
      buffer with "(", appends the operator between single spaces before every child but the
      first and each child's own description after it, and closes with ")". */
  method GetDescription(r: Requirement) returns (d: string)
    ensures d == Description(r)
    decreases r
  {
    match r
    case Simple(item) =>
      d := item;
    case Composite(op, cs) =>
      ghost var parts := Descriptions(cs);
      var sep := " " + Symbol(op) + " ";
      d := "(";
      var i := 0;
      while i < |cs|
        invariant 0 <= i <= |cs|
        invariant d == "(" + Join(parts[..i], sep)
      {
        var part := GetDescription(cs[i]);
        JoinSnoc(parts[..i], part, sep);
        assert parts[..i + 1] == parts[..i] + [part];
        if i > 0 {
          d := d + sep;
        }
        d := d + part;
        i := i + 1;
      }
      assert parts[..i] == parts;
      d := d + ")";
  }

  /** AND and OR look only at which children are satisfied, not where they stand:
      reordering (or permuting with repetition kept) the children changes no verdict. */
  lemma OrderIrrelevant(op: Op, cs: seq<Requirement>, ds: seq<Requirement>, possessions: set<string>)
    requires multiset(cs) == multiset(ds)
    ensures SatisfiedBy(Composite(op, cs), possessions) == SatisfiedBy(Composite(op, ds), possessions)
  {
    forall c | c in cs ensures c in ds {
      assert c in multiset(cs);
    }
    forall d | d in ds ensures d in cs {
      assert d in multiset(ds);
    }
    match op
    case And =>
      if SatisfiedBy(Composite(op, cs), possessions) {
        forall j | 0 <= j < |ds| ensures SatisfiedBy(ds[j], possessions) {
          assert ds[j] in cs;
        }
      }
      if SatisfiedBy(Composite(op, ds), possessions) {
        forall j | 0 <= j < |cs| ensures SatisfiedBy(cs[j], possessions) {
          assert cs[j] in ds;
        }
      }
    case Or =>
      if SatisfiedBy(Composite(op, cs), possessions) {
        var j :| 0 <= j < |cs| && SatisfiedBy(cs[j], possessions);
        assert cs[j] in ds;
      }
      if SatisfiedBy(Composite(op, ds), possessions) {
        var j :| 0 <= j < |ds| && SatisfiedBy(ds[j], possessions);
        assert ds[j] in cs;
      }
  }

  /** A node with one child is that child in parentheses: same verdict under either
      operator, and its description is the child's wrapped once. */
  lemma SingleChild(op: Op, c: Requirement, possessions: set<string>)
    ensures SatisfiedBy(Composite(op, [c]), possessions) == SatisfiedBy(c, possessions)
    ensures Description(Composite(op, [c])) == "(" + Description(c) + ")"
  {
    var cs := [c];
    assert Descriptions(cs) == [Description(c)];
    assert forall i :: 0 <= i < |cs| ==> cs[i] == c;
    match op
    case And =>
      if !SatisfiedBy(c, possessions) {
        assert !SatisfiedBy(cs[0], possessions);
      }
    case Or =>
      assert SatisfiedBy(Composite(Or, cs), possessions) <==> exists i :: 0 <= i < |cs| && SatisfiedBy(cs[i], possessions);
      if SatisfiedBy(c, possessions) {
        assert SatisfiedBy(cs[0], possessions);
      }
  }

  /** Two leaves under AND, built through the constructor. */
  lemma TwoLeavesBuilt()
    ensures NewComposite(Some(And), Some([Some(Simple("a")), Some(Simple("b"))]))
        == Ok(Composite(And, [Simple("a"), Simple("b")]))
  {
    var given := [Some(Simple("a")), Some(Simple("b"))];
    assert seq(|given|, i requires 0 <= i < |given| => given[i].value) == [Simple("a"), Simple("b")];
  }

  /** AND over the leaves `a` and `b` renders exactly as "(a AND b)". */
  lemma TwoLeavesDescription()
    ensures Description(Composite(And, [Simple("a"), Simple("b")])) == "(a AND b)"
  {
    var parts: seq<string> := ["a", "b"];
    assert Descriptions([Simple("a"), Simple("b")]) == parts;
    assert parts[1..] == ["b"];
    assert " " + Symbol(And) + " " == " AND ";
    assert Join(parts, " AND ") == "a" + " AND " + "b";
    assert "(" + ("a" + " AND " + "b") + ")" == "(a AND b)";
  }

  /** Building a node from an empty list is refused. */
  lemma EmptyListRefused(op: Op)
    ensures NewComposite(Some(op), Some([])) == Err(IllegalArgument(ChildrenNullOrEmpty))
  {
  }
}
