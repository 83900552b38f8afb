/** `SimpleRequirement`: a leaf requiring one item, normalized once when it is built. */
module SimpleRequirements {
  import opened Wrappers
  import opened Text
  import opened Requirements

  const ItemNullOrEmpty := "Required item cannot be null or empty"

  /** The constructor with `validateRequiredItem`: a null item, or one that is empty once
      trimmed, is refused; otherwise the leaf stores the item trimmed and lower-cased. */
  function NewSimple(item: Option<string>): (r: Result<Requirement>)
    ensures r.Ok? <==> item.Some? && exists i :: 0 <= i < |item.value| && !IsTrimmable(item.value[i])
    ensures r.Err? ==> r.error == IllegalArgument(ItemNullOrEmpty)
    ensures r.Ok? ==> r.value.Simple? && r.value.item == Normalize(item.value)
    ensures r.Ok? ==> Valid(r.value)
  {
    match item
    case None => Err(IllegalArgument(ItemNullOrEmpty))
    case Some(s) =>
      if Trim(s) == [] then Err(IllegalArgument(ItemNullOrEmpty))
      else
        NormalizeIdempotent(s);
        Ok(Simple(Normalize(s)))
  }

  /** Two items that differ only in case and surrounding whitespace build the same leaf,
      and a leaf is satisfied exactly when a possession normalizes to the same string as
      the item it was built from. */
  lemma LeafIgnoresCaseAndSpace(a: string, b: string, possessions: set<string>)
    requires NewSimple(Some(a)).Ok?
    requires Normalize(a) == Normalize(b)
    ensures NewSimple(Some(b)) == NewSimple(Some(a))
    ensures SatisfiedBy(NewSimple(Some(a)).value, possessions)
        <==> exists p :: p in possessions && Normalize(p) == Normalize(b)
  {
    var ta, tb := Trim(a), Trim(b);
    assert |Lower(ta)| == |ta| && |Lower(tb)| == |tb|;
  }

  /** `getDescription` of a leaf is its stored item: the normalized input, which is in
      normal form itself. */
  lemma LeafDescription(item: string)
    requires NewSimple(Some(item)).Ok?
    ensures Description(NewSimple(Some(item)).value) == Normalize(item)
    ensures Normalize(Description(NewSimple(Some(item)).value)) == Description(NewSimple(Some(item)).value)
  {
    NormalizeIdempotent(item);
  }
}
