/** Option and Result values used for the source's `None` and for its raised exceptions. */
module Wrappers {

  datatype Option<+T> = None | Some(value: T)

  datatype Result<+T, +E> = Ok(value: T) | Err(error: E)
}

/** Small facts about finite sets of ids. */
module IdSets {

  /** A non-empty set of ids has a member (lets `:|` pick one). */
  lemma NonEmptyHasMember(s: set<int>)
    requires s != {}
    ensures exists x :: x in s
  {
    if forall x :: x !in s {
      assert false;
    }
  }

  /** A subset is no larger. */
  lemma {:induction false} SubsetCard(a: set<int>, b: set<int>)
    requires a <= b
    ensures |a| <= |b|
    decreases |a|
  {
    if a != {} {
      NonEmptyHasMember(a);
      var x :| x in a;
      SubsetCard(a - {x}, b - {x});
    }
  }
}
