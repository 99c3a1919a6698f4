/** What several modules share. */
module Common {
  type Byte = x: int | 0 <= x < 256

  datatype Option<T> = None | Some(value: T)

  /** The numbers below n. */
  ghost function Below(n: nat): (ids: set<nat>)
    ensures forall i: nat :: i in ids <==> i < n
  {
    if n == 0 then {} else Below(n - 1) + {n - 1}
  }

  /** Some invariants are sealed: `forall key :: Open(this, key) ==> P`, which is P, but a proof looks
      at P only where it says Open(this, 0). This keeps proofs about callers small. OpenInner is for
      a sealed part of a sealed invariant, OpenSpans for what is said of spans.
   */
  ghost predicate Open(o: object, key: int) { true }

  ghost predicate OpenInner(o: object, key: int) { true }

  ghost predicate OpenSpans(o: object, key: int) { true }

  /** The same for predicates that are about values only. */
  ghost predicate Look(key: int) { true }
}
