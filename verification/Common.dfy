/** Names every module of the model shares. */
module Common {
  /** Identifiers are 128-bit values in the source; their canonical strings compare as the numbers do. */
  type Uuid = nat

  datatype Option<+T> = None | Some(value: T)

  /** No finite set of identifiers is exhaustive: a generator can always produce an unused one. */
  lemma {:induction false} FreshIdExists(used: set<Uuid>) returns (id: Uuid)
    ensures id !in used
    ensures forall u :: u in used ==> u < id
  {
    if used == {} {
      id := 0;
    } else {
      var u :| u in used;
      var rest := FreshIdExists(used - {u});
      id := if u < rest then rest else u + 1;
      forall v | v in used ensures v < id {
        if v != u {
          assert v in used - {u};
        }
      }
    }
  }
}
