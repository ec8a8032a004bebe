/** What several components share. */
module Common {

  datatype Option<T> = None | Some(value: T)

  /** Some element of a set that is not empty. */
  lemma Member<T>(items: set<T>) returns (x: T)
    requires items != {}
    ensures x in items
  {
    x :| x in items;
  }
}
