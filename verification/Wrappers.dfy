/** The optional and fallible values shared by the models. */
module Wrappers {

  datatype Option<+T> = None | Some(value: T)

  datatype Result<+T, +E> = Ok(value: T) | Err(error: E)

  /** How a write to the database ends.  A caller that sees an error cannot tell
      `Lost` (nothing was written) from `Ambiguous` (written, but the reply was lost). */
  datatype Commit = Committed | Lost | Ambiguous {
    predicate Reported() { Committed? }
    predicate Durable() { !Lost? }
  }

  /** A nonempty set has a member to name. */
  lemma Member<T>(s: set<T>) returns (x: T)
    requires s != {}
    ensures x in s
  {
    x :| x in s;
  }
}
