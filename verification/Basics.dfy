/** Vocabulary shared by every component. */
module Basics {
  datatype Option<+T> = None | Some(value: T)

  /** The outcome of an operation that the source either completes or refuses by raising. */
  datatype Result<+T, +E> = Success(value: T) | Failure(error: E)

  /** Identifiers are UUIDs; as numbers they are ordered like their canonical strings. */
  type UserId = nat

  lemma Regroup<T>(before: seq<T>, x: T, rest: seq<T>)
    ensures before + ([x] + rest) == before + [x] + rest
  {
  }

  function UsersOf(rows: seq<(UserId, int)>): set<UserId> {
    set row | row in rows :: row.0
  }
}
