/** Triggers that raise an exception on a whole class of statements, such as those of an append-only table. */
module TriggerGuards {
  datatype Mutation = UpdateRows | DeleteRows | Truncate

  /**
  What a statement that would replace the rows `before` by `after` leaves behind. A row-level trigger
  fires only when some row is affected, a TRUNCATE trigger always; its exception undoes the statement.
  */
  function Attempt<T(==)>(guarded: set<Mutation>, m: Mutation, before: T, after: T): T {
    if m in guarded && (m.Truncate? || after != before) then before else after
  }
}
