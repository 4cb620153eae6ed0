/**
  Predicates over a collection kept as a sequence of records, each record
  looked at through one of its string fields (a name, an id).
*/
module Tables {

  /** `findOne({field: value})` finds a record. */
  predicate Contains<T>(table: seq<T>, field: T -> string, value: string)
  {
    exists i | 0 <= i < |table| :: field(table[i]) == value
  }

  /** No two records share the field's value. */
  ghost predicate Distinct<T>(table: seq<T>, field: T -> string)
  {
    forall i, j | 0 <= i < j < |table| :: field(table[i]) != field(table[j])
  }
}
