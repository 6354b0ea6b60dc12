/** Shared vocabulary: an optional value, and the Python values that flow
    from a parsed data file into an entity and back out of `serialize`. */
module Common {

  /** A computation that either produced a value or raised. */
  datatype Option<+T> = None | Some(value: T)

  /** A Python value as it appears in a record dictionary. `Null` is Python's
      `None`; `Other` stands for any other object (a float, a NaN produced
      by the table parser), told apart only by an opaque code. */
  datatype Value = Null | Int(i: int) | Str(s: string) | Other(code: nat)
}
