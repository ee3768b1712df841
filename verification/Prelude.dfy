/** What several modules share. */
module Prelude {
  datatype Option<+T> = None | Some(value: T)

  const DAY_MS: nat := 24 * 60 * 60 * 1000
}
