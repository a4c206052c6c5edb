/** What several components count in. */
module Units {
  type Bytes = seq<bv8>

  /** Clock ticks per second. */
  const SECOND := 1_000_000_000
}
