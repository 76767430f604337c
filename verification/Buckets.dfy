/** How both hash maps assign values to buckets. */
module Buckets {
  import opened Bytes

  /** `(unsigned long)val % n_buckets`. */
  function Index(val: int, n: nat): (b: nat)
    requires n > 0
    ensures b < n
  {
    val % WORD % n
  }
}
