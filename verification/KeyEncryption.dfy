/** The bounds on the scrypt parameters (section 2 of RFC 7914) of an encrypted key file. */
module KeyEncryption {

  const MIN_SCRYPT_BLOCK_SIZE := 8
  const MIN_SCRYPT_COST_TIMES_PARALLELISM := 0x2_0000
  const MAX_SCRYPT_MEMORY_BYTES := 0x4000_0000
  const MAX_SCRYPT_WORK := 0x800_0000

  const U16_LIMIT := 0x1_0000
  const U64_LIMIT := 0x1_0000_0000_0000_0000
  const U128_LIMIT := 0x1_0000_0000_0000_0000_0000_0000_0000_0000

  /** The scrypt branch of `enforce_key_encryption_policy`: cost `n`, block size `r`, parallelization `p`. */
  predicate Accepts(n: nat, r: nat, p: nat) {
    && !(r < MIN_SCRYPT_BLOCK_SIZE || n * p < MIN_SCRYPT_COST_TIMES_PARALLELISM)
    && !(128 * n * r > MAX_SCRYPT_MEMORY_BYTES || n * r * p > MAX_SCRYPT_WORK)
  }

  lemma MulMonotone(a: nat, b: nat, c: nat, d: nat)
    requires a <= c && b <= d
    ensures a * b <= c * d
  {
    assert a * b <= c * b <= c * d;
  }

  /** None of the products overflows 128 bits, whatever 64-bit cost and 16-bit sizes a key file carries. */
  lemma ProductsFit(n: nat, r: nat, p: nat)
    requires n < U64_LIMIT && r < U16_LIMIT && p < U16_LIMIT
    ensures n * p < U128_LIMIT && 128 * n * r < U128_LIMIT && n * r * p < U128_LIMIT
  {
    MulMonotone(n, p, U64_LIMIT, U16_LIMIT);
    MulMonotone(128 * n, r, 128 * U64_LIMIT, U16_LIMIT);
    MulMonotone(n, r, U64_LIMIT, U16_LIMIT);
    MulMonotone(n * r, p, U64_LIMIT * U16_LIMIT, U16_LIMIT);
  }

  /** Accepted parameters stay inside 8 <= r <= 1024, N <= 2^20 and 2^17 <= N * p <= 2^24. */
  lemma AcceptedBounds(n: nat, r: nat, p: nat)
    requires Accepts(n, r, p)
    ensures 8 <= r <= 1024
    ensures n <= 0x10_0000
    ensures 0x2_0000 <= n * p <= 0x100_0000
  {
    assert n * r * p == (n * p) * r by {
      assert n * r * p == n * (r * p) == n * (p * r) == (n * p) * r;
    }
    if r > 1024 {
      MulMonotone(MIN_SCRYPT_COST_TIMES_PARALLELISM, 1025, n * p, r);
    }
    if n > 0x10_0000 {
      MulMonotone(128 * 0x10_0001, 8, 128 * n, r);
    }
    if n * p > 0x100_0000 {
      MulMonotone(0x100_0001, 8, n * p, r);
    }
  }

  /** Each of those bounds is reached, and the parameters the documentation recommends are accepted. */
  lemma BoundsAreTight()
    ensures Accepts(16384, 8, 8)
    ensures Accepts(0x2000, 1024, 16) && Accepts(0x10_0000, 8, 1) && Accepts(0x10_0000, 8, 16)
            && Accepts(0x2_0000, 8, 1)
  {
  }

  /** The same by the memory and work of the parameters: 128 N r bytes at most 2^30, N r p at most 2^27. */
  lemma AcceptsMeans(n: nat, r: nat, p: nat)
    ensures Accepts(n, r, p) <==>
            r >= 8 && p * n >= 131072 && (n * r) * 128 <= 1073741824 && n * r * p <= 134217728
  {
    assert 128 * n * r == (n * r) * 128;
  }
}
