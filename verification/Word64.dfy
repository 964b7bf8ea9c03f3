// Go's 64-bit signed integers.

module Word64 {
  const MAX64: int := 0x7fff_ffff_ffff_ffff
  const TWO64: int := 0x1_0000_0000_0000_0000

  // The value an int64 holds after an operation whose exact result is x.
  function Wrap64(x: int): int {
    (x + MAX64 + 1) % TWO64 - MAX64 - 1
  }

  predicate InRange64(x: int) {
    -MAX64 - 1 <= x <= MAX64
  }

  // r is the 64-bit value congruent to x.
  predicate Wraps(r: int, x: int) {
    InRange64(r) && (r - x) % TWO64 == 0
  }

  lemma Wrap64Exact(x: int)
    ensures Wraps(Wrap64(x), x)
    ensures InRange64(x) ==> Wrap64(x) == x
  {
    var q := (x + MAX64 + 1) / TWO64;
    assert Wrap64(x) == x - q * TWO64;
    assert (-q * TWO64) % TWO64 == 0;
  }
}
