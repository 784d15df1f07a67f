/** Two's-complement arithmetic on 64 bits. */
module Int64s {
  const MAX_INT64: int := 0x7fff_ffff_ffff_ffff
  const TWO_64: int := 0x1_0000_0000_0000_0000

  predicate Int64(x: int) {
    -MAX_INT64 - 1 <= x <= MAX_INT64
  }

  /** What is left of a result in an int64. */
  function Wrap(x: int): (r: int)
    ensures Int64(r) && (Int64(x) ==> r == x)
  {
    (x + MAX_INT64 + 1) % TWO_64 - MAX_INT64 - 1
  }

  lemma WrapAdd(x: int, y: int)
    ensures Wrap(Wrap(x) + y) == Wrap(x + y)
  {
    var q := (x + MAX_INT64 + 1) / TWO_64;
    assert x == Wrap(x) + q * TWO_64;
    WrapShift(Wrap(x) + y, q);
  }

  lemma WrapShift(x: int, q: int)
    ensures Wrap(x + q * TWO_64) == Wrap(x)
  {
    var z := x + MAX_INT64 + 1;
    var r, d := z % TWO_64, z / TWO_64;
    assert z == d * TWO_64 + r;
    assert z + q * TWO_64 == (d + q) * TWO_64 + r;
    ModUnique(z + q * TWO_64, d + q, r);
  }

  lemma ModUnique(z: int, d: int, r: int)
    requires z == d * TWO_64 + r && 0 <= r < TWO_64
    ensures z % TWO_64 == r
  {}
}
