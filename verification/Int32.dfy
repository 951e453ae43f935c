/** The `int` of the lock counters: 32 bits, wrapping around on overflow. */
module Int32 {

  const TWO_TO_THE_31 := 0x8000_0000
  const TWO_TO_THE_32 := 0x1_0000_0000

  /** The `int` that counts `k` increments from 0. */
  function Wrap(k: int): (r: int)
    ensures -TWO_TO_THE_31 <= r < TWO_TO_THE_31
  {
    (k + TWO_TO_THE_31) % TWO_TO_THE_32 - TWO_TO_THE_31
  }

  /** The remainder operator of the code: its result has the sign of `x`. */
  function Rem(x: int, d: int): int
    requires d > 0
  {
    if x >= 0 then x % d else -((-x) % d)
  }

  /** Two counts look the same exactly when they are a multiple of the wrap-around apart. */
  lemma WrapEqual(a: int, b: int)
    ensures Wrap(a) == Wrap(b) <==> (a - b) % TWO_TO_THE_32 == 0
  {
  }

  lemma WrapSuccessor(k: int)
    ensures Wrap(Wrap(k) + 1) == Wrap(k + 1)
  {
  }

  /** The largest `int` is followed by the smallest. */
  lemma WrapsAround()
    ensures Wrap(0x7fff_ffff) == 0x7fff_ffff && Wrap(0x8000_0000) == -0x8000_0000 && Wrap(0xffff_ffff) == -1
  {
  }
}
