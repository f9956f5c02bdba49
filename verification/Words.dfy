/** The fixed-width integers of the Go program, and the wrap-around each of them performs. */
module Words {
  type uint64 = x: int | 0 <= x < 0x1_0000_0000_0000_0000
  type uint8 = x: int | 0 <= x < 0x100

  const MAX_UINT64: uint64 := 0xFFFF_FFFF_FFFF_FFFF

  /** What an unsigned 64-bit register holds after a computation whose exact result is x. */
  function Wrap64(x: int): uint64 {
    x % 0x1_0000_0000_0000_0000
  }

  /** What an unsigned 8-bit register holds after a computation whose exact result is x. */
  function Wrap8(x: int): uint8 {
    x % 0x100
  }

  /** What a signed 64-bit register holds after a computation whose exact result is x. */
  function SignedWrap64(x: int): int {
    var low := x % 0x1_0000_0000_0000_0000;
    if low < 0x8000_0000_0000_0000 then low else low - 0x1_0000_0000_0000_0000
  }

  predicate FitsUint64(x: int) {
    0 <= x < 0x1_0000_0000_0000_0000
  }

  /** Wrapping after every addition loses no more than wrapping once at the end. */
  lemma WrapAdd(x: int, y: int)
    ensures Wrap64(Wrap64(x) + y) == Wrap64(x + y)
  {
  }

  lemma WrapTwice(x: int)
    ensures Wrap64(Wrap64(x)) == Wrap64(x)
  {
  }

  lemma WrapLoses(x: nat)
    ensures Wrap64(x) <= x
    ensures Wrap64(x) == x <==> FitsUint64(x)
  {
  }

  lemma WrapShift(x: int, y: int, k: int)
    requires Wrap64(x) == Wrap64(y)
    ensures Wrap64(k + x) == Wrap64(k + y)
  {
    WrapAdd(x, k);
    WrapAdd(y, k);
  }

  /** Two totals that differ by sums of equal registers are equal registers. */
  lemma WrapBalance(after: int, before: int, taken: int, given: int)
    requires after + taken == before + given && Wrap64(taken) == Wrap64(given)
    ensures Wrap64(after) == Wrap64(before)
  {
    WrapShift(taken, given, before - taken);
  }
}
