/** Machine words and error codes shared by the models. */
module Machine {
  const SIZE_MAX: nat := 0xFFFF_FFFF_FFFF_FFFF

  type uint16 = x: nat | x < 0x1_0000

  type byte = x: nat | x < 256

  /** size_t, uintptr_t and vsc_hash_t on a 64-bit target. */
  type SizeT = x: nat | x <= 0xFFFF_FFFF_FFFF_FFFF

  /** The values an int-returning function may return; Ok is 0. */
  datatype Status = Ok | EINVAL | ENOMEM | ENOSPC | ERANGE | EPERM | EOVERFLOW | EndOfFile

  datatype Option<T> = None | Some(value: T)

  /** Unsigned 64-bit multiplication. */
  function WrapMul(a: nat, b: nat): SizeT {
    (a * b) % 0x1_0000_0000_0000_0000
  }

  /** Unsigned 64-bit subtraction. */
  function WrapSub(a: SizeT, b: SizeT): SizeT {
    if a >= b then a - b else a + 0x1_0000_0000_0000_0000 - b
  }

  lemma WrapMulExact(a: nat, b: nat)
    requires a * b <= SIZE_MAX
    ensures WrapMul(a, b) == a * b
  {
  }
}
