/** java.util.UUID as its two 64-bit halves, and the hash code the JDK gives it. */
module Uuids {

  datatype Uuid = Uuid(mostSigBits: bv64, leastSigBits: bv64)

  /** The upper (`high` = 1) or lower (`high` = 0) 32-bit word of a 64-bit value. */
  function Word(x: bv64, high: bv64): bv32
    requires high <= 1
  {
    ((x >> (32 * high)) & 0xFFFF_FFFF) as bv32
  }

  /** UUID.hashCode: xor the halves, then xor the upper and lower 32 bits of that;
      so the xor of all four 32-bit words of the UUID. */
  function UuidHashCode(u: Uuid): (h: bv32)
    ensures h == Word(u.mostSigBits, 1) ^ Word(u.mostSigBits, 0) ^ Word(u.leastSigBits, 1) ^ Word(u.leastSigBits, 0)
  {
    var hilo := u.mostSigBits ^ u.leastSigBits;
    ((hilo >> 32) as bv32) ^ ((hilo & 0xFFFF_FFFF) as bv32)
  }
}
