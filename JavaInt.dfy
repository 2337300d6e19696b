/** Limits of Java's 32-bit `int`, shared by the modules that model Java lengths and sizes. */
module JavaInt {
  /** Integer.MAX_VALUE: no Java array is longer, and no collection reports a larger size. */
  const INT_MAX: nat := 0x7FFF_FFFF
}
