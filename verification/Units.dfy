/** Bytes and pages. */
module Units {
  const PAGE := 4096

  type byte = x: int | 0 <= x < 256
}
