/** The ranges of the machine's integers. */
module Powers {
  const TWO_TO_THE_16: int := 0x1_0000
  const TWO_TO_THE_31: int := 0x8000_0000
  const TWO_TO_THE_32: int := 0x1_0000_0000
  const TWO_TO_THE_63: int := 0x8000_0000_0000_0000
  const TWO_TO_THE_64: int := 0x1_0000_0000_0000_0000

  lemma {:induction false} Doubled()
    ensures 2 * TWO_TO_THE_31 == TWO_TO_THE_32 && 2 * TWO_TO_THE_63 == TWO_TO_THE_64
    ensures TWO_TO_THE_16 * TWO_TO_THE_16 == TWO_TO_THE_32 && TWO_TO_THE_32 * TWO_TO_THE_32 == TWO_TO_THE_64
  {
  }
}
