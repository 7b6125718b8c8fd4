/** The register selection of `get_current_power` (py/control.py:125-140).
    The Modbus read itself is not modelled: its outcome is a parameter. */
module Power {
  import opened Wrappers

  /** One 16-bit Modbus holding register. */
  type Word = w: int | 0 <= w < 0x1_0000

  /** `number_of_words`: the read asks for two registers, the high and the
      low word of the inverter's total power (GridMs.TotW). */
  const NumberOfWords := 2

  /** The value of `regs`: `None` when the read failed, otherwise the words
      returned. A non-empty reply is trusted to hold the words asked for, as
      the source indexes `regs[1]` without a check. */
  predicate WellFormedReply(regs: Option<seq<Word>>)
  {
    regs.Some? && regs.value != [] ==> |regs.value| >= NumberOfWords
  }

  /** `if regs: return regs[1] else: return 0`: the second register word,
      or 0 when the read returned nothing (None or an empty list). */
  function ReportedPower(regs: Option<seq<Word>>): (p: Word)
    requires WellFormedReply(regs)
    ensures (regs.None? || regs.value == []) ==> p == 0
    ensures regs.Some? && regs.value != [] ==> p == regs.value[1]
  {
    if regs.Some? && regs.value != [] then regs.value[1] else 0
  }

  /** The power reported is the low 16 bits of the 32-bit register pair:
      the high word never contributes. */
  lemma PowerIsLowWord(high: Word, low: Word)
    ensures ReportedPower(Some([high, low])) == (high * 0x1_0000 + low) % 0x1_0000
  {
  }

  /** The inverter's "not a number" reading for a signed 32-bit register
      (0x8000_0000, reported at night) comes out as 0 W. */
  lemma NotANumberReadsZero()
    ensures ReportedPower(Some([0x8000, 0x0000])) == 0
  {
  }

  /** A negative reading is not mapped to 0: -1 W (0xFFFF_FFFF) is reported
      as 65535 W. */
  lemma NegativeReadingIsLarge()
    ensures ReportedPower(Some([0xFFFF, 0xFFFF])) == 65535
  {
  }

  /** The reported power never exceeds 65535 W; a true total of 65536 W
      reads as 0 W. */
  lemma PowerWrapsAt16Bits()
    ensures ReportedPower(Some([1, 0])) == 0
  {
  }
}
