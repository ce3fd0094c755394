/** The processor status register and the flag update done after a load. */
module Status {
  import opened Bits

  /** The status register is a bit field, updated with bitwise `|=`. */
  type Flags = bv8

  /** Zero flag (bit 1). */
  const Z: Flags := 0x02

  /** Negative flag (bit 7). */
  const N: Flags := 0x80

  predicate ZeroSet(ps: Flags)
  {
    ps & Z != 0
  }

  predicate NegativeSet(ps: Flags)
  {
    ps & N != 0
  }

  /** The status register after loading `a` into the accumulator: Z is OR-ed in
      when `a` is zero and N when bit 7 of `a` is set. Nothing is ever cleared:
      a flag set before stays set, and no bit but Z and N changes. */
  function SetStatus(ps: Flags, a: Byte): (r: Flags)
    ensures ZeroSet(r) <==> a == 0 || ZeroSet(ps)
    ensures NegativeSet(r) <==> Bit7(a) || NegativeSet(ps)
    ensures r & !(Z | N) == ps & !(Z | N)
    ensures r & ps == ps
  {
    var withZ := if a == 0 then ps | Z else ps;
    if Bit7(a) then withZ | N else withZ
  }
}
