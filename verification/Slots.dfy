/** Slot numbers, which are 64 bits wide. */
module Slots {
  const MAX_SLOT: nat := 0xFFFF_FFFF_FFFF_FFFF

  type Slot = s: nat | s <= MAX_SLOT

  /** The slot after this one; the last slot is followed by itself. */
  function Successor(s: Slot): (r: Slot) { if s == MAX_SLOT then s else s + 1 }
}
