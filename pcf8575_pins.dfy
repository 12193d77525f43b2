/**
 The constants of the PCF8575 header: the chip family's base address and the
 sixteen pin selectors. Each selector is a one-bit mask of the 16-bit port
 register; P10..P17 (port 1) sit in the low byte and P0..P7 (port 0) in the
 high byte.
 */
module Pcf8575Pins {

  /** PCF8575_DEFAULT_ADDRESS: the base 7-bit bus address of the chip family. */
  const DefaultAddress: bv8 := 0x20

  /** pcf8575_pin_t, in the order the header declares it. */
  datatype Pin =
    | P10 | P11 | P12 | P13 | P14 | P15 | P16 | P17
    | P0 | P1 | P2 | P3 | P4 | P5 | P6 | P7
  {
    /** The pin belongs to port 1 (P10..P17). */
    predicate IsPort1() {
      P10? || P11? || P12? || P13? || P14? || P15? || P16? || P17?
    }
  }

  /** Every pin, in declaration order. */
  const AllPins: seq<Pin> :=
    [P10, P11, P12, P13, P14, P15, P16, P17, P0, P1, P2, P3, P4, P5, P6, P7]

  /** A mask with exactly one bit set, i.e. a power of two below 2^16. */
  predicate IsSingleBit(m: bv16) {
    m != 0 && m & (m - 1) == 0
  }

  /** The bit position of a pin in the port register. */
  function Index(p: Pin): (i: nat)
    ensures i < 16
    ensures i < 8 <==> p.IsPort1()
  {
    match p
    case P10 => 0  case P11 => 1  case P12 => 2  case P13 => 3
    case P14 => 4  case P15 => 5  case P16 => 6  case P17 => 7
    case P0 => 8   case P1 => 9   case P2 => 10  case P3 => 11
    case P4 => 12  case P5 => 13  case P6 => 14  case P7 => 15
  }

  /** The enum value of a pin: a single set bit, low byte for port 1, high byte for port 0. */
  function Mask(p: Pin): bv16
  {
    match p
    case P10 => 1 << 0   case P11 => 1 << 1   case P12 => 1 << 2   case P13 => 1 << 3
    case P14 => 1 << 4   case P15 => 1 << 5   case P16 => 1 << 6   case P17 => 1 << 7
    case P0 => 1 << 8    case P1 => 1 << 9    case P2 => 1 << 10   case P3 => 1 << 11
    case P4 => 1 << 12   case P5 => 1 << 13   case P6 => 1 << 14   case P7 => 1 << 15
  }

  /** Each pin selects exactly one bit: one of the low byte for port 1, of the high byte for port 0. */
  lemma MaskIsSingleBit(p: Pin)
    ensures IsSingleBit(Mask(p))
    ensures p.IsPort1() <==> Mask(p) <= 0xFF
  {
  }

  /** The mask of a pin is the bit at its index. */
  lemma MaskIsBitAtIndex(p: Pin)
    ensures Mask(p) == (1 as bv16) << Index(p)
  {
  }

  /** Distinct pins select disjoint bits, so in particular their masks differ. */
  lemma MasksDisjoint(p: Pin, q: Pin)
    ensures p != q <==> Mask(p) & Mask(q) == 0
  {
  }

  /** The bitwise OR of the masks of `ps`: the register bits they select together. */
  function Union(ps: seq<Pin>): bv16
  {
    if ps == [] then 0 else Mask(ps[0]) | Union(ps[1..])
  }

  /** Every pin of `ps` has its bit set in their union. */
  lemma {:induction false} UnionHasPin(ps: seq<Pin>, k: nat)
    requires k < |ps|
    ensures Union(ps) & Mask(ps[k]) == Mask(ps[k])
  {
    if k > 0 {
      UnionHasPin(ps[1..], k - 1);
      assert ps[1..][k - 1] == ps[k];
    }
  }

  /** AllPins lists the pins in bit order: the pin at position i selects bit i. */
  lemma AllPinsInBitOrder()
    ensures |AllPins| == 16
    ensures forall i :: 0 <= i < |AllPins| ==> Index(AllPins[i]) == i
  {
  }

  /** Every pin stands in AllPins at the position of its bit. */
  lemma PinInAllPins(p: Pin)
    ensures AllPins[Index(p)] == p
  {
    match p
    case P10 => case P11 => case P12 => case P13 => case P14 => case P15 => case P16 => case P17 =>
    case P0 => case P1 => case P2 => case P3 => case P4 => case P5 => case P6 => case P7 =>
  }

  /** The sixteen pins are pairwise distinct and every pin is among them. */
  lemma AllPinsDistinct()
    ensures forall i, j :: 0 <= i < j < |AllPins| ==> AllPins[i] != AllPins[j]
    ensures forall p: Pin :: p in AllPins
  {
    AllPinsInBitOrder();
    forall p: Pin ensures p in AllPins {
      PinInAllPins(p);
    }
  }

  /** Every pin value, not only those of a given list, has its bit in the union of the declared pins. */
  lemma PinInRegister(p: Pin)
    ensures Union(AllPins) & Mask(p) == Mask(p)
  {
    PinInAllPins(p);
    UnionHasPin(AllPins, Index(p));
  }

  /** Together the sixteen pin masks cover the whole register. */
  lemma AllPinsCoverRegister()
    ensures Union(AllPins) == 0xFFFF
  {
    UnionHasPin(AllPins, 0);
    UnionHasPin(AllPins, 1);
    UnionHasPin(AllPins, 2);
    UnionHasPin(AllPins, 3);
    UnionHasPin(AllPins, 4);
    UnionHasPin(AllPins, 5);
    UnionHasPin(AllPins, 6);
    UnionHasPin(AllPins, 7);
    UnionHasPin(AllPins, 8);
    UnionHasPin(AllPins, 9);
    UnionHasPin(AllPins, 10);
    UnionHasPin(AllPins, 11);
    UnionHasPin(AllPins, 12);
    UnionHasPin(AllPins, 13);
    UnionHasPin(AllPins, 14);
    UnionHasPin(AllPins, 15);
  }
}
