/**
 The PCF8575 driver: a device handle holding a shadow of the chip's 16-bit
 port register, and the operations that keep the shadow and the chip in step
 over two-byte I2C transactions.

 The handle keeps three masks: `pinsSelectedMode` (bit 1 means input),
 `pinsSet` (the value to drive on the pins) and `pinsState` (the last value
 read back). Every operation that changes `pinsSet` also brings
 `pinsSelectedMode` to the same value, so `Mirrored()` is an invariant of
 every handle the driver publishes. A write sends the high byte first; a
 read takes the low byte first.
 */
module Pcf8575 {
  import opened EspI2c
  import opened Pcf8575Pins

  /** A two-byte bus transaction buffer (uint8_t data[2]). */
  type Frame = f: seq<bv8> | |f| == 2 witness [0, 0]

  // ---------------------------------------------------------------------------
  // Pure register arithmetic

  /**
   BITMASK_SET_PIN as a value: `mask` with every bit of `pin` forced to
   `state` and every other bit left alone.
   */
  function SetPinBits(mask: bv16, pin: bv16, state: bool): bv16
  {
    (mask & !pin) | (if state then pin else 0)
  }

  /** After BITMASK_SET_PIN the bits of `pin` all equal `state` and no other bit has moved. */
  lemma SetPinBitsSpec(mask: bv16, pin: bv16, state: bool)
    ensures SetPinBits(mask, pin, state) & pin == (if state then pin else 0)
    ensures SetPinBits(mask, pin, state) & !pin == mask & !pin
  {
  }

  /** The frame write_port sends for register value `v`: high byte first. */
  function Pack(v: bv16): (f: Frame)
    ensures ((f[0] as bv16) << 8) | (f[1] as bv16) == v
  {
    [((v >> 8) & 0xFF) as bv8, (v & 0xFF) as bv8]
  }

  /** The register value read_port takes from a received frame: low byte first. */
  function Unpack(f: Frame): (v: bv16)
    ensures (v & 0xFF) as bv8 == f[0] && (v >> 8) as bv8 == f[1]
  {
    (f[0] as bv16) | ((f[1] as bv16) << 8)
  }

  /** Reference definition: `v` with its two bytes exchanged. */
  function SwapBytes(v: bv16): (r: bv16)
    ensures (r & 0xFF) == (v >> 8) && (r >> 8) == (v & 0xFF)
  {
    (v << 8) | (v >> 8)
  }

  /** The bits of `pin` read back as `state`; for a single pin, its bit is set exactly when `state`. */
  lemma SetPinReadsBack(mask: bv16, p: Pin, state: bool)
    ensures (SetPinBits(mask, Mask(p), state) & Mask(p) != 0) == state
    ensures forall q: Pin :: q != p ==>
      SetPinBits(mask, Mask(p), state) & Mask(q) == mask & Mask(q)
  {
    forall q: Pin | q != p
      ensures SetPinBits(mask, Mask(p), state) & Mask(q) == mask & Mask(q)
    {
      MasksDisjoint(p, q);
    }
  }

  /** Forcing bits high changes nothing exactly when they are already high. */
  lemma OrUnchangedIff(mask: bv16, pin: bv16)
    ensures mask | pin == mask ==> mask & pin == pin
    ensures mask & pin == pin ==> mask | pin == mask
  {
  }

  /** Forcing bits low changes nothing exactly when they are already low. */
  lemma AndNotUnchangedIff(mask: bv16, pin: bv16)
    ensures mask & !pin == mask ==> mask & pin == 0
    ensures mask & pin == 0 ==> mask & !pin == mask
  {
  }

  /** Setting a pin leaves the mask as it was exactly when its bits already held `state`. */
  lemma SetPinBitsUnchangedIff(mask: bv16, pin: bv16, state: bool)
    ensures state ==> (SetPinBits(mask, pin, state) == mask <==> mask & pin == pin)
    ensures !state ==> (SetPinBits(mask, pin, state) == mask <==> mask & pin == 0)
  {
    if state {
      assert SetPinBits(mask, pin, true) == mask | pin;
      OrUnchangedIff(mask, pin);
    } else {
      assert SetPinBits(mask, pin, false) == mask & !pin;
      AndNotUnchangedIff(mask, pin);
    }
  }

  /** Setting the same pins to the same state twice is the same as once. */
  lemma SetPinBitsIdempotent(mask: bv16, pin: bv16, state: bool)
    ensures SetPinBits(SetPinBits(mask, pin, state), pin, state) == SetPinBits(mask, pin, state)
  {
  }

  /** XOR with a pin flips exactly the pin's bit; doing it twice restores the mask. */
  lemma ToggleFlipsOnlyPin(mask: bv16, p: Pin)
    ensures (mask ^ Mask(p)) & Mask(p) != mask & Mask(p)
    ensures (mask ^ Mask(p)) & !Mask(p) == mask & !Mask(p)
    ensures (mask ^ Mask(p)) ^ Mask(p) == mask
  {
  }

  /** Exchanging the bytes twice gives back the original value. */
  lemma SwapBytesInvolution(v: bv16)
    ensures SwapBytes(SwapBytes(v)) == v
  {
  }

  /**
   The read order is the mirror of the write order: unpacking the frame that
   write_port sends for `v` gives `v` with its bytes exchanged, and packing a
   received value gives the received bytes in the opposite order.
   */
  lemma UnpackPackSwaps(v: bv16, f: Frame)
    ensures Unpack(Pack(v)) == SwapBytes(v)
    ensures Pack(Unpack(f)) == [f[1], f[0]]
  {
  }

  /** Reading back the written frame returns the written value only when both bytes are equal. */
  lemma UnpackPackIdentityIff(v: bv16)
    ensures Unpack(Pack(v)) == v <==> Pack(v)[0] == Pack(v)[1]
  {
  }

  /** The byte-order asymmetry on a concrete value. */
  lemma ByteOrderExample()
    ensures Pack(0x1234) == [0x12, 0x34]
    ensures Unpack([0x12, 0x34]) == 0x3412
    ensures Pack(0xFFFF) == [0xFF, 0xFF]
  {
  }

  /**
   A port-1 pin (P10..P17) is carried by the second byte write_port sends, a
   port-0 pin (P0..P7) by the first.
   */
  lemma PinByteInFrame(p: Pin)
    ensures p.IsPort1() ==> Pack(Mask(p)) == [0, Mask(p) as bv8]
    ensures !p.IsPort1() ==> Pack(Mask(p)) == [(Mask(p) >> 8) as bv8, 0]
  {
  }

  // ---------------------------------------------------------------------------
  // The device handle

  /** Where a handle is in its life: allocated but not yet published, published, freed. */
  datatype Lifecycle = Uninitialized | Active | Destroyed

  /** pcf8575_handle_t */
  class Handle {
    /** Direction shadow: bit 1 means the pin is an input. */
    var pinsSelectedMode: bv16
    /** The last register value read from the chip. */
    var pinsState: bv16
    /** The value to drive on the pins. */
    var pinsSet: bv16
    /** The bus device the handle owns; null until it is registered. */
    var dev: Device?
    ghost var lifecycle: Lifecycle

    /** calloc(1, sizeof(pcf8575_handle_t)): every field zero, no device yet. */
    constructor ()
      ensures pinsSelectedMode == 0 && pinsState == 0 && pinsSet == 0
      ensures dev == null && lifecycle == Uninitialized
    {
      pinsSelectedMode, pinsState, pinsSet := 0, 0, 0;
      dev := null;
      lifecycle := Uninitialized;
    }

    /** The handle owns a registered device, not yet asked to be removed, and has not been freed. */
    ghost predicate Bound()
      reads this, dev
    {
      dev != null && dev.registered && !dev.removeAttempted && lifecycle != Destroyed
    }

    /** The direction shadow equals the value to drive. */
    predicate Mirrored()
      reads this
    {
      pinsSelectedMode == pinsSet
    }

    /**
     free(handle): the storage is released; no field is touched. The driver
     frees a handle only after it has asked the bus to drop the handle's
     device, since the device handle lives inside the storage being freed,
     and it frees each handle once.
     */
    method Free()
      requires lifecycle != Destroyed
      requires dev == null || dev.removeAttempted
      modifies this
      ensures lifecycle == Destroyed
      ensures pinsSelectedMode == old(pinsSelectedMode) && pinsState == old(pinsState)
      ensures pinsSet == old(pinsSet) && dev == old(dev)
    {
      lifecycle := Destroyed;
    }
  }

  /** A caller's handle variable (pcf8575_handle_t *), reached through a pointer to it. */
  class HandleRef {
    var handle: Handle?

    constructor ()
      ensures handle == null
    {
      handle := null;
    }
  }

  /** What an operation on `h` may change: the handle and the device it owns. */
  ghost function Footprint(h: Handle?): set<object?>
    reads h
  {
    if h == null then {} else {h, h.dev}
  }

  // ---------------------------------------------------------------------------
  // Operations

  /**
   pcf8575_init: validates the arguments, allocates a zeroed handle, registers
   the device at `address`, marks every pin as a released input and flushes
   that default to the chip. On any failure after allocation the device (if
   registered) is removed and the handle freed, and `*out` is left untouched.
   `allocOk`, `addRet`, `txRet` and `rmRet` are the outcomes of calloc, device
   registration, the first transmit and the clean-up removal; the removal's
   result is ignored.
   */
  method Init(out: HandleRef?, bus: Bus?, address: bv8, allocOk: bool, addRet: EspErr, txRet: EspErr,
              rmRet: EspErr)
    returns (ret: EspErr, ghost h: Handle?)
    modifies out
    ensures out == null || bus == null || address < DefaultAddress ==> ret == ErrInvalidArg
    ensures out != null && bus != null && address >= DefaultAddress && !allocOk ==> ret == ErrNoMem
    ensures h != null <==> out != null && bus != null && address >= DefaultAddress && allocOk
    ensures h != null ==> fresh(h) && h.pinsState == 0
    ensures h != null && addRet != Ok ==> ret == addRet && h.dev == null && h.lifecycle == Destroyed
    ensures h != null && addRet == Ok ==>
      && h.dev != null && fresh(h.dev) && h.dev.address == address
      && h.pinsSet == 0xFFFF && h.Mirrored()
      && h.dev.sent == [[0xFF, 0xFF]]
    ensures h != null && addRet == Ok && txRet != Ok ==>
      && ret == txRet && h.dev != null && h.lifecycle == Destroyed
      && h.dev.removeAttempted && h.dev.registered == (rmRet != Ok)
    ensures ret == Ok <==> h != null && addRet == Ok && txRet == Ok
    ensures ret == Ok ==> out != null && out.handle == h && h.lifecycle == Active && h.Bound()
    ensures ret != Ok && out != null ==> out.handle == old(out.handle)
  {
    h := null;
    if out == null || bus == null || address < DefaultAddress {
      return ErrInvalidArg, h;
    }
    if !allocOk {
      return ErrNoMem, h;
    }
    var handle := new Handle();
    h := handle;
    var dev;
    ret, dev := bus.AddDevice(address, addRet);
    handle.dev := dev;
    if ret != Ok {
      handle.Free();
      return ret, h;
    }
    handle.pinsSelectedMode := 0xFFFF;
    handle.pinsSet := 0xFFFF;
    ret := WritePort(handle, txRet);
    if ret != Ok {
      var _ := dev.Remove(rmRet);
      handle.Free();
      return ret, h;
    }
    handle.lifecycle := Active;
    out.handle := handle;
  }

  /**
   pcf8575_read_port: one two-byte receive. On success `pinsState` becomes
   the received frame read low byte first; on failure it keeps its old value.
   Nothing else changes and nothing is transmitted. `rxRet` and `rx` are the
   receive's result code and the bytes it delivers.
   */
  method ReadPort(h: Handle?, rxRet: EspErr, rx: Frame) returns (ret: EspErr)
    requires h != null ==> h.Bound()
    modifies h
    ensures h == null ==> ret == ErrInvalidArg
    ensures h != null ==>
      && ret == rxRet
      && h.pinsState == (if rxRet == Ok then Unpack(rx) else old(h.pinsState))
      && h.pinsSet == old(h.pinsSet) && h.pinsSelectedMode == old(h.pinsSelectedMode)
      && h.dev == old(h.dev) && h.lifecycle == old(h.lifecycle)
      && unchanged(h.dev) && h.Bound()
  {
    if h == null {
      return ErrInvalidArg;
    }
    ret := rxRet;
    if ret == Ok {
      h.pinsState := Unpack(rx);
    }
  }

  /**
   pcf8575_write_port: copies `pinsSet` into the direction shadow and hands
   exactly one frame, `pinsSet` high byte first, to the transport. A failed
   transmit is reported but nothing is rolled back.
   */
  method WritePort(h: Handle?, txRet: EspErr) returns (ret: EspErr)
    requires h != null ==> h.Bound()
    modifies Footprint(h)
    ensures h == null ==> ret == ErrInvalidArg
    ensures h != null ==>
      && h.dev == old(h.dev) && h.lifecycle == old(h.lifecycle) && h.Bound()
      && h.pinsSet == old(h.pinsSet) && h.Mirrored()
      && h.pinsState == old(h.pinsState)
      && h.dev.sent == old(h.dev.sent) + [Pack(h.pinsSet)]
      && ret == txRet
  {
    if h == null {
      return ErrInvalidArg;
    }
    h.pinsSelectedMode := h.pinsSet;
    var data := Pack(h.pinsSet);
    ret := h.dev.Transmit(data, txRet);
  }

  /**
   pcf8575_set_pin: forces the bits of `pin` to `state` in both shadows. If
   `pinsSet` did not change, it succeeds without touching the bus; otherwise
   it writes the port once and returns the write's result.
   */
  method SetPin(h: Handle?, pin: bv16, state: bool, txRet: EspErr) returns (ret: EspErr)
    requires h != null ==> h.Bound()
    modifies Footprint(h)
    ensures h == null ==> ret == ErrInvalidArg
    ensures h != null ==>
      && h.dev == old(h.dev) && h.lifecycle == old(h.lifecycle) && h.Bound()
      && h.pinsSet == SetPinBits(old(h.pinsSet), pin, state)
      && h.pinsState == old(h.pinsState)
    ensures h != null && h.pinsSet == old(h.pinsSet) ==>
      && ret == Ok
      && h.pinsSelectedMode == SetPinBits(old(h.pinsSelectedMode), pin, state)
      && h.dev.sent == old(h.dev.sent)
    ensures h != null && h.pinsSet != old(h.pinsSet) ==>
      && ret == txRet
      && h.Mirrored()
      && h.dev.sent == old(h.dev.sent) + [Pack(h.pinsSet)]
    ensures h != null && old(h.Mirrored()) ==> h.Mirrored()
  {
    if h == null {
      return ErrInvalidArg;
    }
    h.pinsSelectedMode := SetPinBits(h.pinsSelectedMode, pin, state);
    var oldMask := h.pinsSet;
    h.pinsSet := SetPinBits(h.pinsSet, pin, state);
    if h.pinsSet == oldMask {
      return Ok;
    }
    ret := WritePort(h, txRet);
  }

  /**
   pcf8575_toggle_pin: flips the bits of `pin` in both shadows and always
   writes the port once, returning the write's result.
   */
  method TogglePin(h: Handle?, pin: bv16, txRet: EspErr) returns (ret: EspErr)
    requires h != null ==> h.Bound()
    modifies Footprint(h)
    ensures h == null ==> ret == ErrInvalidArg
    ensures h != null ==>
      && h.dev == old(h.dev) && h.lifecycle == old(h.lifecycle) && h.Bound()
      && h.pinsSet == old(h.pinsSet) ^ pin
      && h.Mirrored()
      && h.pinsState == old(h.pinsState)
      && h.dev.sent == old(h.dev.sent) + [Pack(h.pinsSet)]
      && ret == txRet
  {
    if h == null {
      return ErrInvalidArg;
    }
    h.pinsSet := h.pinsSet ^ pin;
    h.pinsSelectedMode := h.pinsSelectedMode ^ pin;
    ret := WritePort(h, txRet);
  }

  /**
   pcf8575_deinit: a no-op on a null pointer or a null handle; otherwise the
   removal of the device is requested, the handle freed and the caller's
   variable cleared, so that calling it again is a no-op. The removal's
   result `rmRet` is ignored: if it fails, the binding stays behind but the
   handle is freed all the same.
   */
  method Deinit(ref: HandleRef?, rmRet: EspErr)
    requires ref != null && ref.handle != null ==> ref.handle.Bound()
    modifies ref, if ref != null then Footprint(ref.handle) else {}
    ensures ref != null ==> ref.handle == null
    ensures ref != null && old(ref.handle) != null ==>
      && old(ref.handle).lifecycle == Destroyed
      && old(ref.handle).dev == old(ref.handle.dev)
      && old(ref.handle.dev).removeAttempted
      && old(ref.handle.dev).registered == (rmRet != Ok)
      && old(ref.handle.dev).sent == old(ref.handle.dev.sent)
  {
    if ref == null || ref.handle == null {
      return;
    }
    var h := ref.handle;
    var _ := h.dev.Remove(rmRet);
    h.Free();
    ref.handle := null;
  }

  // ---------------------------------------------------------------------------
  // Call sequences

  /**
   Two identical set_pin calls in a row transmit at most one frame; the second
   never writes. In particular, after a failed transmit the repeated call
   returns OK without retrying, because `pinsSet` already holds the new value:
   a caller has to retry with write_port.
   */
  method SetPinTwice(h: Handle, pin: bv16, state: bool, tx1: EspErr, tx2: EspErr)
    returns (r1: EspErr, r2: EspErr)
    requires h.Bound()
    modifies Footprint(h)
    ensures h.Bound() && h.dev == old(h.dev)
    ensures h.dev.sent == old(h.dev.sent) +
      (if SetPinBits(old(h.pinsSet), pin, state) == old(h.pinsSet) then []
       else [Pack(SetPinBits(old(h.pinsSet), pin, state))])
    ensures r2 == Ok
    ensures h.pinsSet == SetPinBits(old(h.pinsSet), pin, state)
  {
    r1 := SetPin(h, pin, state, tx1);
    SetPinBitsIdempotent(old(h.pinsSet), pin, state);
    r2 := SetPin(h, pin, state, tx2);
  }

  /** Two toggles of the same pin restore `pinsSet` and always transmit two frames. */
  method ToggleTwice(h: Handle, pin: bv16, tx1: EspErr, tx2: EspErr)
    returns (r1: EspErr, r2: EspErr)
    requires h.Bound()
    modifies Footprint(h)
    ensures h.Bound() && h.dev == old(h.dev)
    ensures h.pinsSet == old(h.pinsSet) && h.Mirrored()
    ensures h.dev.sent == old(h.dev.sent) + [Pack(old(h.pinsSet) ^ pin), Pack(old(h.pinsSet))]
    ensures r1 == tx1 && r2 == tx2
  {
    r1 := TogglePin(h, pin, tx1);
    r2 := TogglePin(h, pin, tx2);
  }

  /**
   Deinit followed by deinit on the cleared variable is harmless: the second
   call finds a null handle, so the device ends as the first removal left it.
   */
  method DeinitTwice(ref: HandleRef, rm1: EspErr, rm2: EspErr)
    requires ref.handle != null ==> ref.handle.Bound()
    modifies ref, Footprint(ref.handle)
    ensures ref.handle == null
    ensures old(ref.handle) != null ==>
      && old(ref.handle).lifecycle == Destroyed
      && old(ref.handle.dev).removeAttempted
      && old(ref.handle.dev).registered == (rm1 != Ok)
      && old(ref.handle.dev).sent == old(ref.handle.dev.sent)
  {
    Deinit(ref, rm1);
    Deinit(ref, rm2);
  }
}
