# PCF8575 driver model

A Dafny model of the core of an ESP-IDF driver for the PCF8575, a 16-bit
quasi-bidirectional I2C GPIO expander. The driver keeps a device handle with
three 16-bit shadow masks:

- `pinsSelectedMode` (`pins_selected_mode`): the direction shadow; bit 1 means input;
- `pinsSet` (`pins_set`): the value to drive on the pins;
- `pinsState` (`pins_state`): the last value read back from the chip.

The driver mirrors the shadow to the chip over two-byte I2C transactions. A
write sends the high byte first. A read takes the low byte first.

Files:

- `esp_i2c.dfy`, module `EspI2c`: the I2C transport the driver uses, as an
  abstraction. It holds the `esp_err_t` codes the driver itself returns, a
  `Bus` that registers devices, and a `Device` that logs every buffer handed to
  transmit, knows whether it is still registered, and records (as ghost state)
  whether its removal was requested. Each transport call's outcome is a
  parameter: the result code of registration, transmit, receive and removal,
  and for a receive the two bytes.
- `pcf8575_pins.dfy`, module `Pcf8575Pins`: the header constants. These are
  `DefaultAddress` (0x20) and the `Pin` enumeration with its one-bit `Mask`
  values. The module also has the OR of a list of pin masks and the facts that
  the sixteen pins are distinct and cover the register.
- `pcf8575.dfy`, module `Pcf8575`: the driver. It has the handle as a class
  with a ghost lifecycle (`Uninitialized`, `Active`, `Destroyed`), the caller's
  handle variable as a `HandleRef` cell, and the six operations as methods. Each
  method takes a nullable handle, as the C functions take a pointer. It also
  has the pure bit and byte arithmetic the methods use, and lemmas about it.

Masks are `bv16` and bytes are `bv8`, so all mask arithmetic wraps modulo
2^16 as `uint16_t` does. `Handle.Mirrored()` (`pinsSelectedMode == pinsSet`)
is established by a successful init. Every operation preserves it, and
write_port and toggle_pin re-establish it unconditionally.

## Model

| member | source | states |
|---|---|---|
| Pcf8575Pins.DefaultAddress | include/pcf8575.h:4 | the base bus address 0x20; its meaning, the lowest address init accepts, is stated by `Pcf8575.Init` |
| Pcf8575Pins.Mask | include/pcf8575.h:6-23 | the enum value of each pin; its meaning is stated by `MaskIsSingleBit`, `MaskIsBitAtIndex` and `MasksDisjoint` |
| Pcf8575Pins.Index | include/pcf8575.h:6-23 | each pin's bit position is below 16, and below 8 exactly for the port-1 pins P10..P17 |
| Pcf8575Pins.MaskIsSingleBit | include/pcf8575.h:7-22 | every pin constant is a single set bit (a power of two below 2^16); it lies in the low byte exactly for P10..P17 |
| Pcf8575Pins.MaskIsBitAtIndex | include/pcf8575.h:7-22 | each pin constant is `1 << i` for its bit position i |
| Pcf8575Pins.MasksDisjoint | include/pcf8575.h:6-23 | two pins are different exactly when their masks share no bit, so the constants are pairwise distinct |
| Pcf8575Pins.UnionHasPin | include/pcf8575.h:6-23 | every pin of a list has its bit set in the OR of the list's masks (by induction on the list) |
| Pcf8575Pins.AllPinsInBitOrder | include/pcf8575.h:6-23 | the sixteen pins in declaration order select bits 0 to 15 in turn |
| Pcf8575Pins.PinInAllPins | include/pcf8575.h:6-23 | every pin appears in the declaration list at the position of its bit |
| Pcf8575Pins.AllPinsDistinct | include/pcf8575.h:6-23 | the declaration list has no repeated entry and enumerates every pin; that the enum VALUES are distinct is `MasksDisjoint` |
| Pcf8575Pins.PinInRegister | include/pcf8575.h:6-23 | every pin's bit is set in the OR of the sixteen declared pin constants |
| Pcf8575Pins.AllPinsCoverRegister | include/pcf8575.h:6-23 | the OR of the sixteen pin constants is 0xFFFF, so the pins cover the whole register |
| Pcf8575.SetPinBits | pcf8575.c:12-13 | BITMASK_SET_PIN as a value; its meaning is stated by `SetPinBitsSpec`, `SetPinReadsBack`, `SetPinBitsUnchangedIff` and `SetPinBitsIdempotent` |
| Pcf8575.SetPinBitsSpec | pcf8575.c:12-13 | after BITMASK_SET_PIN the bits of `pin` all equal `state` and every bit outside `pin` is unchanged |
| Pcf8575.SetPinReadsBack | pcf8575.c:12-13 | setting a single pin makes its bit read back as `state` and leaves every other pin's bit as it was |
| Pcf8575.SetPinBitsUnchangedIff | pcf8575.c:95-101 | the set_pin update leaves the mask unchanged (the no-write path) exactly when the pin bits already hold `state` |
| Pcf8575.SetPinBitsIdempotent | pcf8575.c:95-101 | applying the same set_pin update twice gives the same mask as once, so a repeated call takes the no-write path |
| Pcf8575.ToggleFlipsOnlyPin | pcf8575.c:112-113 | XOR with a pin constant flips that pin's bit, leaves all others, and a second XOR restores the mask |
| Pcf8575.Pack | pcf8575.c:77-80 | the frame write_port builds is `v` in big-endian order: first byte times 256 plus second byte is `v` |
| Pcf8575.Unpack | pcf8575.c:64 | the value read_port builds has the first received byte as its low byte and the second as its high byte |
| Pcf8575.UnpackPackSwaps | pcf8575.c:64-80 | reading back the frame written for `v` gives `v` with its bytes swapped, not `v`; packing a received value reverses the received bytes |
| Pcf8575.SwapBytesInvolution | pcf8575.c:64-80 | swapping the bytes twice restores the value, so read-after-write is undone by a second swap |
| Pcf8575.UnpackPackIdentityIff | pcf8575.c:64-80 | a written value reads back unchanged exactly when its two bytes are equal |
| Pcf8575.ByteOrderExample | pcf8575.c:64-80 | 0x1234 is written as [0x12, 0x34], the wire bytes [0x12, 0x34] read back as 0x3412, and the init value 0xFFFF is written as [0xFF, 0xFF] |
| Pcf8575.PinByteInFrame | pcf8575.c:77-80 | a port-1 pin (P10..P17) travels in the second byte write_port sends, a port-0 pin (P0..P7) in the first |
| Pcf8575.Handle.constructor | pcf8575.c:23 | calloc gives a handle whose three masks are zero, with no device and not yet published |
| Pcf8575.Handle.Free | pcf8575.c:123-124 | the free in deinit, and likewise the frees on init's two failure paths (pcf8575.c lines 36 and 46): free releases the handle (Destroyed) and touches no field; it may be called only on a handle not yet freed (no double free), and only once the handle has no device or its device's removal has been requested, so the device handle is never read from freed storage |
| Pcf8575.Init | pcf8575.c:15-52 | INVALID_ARG for a null out-pointer, a null bus or an address below 0x20, with nothing allocated; NO_MEM when allocation fails; if registration fails, its code is returned and only the handle is freed; if the first write fails, its code is returned, the device's removal is requested (its result ignored, so the device stays registered exactly when the removal failed) and then the handle is freed; on success both shadows are 0xFFFF, exactly one frame [0xFF, 0xFF] was sent, and the Active handle is stored in `*out`; `*out` is untouched on every failure |
| Pcf8575.ReadPort | pcf8575.c:54-69 | INVALID_ARG on a null handle; otherwise returns the receive's code, sets `pinsState` to the frame read low byte first on success, keeps it on failure, and changes nothing else and sends nothing |
| Pcf8575.WritePort | pcf8575.c:71-88 | INVALID_ARG on a null handle; otherwise copies `pinsSet` into the direction shadow, sends exactly one frame (`pinsSet` high byte first), and returns the transmit's code; `pinsSet` is unchanged and nothing is rolled back on failure |
| Pcf8575.SetPin | pcf8575.c:90-104 | INVALID_ARG on a null handle; otherwise `pinsSet` gets the BITMASK_SET_PIN update; if that leaves `pinsSet` unchanged it returns OK and sends nothing; otherwise it sends exactly one frame of the new value and returns the write's code; the mirror invariant is preserved on both paths |
| Pcf8575.TogglePin | pcf8575.c:106-115 | INVALID_ARG on a null handle; otherwise `pinsSet` becomes old `pinsSet` XOR `pin`, the direction shadow equals it, and exactly one frame of the new value is sent every time |
| Pcf8575.Deinit | pcf8575.c:117-126 | a no-op for a null pointer or a null handle; otherwise the device's removal is requested and its result ignored (the device stays registered exactly when the removal failed), then the handle is freed (Destroyed), the caller's variable set to null, and nothing is sent |
| Pcf8575.SetPinTwice | pcf8575.c:95-103 | two identical set_pin calls in a row send exactly one frame of the updated value when the first call changes `pinsSet` and none otherwise; the second returns OK, even when the first call's transmit failed, so repeating set_pin does not retry a failed write (write_port does) |
| Pcf8575.ToggleTwice | pcf8575.c:112-114 | toggling the same pin twice restores `pinsSet` and sends exactly two frames, the toggled value then the original |
| Pcf8575.DeinitTwice | pcf8575.c:117-126 | deinit followed by deinit on the cleared variable leaves it null and the handle Destroyed; the device's registration depends only on the first removal's outcome, so the second call touches nothing |

## Left out

- The ESP-IDF I2C calls (`i2c_master_bus_add_device`, `i2c_master_transmit`,
  `i2c_master_receive`, `i2c_master_bus_rm_device`) are not modelled inside.
  Each is reduced to its observable effect, and its outcome is a parameter. A
  failed removal is taken to leave the device registered. A
  device logs every buffer handed to transmit, including ones whose transmit
  failed. Receives are not logged.
- The 400 kHz bus clock, the 7-bit addressing mode, the 100 ms timeout and the
  FreeRTOS tick conversion are configuration passed to the bus, not logic.
- `ESP_LOGE` diagnostics and `esp_err_to_name`: logging only.
- `calloc` and `free` are modelled only as the handle's ghost lifecycle. An
  allocation failure is the `allocOk` parameter. A freed handle is `Destroyed`
  but still an object in the model. Use-after-free is excluded by the
  operations' requirement that the handle be `Bound()`, and by `Free`
  requiring the device's removal to have been requested first, not by memory.
  Double free is excluded the same way: `Free` requires a handle not yet
  `Destroyed`.
- The `i2c_config` field of the handle: it is never read or written.
- What the chip returns for released-high (input) pins. That is electrical
  state outside the driver, so no read-after-write property on pin levels is
  stated. The byte-order lemmas are about the driver's packing only.
- Concurrency: the driver has no locking and the model is sequential.
- Pin arguments are `bv16` masks. A C enum value outside 16 bits would be
  truncated by the `uint16_t` fields; no declared pin has such a value, so
  that case is not modelled.
- Init accepts every address from 0x20 up to 0xFF, including values that are
  not 7-bit addresses. The model keeps this as written and leaves any further
  rejection to device registration, which is an outcome parameter here.
