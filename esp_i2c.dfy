/**
 The slice of ESP-IDF's I2C master driver that the PCF8575 driver calls,
 reduced to what the driver can observe of it. The bus internals are not
 visible, so each call's outcome is supplied by the caller as a parameter:
 the result code the transport returns and, for a receive, the bytes it
 delivers. A device keeps a log of every buffer handed to transmit, which is
 what lets the driver's contracts say exactly what went onto the wire.
 */
module EspI2c {

  /** esp_err_t: an integer result code, zero meaning success. */
  type EspErr = int

  /** ESP_OK */
  const Ok: EspErr := 0
  /** ESP_ERR_NO_MEM */
  const ErrNoMem: EspErr := 0x101
  /** ESP_ERR_INVALID_ARG */
  const ErrInvalidArg: EspErr := 0x102

  /** A device registered on a bus (i2c_master_dev_handle_t). */
  class Device {
    /** The 7-bit address the device was registered with. */
    const address: bv8
    /** True from registration until i2c_master_bus_rm_device. */
    var registered: bool
    /** Every buffer passed to i2c_master_transmit, oldest first. */
    var sent: seq<seq<bv8>>
    /** Whether i2c_master_bus_rm_device has been called on the device, whatever it returned. */
    ghost var removeAttempted: bool

    constructor (address: bv8)
      ensures this.address == address && registered && sent == [] && !removeAttempted
    {
      this.address := address;
      registered := true;
      sent := [];
      removeAttempted := false;
    }

    /** i2c_master_transmit: hands `data` to the bus; `outcome` is what the bus reports. */
    method Transmit(data: seq<bv8>, outcome: EspErr) returns (ret: EspErr)
      modifies this
      ensures ret == outcome
      ensures sent == old(sent) + [data] && registered == old(registered)
      ensures removeAttempted == old(removeAttempted)
    {
      sent := sent + [data];
      ret := outcome;
    }

    /**
     i2c_master_bus_rm_device: on success the device is no longer bound to the
     bus; on failure the binding stays. Either way the removal was attempted.
     */
    method Remove(outcome: EspErr) returns (ret: EspErr)
      modifies this
      ensures ret == outcome
      ensures registered == (old(registered) && outcome != Ok)
      ensures removeAttempted && sent == old(sent)
    {
      if outcome == Ok {
        registered := false;
      }
      removeAttempted := true;
      ret := outcome;
    }
  }

  /** An initialised I2C master bus (i2c_master_bus_handle_t). */
  class Bus {

    constructor ()
    {
    }

    /**
     i2c_master_bus_add_device: on success a fresh device, bound to `address`,
     with nothing sent yet; on failure no device at all.
     */
    method AddDevice(address: bv8, outcome: EspErr) returns (ret: EspErr, dev: Device?)
      ensures ret == outcome
      ensures dev != null <==> ret == Ok
      ensures dev != null ==> fresh(dev) && dev.address == address && dev.registered && dev.sent == []
      ensures dev != null ==> !dev.removeAttempted
    {
      ret := outcome;
      if outcome == Ok {
        dev := new Device(address);
      } else {
        dev := null;
      }
    }
  }
}
