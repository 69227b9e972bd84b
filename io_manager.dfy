/**
 * The controller-port device record of the I/O manager: one record per
 * virtual port, each holding the tristate control byte written by the main
 * CPU, the data the CPU drove onto the port, the data the device itself
 * presents, the TH select line, the button bitfield and the serial sub-state.
 */
module IoManager {
  import opened Bits

  /** Physical controller ports: player 1, player 2, extension. */
  const PHYSPORT_1: int := 0
  const PHYSPORT_2: int := 1
  const PHYSPORT_EXT: int := 2
  const PHYSPORT_MAX: int := 3

  type PhysPort = p: int | 0 <= p < PHYSPORT_MAX

  /** Virtual ports: 3 direct ports, 2 x 4 Team Player slots, 4 4-Way Play slots, 2 J-Cart slots. */
  const VIRTPORT_1: int := 0
  const VIRTPORT_2: int := 1
  const VIRTPORT_EXT: int := 2
  const VIRTPORT_TP1A: int := 3
  const VIRTPORT_TP2A: int := 7
  const VIRTPORT_4WPA: int := 11
  const VIRTPORT_JCART1: int := 15
  const VIRTPORT_JCART2: int := 16
  const VIRTPORT_MAX: int := 17

  type VirtPort = v: int | 0 <= v < VIRTPORT_MAX

  /** Device types. */
  const IOT_NONE: int := 0
  const IOT_3BTN: int := 1
  const IOT_6BTN: int := 2
  const IOT_2BTN: int := 3
  const IOT_MEGA_MOUSE: int := 4
  const IOT_TEAMPLAYER: int := 5
  const IOT_4WP_MASTER: int := 6
  const IOT_4WP_SLAVE: int := 7
  const IOT_MAX: int := 8

  type IoType = t: int | 0 <= t < IOT_MAX

  /** A 6-button pad resets its handshake counter after this many scanlines without a TH edge. */
  const SCANLINE_COUNT_MAX_6BTN: int := 25

  /** The TH (select) pin is data bit 6. */
  const IOPIN_TH: u8 := 0x40

  /** Number of key slots per device. */
  const BTNI_MAX: int := 12

  /** A host key code (GensKey_t, an unsigned 32-bit value). */
  type GensKey = k: nat | k < 0x1_0000_0000

  /** Bits 0 to 6 of the data port, those the tristate control byte can configure. */
  const TRISTATE_LINES: u8 := 0x7F

  /**
   * One controller device. The C++ record is a struct assigned in place by
   * the I/O manager, so it is a class here.
   */
  class IoDevice {
    var ioType: IoType
    var counter: int
    var scanlines: int
    var ctrl: u8
    var mdData: u8
    var deviceData: u8
    var select: bool
    var buttons: u32
    var serCtrl: u8
    var serLastTx: u8
    const keyMap: array<GensKey>

    ghost predicate Valid()
      reads this
    {
      keyMap.Length == BTNI_MAX
    }

    /** Every field except `ioType` and `keyMap` at its power-on value. */
    ghost predicate AtDefaults()
      reads this
    {
      && counter == 0
      && scanlines == 0
      && ctrl == 0
      && mdData == 0xFF
      && deviceData == 0xFF
      && !select
      && buttons == !0
      && serCtrl == 0
      && serLastTx == 0xFF
    }

    /**
     * A fresh 3-button device with all buttons released (active low).
     * The C++ constructor leaves the key map uninitialised; here it is zero.
     */
    constructor ()
      ensures Valid() && fresh(keyMap)
      ensures ioType == IOT_3BTN && AtDefaults()
      ensures ReadData() == 0xFF
    {
      ioType := IOT_3BTN;
      counter := 0;
      scanlines := 0;
      ctrl := 0;
      mdData := 0xFF;
      deviceData := 0xFF;
      select := false;
      buttons := !0;
      serCtrl := 0;
      serLastTx := 0xFF;
      keyMap := new GensKey[BTNI_MAX](_ => 0);
    }

    /** Back to the power-on values; the device type and key map are kept. */
    method Reset()
      requires Valid()
      modifies this
      ensures Valid() && AtDefaults()
      ensures ioType == old(ioType)
      ensures keyMap[..] == old(keyMap[..])
      ensures ReadData() == 0xFF
    {
      counter := 0;
      scanlines := 0;
      ctrl := 0;
      mdData := 0xFF;
      deviceData := 0xFF;
      select := false;
      buttons := !0;
      serCtrl := 0;
      serLastTx := 0xFF;
    }

    /**
     * Recompute the select line: it is high unless TH is configured as an
     * output and the main CPU drives it low.
     */
    method UpdateSelectLine()
      modifies this`select
      ensures IsSelect() <==> !(ctrl & IOPIN_TH != 0 && mdData & IOPIN_TH == 0)
    {
      select := (ctrl & IOPIN_TH == 0) || (mdData & IOPIN_TH != 0);
    }

    function IsSelect(): bool
      reads this
    {
      select
    }

    /**
     * The value seen on the data port when the device presents `data`:
     * lines configured as inputs (bits 0-6 clear in `ctrl`) carry `data`,
     * lines configured as outputs carry what the CPU wrote, and bit 7 is
     * always the CPU's.
     */
    function ApplyTristate(data: u8): (r: u8)
      reads this
      ensures r & (!ctrl & TRISTATE_LINES) == data & (!ctrl & TRISTATE_LINES)
      ensures r & (ctrl | 0x80) == mdData & (ctrl | 0x80)
    {
      (data & (!ctrl & TRISTATE_LINES)) | (mdData & (ctrl | 0x80))
    }

    /** The last data value with the tristate settings applied; reads no other state. */
    function ReadData(): (r: u8)
      reads this
      ensures r == ApplyTristate(deviceData)
      ensures deviceData == 0xFF && mdData == 0xFF ==> r == 0xFF
    {
      ApplyTristate(deviceData)
    }
  }

  /** The two tristate masks split every byte: together they cover all eight bits. */
  lemma TristateMasksPartition(ctrl: u8)
    ensures (!ctrl & TRISTATE_LINES) | (ctrl | 0x80) == 0xFF
    ensures (!ctrl & TRISTATE_LINES) & (ctrl | 0x80) == 0
  {
  }

  /** Applying the tristate twice is applying it once. */
  lemma TristateIdempotent(dev: IoDevice, data: u8)
    ensures dev.ApplyTristate(dev.ApplyTristate(data)) == dev.ApplyTristate(data)
  {
  }

  /**
   * The result depends only on the input lines of `data`: two values that
   * agree there give the same port value, whatever their output lines and bit 7.
   */
  lemma TristateIgnoresOutputLines(dev: IoDevice, d1: u8, d2: u8)
    requires d1 & (!dev.ctrl & TRISTATE_LINES) == d2 & (!dev.ctrl & TRISTATE_LINES)
    ensures dev.ApplyTristate(d1) == dev.ApplyTristate(d2)
  {
  }

  /** With every line an input, the port shows the device data except bit 7, the CPU's. */
  lemma AllInputsShowDeviceData(dev: IoDevice, data: u8)
    requires dev.ctrl == 0
    ensures dev.ApplyTristate(data) == (data & 0x7F) | (dev.mdData & 0x80)
  {
  }

  /**
   * The device table of the I/O manager: one record per virtual port, each
   * default-constructed (the body of the manager's own constructor is not
   * part of this model).
   */
  class IoDeviceTable {
    const devices: array<IoDevice>

    ghost predicate Valid()
      reads this, devices, set i | 0 <= i < devices.Length :: devices[i]
    {
      && devices.Length == VIRTPORT_MAX
      && (forall i :: 0 <= i < devices.Length ==> devices[i].Valid())
      && (forall i, j :: 0 <= i < j < devices.Length ==> devices[i] != devices[j])
    }

    constructor ()
      ensures Valid() && fresh(devices)
      ensures forall v :: 0 <= v < VIRTPORT_MAX ==>
        fresh(devices[v]) && devices[v].ioType == IOT_3BTN && devices[v].AtDefaults()
        && devices[v].keyMap.Length == BTNI_MAX
    {
      var first := new IoDevice();
      var table := new IoDevice[VIRTPORT_MAX](_ => first);
      var v := 1;
      while v < VIRTPORT_MAX
        invariant 1 <= v <= VIRTPORT_MAX
        invariant table[0] == first
        invariant forall k :: 0 <= k < VIRTPORT_MAX ==> fresh(table[k])
        invariant forall k :: 0 <= k < v ==>
          table[k].Valid() && table[k].ioType == IOT_3BTN && table[k].AtDefaults()
        invariant forall i, j :: 0 <= i < j < v ==> table[i] != table[j]
        invariant forall k :: v <= k < VIRTPORT_MAX ==> table[k] == first
      {
        var dev := new IoDevice();
        table[v] := dev;
        v := v + 1;
      }
      devices := table;
    }
  }
}
