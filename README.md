# gens-gs-ii core, modelled in Dafny

This project models five pieces of the Gens/GS II Sega Mega Drive
emulator and proves properties about them.

- **Main-CPU address space** (`M68K_Mem.cpp`). The 68000 bus is split into
  eight 2 MB banks by a type table. The model covers:
  - 64 KB of work RAM mirrored through its bank and stored as 16-bit host
    words, with a byte-lane inversion;
  - the Z80 window, gated by the BUSREQ and RESET bits;
  - the bus-request register at 0xA11100 and its status read, including the
    fake-fetch toggle;
  - the Z80 reset register at 0xA11200;
  - /TIME forwarding;
  - the 0xA10000-0xA1001F controller and serial register block;
  - the VDP port window with its `0x700E0` validity mask;
  - the Z80/68000 cycle table.

  `m68k_bus.dfy` states the address space as functions over a `Bus` value.
  Collaborators are handled as follows:
  - reads come from an `Env` value;
  - every call that changes a collaborator is recorded as an `Event`.

  `m68k_mem.dfy` is the handler itself: a class whose fields and arrays are
  the source's static state. Each access method is proved to compute what
  the functions say. `m68k_bus_props.dfy` proves the properties.
- **Controller-port device record** (`IoManager.hpp`). `io_manager.dfy`
  covers:
  - the `IoDevice` defaults and `reset`;
  - the TH select line;
  - the tristate merge of CPU-written data with device data;
  - the device table.
- **Colour RAM** (`VdpPalette.hpp`). `vdp_palette.dfy` covers the 128-byte
  CRAM with its byte and word accessors, 7-bit address masking and the dirty
  flags.
- **Region selection and names** (`EmuManager.cpp`). `emu_manager.dfy`
  covers:
  - the priority-nibble region scan;
  - the region and system names;
  - the ROM-name fallback.
- **Controller key configuration** (`CtrlConfig.cpp`). `ctrl_config.dfy`
  covers:
  - the per-port device types and key table;
  - load with its clamping and bounded copy;
  - save with `0x`-prefixed, zero-padded hex fields joined by `:`;
  - the dirty flag;
  - the port-1 device replacement.

  The main theorem is the round trip: loading what save wrote gives back
  every in-range type and its first `NumButtons` keys. `qt_text.dfy` models
  the Qt string operations that format relies on, with their own round
  trips.

`bits.dfy` holds byte/word helpers. `wrappers.dfy` holds `Option`.

## Model

| member | source | states |
|---|---|---|
| M68kMem.M68KMem.constructor | src/libgens/cpu/M68K_Mem.cpp:95-116 | The handler's static state starts zeroed: every bank unused, RAM, cycle table, Z80 state, bus-request latch, fake fetch and cycle counters all 0. |
| M68kMem.M68KMem.Init | src/libgens/cpu/M68K_Mem.cpp:142-147 | After the fill loop, every entry `x < 512` of the cycle table is `7x/15` rounded down. Nothing else changes. |
| M68kMem.M68KMem.InitSys | src/libgens/cpu/M68K_Mem.cpp:975-990 | The bank table becomes the MD default table for the MD, and all unused for any other system. |
| M68kBus.InitialBanks | src/libgens/cpu/M68K_Mem.cpp:118-139 | The MD layout: ROM banks 0-4, then I/O, VDP and RAM. Every bank is unused for an unknown system. |
| M68kMem.M68KMem.ReadByteRam | src/libgens/cpu/M68K_Mem.cpp:174-179 | Reads the host byte `(address & 0xFFFF) ^ 1` of RAM. |
| M68kMem.M68KMem.ReadWordRam | src/libgens/cpu/M68K_Mem.cpp:354-358 | Reads storage word `(address & 0xFFFF) >> 1`. |
| M68kMem.M68KMem.WriteByteRam | src/libgens/cpu/M68K_Mem.cpp:538-543 | Changes exactly the host byte `(address & 0xFFFF) ^ 1`. |
| M68kMem.M68KMem.WriteWordRam | src/libgens/cpu/M68K_Mem.cpp:753-757 | Changes exactly one storage word. |
| M68kMem.M68KMem.ReadByteMisc | src/libgens/cpu/M68K_Mem.cpp:187-282 | The I/O-bank byte read equals the corrected `M68kBus.ReadByteMisc`: Z80 window, bus-request status, /TIME, invalid range, then the register block. |
| M68kMem.M68KMem.ReadWordMisc | src/libgens/cpu/M68K_Mem.cpp:367-480 | The word read and the new state equal `M68kBus.ReadWordMisc`. Only 0xA11100 changes state, by toggling the fake fetch. |
| M68kMem.M68KMem.ReadByteVdp | src/libgens/cpu/M68K_Mem.cpp:290-342 | Equals `M68kBus.ReadByteVdp`: 0 for a masked address or no context, else status, H/V counter or 0 by offset. |
| M68kMem.M68KMem.ReadWordVdp | src/libgens/cpu/M68K_Mem.cpp:488-526 | Equals `M68kBus.ReadWordVdp`: data, status, H/V counter word or 0 by offset. |
| M68kMem.M68KMem.ReadByte | src/libgens/cpu/M68K_Mem.cpp:998-1025 | M68K_RB equals `M68kBus.ReadByte`: mask to 24 bits, then dispatch on the type of bank `(a >> 21) & 7`. |
| M68kMem.M68KMem.ReadWord | src/libgens/cpu/M68K_Mem.cpp:1033-1060 | M68K_RW equals `M68kBus.ReadWord`, state included. |
| M68kMem.M68KMem.BusReqWrite | src/libgens/cpu/M68K_Mem.cpp:584-621 | The new state and the appended events equal `M68kBus.BusReqWrite`. |
| M68kMem.M68KMem.Z80ResetWrite | src/libgens/cpu/M68K_Mem.cpp:624-638 | The new state and the appended events equal `M68kBus.Z80ResetWrite`. |
| M68kMem.M68KMem.WriteByteMisc | src/libgens/cpu/M68K_Mem.cpp:552-694 | The new state and events equal `M68kBus.WriteByteMisc`. |
| M68kMem.M68KMem.WriteWordMisc | src/libgens/cpu/M68K_Mem.cpp:766-918 | The new state and events equal `M68kBus.WriteWordMisc`. |
| M68kMem.M68KMem.WriteByteVdp | src/libgens/cpu/M68K_Mem.cpp:702-741 | The events equal `M68kBus.WriteByteVdp`: a data-port byte, a PSG write, or nothing. |
| M68kMem.M68KMem.WriteWordVdp | src/libgens/cpu/M68K_Mem.cpp:926-965 | The events equal `M68kBus.WriteWordVdp`: a data-port word, a control word, or nothing. |
| M68kMem.M68KMem.WriteByte | src/libgens/cpu/M68K_Mem.cpp:1068-1093 | M68K_WB equals `M68kBus.WriteByte`. |
| M68kMem.M68KMem.WriteWord | src/libgens/cpu/M68K_Mem.cpp:1101-1126 | M68K_WW equals `M68kBus.WriteWord`. |
| M68kBusProps.AddressIs24Bits | src/libgens/cpu/M68K_Mem.cpp:998-1005 | Only the low 24 address bits matter to every read and write. The bank is bits 21-23. |
| M68kBusProps.Mask24Facts | src/libgens/cpu/M68K_Mem.cpp:1001-1003 | Masking to 24 bits is idempotent and keeps bits 0-15. |
| M68kBusProps.UnusedBank | src/libgens/cpu/M68K_Mem.cpp:1006-1007 | An unused bank reads 0xFF as a byte and 0xFFFF as a word. Writes change nothing and call nothing. |
| M68kBusProps.UnknownSystemIsUnmapped | src/libgens/cpu/M68K_Mem.cpp:983-988 | After an unknown system's bank setup, every read is the unused-bank value. |
| M68kBusProps.RamByteReadAfterWrite | src/libgens/cpu/M68K_Mem.cpp:174-179 | A byte written to RAM is read back at every address with the same low 16 bits. Other bytes are unchanged. |
| M68kBusProps.RamWordReadAfterWrite | src/libgens/cpu/M68K_Mem.cpp:753-757 | A word written to RAM is read back at every address with the same bits 1-15. Other words are unchanged. |
| M68kBusProps.RamByteLanes | src/libgens/cpu/M68K_Mem.cpp:174-179 | The even byte of a RAM word is its high half and the odd byte its low half, as on the big-endian bus. |
| M68kBusProps.RamMirror | src/libgens/cpu/M68K_Mem.cpp:538-543 | Through M68K_WB and M68K_RB, a byte write is seen at every RAM-bank address with the same low 16 bits and nowhere else. No events are produced. |
| M68kBusProps.RamBankAccess | src/libgens/cpu/M68K_Mem.cpp:1020 | Every access to the RAM bank is the RAM access at the 24-bit address. |
| M68kBusProps.RamWordWriteLanes | src/libgens/cpu/M68K_Mem.cpp:753-757 | After a word write, a word read at any address sharing bits 1-15 gives the word. Its even byte is `w >> 8` and its odd byte `w & 0xFF`. |
| M68kBusProps.LaneAddresses | src/libgens/cpu/M68K_Mem.cpp:1001-1003 | `a & ~1` and `a \| 1` commute with the 24-bit mask and stay in a's bank. |
| M68kBusProps.ByteSlots | src/libgens/cpu/M68K_Mem.cpp:176-178 | Byte addresses with the same low 16 bits share a host byte; any others differ in word or in lane. |
| M68kBusProps.WordSlots | src/libgens/cpu/M68K_Mem.cpp:356-357 | Two word addresses share a storage word if and only if bits 1-15 agree. |
| M68kBusProps.Z80WindowReads | src/libgens/cpu/M68K_Mem.cpp:189-200 | The Z80 window reads the Z80 byte only while BUSREQ and RESET are both clear, and 0 otherwise. A word read duplicates the byte. |
| M68kBusProps.Z80WindowWrites | src/libgens/cpu/M68K_Mem.cpp:554-566 | Z80-window writes reach the Z80 only while both bits are clear. A word write sends its high byte. |
| M68kBusProps.RequestWhileRunning | src/libgens/cpu/M68K_Mem.cpp:584-603 | A request while the Z80 runs records the odometer and the set BUSREQ bit, then clears BUSREQ. It runs the Z80 exactly once, to `Cycles_Z80 - (Cycles_M68K - odometer) * 7 / 15`. RESET and memory are kept. |
| M68kBusProps.RequestWhileStopped | src/libgens/cpu/M68K_Mem.cpp:584-603 | A request while stopped only records the odometer and a clear latch. |
| M68kBusProps.ReleaseWhileStopped | src/libgens/cpu/M68K_Mem.cpp:604-621 | A release while stopped sets BUSREQ and sets the Z80 odometer once from the table. |
| M68kBusProps.ReleaseWhileRunning | src/libgens/cpu/M68K_Mem.cpp:604-621 | A release while the Z80 runs changes nothing. |
| M68kBusProps.RepeatedWritesDoNothingMore | src/libgens/cpu/M68K_Mem.cpp:584-621 | A second identical request or release runs nothing and keeps the Z80 state. |
| M68kBusProps.BusReqRegisterWrites | src/libgens/cpu/M68K_Mem.cpp:805-841 | 0xA11100 takes bit 0 of a byte write and bit 8 of a word write. |
| M68kBusProps.BusReqWriteKeepsLatch | src/libgens/cpu/M68K_Mem.cpp:589-590 | `Last_BUS_REQ_St` only ever holds 0 or the BUSREQ bit. Arbitration touches no memory. |
| M68kBusProps.StatusAfterRequest | src/libgens/cpu/M68K_Mem.cpp:201-215 | Within CYCLE_FOR_TAKE_Z80_BUS_GENESIS cycles of a request, the status byte is 0x82 if the Z80 was running when the bus was taken and 0x80 if not. It is 0x80 afterwards. |
| M68kBusProps.StatusWhileRunning | src/libgens/cpu/M68K_Mem.cpp:204-207 | The status byte is 0x81 while the Z80 runs. |
| M68kBusProps.StatusHalves | src/libgens/cpu/M68K_Mem.cpp:383-411 | The word status is the byte status over the low byte of the toggled fake fetch. The `+0x8000` never carries. |
| M68kBusProps.StatusWord | src/libgens/cpu/M68K_Mem.cpp:383-411 | A word read of 0xA11100 toggles the fake fetch. Its high byte is the byte status and its low byte the new fetch. |
| M68kBusProps.StatusWordTwice | src/libgens/cpu/M68K_Mem.cpp:383-411 | Two word reads restore the fake fetch and show complementary low bytes. |
| M68kBusProps.ResetRegister | src/libgens/cpu/M68K_Mem.cpp:624-638 | A set bit clears RESET. A clear bit sets RESET and emits a Z80 soft reset and a YM2612 reset. BUSREQ is kept. |
| M68kBusProps.ResetRegisterWrites | src/libgens/cpu/M68K_Mem.cpp:844-862 | 0xA11200 takes bit 0 of a byte write and bit 8 of a word write. |
| M68kBusProps.ResetClosesZ80Window | src/libgens/cpu/M68K_Mem.cpp:189-200 | While RESET is held, the Z80 window reads 0 and drops writes. |
| M68kBusProps.MiscRegDecode | src/libgens/cpu/M68K_Mem.cpp:248-276 | The `address & 0x1E` decode is a bijection between the 16 even offsets and the 16 registers. |
| M68kBusProps.RegisterReads | src/libgens/cpu/M68K_Mem.cpp:443-470 | A register read gives that register's value. The version register reads 0xFF without a context. A word read duplicates the byte. |
| M68kBusProps.WordReadDuplicatesByte | src/libgens/cpu/M68K_Mem.cpp:367-480 | Except at 0xA11100 and /TIME, an I/O word read is the byte read in both halves. |
| M68kBusProps.RegisterWrites | src/libgens/cpu/M68K_Mem.cpp:668-692 | Writes to the version register (offset 0x00) and the read-only RxData registers (0x10, 0x16, 0x1C) do nothing. Every other register receives the byte, or the low byte of a word. |
| M68kBusProps.MiscFallback | src/libgens/cpu/M68K_Mem.cpp:219-222 | Other I/O addresses above 0xA1001F read 0 and ignore writes. |
| M68kBusProps.VdpMask | src/libgens/cpu/M68K_Mem.cpp:297-300 | A VDP address with any bit of `0x700E0` set reads 0 and ignores writes. |
| M68kBusProps.ReadsKeepState | src/libgens/cpu/M68K_Mem.cpp:1033-1060 | A read changes nothing but the fake fetch of 0xA11100. |
| M68kBusProps.CycleTabShape | src/libgens/cpu/M68K_Mem.cpp:145-146 | The table is monotone, never above half its index, and exact on multiples of 15. |
| M68kBusProps.CycleTabExact | src/libgens/cpu/M68K_Mem.cpp:146 | The integer entry equals the floor of `x * 7.0 / 15.0` computed in exact reals. |
| M68kBusProps.ReadByteMiscMissingReturn | src/libgens/cpu/M68K_Mem.cpp:277-282 | As written, the register-block byte read returns no defined value, even for the version register with a context. Everywhere else it agrees with the corrected read. |
| IoManager.IoDevice.constructor | src/libgens/IoManager.hpp:312-323 | A fresh device is a 3-button pad. counter, scanlines, ctrl and serCtrl are 0; mdData, deviceData and serLastTx are 0xFF; select is false; all buttons are released. It reads 0xFF. |
| IoManager.IoDevice.Reset | src/libgens/IoManager.hpp:325-335 | Every field returns to its power-on value except the type and key map, which are unchanged. The device then reads 0xFF. |
| IoManager.IoDevice.UpdateSelectLine | src/libgens/IoManager.hpp:359-366 | Select is high unless TH is configured as an output and driven low. |
| IoManager.IoDevice.ApplyTristate | src/libgens/IoManager.hpp:381-385 | Input lines carry the device data. Output lines and bit 7 carry what the CPU wrote. |
| IoManager.IoDevice.ReadData | src/libgens/IoManager.hpp:372-374 | The port value is the tristate merge of the device data, and 0xFF when both data bytes are 0xFF. |
| IoManager.TristateMasksPartition | src/libgens/IoManager.hpp:381-385 | The input and output masks split every byte. |
| IoManager.TristateIdempotent | src/libgens/IoManager.hpp:381-385 | Applying the tristate twice equals applying it once. |
| IoManager.TristateIgnoresOutputLines | src/libgens/IoManager.hpp:382-384 | The result depends only on the input lines of the data. |
| IoManager.AllInputsShowDeviceData | src/libgens/IoManager.hpp:381-385 | With every line an input, the port shows bits 0-6 of the device data over the CPU's bit 7. |
| IoManager.IoDeviceTable.constructor | src/libgens/IoManager.hpp:393-396 | Seventeen distinct default devices, one per virtual port, each with 12 key slots. |
| Vdp.VdpPalette.ReadCRam8 | src/libgens/Vdp/VdpPalette.hpp:235-239 | Reads the CRAM byte at `address & 0x7F`. Changes nothing. |
| Vdp.VdpPalette.ReadCRam16 | src/libgens/Vdp/VdpPalette.hpp:247-251 | Reads the CRAM word at `(address & 0x7F) >> 1`. Changes nothing. |
| Vdp.VdpPalette.WriteCRam8 | src/libgens/Vdp/VdpPalette.hpp:258-263 | Writes the byte at `address & 0x7F` and sets the active-dirty flag. |
| Vdp.VdpPalette.WriteCRam16 | src/libgens/Vdp/VdpPalette.hpp:271-276 | Writes the word at `(address & 0x7F) >> 1` and sets the active-dirty flag. |
| Vdp.ByteReadAfterWrite | src/libgens/Vdp/VdpPalette.hpp:235-263 | A byte written is read back at every address with the same low 7 bits. Other bytes are unchanged. |
| Vdp.WordReadAfterWrite | src/libgens/Vdp/VdpPalette.hpp:247-276 | A word written is read back at every address with the same bits 1-6. Other words are unchanged. |
| Vdp.ByteWriteIsLocal | src/libgens/Vdp/VdpPalette.hpp:261 | A byte write changes exactly one byte. |
| Vdp.WordWriteIsLocal | src/libgens/Vdp/VdpPalette.hpp:274 | A word write changes exactly the two bytes of its word. |
| Vdp.Mirrored | src/libgens/Vdp/VdpPalette.hpp:235-251 | CRAM is mirrored across the 8-bit address space. |
| Vdp.WordOfBytes | src/libgens/Vdp/VdpPalette.hpp:238-250 | On a little-endian host, a word is its odd byte over its even byte. |
| EmuManager.GetLgRegionCode | src/gens-qt4/EmuManager.cpp:433-491 | The shift-and-scan loop computes `LgRegionCode`. |
| EmuManager.ForcedRegionWins | src/gens-qt4/EmuManager.cpp:440-453 | A forced region is the result, whatever the ROM code and the order. |
| EmuManager.FirstMatchIsFirst | src/gens-qt4/EmuManager.cpp:458-470 | The scan is 0 exactly when no preference from position i on shares a bit with the ROM code. Otherwise it is the first preference that does. |
| EmuManager.AutoDetectPicksFirstSupported | src/gens-qt4/EmuManager.cpp:458-485 | Auto-detection picks the region of the first preference that shares a bit with the ROM code. |
| EmuManager.AutoDetectFallsBackToFirst | src/gens-qt4/EmuManager.cpp:471-476 | With no match, the top nibble of the order is used. |
| EmuManager.RegionMapping | src/gens-qt4/EmuManager.cpp:478-485 | 1 maps to JP, 2 to ASIA and 8 to EU, each if and only if. 4 and every other value map to US. |
| EmuManager.LgRegionCodeStr | src/gens-qt4/EmuManager.cpp:756-769 | Every region has a non-empty name. |
| EmuManager.RegionStrMDShape | src/gens-qt4/EmuManager.cpp:800-813 | Only `region & 0xF` is looked at. The name is non-empty exactly for 1, 2, 4 and 8. |
| EmuManager.RegionNamesAgree | src/gens-qt4/EmuManager.cpp:756-813 | A single-bit nibble's name is the name of the region it selects. |
| EmuManager.SysNameMD | src/gens-qt4/EmuManager.cpp:623-634 | The MD is "Genesis" exactly in US_NTSC and "Mega Drive" otherwise. An unknown system has no name. |
| EmuManager.KnownSystemsAreNamed | src/gens-qt4/EmuManager.cpp:619-698 | A system's name is empty exactly for an unknown system. |
| EmuManager.RomNameChoice | src/gens-qt4/EmuManager.cpp:561-597 | No ROM gives "". East prefers the JP name and West the US name, each falling back to the other when null or empty. |
| EmuManager.RomNameEmpty | src/gens-qt4/EmuManager.cpp:561-597 | The name is empty exactly when neither header name is usable. |
| CtrlConfig.Config.constructor | src/gens-qt4/Config/CtrlConfig.cpp:88-96 | Every port starts as IOT_NONE with all keys 0, and the configuration is dirty. |
| CtrlConfig.Config.ClearDirty | src/gens-qt4/Config/CtrlConfig.cpp:109-110 | The dirty flag is cleared. |
| CtrlConfig.NumButtons | src/gens-qt4/Config/CtrlConfig.cpp:119-140 | At most MAX_BTNS. A type without a device class counts as IOT_NONE. |
| CtrlConfig.PortNameKnown | src/gens-qt4/Config/CtrlConfig.cpp:148-181 | A port name is empty exactly for an unknown port. |
| CtrlConfig.PortNamesDistinct | src/gens-qt4/Config/CtrlConfig.cpp:148-181 | The 14 port names are pairwise different. |
| CtrlConfig.SettingsKeysDistinct | src/gens-qt4/Config/CtrlConfig.cpp:196-258 | The `type` and `keys` settings keys of all ports are pairwise different. |
| CtrlConfig.ClampType | src/gens-qt4/Config/CtrlConfig.cpp:197-203 | A type below IOT_NONE or at or above IOT_MAX becomes IOT_NONE. Any other type is kept. |
| CtrlConfig.Config.Load | src/gens-qt4/Config/CtrlConfig.cpp:190-222 | Returns 0 and sets the dirty flag. Every port gets its clamped stored type. Every key slot gets the parsed field for the first `min(#fields, NumButtons)` slots, and 0 for the rest. |
| CtrlConfig.Config.LoadPort | src/gens-qt4/Config/CtrlConfig.cpp:192-216 | One port's type and keys are loaded. Every other port is unchanged. |
| CtrlConfig.Config.ClearKeys | src/gens-qt4/Config/CtrlConfig.cpp:205-206 | All of a port's key slots become 0. Other ports are unchanged. |
| CtrlConfig.Config.CopyKeys | src/gens-qt4/Config/CtrlConfig.cpp:212-216 | The first n slots get the base-0 parse of their fields. The rest of the table is unchanged. |
| CtrlConfig.Config.Save | src/gens-qt4/Config/CtrlConfig.cpp:231-263 | Returns 0 and changes nothing in the configuration, dirty flag included. The settings gain every port's decimal type and key string. |
| CtrlConfig.Config.KeyData | src/gens-qt4/Config/CtrlConfig.cpp:241-256 | The loop builds the `:`-join of `min(NumButtons, MAX_BTNS)` key fields. |
| CtrlConfig.KeyFieldShape | src/gens-qt4/Config/CtrlConfig.cpp:250-255 | A field is `0x` and hex digits: 6 characters for keys up to 0xFFFF and 10 above. It never contains `:`. |
| CtrlConfig.KeyFieldRoundTrip | src/gens-qt4/Config/CtrlConfig.cpp:250-255 | Base-0 parsing of a saved field gives the key back. |
| CtrlConfig.DecimalRoundTrip | src/gens-qt4/Config/CtrlConfig.cpp:197-238 | A saved type reads back as itself. |
| CtrlConfig.SavedTypeLookup | src/gens-qt4/Config/CtrlConfig.cpp:233-238 | After save, a port's `type` entry is its type in decimal. |
| CtrlConfig.SavedKeysLookup | src/gens-qt4/Config/CtrlConfig.cpp:233-258 | After save, a port's `keys` entry is its key string. |
| CtrlConfig.KeyStringFields | src/gens-qt4/Config/CtrlConfig.cpp:209-258 | For a type with at least one button, a saved key string splits back into exactly NumButtons fields, the saved keys' fields. |
| CtrlConfig.KeyStringNoButtons | src/gens-qt4/Config/CtrlConfig.cpp:243-258 | A type without buttons saves an empty key string, which splits back into one empty field. |
| CtrlConfig.LoadAfterSave | src/gens-qt4/Config/CtrlConfig.cpp:190-263 | Loading what save wrote gives each in-range type back, and its first NumButtons keys. Every other slot loads as 0. |
| CtrlConfig.Config.UpdatePort1 | src/gens-qt4/Config/CtrlConfig.cpp:332-375 | The old device is kept if and only if it exists with the configured type. Otherwise a new device of type `DeviceType(configured type)` is created. That type is IOT_NONE for types 5-7, which get a plain `IoBase`, so such a port is replaced on every call. |
| QtText.NumberRoundTrip | src/gens-qt4/Config/CtrlConfig.cpp:250 | Parsing the digits `QString::number` renders in any base from 2 to 16 gives the number back. |
| QtText.HexLength | src/gens-qt4/Config/CtrlConfig.cpp:250-255 | A number below 16^k has at most k hex digits, so 4 or 8 digits of padding never truncate. |
| QtText.LeadingZeros | src/gens-qt4/Config/CtrlConfig.cpp:252-255 | Zero padding does not change a parsed value. |
| QtText.SplitJoin | src/gens-qt4/Config/CtrlConfig.cpp:209-249 | Splitting a join on a separator no part holds gives the parts back. |
| QtText.ToUIntBase0 | src/gens-qt4/Config/CtrlConfig.cpp:215 | Base-0 parsing always yields an unsigned 32-bit value. |
| QtText.ToUIntFailures | src/gens-qt4/Config/CtrlConfig.cpp:215 | A failed base-0 parse gives 0. Failures are an empty string, a bare `0x`, a character that is not a digit of the selected base, and a value above UINT_MAX in hex, octal or decimal. |
| QtText.ToInt | src/gens-qt4/Config/CtrlConfig.cpp:197-198 | `QVariant::toInt` of a string value reads a 64-bit number and truncates it to int, so the result is always a 32-bit int. |
| QtText.ToLongLong | src/gens-qt4/Config/CtrlConfig.cpp:197-198 | The 64-bit reading always lies in the range of a 64-bit integer. |
| QtText.Int32Wrap | src/gens-qt4/Config/CtrlConfig.cpp:197-198 | The truncation to int gives the int congruent to the value modulo 2^32, and keeps every value already in the int range. |
| QtText.ToIntTruncates | src/gens-qt4/Config/CtrlConfig.cpp:197-198 | A decimal value inside the 64-bit range but beyond INT_MAX is not a failure: it becomes the int congruent to it modulo 2^32. A value in the int range is kept. |
| CtrlConfig.TruncatedTypeLoads | src/gens-qt4/Config/CtrlConfig.cpp:197-203 | A stored type worth 2^32 + 1 ("4294967297") is truncated to 1, so the port loads as IOT_3BTN rather than IOT_NONE. |
| QtText.ToIntFailures | src/gens-qt4/Config/CtrlConfig.cpp:197-198 | A failed `toInt` gives 0. Failures are no digits after the optional sign, a non-decimal character, and a value outside the 64-bit range: an unsigned or `+`-signed value above 2^63 - 1, or a `-`-signed magnitude above 2^63. |
| CtrlConfig.MissingEntriesLoadAsDefaults | src/gens-qt4/Config/CtrlConfig.cpp:197-215 | A port without a `type` entry loads as IOT_NONE. A port without a `keys` entry loads every slot as 0: the empty value splits into one empty field, which parses to 0. |

The specification functions `EmuManager.SysName`, `EmuManager.RomName`, `EmuManager.LgRegionCodeStrMD` and `CtrlConfig.PortName` carry no row of their own. Each is described by the lemma rows that cite the same lines: SysNameMD and KnownSystemsAreNamed; RomNameChoice and RomNameEmpty; RegionStrMDShape and RegionNamesAgree; PortNameKnown and PortNamesDistinct.

Proof helpers carry no row of their own; each serves one of the rows above:
- in `m68k_bus_props.dfy`: LaneMask, LaneBank, LaneSlots, LowBitsOfLanes, StatusWordHalves, TwiceRestores, TwiceComplements, LowBytesComplement, BusReqWordRead, FetchToggle, OffsetOfDecode and DecodeOfOffset;
- in `emu_manager.dfy`: NibbleOfShifted, NonZeroWhenOverlapping and FirstMatchSkips;
- in `ctrl_config.dfy`: SavedStep, KeyDataStep, KeyFieldListAt, KeySuffixes, UpdateTwice, UpdateElsewhere and SeparatorIsNotADigit;
- in `qt_text.dfy`: NumberStep, SingleDigit, ValueOfSnoc, DivModParts, LastSeparator, SplitLast, InitLast, SplitEmpty, JoinAppend, JoinAppendParts, Associative and NotAllDigits;
- in `bits.dfy`: WordSplitsBack, WordHalves, U32Cast and the DivMod lemmas.

## Left out

- Collaborators of the address space are not executed; they are pure inputs and a trace. This covers the cartridge, Z80 memory and CPU, /TIME, the VDP, the PSG and YM2612, the I/O manager and the emulation context. Their reads are values in `Env`; their state-changing calls are `Event`s appended in call order.
- `M68K::ReadOdometer()` is the `odometer` field of `Env`, one value per access.
- The header constants are not part of this model, so the model takes these values:
  - Z80_STATE_BUSREQ = 0x02 and Z80_STATE_RESET = 0x04, from the Gens lineage (the proofs only need two distinct single bits);
  - CYCLE_FOR_TAKE_Z80_BUS_GENESIS = 16;
  - the bank-type codes, modelled as a datatype, with a zeroed bank table read as all unused;
  - PORT_MAX = 14 and MAX_BTNS = 12 for the key configuration;
  - GensKey_t as an unsigned 32-bit value.
- The cycle table is filled with the exact integer `7x/15`, not with `double` arithmetic. `CycleTabExact` proves the two agree.
- Table index bounds: the source does not check the index whose range the bus-request write's precondition states. The cycle counters are unbounded integers, so a wrap of the source's `int` counters near 2^31 is not modelled.
- M68kBus.ReadByteMisc: the register-block branch returns the value it computes. See Findings.
- The SSF2 bank save/restore under `#if 0`, and the commented-out controller-counter resets, are dead code.
- VdpPalette.cpp is not part of this model, so palette recalculation and colour conversion are out. The model's VdpPalette constructor starts with zeroed CRAM and clean flags.
- The palette's dirty byte is modelled as two booleans, its active and full bits. `isDirty` is their disjunction.
- The IoManager device protocols (`updateDevice_*`, `doScanline`, `setKeymap`) have no bodies in the header. The I/O manager's own constructor body is not part of this model. The table is built from default devices.
- `IoDevice`'s key map is uninitialised in the C++ constructor. The model fills it with zeros.
- `tr()` strings are opaque; the English source text stands for each translation.
- `fromUtf8` conversion of the ROM header names is left out. Names are strings, and a null name is None.
- `SysVersion::isEast` is a boolean parameter of `RomName`.
- The configured region and the region codes are datatypes. The switch's default branch for an unknown configuration value is folded into auto-detection. The final switch's default shares the US branch with 0x4 (`RegionOfNibble`; `RegionMapping` proves it).
- The settings file is a `map<string, string>` of one group. `QSettings` I/O, value types and group selection are out, and the type is stored and read as decimal text.
- QtText.ToUIntBase0: whitespace and sign handling of Qt's parser are not modelled; only digits, the `0x`/`0X` prefix and the range check matter here.
- QtText.ToInt: Qt is not part of this model. The conversion follows `QVariant::toInt` on a string value as Qt defines it: a `QString::toLongLong` reading, then a cast to int. Other value types stored in the settings are out.
- QtText.ToInt: Qt's skipping of surrounding whitespace is not modelled, so `" 5"` parses to 0 here; only an optional sign, decimal digits and the range check are.
- CtrlConfig.NumButtons: a five-entry table of counts for types 0-4, each at most MAX_BTNS, with any other type counting as IOT_NONE. The device classes' own counts are not part of this model.
- CtrlConfig.Config.UpdatePort1: the state transfer of IoBase's copy constructor, and the signal emission, are not modelled. Only the kept-or-replaced decision and the new device's type are.
- CtrlConfig.Config.LoadPort, ClearKeys, CopyKeys and KeyData are loop bodies of load and save, factored into methods of their own.
- Bit masks on addresses are written as `%` and `/` by powers of two (`a & 0xFFFFFF` is `a % 0x100_0000`). Address values are integers below 2^32.

## Findings

| source | as written | input that shows it | evidently intended | confidence | as-written member | corrected member |
|---|---|---|---|---|---|---|
| src/libgens/cpu/M68K_Mem.cpp:277-282 | `M68K_Read_Byte_Misc` computes `ret` for the 0xA10000-0xA1001F register block, then leaves the switch and falls off the end of the function without `return ret;`, so the byte returned is undefined | a byte read of 0xA10001 (the version register) with an emulation context | return the register value `ret` | not executed | M68kBusProps.ReadByteMiscMissingReturn | M68kBus.ReadByteMisc |
