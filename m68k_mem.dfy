/**
 * The main-CPU memory handler as the emulator holds it: one object whose
 * fields are the bank-type table, the 64 KB of work RAM (as 16-bit host
 * words), the Z80/main-CPU cycle table and the bus-arbitration variables.
 * Each access method changes those fields step by step, as the handler
 * does, and is proved to compute what the address-space functions of
 * `M68kBus` specify. Calls into the Z80, the VDP, the sound chips, the
 * cartridge and the I/O manager are appended to `events`.
 */
module M68kMem {
  import opened Bits
  import opened Wrappers
  import opened M68kBus

  class M68KMem {
    const bankType: array<BankType>
    const ram: array<u16>
    const cycleTab: array<int>
    var z80State: u32
    var lastBusReqCnt: int
    var lastBusReqSt: u32
    var fakeFetch: u32
    var cyclesM68K: int
    var cyclesZ80: int
    /** The calls made into the collaborators so far, oldest first. */
    var events: seq<Event>

    ghost predicate Valid()
      reads this
    {
      bankType.Length == BANK_COUNT && ram.Length == RAM_WORDS && cycleTab.Length == CYCLE_TAB_SIZE
    }

    /** The handler's state as a value. */
    function Snapshot(): (s: Bus)
      reads this, bankType, ram, cycleTab
      ensures Valid() ==> WellFormed(s)
    {
      Bus(bankType[..], ram[..], cycleTab[..], z80State, lastBusReqCnt, lastBusReqSt,
          fakeFetch, cyclesM68K, cyclesZ80)
    }

    /** Static storage: every table and variable starts at zero, every bank unused. */
    constructor ()
      ensures Valid() && fresh(bankType) && fresh(ram) && fresh(cycleTab)
      ensures forall i :: 0 <= i < BANK_COUNT ==> bankType[i] == BankUnused
      ensures forall i :: 0 <= i < RAM_WORDS ==> ram[i] == 0
      ensures forall x :: 0 <= x < CYCLE_TAB_SIZE ==> cycleTab[x] == 0
      ensures z80State == 0 && lastBusReqCnt == 0 && lastBusReqSt == 0 && fakeFetch == 0
      ensures cyclesM68K == 0 && cyclesZ80 == 0 && events == []
    {
      bankType := new BankType[BANK_COUNT](_ => BankUnused);
      ram := new u16[RAM_WORDS](_ => 0);
      cycleTab := new int[CYCLE_TAB_SIZE](_ => 0);
      z80State := 0;
      lastBusReqCnt := 0;
      lastBusReqSt := 0;
      fakeFetch := 0;
      cyclesM68K := 0;
      cyclesZ80 := 0;
      events := [];
    }

    /** Init: fill the cycle table with x * 7 / 15 for each main-CPU cycle count x. */
    method Init()
      requires Valid()
      modifies cycleTab
      ensures forall x :: 0 <= x < CYCLE_TAB_SIZE ==> cycleTab[x] == CycleTabEntry(x)
    {
      var x := 0;
      while x < CYCLE_TAB_SIZE
        invariant 0 <= x <= CYCLE_TAB_SIZE
        invariant forall y :: 0 <= y < x ==> cycleTab[y] == CycleTabEntry(y)
      {
        cycleTab[x] := x * 7 / 15;
        x := x + 1;
      }
    }

    /** InitSys: copy the Mega Drive bank table, or mark every bank unused for an unknown system. */
    method InitSys(sys: SysId)
      requires Valid()
      modifies bankType
      ensures bankType[..] == InitialBanks(sys)
    {
      var table := InitialBanks(sys);
      var i := 0;
      match sys {
        case SysMd =>
          while i < BANK_COUNT
            invariant 0 <= i <= BANK_COUNT
            invariant bankType[..i] == table[..i]
          {
            bankType[i] := DefaultBanksMD()[i];
            i := i + 1;
          }
        case SysOther(_) =>
          while i < BANK_COUNT
            invariant 0 <= i <= BANK_COUNT
            invariant bankType[..i] == table[..i]
          {
            bankType[i] := BankUnused;
            i := i + 1;
          }
      }
      assert bankType[..] == bankType[..BANK_COUNT];
    }

    // -------------------------------------------------------------------
    // Reads

    method ReadByteRam(a: Address) returns (r: u8)
      requires Valid()
      ensures r == RamReadByte(ram[..], a)
    {
      var k := RamByteIndex(a);
      var w := ram[HostWord(k)];
      if HostHighLane(k) {
        r := Hi(w);
      } else {
        r := Lo(w);
      }
    }

    method ReadWordRam(a: Address) returns (r: u16)
      requires Valid()
      ensures r == RamReadWord(ram[..], a)
    {
      r := ram[RamWordIndex(a)];
    }

    method ReadByteMisc(a: Address, env: Env) returns (r: u8)
      ensures r == M68kBus.ReadByteMisc(Snapshot(), a, env)
    {
      if a <= Z80_WINDOW_END {
        if z80State & (Z80_STATE_BUSREQ | Z80_STATE_RESET) != 0 {
          r := 0;
        } else {
          r := env.z80Byte(Z80Address(a));
        }
      } else if a == Z80_BUSREQ_REGISTER {
        if z80State & Z80_STATE_BUSREQ != 0 {
          r := 0x81;
        } else {
          var odo68k := env.odometer - lastBusReqCnt;
          if odo68k <= CYCLE_FOR_TAKE_Z80_BUS_GENESIS {
            r := ((lastBusReqSt | 0x80) & 0xFF) as u8;
          } else {
            r := 0x80;
          }
        }
      } else if InTimeWindow(a) {
        r := env.timeByte(TimeRegister(a));
      } else if a > MISC_REGISTERS_END {
        r := 0;
      } else {
        r := MiscRegisterRead(MiscRegOf(a), env);
      }
    }

    /** A word read of the I/O bank; a read of 0xA11100 toggles the fake fetch. */
    method ReadWordMisc(a: Address, env: Env) returns (r: u16)
      modifies this`fakeFetch
      ensures (r, Snapshot()) == M68kBus.ReadWordMisc(old(Snapshot()), a, env)
    {
      if a <= Z80_WINDOW_END {
        if z80State & (Z80_STATE_BUSREQ | Z80_STATE_RESET) != 0 {
          r := 0;
        } else {
          var b := env.z80Byte(Z80Address(a));
          r := Dup(b);
        }
      } else if a == Z80_BUSREQ_REGISTER {
        var running := z80State & Z80_STATE_BUSREQ != 0;
        var recent := env.odometer - lastBusReqCnt <= CYCLE_FOR_TAKE_Z80_BUS_GENESIS;
        fakeFetch := fakeFetch ^ 0xFF;
        r := StatusWordValue(running, recent, lastBusReqSt, fakeFetch);
      } else if InTimeWindow(a) {
        r := env.timeWord(TimeRegister(a));
      } else if a > MISC_REGISTERS_END {
        r := 0;
      } else {
        r := Dup(MiscRegisterRead(MiscRegOf(a), env));
      }
    }

    method ReadByteVdp(a: Address, env: Env) returns (r: u8)
      ensures r == M68kBus.ReadByteVdp(a, env)
    {
      if !VdpValid(a) || env.context.None? {
        return 0;
      }
      var vdp := env.context.value.vdp;
      var k := a % 0x20;
      if k <= 0x03 {
        r := 0;
      } else if k == 0x04 || k == 0x06 {
        r := Hi(vdp.readStatus);
      } else if k == 0x05 || k == 0x07 {
        r := Lo(vdp.readStatus);
      } else if k == 0x08 {
        r := vdp.vCounter;
      } else if k == 0x09 {
        r := vdp.hCounter;
      } else {
        r := 0;
      }
    }

    method ReadWordVdp(a: Address, env: Env) returns (r: u16)
      ensures r == M68kBus.ReadWordVdp(a, env)
    {
      if !VdpValid(a) || env.context.None? {
        return 0;
      }
      var vdp := env.context.value.vdp;
      var k := RegOffset(a);
      if k == 0x00 || k == 0x02 {
        r := vdp.readData;
      } else if k == 0x04 || k == 0x06 {
        r := vdp.readStatus;
      } else if k == 0x08 {
        r := Word(vdp.vCounter, vdp.hCounter);
      } else {
        r := 0;
      }
    }

    /** M68K_RB. */
    method ReadByte(address: Address, env: Env) returns (r: u8)
      requires Valid()
      ensures r == M68kBus.ReadByte(Snapshot(), address, env)
    {
      var a := Mask24(address);
      var bank := BankIndex(a);
      match bankType[bank] {
        case BankUnused => r := 0xFF;
        case BankRom(_) => r := env.romByte(a);
        case BankIo => r := ReadByteMisc(a, env);
        case BankVdp => r := ReadByteVdp(a, env);
        case BankRam => r := ReadByteRam(a);
      }
    }

    /** M68K_RW. */
    method ReadWord(address: Address, env: Env) returns (r: u16)
      requires Valid()
      modifies this`fakeFetch
      ensures (r, Snapshot()) == M68kBus.ReadWord(old(Snapshot()), address, env)
    {
      var a := Mask24(address);
      var bank := BankIndex(a);
      match bankType[bank] {
        case BankUnused => r := 0xFFFF;
        case BankRom(_) => r := env.romWord(a);
        case BankIo => r := ReadWordMisc(a, env);
        case BankVdp => r := ReadWordVdp(a, env);
        case BankRam => r := ReadWordRam(a);
      }
    }

    // -------------------------------------------------------------------
    // Writes

    method WriteByteRam(a: Address, d: u8)
      requires Valid()
      modifies ram
      ensures ram[..] == RamWriteByte(old(ram[..]), a, d)
    {
      var k := RamByteIndex(a);
      var i := HostWord(k);
      if HostHighLane(k) {
        ram[i] := Word(d, Lo(ram[i]));
      } else {
        ram[i] := Word(Hi(ram[i]), d);
      }
    }

    method WriteWordRam(a: Address, w: u16)
      requires Valid()
      modifies ram
      ensures ram[..] == RamWriteWord(old(ram[..]), a, w)
    {
      ram[RamWordIndex(a)] := w;
    }

    /** The bus-request register: `request` is the written request bit. */
    method BusReqWrite(request: bool, env: Env)
      requires Valid() && BusReqWriteOk(Snapshot(), request, env.odometer)
      modifies this
      ensures Snapshot() == M68kBus.BusReqWrite(old(Snapshot()), request, env.odometer).bus
      ensures events == old(events) + M68kBus.BusReqWrite(old(Snapshot()), request, env.odometer).events
    {
      if request {
        // The main CPU requests the bus: stop the Z80.
        lastBusReqCnt := env.odometer;
        lastBusReqSt := z80State & Z80_STATE_BUSREQ;
        if z80State & Z80_STATE_BUSREQ != 0 {
          z80State := z80State & !Z80_STATE_BUSREQ;
          var ebx := cyclesM68K - lastBusReqCnt;
          ebx := cycleTab[ebx];
          var edx := cyclesZ80 - ebx;
          events := events + [Z80Exec(edx)];
        }
      } else {
        // The main CPU releases the bus: restart the Z80.
        if z80State & Z80_STATE_BUSREQ == 0 {
          z80State := z80State | Z80_STATE_BUSREQ;
          var ebx := cyclesM68K - env.odometer;
          var edx := cyclesZ80;
          ebx := cycleTab[ebx];
          edx := edx - ebx;
          events := events + [Z80SetOdometer(U32Cast(edx))];
        }
      }
    }

    /** The reset register: `high` is the written RESET line. */
    method Z80ResetWrite(high: bool)
      modifies this`z80State, this`events
      ensures Snapshot() == M68kBus.Z80ResetWrite(old(Snapshot()), high).bus
      ensures events == old(events) + M68kBus.Z80ResetWrite(old(Snapshot()), high).events
    {
      if high {
        z80State := z80State & !Z80_STATE_RESET;
      } else {
        events := events + [Z80SoftReset];
        z80State := z80State | Z80_STATE_RESET;
        events := events + [Ym2612Reset];
      }
    }

    method WriteByteMisc(a: Address, d: u8, env: Env)
      requires Valid() && MiscWriteOk(Snapshot(), a, d & 1 != 0, env)
      modifies this
      ensures Snapshot() == M68kBus.WriteByteMisc(old(Snapshot()), a, d, env).bus
      ensures events == old(events) + M68kBus.WriteByteMisc(old(Snapshot()), a, d, env).events
    {
      if a <= Z80_WINDOW_END {
        if z80State & (Z80_STATE_BUSREQ | Z80_STATE_RESET) == 0 {
          events := events + [Z80WriteByte(Z80Address(a), d)];
        }
      } else if a == Z80_BUSREQ_REGISTER {
        BusReqWrite(d & 1 != 0, env);
      } else if a == Z80_RESET_REGISTER {
        Z80ResetWrite(d & 1 != 0);
      } else if InTimeWindow(a) {
        events := events + [TimeWriteByte(TimeRegister(a), d)];
      } else if a <= MISC_REGISTERS_END {
        events := events + MiscRegisterWrite(MiscRegOf(a), d);
      }
    }

    method WriteWordMisc(a: Address, w: u16, env: Env)
      requires Valid() && MiscWriteOk(Snapshot(), a, w & 0x0100 != 0, env)
      modifies this
      ensures Snapshot() == M68kBus.WriteWordMisc(old(Snapshot()), a, w, env).bus
      ensures events == old(events) + M68kBus.WriteWordMisc(old(Snapshot()), a, w, env).events
    {
      if a <= Z80_WINDOW_END {
        if z80State & (Z80_STATE_BUSREQ | Z80_STATE_RESET) == 0 {
          events := events + [Z80WriteByte(Z80Address(a), Hi(w))];
        }
      } else if a == Z80_BUSREQ_REGISTER {
        BusReqWrite(w & 0x0100 != 0, env);
      } else if a == Z80_RESET_REGISTER {
        Z80ResetWrite(w & 0x0100 != 0);
      } else if InTimeWindow(a) {
        events := events + [TimeWriteWord(TimeRegister(a), w)];
      } else if a <= MISC_REGISTERS_END {
        events := events + MiscRegisterWrite(MiscRegOf(a), Lo(w));
      }
    }

    method WriteByteVdp(a: Address, d: u8, env: Env)
      modifies this`events
      ensures events == old(events) + M68kBus.WriteByteVdp(a, d, env)
    {
      if !VdpValid(a) || env.context.None? {
        return;
      }
      var k := a % 0x20;
      if k <= 0x03 {
        events := events + [VdpWriteDataByte(d)];
      } else if k == 0x11 {
        events := events + [PsgWrite(d)];
      }
    }

    method WriteWordVdp(a: Address, w: u16, env: Env)
      modifies this`events
      ensures events == old(events) + M68kBus.WriteWordVdp(a, w, env)
    {
      if !VdpValid(a) || env.context.None? {
        return;
      }
      var k := RegOffset(a);
      if k == 0x00 || k == 0x02 {
        events := events + [VdpWriteDataWord(w)];
      } else if k == 0x04 || k == 0x06 {
        events := events + [VdpWriteCtrl(w)];
      }
    }

    /** M68K_WB. */
    method WriteByte(address: Address, d: u8, env: Env)
      requires Valid() && WriteOk(Snapshot(), address, d & 1 != 0, env)
      modifies this, ram
      ensures Snapshot() == M68kBus.WriteByte(old(Snapshot()), address, d, env).bus
      ensures events == old(events) + M68kBus.WriteByte(old(Snapshot()), address, d, env).events
    {
      var a := Mask24(address);
      var bank := BankIndex(a);
      match bankType[bank] {
        case BankUnused =>
        case BankRom(_) => events := events + [RomWriteByte(a, d)];
        case BankIo => WriteByteMisc(a, d, env);
        case BankVdp => WriteByteVdp(a, d, env);
        case BankRam => WriteByteRam(a, d);
      }
    }

    /** M68K_WW. */
    method WriteWord(address: Address, w: u16, env: Env)
      requires Valid() && WriteOk(Snapshot(), address, w & 0x0100 != 0, env)
      modifies this, ram
      ensures Snapshot() == M68kBus.WriteWord(old(Snapshot()), address, w, env).bus
      ensures events == old(events) + M68kBus.WriteWord(old(Snapshot()), address, w, env).events
    {
      var a := Mask24(address);
      var bank := BankIndex(a);
      match bankType[bank] {
        case BankUnused =>
        case BankRom(_) => events := events + [RomWriteWord(a, w)];
        case BankIo => WriteWordMisc(a, w, env);
        case BankVdp => WriteWordVdp(a, w, env);
        case BankRam => WriteWordRam(a, w);
      }
    }
  }
}
