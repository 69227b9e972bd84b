/**
 * Properties of the main-CPU address space: bank dispatch, the RAM mirror
 * and byte lanes, Z80 window gating, the bus-arbitration state machine, the
 * status registers and the decode fallbacks.
 */
module M68kBusProps {
  import opened Bits
  import opened Wrappers
  import opened M68kBus

  // ---------------------------------------------------------------------
  // Bank dispatch

  /** Masking to 24 bits twice is masking once, and keeps the low 16 bits. */
  lemma Mask24Facts(a: Address)
    ensures Mask24(Mask24(a)) == Mask24(a)
    ensures Mask24(a) % 0x1_0000 == a % 0x1_0000
    ensures Mask24(a) % 2 == a % 2
  {
    var h, m := a / 0x100_0000, a % 0x100_0000;
    DivMod16Bits(a, 0x100 * h + m / 0x1_0000, m % 0x1_0000);
    DivMod2(a, 0x80_0000 * h + m / 2, m % 2);
  }

  /** Only the low 24 address bits take part in an access, and bits 21-23 pick the bank. */
  lemma AddressIs24Bits(s: Bus, address: Address, d: u8, w: u16, env: Env)
    requires WellFormed(s)
    ensures BankOf(s, address) == s.banks[address % 0x100_0000 / 0x20_0000]
    ensures ReadByte(s, address, env) == ReadByte(s, Mask24(address), env)
    ensures ReadWord(s, address, env) == ReadWord(s, Mask24(address), env)
    ensures WriteOk(s, address, d & 1 != 0, env) ==>
      WriteByte(s, address, d, env) == WriteByte(s, Mask24(address), d, env)
    ensures WriteOk(s, address, w & 0x0100 != 0, env) ==>
      WriteWord(s, address, w, env) == WriteWord(s, Mask24(address), w, env)
  {
    Mask24Facts(address);
  }

  /** An unused bank reads all ones and ignores writes. */
  lemma UnusedBank(s: Bus, address: Address, d: u8, w: u16, env: Env)
    requires WellFormed(s) && BankOf(s, address) == BankUnused
    ensures ReadByte(s, address, env) == 0xFF
    ensures ReadWord(s, address, env) == (0xFFFF, s)
    ensures WriteByte(s, address, d, env) == Step(s, [])
    ensures WriteWord(s, address, w, env) == Step(s, [])
  {
    Mask24Facts(address);
  }

  /** After InitSys for an unknown system every access is an unused-bank access. */
  lemma UnknownSystemIsUnmapped(s: Bus, id: int, address: Address, env: Env)
    requires WellFormed(s) && s.banks == InitialBanks(SysOther(id))
    ensures ReadByte(s, address, env) == 0xFF
    ensures ReadWord(s, address, env) == (0xFFFF, s)
  {
    UnusedBank(s, address, 0, 0, env);
  }

  // ---------------------------------------------------------------------
  // Work RAM

  /** `a & !1`, the even byte of the word at `a`, and `a | 1`, its odd byte. */
  function EvenByte(a: Address): Address {
    a - a % 2
  }

  function OddByte(a: Address): Address {
    a - a % 2 + 1
  }

  /** The two byte addresses of a word lie in its bank, and masking commutes with taking them. */
  lemma LaneAddresses(a: Address)
    ensures Mask24(EvenByte(a)) == EvenByte(Mask24(a)) && Mask24(OddByte(a)) == OddByte(Mask24(a))
    ensures BankIndex(Mask24(EvenByte(a))) == BankIndex(Mask24(a))
    ensures BankIndex(Mask24(OddByte(a))) == BankIndex(Mask24(a))
  {
    LaneMask(a);
    LaneBank(Mask24(a));
  }

  lemma LaneMask(a: Address)
    ensures Mask24(EvenByte(a)) == EvenByte(Mask24(a)) && Mask24(OddByte(a)) == OddByte(Mask24(a))
  {
    var h, m := a / 0x100_0000, a % 0x100_0000;
    var b := m % 2;
    DivMod2(a, 0x80_0000 * h + m / 2, b);
    DivMod24Bits(EvenByte(a), h, m - b);
    DivMod24Bits(OddByte(a), h, m - b + 1);
  }

  lemma LaneBank(m: Address)
    requires m < 0x100_0000
    ensures BankIndex(EvenByte(m)) == BankIndex(m) && BankIndex(OddByte(m)) == BankIndex(m)
  {
    var q, r := m / 0x20_0000, m % 0x20_0000;
    DivMod2(m, 0x10_0000 * q + r / 2, r % 2);
    DivMod21Bits(EvenByte(m), q, r - r % 2);
    DivMod21Bits(OddByte(m), q, r - r % 2 + 1);
  }

  /** Byte addresses with the same low 16 bits share a host byte; others differ in word or lane. */
  lemma ByteSlots(a: Address, b: Address)
    ensures var ka, kb := RamByteIndex(a), RamByteIndex(b);
      (a % 0x1_0000 == b % 0x1_0000 ==> ka == kb)
      && (a % 0x1_0000 != b % 0x1_0000 ==> HostWord(ka) != HostWord(kb) || HostHighLane(ka) != HostHighLane(kb))
  {
  }

  /** Word addresses with the same bits 1-15 share a storage word; others do not. */
  lemma WordSlots(a: Address, b: Address)
    ensures a % 0x1_0000 / 2 == b % 0x1_0000 / 2 <==> RamWordIndex(a) == RamWordIndex(b)
  {
  }

  /** The even byte of a bus word is the high lane of its storage word, the odd byte the low lane. */
  lemma LaneSlots(a: Address)
    ensures HostWord(RamByteIndex(EvenByte(a))) == RamWordIndex(a) && HostHighLane(RamByteIndex(EvenByte(a)))
    ensures HostWord(RamByteIndex(OddByte(a))) == RamWordIndex(a) && !HostHighLane(RamByteIndex(OddByte(a)))
  {
    var m := a % 0x1_0000;
    var e := m - m % 2;
    LowBitsOfLanes(a);
    assert RamByteIndex(EvenByte(a)) == e + 1;
    assert RamByteIndex(OddByte(a)) == e;
    assert m == 2 * (m / 2) + m % 2;
  }

  /** The even and odd byte of the word at `a` keep the word's bits 1-15. */
  lemma LowBitsOfLanes(a: Address)
    ensures var m := a % 0x1_0000;
      EvenByte(a) % 0x1_0000 == m - m % 2 && OddByte(a) % 0x1_0000 == m - m % 2 + 1
  {
    var h, m := a / 0x1_0000, a % 0x1_0000;
    DivMod2(a, 0x8000 * h + m / 2, m % 2);
    DivMod16Bits(EvenByte(a), h, m - m % 2);
    DivMod16Bits(OddByte(a), h, m - m % 2 + 1);
  }

  lemma RamByteReadAfterWrite(ram: seq<u16>, a: Address, b: Address, d: u8)
    requires |ram| == RAM_WORDS
    ensures a % 0x1_0000 == b % 0x1_0000 ==> RamReadByte(RamWriteByte(ram, a, d), b) == d
    ensures a % 0x1_0000 != b % 0x1_0000 ==> RamReadByte(RamWriteByte(ram, a, d), b) == RamReadByte(ram, b)
  {
    ByteSlots(a, b);
    var i := HostWord(RamByteIndex(a));
    WordHalves(d, Lo(ram[i]));
    WordHalves(Hi(ram[i]), d);
  }

  lemma RamWordReadAfterWrite(ram: seq<u16>, a: Address, b: Address, w: u16)
    requires |ram| == RAM_WORDS
    ensures a % 0x1_0000 / 2 == b % 0x1_0000 / 2 ==> RamReadWord(RamWriteWord(ram, a, w), b) == w
    ensures a % 0x1_0000 / 2 != b % 0x1_0000 / 2 ==> RamReadWord(RamWriteWord(ram, a, w), b) == RamReadWord(ram, b)
  {
    WordSlots(a, b);
  }

  /**
   * The byte-lane rule: with the byte-address inversion on a little-endian
   * host, the even byte of a bus word is its high byte and the odd byte its
   * low byte, as on the big-endian 68000 bus.
   */
  lemma RamByteLanes(ram: seq<u16>, a: Address)
    requires |ram| == RAM_WORDS
    ensures RamReadByte(ram, EvenByte(a)) == Hi(RamReadWord(ram, a))
    ensures RamReadByte(ram, OddByte(a)) == Lo(RamReadWord(ram, a))
    ensures RamReadWord(ram, a) == Word(RamReadByte(ram, EvenByte(a)), RamReadByte(ram, OddByte(a)))
  {
    LaneSlots(a);
    WordSplitsBack(RamReadWord(ram, a));
  }

  /** RAM is mirrored every 64 KB: a byte written at `a` is read back at every `b` in RAM with the same low 16 bits. */
  lemma RamMirror(s: Bus, a: Address, b: Address, d: u8, env: Env)
    requires WellFormed(s) && BankOf(s, a) == BankRam && BankOf(s, b) == BankRam
    ensures WriteOk(s, a, d & 1 != 0, env)
    ensures var t := WriteByte(s, a, d, env);
      && t.events == []
      && WellFormed(t.bus)
      && (a % 0x1_0000 == b % 0x1_0000 ==> ReadByte(t.bus, b, env) == d)
      && (a % 0x1_0000 != b % 0x1_0000 ==> ReadByte(t.bus, b, env) == ReadByte(s, b, env))
  {
    Mask24Facts(a);
    Mask24Facts(b);
    RamByteReadAfterWrite(s.ram, Mask24(a), Mask24(b), d);
  }

  /** An access to the RAM bank is an access to the RAM image at the 24-bit address. */
  lemma RamBankAccess(s: Bus, a: Address, d: u8, w: u16, env: Env)
    requires WellFormed(s) && BankOf(s, a) == BankRam
    ensures WriteOk(s, a, d & 1 != 0, env) && WriteOk(s, a, w & 0x0100 != 0, env)
    ensures ReadByte(s, a, env) == RamReadByte(s.ram, Mask24(a))
    ensures ReadWord(s, a, env) == (RamReadWord(s.ram, Mask24(a)), s)
    ensures WriteByte(s, a, d, env) == Step(s.(ram := RamWriteByte(s.ram, Mask24(a), d)), [])
    ensures WriteWord(s, a, w, env) == Step(s.(ram := RamWriteWord(s.ram, Mask24(a), w)), [])
  {
    Mask24Facts(a);
  }

  /** After a word write to RAM, the even byte reads its high half and the odd byte its low half; bit 0 of a word address is ignored. */
  lemma RamWordWriteLanes(s: Bus, a: Address, b: Address, w: u16, env: Env)
    requires WellFormed(s) && BankOf(s, a) == BankRam && BankOf(s, b) == BankRam
    requires a % 0x1_0000 / 2 == b % 0x1_0000 / 2
    ensures WriteOk(s, a, w & 0x0100 != 0, env)
    ensures var t := WriteWord(s, a, w, env);
      && t.events == []
      && WellFormed(t.bus)
      && ReadWord(t.bus, b, env) == (w, t.bus)
      && ReadByte(t.bus, EvenByte(b), env) == Hi(w)
      && ReadByte(t.bus, OddByte(b), env) == Lo(w)
  {
    var b24 := Mask24(b);
    Mask24Facts(a);
    Mask24Facts(b);
    RamBankAccess(s, a, 0, w, env);
    var t := WriteWord(s, a, w, env);
    LaneAddresses(b);
    RamBankAccess(t.bus, b, 0, 0, env);
    RamBankAccess(t.bus, EvenByte(b), 0, 0, env);
    RamBankAccess(t.bus, OddByte(b), 0, 0, env);
    RamWordReadAfterWrite(s.ram, Mask24(a), b24, w);
    RamByteLanes(t.bus.ram, b24);
  }

  // ---------------------------------------------------------------------
  // The Z80 window

  /** The Z80 answers only while neither BUSREQ nor RESET is set; word reads see the byte in both halves. */
  lemma Z80WindowReads(s: Bus, a: Address, env: Env)
    requires a <= Z80_WINDOW_END
    ensures var open := s.z80State & Z80_STATE_BUSREQ == 0 && s.z80State & Z80_STATE_RESET == 0;
      && ReadByteMisc(s, a, env) == (if open then env.z80Byte(a % 0x1_0000) else 0)
      && ReadWordMisc(s, a, env) == (Dup(ReadByteMisc(s, a, env)), s)
  {
  }

  /** Writes to the Z80 window reach the Z80 only while neither bit is set; a word write sends its high byte. */
  lemma Z80WindowWrites(s: Bus, a: Address, d: u8, w: u16, env: Env)
    requires a <= Z80_WINDOW_END
    ensures var open := s.z80State & Z80_STATE_BUSREQ == 0 && s.z80State & Z80_STATE_RESET == 0;
      && WriteByteMisc(s, a, d, env) == Step(s, if open then [Z80WriteByte(a % 0x1_0000, d)] else [])
      && WriteWordMisc(s, a, w, env) == Step(s, if open then [Z80WriteByte(a % 0x1_0000, Hi(w))] else [])
  {
  }

  // ---------------------------------------------------------------------
  // Bus arbitration

  /** Everything but the arbitration fields is left alone. */
  ghost predicate SameMemory(s: Bus, t: Bus) {
    && t.banks == s.banks && t.ram == s.ram && t.tab == s.tab
    && t.fakeFetch == s.fakeFetch && t.cyclesM68K == s.cyclesM68K && t.cyclesZ80 == s.cyclesZ80
  }

  /** The table Init builds. */
  ghost predicate CycleTabBuilt(s: Bus) {
    |s.tab| == CYCLE_TAB_SIZE && forall x :: 0 <= x < CYCLE_TAB_SIZE ==> s.tab[x] == CycleTabEntry(x)
  }

  /** The bus-request latch only ever records the BUSREQ bit. */
  ghost predicate LatchInv(s: Bus) {
    s.lastBusReqSt == 0 || s.lastBusReqSt == Z80_STATE_BUSREQ
  }

  /**
   * A request while the Z80 runs records the odometer and the old BUSREQ
   * bit, stops the Z80, and runs it exactly once, up to the Z80 cycle
   * matching the main CPU's position in the frame.
   */
  lemma RequestWhileRunning(s: Bus, odometer: int)
    requires Z80BusReq(s) && CycleTabBuilt(s)
    requires 0 <= CycleIndex(s, odometer) < CYCLE_TAB_SIZE
    ensures var t := BusReqWrite(s, true, odometer);
      && t.events == [Z80Exec(s.cyclesZ80 - (s.cyclesM68K - odometer) * 7 / 15)]
      && !Z80BusReq(t.bus)
      && t.bus.z80State & Z80_STATE_RESET == s.z80State & Z80_STATE_RESET
      && t.bus.lastBusReqCnt == odometer && t.bus.lastBusReqSt == Z80_STATE_BUSREQ
      && SameMemory(s, t.bus)
  {
  }

  /** A request while the Z80 is already stopped only records the odometer and a clear latch. */
  lemma RequestWhileStopped(s: Bus, odometer: int)
    requires !Z80BusReq(s)
    ensures var t := BusReqWrite(s, true, odometer);
      && t.events == [] && t.bus.z80State == s.z80State
      && t.bus.lastBusReqCnt == odometer && t.bus.lastBusReqSt == 0
      && SameMemory(s, t.bus)
  {
  }

  /** A release while the Z80 is stopped restarts it and sets its odometer once. */
  lemma ReleaseWhileStopped(s: Bus, odometer: int)
    requires !Z80BusReq(s) && CycleTabBuilt(s)
    requires 0 <= CycleIndex(s, odometer) < CYCLE_TAB_SIZE
    ensures var t := BusReqWrite(s, false, odometer);
      && t.events == [Z80SetOdometer(U32Cast(s.cyclesZ80 - (s.cyclesM68K - odometer) * 7 / 15))]
      && Z80BusReq(t.bus)
      && t.bus.z80State & Z80_STATE_RESET == s.z80State & Z80_STATE_RESET
      && t.bus.lastBusReqCnt == s.lastBusReqCnt && t.bus.lastBusReqSt == s.lastBusReqSt
      && SameMemory(s, t.bus)
  {
  }

  /** A release while the Z80 runs changes nothing. */
  lemma ReleaseWhileRunning(s: Bus, odometer: int)
    requires Z80BusReq(s)
    ensures BusReqWrite(s, false, odometer) == Step(s, [])
  {
  }

  /** Arbitration is edge-triggered: a second request, or a second release, runs nothing and keeps the Z80 state. */
  lemma RepeatedWritesDoNothingMore(s: Bus, request: bool, o1: int, o2: int)
    requires BusReqWriteOk(s, request, o1)
    ensures var t := BusReqWrite(s, request, o1);
      && Z80BusReq(t.bus) == !request
      && BusReqWriteOk(t.bus, request, o2)
      && BusReqWrite(t.bus, request, o2).events == []
      && BusReqWrite(t.bus, request, o2).bus.z80State == t.bus.z80State
  {
  }

  /** The bus-request register takes bit 0 of a byte write and bit 8 of a word write. */
  lemma BusReqRegisterWrites(s: Bus, d: u8, w: u16, env: Env)
    requires WellFormed(s) && BankOf(s, Z80_BUSREQ_REGISTER) == BankIo
    requires BusReqWriteOk(s, d & 1 != 0, env.odometer)
    requires BusReqWriteOk(s, w & 0x0100 != 0, env.odometer)
    ensures WriteByte(s, Z80_BUSREQ_REGISTER, d, env) == BusReqWrite(s, d & 1 != 0, env.odometer)
    ensures WriteWord(s, Z80_BUSREQ_REGISTER, w, env) == BusReqWrite(s, w & 0x0100 != 0, env.odometer)
  {
  }

  /** Bus-request writes keep the latch invariant and touch no memory. */
  lemma BusReqWriteKeepsLatch(s: Bus, request: bool, odometer: int)
    requires LatchInv(s) && BusReqWriteOk(s, request, odometer)
    ensures LatchInv(BusReqWrite(s, request, odometer).bus)
    ensures SameMemory(s, BusReqWrite(s, request, odometer).bus)
  {
  }

  // ---------------------------------------------------------------------
  // Bus-request status

  /**
   * The byte status: 0x81 while the Z80 runs; after a request, the latched
   * bit with bit 7 set for CYCLE_FOR_TAKE_Z80_BUS_GENESIS cycles, then 0x80.
   */
  lemma StatusAfterRequest(s: Bus, o1: int, env: Env)
    requires BusReqWriteOk(s, true, o1)
    ensures var t := BusReqWrite(s, true, o1).bus;
      ReadByteMisc(t, Z80_BUSREQ_REGISTER, env) ==
        if env.odometer - o1 <= CYCLE_FOR_TAKE_Z80_BUS_GENESIS then
          (if Z80BusReq(s) then 0x82 else 0x80)
        else 0x80
  {
  }

  lemma StatusWhileRunning(s: Bus, env: Env)
    requires Z80BusReq(s)
    ensures ReadByteMisc(s, Z80_BUSREQ_REGISTER, env) == 0x81
    ensures Hi(ReadWordMisc(s, Z80_BUSREQ_REGISTER, env).0) == 0x81
  {
  }

  /** The word status carries the byte status in its high byte and the low byte of the fetch value in its low byte. */
  lemma StatusWordHalves(s: Bus, odometer: int, fetch: u32)
    requires LatchInv(s)
    ensures Hi(BusReqStatusWord(s, odometer, fetch)) == BusReqStatusByte(s, odometer)
    ensures Lo(BusReqStatusWord(s, odometer, fetch)) == (fetch & 0xFF) as u8
  {
    StatusHalves(Z80BusReq(s), RequestRecent(s, odometer), s.lastBusReqSt, fetch);
  }

  /**
   * With the latch holding 0 or BUSREQ, adding 0x8000 sets bit 15 without a
   * carry, so the word status is the byte status over the fetch byte.
   */
  lemma StatusHalves(running: bool, recent: bool, latched: u32, fetch: u32)
    requires latched == 0 || latched == Z80_STATE_BUSREQ
    ensures Hi(StatusWordValue(running, recent, latched, fetch)) == StatusByteValue(running, recent, latched)
    ensures Lo(StatusWordValue(running, recent, latched, fetch)) == (fetch & 0xFF) as u8
  {
  }

  /** A word read of 0xA11100: the byte status over the low byte of the toggled fake fetch. */
  lemma StatusWord(s: Bus, env: Env)
    requires LatchInv(s)
    ensures Hi(ReadWordMisc(s, Z80_BUSREQ_REGISTER, env).0) == ReadByteMisc(s, Z80_BUSREQ_REGISTER, env)
    ensures Lo(ReadWordMisc(s, Z80_BUSREQ_REGISTER, env).0) == ((s.fakeFetch ^ 0xFF) & 0xFF) as u8
    ensures ReadWordMisc(s, Z80_BUSREQ_REGISTER, env).1 == s.(fakeFetch := s.fakeFetch ^ 0xFF)
  {
    BusReqWordRead(s, env);
    StatusWordHalves(s, env.odometer, s.fakeFetch ^ 0xFF);
  }

  /** Two word reads of 0xA11100 restore the fake fetch and show complementary low bytes. */
  lemma StatusWordTwice(s: Bus, env: Env)
    requires LatchInv(s)
    ensures var t := ReadWordMisc(s, Z80_BUSREQ_REGISTER, env).1;
      && ReadWordMisc(t, Z80_BUSREQ_REGISTER, env).1 == s
      && Lo(ReadWordMisc(s, Z80_BUSREQ_REGISTER, env).0) ^ Lo(ReadWordMisc(t, Z80_BUSREQ_REGISTER, env).0) == 0xFF
  {
    TwiceRestores(s, env);
    TwiceComplements(s, env);
  }

  lemma TwiceRestores(s: Bus, env: Env)
    ensures ReadWordMisc(ReadWordMisc(s, Z80_BUSREQ_REGISTER, env).1, Z80_BUSREQ_REGISTER, env).1 == s
  {
    var t := s.(fakeFetch := s.fakeFetch ^ 0xFF);
    BusReqWordRead(s, env);
    BusReqWordRead(t, env);
    FetchToggle(s.fakeFetch);
    assert t.(fakeFetch := t.fakeFetch ^ 0xFF) == s;
  }

  lemma TwiceComplements(s: Bus, env: Env)
    requires LatchInv(s)
    ensures var t := ReadWordMisc(s, Z80_BUSREQ_REGISTER, env).1;
      Lo(ReadWordMisc(s, Z80_BUSREQ_REGISTER, env).0) ^ Lo(ReadWordMisc(t, Z80_BUSREQ_REGISTER, env).0) == 0xFF
  {
    var t := ReadWordMisc(s, Z80_BUSREQ_REGISTER, env).1;
    StatusWord(s, env);
    StatusWord(t, env);
    LowBytesComplement(s.fakeFetch, ReadWordMisc(s, Z80_BUSREQ_REGISTER, env).0, ReadWordMisc(t, Z80_BUSREQ_REGISTER, env).0);
  }

  lemma LowBytesComplement(f: u32, w1: u16, w2: u16)
    requires Lo(w1) == ((f ^ 0xFF) & 0xFF) as u8 && Lo(w2) == (((f ^ 0xFF) ^ 0xFF) & 0xFF) as u8
    ensures Lo(w1) ^ Lo(w2) == 0xFF
  {
    FetchToggle(f);
  }

  /** A word read of 0xA11100 toggles the fake fetch and returns the word status built from the new value. */
  lemma BusReqWordRead(s: Bus, env: Env)
    ensures var f := s.fakeFetch ^ 0xFF;
      ReadWordMisc(s, Z80_BUSREQ_REGISTER, env) == (BusReqStatusWord(s, env.odometer, f), s.(fakeFetch := f))
  {
  }

  lemma FetchToggle(f: u32)
    ensures (f ^ 0xFF) ^ 0xFF == f
    ensures ((f ^ 0xFF) & 0xFF) as u8 ^ (f & 0xFF) as u8 == 0xFF
  {
  }

  // ---------------------------------------------------------------------
  // Reset line

  /** A set bit releases RESET; a clear bit asserts it and resets the Z80 and the YM2612. The BUSREQ bit is kept. */
  lemma ResetRegister(s: Bus, high: bool)
    ensures var t := Z80ResetWrite(s, high);
      && (t.bus.z80State & Z80_STATE_RESET != 0 <==> !high)
      && t.bus.z80State & Z80_STATE_BUSREQ == s.z80State & Z80_STATE_BUSREQ
      && t.events == (if high then [] else [Z80SoftReset, Ym2612Reset])
      && t.bus == s.(z80State := t.bus.z80State)
  {
  }

  lemma ResetRegisterWrites(s: Bus, d: u8, w: u16, env: Env)
    requires WellFormed(s) && BankOf(s, Z80_RESET_REGISTER) == BankIo
    ensures WriteByte(s, Z80_RESET_REGISTER, d, env) == Z80ResetWrite(s, d & 1 != 0)
    ensures WriteWord(s, Z80_RESET_REGISTER, w, env) == Z80ResetWrite(s, w & 0x0100 != 0)
  {
    assert Mask24(Z80_RESET_REGISTER) == Z80_RESET_REGISTER;
    assert !InTimeWindow(Z80_RESET_REGISTER);
  }

  /** While RESET is held the Z80 window reads 0 and drops writes. */
  lemma ResetClosesZ80Window(s: Bus, a: Address, d: u8, env: Env)
    requires a <= Z80_WINDOW_END
    ensures var t := Z80ResetWrite(s, false).bus;
      ReadByteMisc(t, a, env) == 0 && WriteByteMisc(t, a, d, env) == Step(t, [])
  {
  }

  // ---------------------------------------------------------------------
  // Registers and fallbacks

  /** The register decode is a bijection between the 16 even offsets and the 16 registers. */
  lemma MiscRegDecode(a: Address, r: MiscReg)
    ensures MiscRegOffset(MiscRegOf(a)) == RegOffset(a)
    ensures MiscRegOf(MiscRegOffset(r)) == r
  {
    OffsetOfDecode(a);
    DecodeOfOffset(r);
  }

  lemma OffsetOfDecode(a: Address)
    ensures MiscRegOffset(MiscRegOf(a)) == RegOffset(a)
  {
  }

  lemma DecodeOfOffset(r: MiscReg)
    ensures MiscRegOf(MiscRegOffset(r)) == r
  {
    match r
    case RegVersion =>
    case RegIo(io) =>
      var p := io.port;
      assert p == 0 || p == 1 || p == 2;
  }

  /** A register read takes the register's value; the version register reads 0xFF without a context. */
  lemma RegisterReads(s: Bus, a: Address, env: Env)
    requires MISC_REGISTERS_START <= a <= MISC_REGISTERS_END
    ensures MiscRegOf(a).RegIo? ==> ReadByteMisc(s, a, env) == env.ioRead(MiscRegOf(a).reg)
    ensures MiscRegOf(a) == RegVersion && env.context.None? ==> ReadByteMisc(s, a, env) == 0xFF
    ensures ReadWordMisc(s, a, env) == (Dup(ReadByteMisc(s, a, env)), s)
  {
  }

  /** Every word read of the I/O bank except the bus-request and /TIME registers is the byte read in both halves. */
  lemma WordReadDuplicatesByte(s: Bus, a: Address, env: Env)
    requires a != Z80_BUSREQ_REGISTER && !InTimeWindow(a)
    ensures ReadWordMisc(s, a, env) == (Dup(ReadByteMisc(s, a, env)), s)
  {
  }

  /** RxData registers are read-only; the other registers forward the written byte (the low byte of a word). */
  lemma RegisterWrites(s: Bus, a: Address, d: u8, w: u16, env: Env)
    requires MISC_REGISTERS_START <= a <= MISC_REGISTERS_END
    ensures RegOffset(a) in {0x00, 0x10, 0x16, 0x1C} ==>
      WriteByteMisc(s, a, d, env) == Step(s, []) && WriteWordMisc(s, a, w, env) == Step(s, [])
    ensures MiscRegOf(a).RegIo? && !MiscRegOf(a).reg.IoSerRx? ==>
      && WriteByteMisc(s, a, d, env) == Step(s, [IoWrite(MiscRegOf(a).reg, d)])
      && WriteWordMisc(s, a, w, env) == Step(s, [IoWrite(MiscRegOf(a).reg, Lo(w))])
  {
  }

  /** Outside the Z80 window, the special registers, /TIME and the register block, the I/O bank reads 0 and ignores writes. */
  lemma MiscFallback(s: Bus, a: Address, d: u8, w: u16, env: Env)
    requires a > MISC_REGISTERS_END && a != Z80_BUSREQ_REGISTER && a != Z80_RESET_REGISTER && !InTimeWindow(a)
    ensures ReadByteMisc(s, a, env) == 0 && ReadWordMisc(s, a, env) == (0, s)
    ensures WriteByteMisc(s, a, d, env) == Step(s, []) && WriteWordMisc(s, a, w, env) == Step(s, [])
  {
  }

  /** A VDP address with any of the bits 0x700E0 set reads 0 and ignores writes. */
  lemma VdpMask(s: Bus, address: Address, d: u8, w: u16, env: Env)
    requires WellFormed(s) && BankOf(s, address) == BankVdp && !VdpValid(Mask24(address))
    ensures ReadByte(s, address, env) == 0 && ReadWord(s, address, env) == (0, s)
    ensures WriteByte(s, address, d, env) == Step(s, []) && WriteWord(s, address, w, env) == Step(s, [])
  {
  }

  /** Reads never change the handler's state except through the fake fetch of 0xA11100. */
  lemma ReadsKeepState(s: Bus, address: Address, env: Env)
    requires WellFormed(s)
    ensures var t := ReadWord(s, address, env).1;
      t == s || t == s.(fakeFetch := s.fakeFetch ^ 0xFF)
  {
  }

  // ---------------------------------------------------------------------
  // The cycle table

  /** The table is monotone, below half the main-CPU count, and exact on multiples of 15. */
  lemma CycleTabShape(x: nat, y: nat, k: nat)
    requires x <= y
    ensures CycleTabEntry(x) <= CycleTabEntry(y)
    ensures 2 * CycleTabEntry(x) <= x
    ensures CycleTabEntry(15 * k) == 7 * k
  {
  }

  /**
   * The source computes each entry as `(int)((double) x * 7.0 / 15.0)`; the
   * integer quotient is that value rounded down, computed exactly.
   */
  lemma CycleTabExact(x: nat)
    ensures CycleTabEntry(x) == ((x as real) * 7.0 / 15.0).Floor
  {
  }

  // ---------------------------------------------------------------------
  // The missing return

  /**
   * As written, M68K_Read_Byte_Misc returns no value for the register block
   * (0xA10000-0xA1001F): the version register at 0xA10001 has no defined
   * byte read even when a context supplies a value. Everywhere else the
   * function as written agrees with the corrected one.
   */
  lemma ReadByteMiscMissingReturn(s: Bus, a: Address, env: Env)
    ensures MISC_REGISTERS_START <= a <= MISC_REGISTERS_END ==> ReadByteMiscAsWritten(s, a, env) == None
    ensures !(MISC_REGISTERS_START <= a <= MISC_REGISTERS_END) ==> ReadByteMiscAsWritten(s, a, env) == Some(ReadByteMisc(s, a, env))
    ensures a == 0xA10001 && env.context.Some? ==>
      ReadByteMiscAsWritten(s, a, env) == None && ReadByteMisc(s, a, env) == env.context.value.versionRegister
  {
  }
}
