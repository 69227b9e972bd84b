/**
 * The main CPU's 24-bit address space as seen through M68K_Mem: eight 2 MB
 * banks selected by a bank-type table, 64 KB of work RAM mirrored through
 * its bank, the miscellaneous I/O bank (the Z80 window, the Z80 bus-request
 * and reset registers, the cartridge /TIME window and the controller/serial
 * registers) and the VDP window.
 *
 * Everything here is a pure function of a snapshot of the handler's state
 * (`Bus`) and of the values its collaborators would return (`Env`). Calls
 * that change a collaborator's state (Z80 execution, VDP and sound writes,
 * cartridge writes, I/O manager writes) are returned as `Event`s, in the
 * order the handler makes them.
 */
module M68kBus {
  import opened Bits
  import opened Wrappers
  import IoManager

  /** Bits of Z80_State. BUSREQ set: the Z80 owns its bus and runs. RESET set: the Z80 is held in reset. */
  const Z80_STATE_BUSREQ: u32 := 0x02
  const Z80_STATE_RESET: u32 := 0x04

  /** Main-CPU cycles after a bus request during which the request still reads as not yet granted. */
  const CYCLE_FOR_TAKE_Z80_BUS_GENESIS: int := 16

  const BANK_COUNT: int := 8
  const RAM_WORDS: int := 0x8000
  const CYCLE_TAB_SIZE: int := 512

  /** Highest address of the Z80 window, and the special registers of the I/O bank. */
  const Z80_WINDOW_END: Address := 0xA0FFFF
  const Z80_BUSREQ_REGISTER: Address := 0xA11100
  const Z80_RESET_REGISTER: Address := 0xA11200
  const MISC_REGISTERS_START: Address := 0xA10000
  const MISC_REGISTERS_END: Address := 0xA1001F

  /**
   * A 32-bit bus address. Addresses are numbers here and the source's
   * masks and shifts are written as the arithmetic they denote on unsigned
   * values: `a & (2^n - 1)` is `a % 2^n` and `a >> n` is `a / 2^n`.
   */
  type Address = a: nat | a < 0x1_0000_0000

  /** An address in the Z80's 64 KB space, and a /TIME register number. */
  type Z80Addr = a: nat | a < 0x1_0000
  type TimeReg = a: nat | a < 0x100

  /** What is mapped into one 2 MB bank. */
  datatype BankType =
    | BankUnused
    | BankRom(page: RomPage)
    | BankIo
    | BankVdp
    | BankRam

  /** The five ROM bank types ROM_0 .. ROM_4. */
  type RomPage = p: nat | p < 5

  /** The system the handler is initialised for. */
  datatype SysId = SysMd | SysOther(id: int)

  /** A controller/serial register of one physical port. */
  datatype IoReg =
    | IoData(port: IoManager.PhysPort)
    | IoCtrl(port: IoManager.PhysPort)
    | IoSerTx(port: IoManager.PhysPort)
    | IoSerRx(port: IoManager.PhysPort)
    | IoSerCtrl(port: IoManager.PhysPort)

  /** A register of the 0xA10000-0xA1001F block. */
  datatype MiscReg = RegVersion | RegIo(reg: IoReg)

  /** The values the VDP presents to the main CPU. */
  datatype VdpPorts = VdpPorts(readData: u16, readStatus: u16, vCounter: u8, hCounter: u8)

  /** The running emulation context, when there is one. */
  datatype Context = Context(versionRegister: u8, vdp: VdpPorts)

  /** What the collaborators answer during one access. */
  datatype Env = Env(
    odometer: int,             // M68K::ReadOdometer()
    romByte: Address -> u8,    // cartridge readByte
    romWord: Address -> u16,   // cartridge readWord
    z80Byte: Z80Addr -> u8,    // Z80_MD_Mem::Z80_ReadB
    timeByte: TimeReg -> u8,   // cartridge readByte_TIME
    timeWord: TimeReg -> u16,  // cartridge readWord_TIME
    ioRead: IoReg -> u8,       // the I/O manager's register reads
    context: Option<Context>)  // EmuContext::Instance()

  /** A call that changes a collaborator's state. */
  datatype Event =
    | RomWriteByte(address: Address, byteData: u8)
    | RomWriteWord(address: Address, wordData: u16)
    | Z80WriteByte(z80Address: Z80Addr, byteData: u8)
    | TimeWriteByte(timeRegister: TimeReg, byteData: u8)
    | TimeWriteWord(timeRegister: TimeReg, wordData: u16)
    | IoWrite(reg: IoReg, byteData: u8)
    | VdpWriteDataByte(byteData: u8)
    | VdpWriteDataWord(wordData: u16)
    | VdpWriteCtrl(wordData: u16)
    | PsgWrite(byteData: u8)
    | Z80Exec(cycles: int)
    | Z80SetOdometer(z80Odometer: nat)
    | Z80SoftReset
    | Ym2612Reset

  /**
   * The handler's own state. RAM is kept as 16-bit host words, as the
   * source's `Ram_68k.u16` view does; `lastBusReqSt` and `fakeFetch` are the
   * bit patterns of the source's `int` variables.
   */
  datatype Bus = Bus(
    banks: seq<BankType>,
    ram: seq<u16>,
    tab: seq<int>,
    z80State: u32,
    lastBusReqCnt: int,
    lastBusReqSt: u32,
    fakeFetch: u32,
    cyclesM68K: int,
    cyclesZ80: int)

  ghost predicate WellFormed(s: Bus) {
    |s.banks| == BANK_COUNT && |s.ram| == RAM_WORDS && |s.tab| == CYCLE_TAB_SIZE
  }

  /** The state after one write: the handler's new state and the calls it made. */
  datatype Step = Step(bus: Bus, events: seq<Event>)

  // ---------------------------------------------------------------------
  // Initialisation

  /** Z80_M68K_Cycle_Tab[x]: x main-CPU cycles in Z80 cycles, the clock ratio 7/15 rounded down. */
  function CycleTabEntry(x: nat): int {
    x * 7 / 15
  }

  /** The default bank table of the Mega Drive. */
  function DefaultBanksMD(): (r: seq<BankType>)
    ensures |r| == BANK_COUNT
  {
    [BankRom(0), BankRom(1), BankRom(2), BankRom(3), BankRom(4), BankIo, BankVdp, BankRam]
  }

  /** The bank table InitSys installs: the MD defaults, or every bank unused for an unknown system. */
  function InitialBanks(sys: SysId): (r: seq<BankType>)
    ensures |r| == BANK_COUNT
    ensures sys.SysOther? ==> forall i :: 0 <= i < |r| ==> r[i] == BankUnused
    ensures sys.SysMd? ==> r[5] == BankIo && r[6] == BankVdp && r[7] == BankRam
    ensures sys.SysMd? ==> forall i :: 0 <= i < 5 ==> r[i] == BankRom(i)
  {
    match sys
    case SysMd => DefaultBanksMD()
    case SysOther(_) => seq(BANK_COUNT, _ => BankUnused)
  }

  // ---------------------------------------------------------------------
  // Address decoding

  /** `address & 0xFFFFFF`: the 68000 drives 24 address lines. */
  function Mask24(a: Address): (r: Address)
    ensures r < 0x100_0000
    ensures a < 0x100_0000 ==> r == a
  {
    a % 0x100_0000
  }

  /** `(address >> 21) & 7`: the 2 MB bank an address falls in. */
  function BankIndex(a: Address): (i: nat)
    ensures i < BANK_COUNT
  {
    a / 0x20_0000 % 8
  }

  function BankOf(s: Bus, address: Address): BankType
    requires WellFormed(s)
  {
    s.banks[BankIndex(Mask24(address))]
  }

  predicate Z80Gated(s: Bus) {
    s.z80State & (Z80_STATE_BUSREQ | Z80_STATE_RESET) != 0
  }

  predicate Z80BusReq(s: Bus) {
    s.z80State & Z80_STATE_BUSREQ != 0
  }

  /** `address & 0xFFFF`. */
  function Z80Address(a: Address): Z80Addr {
    a % 0x1_0000
  }

  /** `address & 0xFF`. */
  function TimeRegister(a: Address): TimeReg {
    a % 0x100
  }

  /** `(address & 0xFFFF00) == 0xA13000`. */
  predicate InTimeWindow(a: Address) {
    a % 0x100_0000 / 0x100 == 0xA130
  }

  /** `address & 0x1E`: the register offset, bit 0 ignored. */
  function RegOffset(a: Address): (k: nat)
    ensures k < 0x20 && k % 2 == 0
  {
    a % 0x20 - a % 2
  }

  /** Decode of the 0xA10000-0xA1001F block (the switch on `address & 0x1E`). */
  function MiscRegOf(a: Address): MiscReg {
    var k := RegOffset(a);
    if k == 0x00 then RegVersion
    else if k == 0x02 then RegIo(IoData(0))
    else if k == 0x04 then RegIo(IoData(1))
    else if k == 0x06 then RegIo(IoData(2))
    else if k == 0x08 then RegIo(IoCtrl(0))
    else if k == 0x0A then RegIo(IoCtrl(1))
    else if k == 0x0C then RegIo(IoCtrl(2))
    else if k == 0x0E then RegIo(IoSerTx(0))
    else if k == 0x10 then RegIo(IoSerRx(0))
    else if k == 0x12 then RegIo(IoSerCtrl(0))
    else if k == 0x14 then RegIo(IoSerTx(1))
    else if k == 0x16 then RegIo(IoSerRx(1))
    else if k == 0x18 then RegIo(IoSerCtrl(1))
    else if k == 0x1A then RegIo(IoSerTx(2))
    else if k == 0x1C then RegIo(IoSerRx(2))
    else RegIo(IoSerCtrl(2))
  }

  /** The register offset of each register: the inverse of the decode. */
  function MiscRegOffset(r: MiscReg): nat {
    match r
    case RegVersion => 0x00
    case RegIo(IoData(p)) => [0x02, 0x04, 0x06][p]
    case RegIo(IoCtrl(p)) => [0x08, 0x0A, 0x0C][p]
    case RegIo(IoSerTx(p)) => [0x0E, 0x14, 0x1A][p]
    case RegIo(IoSerRx(p)) => [0x10, 0x16, 0x1C][p]
    case RegIo(IoSerCtrl(p)) => [0x12, 0x18, 0x1E][p]
  }

  // ---------------------------------------------------------------------
  // Work RAM

  /** The storage word holding host byte `k`: the 16-bit view and the 8-bit view share the same bytes. */
  function HostWord(k: nat): (i: nat)
    requires k < 0x1_0000
    ensures i < RAM_WORDS
  {
    k / 2
  }

  /** On a little-endian host the odd host byte of a word is its high byte. */
  predicate HostHighLane(k: nat) {
    k % 2 == 1
  }

  /** The byte at host byte index `k`. */
  function HostByte(ram: seq<u16>, k: nat): u8
    requires |ram| == RAM_WORDS && k < 0x1_0000
  {
    var w := ram[HostWord(k)];
    if HostHighLane(k) then Hi(w) else Lo(w)
  }

  /** `k ^ 1`. */
  function FlipBit0(k: nat): nat {
    if k % 2 == 0 then k + 1 else k - 1
  }

  /** `(address & 0xFFFF) ^ 1`: the host byte of a bus byte address, 64 KB mirror then byte-lane inversion. */
  function RamByteIndex(a: Address): (k: nat)
    ensures k < 0x1_0000
  {
    FlipBit0(a % 0x1_0000)
  }

  /** `(address & 0xFFFE) >> 1`: the storage word of a bus word address, 64 KB mirror, bit 0 ignored. */
  function RamWordIndex(a: Address): (i: nat)
    ensures i < RAM_WORDS
  {
    a % 0x1_0000 / 2
  }

  function RamReadByte(ram: seq<u16>, a: Address): u8
    requires |ram| == RAM_WORDS
  {
    HostByte(ram, RamByteIndex(a))
  }

  function RamWriteByte(ram: seq<u16>, a: Address, d: u8): (r: seq<u16>)
    requires |ram| == RAM_WORDS
    ensures |r| == RAM_WORDS
  {
    var k := RamByteIndex(a);
    var i := HostWord(k);
    ram[i := if HostHighLane(k) then Word(d, Lo(ram[i])) else Word(Hi(ram[i]), d)]
  }

  function RamReadWord(ram: seq<u16>, a: Address): u16
    requires |ram| == RAM_WORDS
  {
    ram[RamWordIndex(a)]
  }

  function RamWriteWord(ram: seq<u16>, a: Address, w: u16): (r: seq<u16>)
    requires |ram| == RAM_WORDS
    ensures |r| == RAM_WORDS
  {
    ram[RamWordIndex(a) := w]
  }

  // ---------------------------------------------------------------------
  // Reads

  /**
   * The byte status of the bus-request register: 0x81 while the Z80 runs
   * (`running`), the latched BUSREQ bit with bit 7 set while the request is
   * `recent`, else 0x80.
   */
  function StatusByteValue(running: bool, recent: bool, latched: u32): u8 {
    if running then 0x81
    else if recent then ((latched | 0x80) & 0xFF) as u8
    else 0x80
  }

  /** The word status, with the low byte of the (already toggled) fake fetch in its low byte. */
  function StatusWordValue(running: bool, recent: bool, latched: u32, fetch: u32): u16 {
    var lo := (fetch & 0xFF) as u16;
    if running then 0x8100 | lo
    else if recent then (lo | (((latched & 0xFF) as u16) << 8)) + 0x8000
    else lo | 0x8000
  }

  /** Whether a request made at `lastBusReqCnt` is still within CYCLE_FOR_TAKE_Z80_BUS_GENESIS cycles. */
  predicate RequestRecent(s: Bus, odometer: int) {
    odometer - s.lastBusReqCnt <= CYCLE_FOR_TAKE_Z80_BUS_GENESIS
  }

  function BusReqStatusByte(s: Bus, odometer: int): u8 {
    StatusByteValue(Z80BusReq(s), RequestRecent(s, odometer), s.lastBusReqSt)
  }

  function BusReqStatusWord(s: Bus, odometer: int, fetch: u32): u16 {
    StatusWordValue(Z80BusReq(s), RequestRecent(s, odometer), s.lastBusReqSt, fetch)
  }

  /** A read of one register of the 0xA10000-0xA1001F block. */
  function MiscRegisterRead(r: MiscReg, env: Env): u8 {
    match r
    case RegVersion => if env.context.Some? then env.context.value.versionRegister else 0xFF
    case RegIo(io) => env.ioRead(io)
  }

  /** M68K_Read_Byte_Misc, with the register value returned (see `ReadByteMiscAsWritten`). */
  function ReadByteMisc(s: Bus, a: Address, env: Env): u8 {
    if a <= Z80_WINDOW_END then
      if Z80Gated(s) then 0 else env.z80Byte(Z80Address(a))
    else if a == Z80_BUSREQ_REGISTER then BusReqStatusByte(s, env.odometer)
    else if InTimeWindow(a) then env.timeByte(TimeRegister(a))
    else if a > MISC_REGISTERS_END then 0
    else MiscRegisterRead(MiscRegOf(a), env)
  }

  /**
   * M68K_Read_Byte_Misc as the source is written: the register branch
   * computes `ret` and then leaves the function without returning it, so
   * the value the caller sees there is undefined (None).
   */
  function ReadByteMiscAsWritten(s: Bus, a: Address, env: Env): Option<u8> {
    if a <= Z80_WINDOW_END then
      Some(if Z80Gated(s) then 0 else env.z80Byte(Z80Address(a)))
    else if a == Z80_BUSREQ_REGISTER then Some(BusReqStatusByte(s, env.odometer))
    else if InTimeWindow(a) then Some(env.timeByte(TimeRegister(a)))
    else if a > MISC_REGISTERS_END then Some(0)
    else None
  }

  /** M68K_Read_Word_Misc: the value read and the new fake-fetch state. */
  function ReadWordMisc(s: Bus, a: Address, env: Env): (u16, Bus) {
    if a <= Z80_WINDOW_END then
      (if Z80Gated(s) then 0 else Dup(env.z80Byte(Z80Address(a))), s)
    else if a == Z80_BUSREQ_REGISTER then
      var fetch := s.fakeFetch ^ 0xFF;
      (BusReqStatusWord(s, env.odometer, fetch), s.(fakeFetch := fetch))
    else if InTimeWindow(a) then (env.timeWord(TimeRegister(a)), s)
    else if a > MISC_REGISTERS_END then (0, s)
    else (Dup(MiscRegisterRead(MiscRegOf(a), env)), s)
  }

  /** `(address & 0x700E0) == 0`: bits 5-7 and 16-18 clear. */
  predicate VdpValid(a: Address) {
    a / 0x20 % 8 == 0 && a / 0x1_0000 % 8 == 0
  }

  function ReadByteVdp(a: Address, env: Env): u8 {
    if !VdpValid(a) || env.context.None? then 0
    else
      var vdp := env.context.value.vdp;
      var k := a % 0x20;
      if k <= 0x03 then 0
      else if k == 0x04 || k == 0x06 then Hi(vdp.readStatus)
      else if k == 0x05 || k == 0x07 then Lo(vdp.readStatus)
      else if k == 0x08 then vdp.vCounter
      else if k == 0x09 then vdp.hCounter
      else 0
  }

  function ReadWordVdp(a: Address, env: Env): u16 {
    if !VdpValid(a) || env.context.None? then 0
    else
      var vdp := env.context.value.vdp;
      var k := RegOffset(a);
      if k == 0x00 || k == 0x02 then vdp.readData
      else if k == 0x04 || k == 0x06 then vdp.readStatus
      else if k == 0x08 then Word(vdp.vCounter, vdp.hCounter)
      else 0
  }

  /** M68K_RB. */
  function ReadByte(s: Bus, address: Address, env: Env): u8
    requires WellFormed(s)
  {
    var a := Mask24(address);
    match BankOf(s, a)
    case BankUnused => 0xFF
    case BankRom(_) => env.romByte(a)
    case BankIo => ReadByteMisc(s, a, env)
    case BankVdp => ReadByteVdp(a, env)
    case BankRam => RamReadByte(s.ram, a)
  }

  /** M68K_RW: the word read and the handler's new state (a read of 0xA11100 toggles the fake fetch). */
  function ReadWord(s: Bus, address: Address, env: Env): (u16, Bus)
    requires WellFormed(s)
  {
    var a := Mask24(address);
    match BankOf(s, a)
    case BankUnused => (0xFFFF, s)
    case BankRom(_) => (env.romWord(a), s)
    case BankIo => ReadWordMisc(s, a, env)
    case BankVdp => (ReadWordVdp(a, env), s)
    case BankRam => (RamReadWord(s.ram, a), s)
  }

  // ---------------------------------------------------------------------
  // Writes

  /** The cycle-table index the bus-arbitration code uses (Cycles_M68K - odometer). */
  function CycleIndex(s: Bus, odometer: int): int {
    s.cyclesM68K - odometer
  }

  /**
   * The source indexes the cycle table without a bounds check, and only when
   * the write changes the bus state (a request while the Z80 runs, or a
   * release while it is stopped). This is the precondition that index needs.
   */
  predicate BusReqWriteOk(s: Bus, request: bool, odometer: int) {
    request == Z80BusReq(s) ==> 0 <= CycleIndex(s, odometer) < |s.tab|
  }

  /** A write to the bus-request register: `request` is the written request bit. */
  function BusReqWrite(s: Bus, request: bool, odometer: int): Step
    requires BusReqWriteOk(s, request, odometer)
  {
    if request then
      var s1 := s.(lastBusReqCnt := odometer, lastBusReqSt := s.z80State & Z80_STATE_BUSREQ);
      if Z80BusReq(s) then
        Step(s1.(z80State := s.z80State & !Z80_STATE_BUSREQ),
             [Z80Exec(s.cyclesZ80 - s.tab[CycleIndex(s, odometer)])])
      else Step(s1, [])
    else if !Z80BusReq(s) then
      Step(s.(z80State := s.z80State | Z80_STATE_BUSREQ),
           [Z80SetOdometer(U32Cast(s.cyclesZ80 - s.tab[CycleIndex(s, odometer)]))])
    else Step(s, [])
  }

  /** A write to the reset register: `high` is the written RESET line. */
  function Z80ResetWrite(s: Bus, high: bool): Step {
    if high then Step(s.(z80State := s.z80State & !Z80_STATE_RESET), [])
    else Step(s.(z80State := s.z80State | Z80_STATE_RESET), [Z80SoftReset, Ym2612Reset])
  }

  /** A write to one register of the 0xA10000-0xA1001F block; the version and RxData registers are read-only. */
  function MiscRegisterWrite(r: MiscReg, d: u8): seq<Event> {
    match r
    case RegVersion => []
    case RegIo(IoSerRx(_)) => []
    case RegIo(io) => [IoWrite(io, d)]
  }

  /** What a write to the I/O bank demands of the collaborators' state. */
  predicate MiscWriteOk(s: Bus, a: Address, request: bool, env: Env) {
    a == Z80_BUSREQ_REGISTER ==> BusReqWriteOk(s, request, env.odometer)
  }

  function WriteByteMisc(s: Bus, a: Address, d: u8, env: Env): Step
    requires MiscWriteOk(s, a, d & 1 != 0, env)
  {
    if a <= Z80_WINDOW_END then
      if Z80Gated(s) then Step(s, []) else Step(s, [Z80WriteByte(Z80Address(a), d)])
    else if a == Z80_BUSREQ_REGISTER then BusReqWrite(s, d & 1 != 0, env.odometer)
    else if a == Z80_RESET_REGISTER then Z80ResetWrite(s, d & 1 != 0)
    else if InTimeWindow(a) then Step(s, [TimeWriteByte(TimeRegister(a), d)])
    else if a > MISC_REGISTERS_END then Step(s, [])
    else Step(s, MiscRegisterWrite(MiscRegOf(a), d))
  }

  /**
   * A word write to the I/O bank: the 68000 is big-endian, so the control
   * bit is bit 8; the Z80 receives the high byte and the I/O manager
   * (whose parameters are 8-bit) the low byte.
   */
  function WriteWordMisc(s: Bus, a: Address, d: u16, env: Env): Step
    requires MiscWriteOk(s, a, d & 0x0100 != 0, env)
  {
    if a <= Z80_WINDOW_END then
      if Z80Gated(s) then Step(s, []) else Step(s, [Z80WriteByte(Z80Address(a), Hi(d))])
    else if a == Z80_BUSREQ_REGISTER then BusReqWrite(s, d & 0x0100 != 0, env.odometer)
    else if a == Z80_RESET_REGISTER then Z80ResetWrite(s, d & 0x0100 != 0)
    else if InTimeWindow(a) then Step(s, [TimeWriteWord(TimeRegister(a), d)])
    else if a > MISC_REGISTERS_END then Step(s, [])
    else Step(s, MiscRegisterWrite(MiscRegOf(a), Lo(d)))
  }

  function WriteByteVdp(a: Address, d: u8, env: Env): seq<Event> {
    if !VdpValid(a) || env.context.None? then []
    else
      var k := a % 0x20;
      if k <= 0x03 then [VdpWriteDataByte(d)]
      else if k == 0x11 then [PsgWrite(d)]
      else []
  }

  function WriteWordVdp(a: Address, d: u16, env: Env): seq<Event> {
    if !VdpValid(a) || env.context.None? then []
    else
      var k := RegOffset(a);
      if k == 0x00 || k == 0x02 then [VdpWriteDataWord(d)]
      else if k == 0x04 || k == 0x06 then [VdpWriteCtrl(d)]
      else []
  }

  /** What a write demands: a bus-request write that indexes the cycle table must index inside it. */
  predicate WriteOk(s: Bus, address: Address, request: bool, env: Env)
    requires WellFormed(s)
  {
    BankOf(s, address) == BankIo ==> MiscWriteOk(s, Mask24(address), request, env)
  }

  /** M68K_WB. */
  function WriteByte(s: Bus, address: Address, d: u8, env: Env): Step
    requires WellFormed(s) && WriteOk(s, address, d & 1 != 0, env)
  {
    var a := Mask24(address);
    match BankOf(s, a)
    case BankUnused => Step(s, [])
    case BankRom(_) => Step(s, [RomWriteByte(a, d)])
    case BankIo => WriteByteMisc(s, a, d, env)
    case BankVdp => Step(s, WriteByteVdp(a, d, env))
    case BankRam => Step(s.(ram := RamWriteByte(s.ram, a, d)), [])
  }

  /** M68K_WW. */
  function WriteWord(s: Bus, address: Address, d: u16, env: Env): Step
    requires WellFormed(s) && WriteOk(s, address, d & 0x0100 != 0, env)
  {
    var a := Mask24(address);
    match BankOf(s, a)
    case BankUnused => Step(s, [])
    case BankRom(_) => Step(s, [RomWriteWord(a, d)])
    case BankIo => WriteWordMisc(s, a, d, env)
    case BankVdp => Step(s, WriteWordVdp(a, d, env))
    case BankRam => Step(s.(ram := RamWriteWord(s.ram, a, d)), [])
  }
}
