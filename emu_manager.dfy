/**
 * Region selection and the names the emulation manager shows: the region
 * the emulated console runs in (forced by the configuration, or detected
 * from the cartridge header's region nibble against a user-ordered list of
 * four preferences), the strings naming regions and systems, and the
 * choice between a ROM's domestic and overseas names.
 */
module EmuManager {
  import opened Wrappers

  /** The regions the console can run in. */
  datatype RegionCode = JpNtsc | AsiaPal | UsNtsc | EuPal

  /** The configured region: auto-detection or a forced region. */
  datatype ConfRegion = ConfAutoDetect | ConfJpNtsc | ConfAsiaPal | ConfUsNtsc | ConfEuPal

  /** The systems a ROM can target. */
  datatype SystemId = SysMd | SysMcd | Sys32X | SysMcd32X | SysSms | SysGg | SysSg1000 | SysPico | SysUnknown

  /** The preference order: four nibbles, the most significant first. */
  type RegionOrder = o: nat | o < 0x1_0000

  /** The value of `regionCodeOrder << (4 * i)` that the scan shifts along. */
  function OrderShift(i: nat): nat
    requires i < 4
  {
    [0x1, 0x10, 0x100, 0x1000][i]
  }

  /** The i-th preference, counted from the most significant nibble. */
  function Nibble(order: RegionOrder, i: nat): (n: nat)
    requires i < 4
    ensures n < 16
  {
    order / [0x1000, 0x100, 0x10, 0x1][i] % 16
  }

  /** Bit k (0 to 3) of an int in two's complement: Euclidean `/` and `%` by powers of two agree with shifts and masks. */
  predicate Bit(x: int, k: nat)
    requires k < 4
  {
    x / [1, 2, 4, 8][k] % 2 == 1
  }

  /** `x & n != 0` for a nibble `n`. */
  predicate Overlaps(x: int, n: nat)
    requires n < 16
  {
    exists k :: 0 <= k < 4 && Bit(x, k) && Bit(n, k)
  }

  /** The first preference from position `i` on that the ROM supports, or 0 when there is none. */
  function FirstMatch(md: int, order: RegionOrder, i: nat): (m: nat)
    requires i <= 4
    ensures m < 16
    decreases 4 - i
  {
    if i == 4 then 0
    else if Overlaps(md, Nibble(order, i)) then Nibble(order, i)
    else FirstMatch(md, order, i + 1)
  }

  /** The final switch on `regionMatch & 0xF`. */
  function RegionOfNibble(n: nat): RegionCode
    requires n < 16
  {
    if n == 0x8 then EuPal
    else if n == 0x1 then JpNtsc
    else if n == 0x2 then AsiaPal
    else UsNtsc
  }

  /** The detected region: the first supported preference, or the first preference when none is supported. */
  function DetectedRegion(md: int, order: RegionOrder): RegionCode {
    var m := FirstMatch(md, order, 0);
    RegionOfNibble(if m == 0 then Nibble(order, 0) else m)
  }

  /** The region GetLgRegionCode returns. */
  function LgRegionCode(conf: ConfRegion, md: int, order: RegionOrder): RegionCode {
    match conf
    case ConfJpNtsc => JpNtsc
    case ConfAsiaPal => AsiaPal
    case ConfUsNtsc => UsNtsc
    case ConfEuPal => EuPal
    case ConfAutoDetect => DetectedRegion(md, order)
  }

  /** GetLgRegionCode: the scan over the four preference nibbles, as the source runs it. */
  method GetLgRegionCode(conf: ConfRegion, md: int, order: RegionOrder) returns (r: RegionCode)
    ensures r == LgRegionCode(conf, md, order)
  {
    match conf {
      case ConfJpNtsc => r := JpNtsc;
      case ConfAsiaPal => r := AsiaPal;
      case ConfUsNtsc => r := UsNtsc;
      case ConfEuPal => r := EuPal;
      case ConfAutoDetect =>
        var regionMatch := 0;
        var orderTmp: nat := order;
        var i := 0;
        while i < 4
          invariant 0 <= i <= 4
          invariant i < 4 ==> orderTmp == order * OrderShift(i)
          invariant regionMatch == 0
          invariant FirstMatch(md, order, 0) == FirstMatch(md, order, i)
          decreases 4 - i
        {
          var orderN := orderTmp / 0x1000 % 16;
          NibbleOfShifted(order, i);
          if Overlaps(md, orderN) {
            regionMatch := orderN;
            break;
          }
          i := i + 1;
          orderTmp := orderTmp * 16;
        }
        if regionMatch == 0 {
          regionMatch := order / 0x1000 % 16;
        }
        r := RegionOfNibble(regionMatch);
    }
  }

  /** Shifting the order left by 4i bits brings the i-th preference into bits 12-15. */
  lemma NibbleOfShifted(order: RegionOrder, i: nat)
    requires i < 4
    ensures order * OrderShift(i) / 0x1000 % 16 == Nibble(order, i)
  {
    var q, r := order / [0x1000, 0x100, 0x10, 0x1][i], order % [0x1000, 0x100, 0x10, 0x1][i];
    if i == 0 {
    } else if i == 1 {
      assert order * 0x10 == 0x1000 * q + 0x10 * r;
    } else if i == 2 {
      assert order * 0x100 == 0x1000 * q + 0x100 * r;
    } else {
      assert order * 0x1000 == 0x1000 * order;
    }
  }

  // ---------------------------------------------------------------------
  // Properties of region selection

  /** A forced region is used whatever the ROM says. */
  lemma ForcedRegionWins(md: int, order: RegionOrder)
    ensures LgRegionCode(ConfJpNtsc, md, order) == JpNtsc
    ensures LgRegionCode(ConfAsiaPal, md, order) == AsiaPal
    ensures LgRegionCode(ConfUsNtsc, md, order) == UsNtsc
    ensures LgRegionCode(ConfEuPal, md, order) == EuPal
  {
  }

  /**
   * The scan picks the first preference the ROM supports: the result of
   * FirstMatch is either 0, when no preference from `i` on is supported, or
   * the supported preference at some position j with none supported before it.
   */
  lemma {:induction false} FirstMatchIsFirst(md: int, order: RegionOrder, i: nat)
    requires i <= 4
    ensures FirstMatch(md, order, i) == 0 <==> forall j :: i <= j < 4 ==> !Overlaps(md, Nibble(order, j))
    ensures FirstMatch(md, order, i) != 0 ==>
      exists j :: i <= j < 4 && FirstMatch(md, order, i) == Nibble(order, j) && Overlaps(md, Nibble(order, j))
        && forall l :: i <= l < j ==> !Overlaps(md, Nibble(order, l))
    decreases 4 - i
  {
    if i < 4 {
      FirstMatchIsFirst(md, order, i + 1);
      if Overlaps(md, Nibble(order, i)) {
        NonZeroWhenOverlapping(md, Nibble(order, i));
      }
    }
  }

  /** Only a non-zero nibble can share a bit with the ROM's code. */
  lemma NonZeroWhenOverlapping(md: int, n: nat)
    requires n < 16 && Overlaps(md, n)
    ensures n != 0
  {
    var k :| 0 <= k < 4 && Bit(md, k) && Bit(n, k);
  }

  /** The auto-detected region when some preference is supported: the first one. */
  lemma AutoDetectPicksFirstSupported(md: int, order: RegionOrder, j: nat)
    requires j < 4 && Overlaps(md, Nibble(order, j))
    requires forall l :: 0 <= l < j ==> !Overlaps(md, Nibble(order, l))
    ensures LgRegionCode(ConfAutoDetect, md, order) == RegionOfNibble(Nibble(order, j))
  {
    FirstMatchSkips(md, order, 0, j);
  }

  lemma {:induction false} FirstMatchSkips(md: int, order: RegionOrder, i: nat, j: nat)
    requires i <= j < 4 && Overlaps(md, Nibble(order, j))
    requires forall l :: i <= l < j ==> !Overlaps(md, Nibble(order, l))
    ensures FirstMatch(md, order, i) == Nibble(order, j)
    decreases j - i
  {
    if i < j {
      FirstMatchSkips(md, order, i + 1, j);
    }
  }

  /** When no preference is supported, the first (most significant) preference is used. */
  lemma AutoDetectFallsBackToFirst(md: int, order: RegionOrder)
    requires forall l :: 0 <= l < 4 ==> !Overlaps(md, Nibble(order, l))
    ensures LgRegionCode(ConfAutoDetect, md, order) == RegionOfNibble(order / 0x1000 % 16)
  {
    FirstMatchIsFirst(md, order, 0);
  }

  /** The final mapping: 1, 2 and 8 name JP, ASIA and EU; 4 and every other value US. */
  lemma RegionMapping(n: nat)
    requires n < 16
    ensures RegionOfNibble(n) == JpNtsc <==> n == 1
    ensures RegionOfNibble(n) == AsiaPal <==> n == 2
    ensures RegionOfNibble(n) == EuPal <==> n == 8
    ensures RegionOfNibble(n) == UsNtsc <==> n !in {1, 2, 8}
  {
  }

  // ---------------------------------------------------------------------
  // Names

  /** The region names (the translated strings are opaque; the English source text stands for them). */
  const JAPAN_NTSC: string := "Japan (NTSC)"
  const ASIA_PAL: string := "Asia (PAL)"
  const USA_NTSC: string := "USA (NTSC)"
  const EUROPE_PAL: string := "Europe (PAL)"

  function LgRegionCodeStr(region: RegionCode): (s: string)
    ensures s != ""
  {
    match region
    case JpNtsc => JAPAN_NTSC
    case AsiaPal => ASIA_PAL
    case UsNtsc => USA_NTSC
    case EuPal => EUROPE_PAL
  }

  /** The name of an MD header region nibble; only `region & 0xF` is looked at. */
  function LgRegionCodeStrMD(region: int): (s: string) {
    var n := region % 16;
    if n == 0x1 then JAPAN_NTSC
    else if n == 0x2 then ASIA_PAL
    else if n == 0x4 then USA_NTSC
    else if n == 0x8 then EUROPE_PAL
    else ""
  }

  /** Only the low nibble counts, and a name exists exactly for the four single-bit codes. */
  lemma RegionStrMDShape(region: int)
    ensures LgRegionCodeStrMD(region) == LgRegionCodeStrMD(region % 16)
    ensures LgRegionCodeStrMD(region) != "" <==> region % 16 in {1, 2, 4, 8}
  {
  }

  /** The two name tables agree: a single-bit nibble names the region it selects. */
  lemma RegionNamesAgree(n: nat)
    requires n in {1, 2, 4, 8}
    ensures LgRegionCodeStrMD(n) == LgRegionCodeStr(RegionOfNibble(n))
  {
  }

  /** SysName: the system's name, localised by region for the Sega CD and 32X families. */
  function SysName(sys: SystemId, region: RegionCode): string {
    match sys
    case SysMd => if region == UsNtsc then "Genesis" else "Mega Drive"
    case SysMcd => if region == UsNtsc then "Sega CD" else "Mega CD"
    case Sys32X =>
      (match region
       case UsNtsc => "Sega 32X"
       case EuPal => "Mega Drive 32X"
       case JpNtsc => "Super 32X"
       case AsiaPal => "Super 32X")
    case SysMcd32X => if region == UsNtsc then "Sega CD 32X" else "Mega CD 32X"
    case SysSms => "Master System"
    case SysGg => "Game Gear"
    case SysSg1000 => "SG-1000"
    case SysPico => "Pico"
    case SysUnknown => ""
  }

  lemma SysNameMD(region: RegionCode)
    ensures SysName(SysMd, region) == "Genesis" <==> region == UsNtsc
    ensures SysName(SysMd, region) == "Mega Drive" <==> region != UsNtsc
    ensures SysName(SysUnknown, region) == ""
  {
  }

  /** Every known system has a name. */
  lemma KnownSystemsAreNamed(sys: SystemId, region: RegionCode)
    ensures SysName(sys, region) == "" <==> sys == SysUnknown
  {
  }

  // ---------------------------------------------------------------------
  // ROM name

  /** The two header names of a loaded ROM; None is a null name. */
  datatype RomNames = RomNames(nameJP: Option<string>, nameUS: Option<string>)

  /** A name that is neither null nor empty. */
  predicate Usable(name: Option<string>) {
    name.Some? && name.value != ""
  }

  /**
   * romName: with no ROM, empty; otherwise the name for the console's side
   * of the world (`east`: the domestic name), falling back to the other name
   * when it is null or empty; a null result is the empty string.
   */
  function RomName(rom: Option<RomNames>, east: bool): (s: string) {
    if rom.None? then ""
    else
      var preferred := if east then rom.value.nameJP else rom.value.nameUS;
      var other := if east then rom.value.nameUS else rom.value.nameJP;
      var chosen := if Usable(preferred) then preferred else other;
      if chosen.None? then "" else chosen.value
  }

  lemma RomNameChoice(rom: Option<RomNames>, east: bool)
    ensures rom.None? ==> RomName(rom, east) == ""
    ensures rom.Some? && east && Usable(rom.value.nameJP) ==> RomName(rom, east) == rom.value.nameJP.value
    ensures rom.Some? && !east && Usable(rom.value.nameUS) ==> RomName(rom, east) == rom.value.nameUS.value
    ensures rom.Some? && east && !Usable(rom.value.nameJP) ==>
      RomName(rom, east) == (if rom.value.nameUS.Some? then rom.value.nameUS.value else "")
    ensures rom.Some? && !east && !Usable(rom.value.nameUS) ==>
      RomName(rom, east) == (if rom.value.nameJP.Some? then rom.value.nameJP.value else "")
  {
  }

  /** The name is empty only when neither header name is usable. */
  lemma RomNameEmpty(rom: RomNames, east: bool)
    ensures RomName(Some(rom), east) == "" <==> !Usable(rom.nameJP) && !Usable(rom.nameUS)
  {
  }
}
