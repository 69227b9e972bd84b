/**
 * The controller configuration of the Qt front end: for each of the 14
 * controller ports a device type and 12 key slots, a dirty flag, and the
 * text format in which they are kept in the settings file (per port, a
 * decimal `type` value and a `keys` value of `0x`-prefixed, zero-padded
 * hexadecimal keys joined by `:`).
 */
module CtrlConfig {
  import opened QtText

  const PORT_MAX: nat := 14
  const MAX_BTNS: nat := 12
  const PORT_1: nat := 0

  const IOT_NONE: int := 0
  const IOT_3BTN: int := 1
  const IOT_6BTN: int := 2
  const IOT_2BTN: int := 3
  const IOT_MEGA_MOUSE: int := 4
  const IOT_MAX: int := 8

  /** `chrKeyValSep`. */
  const KEY_VAL_SEP: char := ':'

  /** A key code (`GensKey_t`, an unsigned 32-bit value). */
  type GensKey = k: nat | k <= UINT_MAX

  /** The settings group: keys to stored text. */
  type Settings = map<string, string>

  /**
   * The number of buttons of the device types IOT_NONE, IOT_3BTN, IOT_6BTN,
   * IOT_2BTN and IOT_MEGA_MOUSE, in that order; every device has at most
   * MAX_BTNS buttons.
   */
  type ButtonCounts = c: seq<nat> | |c| == 5 && forall t :: 0 <= t < 5 ==> c[t] <= MAX_BTNS
    witness [0, 0, 0, 0, 0]

  function Min(a: int, b: int): int {
    if a <= b then a else b
  }

  /** NumButtons: every type without a device class of its own counts as IOT_NONE. */
  function NumButtons(counts: ButtonCounts, t: int): (n: nat)
    ensures n <= MAX_BTNS
    ensures IOT_NONE <= t <= IOT_MEGA_MOUSE ==> n == counts[t]
    ensures !(IOT_NONE <= t <= IOT_MEGA_MOUSE) ==> n == counts[IOT_NONE]
  {
    if 0 <= t < 5 then counts[t] else counts[0]
  }

  /** PortName: the internal (not translated) name of a port, empty for an unknown port. */
  function PortName(port: int): string {
    if 0 <= port < PORT_MAX then
      ["port1", "port2",
       "portTP1A", "portTP1B", "portTP1C", "portTP1D",
       "portTP2A", "portTP2B", "portTP2C", "portTP2D",
       "port4WPA", "port4WPB", "port4WPC", "port4WPD"][port]
    else ""
  }

  function TypeKey(port: int): string {
    PortName(port) + "/type"
  }

  function KeysKey(port: int): string {
    PortName(port) + "/keys"
  }

  /** The stored form of an int value. */
  function DecimalString(n: int): string {
    if n < 0 then "-" + Number(-n, 10) else Number(n, 10)
  }

  /** Key `j` of `port` in the row-major key table. */
  function KeyAt(keys: seq<GensKey>, port: nat, j: nat): GensKey
    requires |keys| == PORT_MAX * MAX_BTNS && port < PORT_MAX && j < MAX_BTNS
  {
    keys[port * MAX_BTNS + j]
  }

  // ---------------------------------------------------------------------
  // Loading

  /** The type value a settings group gives a port. */
  function StoredType(settings: Settings, port: int): int {
    if TypeKey(port) in settings then ToInt(settings[TypeKey(port)]) else IOT_NONE
  }

  /** An out-of-range type becomes IOT_NONE. */
  function ClampType(t: int): (r: int)
    ensures IOT_NONE <= r < IOT_MAX
    ensures IOT_NONE <= t < IOT_MAX ==> r == t
    ensures !(IOT_NONE <= t < IOT_MAX) ==> r == IOT_NONE
  {
    if t < IOT_NONE || t >= IOT_MAX then IOT_NONE else t
  }

  function LoadedType(settings: Settings, port: int): int {
    ClampType(StoredType(settings, port))
  }

  /** The `:`-separated fields of a port's stored keys (one empty field when there are none). */
  function KeyFields(settings: Settings, port: int): seq<string> {
    Split(if KeysKey(port) in settings then settings[KeysKey(port)] else "", KEY_VAL_SEP)
  }

  /** Key slot `j` after loading: the parsed field for the first min(#fields, NumButtons) slots, 0 for the rest. */
  function LoadedKey(counts: ButtonCounts, settings: Settings, port: int, j: nat): GensKey {
    var fields := KeyFields(settings, port);
    if j < Min(|fields|, NumButtons(counts, LoadedType(settings, port))) then ToUIntBase0(fields[j]) else 0
  }

  // ---------------------------------------------------------------------
  // Saving

  /** A key as saved: `0x`, then its lower-case hex digits padded to 4 digits, or to 8 above 0xFFFF. */
  function KeyField(k: GensKey): string {
    "0x" + RightJustified(Number(k, 16), if k <= 0xFFFF then 4 else 8, '0')
  }

  /** The fields for the first n keys of a port. */
  function KeyFieldList(keys: seq<GensKey>, port: nat, n: nat): (fields: seq<string>)
    requires |keys| == PORT_MAX * MAX_BTNS && port < PORT_MAX && n <= MAX_BTNS
    ensures |fields| == n
  {
    if n == 0 then [] else KeyFieldList(keys, port, n - 1) + [KeyField(KeyAt(keys, port, n - 1))]
  }

  /** The text saved for a port's keys: min(NumButtons, MAX_BTNS) fields joined by `:`. */
  function KeyString(counts: ButtonCounts, t: int, keys: seq<GensKey>, port: nat): string
    requires |keys| == PORT_MAX * MAX_BTNS && port < PORT_MAX
  {
    Join(KeyFieldList(keys, port, Min(NumButtons(counts, t), MAX_BTNS)), KEY_VAL_SEP)
  }

  /** The settings after the first n ports are saved. */
  function SavedSettings(counts: ButtonCounts, settings: Settings, types: seq<int>, keys: seq<GensKey>, n: nat): Settings
    requires |types| == PORT_MAX && |keys| == PORT_MAX * MAX_BTNS && n <= PORT_MAX
  {
    if n == 0 then settings
    else
      var p := n - 1;
      SavedSettings(counts, settings, types, keys, p)
        [TypeKey(p) := DecimalString(types[p])]
        [KeysKey(p) := KeyString(counts, types[p], keys, p)]
  }

  // ---------------------------------------------------------------------
  // The configuration object

  /** An emulated controller device (`IoBase` and its subclasses), identified by its type. */
  class IoPort {
    const devType: int

    constructor (t: int)
      ensures devType == t
    {
      devType := t;
    }
  }

  /** The type of the device updatePort1 creates for a configured type; the types without a class of their own get a plain IoBase. */
  function DeviceType(t: int): int {
    if IOT_3BTN <= t <= IOT_MEGA_MOUSE then t else IOT_NONE
  }

  class Config {
    const counts: ButtonCounts
    const ctrlTypes: array<int>
    /** `ctrlKeys[PORT_MAX][MAX_BTNS]`, row-major. */
    const ctrlKeys: array<GensKey>
    var dirty: bool

    ghost predicate Valid()
      reads this
    {
      ctrlTypes.Length == PORT_MAX && ctrlKeys.Length == PORT_MAX * MAX_BTNS
    }

    /** A configuration with every type IOT_NONE, every key 0, and the dirty flag set. */
    constructor (counts: ButtonCounts)
      ensures Valid() && fresh(ctrlTypes) && fresh(ctrlKeys) && this.counts == counts
      ensures forall p :: 0 <= p < PORT_MAX ==> ctrlTypes[p] == IOT_NONE
      ensures forall k :: 0 <= k < PORT_MAX * MAX_BTNS ==> ctrlKeys[k] == 0
      ensures IsDirty()
    {
      this.counts := counts;
      ctrlTypes := new int[PORT_MAX](_ => IOT_NONE);
      ctrlKeys := new GensKey[PORT_MAX * MAX_BTNS](_ => 0);
      dirty := true;
    }

    predicate IsDirty()
      reads this
    {
      dirty
    }

    method ClearDirty()
      modifies this`dirty
      ensures !IsDirty()
    {
      dirty := false;
    }

    /** load: every port's type and keys from the settings group; always succeeds and marks the configuration dirty. */
    method Load(settings: Settings) returns (r: int)
      requires Valid()
      modifies ctrlTypes, ctrlKeys, this`dirty
      ensures r == 0 && IsDirty()
      ensures forall p :: 0 <= p < PORT_MAX ==> ctrlTypes[p] == LoadedType(settings, p)
      ensures forall p, j :: 0 <= p < PORT_MAX && 0 <= j < MAX_BTNS ==>
        KeyAt(ctrlKeys[..], p, j) == LoadedKey(counts, settings, p, j)
    {
      var i := 0;
      while i < PORT_MAX
        invariant 0 <= i <= PORT_MAX
        invariant forall p :: 0 <= p < i ==> ctrlTypes[p] == LoadedType(settings, p)
        invariant forall p, j :: 0 <= p < i && 0 <= j < MAX_BTNS ==>
          KeyAt(ctrlKeys[..], p, j) == LoadedKey(counts, settings, p, j)
      {
        LoadPort(settings, i);
        i := i + 1;
      }
      dirty := true;
      r := 0;
    }

    /** One iteration of load's loop over the ports: the type and keys of port i. */
    method LoadPort(settings: Settings, i: nat)
      requires Valid() && i < PORT_MAX
      modifies ctrlTypes, ctrlKeys
      ensures ctrlTypes[i] == LoadedType(settings, i)
      ensures forall k :: 0 <= k < MAX_BTNS ==> KeyAt(ctrlKeys[..], i, k) == LoadedKey(counts, settings, i, k)
      ensures forall p :: 0 <= p < PORT_MAX && p != i ==> ctrlTypes[p] == old(ctrlTypes[p])
      ensures forall p, k :: 0 <= p < PORT_MAX && p != i && 0 <= k < MAX_BTNS ==>
        KeyAt(ctrlKeys[..], p, k) == KeyAt(old(ctrlKeys[..]), p, k)
    {
      var t := if TypeKey(i) in settings then ToInt(settings[TypeKey(i)]) else IOT_NONE;
      if t < IOT_NONE || t >= IOT_MAX {
        t := IOT_NONE;
      }
      ctrlTypes[i] := t;
      assert t == LoadedType(settings, i);

      ClearKeys(i);

      // Copy the parsed keys, the last one first.
      var keyData := Split(if KeysKey(i) in settings then settings[KeysKey(i)] else "", KEY_VAL_SEP);
      assert keyData == KeyFields(settings, i);
      CopyKeys(i, keyData, Min(|keyData|, NumButtons(counts, t)));
    }

    /** The copy loop of load: from slot n-1 down to slot 0, each key slot of port i gets its field parsed in base 0. */
    method CopyKeys(i: nat, keyData: seq<string>, n: nat)
      requires Valid() && i < PORT_MAX && n <= |keyData| && n <= MAX_BTNS
      modifies ctrlKeys
      ensures forall k :: 0 <= k < MAX_BTNS ==>
        KeyAt(ctrlKeys[..], i, k) == if k < n then ToUIntBase0(keyData[k]) else KeyAt(old(ctrlKeys[..]), i, k)
      ensures forall p, k :: 0 <= p < PORT_MAX && p != i && 0 <= k < MAX_BTNS ==>
        KeyAt(ctrlKeys[..], p, k) == KeyAt(old(ctrlKeys[..]), p, k)
    {
      var j := n - 1;
      while j >= 0
        invariant -1 <= j < MAX_BTNS && j < |keyData|
        invariant forall k :: 0 <= k < MAX_BTNS ==>
          KeyAt(ctrlKeys[..], i, k) == if j < k < n then ToUIntBase0(keyData[k]) else KeyAt(old(ctrlKeys[..]), i, k)
        invariant forall p, k :: 0 <= p < PORT_MAX && p != i && 0 <= k < MAX_BTNS ==>
          KeyAt(ctrlKeys[..], p, k) == KeyAt(old(ctrlKeys[..]), p, k)
      {
        ghost var before := ctrlKeys[..];
        ctrlKeys[i * MAX_BTNS + j] := ToUIntBase0(keyData[j]);
        assert forall p, k :: 0 <= p < PORT_MAX && 0 <= k < MAX_BTNS && (p, k) != (i, j) ==>
          KeyAt(ctrlKeys[..], p, k) == KeyAt(before, p, k);
        j := j - 1;
      }
    }

    /** Clears port i's twelve key slots to 0. */
    method ClearKeys(i: nat)
      requires Valid() && i < PORT_MAX
      modifies ctrlKeys
      ensures forall k :: 0 <= k < MAX_BTNS ==> KeyAt(ctrlKeys[..], i, k) == 0
      ensures forall p, k :: 0 <= p < PORT_MAX && p != i && 0 <= k < MAX_BTNS ==>
        KeyAt(ctrlKeys[..], p, k) == KeyAt(old(ctrlKeys[..]), p, k)
    {
      var j := 0;
      while j < MAX_BTNS
        invariant 0 <= j <= MAX_BTNS
        invariant forall k :: 0 <= k < j ==> KeyAt(ctrlKeys[..], i, k) == 0
        invariant forall p, k :: 0 <= p < PORT_MAX && p != i && 0 <= k < MAX_BTNS ==>
          KeyAt(ctrlKeys[..], p, k) == KeyAt(old(ctrlKeys[..]), p, k)
      {
        ghost var before := ctrlKeys[..];
        ctrlKeys[i * MAX_BTNS + j] := 0;
        assert forall p, k :: 0 <= p < PORT_MAX && 0 <= k < MAX_BTNS && (p, k) != (i, j) ==>
          KeyAt(ctrlKeys[..], p, k) == KeyAt(before, p, k);
        j := j + 1;
      }
    }

    /** save: every port's type and keys into the settings group; the configuration itself is left as it is. */
    method Save(settings: Settings) returns (out: Settings, r: int)
      requires Valid()
      ensures r == 0
      ensures out == SavedSettings(counts, settings, ctrlTypes[..], ctrlKeys[..], PORT_MAX)
    {
      ghost var types, keys := ctrlTypes[..], ctrlKeys[..];
      out := settings;
      var i := 0;
      while i < PORT_MAX
        invariant 0 <= i <= PORT_MAX
        invariant out == SavedSettings(counts, settings, types, keys, i)
      {
        SavedStep(counts, settings, types, keys, i);
        out := out[TypeKey(i) := DecimalString(ctrlTypes[i])];
        var keyData := KeyData(i);
        out := out[KeysKey(i) := keyData];
        i := i + 1;
      }
      r := 0;
    }

    /** The inner loop of save: the `:`-joined key fields of port i. */
    method KeyData(i: nat) returns (keyData: string)
      requires Valid() && i < PORT_MAX
      ensures keyData == KeyString(counts, ctrlTypes[i], ctrlKeys[..], i)
    {
      ghost var keys := ctrlKeys[..];
      keyData := "";
      var numButtons := NumButtons(counts, ctrlTypes[i]);
      var j := 0;
      while j < Min(numButtons, MAX_BTNS)
        invariant 0 <= j <= Min(numButtons, MAX_BTNS)
        invariant keyData == Join(KeyFieldList(keys, i, j), KEY_VAL_SEP)
      {
        var key := ctrlKeys[i * MAX_BTNS + j];
        assert key == KeyAt(keys, i, j);
        var keyHex := Number(key, 16);
        var width := if key <= 0xFFFF then 4 else 8;
        KeyDataStep(keys, i, j);
        if j > 0 {
          keyData := keyData + [KEY_VAL_SEP];
        }
        keyData := keyData + "0x";
        keyData := keyData + RightJustified(keyHex, width, '0');
        j := j + 1;
      }
      assert j == Min(NumButtons(counts, ctrlTypes[i]), MAX_BTNS);
    }

    /** updatePort1: keep port 1's device when it has the configured type, otherwise replace it with a new device for that type. */
    method UpdatePort1(oldPort: IoPort?) returns (newPort: IoPort)
      requires Valid()
      ensures newPort == oldPort <==> oldPort != null && oldPort.devType == ctrlTypes[PORT_1]
      ensures newPort != oldPort ==> fresh(newPort) && newPort.devType == DeviceType(ctrlTypes[PORT_1])
    {
      if oldPort == null || oldPort.devType != ctrlTypes[PORT_1] {
        newPort := new IoPort(DeviceType(ctrlTypes[PORT_1]));
      } else {
        newPort := oldPort;
      }
    }
  }

  /** One turn of save's loop over the ports. */
  lemma SavedStep(counts: ButtonCounts, settings: Settings, types: seq<int>, keys: seq<GensKey>, n: nat)
    requires |types| == PORT_MAX && |keys| == PORT_MAX * MAX_BTNS && n < PORT_MAX
    ensures SavedSettings(counts, settings, types, keys, n + 1) ==
      SavedSettings(counts, settings, types, keys, n)
        [TypeKey(n) := DecimalString(types[n])][KeysKey(n) := KeyString(counts, types[n], keys, n)]
  {
  }

  /** One turn of save's inner loop: appending a separator (after the first key), `0x` and the padded digits extends the join by one field. */
  lemma KeyDataStep(keys: seq<GensKey>, port: nat, j: nat)
    requires |keys| == PORT_MAX * MAX_BTNS && port < PORT_MAX && j < MAX_BTNS
    ensures var key := KeyAt(keys, port, j);
      var joined := Join(KeyFieldList(keys, port, j), KEY_VAL_SEP);
      Join(KeyFieldList(keys, port, j + 1), KEY_VAL_SEP) ==
        ((if j > 0 then joined + [KEY_VAL_SEP] else joined) + "0x")
          + RightJustified(Number(key, 16), if key <= 0xFFFF then 4 else 8, '0')
  {
    var key := KeyAt(keys, port, j);
    var fields := KeyFieldList(keys, port, j);
    var pad := RightJustified(Number(key, 16), if key <= 0xFFFF then 4 else 8, '0');
    assert KeyFieldList(keys, port, j + 1) == fields + [KeyField(key)];
    JoinAppendParts(fields, KEY_VAL_SEP, KeyField(key), "0x", pad);
  }

  // ---------------------------------------------------------------------
  // Properties

  /** The four to eight digits after `0x` are hexadecimal digits, so a saved field never holds the separator. */
  lemma KeyFieldShape(k: GensKey)
    ensures |KeyField(k)| == if k <= 0xFFFF then 6 else 10
    ensures KeyField(k)[..2] == "0x" && AllDigits(KeyField(k)[2..], 16)
    ensures KEY_VAL_SEP !in KeyField(k)
  {
    var digits := Number(k, 16);
    var width := if k <= 0xFFFF then 4 else 8;
    HexLength(k, width);
    var zeros := width - |digits|;
    var pad := RightJustified(digits, width, '0');
    assert pad == seq(zeros, _ => '0') + digits;
    LeadingZeros(zeros, digits, 16);
    var f := KeyField(k);
    assert f == "0x" + pad;
    assert f[2..] == pad;
    SeparatorIsNotADigit(pad);
  }

  lemma SeparatorIsNotADigit(s: string)
    requires AllDigits(s, 16)
    ensures KEY_VAL_SEP !in s
  {
  }

  /** A saved field parses back to its key: base-0 parsing reads `0x` as hexadecimal, and the padding zeros add nothing. */
  lemma KeyFieldRoundTrip(k: GensKey)
    ensures ToUIntBase0(KeyField(k)) == k
  {
    var digits := Number(k, 16);
    var width := if k <= 0xFFFF then 4 else 8;
    var pad := RightJustified(digits, width, '0');
    var zeros := if |digits| >= width then 0 else width - |digits|;
    assert pad == seq(zeros, _ => '0') + digits;
    LeadingZeros(zeros, digits, 16);
    NumberRoundTrip(k, 16);
    var f := KeyField(k);
    assert f[0] == '0' && f[1] == 'x' && f[2..] == pad;
  }

  /** A stored int type reads back as itself. */
  lemma DecimalRoundTrip(n: int)
    requires INT_MIN <= n <= INT_MAX
    ensures ToInt(DecimalString(n)) == n
  {
    var m := if n < 0 then -n else n;
    var digits := Number(m, 10);
    NumberRoundTrip(m, 10);
    assert DigitValue(digits[0]) < 10;
    var s := DecimalString(n);
    if n < 0 {
      assert s[0] == '-' && s[1..] == digits;
    } else {
      assert s == digits;
    }
  }

  /** PortName names the 14 ports apart. */
  lemma PortNamesDistinct(p: int, q: int)
    requires 0 <= p < PORT_MAX && 0 <= q < PORT_MAX && p != q
    ensures PortName(p) != PortName(q)
  {
  }

  /** PortName is empty exactly for an unknown port. */
  lemma PortNameKnown(p: int)
    ensures PortName(p) == "" <==> !(0 <= p < PORT_MAX)
  {
  }

  /** The settings keys of different ports, and the type and keys entries of one port, are all different. */
  lemma SettingsKeysDistinct(p: int, q: int)
    requires 0 <= p < PORT_MAX && 0 <= q < PORT_MAX
    ensures TypeKey(p) != KeysKey(q)
    ensures p != q ==> TypeKey(p) != TypeKey(q) && KeysKey(p) != KeysKey(q)
  {
    KeySuffixes(p, q);
    if p != q {
      PortNamesDistinct(p, q);
      var a, b := PortName(p), PortName(q);
      if |a| == |b| {
        assert TypeKey(p)[..|a|] == a && TypeKey(q)[..|a|] == b;
        assert KeysKey(p)[..|a|] == a && KeysKey(q)[..|a|] == b;
      }
    }
  }

  lemma KeySuffixes(p: int, q: int)
    ensures TypeKey(p)[|TypeKey(p)| - 1] == 'e' && KeysKey(q)[|KeysKey(q)| - 1] == 's'
  {
  }

  /** What save leaves for a saved port's type: the type in decimal. */
  lemma {:induction false} SavedTypeLookup(counts: ButtonCounts, settings: Settings, types: seq<int>, keys: seq<GensKey>, n: nat, p: nat)
    requires |types| == PORT_MAX && |keys| == PORT_MAX * MAX_BTNS && n <= PORT_MAX && p < n
    ensures TypeKey(p) in SavedSettings(counts, settings, types, keys, n)
    ensures SavedSettings(counts, settings, types, keys, n)[TypeKey(p)] == DecimalString(types[p])
  {
    var q := n - 1;
    var prev := SavedSettings(counts, settings, types, keys, q);
    var v1, v2 := DecimalString(types[q]), KeyString(counts, types[q], keys, q);
    assert SavedSettings(counts, settings, types, keys, n) == prev[TypeKey(q) := v1][KeysKey(q) := v2];
    if p < q {
      SavedTypeLookup(counts, settings, types, keys, q, p);
      SettingsKeysDistinct(p, q);
      SettingsKeysDistinct(q, p);
      UpdateElsewhere(prev, TypeKey(q), v1, KeysKey(q), v2, TypeKey(p));
    } else {
      SettingsKeysDistinct(q, q);
      UpdateTwice(prev, TypeKey(q), v1, KeysKey(q), v2);
    }
  }

  /** What save leaves for a saved port's keys: the joined key fields. */
  lemma {:induction false} SavedKeysLookup(counts: ButtonCounts, settings: Settings, types: seq<int>, keys: seq<GensKey>, n: nat, p: nat)
    requires |types| == PORT_MAX && |keys| == PORT_MAX * MAX_BTNS && n <= PORT_MAX && p < n
    ensures KeysKey(p) in SavedSettings(counts, settings, types, keys, n)
    ensures SavedSettings(counts, settings, types, keys, n)[KeysKey(p)] == KeyString(counts, types[p], keys, p)
  {
    var q := n - 1;
    var prev := SavedSettings(counts, settings, types, keys, q);
    var v1, v2 := DecimalString(types[q]), KeyString(counts, types[q], keys, q);
    assert SavedSettings(counts, settings, types, keys, n) == prev[TypeKey(q) := v1][KeysKey(q) := v2];
    if p < q {
      SavedKeysLookup(counts, settings, types, keys, q, p);
      SettingsKeysDistinct(p, q);
      SettingsKeysDistinct(q, p);
      UpdateElsewhere(prev, TypeKey(q), v1, KeysKey(q), v2, KeysKey(p));
    }
  }

  /** The first of two updates to different keys survives the second. */
  lemma UpdateTwice(m: Settings, k1: string, v1: string, k2: string, v2: string)
    requires k1 != k2
    ensures k1 in m[k1 := v1][k2 := v2] && m[k1 := v1][k2 := v2][k1] == v1
  {
  }

  /** Two updates of a map leave every other key as it was. */
  lemma UpdateElsewhere(m: Settings, k1: string, v1: string, k2: string, v2: string, k: string)
    requires k in m && k != k1 && k != k2
    ensures k in m[k1 := v1][k2 := v2] && m[k1 := v1][k2 := v2][k] == m[k]
  {
  }

  /** The fields of the key list are the saved keys. */
  lemma {:induction false} KeyFieldListAt(keys: seq<GensKey>, port: nat, n: nat, j: nat)
    requires |keys| == PORT_MAX * MAX_BTNS && port < PORT_MAX && j < n <= MAX_BTNS
    ensures KeyFieldList(keys, port, n)[j] == KeyField(KeyAt(keys, port, j))
  {
    if j < n - 1 {
      KeyFieldListAt(keys, port, n - 1, j);
    }
  }

  /** A type without buttons saves an empty key string, which splits into one empty field. */
  lemma KeyStringNoButtons(counts: ButtonCounts, t: int, keys: seq<GensKey>, port: nat)
    requires |keys| == PORT_MAX * MAX_BTNS && port < PORT_MAX
    ensures NumButtons(counts, t) == 0 ==>
      KeyString(counts, t, keys, port) == "" && Split(KeyString(counts, t, keys, port), KEY_VAL_SEP) == [""]
  {
    if NumButtons(counts, t) == 0 {
      SplitEmpty(KEY_VAL_SEP);
    }
  }

  /** The key string of a port splits back into its fields, for a type with at least one button. */
  lemma KeyStringFields(counts: ButtonCounts, t: int, keys: seq<GensKey>, port: nat, j: nat)
    requires |keys| == PORT_MAX * MAX_BTNS && port < PORT_MAX && j < NumButtons(counts, t)
    ensures var fields := Split(KeyString(counts, t, keys, port), KEY_VAL_SEP);
      |fields| == NumButtons(counts, t) && fields[j] == KeyField(KeyAt(keys, port, j))
  {
    var n := NumButtons(counts, t);
    var list := KeyFieldList(keys, port, n);
    forall m | 0 <= m < n
      ensures KEY_VAL_SEP !in list[m]
    {
      KeyFieldListAt(keys, port, n, m);
      KeyFieldShape(KeyAt(keys, port, m));
    }
    SplitJoin(list, KEY_VAL_SEP);
    KeyFieldListAt(keys, port, n, j);
  }

  /**
   * A port the settings say nothing about loads as IOT_NONE, and a port
   * without a `keys` entry loads every key slot as 0: the empty value splits
   * into one empty field, which parses to 0, and no further fields exist.
   */
  lemma MissingEntriesLoadAsDefaults(counts: ButtonCounts, settings: Settings, p: int, j: nat)
    ensures TypeKey(p) !in settings ==> LoadedType(settings, p) == IOT_NONE
    ensures KeysKey(p) !in settings ==> LoadedKey(counts, settings, p, j) == 0
  {
    if KeysKey(p) !in settings {
      SplitEmpty(KEY_VAL_SEP);
      assert KeyFields(settings, p) == [""];
      ToUIntFailures("", 0);
    }
  }

  /**
   * A stored type beyond the int range is truncated, not rejected: digits
   * worth 2^32 + 1 (the text "4294967297") become 1, so the port loads as a
   * 3-button pad.
   */
  lemma TruncatedTypeLoads(settings: Settings, p: int)
    requires TypeKey(p) in settings
    requires var s := settings[TypeKey(p)]; |s| >= 1 && AllDigits(s, 10) && ValueOf(s, 10) == 0x1_0000_0001
    ensures LoadedType(settings, p) == IOT_3BTN
  {
    ToIntTruncates(settings[TypeKey(p)]);
  }

  /**
   * Loading what save wrote gives back every port's type, when it is in
   * range, and its first NumButtons keys; the other slots load as 0.
   */
  lemma LoadAfterSave(counts: ButtonCounts, settings: Settings, types: seq<int>, keys: seq<GensKey>, p: nat, j: nat)
    requires |types| == PORT_MAX && |keys| == PORT_MAX * MAX_BTNS
    requires p < PORT_MAX && j < MAX_BTNS && IOT_NONE <= types[p] < IOT_MAX
    ensures var saved := SavedSettings(counts, settings, types, keys, PORT_MAX);
      && LoadedType(saved, p) == types[p]
      && LoadedKey(counts, saved, p, j) == if j < NumButtons(counts, types[p]) then KeyAt(keys, p, j) else 0
  {
    var saved := SavedSettings(counts, settings, types, keys, PORT_MAX);
    SavedTypeLookup(counts, settings, types, keys, PORT_MAX, p);
    SavedKeysLookup(counts, settings, types, keys, PORT_MAX, p);
    DecimalRoundTrip(types[p]);
    assert LoadedType(saved, p) == types[p];
    if j < NumButtons(counts, types[p]) {
      KeyStringFields(counts, types[p], keys, p, j);
      KeyFieldRoundTrip(KeyAt(keys, p, j));
    }
  }
}
