/**
 * The zeST configuration: the string-to-value interpreters used for INI
 * settings, the handler the INI reader calls for every `name = value`
 * line, and the defaults that config_load establishes.
 *
 * C strings are modelled as the characters before their terminating NUL.
 */
module Config {

  datatype Option<T> = None | Some(value: T)

  /** Key codes of linux/input-event-codes.h. */
  const KEY_NUMLOCK: int := 69
  const KEY_SYSRQ: int := 99

  /** Index of the "1m" entry of the memory size table. */
  const CFG_1M: int := 2

  // ---------------------------------------------------------------------------
  // Case-insensitive comparison (strcasecmp in the C locale)
  // ---------------------------------------------------------------------------

  /** tolower in the C locale. */
  function ToLower(c: char): char
  {
    if 'A' <= c <= 'Z' then (c as int + 32) as char else c
  }

  /** strcasecmp(a, b) == 0 */
  predicate EqualsIgnoreCase(a: string, b: string)
  {
    |a| == |b| && forall i :: 0 <= i < |a| ==> ToLower(a[i]) == ToLower(b[i])
  }

  lemma EqualsIgnoreCaseSymmetric(a: string, b: string)
    requires EqualsIgnoreCase(a, b)
    ensures EqualsIgnoreCase(b, a)
  {
  }

  lemma EqualsIgnoreCaseTransitive(a: string, b: string, c: string)
    requires EqualsIgnoreCase(a, b) && EqualsIgnoreCase(b, c)
    ensures EqualsIgnoreCase(a, c)
  {
  }

  /** Characters that have no case compare equal only to themselves. */
  lemma CaselessCharacter(a: string, b: string, i: nat)
    requires EqualsIgnoreCase(a, b) && i < |a| && !('A' <= a[i] <= 'Z') && !('a' <= a[i] <= 'z')
    ensures b[i] == a[i]
  {
    assert ToLower(a[i]) == ToLower(b[i]);
  }

  // ---------------------------------------------------------------------------
  // truefalse, memorysize, keyname
  // ---------------------------------------------------------------------------

  /**
   * truefalse: 1 for "true", "yes", "on" in any case and for exactly "1";
   * 0 for anything else ("false", "no", "off", "0" and unrecognised text).
   */
  function TrueFalse(x: string): (r: int)
    ensures r == 0 || r == 1
    ensures r == 1 <==>
      EqualsIgnoreCase(x, "true") || EqualsIgnoreCase(x, "yes") || EqualsIgnoreCase(x, "on") || x == "1"
  {
    if EqualsIgnoreCase(x, "true") then 1
    else if EqualsIgnoreCase(x, "yes") then 1
    else if EqualsIgnoreCase(x, "on") then 1
    else if x == "1" then 1
    else if EqualsIgnoreCase(x, "false") then 0
    else if EqualsIgnoreCase(x, "no") then 0
    else if EqualsIgnoreCase(x, "off") then 0
    else if x == "0" then 0
    else 0
  }

  /** The words for false, in any case, and "0" read as 0. */
  lemma TrueFalseFalseWords(x: string)
    requires EqualsIgnoreCase(x, "false") || EqualsIgnoreCase(x, "no") || EqualsIgnoreCase(x, "off") || x == "0"
    ensures TrueFalse(x) == 0
  {
    if EqualsIgnoreCase(x, "no") {
      assert ToLower(x[0]) == ToLower("no"[0]) != ToLower("on"[0]);
    } else if EqualsIgnoreCase(x, "off") {
      assert ToLower(x[0]) == ToLower("off"[0]) != ToLower("yes"[0]);
    }
  }

  /** truefalse gives the same answer for two spellings that differ only in case. */
  lemma {:induction false} TrueFalseIgnoresCase(x: string, y: string)
    requires EqualsIgnoreCase(x, y)
    ensures TrueFalse(x) == TrueFalse(y)
  {
    EqualsIgnoreCaseSymmetric(x, y);
    forall w: string | EqualsIgnoreCase(x, w)
      ensures EqualsIgnoreCase(y, w)
    {
      EqualsIgnoreCaseTransitive(y, x, w);
    }
    forall w: string | EqualsIgnoreCase(y, w)
      ensures EqualsIgnoreCase(x, w)
    {
      EqualsIgnoreCaseTransitive(x, y, w);
    }
    if x == "1" {
      CaselessCharacter(x, y, 0);
      assert y == "1";
    }
    if y == "1" {
      CaselessCharacter(y, x, 0);
      assert x == "1";
    }
  }

  /**
   * The early-return search of the table loops: the first index from `from`
   * on whose entry equals `x` ignoring case.
   */
  function FindIgnoreCase(x: string, table: seq<string>, from: nat): (r: Option<nat>)
    requires from <= |table|
    ensures r.Some? ==>
      && from <= r.value < |table|
      && EqualsIgnoreCase(x, table[r.value])
      && forall j :: from <= j < r.value ==> !EqualsIgnoreCase(x, table[j])
    ensures r.None? ==> forall j :: from <= j < |table| ==> !EqualsIgnoreCase(x, table[j])
    decreases |table| - from
  {
    if from == |table| then None
    else if EqualsIgnoreCase(x, table[from]) then Some(from)
    else FindIgnoreCase(x, table, from + 1)
  }

  /** The memory size settings, in the order of their codes. */
  const MEMORY_SIZES: seq<string> := ["256k", "512k", "1m", "2m", "2.5m", "4m"]

  /**
   * memorysize: the code of the first size name equal to `x` ignoring case,
   * and CFG_1M when none is.
   */
  function MemorySize(x: string): (r: int)
    ensures 0 <= r < |MEMORY_SIZES|
    ensures (exists i :: 0 <= i < |MEMORY_SIZES| && EqualsIgnoreCase(x, MEMORY_SIZES[i])) ==>
      EqualsIgnoreCase(x, MEMORY_SIZES[r])
    ensures (forall i :: 0 <= i < |MEMORY_SIZES| ==> !EqualsIgnoreCase(x, MEMORY_SIZES[i])) ==>
      r == CFG_1M
  {
    match FindIgnoreCase(x, MEMORY_SIZES, 0)
    case Some(i) => i
    case None => CFG_1M
  }

  /** No two size names are equal ignoring case. */
  lemma MemorySizeNamesDistinct()
    ensures forall i, j :: 0 <= i < j < |MEMORY_SIZES| ==> !EqualsIgnoreCase(MEMORY_SIZES[i], MEMORY_SIZES[j])
  {
    forall i, j | 0 <= i < j < |MEMORY_SIZES|
      ensures !EqualsIgnoreCase(MEMORY_SIZES[i], MEMORY_SIZES[j])
    {
      var a, b := MEMORY_SIZES[i], MEMORY_SIZES[j];
      if |a| == |b| {
        var k := if a[0] != b[0] then 0 else 1;
        assert a[k] != b[k];
        assert ToLower(a[k]) != ToLower(b[k]);
      }
    }
  }

  /**
   * Each size name, in any case, reads back as its own code: memorysize is
   * the inverse of the table.
   */
  lemma MemorySizeOfName(i: nat, x: string)
    requires i < |MEMORY_SIZES| && EqualsIgnoreCase(x, MEMORY_SIZES[i])
    ensures MemorySize(x) == i
  {
    MemorySizeNamesDistinct();
    var r := MemorySize(x);
    EqualsIgnoreCaseSymmetric(x, MEMORY_SIZES[r]);
    EqualsIgnoreCaseTransitive(MEMORY_SIZES[r], x, MEMORY_SIZES[i]);
    EqualsIgnoreCaseSymmetric(MEMORY_SIZES[r], MEMORY_SIZES[i]);
  }

  /** The key names accepted for joystick_emulation, and their key codes. */
  const KEY_NAMES: seq<string> := ["PRINT_SCREEN", "NUM_LOCK"]
  const KEY_VALUES: seq<int> := [KEY_SYSRQ, KEY_NUMLOCK]

  /**
   * keyname: KEY_NUMLOCK exactly for "NUM_LOCK" in any case, KEY_SYSRQ for
   * "PRINT_SCREEN" in any case and for every unrecognised name.
   */
  function KeyName(x: string): (r: int)
    ensures r == KEY_SYSRQ || r == KEY_NUMLOCK
    ensures r == KEY_NUMLOCK <==> EqualsIgnoreCase(x, "NUM_LOCK")
  {
    match FindIgnoreCase(x, KEY_NAMES, 0)
    case Some(i) => KEY_VALUES[i]
    case None => KEY_VALUES[0]
  }

  // ---------------------------------------------------------------------------
  // atoi
  // ---------------------------------------------------------------------------

  /** isspace in the C locale: space, \t, \n, \v, \f, \r. */
  predicate IsSpace(c: char)
  {
    c == ' ' || '\t' <= c <= '\r'
  }

  predicate IsDigit(c: char)
  {
    '0' <= c <= '9'
  }

  /** What is left once the leading white space is dropped. */
  function SkipSpace(s: string): (r: string)
    ensures |r| <= |s| && r == s[|s| - |r|..]
    ensures |r| > 0 ==> !IsSpace(r[0])
  {
    if |s| > 0 && IsSpace(s[0]) then SkipSpace(s[1..]) else s
  }

  /** SkipSpace drops white space and nothing else. */
  lemma {:induction false} SkipSpaceDropsOnlySpace(s: string)
    ensures forall i :: 0 <= i < |s| - |SkipSpace(s)| ==> IsSpace(s[i])
  {
    if |s| > 0 && IsSpace(s[0]) {
      SkipSpaceDropsOnlySpace(s[1..]);
      assert forall i :: 1 <= i < |s| ==> s[i] == s[1..][i - 1];
    }
  }

  /** The longest prefix of decimal digits. */
  function DigitPrefix(s: string): (d: string)
    ensures forall i :: 0 <= i < |d| ==> IsDigit(d[i])
  {
    if |s| > 0 && IsDigit(s[0]) then [s[0]] + DigitPrefix(s[1..]) else []
  }

  function DigitValue(c: char): int
  {
    c as int - '0' as int
  }

  /** The value of a string of decimal digits, most significant first. */
  function DecimalValue(d: string): (r: int)
    requires forall i :: 0 <= i < |d| ==> IsDigit(d[i])
    ensures r >= 0
  {
    if d == [] then 0
    else
      assert IsDigit(d[|d| - 1]);
      DecimalValue(d[..|d| - 1]) * 10 + DigitValue(d[|d| - 1])
  }

  /**
   * atoi: leading white space skipped, an optional sign, then the value of
   * the decimal digits that follow (0 when there are none).
   */
  function Atoi(s: string): (r: int)
    ensures r < 0 ==> |SkipSpace(s)| > 0 && SkipSpace(s)[0] == '-'
    ensures (forall i :: 0 <= i < |s| ==> !IsDigit(s[i])) ==> r == 0
  {
    var t := SkipSpace(s);
    if |t| > 0 && t[0] == '-' then -DecimalValue(DigitPrefix(t[1..]))
    else if |t| > 0 && t[0] == '+' then DecimalValue(DigitPrefix(t[1..]))
    else DecimalValue(DigitPrefix(t))
  }

  /** The decimal spelling of `n`, without leading zeros. */
  function Decimal(n: nat): (d: string)
    ensures |d| > 0 && forall i :: 0 <= i < |d| ==> IsDigit(d[i])
  {
    var last := ('0' as int + n % 10) as char;
    if n < 10 then [last] else Decimal(n / 10) + [last]
  }

  lemma {:induction false} DigitPrefixOfDigits(d: string, rest: string)
    requires forall i :: 0 <= i < |d| ==> IsDigit(d[i])
    requires rest == [] || !IsDigit(rest[0])
    ensures DigitPrefix(d + rest) == d
  {
    if d != [] {
      assert (d + rest)[1..] == d[1..] + rest;
      DigitPrefixOfDigits(d[1..], rest);
    }
  }

  lemma {:induction false} DecimalValueOfDecimal(n: nat)
    ensures DecimalValue(Decimal(n)) == n
  {
    if n >= 10 {
      var d := Decimal(n);
      assert d[..|d| - 1] == Decimal(n / 10);
      DecimalValueOfDecimal(n / 10);
    }
  }

  /** A string that does not start with white space is not shortened by SkipSpace. */
  lemma SkipNoSpace(s: string)
    requires |s| > 0 && !IsSpace(s[0])
    ensures SkipSpace(s) == s
  {
  }

  /**
   * atoi reads back what Decimal writes, with or without a minus sign, up
   * to the first character that is not a digit.
   */
  lemma AtoiOfDecimal(n: nat, rest: string)
    requires rest == [] || !IsDigit(rest[0])
    ensures Atoi(Decimal(n) + rest) == n
    ensures Atoi("-" + Decimal(n) + rest) == -(n as int)
  {
    AtoiOfUnsignedDecimal(n, rest);
    AtoiOfMinusDecimal(n, rest);
  }

  lemma AtoiOfUnsignedDecimal(n: nat, rest: string)
    requires rest == [] || !IsDigit(rest[0])
    ensures Atoi(Decimal(n) + rest) == n
  {
    var d := Decimal(n);
    var s := d + rest;
    DigitPrefixOfDigits(d, rest);
    DecimalValueOfDecimal(n);
    assert s[0] == d[0];
    SkipNoSpace(s);
  }

  lemma AtoiOfMinusDecimal(n: nat, rest: string)
    requires rest == [] || !IsDigit(rest[0])
    ensures Atoi("-" + Decimal(n) + rest) == -(n as int)
  {
    var d := Decimal(n);
    assert "-" + d + rest == ['-'] + (d + rest);
    AtoiOfSign('-', d + rest);
    DigitPrefixOfDigits(d, rest);
    DecimalValueOfDecimal(n);
  }

  /** A leading plus sign is accepted and does not change the value. */
  lemma AtoiOfPlusDecimal(n: nat, rest: string)
    requires rest == [] || !IsDigit(rest[0])
    ensures Atoi("+" + Decimal(n) + rest) == n
  {
    var d := Decimal(n);
    assert "+" + d + rest == ['+'] + (d + rest);
    AtoiOfSign('+', d + rest);
    DigitPrefixOfDigits(d, rest);
    DecimalValueOfDecimal(n);
  }

  /** After a sign, atoi takes the value of the digits, negated for '-'. */
  lemma AtoiOfSign(sign: char, s: string)
    requires sign == '-' || sign == '+'
    ensures Atoi([sign] + s) == if sign == '-' then -DecimalValue(DigitPrefix(s)) else DecimalValue(DigitPrefix(s))
  {
    var t := [sign] + s;
    assert t[0] == sign && t[1..] == s;
    SkipNoSpace(t);
  }

  /** Dropping leading white space from `w + s` drops all of `w`. */
  lemma {:induction false} SkipSpaceOfSpaces(w: string, s: string)
    requires forall i :: 0 <= i < |w| ==> IsSpace(w[i])
    ensures SkipSpace(w + s) == SkipSpace(s)
  {
    if w != [] {
      assert (w + s)[0] == w[0] && (w + s)[1..] == w[1..] + s;
      SkipSpaceOfSpaces(w[1..], s);
    } else {
      assert w + s == s;
    }
  }

  /** atoi gives the same value whatever white space precedes the number. */
  lemma AtoiIgnoresLeadingSpace(w: string, s: string)
    requires forall i :: 0 <= i < |w| ==> IsSpace(w[i])
    ensures Atoi(w + s) == Atoi(s)
  {
    SkipSpaceOfSpaces(w, s);
  }

  // ---------------------------------------------------------------------------
  // The settings and the INI handler
  // ---------------------------------------------------------------------------

  /** The fields of ZestConfig; NULL string fields are None. */
  datatype Settings = Settings(
    mono: int,
    extendedVideoModes: int,
    memSize: int,
    wakestate: int,
    romFile: Option<string>,
    flopimgDir: Option<string>,
    floppyA: Option<string>,
    floppyAWriteProtect: int,
    floppyB: Option<string>,
    floppyBWriteProtect: int,
    hddImage: Option<string>,
    rightAltIsAltgr: int,
    joystickEmulation: int,
    joystickUsbSupport: int)

  /** The recognised (section, name) pairs, one per field. */
  datatype Key =
    | Mono | ExtendedVideoModes | MemSize | Wakestate | RomFile
    | FlopimgDir | FloppyA | FloppyAWriteProtect | FloppyB | FloppyBWriteProtect
    | HddImage | RightAltIsAltgr | JoystickEmulation | JoystickUsbSupport

  /** The (section, name) pair that names each key. */
  function Pair(k: Key): (string, string)
  {
    match k
    case Mono => ("main", "mono")
    case ExtendedVideoModes => ("main", "extended_video_modes")
    case MemSize => ("main", "mem_size")
    case Wakestate => ("main", "wakestate")
    case RomFile => ("main", "rom_file")
    case FlopimgDir => ("floppy", "flopimg_dir")
    case FloppyA => ("floppy", "floppy_a")
    case FloppyAWriteProtect => ("floppy", "floppy_a_write_protect")
    case FloppyB => ("floppy", "floppy_b")
    case FloppyBWriteProtect => ("floppy", "floppy_b_write_protect")
    case HddImage => ("hdd", "image")
    case RightAltIsAltgr => ("keyboard", "right_alt_is_altgr")
    case JoystickEmulation => ("joystick", "joystick_emulation")
    case JoystickUsbSupport => ("joystick", "joystick_usb_support")
  }

  /**
   * The MATCH chain of the handler: section and name compared
   * case-sensitively. It finds a key exactly when the pair is one of the
   * fourteen, and then the key whose pair it is.
   */
  function KeyOf(section: string, name: string): (r: Option<Key>)
    ensures r.Some? ==> Pair(r.value) == (section, name)
    ensures r.None? ==> forall k :: Pair(k) != (section, name)
  {
    if section == "main" && name == "mono" then Some(Mono)
    else if section == "main" && name == "extended_video_modes" then Some(ExtendedVideoModes)
    else if section == "main" && name == "mem_size" then Some(MemSize)
    else if section == "main" && name == "wakestate" then Some(Wakestate)
    else if section == "main" && name == "rom_file" then Some(RomFile)
    else if section == "floppy" && name == "flopimg_dir" then Some(FlopimgDir)
    else if section == "floppy" && name == "floppy_a" then Some(FloppyA)
    else if section == "floppy" && name == "floppy_a_write_protect" then Some(FloppyAWriteProtect)
    else if section == "floppy" && name == "floppy_b" then Some(FloppyB)
    else if section == "floppy" && name == "floppy_b_write_protect" then Some(FloppyBWriteProtect)
    else if section == "hdd" && name == "image" then Some(HddImage)
    else if section == "keyboard" && name == "right_alt_is_altgr" then Some(RightAltIsAltgr)
    else if section == "joystick" && name == "joystick_emulation" then Some(JoystickEmulation)
    else if section == "joystick" && name == "joystick_usb_support" then Some(JoystickUsbSupport)
    else None
  }

  /**
   * The keys whose value the handler interprets without first checking it
   * for emptiness; for those an empty value is passed on as NULL, which is
   * undefined behaviour.
   */
  predicate InterpretsNull(k: Key)
  {
    k == Mono || k == ExtendedVideoModes || k == MemSize || k == Wakestate || k == JoystickEmulation
  }

  /** The calls of the handler whose behaviour is defined. */
  predicate HandlerDefined(section: string, name: string, value: string)
  {
    value == "" ==> !(KeyOf(section, name).Some? && InterpretsNull(KeyOf(section, name).value))
  }

  /** A field's content, for stating which fields a call leaves alone. */
  datatype FieldValue = Number(n: int) | Text(s: Option<string>)

  function Get(c: Settings, k: Key): FieldValue
  {
    match k
    case Mono => Number(c.mono)
    case ExtendedVideoModes => Number(c.extendedVideoModes)
    case MemSize => Number(c.memSize)
    case Wakestate => Number(c.wakestate)
    case RomFile => Text(c.romFile)
    case FlopimgDir => Text(c.flopimgDir)
    case FloppyA => Text(c.floppyA)
    case FloppyAWriteProtect => Number(c.floppyAWriteProtect)
    case FloppyB => Text(c.floppyB)
    case FloppyBWriteProtect => Number(c.floppyBWriteProtect)
    case HddImage => Text(c.hddImage)
    case RightAltIsAltgr => Number(c.rightAltIsAltgr)
    case JoystickEmulation => Number(c.joystickEmulation)
    case JoystickUsbSupport => Number(c.joystickUsbSupport)
  }

  /**
   * The value the handler gives the field of key `k` for `value`: the
   * interpreted value, or the old one where an empty value or a wakestate
   * outside 1..4 keeps it.
   */
  function NewValue(c: Settings, k: Key, value: string): (v: FieldValue)
    requires value == "" ==> !InterpretsNull(k)
    ensures v.Number? == Get(c, k).Number?
  {
    match k
    case Mono => Number(TrueFalse(value))
    case ExtendedVideoModes => Number(TrueFalse(value))
    case MemSize => Number(MemorySize(value))
    case Wakestate =>
      var ws := Atoi(value);
      if ws < 1 || ws > 4 then Get(c, k) else Number(ws)
    case RomFile => if value == "" then Get(c, k) else Text(Some(value))
    case FlopimgDir => if value == "" then Get(c, k) else Text(Some(value))
    case FloppyA => if value == "" then Get(c, k) else Text(Some(value))
    case FloppyAWriteProtect => if value == "" then Get(c, k) else Number(TrueFalse(value))
    case FloppyB => if value == "" then Get(c, k) else Text(Some(value))
    case FloppyBWriteProtect => if value == "" then Get(c, k) else Number(TrueFalse(value))
    case HddImage => if value == "" then Get(c, k) else Text(Some(value))
    case RightAltIsAltgr => if value == "" then Get(c, k) else Number(TrueFalse(value))
    case JoystickEmulation => Number(KeyName(value))
    case JoystickUsbSupport => if value == "" then Get(c, k) else Number(TrueFalse(value))
  }

  /** The settings `c` with the field of key `k` set to `v`, a value of that field's kind. */
  function Assign(c: Settings, k: Key, v: FieldValue): (r: Settings)
    requires v.Number? == Get(c, k).Number?
    ensures Get(r, k) == v
    ensures forall other :: other != k ==> Get(r, other) == Get(c, other)
  {
    match k
    case Mono => c.(mono := v.n)
    case ExtendedVideoModes => c.(extendedVideoModes := v.n)
    case MemSize => c.(memSize := v.n)
    case Wakestate => c.(wakestate := v.n)
    case RomFile => c.(romFile := v.s)
    case FlopimgDir => c.(flopimgDir := v.s)
    case FloppyA => c.(floppyA := v.s)
    case FloppyAWriteProtect => c.(floppyAWriteProtect := v.n)
    case FloppyB => c.(floppyB := v.s)
    case FloppyBWriteProtect => c.(floppyBWriteProtect := v.n)
    case HddImage => c.(hddImage := v.s)
    case RightAltIsAltgr => c.(rightAltIsAltgr := v.n)
    case JoystickEmulation => c.(joystickEmulation := v.n)
    case JoystickUsbSupport => c.(joystickUsbSupport := v.n)
  }

  /** The handler's assignment for key `k`: only the field of `k` can change. */
  function Update(c: Settings, k: Key, value: string): (r: Settings)
    requires value == "" ==> !InterpretsNull(k)
    ensures forall other :: other != k ==> Get(r, other) == Get(c, other)
  {
    Assign(c, k, NewValue(c, k, value))
  }

  /** The outcome of one handler call: the new settings and the status returned. */
  datatype Handled = Handled(config: Settings, status: int)

  /** handler: 1 and the updated settings for a known key, 0 and no change otherwise. */
  function Handle(c: Settings, section: string, name: string, value: string): (r: Handled)
    requires HandlerDefined(section, name, value)
    ensures r.status == 0 || r.status == 1
    ensures r.status == 0 ==> r.config == c
  {
    match KeyOf(section, name)
    case None => Handled(c, 0)
    case Some(k) => Handled(Update(c, k, value), 1)
  }

  /** An unknown (section, name) pair is refused with 0 and changes nothing. */
  lemma HandleUnknownKey(c: Settings, section: string, name: string, value: string)
    requires KeyOf(section, name).None?
    ensures Handle(c, section, name, value) == Handled(c, 0)
  {
  }

  /** Distinct keys are named by distinct pairs. */
  lemma PairInjective(k1: Key, k2: Key)
    requires Pair(k1) == Pair(k2)
    ensures k1 == k2
  {
  }

  /**
   * Matching is exact and case-sensitive: a pair names key k exactly when it
   * is k's pair, character for character; so a known key spelt with other
   * case is unknown.
   */
  lemma KeyMatchIsCaseSensitive(section: string, name: string, k: Key, value: string)
    ensures KeyOf(section, name) == Some(k) <==> (section, name) == Pair(k)
    ensures KeyOf("MAIN", "mono").None? && KeyOf("main", "Mono").None?
    ensures Handle(Defaults(), "main", "Mono", value) == Handled(Defaults(), 0)
  {
    if (section, name) == Pair(k) {
      PairInjective(KeyOf(section, name).value, k);
    }
  }

  /**
   * A known key is accepted with 1 and changes at most the one field it
   * names; every other field keeps its value.
   */
  lemma HandleTouchesOneField(c: Settings, section: string, name: string, value: string)
    requires HandlerDefined(section, name, value) && KeyOf(section, name).Some?
    ensures Handle(c, section, name, value).status == 1
    ensures forall k :: k != KeyOf(section, name).value ==>
      Get(Handle(c, section, name, value).config, k) == Get(c, k)
  {
  }

  /** wakestate takes the value of atoi only when it lies in 1..4. */
  lemma HandleWakestate(c: Settings, value: string)
    requires value != ""
    ensures Handle(c, "main", "wakestate", value).config.wakestate ==
      if 1 <= Atoi(value) <= 4 then Atoi(value) else c.wakestate
  {
  }

  /** For the keys guarded by `if (value)`, an empty value changes nothing. */
  lemma HandleEmptyValue(c: Settings, section: string, name: string)
    requires KeyOf(section, name).Some? && !InterpretsNull(KeyOf(section, name).value)
    ensures Handle(c, section, name, "") == Handled(c, 1)
  {
  }

  /** The defaults config_load sets before reading the file; they are in range. */
  function Defaults(): (r: Settings)
    ensures ValidSettings(r)
  {
    Settings(
      mono := 0, extendedVideoModes := 0, memSize := CFG_1M, wakestate := 3,
      romFile := None, flopimgDir := None, floppyA := None, floppyAWriteProtect := 0,
      floppyB := None, floppyBWriteProtect := 0, hddImage := None, rightAltIsAltgr := 0,
      joystickEmulation := KEY_NUMLOCK, joystickUsbSupport := 0)
  }

  /**
   * The ranges the settings can take: flags 0 or 1, a memory size code,
   * a wake state in 1..4 and one of the two emulation keys.
   */
  /** A value truefalse can return. */
  predicate IsFlag(n: int)
  {
    n == 0 || n == 1
  }

  predicate ValidSettings(c: Settings)
  {
    && IsFlag(c.mono) && IsFlag(c.extendedVideoModes)
    && 0 <= c.memSize < |MEMORY_SIZES|
    && 1 <= c.wakestate <= 4
    && IsFlag(c.floppyAWriteProtect) && IsFlag(c.floppyBWriteProtect)
    && IsFlag(c.rightAltIsAltgr) && IsFlag(c.joystickUsbSupport)
    && (c.joystickEmulation == KEY_SYSRQ || c.joystickEmulation == KEY_NUMLOCK)
  }

  lemma UpdatePreservesValid(c: Settings, k: Key, value: string)
    requires value == "" ==> !InterpretsNull(k)
    requires ValidSettings(c)
    ensures ValidSettings(Update(c, k, value))
  {
    match k
    case Mono =>
    case ExtendedVideoModes =>
    case MemSize =>
    case Wakestate =>
    case RomFile =>
    case FlopimgDir =>
    case FloppyA =>
    case FloppyAWriteProtect =>
    case FloppyB =>
    case FloppyBWriteProtect =>
    case HddImage =>
    case RightAltIsAltgr =>
    case JoystickEmulation =>
    case JoystickUsbSupport =>
  }

  /** The handler keeps settings in range. */
  lemma HandlePreservesValid(c: Settings, section: string, name: string, value: string)
    requires HandlerDefined(section, name, value) && ValidSettings(c)
    ensures ValidSettings(Handle(c, section, name, value).config)
  {
    if KeyOf(section, name).Some? {
      UpdatePreservesValid(c, KeyOf(section, name).value, value);
    }
  }

  /** One `name = value` line of the file, under its section. */
  datatype Entry = Entry(section: string, name: string, value: string)

  predicate EntriesDefined(es: seq<Entry>)
  {
    forall i :: 0 <= i < |es| ==> HandlerDefined(es[i].section, es[i].name, es[i].value)
  }

  /** The settings after the handler has seen the entries in file order. */
  function HandleAll(c: Settings, es: seq<Entry>): (r: Settings)
    requires EntriesDefined(es)
    ensures forall k :: (forall i :: 0 <= i < |es| ==> KeyOf(es[i].section, es[i].name) != Some(k)) ==>
      Get(r, k) == Get(c, k)
    decreases |es|
  {
    if es == [] then c
    else
      var last := es[|es| - 1];
      Handle(HandleAll(c, es[..|es| - 1]), last.section, last.name, last.value).config
  }

  /** One more entry is one more call of the handler. */
  lemma HandleAllPrefix(c: Settings, es: seq<Entry>, i: nat)
    requires EntriesDefined(es) && i < |es|
    ensures EntriesDefined(es[..i]) && EntriesDefined(es[..i + 1])
    ensures HandleAll(c, es[..i + 1]) == Handle(HandleAll(c, es[..i]), es[i].section, es[i].name, es[i].value).config
  {
    assert es[..i + 1][..i] == es[..i];
  }

  /** Whatever the file holds, the loaded settings are in range. */
  lemma {:induction false} LoadedSettingsValid(es: seq<Entry>)
    requires EntriesDefined(es)
    ensures ValidSettings(HandleAll(Defaults(), es))
  {
    if es == [] {
    } else {
      var last := es[|es| - 1];
      LoadedSettingsValid(es[..|es| - 1]);
      HandlePreservesValid(HandleAll(Defaults(), es[..|es| - 1]), last.section, last.name, last.value);
    }
  }

  // ---------------------------------------------------------------------------
  // The configuration record, updated in place
  // ---------------------------------------------------------------------------

  /** ZestConfig: the record handler and config_load assign field by field. */
  class ZestConfig {
    var mono: int
    var extendedVideoModes: int
    var memSize: int
    var wakestate: int
    var romFile: Option<string>
    var flopimgDir: Option<string>
    var floppyA: Option<string>
    var floppyAWriteProtect: int
    var floppyB: Option<string>
    var floppyBWriteProtect: int
    var hddImage: Option<string>
    var rightAltIsAltgr: int
    var joystickEmulation: int
    var joystickUsbSupport: int

    /** The current content of the record. */
    function Current(): Settings
      reads this
    {
      Settings(mono, extendedVideoModes, memSize, wakestate, romFile, flopimgDir,
        floppyA, floppyAWriteProtect, floppyB, floppyBWriteProtect, hddImage,
        rightAltIsAltgr, joystickEmulation, joystickUsbSupport)
    }

    /** A record in static storage: every number 0 and every string NULL. */
    constructor ()
      ensures Current() == Settings(0, 0, 0, 0, None, None, None, 0, None, 0, None, 0, 0, 0)
    {
      mono, extendedVideoModes, memSize, wakestate := 0, 0, 0, 0;
      romFile, flopimgDir, floppyA, floppyAWriteProtect := None, None, None, 0;
      floppyB, floppyBWriteProtect, hddImage := None, 0, None;
      rightAltIsAltgr, joystickEmulation, joystickUsbSupport := 0, 0, 0;
    }

    /**
     * handler: find the key the (section, name) pair names, then assign
     * that one field of the record; 0 for a pair that names no key.
     */
    method Handler(section: string, name: string, value: string) returns (status: int)
      requires HandlerDefined(section, name, value)
      modifies this
      ensures Current() == Handle(old(Current()), section, name, value).config
      ensures status == Handle(old(Current()), section, name, value).status
    {
      var key := KeyOf(section, name);
      if key.None? {
        return 0;
      }
      var present := value != "";
      match key.value {
        case Mono =>
          mono := TrueFalse(value);
        case ExtendedVideoModes =>
          extendedVideoModes := TrueFalse(value);
        case MemSize =>
          memSize := MemorySize(value);
        case Wakestate =>
          var ws := Atoi(value);
          if !(ws < 1 || ws > 4) {
            wakestate := ws;
          }
        case RomFile =>
          if present { romFile := Some(value); }
        case FlopimgDir =>
          if present { flopimgDir := Some(value); }
        case FloppyA =>
          if present { floppyA := Some(value); }
        case FloppyAWriteProtect =>
          if present { floppyAWriteProtect := TrueFalse(value); }
        case FloppyB =>
          if present { floppyB := Some(value); }
        case FloppyBWriteProtect =>
          if present { floppyBWriteProtect := TrueFalse(value); }
        case HddImage =>
          if present { hddImage := Some(value); }
        case RightAltIsAltgr =>
          if present { rightAltIsAltgr := TrueFalse(value); }
        case JoystickEmulation =>
          joystickEmulation := KeyName(value);
        case JoystickUsbSupport =>
          if present { joystickUsbSupport := TrueFalse(value); }
      }
      status := 1;
    }

    /**
     * config_load: set the defaults, then let the INI reader hand every
     * entry of the file to the handler. `parsed` is what the reader
     * delivers: None when the file cannot be read, in which case the
     * defaults remain.
     */
    method Load(parsed: Option<seq<Entry>>)
      requires parsed.Some? ==> EntriesDefined(parsed.value)
      modifies this
      ensures parsed.None? ==> Current() == Defaults()
      ensures parsed.Some? ==> Current() == HandleAll(Defaults(), parsed.value)
      ensures ValidSettings(Current())
    {
      mono := 0;
      extendedVideoModes := 0;
      memSize := CFG_1M;
      wakestate := 3;
      romFile := None;
      flopimgDir := None;
      floppyA := None;
      floppyAWriteProtect := 0;
      floppyB := None;
      floppyBWriteProtect := 0;
      hddImage := None;
      rightAltIsAltgr := 0;
      joystickEmulation := KEY_NUMLOCK;
      joystickUsbSupport := 0;

      if parsed.Some? {
        var es := parsed.value;
        var i := 0;
        while i < |es|
          invariant 0 <= i <= |es|
          invariant Current() == HandleAll(Defaults(), es[..i])
        {
          HandleAllPrefix(Defaults(), es, i);
          var _ := Handler(es[i].section, es[i].name, es[i].value);
          i := i + 1;
        }
        assert es[..|es|] == es;
        LoadedSettingsValid(es);
      }
    }
  }
}
