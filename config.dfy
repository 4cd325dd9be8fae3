/** The thermostat's settings and their text form: the five-line file that
    `defaultSettings` writes and the positional `fscanf` reads that load it.
    Temperatures are held as integers in hundredths of a degree Fahrenheit. */
module Config {

  datatype Option<T> = None | Some(value: T)

  // `enum hvac` and `enum fan`; the variables holding them are plain ints,
  // so any other integer can be loaded and is kept as it is.
  const ModeAC: int := 0
  const ModeHeat: int := 1
  const ModeOff: int := 2
  const FanOn: int := 0
  const FanAuto: int := 1

  datatype Settings = Settings(hvacMode: int, fanMode: int, heatTemp: int, coolTemp: int, offsetVal: int)

  /** The initialisers of the settings variables in `main`. */
  const Initial: Settings := Settings(ModeAC, FanOn, 0, 0, 0)

  /** What the default file says. */
  const DefaultFile: Settings := Settings(ModeOff, FanAuto, 7400, 7000, 0)

  /** The text `defaultSettings` writes into a fresh config file. */
  function DefaultSettingsText(): string
  {
    "hvacMode = 2\n" + "fanMode = 1\n" + "heatTemp = 74.00\n" + "coolTemp = 70.00\n" + "offsetVal = 0.0\n"
  }

  // ---------------------------------------------------------------------------
  // Scanning, as the `fscanf` directives used by the loader do it
  // ---------------------------------------------------------------------------

  /** The characters C's `isspace` accepts. */
  predicate IsSpace(c: char)
  {
    c == ' ' || c == '\t' || c == '\n' || c == '\r' || c == '\U{000B}' || c == '\U{000C}'
  }

  predicate AllSpace(s: string)
  {
    forall i :: 0 <= i < |s| ==> IsSpace(s[i])
  }

  predicate NoSpace(s: string)
  {
    forall i :: 0 <= i < |s| ==> !IsSpace(s[i])
  }

  /** The outcome of one conversion: the value and the unread input, or a
      failure together with the input left after what it consumed. */
  datatype Scan<T> = Got(value: T, rest: string) | Stop(rest: string)

  /** White space skipped: what remains is a suffix of `s` that is empty or
      starts with a non-space, and everything skipped was white space. */
  function SkipSpace(s: string): (r: string)
    ensures |r| <= |s| && r == s[|s| - |r|..]
    ensures AllSpace(s[..|s| - |r|])
    ensures r == [] || !IsSpace(r[0])
  {
    if s != [] && IsSpace(s[0]) then SkipSpace(s[1..]) else s
  }

  /** Length of the longest prefix of `s` without white space. */
  function WordLength(s: string): (n: nat)
    ensures n <= |s| && NoSpace(s[..n])
    ensures n == |s| || IsSpace(s[n])
  {
    if s == [] || IsSpace(s[0]) then 0 else 1 + WordLength(s[1..])
  }

  /** `%s`: skip white space, then read the longest non-empty run of non-space
      characters. It fails only when nothing but white space is left. */
  function ScanWord(s: string): (r: Scan<string>)
    ensures r.Got? <==> !AllSpace(s)
    ensures r.Got? ==> SkipSpace(s) == r.value + r.rest
    ensures r.Got? ==> r.value != [] && NoSpace(r.value) && (r.rest == [] || IsSpace(r.rest[0]))
    ensures r.Stop? ==> r.rest == []
  {
    var t := SkipSpace(s);
    var n := WordLength(t);
    if n == 0 then Stop(t)
    else
      assert t[..n] + t[n..] == t;
      Got(t[..n], t[n..])
  }

  /** ` %c`: skip white space, then read one character. It fails only when
      nothing but white space is left. */
  function ScanChar(s: string): (r: Scan<char>)
    ensures r.Got? <==> !AllSpace(s)
    ensures r.Got? ==> SkipSpace(s) == [r.value] + r.rest && !IsSpace(r.value)
    ensures r.Stop? ==> r.rest == []
  {
    var t := SkipSpace(s);
    if t == [] then Stop(t)
    else
      assert [t[0]] + t[1..] == t;
      Got(t[0], t[1..])
  }

  /** The value of a digit character in the bases up to 16, and 16 for a
      character that is no such digit. */
  function DigitValue(c: char): (d: nat)
    ensures d < 10 <==> '0' <= c <= '9'
    ensures d <= 16
  {
    if '0' <= c <= '9' then c as int - '0' as int
    else if 'a' <= c <= 'f' then c as int - 'a' as int + 10
    else if 'A' <= c <= 'F' then c as int - 'A' as int + 10
    else 16
  }

  predicate AllDigits(s: string, base: nat)
  {
    forall i :: 0 <= i < |s| ==> DigitValue(s[i]) < base
  }

  /** `s` split after its longest prefix of digits of base `base`. */
  function SplitDigits(s: string, base: nat): (r: (string, string))
    ensures r.0 + r.1 == s && AllDigits(r.0, base)
    ensures r.1 == [] || DigitValue(r.1[0]) >= base
  {
    if s == [] || DigitValue(s[0]) >= base then ([], s)
    else
      var (d, rest) := SplitDigits(s[1..], base);
      assert [s[0]] + d + rest == [s[0]] + s[1..] == s;
      ([s[0]] + d, rest)
  }

  /** The number the digit string `d` denotes in base `base`. */
  function DigitsValue(d: string, base: nat): nat
  {
    if d == [] then 0 else DigitsValue(d[..|d| - 1], base) * base + DigitValue(d[|d| - 1])
  }

  function Signed(negative: bool, magnitude: nat): int
  {
    if negative then -(magnitude as int) else magnitude
  }

  /** An optional leading sign: whether it is a minus, and what follows it. */
  function SplitSign(t: string): (bool, string)
  {
    if t != [] && (t[0] == '-' || t[0] == '+') then (t[0] == '-', t[1..]) else (false, t)
  }

  /** The digits of an integer conversion, after the sign, read as C's
      prefix rule says: `0x` or `0X` hexadecimal, a leading `0` octal,
      otherwise decimal. As in glibc's scanner, a `0x` is consumed even when
      no hexadecimal digit follows it, and then reads as 0. It fails when no
      digit comes first. */
  function ScanMagnitude(u: string): Scan<nat>
  {
    if |u| >= 2 && u[0] == '0' && (u[1] == 'x' || u[1] == 'X') then
      var hex := SplitDigits(u[2..], 16);
      Got(DigitsValue(hex.0, 16), hex.1)
    else if u != [] && u[0] == '0' then
      var octal := SplitDigits(u, 8);
      Got(DigitsValue(octal.0, 8), octal.1)
    else
      var decimal := SplitDigits(u, 10);
      if decimal.0 == [] then Stop(u) else Got(DigitsValue(decimal.0, 10), decimal.1)
  }

  /** ` %i`: skip white space, an optional sign, then the digits. */
  function ScanInt(s: string): Scan<int>
  {
    var (negative, u) := SplitSign(SkipSpace(s));
    match ScanMagnitude(u)
    case Got(m, rest) => Got(Signed(negative, m), rest)
    case Stop(rest) => Stop(rest)
  }

  /** The hundredths that the fraction digits `f` stand for; later digits are dropped. */
  function Hundredths(f: string): (h: nat)
    requires AllDigits(f, 10)
    ensures h < 100
    ensures h == DigitsValue((f + "00")[..2], 10)
  {
    var d := (f + "00")[..2];
    assert d[..1][..0] == [] && d[..1] == [d[0]];
    assert d[0] == (if |f| >= 1 then f[0] else '0');
    assert d[1] == (if |f| >= 2 then f[1] else '0');
    assert DigitsValue(d[..1], 10) == DigitValue(d[0]);
    assert DigitsValue(d, 10) == DigitValue(d[0]) * 10 + DigitValue(d[1]);
    (if |f| >= 1 then DigitValue(f[0]) * 10 else 0) + (if |f| >= 2 then DigitValue(f[1]) else 0)
  }

  /** The digits of a `%f` conversion after the sign, in hundredths: digits,
      and optionally a point and more digits. It fails unless a digit comes
      before or right after the point. */
  function ScanFixedMagnitude(u: string): Scan<nat>
  {
    var whole := SplitDigits(u, 10);
    if whole.1 != [] && whole.1[0] == '.' then ScanFraction(whole.0, whole.1[1..])
    else if whole.0 == [] then Stop(u)
    else Got(DigitsValue(whole.0, 10) * 100, whole.1)
  }

  /** The part of `%f` after the point, given the whole digits before it. */
  function ScanFraction(whole: string, afterPoint: string): Scan<nat>
  {
    var frac := SplitDigits(afterPoint, 10);
    if whole == [] && frac.0 == [] then Stop(afterPoint)
    else Got(DigitsValue(whole, 10) * 100 + Hundredths(frac.0), frac.1)
  }

  /** ` %f`, in hundredths: skip white space, an optional sign, then the digits. */
  function ScanFixed(s: string): Scan<int>
  {
    var (negative, u) := SplitSign(SkipSpace(s));
    match ScanFixedMagnitude(u)
    case Got(m, rest) => Got(Signed(negative, m), rest)
    case Stop(rest) => Stop(rest)
  }

  datatype Conversion = Integer | Fixed

  function Convert(s: string, conv: Conversion): Scan<int>
  {
    match conv
    case Integer => ScanInt(s)
    case Fixed => ScanFixed(s)
  }

  /** One `fscanf(config, "%s %c <conv>", line, &equal, &field)` call: the key
      word and the separator character are read and thrown away. */
  function ScanEntry(s: string, conv: Conversion): (r: Scan<int>)
    ensures AllSpace(s) ==> r.Stop?
  {
    match ScanWord(s)
    case Stop(rest) => Stop(rest)
    case Got(_, afterKey) =>
      match ScanChar(afterKey)
      case Stop(rest) => Stop(rest)
      case Got(_, afterSep) => Convert(afterSep, conv)
  }

  /** A field the conversion did not assign keeps its value. */
  function Assigned(r: Scan<int>, keep: int): int
  {
    if r.Got? then r.value else keep
  }

  /** The five positional reads of the loader, into variables that already
      hold `init`. Each read starts where the previous one stopped. */
  function ReadConfig(text: string, init: Settings): Settings
  {
    var mode := ScanEntry(text, Integer);
    var fan := ScanEntry(mode.rest, Integer);
    var heat := ScanEntry(fan.rest, Fixed);
    var cool := ScanEntry(heat.rest, Fixed);
    var offset := ScanEntry(cool.rest, Fixed);
    Settings(Assigned(mode, init.hvacMode), Assigned(fan, init.fanMode), Assigned(heat, init.heatTemp),
             Assigned(cool, init.coolTemp), Assigned(offset, init.offsetVal))
  }

  /** The settings in effect once start-up is over: the file read over the
      initialisers when it exists, the initialisers otherwise. */
  function StartupSettings(config: Option<string>): Settings
  {
    match config
    case Some(text) => ReadConfig(text, Initial)
    case None => Initial
  }

  /** The config file start-up creates: the default text when there was none. */
  function StartupFileWrite(config: Option<string>): Option<string>
  {
    if config.None? then Some(DefaultSettingsText()) else None
  }

  // ---------------------------------------------------------------------------
  // Writing settings in the same layout
  // ---------------------------------------------------------------------------

  function DigitChar(d: nat): (c: char)
    requires d < 10
    ensures DigitValue(c) == d
  {
    ('0' as int + d) as char
  }

  /** Decimal digits of `n`, without leading zeros. */
  function NatText(n: nat): (t: string)
    ensures t != [] && AllDigits(t, 10)
    ensures DigitsValue(t, 10) == n
    ensures n > 0 ==> t[0] != '0'
  {
    if n < 10 then [DigitChar(n)]
    else
      var t := NatText(n / 10) + [DigitChar(n % 10)];
      assert t[..|t| - 1] == NatText(n / 10);
      t
  }

  /** `%i`-style text of an integer. */
  function IntText(n: int): string
  {
    if n < 0 then "-" + NatText(-n) else NatText(n)
  }

  function Abs(h: int): nat
  {
    if h < 0 then -h else h
  }

  /** The minus sign written in front of a negative value. */
  function SignText(negative: bool): string
  {
    if negative then "-" else ""
  }

  /** The two decimals of a magnitude in hundredths. */
  function CentsText(a: nat): (t: string)
    ensures |t| == 2 && AllDigits(t, 10)
  {
    var cents := a % 100;
    [DigitChar(cents / 10), DigitChar(cents % 10)]
  }

  /** `%.2f`-style text of a value in hundredths. */
  function FixedText(h: int): string
  {
    SignText(h < 0) + NatText(Abs(h) / 100) + "." + CentsText(Abs(h))
  }

  /** One `key = value` line. */
  function Line(key: string, value: string): string
  {
    key + " = " + value + "\n"
  }

  /** The settings written in the layout of the default file, temperatures with two decimals. */
  function Render(s: Settings): string
  {
    Line("hvacMode", IntText(s.hvacMode)) + (Line("fanMode", IntText(s.fanMode)) +
    (Line("heatTemp", FixedText(s.heatTemp)) + (Line("coolTemp", FixedText(s.coolTemp)) +
    Line("offsetVal", FixedText(s.offsetVal)))))
  }
}
