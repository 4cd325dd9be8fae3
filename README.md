# RPI-Thermostat control loop in Dafny

A model of the single-zone thermostat in `main.c`. The program:

- loads five settings (mode, fan mode, heat and cool set points and a calibration offset) from `config.ini`, or writes a default file when there is none;
- resets its three GPIO outputs (blower, compressor, heater);
- loops forever. Each pass polls the temperature sensor at most every 3 s. Once the process has used 300 s of processor time, a pass runs a fan switch and then a mode switch, which drive the outputs.

Three modules and one class make up the model:

- `Config` (`config.dfy`): the settings and their text form. `DefaultSettingsText` is the block `defaultSettings` writes. `ReadConfig` is the five positional `fscanf` calls: one conversion per call. `%s` reads the key, ` %c` the separator, and ` %i` or ` %f` the value. `%i` follows C's `0x`/`0` prefix rule as glibc's scanner applies it, and `%f` is read to hundredths. A conversion that fails leaves its variable as it was. `Render` writes settings in the same layout; it is the inverse the round-trip lemma is stated against.
- `Control` (`control.dfy`): one loop pass as the function `Next` over the state the loop carries (`ControlState`), and `Run` over a sequence of passes.
- `Hvac` (`thermostat.dfy`): the class `Thermostat`. Its fields are the three outputs, `hvacOn`, `hvacReady`, `lastReset` and the last reading. The pin helpers, the sensor poll, the fan switch and the mode switch are methods on it, and so is `Tick`, one pass proved equal to `Next`. `Loop` runs a finite prefix of the infinite loop. `Startup` loads the settings, writes the default file when needed and performs the reset.
- `ConfigLemmas` and `ControlLemmas` hold the properties.

Temperatures are integers in hundredths of a degree Fahrenheit. Mode and fan mode are plain integers, as in the source: AC = 0, HEAT = 1, OFF = 2, fan ON = 0, fan AUTO = 1. Any other value can be loaded, and then it switches nothing.

Behaviour of the code as written, which the model follows:

- In HEAT mode the heater goes on when the calibrated temperature is ABOVE `heatTemp` and off when it is below. That is the opposite of the usual heating direction. AC mode uses the same direction against `coolTemp`.
- The fan switch runs before the mode switch. So in AUTO the blower copies the demand flag as the previous pass left it, one pass late (`AutoBlowerLagsDemand`).
- The config read is not all-or-nothing. Each of the five `fscanf` calls assigns its own variable or leaves it. A short or blank file keeps the later variables at their previous values.
- With no config file, the variables keep their initialisers (AC, fan ON, 0.0, 0.0, 0.0). The file written says OFF, AUTO, 74.00, 70.00, 0.0, and that is what the next start-up loads.
- The warm-up test is `clock()/CLOCKS_PER_SEC >= 300` on every pass. The ready latch is never consulted. Where `clock_t` is 32 bits wide, `clock()` wraps after 2^31 µs of processor time, and the test fails again: the outputs freeze (`ControlPausesWhenClockWraps`).

## Model

| member | source | states |
|---|---|---|
| Config.SkipSpace | main.c:113-117 | white space before a conversion is skipped: the result is a suffix of the input, everything dropped is white space, and what is left is empty or starts with a non-space |
| Config.WordLength | main.c:113 | the length of the longest prefix without white space |
| Config.ScanWord | main.c:113 | `%s` succeeds exactly when something other than white space is left; the word and the unread rest together are the input after its leading white space, the word is non-empty and without white space, and it ends at white space or at the end of the input; on failure nothing is left |
| Config.ScanChar | main.c:113 | ` %c` succeeds exactly when something other than white space is left; it reads the first character after the white space and leaves everything after it; on failure nothing is left |
| Config.SplitDigits | main.c:113-117 | splits off the longest run of digits of a base: the two parts make up the input, and what follows the run is no digit |
| Config.Hundredths | main.c:115-117 | `%f`'s fraction digits kept to hundredths: the value of the first two digits, missing ones read as 0, so below 100 |
| Config.ScanEntry | main.c:113 | a `%s %c <conv>` call on text that is only white space fails |
| Config.DefaultSettingsText | main.c:70-77 | the five lines `defaultSettings` writes; `DefaultTextShape` states their order and form, `DefaultTextLoads` what they load as |
| Config.ScanMagnitude | main.c:113-114 | the digits of ` %i` after the sign, by C's prefix rule; `MagnitudeNeedsDigit` states when it fails, `OctalIntOf`, `OctalStopsAtEight`, `HexIntOf` and `BareHexPrefix` the octal and hexadecimal readings |
| Config.ScanInt | main.c:113-114 | ` %i`; `ScanIntNeedsDigit` states when it fails, `ScanIntOfText` that it reads back every decimal integer |
| Config.ScanFixedMagnitude | main.c:115-117 | the digits of ` %f` after the sign, in hundredths; `FixedMagnitudeNeedsDigit` states when it fails, `ScanFixedOfText`, `ScanFixedOfWhole` and `ScanFixedOfPoint` the value of each of its three forms |
| Config.ScanFraction | main.c:115-117 | the part of ` %f` after the point; `ScanFixedOfText` states the value read with whole digits before the point, `ScanFixedOfPoint` without them |
| Config.ScanFixed | main.c:115-117 | ` %f`; `ScanFixedNeedsDigit` states when it fails, `ScanFixedOfText`, `ScanFixedOfWhole`, `ScanFixedOfPoint` and `ScanFixedOfFixedText` the values read |
| Config.ReadConfig | main.c:113-117 | the five positional reads; `ReadConfigRoundTrip`, `DefaultTextLoads`, `BlankConfigKeepsInit` and `ShortConfigKeepsLaterFields` state what they load |
| Config.StartupSettings | main.c:105-169 | the settings in effect after start-up; `MissingConfigKeepsInitialisers` states the case without a file |
| Config.StartupFileWrite | main.c:162-169 | the file start-up creates; `MissingConfigKeepsInitialisers` states it is the default text, written only when there was no file |
| Config.Render | main.c:70-77 | has no counterpart in main.c, which writes settings only through `defaultSettings`; it writes any settings in that layout, with two decimals, and is the inverse `ReadConfigRoundTrip` is stated against |
| ConfigLemmas.EntryIgnoresKey | main.c:113-117 | the key word, any white space after it and the separator character are consumed and play no part: the value conversion alone decides the result |
| ConfigLemmas.EntryOfLine | main.c:113-117 | on a `key = value` line the conversion sees ` value` and the rest of the text |
| ConfigLemmas.MagnitudeNeedsDigit | main.c:113-114 | the integer digits are read exactly when a decimal digit comes first |
| ConfigLemmas.ScanIntNeedsDigit | main.c:113-114 | ` %i` fails exactly when no decimal digit follows the white space and the optional sign |
| ConfigLemmas.FixedMagnitudeNeedsDigit | main.c:115-117 | the `%f` digits are read exactly when a digit comes first, or a point and then a digit |
| ConfigLemmas.ScanFixedNeedsDigit | main.c:115-117 | ` %f` fails exactly when neither a digit nor a point followed by a digit follows the white space and the optional sign |
| ConfigLemmas.OctalIntOf | main.c:113-114 | a leading `0` makes ` %i` read octal: a `0` and any octal digits read as the digits' value, and the first character that is no octal digit is left for the next call |
| ConfigLemmas.OctalIntText | main.c:113-114 | ` %i` reads `010` as 8 |
| ConfigLemmas.OctalStopsAtEight | main.c:113-114 | ` %i` reads `08` as 0 and leaves the `8` unread, so the next call starts at it |
| ConfigLemmas.HexIntOf | main.c:113-114 | ` %i` reads `0x` and hexadecimal digits as their value, for any digits, and consumes them all |
| ConfigLemmas.BareHexPrefix | main.c:113-114 | ` %i` consumes a `0x` with no hexadecimal digit after it, `x` included, and stores 0, so the next call starts after the `x` |
| ConfigLemmas.ScanIntOfText | main.c:113-114 | ` %i` reads back every integer written in decimal |
| ConfigLemmas.ScanFixedOfText | main.c:115-117 | ` %f` reads an optional minus, whole digits, a point and fraction digits as the signed value, truncated to hundredths |
| ConfigLemmas.ScanFixedOfWhole | main.c:115-117 | ` %f` reads an optional minus and whole digits without a point, such as `74`, as that many whole units (7400 hundredths) |
| ConfigLemmas.ScanFixedOfPoint | main.c:115-117 | ` %f` reads an optional minus, a point and fraction digits with no whole digits, such as `.5`, as the signed hundredths of the fraction |
| ConfigLemmas.ScanFixedOfFixedText | main.c:115-117 | ` %f` reads back every value in hundredths written with two decimals |
| ConfigLemmas.IntEntry | main.c:113-114 | one `%s %c %i` call reads back a `key = <int>` line and stops at its newline |
| ConfigLemmas.FixedEntry | main.c:115-117 | one `%s %c %f` call reads back a `key = <fixed>` line and stops at its newline |
| ConfigLemmas.ReadConfigRoundTrip | main.c:113-117 | loading the text `Render` writes gives back exactly the settings written, whatever the variables held before |
| ConfigLemmas.DefaultTextShape | main.c:70-77 | the default text is five `key = value` lines in the order hvacMode 2, fanMode 1, heatTemp 74.00, coolTemp 70.00, offsetVal 0.0 |
| ConfigLemmas.ScanZeroPointZero | main.c:76 | ` %f` reads the offset's `0.0` as zero |
| ConfigLemmas.OffsetEntry | main.c:117 | the default file's last line loads the offset as zero |
| ConfigLemmas.DefaultTextLoads | main.c:70-77 | loading the default text assigns all five variables: mode OFF, fan AUTO, 74.00, 70.00 and 0.0 |
| ConfigLemmas.MissingConfigKeepsInitialisers | main.c:89-169 | with no config file the settings stay at the initialisers, the file written is the default text, it loads as OFF/AUTO/74.00/70.00/0.0, and the two settings differ |
| ConfigLemmas.BlankEntry | main.c:113-117 | a call that meets only white space fails and consumes it all |
| ConfigLemmas.BlankConfigKeepsInit | main.c:113-117 | a file of white space only assigns no variable |
| ConfigLemmas.ShortConfigKeepsLaterFields | main.c:113-117 | a file with only the mode and fan lines sets those two and keeps the three temperatures as they were |
| Hvac.Thermostat.BlowerOn | main.c:28-32 | the blower output is high afterwards, and only it may change |
| Hvac.Thermostat.BlowerOff | main.c:35-39 | the blower output is low afterwards, and only it may change |
| Hvac.Thermostat.ACOn | main.c:42-46 | the compressor output is high afterwards, and only it may change |
| Hvac.Thermostat.ACOff | main.c:49-53 | the compressor output is low afterwards, and only it may change |
| Hvac.Thermostat.HeatOn | main.c:56-60 | the heater output is high afterwards, and only it may change |
| Hvac.Thermostat.HeatOff | main.c:63-67 | the heater output is low afterwards, and only it may change |
| Hvac.Thermostat.constructor | main.c:187-200 | after the reset all three outputs are low, there is no demand, the thermostat is not ready, the poll timer starts at the given time, and the state is mode-consistent |
| Hvac.Thermostat.PollSensor | main.c:209-213 | the new state is `Poll` of the old one: after at least 3 s the timer restarts and the reading is taken, otherwise nothing changes |
| Hvac.Thermostat.FanSwitch | main.c:225-245 | the new state is `FanRule` of the old one for the loaded fan mode |
| Hvac.Thermostat.ModeSwitch | main.c:247-291 | the new state is `ModeRule` of the old one for the loaded settings |
| Hvac.Thermostat.Tick | main.c:203-292 | one pass takes the state to `Next` of the old state and keeps it mode-consistent |
| Hvac.Thermostat.Loop | main.c:203-293 | any finite run of passes takes the state to `Run` of the old state, keeps it mode-consistent, and never ends with heater and compressor both on |
| Hvac.Startup | main.c:105-200 | the settings in effect are `StartupSettings` of the config file, the default text is written exactly when there was no file, and the thermostat is in its reset state |
| Control.Poll | main.c:209-213 | the sensor poll; `PollTouchesOnlyTimer` states what it changes |
| Control.WarmedUp | main.c:216 | the warm-up test; `WarmUpThreshold` states its threshold |
| Control.FanRule | main.c:225-245 | the fan switch; `FanRuleOnReadyPass` states its effect on a warmed-up pass |
| Control.ModeRule | main.c:247-291 | the mode switch; `HeatModePass`, `AcModePass`, `OffModePass` and `UnknownModePass` state its effect per mode |
| Control.Next | main.c:203-292 | one pass; `NextPolls`, `NoActuationBeforeWarmUp`, `ReadyLatches` and `NextKeepsModeConsistent` state what it keeps and changes |
| Control.Run | main.c:203-293 | a run of passes; `RunKeepsModeConsistent`, `HeatAndAcNeverBothOn`, `ReadyIffSomePassWarmedUp` and `QuietUntilWarmedUp` state what holds over it |
| ControlLemmas.WarmUpThreshold | main.c:216 | the truncating warm-up test passes exactly when `clock()` is at least 300 × 10^6 |
| ControlLemmas.PollTouchesOnlyTimer | main.c:209-213 | the poll never touches the outputs, the demand flag or the latch; after at least 3 s it restarts the timer at the current second with the new reading, and otherwise it changes nothing |
| ControlLemmas.NextPolls | main.c:206-213 | every pass polls, whether or not it is warmed up |
| ControlLemmas.NoActuationBeforeWarmUp | main.c:216-292 | before warm-up a pass changes no output, no demand and no readiness |
| ControlLemmas.ReadyLatches | main.c:216-222 | after a pass the thermostat is ready exactly when it was before or the pass is warmed up |
| ControlLemmas.FanRuleOnReadyPass | main.c:225-245 | on a warmed-up pass, fan ON turns the blower on, AUTO sets it to the demand flag from before the pass, and any other value leaves it |
| ControlLemmas.HeatModePass | main.c:249-264 | HEAT on a warmed-up pass: above `heatTemp` heater and demand on, below it both off, at it both unchanged; the compressor is untouched |
| ControlLemmas.AcModePass | main.c:266-281 | AC on a warmed-up pass: above `coolTemp` compressor and demand on, below it both off, at it both unchanged; the heater is untouched |
| ControlLemmas.OffModePass | main.c:283-290 | OFF on a warmed-up pass: heater, compressor and demand off whatever the temperature |
| ControlLemmas.UnknownModePass | main.c:247-291 | a mode value that is none of the three leaves heater, compressor and demand as they were |
| ControlLemmas.NextKeepsModeConsistent | main.c:247-291 | a pass keeps the heater off unless the mode is HEAT and the compressor off unless it is AC |
| ControlLemmas.RunKeepsModeConsistent | main.c:203-293 | any run of passes keeps that consistency |
| ControlLemmas.HeatAndAcNeverBothOn | main.c:187-293 | from the reset state, with the mode fixed, heater and compressor are never on together after any run |
| ControlLemmas.SomePassWarmedUpSplit | main.c:216 | some pass of a run is warmed up exactly when one before the last is or the last is |
| ControlLemmas.ReadyIffSomePassWarmedUp | main.c:216-222 | after a run the thermostat is ready exactly when it was before or some pass was warmed up: readiness never clears |
| ControlLemmas.QuietUntilWarmedUp | main.c:187-292 | from the reset state, while no pass is warmed up, all outputs stay off, there is no demand and the thermostat is not ready |
| ControlLemmas.AutoBlowerLagsDemand | main.c:225-264 | in HEAT/AUTO above the set point, the first warmed-up pass turns the heater on with the blower still off, and the next pass turns the blower on |
| ControlLemmas.Clock32 | main.c:216 | `clock()` held in 32 bits: the value in the signed 32-bit range that equals the microsecond count modulo 2^32, so exact below 2^31 |
| ControlLemmas.WrappedWarmUp | main.c:216 | with a 32-bit `clock()`, the warm-up test passes exactly when the microsecond count modulo 2^32 lies from 300 s up to 2^31 |
| ControlLemmas.ControlPausesWhenClockWraps | main.c:216 | with a 32-bit `clock()`, at any count whose value modulo 2^32 is 2^31 or more the warm-up test fails, and a ready thermostat's outputs and demand stay as they were |

## Left out

- The DHT22 driver (`read_dht22_dat`) and `CtoF` are not part of this model. A pass takes the converted temperature a read would deliver as the input `sensed`. A failed read is the caller passing the previous value. Humidity is not modelled.
- The wall clock and `clock()` are inputs of each pass (`now`, `clock`). The second `clock_gettime` on a poll is taken to return the same second as the first.
- The temperature variable starts uninitialised. The model takes its value as the `indeterminate` parameter of the reset.
- `fopen`, `fclose` and `printf` are not modelled. The config file is an `Option<string>`, and the file written is returned as an `Option<string>`. Nothing printed is modelled.
- wiringPi setup and its error return, `pinMode`, the lockfile and the privilege drop (main.c:171-197) are not modelled. The outputs are boolean fields.
- The loop never ends. `Loop` covers every finite prefix of it, and the unreachable code after it (main.c:295-298) is not modelled.
- Config.ScanFixed: reads `%f` as integer hundredths, dropping digits after the second decimal. Exponents, `inf`, `nan` and hexadecimal floats are not read, and float rounding is not modelled.
- Config.ScanEntry: does not model the 15-byte key buffer that a key longer than 14 characters would overflow.
- Config.ScanMagnitude: a `0x` with no hexadecimal digit after it follows glibc's scanner, which consumes the `x` and stores 0. ISO C makes this a matching failure that leaves the variable unassigned; both consume the `x`, so the following reads are the same either way.
- Config.ScanChar: reads one Unicode character, not one byte. The config text is taken to be ASCII; a separator of several bytes would shift the program's later reads, not the model's.
- Config.ScanMagnitude: `%i` values are unbounded integers. Overflow of `int` is not modelled.
