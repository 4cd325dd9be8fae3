/** One pass of the thermostat's main loop as a function of the state the
    loop carries from pass to pass: the three outputs, the demand flag, the
    warm-up latch, the time of the last sensor poll and the last reading.
    Temperatures are in hundredths of a degree Fahrenheit. */
module Control {
  import opened Config

  /** The loop's state. `blower`, `ac` and `heat` are the levels of GPIO 27,
      17 and 22; `reading` is the converted sensor temperature the last poll
      left behind. */
  datatype ControlState = ControlState(
    blower: bool, ac: bool, heat: bool,
    hvacOn: bool, hvacReady: bool,
    lastReset: int, reading: int)

  /** What one pass observes: the wall clock in seconds, the converted
      temperature a sensor read would deliver now, and the value of `clock()`. */
  datatype TickInput = TickInput(now: int, sensed: int, clock: int)

  const ClocksPerSec: int := 1000000
  const WarmUpSeconds: int := 300
  const PollSeconds: int := 3

  /** C's integer division, which truncates toward zero. */
  function CDiv(a: int, b: int): int
    requires b > 0
  {
    if a >= 0 then a / b else -((-a) / b)
  }

  /** `clock()/CLOCKS_PER_SEC >= 300`. */
  predicate WarmedUp(clock: int)
  {
    CDiv(clock, ClocksPerSec) >= WarmUpSeconds
  }

  /** The state just before the loop starts: all three outputs written low,
      no demand, not ready, the poll timer started at `start`; `reading` is
      whatever the uninitialised temperature variable holds. */
  function ResetState(start: int, reading: int): ControlState
  {
    ControlState(false, false, false, false, false, start, reading)
  }

  /** The sensor poll: at least `PollSeconds` since the last one, restart the
      timer and take the new reading. */
  function Poll(s: ControlState, now: int, sensed: int): ControlState
  {
    if now - s.lastReset >= PollSeconds then s.(lastReset := now, reading := sensed) else s
  }

  /** The calibrated temperature the rules compare with the set points. */
  function Adjusted(s: ControlState, cfg: Settings): int
  {
    s.reading + cfg.offsetVal
  }

  /** The fan switch: ON drives the blower, AUTO copies the demand flag as it
      stands, any other value leaves it. */
  function FanRule(s: ControlState, fanMode: int): ControlState
  {
    if fanMode == FanOn then s.(blower := true)
    else if fanMode == FanAuto then s.(blower := s.hvacOn)
    else s
  }

  /** The mode switch: one threshold per mode, equality leaves things as they
      are, any value that is no mode does nothing. */
  function ModeRule(s: ControlState, cfg: Settings): ControlState
  {
    var t := Adjusted(s, cfg);
    if cfg.hvacMode == ModeHeat then
      if t > cfg.heatTemp then s.(hvacOn := true, heat := true)
      else if t < cfg.heatTemp then s.(hvacOn := false, heat := false)
      else s
    else if cfg.hvacMode == ModeAC then
      if t > cfg.coolTemp then s.(hvacOn := true, ac := true)
      else if t < cfg.coolTemp then s.(hvacOn := false, ac := false)
      else s
    else if cfg.hvacMode == ModeOff then s.(hvacOn := false, ac := false, heat := false)
    else s
  }

  /** One pass of the loop: poll, and once warmed up latch readiness and run
      the fan switch before the mode switch. */
  function Next(s: ControlState, cfg: Settings, input: TickInput): ControlState
  {
    var p := Poll(s, input.now, input.sensed);
    if WarmedUp(input.clock) then ModeRule(FanRule(p.(hvacReady := true), cfg.fanMode), cfg) else p
  }

  /** The state after a run of passes, oldest input first. */
  function Run(s: ControlState, cfg: Settings, inputs: seq<TickInput>): ControlState
  {
    if inputs == [] then s else Next(Run(s, cfg, inputs[..|inputs| - 1]), cfg, inputs[|inputs| - 1])
  }

  /** The pin states the fixed mode allows: only HEAT drives the heater and
      only AC drives the compressor. */
  predicate ModeConsistent(cfg: Settings, s: ControlState)
  {
    (cfg.hvacMode != ModeHeat ==> !s.heat) && (cfg.hvacMode != ModeAC ==> !s.ac)
  }
}
