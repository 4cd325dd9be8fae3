/** What one pass of the loop does, rule by rule, and what holds over any
    run of passes from the reset state. */
module ControlLemmas {
  import opened Config
  import opened Control

  /** The warm-up test passes exactly from 300 s of processor time on. */
  lemma WarmUpThreshold(clock: int)
    ensures WarmedUp(clock) <==> clock >= WarmUpSeconds * ClocksPerSec
  {
    if clock < 0 {
      assert CDiv(clock, ClocksPerSec) <= 0;
    }
  }

  /** The poll touches only the timer and the reading: it runs when at least
      3 s have passed since the last one, restarting the timer and taking the
      new reading, and otherwise changes nothing. */
  lemma PollTouchesOnlyTimer(s: ControlState, now: int, sensed: int)
    ensures var r := Poll(s, now, sensed);
      && r.blower == s.blower && r.ac == s.ac && r.heat == s.heat
      && r.hvacOn == s.hvacOn && r.hvacReady == s.hvacReady
      && (now - s.lastReset >= PollSeconds ==> r.lastReset == now && r.reading == sensed)
      && (now - s.lastReset < PollSeconds ==> r == s)
  {
  }

  /** A pass polls whether or not it is warmed up. */
  lemma NextPolls(s: ControlState, cfg: Settings, input: TickInput)
    ensures var p := Poll(s, input.now, input.sensed);
      Next(s, cfg, input).lastReset == p.lastReset && Next(s, cfg, input).reading == p.reading
  {
    var p := Poll(s, input.now, input.sensed);
    if WarmedUp(input.clock) {
      var f := FanRule(p.(hvacReady := true), cfg.fanMode);
      assert f.lastReset == p.lastReset && f.reading == p.reading;
      assert ModeRule(f, cfg).lastReset == f.lastReset && ModeRule(f, cfg).reading == f.reading;
    }
  }

  /** Before warm-up a pass changes no output, no demand and no readiness. */
  lemma NoActuationBeforeWarmUp(s: ControlState, cfg: Settings, input: TickInput)
    requires !WarmedUp(input.clock)
    ensures var r := Next(s, cfg, input);
      r.blower == s.blower && r.ac == s.ac && r.heat == s.heat
      && r.hvacOn == s.hvacOn && r.hvacReady == s.hvacReady
  {
  }

  /** Readiness after a pass: it was ready already, or this pass is warmed up. */
  lemma ReadyLatches(s: ControlState, cfg: Settings, input: TickInput)
    ensures Next(s, cfg, input).hvacReady == (s.hvacReady || WarmedUp(input.clock))
  {
  }

  /** The fan switch on a warmed-up pass: ON turns the blower on, AUTO sets it
      to the demand flag as it was before this pass's mode switch, any other
      value leaves it. */
  lemma FanRuleOnReadyPass(s: ControlState, cfg: Settings, input: TickInput)
    requires WarmedUp(input.clock)
    ensures var r := Next(s, cfg, input);
      && (cfg.fanMode == FanOn ==> r.blower)
      && (cfg.fanMode == FanAuto ==> r.blower == s.hvacOn)
      && (cfg.fanMode != FanOn && cfg.fanMode != FanAuto ==> r.blower == s.blower)
  {
  }

  /** HEAT on a warmed-up pass: above the heat set point the heater goes on
      and there is demand, below it both go off, at it both stay; the
      compressor is not touched. */
  lemma HeatModePass(s: ControlState, cfg: Settings, input: TickInput)
    requires cfg.hvacMode == ModeHeat && WarmedUp(input.clock)
    ensures var t := Adjusted(Poll(s, input.now, input.sensed), cfg);
      var r := Next(s, cfg, input);
      && (t > cfg.heatTemp ==> r.heat && r.hvacOn)
      && (t < cfg.heatTemp ==> !r.heat && !r.hvacOn)
      && (t == cfg.heatTemp ==> r.heat == s.heat && r.hvacOn == s.hvacOn)
      && r.ac == s.ac
  {
  }

  /** AC on a warmed-up pass: above the cool set point the compressor goes on
      and there is demand, below it both go off, at it both stay; the heater
      is not touched. */
  lemma AcModePass(s: ControlState, cfg: Settings, input: TickInput)
    requires cfg.hvacMode == ModeAC && WarmedUp(input.clock)
    ensures var t := Adjusted(Poll(s, input.now, input.sensed), cfg);
      var r := Next(s, cfg, input);
      && (t > cfg.coolTemp ==> r.ac && r.hvacOn)
      && (t < cfg.coolTemp ==> !r.ac && !r.hvacOn)
      && (t == cfg.coolTemp ==> r.ac == s.ac && r.hvacOn == s.hvacOn)
      && r.heat == s.heat
  {
  }

  /** OFF on a warmed-up pass: heater, compressor and demand are off,
      whatever the temperature. */
  lemma OffModePass(s: ControlState, cfg: Settings, input: TickInput)
    requires cfg.hvacMode == ModeOff && WarmedUp(input.clock)
    ensures var r := Next(s, cfg, input);
      !r.heat && !r.ac && !r.hvacOn
  {
  }

  /** A mode value that is none of AC, HEAT and OFF leaves heater,
      compressor and demand as they were. */
  lemma UnknownModePass(s: ControlState, cfg: Settings, input: TickInput)
    requires cfg.hvacMode != ModeAC && cfg.hvacMode != ModeHeat && cfg.hvacMode != ModeOff
    ensures var r := Next(s, cfg, input);
      r.heat == s.heat && r.ac == s.ac && r.hvacOn == s.hvacOn
  {
  }

  /** A pass keeps each output to the mode that may drive it. */
  lemma NextKeepsModeConsistent(s: ControlState, cfg: Settings, input: TickInput)
    requires ModeConsistent(cfg, s)
    ensures ModeConsistent(cfg, Next(s, cfg, input))
  {
  }

  /** Any run of passes keeps each output to the mode that may drive it. */
  lemma {:induction false} RunKeepsModeConsistent(s: ControlState, cfg: Settings, inputs: seq<TickInput>)
    requires ModeConsistent(cfg, s)
    ensures ModeConsistent(cfg, Run(s, cfg, inputs))
  {
    if inputs != [] {
      var front := inputs[..|inputs| - 1];
      RunKeepsModeConsistent(s, cfg, front);
      NextKeepsModeConsistent(Run(s, cfg, front), cfg, inputs[|inputs| - 1]);
    }
  }

  /** From the reset state, with the mode fixed for the whole run, the
      heater and the compressor are never on together. */
  lemma HeatAndAcNeverBothOn(start: int, reading: int, cfg: Settings, inputs: seq<TickInput>)
    ensures var r := Run(ResetState(start, reading), cfg, inputs);
      !(r.heat && r.ac)
  {
    RunKeepsModeConsistent(ResetState(start, reading), cfg, inputs);
  }

  /** Some pass of the run is warmed up. */
  predicate SomePassWarmedUp(inputs: seq<TickInput>)
  {
    exists i :: 0 <= i < |inputs| && WarmedUp(inputs[i].clock)
  }

  /** Some pass is warmed up exactly when one before the last is, or the last is. */
  lemma SomePassWarmedUpSplit(inputs: seq<TickInput>)
    requires inputs != []
    ensures SomePassWarmedUp(inputs)
        <==> SomePassWarmedUp(inputs[..|inputs| - 1]) || WarmedUp(inputs[|inputs| - 1].clock)
  {
    var front := inputs[..|inputs| - 1];
    if SomePassWarmedUp(inputs) {
      var i :| 0 <= i < |inputs| && WarmedUp(inputs[i].clock);
      if i < |front| {
        assert front[i] == inputs[i];
      }
    }
    if SomePassWarmedUp(front) {
      var i :| 0 <= i < |front| && WarmedUp(front[i].clock);
      assert inputs[i] == front[i];
    }
  }

  /** After a run the thermostat is ready exactly when it was before or some
      pass of the run was warmed up: once set, readiness never clears. */
  lemma {:induction false} ReadyIffSomePassWarmedUp(s: ControlState, cfg: Settings, inputs: seq<TickInput>)
    ensures Run(s, cfg, inputs).hvacReady <==> s.hvacReady || SomePassWarmedUp(inputs)
  {
    if inputs != [] {
      var front := inputs[..|inputs| - 1];
      ReadyIffSomePassWarmedUp(s, cfg, front);
      ReadyLatches(Run(s, cfg, front), cfg, inputs[|inputs| - 1]);
      SomePassWarmedUpSplit(inputs);
    }
  }

  /** Until some pass is warmed up, all outputs stay at their reset level
      (off), there is no demand and the thermostat is not ready. */
  lemma {:induction false} QuietUntilWarmedUp(start: int, reading: int, cfg: Settings, inputs: seq<TickInput>)
    requires forall i :: 0 <= i < |inputs| ==> !WarmedUp(inputs[i].clock)
    ensures var r := Run(ResetState(start, reading), cfg, inputs);
      !r.blower && !r.ac && !r.heat && !r.hvacOn && !r.hvacReady
  {
    if inputs != [] {
      var front := inputs[..|inputs| - 1];
      assert forall i :: 0 <= i < |front| ==> front[i] == inputs[i];
      QuietUntilWarmedUp(start, reading, cfg, front);
    }
  }

  /** In AUTO the blower follows demand one pass late: in HEAT mode with the
      temperature above the set point, the first warmed-up pass turns the
      heater on while the blower stays off, and only the next pass turns the
      blower on. */
  lemma AutoBlowerLagsDemand()
    ensures var cfg := Settings(ModeHeat, FanAuto, 7400, 7000, 0);
      var warm := WarmUpSeconds * ClocksPerSec;
      var first := Next(ResetState(0, 7600), cfg, TickInput(1, 7600, warm));
      var second := Next(first, cfg, TickInput(2, 7600, warm));
      && first.heat && first.hvacOn && !first.blower
      && second.heat && second.blower
  {
    WarmUpThreshold(WarmUpSeconds * ClocksPerSec);
  }

  /** `clock()` as a 32-bit `long` holds it: processor microseconds wrapped
      to the signed 32-bit range. */
  function Clock32(micros: nat): (c: int)
    ensures -0x8000_0000 <= c < 0x8000_0000
    ensures micros < 0x8000_0000 ==> c == micros
    ensures (c - micros) % 0x1_0000_0000 == 0
  {
    var w := micros % 0x1_0000_0000;
    if w < 0x8000_0000 then w else w - 0x1_0000_0000
  }

  /** With a 32-bit `clock()` the warm-up test passes exactly while the
      processor microseconds, taken modulo 2^32, lie between 300 s and 2^31:
      it fails again every time the count wraps past 2^31. */
  lemma WrappedWarmUp(micros: nat)
    ensures WarmedUp(Clock32(micros))
        <==> WarmUpSeconds * ClocksPerSec <= micros % 0x1_0000_0000 < 0x8000_0000
  {
    WarmUpThreshold(Clock32(micros));
  }

  /** The loop tests `clock()` on every pass and never consults the ready
      latch, so where `clock()` is 32 bits wide a ready thermostat stops
      switching once 2^31 processor microseconds (about 36 minutes) have been
      used, and stays stopped for the next 2^31: its outputs and demand stay
      as they were. */
  lemma ControlPausesWhenClockWraps(s: ControlState, cfg: Settings, now: int, sensed: int, micros: nat)
    requires s.hvacReady
    requires 0x8000_0000 <= micros % 0x1_0000_0000
    ensures !WarmedUp(Clock32(micros))
    ensures var r := Next(s, cfg, TickInput(now, sensed, Clock32(micros)));
      r.blower == s.blower && r.ac == s.ac && r.heat == s.heat && r.hvacOn == s.hvacOn && r.hvacReady
  {
    WrappedWarmUp(micros);
  }
}
