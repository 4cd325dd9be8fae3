/** The running thermostat: the variables `main` keeps across loop passes,
    the three GPIO outputs, and the start-up and loop code that update them
    in place. */
module Hvac {
  import opened Config
  import opened Control
  import opened ControlLemmas

  class Thermostat {
    /** Output levels of GPIO 27 (blower), 17 (compressor) and 22 (heater). */
    var blower: bool
    var ac: bool
    var heat: bool
    /** `hvacOn` and `hvacReady` of `main`. */
    var hvacOn: bool
    var hvacReady: bool
    /** Seconds of `lastReset`, and the converted temperature of the last read. */
    var lastReset: int
    var reading: int
    /** The settings loaded at start-up; the loop never changes them. */
    const settings: Settings

    function State(): ControlState
      reads this
    {
      ControlState(blower, ac, heat, hvacOn, hvacReady, lastReset, reading)
    }

    /** Only HEAT may have driven the heater, only AC the compressor. */
    predicate Valid()
      reads this
    {
      ModeConsistent(settings, State())
    }

    /** The start-up steps after the settings are loaded: reset the three
        outputs and start the poll timer. The outputs' levels before the
        reset are left unknown. */
    constructor (loaded: Settings, start: int, indeterminate: int)
      ensures settings == loaded
      ensures State() == ResetState(start, indeterminate)
      ensures Valid()
    {
      settings := loaded;
      hvacOn := false;
      hvacReady := false;
      lastReset := start;
      reading := indeterminate;
      new;
      BlowerOff();
      ACOff();
      HeatOff();
    }

    method BlowerOn()
      modifies this`blower
      ensures blower
    {
      blower := true;
    }

    method BlowerOff()
      modifies this`blower
      ensures !blower
    {
      blower := false;
    }

    method ACOn()
      modifies this`ac
      ensures ac
    {
      ac := true;
    }

    method ACOff()
      modifies this`ac
      ensures !ac
    {
      ac := false;
    }

    method HeatOn()
      modifies this`heat
      ensures heat
    {
      heat := true;
    }

    method HeatOff()
      modifies this`heat
      ensures !heat
    {
      heat := false;
    }

    /** The sensor poll: when at least `PollSeconds` have passed since the
        last one, restart the timer and take the reading `sensed`. */
    method PollSensor(now: int, sensed: int)
      modifies this`lastReset, this`reading
      ensures State() == Poll(old(State()), now, sensed)
    {
      if now - lastReset >= PollSeconds {
        lastReset := now;
        reading := sensed;
      }
    }

    /** The fan switch of a warmed-up pass. */
    method FanSwitch()
      modifies this`blower
      ensures State() == FanRule(old(State()), settings.fanMode)
    {
      if settings.fanMode == FanOn {
        BlowerOn();
      } else if settings.fanMode == FanAuto {
        if hvacOn {
          BlowerOn();
        } else {
          BlowerOff();
        }
      }
    }

    /** The mode switch of a warmed-up pass. */
    method ModeSwitch()
      modifies this`hvacOn, this`ac, this`heat
      ensures State() == ModeRule(old(State()), settings)
    {
      var t := reading + settings.offsetVal;
      if settings.hvacMode == ModeHeat {
        if t > settings.heatTemp {
          hvacOn := true;
          HeatOn();
        } else if t < settings.heatTemp {
          hvacOn := false;
          HeatOff();
        }
      } else if settings.hvacMode == ModeAC {
        if t > settings.coolTemp {
          hvacOn := true;
          ACOn();
        } else if t < settings.coolTemp {
          hvacOn := false;
          ACOff();
        }
      } else if settings.hvacMode == ModeOff {
        hvacOn := false;
        ACOff();
        HeatOff();
      }
    }

    /** One pass of the main loop at wall-clock second `now`, with `sensed`
        the converted temperature a sensor read would deliver and `clock` the
        value of `clock()`. */
    method Tick(now: int, sensed: int, clock: int)
      requires Valid()
      modifies this
      ensures Valid()
      ensures State() == Next(old(State()), settings, TickInput(now, sensed, clock))
    {
      PollSensor(now, sensed);
      if CDiv(clock, ClocksPerSec) >= WarmUpSeconds {
        if !hvacReady {
          hvacReady := true;
        }
        FanSwitch();
        ModeSwitch();
      }
      NextKeepsModeConsistent(old(State()), settings, TickInput(now, sensed, clock));
    }

    /** The main loop over the passes `inputs`, oldest first. Heater and
        compressor are never on together at the end. */
    method Loop(inputs: seq<TickInput>)
      requires Valid()
      modifies this
      ensures Valid()
      ensures State() == Run(old(State()), settings, inputs)
      ensures !(heat && ac)
    {
      var i := 0;
      while i < |inputs|
        invariant 0 <= i <= |inputs|
        invariant Valid()
        invariant State() == Run(old(State()), settings, inputs[..i])
      {
        Tick(inputs[i].now, inputs[i].sensed, inputs[i].clock);
        assert inputs[..i + 1][..i] == inputs[..i];
        i := i + 1;
      }
      assert inputs[..i] == inputs;
    }
  }

  /** Everything `main` does before its loop: load the config file, or
      write the default one when there is none, then set up the thermostat. */
  method Startup(config: Option<string>, start: int, indeterminate: int)
    returns (t: Thermostat, written: Option<string>)
    ensures fresh(t) && t.Valid()
    ensures t.settings == StartupSettings(config) && t.State() == ResetState(start, indeterminate)
    ensures written == StartupFileWrite(config)
  {
    var loaded := StartupSettings(config);
    if config.None? {
      written := Some(DefaultSettingsText());
    } else {
      written := None;
    }
    t := new Thermostat(loaded, start, indeterminate);
  }
}
