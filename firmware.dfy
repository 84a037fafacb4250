/** The firmware as it runs: an object whose fields stand for the hardware
    registers and the firmware's globals, updated in place by the two
    controllers and by each iteration of the main loop. Every method is proved
    to perform the corresponding step of module Control. */
module Firmware {
  import opened Stopwatch
  import opened Control

  class Device {
    /** Relay pins PIN_P_COOL and PIN_P_HEAT. */
    var cool: bool
    var heat: bool
    /** Compare register of the heater PWM. */
    var duty: uint8
    /** The free-running count-down timer. */
    var counter: uint32
    var period: uint32
    /** The static click timestamp and the global cooling timestamp. */
    var timerClick: uint32
    var timerCooling: uint32
    /** Pin PIN_IS_TOUCHED, which the loop drives from the touch sensor. */
    var touched: bool
    /** The loop's last converted copper temperature. */
    var temp: real

    /** The board state as a value. */
    function State(): Board
      reads this
    {
      Board(cool, heat, duty, counter, period, timerClick, timerCooling, touched, temp)
    }

    /** The state on entering the loop: the pins, the duty and the timer as
        the peripherals left them; the click timestamp at 0, the cooling
        timestamp at the budget, the temperature at 0. */
    constructor (cool0: bool, heat0: bool, duty0: uint8, counter0: uint32, period0: uint32, touched0: bool)
      ensures State() == Board(cool0, heat0, duty0, counter0, period0, 0, MaxCoolingTimeMs, touched0, 0.0)
    {
      cool, heat, duty := cool0, heat0, duty0;
      counter, period := counter0, period0;
      timerClick, timerCooling := 0, MaxCoolingTimeMs;
      touched, temp := touched0, 0.0;
    }

    /** stopwatch_start */
    method StopwatchStart() returns (t: uint32)
      ensures ElapsedMs(t, counter, period) == 0
      ensures t == Start(counter)
    {
      t := counter;
    }

    /** stopwatch_elapsed_ms: elapsed time since `sample` on this timer. */
    method StopwatchElapsedMs(sample: uint32) returns (e: uint32)
      ensures e == ElapsedMs(sample, counter, period)
      ensures sample >= counter ==> e as int == sample as int - counter as int
      ensures sample < counter <= period ==> e < period
    {
      var current := counter;
      if sample >= current {
        e := Sub(sample, current);
      } else {
        e := Add(sample, Sub(period, current));
      }
    }

    /** heater_controller */
    method HeaterController(t: real)
      modifies this
      ensures State() == Heating(old(State()), t)
      ensures cool == heat
      ensures duty == HeaterDuty(t)
      ensures timerCooling == counter
    {
      // Peltier inactive: both relays in the same state
      if cool != heat {
        cool := false;
        heat := false;
      }
      // audible click while remotely touched and not locally touched
      if !touched {
        var e := StopwatchElapsedMs(timerClick);
        if e > RelayClickFreqMs {
          cool := !cool;
          heat := !heat;
          timerClick := StopwatchStart();
        }
      }
      if t < TargetTemp {
        duty := Uint8Max;
      } else {
        duty := MinHeaterDuty;
      }
      timerCooling := StopwatchStart();
    }

    /** cooling_controller */
    method CoolingController()
      modifies this
      ensures State() == Cooling(old(State()))
      ensures duty == 0 && !heat
      ensures unchanged(this`timerClick) && unchanged(this`timerCooling)
    {
      if duty != 0 {
        duty := 0;
      }
      if heat {
        heat := false;
      }
      var e := StopwatchElapsedMs(timerCooling);
      if e < MaxCoolingTimeMs {
        cool := true;
      } else {
        cool := false;
      }
    }

    /** One iteration of the main loop. */
    method Tick(input: TickInput)
      modifies this
      ensures State() == Step(old(State()), input)
      ensures Safe(State())
    {
      counter := input.now;
      if input.sample.Some? {
        temp := input.sample.value;
      }
      if input.touch.Some? {
        touched := input.touch.value;
      }
      if input.remote {
        HeaterController(temp);
      } else {
        CoolingController();
      }
    }

    /** A finite prefix of the endless main loop. */
    method Loop(inputs: seq<TickInput>)
      modifies this
      ensures State() == Run(old(State()), inputs)
    {
      var i := 0;
      while i < |inputs|
        invariant 0 <= i <= |inputs|
        invariant State() == Run(old(State()), inputs[..i])
      {
        Tick(inputs[i]);
        assert inputs[..i + 1][..i] == inputs[..i];
        i := i + 1;
      }
      assert inputs[..i] == inputs;
    }
  }
}
