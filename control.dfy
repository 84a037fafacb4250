/** The control state machine of the firmware, stated on values: a snapshot of
    the board's hardware state (relay pins, PWM compare register, timer, the
    two timestamps and the loop's remembered inputs) and what one step of each
    controller does to it. The class in module Firmware performs the same
    steps in place and is proved against these functions. */
module Control {
  import opened Stopwatch

  /** C's uint8_t: the PWM compare register holds 0..255. */
  newtype uint8 = x: int | 0 <= x < 256

  datatype Option<T> = None | Some(value: T)

  const Uint8Max: uint8 := 255
  /** Below this temperature the heater runs at full duty. */
  const TargetTemp: real := 30.0
  /** The duty that holds the plate warm once the target is reached. */
  const MinHeaterDuty: uint8 := 147
  /** Minimum time between two audible relay clicks. */
  const RelayClickFreqMs: uint32 := 1000
  /** How long cooling may run after heating last ran. */
  const MaxCoolingTimeMs: uint32 := 7000

  /** The hardware and loop state one control step reads and writes.
      Relay pins are true when driven high. `touched` is the local-touch pin,
      which the loop drives from the capacitive sensor; `temp` is the last
      converted copper temperature the loop keeps. */
  datatype Board = Board(
    cool: bool,
    heat: bool,
    duty: uint8,
    counter: uint32,
    period: uint32,
    timerClick: uint32,
    timerCooling: uint32,
    touched: bool,
    temp: real)

  /** What one loop iteration receives from the peripherals: the timer's
      count, a new temperature if a conversion has completed, a new touch
      result if the capacitive sensor was not busy, and the remote-touch pin. */
  datatype TickInput = TickInput(
    now: uint32,
    sample: Option<real>,
    touch: Option<bool>,
    remote: bool)

  /** The Peltier element is driven when its two relays disagree; with both in
      the same state it is inactive. */
  predicate PeltierActive(b: Board) {
    b.cool != b.heat
  }

  /** The safety condition every step establishes: the Peltier element is
      only ever driven in the cooling direction (cool relay on, heat relay
      off), and never while the heater's PWM duty is non-zero. */
  predicate Safe(b: Board) {
    PeltierActive(b) ==> b.cool && !b.heat && b.duty == 0
  }

  /** The relay check at the start of the heating step: relays that disagree
      are both switched off; relays that agree are left alone. */
  function SettleRelays(b: Board): (r: Board)
    ensures !PeltierActive(r)
    ensures !PeltierActive(b) ==> r == b
    ensures PeltierActive(b) ==> !r.cool && !r.heat
    ensures r == b.(cool := r.cool, heat := r.heat)
  {
    if b.cool != b.heat then b.(cool := false, heat := false) else b
  }

  /** The click is due when no local touch is registered and more than the
      click period has passed since the last click. */
  predicate ClickDue(b: Board) {
    !b.touched && ElapsedMs(b.timerClick, b.counter, b.period) > RelayClickFreqMs
  }

  /** The audible click: when due, both relays are inverted together and the
      click timestamp is re-taken; otherwise nothing changes. Inverting both
      keeps them agreeing or disagreeing as they were. */
  function Click(b: Board): (r: Board)
    ensures ClickDue(b) ==> r.cool == !b.cool && r.heat == !b.heat && r.timerClick == b.counter
    ensures !ClickDue(b) ==> r == b
    ensures PeltierActive(r) == PeltierActive(b)
    ensures r == b.(cool := r.cool, heat := r.heat, timerClick := r.timerClick)
  {
    if ClickDue(b) then b.(cool := !b.cool, heat := !b.heat, timerClick := Start(b.counter))
    else b
  }

  /** The two-level duty law of the heating step. */
  function HeaterDuty(temp: real): (d: uint8)
    ensures d == Uint8Max <==> temp < TargetTemp
    ensures d == MinHeaterDuty <==> temp >= TargetTemp
  {
    if temp < TargetTemp then Uint8Max else MinHeaterDuty
  }

  /** heater_controller: settle the relays, maybe click, apply the duty law
      and re-arm the cooling budget at the current count. */
  function Heating(b: Board, temp: real): (r: Board)
    ensures !PeltierActive(r) && Safe(r)
    ensures r.duty == Uint8Max <==> temp < TargetTemp
    ensures r.duty == MinHeaterDuty <==> temp >= TargetTemp
    ensures r.timerCooling == b.counter
    ensures r.timerClick == (if ClickDue(b) then b.counter else b.timerClick)
    ensures ClickDue(b) ==> r.cool == !SettleRelays(b).cool
    ensures !ClickDue(b) ==> r.cool == SettleRelays(b).cool
    ensures r.counter == b.counter && r.period == b.period
    ensures r.touched == b.touched && r.temp == b.temp
  {
    var settled := SettleRelays(b);
    Click(settled).(duty := HeaterDuty(temp), timerCooling := Start(b.counter))
  }

  /** cooling_controller: heater duty to zero, heat relay off, and the cool
      relay on only while less than the cooling budget has elapsed since the
      heating step last ran. Neither timestamp is written. */
  function Cooling(b: Board): (r: Board)
    ensures Safe(r)
    ensures r.duty == 0 && !r.heat
    ensures r.cool <==> ElapsedMs(b.timerCooling, b.counter, b.period) < MaxCoolingTimeMs
    ensures r.timerCooling == b.timerCooling && r.timerClick == b.timerClick
    ensures r.counter == b.counter && r.period == b.period
    ensures r.touched == b.touched && r.temp == b.temp
  {
    var r1 := if b.duty != 0 then b.(duty := 0) else b;
    var r2 := if r1.heat then r1.(heat := false) else r1;
    r2.(cool := ElapsedMs(b.timerCooling, b.counter, b.period) < MaxCoolingTimeMs)
  }

  /** The remembered inputs after a tick: a value that did not arrive keeps
      the previous one. */
  function Sense(b: Board, input: TickInput): (r: Board)
    ensures r.counter == input.now
    ensures input.sample.Some? ==> r.temp == input.sample.value
    ensures input.sample.None? ==> r.temp == b.temp
    ensures input.touch.Some? ==> r.touched == input.touch.value
    ensures input.touch.None? ==> r.touched == b.touched
    ensures r == b.(counter := r.counter, temp := r.temp, touched := r.touched)
  {
    var b1 := b.(counter := input.now);
    var b2 := if input.sample.Some? then b1.(temp := input.sample.value) else b1;
    if input.touch.Some? then b2.(touched := input.touch.value) else b2
  }

  /** One iteration of the control loop: take in the new readings, then run
      the heating step while remote touch is asserted, the cooling step
      otherwise. Whatever the state before, the state after is Safe and the
      duty is one of the three levels the firmware uses. */
  function Step(b: Board, input: TickInput): (r: Board)
    ensures Safe(r)
    ensures r.duty == 0 || r.duty == MinHeaterDuty || r.duty == Uint8Max
    ensures r.counter == input.now && r.period == b.period
    ensures input.remote ==> !PeltierActive(r) && r.timerCooling == input.now
    ensures !input.remote ==> r.duty == 0 && !r.heat
    ensures !input.remote ==> r.timerCooling == b.timerCooling && r.timerClick == b.timerClick
  {
    var sensed := Sense(b, input);
    if input.remote then Heating(sensed, sensed.temp) else Cooling(sensed)
  }

  /** The state after a finite prefix of the endless control loop. */
  function Run(b: Board, inputs: seq<TickInput>): (r: Board)
    ensures r.period == b.period
    ensures inputs != [] ==> Safe(r) && r.counter == inputs[|inputs| - 1].now
    decreases |inputs|
  {
    if inputs == [] then b
    else Step(Run(b, inputs[..|inputs| - 1]), inputs[|inputs| - 1])
  }

  predicate AllCooling(inputs: seq<TickInput>) {
    forall i :: 0 <= i < |inputs| ==> !inputs[i].remote
  }

  /** Only the heating step writes the timestamps: any run of cooling steps
      leaves both where they were, so the cooling budget is not re-armed
      while cooling or idling. */
  lemma {:induction false} CoolingKeepsTimestamps(b: Board, inputs: seq<TickInput>)
    requires AllCooling(inputs)
    ensures Run(b, inputs).timerCooling == b.timerCooling
    ensures Run(b, inputs).timerClick == b.timerClick
    decreases |inputs|
  {
    if inputs != [] {
      CoolingKeepsTimestamps(b, inputs[..|inputs| - 1]);
    }
  }

  /** After any run of cooling steps the heater is off, the heat relay is
      off, and the cool relay is on exactly when less than the budget has
      elapsed since the timestamp the run started with. */
  lemma CoolingBudget(b: Board, inputs: seq<TickInput>)
    requires AllCooling(inputs) && inputs != []
    ensures var r := Run(b, inputs);
      r.duty == 0 && !r.heat &&
      (r.cool <==> ElapsedMs(b.timerCooling, r.counter, b.period) < MaxCoolingTimeMs)
  {
    CoolingKeepsTimestamps(b, inputs[..|inputs| - 1]);
  }

  /** The one-shot cooling window: when heating last ran at count `s` and the
      timer has since counted `k` ticks (fewer than one period) through any
      run of cooling steps, the cool relay is on exactly when k is below the
      cooling budget. */
  lemma CoolingWindow(b: Board, inputs: seq<TickInput>, k: nat)
    requires 0 < b.period && b.timerCooling < b.period && k < b.period as int
    requires AllCooling(inputs) && inputs != []
    requires inputs[|inputs| - 1].now == After(b.timerCooling, k, b.period - 1)
    ensures Run(b, inputs).cool <==> k < MaxCoolingTimeMs as int
  {
    CoolingBudget(b, inputs);
    ElapsedCountsTicks(b.timerCooling, k, b.period);
  }

  /** The one-wrap limitation: the elapsed time is measured modulo the
      timer's cycle, so once the counter comes back round to the value it had
      when heating last ran, a run of cooling steps switches the cool relay
      back on, although heating has not run again. */
  lemma CoolingReopensAfterWrap(b: Board, inputs: seq<TickInput>)
    requires AllCooling(inputs) && inputs != []
    requires inputs[|inputs| - 1].now == b.timerCooling
    ensures Run(b, inputs).cool
  {
    CoolingBudget(b, inputs);
  }

  /** Click throttling across two consecutive heating iterations: the second
      inverts the relays only if no local touch is registered and more than
      the click period has passed since the click timestamp the first left;
      otherwise the relays stay as the first left them. */
  lemma ClickThrottle(b: Board, first: TickInput, second: TickInput)
    requires first.remote && second.remote
    ensures var r1 := Step(b, first); var r2 := Step(r1, second);
      var due := ClickDue(Sense(r1, second));
      (due ==> r2.cool == !r1.cool && r2.heat == !r1.heat && r2.timerClick == second.now) &&
      (!due ==> r2.cool == r1.cool && r2.heat == r1.heat && r2.timerClick == r1.timerClick)
  {
  }
}
