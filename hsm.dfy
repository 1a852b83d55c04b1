/**
 * The acquisition state machine of hsm.cpp: the HSM object with its current
 * state, sample counter and run start time, the transition algorithm, the
 * per-state callbacks and the event handlers.
 *
 * Every callback the machine makes is appended to a ghost trace. The changes a
 * callback makes to the machine and its peripherals are given by Effect, so a
 * whole transition is specified as the fold Apply of Effect over the callbacks
 * of Cascade (see HsmStates). The methods state the context and the trace
 * together, as Replay of their callbacks; ReplayMeaning splits the two again.
 */
module Hsm {
  import opened Wrappers
  import opened HsmStates
  import HpSystem
  import Ads1232

  /** A uint32_t value, such as millis() returns. */
  type U32 = x: int | 0 <= x < 0x1_0000_0000

  /** One line the Sample state prints: sample number, elapsed milliseconds, raw ADC value, bus flags. */
  datatype SampleLine = SampleLine(number: nat, elapsed: U32, raw: bv32, flags: string)

  /** What the handlers read from outside during one event: millis(), the ADC's next conversion, the bus line levels. */
  datatype Env = Env(now: U32, conversion: Ads1232.Conversion, levels: HpSystem.Line -> bool)

  /** Everything a callback can change: the HSM fields, the ADC pins and the log of what was done at them, the bus lines and the printed sample lines. */
  datatype Context = Context(
    sampleNumber: nat,
    startTime: U32,
    led: bool,
    adcPowered: bool,
    adcClockHigh: bool,
    adcEvents: seq<Ads1232.AdcEvent>,
    busDriven: set<HpSystem.Line>,
    busLog: seq<HpSystem.BusAction>,
    samples: seq<SampleLine>)

  /** Run.onEnter: power the ADC, calibrate it, restart the counter and the clock, LED on. */
  function StartRun(c: Context, env: Env): Context
  {
    c.(adcPowered := true, adcClockHigh := false, adcEvents := c.adcEvents + [Ads1232.PowerUp] + Ads1232.CalibrationEvents(env.conversion),
       sampleNumber := 0, startTime := env.now, led := true)
  }

  /** Run.onExit: ADC powered down, LED off. */
  function EndRun(c: Context): Context
  {
    c.(adcPowered := false, adcEvents := c.adcEvents + [Ads1232.PowerDown], led := false)
  }

  /** HPSystem::startreq and HPSystem::shutdown: pulse one line, which ends released. */
  function PulseOut(c: Context, l: HpSystem.Line): Context
  {
    c.(busDriven := c.busDriven - {l}, busLog := c.busLog + HpSystem.PulseActions(l, HpSystem.PulseLength))
  }

  /**
   * Sample.onInit before its transition: count the sample, take the elapsed
   * time with 32-bit wrap-around, read the ADC and print one line.
   */
  function TakeSample(c: Context, env: Env): Context
  {
    c.(sampleNumber := c.sampleNumber + 1, adcClockHigh := false,
       adcEvents := c.adcEvents + Ads1232.ReadEvents(env.conversion), samples := c.samples + [NextLine(c, env)])
  }

  /** The line Sample.onInit prints: the next sample number, the elapsed time, the ADC value, the bus flags. */
  function NextLine(c: Context, env: Env): SampleLine
  {
    SampleLine(c.sampleNumber + 1, Elapsed(env.now, c.startTime),
      Ads1232.Assemble(env.conversion.msb, env.conversion.mid, env.conversion.lsb),
      HpSystem.Flags(HpSystem.Effective(env.levels, c.busDriven)))
  }

  /**
   * The printed time is millis() minus the run start modulo 2^32, and the
   * printed value is the 24-bit conversion, MSB first.
   */
  lemma NextLineValues(c: Context, env: Env)
    ensures NextLine(c, env).elapsed == Elapsed(env.now, c.startTime)
    ensures NextLine(c, env).elapsed == if c.startTime <= env.now then env.now - c.startTime else env.now - c.startTime + 0x1_0000_0000
    ensures NextLine(c, env).raw as int
      == env.conversion.msb as int * 65536 + env.conversion.mid as int * 256 + env.conversion.lsb as int
    ensures NextLine(c, env).raw as int < 0x100_0000
  {
    Ads1232.AssembleValue(env.conversion.msb, env.conversion.mid, env.conversion.lsb);
    WrappingElapsed(env.now, c.startTime);
  }

  /** Milliseconds since the run started: uint32_t subtraction, which wraps modulo 2^32. */
  function Elapsed(now: U32, start: U32): U32
  {
    (now - start) % 0x1_0000_0000
  }

  /** The elapsed time is exact, also across one overflow of millis(). */
  lemma WrappingElapsed(now: U32, start: U32)
    ensures start <= now ==> Elapsed(now, start) == now - start
    ensures now < start ==> Elapsed(now, start) == now - start + 0x1_0000_0000
    ensures (start + Elapsed(now, start)) % 0x1_0000_0000 == now
  {
  }

  /**
   * What one callback does, apart from the transitions onInit handlers start.
   * Only Run's onEnter/onExit and the onInit of SendStartRequest and Sample
   * touch the context; the other overrides only print and the base ones are empty.
   */
  function Effect(c: Context, cb: Callback, env: Env): Context
  {
    match cb
    case Entered(Run, _) => StartRun(c, env)
    case Exited(Run, _) => EndRun(c)
    case Initialised(SendStartRequest, _) => PulseOut(c, HpSystem.StartReq)
    case Initialised(Sample, _) => TakeSample(c, env)
    case _ => c
  }

  /** The effect of a sequence of callbacks made in order. */
  function Apply(c: Context, calls: seq<Callback>, env: Env): Context
    decreases |calls|
  {
    if calls == [] then c else Apply(Effect(c, calls[0], env), calls[1..], env)
  }

  lemma {:induction false} ApplyAppend(c: Context, a: seq<Callback>, b: seq<Callback>, env: Env)
    ensures Apply(c, a + b, env) == Apply(Apply(c, a, env), b, env)
    decreases |a|
  {
    if a != [] {
      var c1 := Effect(c, a[0], env);
      assert a + b != [] && (a + b)[0] == a[0];
      assert (a + b)[1..] == a[1..] + b;
      calc {
        Apply(c, a + b, env);
        Apply(c1, a[1..] + b, env);
        { ApplyAppend(c1, a[1..], b, env); }
        Apply(Apply(c1, a[1..], env), b, env);
      }
    } else {
      assert a + b == b;
    }
  }

  lemma ApplySnoc(c: Context, a: seq<Callback>, x: Callback, env: Env)
    ensures Apply(c, a + [x], env) == Effect(Apply(c, a, env), x, env)
  {
    ApplyAppend(c, a, [x], env);
  }

  /** The context together with the callbacks made so far. */
  datatype Observation = Observation(ctx: Context, trace: seq<Callback>)

  /** Making the callbacks in order: each is appended to the trace and applied to the context. */
  function Replay(o: Observation, calls: seq<Callback>, env: Env): Observation
    decreases |calls|
  {
    if calls == [] then o
    else Replay(Observation(Effect(o.ctx, calls[0], env), o.trace + [calls[0]]), calls[1..], env)
  }

  lemma ReplayOne(o: Observation, x: Callback, env: Env)
    ensures Replay(o, [x], env) == Observation(Effect(o.ctx, x, env), o.trace + [x])
  {
    assert [x][1..] == [];
  }

  lemma {:induction false} ReplayAppend(o: Observation, a: seq<Callback>, b: seq<Callback>, env: Env)
    ensures Replay(o, a + b, env) == Replay(Replay(o, a, env), b, env)
    decreases |a|
  {
    if a != [] {
      var o1 := Observation(Effect(o.ctx, a[0], env), o.trace + [a[0]]);
      assert a + b != [] && (a + b)[0] == a[0];
      assert (a + b)[1..] == a[1..] + b;
      calc {
        Replay(o, a + b, env);
        Replay(o1, a[1..] + b, env);
        { ReplayAppend(o1, a[1..], b, env); }
        Replay(Replay(o1, a[1..], env), b, env);
      }
    } else {
      assert a + b == b;
    }
  }

  /** Replaying callbacks appends them to the trace and applies them to the context. */
  lemma {:induction false} ReplayMeaning(o: Observation, calls: seq<Callback>, env: Env)
    ensures Replay(o, calls, env) == Observation(Apply(o.ctx, calls, env), o.trace + calls)
    decreases |calls|
  {
    if calls != [] {
      ReplayMeaning(Observation(Effect(o.ctx, calls[0], env), o.trace + [calls[0]]), calls[1..], env);
      assert o.trace + [calls[0]] + calls[1..] == o.trace + calls;
    }
  }

  // ---------------------------------------------------------------------------
  // Events and handlers

  /** The events the HSM object forwards to its current state. */
  datatype Event =
    | SignalStart | SignalStop | SignalShutdown | SignalStartRequest | SignalPrepare
    | SignalNotReady | SignalReady | SignalPowerOff | SignalPowerOn
    | AdcDataReady | Update | InitDone
    | SerialAvailable(byte: char)

  /** What a handler does. Announce only prints a message. */
  datatype Reaction =
    | Ignore
    | Announce
    | Goto(target: StateId)
    | PulseShutdown
    | PulseShutdownThenGoto(target: StateId)

  /** tolower for the ASCII letters; every other character is returned unchanged. */
  function ToLower(ch: char): (r: char)
    ensures 'A' <= ch <= 'Z' ==> r as int == ch as int + 32
    ensures !('A' <= ch <= 'Z') ==> r == ch
    ensures !('A' <= r <= 'Z')
  {
    if 'A' <= ch <= 'Z' then (ch as int + 32) as char else ch
  }

  /** Idle.onSerialAvailable: s starts a run, r sends a start request, x pulses shutdown. */
  function IdleCommand(ch: char): Reaction
  {
    match ToLower(ch)
    case 's' => Goto(Run)
    case 'r' => Goto(SendStartRequest)
    case 'x' => PulseShutdown
    case _ => Ignore
  }

  /** Run.onSerialAvailable: s stops the run, x pulses shutdown and stops the run. */
  function RunCommand(ch: char): Reaction
  {
    match ToLower(ch)
    case 's' => Goto(Idle)
    case 'x' => PulseShutdownThenGoto(Idle)
    case _ => Ignore
  }

  /** The event handlers a state's own class defines; None where it defines none. */
  function OwnHandler(cls: StateId, e: Event): Option<Reaction>
  {
    match cls
    case Init => if e == InitDone then Some(Goto(Idle)) else None
    case Idle => IdleHandler(e)
    case Run => RunHandler(e)
    case WaitForConversion => if e == AdcDataReady then Some(Goto(Sample)) else None
    case _ => None
  }

  /** A status announcement: the handler only prints a message. */
  predicate IsAnnouncement(e: Event)
  {
    e == SignalNotReady || e == SignalReady || e == SignalPowerOff || e == SignalPowerOn
  }

  /** Idle's handlers. */
  function IdleHandler(e: Event): Option<Reaction>
  {
    if e == SignalStart then Some(Goto(Run))
    else if e.SerialAvailable? then Some(IdleCommand(e.byte))
    else if IsAnnouncement(e) then Some(Announce)
    else None
  }

  /** Run's handlers. */
  function RunHandler(e: Event): Option<Reaction>
  {
    if e == SignalStop then Some(Goto(Idle))
    else if e.SerialAvailable? then Some(RunCommand(e.byte))
    else if IsAnnouncement(e) then Some(Announce)
    else None
  }

  /** The C++ base class of each state class other than State itself. */
  function BaseClass(cls: StateId): Option<StateId>
  {
    match cls
    case Sample => Some(Run)
    case WaitForConversion => Some(Run)
    case _ => None
  }

  /** Virtual dispatch: the handler of the class, else of its base class, else State's empty one. */
  function Handle(s: StateId, e: Event): Reaction
    decreases if BaseClass(s).Some? then 1 else 0
  {
    match OwnHandler(s, e)
    case Some(r) => r
    case None =>
      match BaseClass(s)
      case None => Ignore
      case Some(b) => Handle(b, e)
  }

  /** A state, a context and the callbacks that led there. */
  datatype Config = Config(state: StateId, ctx: Context, calls: seq<Callback>)

  /** A transition from s to t, applied to the context. */
  function Go(s: StateId, c: Context, t: StateId, env: Env): Config
  {
    Config(Settle(t), Apply(c, Cascade(s, t), env), Cascade(s, t))
  }

  /** The outcome of forwarding event e to state s. */
  function Step(s: StateId, c: Context, e: Event, env: Env): Config
  {
    match Handle(s, e)
    case Ignore => Config(s, c, [])
    case Announce => Config(s, c, [])
    case Goto(t) => Go(s, c, t, env)
    case PulseShutdown => Config(s, PulseOut(c, HpSystem.Shutdown), [])
    case PulseShutdownThenGoto(t) => Go(s, PulseOut(c, HpSystem.Shutdown), t, env)
  }

  // ---------------------------------------------------------------------------
  // The HSM object

  /** The inputs the handlers read: the millisecond clock, the next ADC conversion, the bus line levels. */
  class Board {
    var now: U32
    var conversion: Ads1232.Conversion
    var levels: HpSystem.Line -> bool

    constructor (now: U32, conversion: Ads1232.Conversion, levels: HpSystem.Line -> bool)
      ensures this.now == now && this.conversion == conversion && this.levels == levels
    {
      this.now := now;
      this.conversion := conversion;
      this.levels := levels;
    }

    function Snapshot(): Env
      reads this
    {
      Env(now, conversion, levels)
    }
  }

  class Machine {
    const bus: HpSystem.Bus
    const adc: Ads1232.Adc
    const board: Board
    const ledPin: int
    var current: StateId
    var sampleNumber: nat
    var startTime: U32
    /** The level last written to the LED pin. */
    var led: bool
    /** The sample lines printed so far. */
    var samples: seq<SampleLine>
    /** Every callback made so far. */
    ghost var trace: seq<Callback>

    function Ctx(): Context
      reads this, bus, adc
    {
      Context(sampleNumber, startTime, led, adc.pdwnHigh, adc.sclkHigh, adc.events,
              bus.driven, bus.log, samples)
    }

    function Inputs(): Env
      reads this, board
    {
      board.Snapshot()
    }

    /** The context and the trace. */
    ghost function Observed(): Observation
      reads this, bus, adc
    {
      Observation(Ctx(), trace)
    }

    /** HSM::HSM: start in Init and make its (empty) onEnter and onInit calls. */
    constructor (bus: HpSystem.Bus, adc: Ads1232.Adc, board: Board, ledPin: int)
      modifies adc, bus
      ensures this.bus == bus && this.adc == adc && this.board == board && this.ledPin == ledPin
      ensures current == Init
      ensures trace == [Entered(Init, Init), Initialised(Init, Init)]
      ensures Ctx() == Context(0, 0, false, old(adc.pdwnHigh), old(adc.sclkHigh), old(adc.events),
                               old(bus.driven), old(bus.log), [])
    {
      this.bus := bus;
      this.adc := adc;
      this.board := board;
      this.ledPin := ledPin;
      current := Init;
      sampleNumber := 0;
      startTime := 0;
      led := false;
      samples := [];
      trace := [];
      new;
      ghost var o0 := Observed();
      OnEnter(current);
      ghost var o1 := Observed();
      OnInit(current);
      assert InitCalls(Init) == [Initialised(Init, Init)];
      ReplayOne(o1, Initialised(Init, Init), Inputs());
    }

    /** The onExit override of state s. */
    method OnExit(s: StateId)
      modifies this, adc
      ensures current == old(current)
      ensures Observed() == Replay(old(Observed()), [Exited(s, current)], Inputs())
    {
      ReplayOne(Observed(), Exited(s, current), Inputs());
      trace := trace + [Exited(s, current)];
      if s == Run {
        adc.Disable();
        led := false;
      }
    }

    /** The onEnter override of state s. */
    method OnEnter(s: StateId)
      modifies this, adc
      ensures current == old(current)
      ensures Observed() == Replay(old(Observed()), [Entered(s, current)], Inputs())
    {
      ReplayOne(Observed(), Entered(s, current), Inputs());
      trace := trace + [Entered(s, current)];
      if s == Run {
        adc.Enable();
        adc.OffsetCalibration(board.conversion);
        sampleNumber := 0;
        startTime := board.now;
        led := true;
      }
    }

    /** The onInit override of state s, made while s is current; it may start a further transition. */
    method OnInit(s: StateId)
      requires current == s
      modifies this, adc, bus
      decreases InitRank(s), 0
      ensures current == Settle(s)
      ensures Observed() == Replay(old(Observed()), InitCalls(s), Inputs())
    {
      ghost var o0 := Observed();
      InitAction(s);
      var next := InitRoute(s);
      if next.Some? {
        TransitionTo(next.value);
      }
      ReplayAppend(o0, [Initialised(s, s)], InitCascade(s), Inputs());
    }

    /** What the onInit override of s does before the transition it starts, if any. */
    method InitAction(s: StateId)
      requires current == s
      modifies this, adc, bus
      ensures current == s
      ensures Observed() == Replay(old(Observed()), [Initialised(s, s)], Inputs())
    {
      ReplayOne(Observed(), Initialised(s, s), Inputs());
      trace := trace + [Initialised(s, current)];
      match s {
        case SendStartRequest =>
          bus.StartRequest();
        case Sample =>
          RecordSample();
        case _ =>
      }
    }

    /** The body of Sample.onInit before its transition: count, time, read and print one sample. */
    method RecordSample()
      modifies this, adc
      ensures current == old(current) && trace == old(trace)
      ensures Ctx() == TakeSample(old(Ctx()), Inputs())
    {
      ghost var c0, env := Ctx(), Inputs();
      ghost var line := NextLine(c0, env);
      sampleNumber := sampleNumber + 1;
      var elapsed := Elapsed(board.now, startTime);
      var raw := adc.ReadBlocking(board.conversion);
      var flags := bus.FlagString(board.levels);
      assert flags == line.flags;
      assert SampleLine(sampleNumber, elapsed, raw, flags) == line;
      samples := samples + [SampleLine(sampleNumber, elapsed, raw, flags)];
    }

    /** HSM::transitionTo: exit up to the common ancestor, switch, enter down to the target, init it. */
    method TransitionTo(target: StateId)
      modifies this, adc, bus
      decreases InitRank(target), 1
      ensures current == Settle(target)
      ensures Observed() == Replay(old(Observed()), Cascade(old(current), target), Inputs())
    {
      ghost var o0 := Observed();
      var oldState := current;
      SwitchTo(target);
      OnInit(target);
      ReplayAppend(o0, SwitchCalls(oldState, target), InitCalls(target), Inputs());
    }

    /** transitionTo up to its final onInit: the exits, the switch of the current state, the enters. */
    method SwitchTo(target: StateId)
      modifies this, adc
      ensures current == target
      ensures Observed() == Replay(old(Observed()), SwitchCalls(old(current), target), Inputs())
    {
      ghost var o0 := Observed();
      var oldState := current;
      ExitTowards(target);
      EnterTowards(oldState, target);
      ReplayAppend(o0, ExitCalls(ExitPath(Some(oldState), target), oldState),
                   EnterCalls(EnterPath(oldState, target), target), Inputs());
    }

    /** The middle of transitionTo: make the target current, count, enter the ancestors top-down, then the target. */
    method EnterTowards(oldState: StateId, target: StateId)
      modifies this, adc
      ensures current == target
      ensures Observed() == Replay(old(Observed()), EnterCalls(EnterPath(oldState, target), target), Inputs())
    {
      ghost var o0 := Observed();
      current := target;
      var todo := CountEntries(oldState, target);
      EnterAncestors(target, todo);
      OnEnter(target);
      ReplayAppend(o0, EnterCalls(Entering(target, todo), target), [Entered(target, target)], Inputs());
      EnterCallsSnoc(Entering(target, todo), target, target);
    }

    /** The exit loop of transitionTo: onExit from the current state upwards until a strict ancestor of the target. */
    method ExitTowards(target: StateId)
      modifies this, adc
      ensures current == old(current)
      ensures Observed() == Replay(old(Observed()), ExitCalls(ExitPath(Some(current), target), current), Inputs())
    {
      ghost var o0 := Observed();
      ghost var from := current;
      var cursor := Some(current);
      ghost var exited: seq<StateId> := [];
      while cursor.Some? && !IsDescendantOf(target, cursor.value)
        invariant current == from
        invariant ExitPath(Some(from), target) == exited + ExitPath(cursor, target)
        invariant Observed() == Replay(o0, ExitCalls(exited, from), Inputs())
        decreases Height(cursor)
      {
        OnExit(cursor.value);
        ReplayAppend(o0, ExitCalls(exited, from), [Exited(cursor.value, from)], Inputs());
        assert ExitCalls(exited + [cursor.value], from) == ExitCalls(exited, from) + [Exited(cursor.value, from)];
        exited := exited + [cursor.value];
        cursor := Parent(cursor.value);
      }
      assert exited == ExitPath(Some(from), target);
    }

    /**
     * The counting loop of transitionTo: from the target's parent upwards, count
     * the ancestors of the target met before one of the old state's; todo starts at -1.
     */
    method CountEntries(oldState: StateId, target: StateId) returns (todo: int)
      ensures todo == Todo(oldState, target)
    {
      todo := -1;
      var cursor := Parent(target);
      while cursor.Some? && !IsDescendantOf(oldState, cursor.value)
        invariant todo + NonShared(cursor, oldState) == NonShared(Parent(target), oldState) - 1
        decreases Height(cursor)
      {
        assert NonShared(cursor, oldState) == 1 + NonShared(Parent(cursor.value), oldState);
        todo := todo + 1;
        cursor := Parent(cursor.value);
      }
      assert NonShared(cursor, oldState) == 0;
    }

    /** The entering loop of transitionTo: for i = todo down to 1, enter the target's i-th ancestor. */
    method EnterAncestors(target: StateId, todo: int)
      requires current == target
      requires -1 <= todo <= |Ancestors(target)|
      modifies this, adc
      ensures current == target
      ensures Observed() == Replay(old(Observed()), EnterCalls(Entering(target, todo), target), Inputs())
    {
      ghost var o0 := Observed();
      ghost var entered: seq<StateId> := [];
      var i := todo;
      while i > 0
        invariant -1 <= i <= todo
        invariant current == target
        invariant Entering(target, todo) == entered + Entering(target, i)
        invariant Observed() == Replay(o0, EnterCalls(entered, target), Inputs())
      {
        var a := WalkUp(target, i);
        OnEnter(a);
        ReplayAppend(o0, EnterCalls(entered, target), [Entered(a, target)], Inputs());
        EnterCallsSnoc(entered, a, target);
        entered := entered + [a];
        i := i - 1;
      }
    }

    /** The re-walk inside the entering loop: i parent steps from the target. */
    method WalkUp(target: StateId, i: nat) returns (a: StateId)
      requires 1 <= i <= |Ancestors(target)|
      ensures a == Ancestors(target)[i - 1]
    {
      var cursor := Some(target);
      var j := 0;
      while j < i
        invariant 0 <= j <= i
        invariant cursor == Up(target, j) && cursor.Some?
      {
        UpAncestors(target, j + 1);
        cursor := Parent(cursor.value);
        j := j + 1;
      }
      UpAncestors(target, i);
      a := cursor.value;
    }

    /** The forwarders of hsm.h: hand event e to the current state's handler. */
    method Dispatch(e: Event)
      modifies this, adc, bus
      ensures var r := Step(old(current), old(Ctx()), e, Inputs());
        current == r.state && Ctx() == r.ctx && trace == old(trace) + r.calls
    {
      match Handle(current, e) {
        case Ignore =>
        case Announce =>
        case Goto(t) =>
          ghost var o0, from := Observed(), current;
          TransitionTo(t);
          ReplayMeaning(o0, Cascade(from, t), Inputs());
        case PulseShutdown =>
          bus.SignalShutdown();
        case PulseShutdownThenGoto(t) =>
          bus.SignalShutdown();
          ghost var o1, from := Observed(), current;
          TransitionTo(t);
          ReplayMeaning(o1, Cascade(from, t), Inputs());
      }
    }
  }
}
