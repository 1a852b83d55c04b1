# ArDAQ acquisition core in Dafny

ArDAQ is an Arduino data-acquisition board for an HP 1050 HPLC system. It
reads a 24-bit ADS1232 converter, watches and drives the open-collector
HPSystem synchronisation bus, and prints one line per sample:

- the sample number;
- the time since the run started;
- the raw ADC value;
- a string of bus status flags.

A hierarchical state machine (HSM) sequences the work. It has the states
Init, Idle, SendStartRequest and Run, and Run has the sub-states
WaitForConversion and Sample. Commands arrive over serial and signals arrive
from the bus. A separate, simpler finite state machine library with deferred
transitions is part of the same code base.

The model has eight modules; the eighth, `Wrappers` (wrappers.dfy), only
holds the `Option` type the others share:

- `HsmStates` (hsm_states.dfy) covers the state tree and the transition
  algorithm of `HSM::transitionTo`. The algorithm is given as pure functions
  that return the sequence of `onExit`/`onEnter`/`onInit` callbacks a
  transition makes: `ExitPath`, `Todo`, `EnterPath`, `Cascade`.
- `HsmTransitions` (hsm_transitions.dfy) proves the shape of those callback
  sequences.
- `Hsm` (hsm.dfy) covers the HSM object as a class. Its fields are the
  current state, the sample counter, the run start time, the LED, the printed
  lines and a ghost trace of callbacks. Its methods follow `transitionTo`'s
  three loops one for one. Each method is proved against the specification
  functions: what a callback changes is `Effect`, and a whole transition is
  the fold of `Effect` (and the growth of the trace) over `Cascade`.
- `HsmBehaviour` (hsm_behaviour.dfy) proves what each state does with each
  event, stated on the pure `Step` function that `Machine.Dispatch` is proved
  to implement. This includes the serial commands, the start and end of a
  run, one sample per conversion, and an invariant tying the LED and the ADC
  power to the Run subtree.
- `HpSystem` (hpsystem.dfy) covers the bus. Lines are driven, released and
  pulsed, and reads go through the lines this node drives. The flag string is
  an imperative method proved equal to a function. Lemmas prove the
  function's order, its bound of seven characters, its lack of repeats and
  the presence of each code.
- `Ads1232` (ads1232.dfy) covers the converter's pins, with a log of what is
  done at them in order (power down, power up, the ready-wait, each clock
  pulse), the busy-wait for readiness, and the assembly of three bytes into
  the sample.
- `FiniteStateMachine` (fsm.dfy) covers the deferred-transition FSM: states
  with optional callbacks and a machine that enters, updates and transitions
  on `update`.

Inputs from outside are parameters of the model:

- `millis()`;
- the conversion the ADC delivers, given as the number of busy polls and the
  three bytes;
- the bus line levels set by other modules.

In the HSM these inputs are the fields of a `Board` object.

## Model

| member | source | states |
|---|---|---|
| Ads1232.ReadWaitsForReady | ads1232.cpp:41-51 | A read first waits through exactly the conversion's busy polls until DOUT reads low, and only then pulses the clock, 25 times |
| Ads1232.PulsesAppend | ads1232.cpp:45-51 | Pulse runs concatenate: three bytes of 8 and one more are the 25 pulses of a read |
| Ads1232.DoutLevels | ads1232.cpp:38-44 | The DOUT levels the ready-wait sees: high for exactly `busyPolls` polls, then low (ready) |
| Ads1232.WaitReady | ads1232.cpp:42-44 | The busy-wait stops at the first poll that sees DOUT low; every earlier poll saw it high |
| Ads1232.AssembleValue | ads1232.cpp:54 | `(b1 << 16) \| (b2 << 8) \| b3` is `b1*65536 + b2*256 + b3`, below 2^24: the OR-ed fields do not overlap |
| Ads1232.AssembleRoundTrip | ads1232.cpp:45-54 | Bits 16-23, 8-15 and 0-7 of the sample give back the three bytes read, and bits 24-31 are zero |
| Ads1232.Adc.constructor | ads1232.cpp:6-10 | The three pins are stored; nothing has been done at them yet |
| Ads1232.Adc.Init | ads1232.cpp:12-19 | Clock low; a power cycle (down, then up), then the calibration's ready-wait and pulses, in that order; the converter ends powered |
| Ads1232.Adc.Reset | ads1232.cpp:21-25 | A power-down followed by a power-up is recorded, and the converter is left powered; the clock is untouched |
| Ads1232.Adc.Enable | ads1232.cpp:26-28 | PDWN high, recorded as a power-up; nothing else changes |
| Ads1232.Adc.Disable | ads1232.cpp:29-31 | PDWN low, recorded as a power-down; nothing else changes |
| Ads1232.Adc.ClockPulse | ads1232.cpp:50-51 | SCLK goes high then low: one pulse recorded, clock left low |
| Ads1232.Adc.ShiftIn | ads1232.cpp:45 | One byte is delivered by exactly eight recorded clock pulses, with the clock left low |
| Ads1232.Adc.ReadBlocking | ads1232.cpp:41-55 | Returns the assembled 24-bit sample of the three bytes, MSB first. At the pins: the ready-wait over the conversion's busy polls, then 3*8+1 clock pulses. Power unchanged |
| Ads1232.Adc.OffsetCalibration | ads1232.cpp:32-37 | A full read (ready-wait and 25 pulses) plus exactly one extra clock pulse |
| FiniteStateMachine.Invoked | FiniteStateMachine.cpp:19-33 | A null callback runs nothing; otherwise exactly that function runs, once |
| FiniteStateMachine.State.Empty | FiniteStateMachine.cpp:4-8 | No callbacks |
| FiniteStateMachine.State.WithUpdate | FiniteStateMachine.cpp:9-13 | Only the update callback is set |
| FiniteStateMachine.State.constructor | FiniteStateMachine.cpp:14-18 | All three callbacks are set as given |
| FiniteStateMachine.State.Enter | FiniteStateMachine.cpp:19-23 | The log grows by the enter callback if there is one, else not at all |
| FiniteStateMachine.State.Update | FiniteStateMachine.cpp:24-28 | The log grows by the update callback if there is one |
| FiniteStateMachine.State.Exit | FiniteStateMachine.cpp:29-33 | The log grows by the exit callback if there is one |
| FiniteStateMachine.Machine.constructor | FiniteStateMachine.cpp:39-42 | Current and next state are the initial state, and its enter is still due |
| FiniteStateMachine.Machine.Update | FiniteStateMachine.cpp:43-56 | First call: only the initial state's enter runs. Later calls with a pending target: old exit, new enter, new update, and the target becomes current. Otherwise: only the current update runs |
| FiniteStateMachine.Machine.TransitionTo | FiniteStateMachine.cpp:57-60 | Only records the target; the current state does not change and no callback runs |
| FiniteStateMachine.Machine.ImmediateTransitionTo | FiniteStateMachine.cpp:61-66 | Exit of the old state, then enter of the new one (also for a self-transition); current and next are the new state |
| FiniteStateMachine.Machine.CurrentState | FiniteStateMachine.cpp:67-72 | The state returned is the one `isInState` reports as current |
| FiniteStateMachine.LastRequestWins | FiniteStateMachine.cpp:57-60 | Of two requests before an update the second wins; no callback runs and the current state does not change |
| HpSystem.DrivenReadsLow | hpsystem.cpp:38-42 | Once this node drives a line, it reads low whatever the bus level; every other line reads as before |
| HpSystem.ReleasedReadsBus | hpsystem.cpp:43-46 | Once this node releases a line, it reads the bus level; every other line reads as before |
| HpSystem.FlagsFold | hpsystem.cpp:76-104 | The flag string is the codes of the reported lines, taken in the fixed order POWERON, SHUTDOWN, READY, STARTREQ, PREPARERUN, START, STOP |
| HpSystem.FlagsInOrder | hpsystem.cpp:76-104 | At most seven codes, so the string fits the 8-byte buffer with its NUL; a subsequence of "PXNrpbe" |
| HpSystem.FlagsNoRepeats | hpsystem.cpp:76-104 | No code appears twice |
| HpSystem.FlagPresence | hpsystem.cpp:80-101 | For every line: its code appears iff the line is reported ('P' when POWERON reads high, the others when their line reads low) |
| HpSystem.AllHighIsP | hpsystem.cpp:76-104 | With every line high the flag string is exactly "P" |
| HpSystem.ShutdownFlagged | hpsystem.cpp:83-85 | SHUTDOWN reads low iff 'X' is in the flag string |
| HpSystem.Bus.constructor | hpsystem.cpp:11-26 | The seven pins are stored, and every pin is an input, so no line is driven and the empty log explains the driven set |
| HpSystem.Bus.LinePinInjective | hpsystem.cpp:27-37 | When the seven configured pins are distinct, `get_line_pin` maps different lines to different pins |
| HpSystem.Bus.AssertLine | hpsystem.cpp:38-42 | The line joins the driven set and a Drive action is logged; afterwards `read_line` of it is low for every bus level, and every other line reads as before. The driven set stays the one the log explains |
| HpSystem.Bus.ReleaseLine | hpsystem.cpp:43-46 | The line leaves the driven set and a Release action is logged; afterwards `read_line` of it gives the bus level, and every other line reads as before. The driven set stays the one the log explains |
| HpSystem.Bus.SetLine | hpsystem.cpp:47-53 | true acts as assert_line and false as release_line, with the same effects; the line then reads low if set, the bus level if not, and the other lines are unchanged. The driven set stays the one the log explains |
| HpSystem.Bus.PulseLine | hpsystem.cpp:54-58 | Drive, wait `duration`, release are logged; the line ends released, reading the bus level, and the other lines read as before. The driven set stays the one the log explains |
| HpSystem.Bus.StartRequest | hpsystem.cpp:64-66 | A 150 ms pulse on STARTREQ, after which it reads the bus level; no other line's reading changes. The driven set stays the one the log explains |
| HpSystem.Bus.SignalShutdown | hpsystem.cpp:68-70 | A 150 ms pulse on SHUTDOWN, after which it reads the bus level; no other line's reading changes. The driven set stays the one the log explains |
| HpSystem.ReadAfterActions | hpsystem.cpp:38-62 | After any list of assert, wait and release actions, a line reads low if it was last asserted, the bus level if it was last released, and as before if the list leaves it alone |
| HpSystem.Bus.ReadLineFollowsLog | hpsystem.cpp:38-62 | On a bus whose driven lines are the ones its action log leaves driven, read_line is low exactly for a line this node last asserted, and otherwise gives the bus level |
| HpSystem.Bus.IsShutdown | hpsystem.cpp:71-73 | True iff 'X' is in the flag string of the current readings |
| HpSystem.Bus.FlagString | hpsystem.cpp:76-104 | The characters written before the NUL are the flag string of the effective line levels |
| HsmStates.DescendantIffReachable | hsm.cpp:48-54 | `isDescendantOf(s, a)` holds iff `a` is reached after one or more parent steps from `s` |
| HsmStates.DescendantIffAncestor | hsm.cpp:48-54 | `isDescendantOf(s, a)` holds iff `a` is a strict ancestor of `s` |
| HsmStates.DescendantIsDeeper | hsm.cpp:48-54 | An ancestor is strictly higher in the tree |
| HsmStates.NotOwnDescendant | hsm.cpp:48-54 | No state is its own descendant, so the walk does not count `s` itself |
| HsmStates.TreeShape | hsm.h:64-67 | Sample and WaitForConversion are exactly the states with a parent, which is Run, a root; no state has more than one ancestor |
| HsmStates.UpAncestors | hsm.cpp:38-41 | The re-walk of k parent steps lands on the k-th strict ancestor |
| HsmStates.Todo | hsm.cpp:33-36 | The count left by the counting loop is at least -1 and below the number of ancestors, so the re-walk never runs off the tree |
| HsmStates.Entering | hsm.cpp:37-43 | The entering loop visits `todo` ancestors, none when `todo` is not positive |
| HsmStates.InitRoute | hsm.cpp:140-142 | Every transition that an onInit starts goes to a state of lower rank, so nested transitions end |
| HsmTransitions.ExitPathShape | hsm.cpp:25-27 | The exit loop visits a prefix of the current state's chain of ancestors. Nothing it visits has the target below it, and it stops exactly at the first one that does |
| HsmTransitions.ExitStartsAtCurrent | hsm.cpp:25-27 | The first exit is the current state unless the target lies below it, in which case nothing is exited |
| HsmTransitions.NonSharedIsFresh | hsm.cpp:33-36 | The counting loop counts exactly the target's ancestors that are not ancestors of the old state |
| HsmTransitions.EnterPathShape | hsm.cpp:33-44 | The enter phase enters the fresh ancestors less one (todo starts at -1), top-down, then the target |
| HsmTransitions.EnteringTopDown | hsm.cpp:37-43 | The entering loop goes from the highest selected ancestor down |
| HsmTransitions.EnterOnlyTarget | hsm.cpp:33-44 | In this tree every transition enters only its target |
| HsmTransitions.IdleToWaitSkipsRun | hsm.cpp:33-44 | Run is a fresh ancestor of WaitForConversion, yet a transition from Idle into WaitForConversion would not enter Run |
| HsmTransitions.TransitionCallsOrder | hsm.cpp:24-47 | One transition makes the exits with the old state current, then the target's enter, then its onInit, in that order |
| HsmTransitions.SelfTransition | hsm.cpp:24-47 | A self-transition exits, enters and initialises the state again |
| HsmTransitions.RunInitStaysInRun | hsm.cpp:140-142 | Run's onInit moves into WaitForConversion without leaving or re-entering Run |
| HsmTransitions.LeaveRun | hsm.cpp:24-47 | From a child of Run to a root: exit the child, exit Run, enter and initialise the target |
| HsmTransitions.RootToRoot | hsm.cpp:24-47 | Between roots: exit the old one, enter and initialise the new one |
| HsmTransitions.Sibling | hsm.cpp:24-47 | Between children of Run: exit one, enter and initialise the other; Run is untouched |
| HsmTransitions.SettleIsStable | hsm.cpp:118-122 | The cascade of onInit transitions ends in a state whose onInit starts none. SendStartRequest ends in Idle, Run and Sample end in WaitForConversion |
| Hsm.ToLower | hsm.cpp:92 | ASCII capitals map to lower case and nothing else changes, so no capital comes out |
| Hsm.WrappingElapsed | hsm.cpp:192 | `millis() - startTime` in uint32_t is the true elapsed time, also across one overflow of the clock |
| Hsm.NextLineValues | hsm.cpp:190-206 | The printed line holds the wrapped elapsed time and the 24-bit conversion value |
| Hsm.ReplayMeaning | hsm.cpp:24-47 | Replaying callbacks appends them to the trace and applies their effects to the context |
| Hsm.Machine.constructor | hsm.cpp:15-23 | The machine starts in Init after Init's onEnter and onInit, with nothing printed; the ADC and the bus are as they were |
| Hsm.Machine.OnExit | hsm.cpp:134-139 | The callback is recorded. Only Run's onExit acts: the ADC is powered down and the LED turned off |
| Hsm.Machine.OnEnter | hsm.cpp:125-133 | The callback is recorded. Only Run's onEnter acts: ADC enabled and calibrated, counter 0, start time from millis(), LED on |
| Hsm.Machine.OnInit | hsm.cpp:140-142 | The onInit of the current state and any transition it starts: the machine settles in `Settle(s)` with the callbacks of `InitCalls(s)` made |
| Hsm.Machine.InitAction | hsm.cpp:118-122 | The onInit callback is recorded. SendStartRequest pulses STARTREQ, Sample takes a sample, the others do nothing |
| Hsm.Machine.RecordSample | hsm.cpp:190-211 | Counter incremented, the line with the elapsed time, the ADC value and the flag string printed, and at the ADC the ready-wait followed by 25 clock pulses |
| Hsm.Machine.TransitionTo | hsm.cpp:24-47 | The machine settles in `Settle(target)`, having made exactly the callbacks of `Cascade(old state, target)` with their effects |
| Hsm.Machine.SwitchTo | hsm.cpp:25-44 | The exits, the switch and the enters: the target is current and the `SwitchCalls` callbacks are made |
| Hsm.Machine.ExitTowards | hsm.cpp:25-27 | The exit loop makes the onExit calls of `ExitPath`, in order |
| Hsm.Machine.CountEntries | hsm.cpp:33-36 | The counting loop leaves `todo == Todo(old state, target)` |
| Hsm.Machine.EnterAncestors | hsm.cpp:37-43 | The entering loop makes the onEnter calls of `Entering(target, todo)`, in order |
| Hsm.Machine.EnterTowards | hsm.cpp:29-44 | Switch the current state, count, enter the ancestors, then the target: the onEnter calls of `EnterPath` |
| Hsm.Machine.WalkUp | hsm.cpp:38-41 | i parent steps from the target reach its i-th strict ancestor |
| Hsm.Machine.Dispatch | hsm.h:88-97 | Forwarding an event ends in the state, context and callbacks that `Step` gives |
| HsmBehaviour.NeutralEffect | hsm.cpp:173-189 | A callback that only prints leaves everything else unchanged |
| HsmBehaviour.CascadeInitToIdle | hsm.cpp:73-76 | Init to Idle: exit Init, enter and initialise Idle |
| HsmBehaviour.CascadeStartRun | hsm.cpp:86-89 | Idle to Run: exit Idle, enter and initialise Run, then enter and initialise WaitForConversion |
| HsmBehaviour.CascadeStartRequest | hsm.cpp:118-122 | Idle to SendStartRequest and straight back to Idle, with each callback in order |
| HsmBehaviour.CascadeSample | hsm.cpp:179-181 | WaitForConversion to Sample and back to WaitForConversion, with each callback in order |
| HsmBehaviour.CascadeStopRun | hsm.cpp:143-146 | Leaving the Run subtree for Idle exits the current state, then Run |
| HsmBehaviour.StartRunStep | hsm.cpp:125-133 | Starting a run ends in WaitForConversion with counter 0, start time now, LED on and ADC powered |
| HsmBehaviour.StopRunStep | hsm.cpp:134-146 | Stopping from anywhere in the Run subtree ends in Idle with the ADC powered down and the LED off; counter and samples kept |
| HsmBehaviour.SampleRoute | hsm.cpp:179-181 | A data-ready event in WaitForConversion goes through Sample and back to WaitForConversion |
| HsmBehaviour.SampleStep | hsm.cpp:190-213 | A data-ready event in WaitForConversion takes exactly one sample |
| HsmBehaviour.WaitOnReady | hsm.cpp:179-181 | WaitForConversion answers data-ready with a transition to Sample |
| HsmBehaviour.SampleGo | hsm.cpp:190-213 | The transition to Sample changes the context only by taking one sample |
| HsmBehaviour.SampleCounts | hsm.cpp:190-193 | The sample is numbered one past the last, and read after the ready-wait and 25 pulses; the start time, LED, ADC power and bus are unchanged |
| HsmBehaviour.FirstSampleIsOne | hsm.cpp:190-192 | The first sample after a start is numbered 1 and timed from the start of the run |
| HsmBehaviour.StartRequestStep | hsm.cpp:118-122 | A start request pulses STARTREQ and returns to Idle |
| HsmBehaviour.IdleSerial | hsm.cpp:90-103 | In Idle, 's' starts a run, 'r' sends a start request and 'x' pulses SHUTDOWN. Any other character does nothing. Case is ignored |
| HsmBehaviour.RunSerial | hsm.cpp:147-158 | In the Run subtree, 's' stops the run and 'x' pulses SHUTDOWN then stops it. Any other character does nothing |
| HsmBehaviour.SerialCaseInsensitive | hsm.cpp:92 | Every state treats a character and its lower case alike |
| HsmBehaviour.SampleActsAsRun | hsm.h:64-71 | Sample inherits all of Run's handlers |
| HsmBehaviour.WaitActsAsRun | hsm.cpp:179-181 | WaitForConversion adds the data-ready handler to Run's, which has none |
| HsmBehaviour.DefaultIsNoop | hsm.h:20-33 | An event without an override runs State's empty handler: nothing happens |
| HsmBehaviour.InitStep | hsm.cpp:73-76 | Init reacts only to InitDone, which moves to Idle and changes no context |
| HsmBehaviour.AnnouncementsOnlyPrint | hsm.cpp:104-115 | Ready/not-ready/power announcements only print |
| HsmBehaviour.StepPreservesConsistency | hsm.cpp:125-139 | Every event keeps the LED on exactly within the Run subtree and the ADC powered there |
| HsmBehaviour.IdlePreserves | hsm.cpp:79-115 | The same invariant, for each event handled in Idle |
| HsmBehaviour.WaitPreserves | hsm.cpp:143-181 | The same invariant, for each event handled in WaitForConversion |

## Left out

- Serial output, the RTC timestamp and the debug/message printing are not modelled. A printed sample is kept as a `SampleLine` value.
- Serial input is not modelled as a stream. The character `Serial.read()` returns is carried by the `SerialAvailable` event.
- Hsm.NextLineValues: the elapsed time is kept in milliseconds. The source prints it as floating-point minutes (`/(1000.0*60)` with four decimals), and floating point is not modelled.
- Hsm.Machine.OnEnter, Hsm.Machine.OnExit: the callback trace records the state current at the call. The source passes the old state to onEnter/onInit and the new state to onExit. No override reads that argument.
- Hsm.Machine.constructor: the sample counter and start time are taken as 0 and the LED as off. hsm.cpp:15-23 does not set them; a zero-initialised global machine object is assumed.
- The SendStartRequest class declaration is not part of this model. It is taken to derive from State directly, as a root, with only onInit overridden.
- HpSystem.Bus.StartRequest, HpSystem.Bus.SignalShutdown: the driven set is kept per line, which assumes the seven configured pins are distinct (`LinePinInjective`). With two lines on one pin the source would make asserting one read the other low too; the model's "no other line's reading changes" holds only for distinct pins.
- Hsm.Machine: `sampleNumber` is an unbounded `nat`. Its C++ declaration is in a header that is not part of this model, so its width and overflow are not modelled.
- Hsm.Machine.CountEntries: `todo` is an `int8_t` in the source. The tree has at most one ancestor per state, so it never leaves the range -1..1 and its width is not modelled.
- The Shutdown state (hsm.h:74-77) has no instance in hsm.cpp and nothing transitions to it, so it is not a state of the model.
- The WaitForConversion class declaration is not part of this model. It is taken to derive from Run, with parent Run as hsm.cpp:172 says, and to have an empty onInit. If it inherited Run's onInit, entering it would restart the transition to itself forever.
- `onUpdate`, declared for Idle, Run and Sample in hsm.h, and `onSignalStartRequest`, declared for Idle, are defined nowhere. They are treated as the empty defaults. The `Update` event reaches no code.
- The forwarders for `onSerialAvailable`, `onSignalReady` and `onSignalPowerOn` are missing from hsm.h, so they are taken to behave like the other forwarders.
- The state-machine library only records the callbacks that `State` runs. Their bodies are code outside this library and are not modelled.
- FiniteStateMachine.Machine.Update, FiniteStateMachine.Machine.ImmediateTransitionTo: callbacks are taken not to call `transitionTo` or `immediateTransitionTo` on the machine. The clauses about the current and next state hold only for such callbacks. A callback that requests a transition leaves a different next state, and one that transitions immediately also changes the current state and runs further exit and enter callbacks.
- Pin modes and `pinMode` setup and the `delay` of a bus pulse are left out. A pulse is logged as a `Wait` action instead.
- HpSystem.Bus.FlagString: the source returns the address of a local array. The model returns the characters before the NUL as a string value.
- Ads1232.Adc.ShiftIn: the bit-level timing of Arduino's `shiftIn` is not modelled. Its eight clock pulses deliver the byte given by the conversion.
- Ads1232.WaitReady: the busy-wait is modelled on a finite list of DOUT levels that ends low, so waiting forever for a converter that never becomes ready is not modelled.
