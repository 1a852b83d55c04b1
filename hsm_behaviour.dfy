/**
 * What the acquisition states of hsm.cpp do with each event, stated on Step:
 * the serial commands, the start and end of a run, one sample per ADC-ready
 * event, the inherited and the default handlers, and an invariant tying the
 * LED and the ADC power to the Run subtree.
 */
module HsmBehaviour {
  import opened Wrappers
  import opened HsmStates
  import opened HsmTransitions
  import opened Hsm
  import HpSystem
  import Ads1232

  /** The callbacks whose handlers only print (or are the empty defaults). */
  predicate Neutral(cb: Callback)
  {
    match cb
    case Entered(Run, _) => false
    case Exited(Run, _) => false
    case Initialised(SendStartRequest, _) => false
    case Initialised(Sample, _) => false
    case _ => true
  }

  lemma NeutralEffect(c: Context, cb: Callback, env: Env)
    requires Neutral(cb)
    ensures Effect(c, cb, env) == c
  {
  }

  /** Callbacks that only print leave the context as it is. */
  lemma {:induction false} ApplyNeutral(c: Context, calls: seq<Callback>, env: Env)
    requires forall i :: 0 <= i < |calls| ==> Neutral(calls[i])
    ensures Apply(c, calls, env) == c
    decreases |calls|
  {
    if calls != [] {
      assert Neutral(calls[0]);
      NeutralEffect(c, calls[0], env);
      ApplyNeutral(Effect(c, calls[0], env), calls[1..], env);
    }
  }

  /** Among callbacks that only print, one that acts decides the whole effect. */
  lemma ApplySingleEffect(c: Context, before: seq<Callback>, x: Callback, after: seq<Callback>, env: Env)
    requires forall i :: 0 <= i < |before| ==> Neutral(before[i])
    requires forall i :: 0 <= i < |after| ==> Neutral(after[i])
    ensures Apply(c, before + [x] + after, env) == Effect(c, x, env)
  {
    assert before + [x] + after == (before + [x]) + after;
    ApplyAppend(c, before + [x], after, env);
    ApplySnoc(c, before, x, env);
    ApplyNeutral(c, before, env);
    ApplyNeutral(Effect(c, x, env), after, env);
  }

  // ---------------------------------------------------------------------------
  // The cascades that the handlers start

  lemma CascadeInitToIdle()
    ensures Cascade(Init, Idle) == [Exited(Init, Init), Entered(Idle, Idle), Initialised(Idle, Idle)]
  {
    RootToRoot(Init, Idle);
  }

  lemma CascadeStartRun()
    ensures Cascade(Idle, Run) == [Exited(Idle, Idle), Entered(Run, Run), Initialised(Run, Run),
                                   Entered(WaitForConversion, WaitForConversion), Initialised(WaitForConversion, WaitForConversion)]
  {
    RootToRoot(Idle, Run);
    RunInitStaysInRun();
  }

  lemma CascadeStartRequest()
    ensures Cascade(Idle, SendStartRequest) == [Exited(Idle, Idle), Entered(SendStartRequest, SendStartRequest), Initialised(SendStartRequest, SendStartRequest),
                                                Exited(SendStartRequest, SendStartRequest), Entered(Idle, Idle), Initialised(Idle, Idle)]
  {
    RootToRoot(Idle, SendStartRequest);
    RootToRoot(SendStartRequest, Idle);
  }

  lemma CascadeSample()
    ensures Cascade(WaitForConversion, Sample) == [Exited(WaitForConversion, WaitForConversion), Entered(Sample, Sample), Initialised(Sample, Sample),
                                                   Exited(Sample, Sample), Entered(WaitForConversion, WaitForConversion), Initialised(WaitForConversion, WaitForConversion)]
  {
    Sibling(WaitForConversion, Sample);
    Sibling(Sample, WaitForConversion);
  }

  /** Leaving the Run subtree for Idle. */
  lemma CascadeStopRun(s: StateId)
    requires InRun(s)
    ensures s == Run ==> Cascade(s, Idle) == [Exited(Run, Run), Entered(Idle, Idle), Initialised(Idle, Idle)]
    ensures s != Run ==> Cascade(s, Idle) == [Exited(s, s), Exited(Run, s), Entered(Idle, Idle), Initialised(Idle, Idle)]
  {
    if s == Run {
      RootToRoot(Run, Idle);
    } else {
      LeaveRun(s, Idle);
    }
  }

  // ---------------------------------------------------------------------------
  // Events

  /** The states of the Run subtree. */
  predicate InRun(s: StateId)
  {
    s == Run || IsDescendantOf(s, Run)
  }

  /** Starting a run: Run is entered (counter 0, clock restarted, ADC on, LED on) and the machine waits for a conversion. */
  lemma StartRunStep(c: Context, env: Env)
    ensures var r := Go(Idle, c, Run, env);
      && r.state == WaitForConversion
      && r.calls == [Exited(Idle, Idle), Entered(Run, Run), Initialised(Run, Run),
                     Entered(WaitForConversion, WaitForConversion), Initialised(WaitForConversion, WaitForConversion)]
      && r.ctx == StartRun(c, env)
      && r.ctx.sampleNumber == 0 && r.ctx.startTime == env.now && r.ctx.led && r.ctx.adcPowered
  {
    CascadeStartRun();
    var before := [Exited(Idle, Idle)];
    var after := [Initialised(Run, Run), Entered(WaitForConversion, WaitForConversion), Initialised(WaitForConversion, WaitForConversion)];
    assert Cascade(Idle, Run) == before + [Entered(Run, Run)] + after;
    ApplySingleEffect(c, before, Entered(Run, Run), after, env);
  }

  /** Stopping a run from anywhere in the Run subtree: the ADC is powered down, the LED goes off, the machine is Idle. */
  lemma StopRunStep(s: StateId, c: Context, env: Env)
    requires InRun(s)
    ensures var r := Go(s, c, Idle, env);
      && r.state == Idle
      && r.ctx == EndRun(c)
      && !r.ctx.adcPowered && !r.ctx.led
      && r.ctx.sampleNumber == c.sampleNumber && r.ctx.samples == c.samples
  {
    CascadeStopRun(s);
    var after := [Entered(Idle, Idle), Initialised(Idle, Idle)];
    if s == Run {
      assert Cascade(s, Idle) == [] + [Exited(Run, Run)] + after;
      ApplySingleEffect(c, [], Exited(Run, Run), after, env);
    } else {
      assert Cascade(s, Idle) == [Exited(s, s)] + [Exited(Run, s)] + after;
      ApplySingleEffect(c, [Exited(s, s)], Exited(Run, s), after, env);
    }
  }

  /** One ADC-ready event in WaitForConversion goes through Sample and waits again. */
  lemma SampleRoute(c: Context, env: Env)
    ensures var r := Step(WaitForConversion, c, AdcDataReady, env);
      && r.state == WaitForConversion
      && r.calls == [Exited(WaitForConversion, WaitForConversion), Entered(Sample, Sample), Initialised(Sample, Sample),
                     Exited(Sample, Sample), Entered(WaitForConversion, WaitForConversion), Initialised(WaitForConversion, WaitForConversion)]
  {
    CascadeSample();
  }

  /** One ADC-ready event in WaitForConversion takes exactly one sample. */
  lemma SampleStep(c: Context, env: Env)
    ensures Step(WaitForConversion, c, AdcDataReady, env).ctx == TakeSample(c, env)
  {
    WaitOnReady(c, env);
    SampleGo(c, env);
  }

  /** WaitForConversion reacts to a data-ready event by a transition to Sample. */
  lemma WaitOnReady(c: Context, env: Env)
    ensures Step(WaitForConversion, c, AdcDataReady, env) == Go(WaitForConversion, c, Sample, env)
  {
  }

  lemma SampleGo(c: Context, env: Env)
    ensures Go(WaitForConversion, c, Sample, env).ctx == TakeSample(c, env)
  {
    SampleEffect(c, env);
  }

  lemma SampleEffect(c: Context, env: Env)
    ensures Apply(c, Cascade(WaitForConversion, Sample), env) == Effect(c, Initialised(Sample, Sample), env)
  {
    CascadeSample();
    var before := [Exited(WaitForConversion, WaitForConversion), Entered(Sample, Sample)];
    var after := [Exited(Sample, Sample), Entered(WaitForConversion, WaitForConversion), Initialised(WaitForConversion, WaitForConversion)];
    assert Cascade(WaitForConversion, Sample) == before + [Initialised(Sample, Sample)] + after;
    ApplySingleEffect(c, before, Initialised(Sample, Sample), after, env);
  }

  /** The sample an ADC-ready event takes: numbered one past the last, read after the ready-wait, nothing else about the run changes. */
  lemma SampleCounts(c: Context, env: Env)
    ensures var r := Step(WaitForConversion, c, AdcDataReady, env);
      && r.ctx.sampleNumber == c.sampleNumber + 1
      && r.ctx.samples == c.samples + [NextLine(c, env)]
      && r.ctx.startTime == c.startTime && r.ctx.led == c.led && r.ctx.adcPowered == c.adcPowered
      && r.ctx.busDriven == c.busDriven && r.ctx.busLog == c.busLog
      && r.ctx.adcEvents == c.adcEvents + Ads1232.ReadEvents(env.conversion)
  {
    SampleStep(c, env);
  }

  /** The first sample after a run starts is numbered 1 and timed from the start of the run. */
  lemma FirstSampleIsOne(c: Context, start: Env, ready: Env)
    ensures var r1 := Step(Idle, c, SignalStart, start);
      var r2 := Step(r1.state, r1.ctx, AdcDataReady, ready);
      && r2.state == WaitForConversion
      && r2.ctx.samples == c.samples + [NextLine(r1.ctx, ready)]
      && NextLine(r1.ctx, ready).number == 1
      && NextLine(r1.ctx, ready).elapsed == Elapsed(ready.now, start.now)
  {
    var r1 := Step(Idle, c, SignalStart, start);
    assert r1.state == WaitForConversion && r1.ctx == StartRun(c, start) by {
      StartRunStep(c, start);
    }
    assert Step(r1.state, r1.ctx, AdcDataReady, ready).ctx == TakeSample(r1.ctx, ready)
        && Step(r1.state, r1.ctx, AdcDataReady, ready).state == WaitForConversion by {
      SampleStep(r1.ctx, ready);
      SampleRoute(r1.ctx, ready);
    }
  }

  /** Sending a start request: pulse the STARTREQ line, then back to Idle. */
  lemma StartRequestStep(c: Context, env: Env)
    ensures var r := Go(Idle, c, SendStartRequest, env);
      && r.state == Idle
      && r.ctx == PulseOut(c, HpSystem.StartReq)
  {
    CascadeStartRequest();
    var before := [Exited(Idle, Idle), Entered(SendStartRequest, SendStartRequest)];
    var after := [Exited(SendStartRequest, SendStartRequest), Entered(Idle, Idle), Initialised(Idle, Idle)];
    assert Cascade(Idle, SendStartRequest) == before + [Initialised(SendStartRequest, SendStartRequest)] + after;
    ApplySingleEffect(c, before, Initialised(SendStartRequest, SendStartRequest), after, env);
  }

  /** Idle's serial commands, in either case. */
  lemma IdleSerial(ch: char, c: Context, env: Env)
    ensures var r := Step(Idle, c, SerialAvailable(ch), env);
      && (ToLower(ch) == 's' ==> r.state == WaitForConversion && r.ctx == StartRun(c, env))
      && (ToLower(ch) == 'r' ==> r.state == Idle && r.ctx == PulseOut(c, HpSystem.StartReq))
      && (ToLower(ch) == 'x' ==> r == Config(Idle, PulseOut(c, HpSystem.Shutdown), []))
      && (ToLower(ch) !in {'s', 'r', 'x'} ==> r == Config(Idle, c, []))
  {
    match ToLower(ch)
    case 's' =>
      StartRunStep(c, env);
    case 'r' =>
      StartRequestStep(c, env);
    case _ =>
  }

  /** Run's serial commands, which every state of the Run subtree inherits. */
  lemma RunSerial(s: StateId, ch: char, c: Context, env: Env)
    requires InRun(s)
    ensures var r := Step(s, c, SerialAvailable(ch), env);
      && (ToLower(ch) == 's' ==> r.state == Idle && r.ctx == EndRun(c))
      && (ToLower(ch) == 'x' ==> r.state == Idle && r.ctx == EndRun(PulseOut(c, HpSystem.Shutdown)))
      && (ToLower(ch) !in {'s', 'x'} ==> r == Config(s, c, []))
  {
    assert Handle(s, SerialAvailable(ch)) == RunCommand(ch);
    match ToLower(ch)
    case 's' =>
      StopRunStep(s, c, env);
    case 'x' =>
      StopRunStep(s, PulseOut(c, HpSystem.Shutdown), env);
    case _ =>
  }

  /** Serial commands are case-insensitive in every state. */
  lemma SerialCaseInsensitive(s: StateId, ch: char)
    ensures Handle(s, SerialAvailable(ch)) == Handle(s, SerialAvailable(ToLower(ch)))
  {
    assert ToLower(ToLower(ch)) == ToLower(ch);
  }

  /** Sample defines no event handler of its own, so it reacts to every event as Run does. */
  lemma SampleActsAsRun(e: Event)
    ensures Handle(Sample, e) == Handle(Run, e)
  {
  }

  /** WaitForConversion adds the ADC-ready handler to Run's. */
  lemma WaitActsAsRun(e: Event)
    ensures e != AdcDataReady ==> Handle(WaitForConversion, e) == Handle(Run, e)
    ensures Handle(WaitForConversion, AdcDataReady) == Goto(Sample)
    ensures Handle(Run, AdcDataReady) == Ignore
  {
  }

  /** An event nobody overrides runs State's empty handler: nothing changes and no callback is made. */
  lemma DefaultIsNoop(s: StateId, c: Context, e: Event, env: Env)
    requires OwnHandler(s, e).None?
    requires BaseClass(s).None? || OwnHandler(BaseClass(s).value, e).None?
    ensures Step(s, c, e, env) == Config(s, c, [])
  {
  }

  /** Init reacts to nothing but InitDone, which moves to Idle without touching the context. */
  lemma InitStep(c: Context, e: Event, env: Env)
    ensures e != InitDone ==> Step(Init, c, e, env) == Config(Init, c, [])
    ensures Step(Init, c, InitDone, env) == Config(Idle, c, Cascade(Init, Idle))
  {
    CascadeInitToIdle();
    ApplyNeutral(c, Cascade(Init, Idle), env);
  }

  /** Status announcements only print. */
  lemma AnnouncementsOnlyPrint(s: StateId, c: Context, e: Event, env: Env)
    requires IsAnnouncement(e)
    ensures Step(s, c, e, env) == Config(s, c, [])
  {
  }

  // ---------------------------------------------------------------------------
  // An invariant across events

  /** A state the machine can rest in between events: its onInit starts no transition. */
  predicate Resting(s: StateId)
  {
    InitRoute(s).None?
  }

  /** The LED is on exactly during a run, and the ADC is powered during a run. */
  predicate Consistent(s: StateId, c: Context)
  {
    (InRun(s) <==> c.led) && (InRun(s) ==> c.adcPowered)
  }

  /** Every event takes a resting, consistent machine to a resting, consistent machine. */
  lemma StepPreservesConsistency(s: StateId, c: Context, e: Event, env: Env)
    requires Resting(s) && Consistent(s, c)
    ensures var r := Step(s, c, e, env);
      Resting(r.state) && Consistent(r.state, r.ctx)
  {
    if s == Init {
      InitStep(c, e, env);
    } else if s == Idle {
      IdlePreserves(c, e, env);
    } else {
      WaitPreserves(c, e, env);
    }
  }

  lemma IdlePreserves(c: Context, e: Event, env: Env)
    requires Consistent(Idle, c)
    ensures var r := Step(Idle, c, e, env);
      Resting(r.state) && Consistent(r.state, r.ctx)
  {
    if e == SignalStart {
      assert Step(Idle, c, e, env) == Go(Idle, c, Run, env);
      StartRunStep(c, env);
    } else if e.SerialAvailable? {
      IdleSerial(e.byte, c, env);
    } else if IsAnnouncement(e) {
      AnnouncementsOnlyPrint(Idle, c, e, env);
    } else {
      DefaultIsNoop(Idle, c, e, env);
    }
  }

  lemma WaitPreserves(c: Context, e: Event, env: Env)
    requires Consistent(WaitForConversion, c)
    ensures var r := Step(WaitForConversion, c, e, env);
      Resting(r.state) && Consistent(r.state, r.ctx)
  {
    if e == SignalStop {
      StopRunStep(WaitForConversion, c, env);
    } else if e.SerialAvailable? {
      RunSerial(WaitForConversion, e.byte, c, env);
    } else if e == AdcDataReady {
      SampleStep(c, env);
      SampleRoute(c, env);
    } else if IsAnnouncement(e) {
      AnnouncementsOnlyPrint(WaitForConversion, c, e, env);
    } else {
      DefaultIsNoop(WaitForConversion, c, e, env);
    }
  }
}
