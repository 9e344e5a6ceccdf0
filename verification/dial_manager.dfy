/** `DialManager::run`: configure one dial, then show its metric on it over
    and over, pausing while the `running` flag is down.

    The run is described twice. `Plan` lists the steps the manager sets out
    to take, given where the `running` flag stood and what the sensors said
    on each loop iteration; `Execute` carries the steps out against a
    device until one of them fails. `RunDialManager` is the loop itself,
    proved to do exactly what `Execute` does with `Plan`. */
module DialManager {
  import opened Wrappers
  import opened Dial
  import opened Client
  import opened Metrics
  import opened Usage
  import opened Retry

  /** How the `running` flag stood at the top of a loop iteration: up, or
      down until it came back up, or down until the watch channel closed. */
  datatype Pause = Running | PausedThenResumed | PausedThenClosed

  /** What one loop iteration sees: the flag, then the host's sensors. */
  datatype Iteration = Iteration(pause: Pause, host: Host)

  /** Why a dial manager task ends. */
  datatype TaskError =
    | Api(call: DeviceCall, error: ApiError)  // a retried device call failed for good
    | WatchClosed                             // the `running` channel closed while paused
    | InvalidSample(rejected: PercentError)    // `Percent::new` refused a sensor reading

  /** One thing the manager sets out to do. */
  datatype Step = Call(call: DeviceCall) | Stop(error: TaskError)

  /** The device as the manager sees it: the attempts made for the k-th
      retried call, counting from zero. */
  type Device = nat -> Attempts

  /** The calls made so far (the one that failed included) and, once the
      task has ended, why. */
  datatype Progress = Progress(calls: seq<DeviceCall>, end: Option<TaskError>)

  const Start: Progress := Progress([], None)

  /** The backlight the manager sets: 50% on every channel. */
  const MidGray: Backlight := Backlight(MkPercent(50), MkPercent(50), MkPercent(50))

  /** `Backlight::new(50, 50, 50)?` never fails. */
  lemma MidGrayIsValid()
    ensures NewBacklight(50, 50, 50) == Ok(MidGray)
  {
  }

  function DialEasingSteps(cfg: DialConfig): seq<Step> {
    if cfg.dialEasing.Some?
    then [Call(SetDialEasing(cfg.dialEasing.value.periodMs, cfg.dialEasing.value.step))]
    else []
  }

  function BacklightEasingSteps(cfg: DialConfig): seq<Step> {
    if cfg.backlightEasing.Some?
    then [Call(SetBacklightEasing(cfg.backlightEasing.value.periodMs, cfg.backlightEasing.value.step))]
    else []
  }

  function ImageSteps(m: Metric): seq<Step> {
    if ImgFileOf(m).Some? then [Call(SetImage(ImgFileOf(m).value.name, false))] else []
  }

  /** The setup: name, dial easing if configured, backlight easing if
      configured, the mid-gray backlight, then the metric's image. */
  function SetupSteps(name: string, cfg: DialConfig): seq<Step> {
    [Call(SetName(name))]
    + (DialEasingSteps(cfg)
       + (BacklightEasingSteps(cfg)
          + ([Call(SetBacklight(MidGray))] + ImageSteps(cfg.metric))))
  }

  /** What one loop iteration comes to once the metric has been read: the
      flag, and the reading. */
  datatype Tick = Tick(pause: Pause, reading: Reading)

  function TickOf(m: Metric, it: Iteration): Tick {
    Tick(it.pause, ReadMetric(m, it.host))
  }

  function Ticks(m: Metric, iters: seq<Iteration>): seq<Tick> {
    seq(|iters|, k requires 0 <= k < |iters| => TickOf(m, iters[k]))
  }

  function PauseSteps(p: Pause): seq<Step> {
    match p
    case Running => []
    case PausedThenResumed => [Call(SetBacklight(MidGray))]
    case PausedThenClosed => [Stop(WatchClosed)]
  }

  function SampleSteps(r: Reading): seq<Step> {
    match r
    case Skip => []
    case Invalid(e) => [Stop(InvalidSample(e))]
    case Value(p) => [Call(SetValue(p))]
  }

  /** One loop iteration: the pause handling, then the sample and its set. */
  function IterationSteps(t: Tick): seq<Step> {
    PauseSteps(t.pause) + SampleSteps(t.reading)
  }

  function LoopSteps(ticks: seq<Tick>): seq<Step> {
    if ticks == [] then [] else IterationSteps(ticks[0]) + LoopSteps(ticks[1..])
  }

  /** Everything the manager sets out to do, in order. */
  function Plan(name: string, cfg: DialConfig, iters: seq<Iteration>): seq<Step> {
    SetupSteps(name, cfg) + LoopSteps(Ticks(cfg.metric, iters))
  }

  /** Carries out one step of a task that has not ended. A call is retried
      against the device; if it fails for good the task ends with its error. */
  function Do(p: Progress, s: Step, device: Device): (q: Progress)
    requires p.end.None?
  {
    match s
    case Stop(e) => p.(end := Some(e))
    case Call(c) =>
      var r := Retry.Retry(device(|p.calls|));
      Progress(p.calls + [c], if r.outcome.Pass? then None else Some(Api(c, r.outcome.error)))
  }

  /** Carries the steps out in order until the task ends. */
  function Execute(p: Progress, steps: seq<Step>, device: Device): (q: Progress)
    ensures p.calls <= q.calls
    ensures p.end.Some? ==> q == p
    decreases |steps|
  {
    if p.end.Some? || steps == [] then p
    else Execute(Do(p, steps[0], device), steps[1..], device)
  }

  /** The whole run. */
  function Run(name: string, cfg: DialConfig, device: Device, iters: seq<Iteration>): Progress {
    Execute(Start, Plan(name, cfg, iters), device)
  }

  lemma ExecuteCons(p: Progress, s: Step, rest: seq<Step>, device: Device)
    requires p.end.None?
    ensures Execute(p, [s] + rest, device) == Execute(Do(p, s, device), rest, device)
  {
    assert ([s] + rest)[0] == s && ([s] + rest)[1..] == rest;
  }

  lemma {:induction false} ExecuteAppend(p: Progress, a: seq<Step>, b: seq<Step>, device: Device)
    ensures Execute(p, a + b, device) == Execute(Execute(p, a, device), b, device)
    decreases |a|
  {
    if a == [] {
      assert a + b == b;
    } else if p.end.None? {
      assert a == [a[0]] + a[1..];
      assert a + b == [a[0]] + (a[1..] + b);
      ExecuteCons(p, a[0], a[1..] + b, device);
      ExecuteCons(p, a[0], a[1..], device);
      ExecuteAppend(Do(p, a[0], device), a[1..], b, device);
    }
  }

  /** Carries out one step: the method form of `Do`, which `Configure` and
      `Iterate` call so that the device is asked once per call. */
  method Perform(calls: seq<DeviceCall>, s: Step, device: Device)
    returns (calls': seq<DeviceCall>, end': Option<TaskError>)
    ensures Progress(calls', end') == Do(Progress(calls, None), s, device)
    ensures s.Stop? ==> calls' == calls && end' == Some(s.error)
  {
    match s
    case Stop(e) =>
      calls' := calls;
      end' := Some(e);
    case Call(c) =>
      var r := Retry.Retry(device(|calls|));
      calls' := calls + [c];
      end' := if r.outcome.Pass? then None else Some(Api(c, r.outcome.error));
  }

  /** The setup of `DialManager::run`: each call retried, the first that
      fails for good ending the task. */
  method Configure(name: string, cfg: DialConfig, device: Device)
    returns (calls: seq<DeviceCall>, end: Option<TaskError>)
    ensures Progress(calls, end) == Execute(Start, SetupSteps(name, cfg), device)
  {
    var m := cfg.metric;
    ghost var goal := Execute(Start, SetupSteps(name, cfg), device);
    ghost var rest3 := [Call(SetBacklight(MidGray))] + ImageSteps(m);
    ghost var rest2 := BacklightEasingSteps(cfg) + rest3;
    ghost var rest1 := DialEasingSteps(cfg) + rest2;

    // set dial name
    ExecuteCons(Start, Call(SetName(name)), rest1, device);
    calls, end := Perform([], Call(SetName(name)), device);
    assert Execute(Progress(calls, end), rest1, device) == goal;
    if end.Some? {
      return;
    }

    // dial easing
    if cfg.dialEasing.Some? {
      var e := cfg.dialEasing.value;
      ExecuteCons(Progress(calls, None), Call(SetDialEasing(e.periodMs, e.step)), rest2, device);
      calls, end := Perform(calls, Call(SetDialEasing(e.periodMs, e.step)), device);
      if end.Some? {
        assert Execute(Progress(calls, end), rest2, device) == goal;
        return;
      }
    } else {
      assert rest1 == rest2;
    }
    assert Execute(Progress(calls, None), rest2, device) == goal;

    // backlight easing
    if cfg.backlightEasing.Some? {
      var e := cfg.backlightEasing.value;
      ExecuteCons(Progress(calls, None), Call(SetBacklightEasing(e.periodMs, e.step)), rest3, device);
      calls, end := Perform(calls, Call(SetBacklightEasing(e.periodMs, e.step)), device);
      if end.Some? {
        assert Execute(Progress(calls, end), rest3, device) == goal;
        return;
      }
    } else {
      assert rest2 == rest3;
    }
    assert Execute(Progress(calls, None), rest3, device) == goal;

    // backlight
    ExecuteCons(Progress(calls, None), Call(SetBacklight(MidGray)), ImageSteps(m), device);
    calls, end := Perform(calls, Call(SetBacklight(MidGray)), device);
    assert Execute(Progress(calls, end), ImageSteps(m), device) == goal;
    if end.Some? {
      return;
    }

    // image
    var img := ImgFileOf(m);
    if img.Some? {
      ExecuteCons(Progress(calls, None), Call(SetImage(img.value.name, false)), [], device);
      calls, end := Perform(calls, Call(SetImage(img.value.name, false)), device);
    }
  }

  /** One iteration of the update loop: the pause handling, then one sample
      and, if it gave a value, the set. */
  method Iterate(calls: seq<DeviceCall>, m: Metric, it: Iteration, device: Device)
    returns (calls': seq<DeviceCall>, end': Option<TaskError>)
    ensures Progress(calls', end') == Execute(Progress(calls, None), IterationSteps(TickOf(m, it)), device)
  {
    var reading := ReadMetric(m, it.host);
    ghost var sample := SampleSteps(reading);
    ghost var goal := Execute(Progress(calls, None), IterationSteps(TickOf(m, it)), device);
    calls', end' := calls, None;
    match it.pause {
      case Running =>
        assert IterationSteps(TickOf(m, it)) == sample;
      case PausedThenClosed =>
        assert IterationSteps(TickOf(m, it)) == [Stop(WatchClosed)] + sample;
        ExecuteCons(Progress(calls, None), Stop(WatchClosed), sample, device);
        calls', end' := Perform(calls', Stop(WatchClosed), device);
        assert Execute(Progress(calls', end'), sample, device) == goal;
        return;
      case PausedThenResumed =>
        assert IterationSteps(TickOf(m, it)) == [Call(SetBacklight(MidGray))] + sample;
        ExecuteCons(Progress(calls, None), Call(SetBacklight(MidGray)), sample, device);
        calls', end' := Perform(calls', Call(SetBacklight(MidGray)), device);
        if end'.Some? {
          assert Execute(Progress(calls', end'), sample, device) == goal;
          return;
        }
    }
    assert Execute(Progress(calls', None), sample, device) == goal;

    match reading
    case Skip =>
    case Invalid(e) =>
      ExecuteCons(Progress(calls', None), Stop(InvalidSample(e)), [], device);
      assert sample == [Stop(InvalidSample(e))] + [];
      calls', end' := Perform(calls', Stop(InvalidSample(e)), device);
    case Value(p) =>
      ExecuteCons(Progress(calls', None), Call(SetValue(p)), [], device);
      assert sample == [Call(SetValue(p))] + [];
      calls', end' := Perform(calls', Call(SetValue(p)), device);
  }

  /** `DialManager::run`, up to the end of the iterations given. */
  method RunDialManager(name: string, cfg: DialConfig, device: Device, iters: seq<Iteration>)
    returns (calls: seq<DeviceCall>, end: Option<TaskError>)
    ensures Progress(calls, end) == Run(name, cfg, device, iters)
  {
    var m := cfg.metric;
    ghost var ticks := Ticks(m, iters);
    calls, end := Configure(name, cfg, device);
    ExecuteAppend(Start, SetupSteps(name, cfg), LoopSteps(ticks), device);
    if end.Some? {
      return;
    }

    var i := 0;
    while i < |iters|
      invariant 0 <= i <= |iters|
      invariant end.None?
      invariant Execute(Progress(calls, None), LoopSteps(ticks[i..]), device) == Run(name, cfg, device, iters)
    {
      var t := ticks[i..];
      assert t[0] == TickOf(m, iters[i]) && t[1..] == ticks[i + 1..];
      ExecuteAppend(Progress(calls, None), IterationSteps(t[0]), LoopSteps(t[1..]), device);
      calls, end := Iterate(calls, m, iters[i], device);
      if end.Some? {
        return;
      }
      i := i + 1;
    }
    assert ticks[i..] == [];
  }

  /** The device calls among the steps, up to the first `Stop`. */
  function CallsOf(steps: seq<Step>): seq<DeviceCall> {
    if steps == [] || steps[0].Stop? then [] else [steps[0].call] + CallsOf(steps[1..])
  }

  predicate NoStop(steps: seq<Step>) {
    forall j :: 0 <= j < |steps| ==> steps[j].Call?
  }

  lemma {:induction false} CallsOfAppend(a: seq<Step>, b: seq<Step>)
    requires NoStop(a)
    ensures CallsOf(a + b) == CallsOf(a) + CallsOf(b)
  {
    if a == [] {
      assert a + b == b;
    } else {
      assert (a + b)[0] == a[0] && (a + b)[1..] == a[1..] + b;
      CallsOfAppend(a[1..], b);
    }
  }

  /** Carrying out steps makes their calls in order, stopping after the
      first call that fails for good or at the first `Stop`. */
  lemma {:induction false} ExecuteFollowsSteps(p: Progress, steps: seq<Step>, device: Device)
    requires p.end.None?
    ensures Execute(p, steps, device).calls <= p.calls + CallsOf(steps)
    ensures Execute(p, steps, device).end.None? ==> Execute(p, steps, device).calls == p.calls + CallsOf(steps)
    decreases |steps|
  {
    if steps == [] {
      assert p.calls + [] == p.calls;
    } else {
      var q := Execute(p, steps, device);
      var p1 := Do(p, steps[0], device);
      var rest := steps[1..];
      assert q == Execute(p1, rest, device);
      match steps[0]
      case Stop(e) =>
        assert q == p1 && q.calls == p.calls;
      case Call(c) =>
        assert CallsOf(steps) == [c] + CallsOf(rest);
        assert p.calls + CallsOf(steps) == p1.calls + CallsOf(rest);
        if p1.end.None? {
          ExecuteFollowsSteps(p1, rest, device);
        }
    }
  }

  /** Every call but the last one made succeeded, and the last one too
      unless it is what ended the task. */
  lemma {:induction false} ExecuteSucceedsUntilEnd(p: Progress, steps: seq<Step>, device: Device)
    requires p.end.None?
    ensures var q := Execute(p, steps, device);
            forall j :: |p.calls| <= j < |q.calls| ==>
              Retry.Retry(device(j)).outcome.Pass?
              || (j == |q.calls| - 1 && q.end == Some(Api(q.calls[j], Retry.Retry(device(j)).outcome.error)))
    decreases |steps|
  {
    if steps != [] {
      var q := Execute(p, steps, device);
      var p1 := Do(p, steps[0], device);
      assert q == Execute(p1, steps[1..], device);
      if p1.end.None? {
        ExecuteSucceedsUntilEnd(p1, steps[1..], device);
        if steps[0].Call? {
          assert Retry.Retry(device(|p.calls|)).outcome.Pass?;
        }
      } else {
        assert q == p1;
      }
    }
  }

  /** The calls the setup makes, written out. */
  function SetupCalls(name: string, cfg: DialConfig): seq<DeviceCall> {
    [SetName(name)]
    + ((if cfg.dialEasing.Some?
        then [SetDialEasing(cfg.dialEasing.value.periodMs, cfg.dialEasing.value.step)] else [])
       + ((if cfg.backlightEasing.Some?
           then [SetBacklightEasing(cfg.backlightEasing.value.periodMs, cfg.backlightEasing.value.step)]
           else [])
          + [SetBacklight(MidGray), SetImage(ImgFileOf(cfg.metric).value.name, false)]))
  }

  lemma CallsOfCons(c: DeviceCall, rest: seq<Step>)
    ensures CallsOf([Call(c)] + rest) == [c] + CallsOf(rest)
    ensures NoStop(rest) ==> NoStop([Call(c)] + rest)
  {
    assert ([Call(c)] + rest)[0] == Call(c) && ([Call(c)] + rest)[1..] == rest;
  }

  lemma SetupStepsCalls(name: string, cfg: DialConfig)
    ensures CallsOf(SetupSteps(name, cfg)) == SetupCalls(name, cfg)
    ensures NoStop(SetupSteps(name, cfg))
  {
    var image := SetImage(ImgFileOf(cfg.metric).value.name, false);
    var rest3 := [Call(SetBacklight(MidGray))] + ImageSteps(cfg.metric);
    var rest2 := BacklightEasingSteps(cfg) + rest3;
    var rest1 := DialEasingSteps(cfg) + rest2;
    assert ImageSteps(cfg.metric) == [Call(image)] + [];
    CallsOfCons(image, []);
    CallsOfCons(SetBacklight(MidGray), ImageSteps(cfg.metric));
    assert CallsOf(rest3) == [SetBacklight(MidGray), image];
    if cfg.backlightEasing.Some? {
      var e := cfg.backlightEasing.value;
      CallsOfCons(SetBacklightEasing(e.periodMs, e.step), rest3);
    } else {
      assert rest2 == rest3;
    }
    if cfg.dialEasing.Some? {
      var e := cfg.dialEasing.value;
      CallsOfCons(SetDialEasing(e.periodMs, e.step), rest2);
    } else {
      assert rest1 == rest2;
    }
    CallsOfCons(SetName(name), rest1);
  }

  /** The setup calls in order: the name first; the dial easing next if it
      is configured; then the backlight easing if it is configured; then the
      mid-gray backlight; the image last.  No value is set during setup. */
  lemma SetupOrder(name: string, cfg: DialConfig)
    ensures var calls := CallsOf(SetupSteps(name, cfg));
            var easings := (if cfg.dialEasing.Some? then 1 else 0)
                           + (if cfg.backlightEasing.Some? then 1 else 0);
            && |calls| == 3 + easings
            && calls[0] == SetName(name)
            && (cfg.dialEasing.Some? ==>
                  calls[1] == SetDialEasing(cfg.dialEasing.value.periodMs, cfg.dialEasing.value.step))
            && (cfg.backlightEasing.Some? ==>
                  calls[easings] == SetBacklightEasing(cfg.backlightEasing.value.periodMs,
                                                       cfg.backlightEasing.value.step))
            && calls[1 + easings] == SetBacklight(MidGray)
            && calls[2 + easings] == SetImage(ImgFileOf(cfg.metric).value.name, false)
            && forall j :: 0 <= j < |calls| ==> !calls[j].SetValue?
    ensures NoStop(SetupSteps(name, cfg))
  {
    SetupStepsCalls(name, cfg);
    var name' := SetName(name);
    var backlight := SetBacklight(MidGray);
    var image := SetImage(ImgFileOf(cfg.metric).value.name, false);
    match (cfg.dialEasing, cfg.backlightEasing) {
      case (Some(d), Some(b)) =>
        assert SetupCalls(name, cfg)
               == [name', SetDialEasing(d.periodMs, d.step), SetBacklightEasing(b.periodMs, b.step),
                   backlight, image];
      case (Some(d), None) =>
        assert SetupCalls(name, cfg) == [name', SetDialEasing(d.periodMs, d.step), backlight, image];
      case (None, Some(b)) =>
        assert SetupCalls(name, cfg) == [name', SetBacklightEasing(b.periodMs, b.step), backlight, image];
      case (None, None) =>
        assert SetupCalls(name, cfg) == [name', backlight, image];
    }
  }

  /** A run whose calls so far are a prefix of `pre + more`, where `pre`
      sets no value: a value set at `j` comes after all of `pre`. */
  lemma ValueAfter(calls: seq<DeviceCall>, pre: seq<DeviceCall>, more: seq<DeviceCall>, j: nat)
    requires calls <= pre + more
    requires forall k :: 0 <= k < |pre| ==> !pre[k].SetValue?
    requires j < |calls| && calls[j].SetValue?
    ensures j >= |pre| && calls[..|pre|] == pre
  {
  }

  /** If no `SetValue` and no `Stop` is among the first steps, a value is
      only set once all of those steps' calls have been made and succeeded. */
  lemma ValueOnlyAfterPrefix(first: seq<Step>, rest: seq<Step>, device: Device, j: nat)
    requires NoStop(first)
    requires forall k :: 0 <= k < |CallsOf(first)| ==> !CallsOf(first)[k].SetValue?
    requires j < |Execute(Start, first + rest, device).calls|
    requires Execute(Start, first + rest, device).calls[j].SetValue?
    ensures var r := Execute(Start, first + rest, device);
            var pre := CallsOf(first);
            j >= |pre| && r.calls[..|pre|] == pre
            && forall k :: 0 <= k < |pre| ==> Retry.Retry(device(k)).outcome.Pass?
  {
    var r := Execute(Start, first + rest, device);
    var pre := CallsOf(first);
    CallsOfAppend(first, rest);
    ExecuteFollowsSteps(Start, first + rest, device);
    assert [] + CallsOf(first + rest) == pre + CallsOf(rest);
    ValueAfter(r.calls, pre, CallsOf(rest), j);
    ExecuteSucceedsUntilEnd(Start, first + rest, device);
  }

  /** A value is only ever set once the whole setup has been made, in order,
      and every setup call has succeeded. */
  lemma NoValueBeforeSetup(name: string, cfg: DialConfig, device: Device, iters: seq<Iteration>)
    ensures var r := Run(name, cfg, device, iters);
            var setup := CallsOf(SetupSteps(name, cfg));
            forall j :: 0 <= j < |r.calls| && r.calls[j].SetValue? ==>
              j >= |setup| && r.calls[..|setup|] == setup
              && forall k :: 0 <= k < |setup| ==> Retry.Retry(device(k)).outcome.Pass?
  {
    var setupSteps := SetupSteps(name, cfg);
    var loop := LoopSteps(Ticks(cfg.metric, iters));
    assert Run(name, cfg, device, iters) == Execute(Start, setupSteps + loop, device);
    SetupOrder(name, cfg);
    forall j | 0 <= j < |Execute(Start, setupSteps + loop, device).calls|
                 && Execute(Start, setupSteps + loop, device).calls[j].SetValue?
      ensures var r := Execute(Start, setupSteps + loop, device);
              var setup := CallsOf(setupSteps);
              j >= |setup| && r.calls[..|setup|] == setup
              && forall k :: 0 <= k < |setup| ==> Retry.Retry(device(k)).outcome.Pass?
    {
      ValueOnlyAfterPrefix(setupSteps, loop, device, j);
    }
  }

  lemma {:induction false} LoopStepsAppend(a: seq<Tick>, b: seq<Tick>)
    ensures LoopSteps(a + b) == LoopSteps(a) + LoopSteps(b)
  {
    if a == [] {
      assert a + b == b;
    } else {
      assert (a + b)[0] == a[0] && (a + b)[1..] == a[1..] + b;
      LoopStepsAppend(a[1..], b);
    }
  }

  /** Where the run stands when iteration `i` begins. */
  function Reached(name: string, cfg: DialConfig, device: Device, iters: seq<Iteration>, i: nat): Progress
    requires i <= |iters|
  {
    Execute(Start, SetupSteps(name, cfg) + LoopSteps(Ticks(cfg.metric, iters)[..i]), device)
  }

  /** The run goes through iteration `i` from where it stood when the
      iteration began, then through the rest. */
  lemma RunThrough(name: string, cfg: DialConfig, device: Device, iters: seq<Iteration>, i: nat)
    requires i < |iters|
    ensures Run(name, cfg, device, iters)
            == Execute(Execute(Reached(name, cfg, device, iters, i),
                               IterationSteps(TickOf(cfg.metric, iters[i])), device),
                       LoopSteps(Ticks(cfg.metric, iters)[i + 1..]), device)
  {
    var ts := Ticks(cfg.metric, iters);
    var setup := SetupSteps(name, cfg);
    var before := LoopSteps(ts[..i]);
    var current := IterationSteps(ts[i]);
    var after := LoopSteps(ts[i + 1..]);
    assert ts == ts[..i] + ts[i..];
    LoopStepsAppend(ts[..i], ts[i..]);
    assert ts[i..][0] == ts[i] && ts[i..][1..] == ts[i + 1..];
    assert LoopSteps(ts[i..]) == current + after;
    assert Plan(name, cfg, iters) == (setup + before) + (current + after);
    ExecuteAppend(Start, setup + before, current + after, device);
    ExecuteAppend(Reached(name, cfg, device, iters, i), current, after, device);
  }

  /** A call made from a task that has not ended is recorded where the
      task's calls stood, whatever is carried out after it. */
  lemma CallRecorded(q: Progress, c: DeviceCall, more: seq<Step>, rest: seq<Step>, device: Device)
    requires q.end.None?
    ensures var r := Execute(Execute(q, [Call(c)] + more, device), rest, device);
            |q.calls| < |r.calls| && r.calls[|q.calls|] == c
  {
    ExecuteCons(q, Call(c), more, device);
    var q1 := Do(q, Call(c), device);
    assert q1.calls[|q.calls|] == c;
    var r1 := Execute(q1, more, device);
    var r := Execute(r1, rest, device);
    assert q1.calls <= r1.calls <= r.calls;
  }

  /** After a pause that ends with the flag back up, the mid-gray backlight
      is set before anything else, and, if that succeeds and the sample gave
      a value, the value is set right after it. */
  lemma ResumeSetsBacklightFirst(name: string, cfg: DialConfig, device: Device,
                                 iters: seq<Iteration>, i: nat)
    requires i < |iters| && iters[i].pause == PausedThenResumed
    requires Reached(name, cfg, device, iters, i).end.None?
    ensures var k := |Reached(name, cfg, device, iters, i).calls|;
            var r := Run(name, cfg, device, iters);
            k < |r.calls| && r.calls[k] == SetBacklight(MidGray)
    ensures var k := |Reached(name, cfg, device, iters, i).calls|;
            var r := Run(name, cfg, device, iters);
            var reading := ReadMetric(cfg.metric, iters[i].host);
            Retry.Retry(device(k)).outcome.Pass? && reading.Value? ==>
              k + 1 < |r.calls| && r.calls[k + 1] == SetValue(reading.percent)
  {
    var q := Reached(name, cfg, device, iters, i);
    var reading := ReadMetric(cfg.metric, iters[i].host);
    var sample := SampleSteps(reading);
    var after := LoopSteps(Ticks(cfg.metric, iters)[i + 1..]);
    assert IterationSteps(TickOf(cfg.metric, iters[i])) == [Call(SetBacklight(MidGray))] + sample;
    RunThrough(name, cfg, device, iters, i);
    CallRecorded(q, SetBacklight(MidGray), sample, after, device);
    if Retry.Retry(device(|q.calls|)).outcome.Pass? && reading.Value? {
      var q1 := Do(q, Call(SetBacklight(MidGray)), device);
      ExecuteCons(q, Call(SetBacklight(MidGray)), sample, device);
      assert sample == [Call(SetValue(reading.percent))] + [];
      CallRecorded(q1, SetValue(reading.percent), [], after, device);
    }
  }

  /** If the watch channel closes during a pause, the task ends there: no
      sample is taken and nothing more is set. */
  lemma ClosedWhilePausedEnds(name: string, cfg: DialConfig, device: Device,
                              iters: seq<Iteration>, i: nat)
    requires i < |iters| && iters[i].pause == PausedThenClosed
    requires Reached(name, cfg, device, iters, i).end.None?
    ensures Run(name, cfg, device, iters)
            == Progress(Reached(name, cfg, device, iters, i).calls, Some(WatchClosed))
  {
    var q := Reached(name, cfg, device, iters, i);
    var sample := SampleSteps(ReadMetric(cfg.metric, iters[i].host));
    assert IterationSteps(TickOf(cfg.metric, iters[i])) == [Stop(WatchClosed)] + sample;
    ExecuteCons(q, Stop(WatchClosed), sample, device);
    RunThrough(name, cfg, device, iters, i);
  }

  /** An iteration whose sample was skipped (a sensor error, or no total to
      take a percentage of) while the flag was up makes no call at all. */
  lemma SkippedSampleSetsNothing(name: string, cfg: DialConfig, device: Device,
                                 iters: seq<Iteration>, i: nat)
    requires i < |iters| && iters[i].pause == Running
    requires ReadMetric(cfg.metric, iters[i].host) == Skip
    ensures Reached(name, cfg, device, iters, i + 1) == Reached(name, cfg, device, iters, i)
  {
    var ts := Ticks(cfg.metric, iters);
    assert ts[..i + 1] == ts[..i] + [ts[i]];
    LoopStepsAppend(ts[..i], [ts[i]]);
    assert [ts[i]][1..] == [];
    assert IterationSteps(ts[i]) == [];
    assert LoopSteps(ts[..i + 1]) == LoopSteps(ts[..i]);
  }

  /** A reading above 100 for CPU load, CPU temperature or battery ends the
      task with the `PercentError`, without setting anything. */
  lemma InvalidSampleEnds(name: string, cfg: DialConfig, device: Device,
                          iters: seq<Iteration>, i: nat)
    requires i < |iters| && iters[i].pause == Running
    requires ReadMetric(cfg.metric, iters[i].host).Invalid?
    requires Reached(name, cfg, device, iters, i).end.None?
    ensures Run(name, cfg, device, iters)
            == Progress(Reached(name, cfg, device, iters, i).calls,
                        Some(InvalidSample(ReadMetric(cfg.metric, iters[i].host).error)))
  {
    var q := Reached(name, cfg, device, iters, i);
    var e := InvalidSample(ReadMetric(cfg.metric, iters[i].host).error);
    assert IterationSteps(TickOf(cfg.metric, iters[i])) == [Stop(e)] + [];
    ExecuteCons(q, Stop(e), [], device);
    RunThrough(name, cfg, device, iters, i);
  }
}
