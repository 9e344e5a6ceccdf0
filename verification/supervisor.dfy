/** The `run_daemon` event loop: start the dial managers, then wait for a
    signal or for a manager to finish.  Signals and task completions, which
    arrive concurrently, are given as one sequence of events in the order
    the loop's `select!` takes them. */
module Supervisor {
  import opened Wrappers
  import opened Client
  import opened Spawn
  import DialManager

  /** The Unix signals the daemon listens for. */
  datatype UnixSignal = SigHup | SigInt | SigTerm | SigQuit

  /** `SignalAction`. */
  datatype SignalAction = Reload | Shutdown

  /** `SignalListener::next_signal`: a hang-up reloads, the other three shut
      the daemon down. */
  function ActionOf(s: UnixSignal): (a: SignalAction)
    ensures a == Reload <==> s == SigHup
  {
    match s
    case SigHup => Reload
    case SigInt => Shutdown
    case SigTerm => Shutdown
    case SigQuit => Shutdown
  }

  /** Why the configuration file could not be loaded (read or parsed). */
  datatype LoadError = LoadError(message: string)

  /** What one `Config::load` and the `list_dials` call of the spawn after it
      return. */
  datatype Load = Load(config: Result<Entries, LoadError>, listing: Result<seq<Listed>, ApiError>)

  /** The error the daemon exits with. */
  datatype DaemonError =
    | ConfigLoad(loadError: LoadError)                 // "failed to read/parse config file"
    | SpawnFailed(spawnError: SpawnError)              // "failed to spawn dial managers"
    | TaskPanicked                                     // "a dial manager task panicked"
    | TaskFailed(taskError: DialManager.TaskError)     // "a dial manager task failed"

  /** How a joined dial manager task ended. */
  datatype Join = Completed(result: Outcome<DialManager.TaskError>) | Panicked

  /** What the loop's `select!` takes next. */
  datatype Event = Signalled(signal: UnixSignal) | TaskEnded(join: Join)

  /** The daemon: running the given tasks after `reloadsDone` reloads, or
      exited with a result. */
  datatype DaemonState =
    | Running(tasks: seq<Spawned>, reloadsDone: nat)
    | Exited(result: Outcome<DaemonError>)

  /** Load the configuration and spawn its dial managers. */
  function Respawn(load: Load): (r: Result<seq<Spawned>, DaemonError>)
    ensures r.Ok? ==> |r.value| > 0
    ensures r.Err? ==> r.error.ConfigLoad? || r.error.SpawnFailed?
  {
    match load.config
    case Err(e) => Err(ConfigLoad(e))
    case Ok(entries) =>
      match Spawning(entries, load.listing)
      case Err(e) => Err(SpawnFailed(e))
      case Ok(tasks) => Ok(tasks)
  }

  /** The daemon after its first load. */
  function Start(initial: Load): DaemonState {
    match Respawn(initial)
    case Err(e) => Exited(Fail(e))
    case Ok(tasks) => Running(tasks, 0)
  }

  /** A joined task's result as the daemon's: a panic or an error is
      propagated, a task that returned `Ok` ends the daemon with `Ok`. */
  function JoinResult(j: Join): Outcome<DaemonError> {
    match j
    case Panicked => Fail(TaskPanicked)
    case Completed(Pass) => Pass
    case Completed(Fail(e)) => Fail(TaskFailed(e))
  }

  /** One turn of the loop.  `reloads(k)` is what the k-th reload loads. */
  function Step(s: DaemonState, e: Event, reloads: nat -> Load): DaemonState
    requires s.Running?
  {
    match e
    case Signalled(sig) =>
      if ActionOf(sig) == Shutdown then Exited(Pass)
      else
        (match Respawn(reloads(s.reloadsDone))
         case Err(err) => Exited(Fail(err))
         case Ok(tasks) => Running(tasks, s.reloadsDone + 1))
    case TaskEnded(j) =>
      // `join_next` yields `None` when no task is left
      if s.tasks == [] then Exited(Pass) else Exited(JoinResult(j))
  }

  /** The loop over a sequence of events; once exited, nothing more happens. */
  function Supervise(s: DaemonState, events: seq<Event>, reloads: nat -> Load): DaemonState
    decreases |events|
  {
    if events == [] || s.Exited? then s
    else Supervise(Step(s, events[0], reloads), events[1..], reloads)
  }

  /** Load and spawn, as the loop does at start and on each reload. */
  method LoadAndSpawn(load: Load) returns (r: Result<seq<Spawned>, DaemonError>)
    ensures r == Respawn(load)
  {
    if load.config.Err? {
      return Err(ConfigLoad(load.config.error));
    }
    var spawned := SpawnDialManagers(load.config.value, load.listing);
    if spawned.Err? {
      return Err(SpawnFailed(spawned.error));
    }
    return Ok(spawned.value);
  }

  /** `run_daemon`, over the events that arrive before it exits (or all of
      them, if it is still running afterwards). */
  method RunDaemon(initial: Load, reloads: nat -> Load, events: seq<Event>) returns (s: DaemonState)
    ensures s == Supervise(Start(initial), events, reloads)
  {
    var started := LoadAndSpawn(initial);
    if started.Err? {
      return Exited(Fail(started.error));
    }
    var tasks := started.value;
    var reloadsDone := 0;
    var i := 0;
    while i < |events|
      invariant i <= |events|
      invariant Supervise(Running(tasks, reloadsDone), events[i..], reloads)
                == Supervise(Start(initial), events, reloads)
    {
      assert events[i..][0] == events[i] && events[i..][1..] == events[i + 1..];
      match events[i] {
        case Signalled(sig) =>
          if ActionOf(sig) == Shutdown {
            return Exited(Pass);
          }
          tasks := [];
          var respawned := LoadAndSpawn(reloads(reloadsDone));
          if respawned.Err? {
            return Exited(Fail(respawned.error));
          }
          tasks := respawned.value;
          reloadsDone := reloadsDone + 1;
        case TaskEnded(j) =>
          if tasks == [] {
            return Exited(Pass);
          }
          return Exited(JoinResult(j));
      }
      i := i + 1;
    }
    assert events[i..] == [];
    return Running(tasks, reloadsDone);
  }

  predicate IsReload(e: Event) {
    e.Signalled? && e.signal == SigHup
  }

  /** Running through a sequence of events is running through its parts. */
  lemma {:induction false} SuperviseAppend(s: DaemonState, a: seq<Event>, b: seq<Event>, reloads: nat -> Load)
    ensures Supervise(s, a + b, reloads) == Supervise(Supervise(s, a, reloads), b, reloads)
    decreases |a|
  {
    if a == [] {
      assert a + b == b;
    } else if s.Running? {
      assert (a + b)[0] == a[0] && (a + b)[1..] == a[1..] + b;
      SuperviseAppend(Step(s, a[0], reloads), a[1..], b, reloads);
    }
  }

  /** A daemon still running after some events has only been reloaded: it
      runs at least one task, and those are the ones the last reload
      spawned (or the first load, if there was no reload). */
  lemma {:induction false} StillRunning(s: DaemonState, events: seq<Event>, reloads: nat -> Load)
    requires s.Running? && |s.tasks| > 0
    requires Supervise(s, events, reloads).Running?
    ensures var t := Supervise(s, events, reloads);
            |t.tasks| > 0 && t.reloadsDone == s.reloadsDone + |events|
            && (forall i :: 0 <= i < |events| ==> IsReload(events[i]))
            && (events == [] ==> t.tasks == s.tasks)
            && (events != [] ==> Respawn(reloads(t.reloadsDone - 1)) == Ok(t.tasks))
    decreases |events|
  {
    if events != [] {
      var s' := Step(s, events[0], reloads);
      assert s'.Running?;
      StillRunning(s', events[1..], reloads);
      assert forall i :: 0 < i < |events| ==> events[i] == events[1..][i - 1];
    }
  }

  /** The daemon still running after `events` is the one `start` left,
      every event being a reload. */
  lemma RunningAfterStart(initial: Load, events: seq<Event>, reloads: nat -> Load)
    requires Supervise(Start(initial), events, reloads).Running?
    ensures var t := Supervise(Start(initial), events, reloads);
            |t.tasks| > 0 && t.reloadsDone == |events|
            && (forall i :: 0 <= i < |events| ==> IsReload(events[i]))
            && (events == [] ==> Respawn(initial) == Ok(t.tasks))
            && (events != [] ==> Respawn(reloads(|events| - 1)) == Ok(t.tasks))
  {
    if Start(initial).Running? {
      StillRunning(Start(initial), events, reloads);
    }
  }

  /** The first event that is not a reload ends the daemon: a shutdown
      signal with `Ok`, a finished task with that task's panic, error or
      `Ok`.  Nothing after it matters. */
  lemma FirstStopDecides(initial: Load, events: seq<Event>, reloads: nat -> Load, k: nat)
    requires k < |events| && !IsReload(events[k])
    requires Supervise(Start(initial), events[..k], reloads).Running?
    ensures Supervise(Start(initial), events, reloads)
            == Exited(if events[k].Signalled? then Pass else JoinResult(events[k].join))
  {
    var before := Supervise(Start(initial), events[..k], reloads);
    RunningAfterStart(initial, events[..k], reloads);
    assert events == events[..k] + events[k..];
    SuperviseAppend(Start(initial), events[..k], events[k..], reloads);
    assert events[k..][0] == events[k];
    if events[k].Signalled? {
      assert ActionOf(events[k].signal) == Shutdown;
    }
  }

  /** A reload whose load or spawn fails ends the daemon with that error; the
      old tasks have already been shut down. */
  lemma FailedReloadEnds(initial: Load, events: seq<Event>, reloads: nat -> Load, k: nat)
    requires k < |events| && IsReload(events[k])
    requires Supervise(Start(initial), events[..k], reloads).Running?
    requires Respawn(reloads(k)).Err?
    ensures Supervise(Start(initial), events, reloads) == Exited(Fail(Respawn(reloads(k)).error))
  {
    RunningAfterStart(initial, events[..k], reloads);
    assert events == events[..k] + events[k..];
    SuperviseAppend(Start(initial), events[..k], events[k..], reloads);
    assert events[k..][0] == events[k];
  }

  /** A reload that succeeds replaces every task with the newly spawned
      ones. */
  lemma ReloadReplacesTasks(initial: Load, events: seq<Event>, reloads: nat -> Load, k: nat)
    requires k < |events| && IsReload(events[k])
    requires Supervise(Start(initial), events[..k], reloads).Running?
    requires Respawn(reloads(k)).Ok?
    ensures Supervise(Start(initial), events[..k + 1], reloads) == Running(Respawn(reloads(k)).value, k + 1)
  {
    RunningAfterStart(initial, events[..k], reloads);
    assert events[..k + 1] == events[..k] + [events[k]];
    SuperviseAppend(Start(initial), events[..k], [events[k]], reloads);
  }

  /** A daemon whose first load fails exits at once with that error,
      whatever happens next. */
  lemma FailedStartEnds(initial: Load, events: seq<Event>, reloads: nat -> Load)
    requires Respawn(initial).Err?
    ensures Supervise(Start(initial), events, reloads) == Exited(Fail(Respawn(initial).error))
  {
  }
}
