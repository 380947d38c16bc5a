/** The iperf3 server manager: a mutex-protected command handle, the processes it started and
    one waiting goroutine per process. */
module IperfServer {
  import opened Wrappers

  /** ended holds the wait error, empty for a clean exit, once the process is gone. */
  datatype Process = Process(killed: bool, ended: Option<string>, waiting: bool)

  datatype World = World(cmd: Option<nat>, startedAt: int, lastError: string, processes: map<nat, Process>, next: nat)

  const NOT_FOUND := "iperf3 executable not found"

  function Initial(): World {
    World(None, 0, "", map[], 0)
  }

  /** Faults are the error texts of the calls, empty when they succeed. */
  datatype Event =
    | Start(available: bool, cancelled: string, fault: string, now: int)
    | Stop(cancelled: string, fault: string)
    | Exit(process: nat, error: string)
    | Reap(process: nat)

  predicate Enabled(w: World, e: Event) {
    match e
    case Exit(p, _) => p in w.processes && w.processes[p].ended.None?
    case Reap(p) => p in w.processes && w.processes[p].ended.Some? && w.processes[p].waiting
    case _ => true
  }

  function Next(w: World, e: Event): World
    requires Enabled(w, e)
  {
    match e
    case Start(available, cancelled, fault, now) =>
      if !available then w.(lastError := NOT_FOUND)
      else if w.cmd.Some? then w
      else if cancelled != "" then w.(lastError := cancelled)
      else if fault != "" then w.(lastError := fault)
      else World(Some(w.next), now, "", w.processes[w.next := Process(false, None, true)], w.next + 1)
    case Stop(cancelled, fault) =>
      if w.cmd.None? || w.cmd.value !in w.processes then w
      else if cancelled != "" then w.(lastError := cancelled)
      else if fault != "" then w.(lastError := fault)
      else w.(cmd := None, startedAt := 0,
              processes := w.processes[w.cmd.value := w.processes[w.cmd.value].(killed := true)])
    case Exit(p, error) => w.(processes := w.processes[p := w.processes[p].(ended := Some(error))])
    case Reap(p) =>
      var error := w.processes[p].ended.value;
      var lastError := if error != "" then error else w.lastError;
      var freed := if w.cmd == Some(p) then w.(cmd := None, startedAt := 0, lastError := lastError) else w;
      freed.(processes := w.processes[p := w.processes[p].(waiting := false)])
  }

  /** Processes that run and that nobody asked to end. */
  function Unattended(w: World): set<nat> {
    set p | p in w.processes && w.processes[p].ended.None? && !w.processes[p].killed
  }

  function Handle(cmd: Option<nat>): set<nat> {
    if cmd.Some? then {cmd.value} else {}
  }

  ghost predicate Safe(w: World) {
    && Unattended(w) <= Handle(w.cmd)
    && (forall p :: p in w.processes ==> p < w.next)
    && (w.cmd.Some? ==>
          w.cmd.value in w.processes && w.processes[w.cmd.value].waiting && !w.processes[w.cmd.value].killed)
  }

  lemma StepSafe(w: World, e: Event)
    requires Safe(w) && Enabled(w, e)
    ensures Safe(Next(w, e))
  {
    var after := Next(w, e);
    forall p | p in Unattended(after) ensures p in Handle(after.cmd) {
      if p in w.processes {
        assert p in Unattended(w);
      }
    }
  }

  ghost predicate Run(worlds: seq<World>, events: seq<Event>) {
    && |worlds| == |events| + 1 && worlds[0] == Initial()
    && forall i :: 0 <= i < |events| ==> Enabled(worlds[i], events[i]) && worlds[i + 1] == Next(worlds[i], events[i])
  }

  /** Under every interleaving at most one started process is neither killed nor ended, and it
      is the one the handle names; a handle always has a goroutine waiting to clear it. */
  lemma {:induction false} ProcessesSafe(worlds: seq<World>, events: seq<Event>, i: nat)
    requires Run(worlds, events) && i < |worlds|
    ensures Safe(worlds[i]) && |Unattended(worlds[i])| <= 1
  {
    hide Enabled, Next;
    if i > 0 {
      ProcessesSafe(worlds, events, i - 1);
      StepSafe(worlds[i - 1], events[i - 1]);
    }
    OneAtMost(worlds[i]);
  }

  lemma OneAtMost(w: World)
    requires Unattended(w) <= Handle(w.cmd)
    ensures |Unattended(w)| <= 1
  {
    if w.cmd.Some? && w.cmd.value in Unattended(w) {
      assert Unattended(w) == {w.cmd.value};
    } else {
      assert Unattended(w) == {};
    }
  }

  /** A waiter that was overtaken clears neither a newer handle nor its error text. */
  lemma StaleWaiterHarmless(w: World, p: nat)
    requires Enabled(w, Reap(p)) && w.cmd != Some(p)
    ensures var after := Next(w, Reap(p));
      after.cmd == w.cmd && after.startedAt == w.startedAt && after.lastError == w.lastError
      && after.processes - {p} == w.processes - {p}
  {
  }

  /** After a successful Stop nothing is left running unattended, and Start is not refused
      because of the old process, whose waiter may still be pending. */
  lemma StopThenStart(w: World, now: int)
    requires Safe(w) && w.cmd.Some?
    ensures Unattended(Next(w, Stop("", ""))) == {}
    ensures var again := Next(Next(w, Stop("", "")), Start(true, "", "", now));
      again.cmd == Some(w.next) && Unattended(again) == {w.next}
  {
    var stopped := Next(w, Stop("", ""));
    StepSafe(w, Stop("", ""));
    StepSafe(stopped, Start(true, "", "", now));
    var again := Next(stopped, Start(true, "", "", now));
    assert w.next in Unattended(again);
  }

  datatype Status = Status(running: bool, process: nat, startedAt: int, error: string)

  class Manager {
    var cmd: Option<nat>
    var startedAt: int
    var lastError: string
    var processes: map<nat, Process>
    var next: nat

    function State(): World
      reads this
    {
      World(cmd, startedAt, lastError, processes, next)
    }

    function StatusLocked(): (s: Status)
      reads this
      ensures s.error == lastError && (s.running <==> cmd.Some?)
      ensures s.running ==> s.process == cmd.value && s.startedAt == startedAt
    {
      if cmd.Some? then Status(true, cmd.value, startedAt, lastError) else Status(false, 0, 0, lastError)
    }

    constructor ()
      ensures State() == Initial()
    {
      cmd, startedAt, lastError := None, 0, "";
      processes, next := map[], 0;
    }

    method StartServer(available: bool, cancelled: string, fault: string, now: int) returns (status: Status)
      modifies this
      ensures State() == Next(old(State()), Start(available, cancelled, fault, now))
      ensures status == StatusLocked()
    {
      if !available {
        lastError := NOT_FOUND;
        return StatusLocked();
      }
      if cmd.Some? {
        return StatusLocked();
      }
      if cancelled != "" {
        lastError := cancelled;
        return StatusLocked();
      }
      if fault != "" {
        lastError := fault;
        return StatusLocked();
      }
      var process := next;
      next, processes := next + 1, processes[process := Process(false, None, true)];
      cmd := Some(process);
      startedAt := now;
      lastError := "";
      return StatusLocked();
    }

    method StopServer(cancelled: string, fault: string) returns (status: Status)
      requires cmd.Some? ==> cmd.value in processes
      modifies this
      ensures State() == Next(old(State()), Stop(cancelled, fault))
      ensures status == StatusLocked()
    {
      if cmd.None? {
        return StatusLocked();
      }
      if cancelled != "" {
        lastError := cancelled;
        return StatusLocked();
      }
      if fault != "" {
        lastError := fault;
        return StatusLocked();
      }
      processes := processes[cmd.value := processes[cmd.value].(killed := true)];
      cmd := None;
      startedAt := 0;
      return StatusLocked();
    }

    /** The goroutine after Wait returned. */
    method Waited(process: nat)
      requires Enabled(State(), Reap(process))
      modifies this
      ensures State() == Next(old(State()), Reap(process))
    {
      var error := processes[process].ended.value;
      if cmd == Some(process) {
        if error != "" {
          lastError := error;
        }
        cmd := None;
        startedAt := 0;
      }
      processes := processes[process := processes[process].(waiting := false)];
    }
  }
}
