/** What the iperf3 manager does over a run, told from the events alone: which process it names, since
    when, with which error, and what became of each process. */
module IperfRuns {
  import opened IperfServer
  import opened Wrappers

  datatype Named = Named(process: nat, since: int)

  /** Whether a start launches a process. */
  predicate Launches(current: Option<Named>, e: Event) {
    e.Start? && e.available && e.cancelled == "" && e.fault == "" && current.None?
  }

  /** Whether a stop kills one. */
  predicate Kills(current: Option<Named>, e: Event) {
    e.Stop? && e.cancelled == "" && e.fault == "" && current.Some?
  }

  /** How many processes were launched; they are numbered in order. */
  function Launched(events: seq<Event>): nat {
    if events == [] then 0
    else
      var front := events[..|events| - 1];
      Launched(front) + if Launches(Current(front), events[|events| - 1]) then 1 else 0
  }

  /** The process the manager names: the last one launched, until a stop that kills it or its own end is
      noticed. */
  function Current(events: seq<Event>): Option<Named> {
    if events == [] then None
    else
      var front, e := events[..|events| - 1], events[|events| - 1];
      if Launches(Current(front), e) then Some(Named(Launched(front), e.now))
      else if Kills(Current(front), e) then None
      else if e.Reap? && Current(front).Some? && Current(front).value.process == e.process then None
      else Current(front)
  }

  /** How a process ended, if it did. */
  function Ended(events: seq<Event>, p: nat): Option<string> {
    if events == [] then None
    else
      var e := events[|events| - 1];
      if e.Exit? && e.process == p then Some(e.error) else Ended(events[..|events| - 1], p)
  }

  function Killed(events: seq<Event>, p: nat): bool {
    if events == [] then false
    else
      var front := events[..|events| - 1];
      (Kills(Current(front), events[|events| - 1]) && Current(front).value.process == p) || Killed(front, p)
  }

  /** The error shown: of the last call that failed or process that ended with one while it was named,
      and none after a launch. A start that finds a process running says nothing, unless the executable
      is missing. */
  function Problem(events: seq<Event>): string {
    if events == [] then ""
    else
      var front, e := events[..|events| - 1], events[|events| - 1];
      if Launches(Current(front), e) then ""
      else if e.Start? && !e.available then "iperf3 executable not found"
      else if (e.Start? && Current(front).None?) || (e.Stop? && Current(front).Some?) then
        if e.cancelled != "" then e.cancelled else if e.fault != "" then e.fault else Problem(front)
      else if e.Reap? && Current(front).Some? && Current(front).value.process == e.process
              && Ended(front, e.process).Some? && Ended(front, e.process).value != "" then
        Ended(front, e.process).value
      else Problem(front)
  }

  /** What the events say of one process. */
  ghost predicate ProcessTracks(process: Process, events: seq<Event>, p: nat) {
    && process.killed == Killed(events, p) && process.ended == Ended(events, p)
    && (process.waiting <==> Reap(p) !in events)
  }

  ghost predicate Tracks(w: World, events: seq<Event>) {
    && w.cmd == (if Current(events).Some? then Some(Current(events).value.process) else None)
    && w.startedAt == (if Current(events).Some? then Current(events).value.since else 0)
    && w.lastError == Problem(events) && w.next == Launched(events)
    && (forall p: nat :: p in w.processes <==> p < w.next)
    && (forall p :: p in w.processes ==> ProcessTracks(w.processes[p], events, p))
    && (forall e :: e in events && (e.Exit? || e.Reap?) ==> e.process < w.next)
  }

  lemma Front(events: seq<Event>, e: Event)
    ensures (events + [e])[..|events + [e]| - 1] == events && (events + [e])[|events + [e]| - 1] == e
  {
  }

  lemma FieldsTrack(w: World, events: seq<Event>, e: Event)
    requires Safe(w) && Tracks(w, events) && Enabled(w, e)
    ensures var after, all := Next(w, e), events + [e];
      && after.cmd == (if Current(all).Some? then Some(Current(all).value.process) else None)
      && after.startedAt == (if Current(all).Some? then Current(all).value.since else 0)
      && after.lastError == Problem(all) && after.next == Launched(all)
  {
    Front(events, e);
    hide Killed;
    if e.Reap? {
      assert ProcessTracks(w.processes[e.process], events, e.process);
    }
  }

  lemma ProcessStep(w: World, events: seq<Event>, e: Event, p: nat)
    requires Safe(w) && Tracks(w, events) && Enabled(w, e) && p in Next(w, e).processes
    ensures p in w.processes || p == w.next
    ensures ProcessTracks(Next(w, e).processes[p], events + [e], p)
  {
    Front(events, e);
    hide Problem;
    if p in w.processes {
      assert ProcessTracks(w.processes[p], events, p);
    } else {
      NothingDone(events, p);
      CurrentKnown(events);
    }
  }

  lemma {:induction false} NothingDone(events: seq<Event>, p: nat)
    requires forall e :: e in events && (e.Exit? || e.Reap?) ==> e.process < p
    requires Launched(events) <= p
    ensures Ended(events, p) == None && !Killed(events, p) && Reap(p) !in events
  {
    if events != [] {
      var front, e := events[..|events| - 1], events[|events| - 1];
      assert e in events;
      NothingDone(front, p);
      CurrentKnown(front);
    }
  }

  lemma {:induction false} CurrentKnown(events: seq<Event>)
    ensures Current(events).Some? ==> Current(events).value.process < Launched(events)
  {
    if events != [] {
      CurrentKnown(events[..|events| - 1]);
    }
  }

  lemma StepTracks(w: World, events: seq<Event>, e: Event)
    requires Safe(w) && Tracks(w, events) && Enabled(w, e)
    ensures Tracks(Next(w, e), events + [e])
  {
    var after, all := Next(w, e), events + [e];
    FieldsTrack(w, events, e);
    forall p | p in after.processes ensures ProcessTracks(after.processes[p], all, p) {
      ProcessStep(w, events, e, p);
    }
    hide Current, Launched, Problem, ProcessTracks;
  }

  lemma {:induction false} RunTracks(worlds: seq<World>, events: seq<Event>, i: nat)
    requires Run(worlds, events) && i < |worlds|
    ensures Tracks(worlds[i], events[..i])
  {
    hide Enabled, Next, Safe, Tracks;
    if i == 0 {
      assert events[..0] == [];
      StartTracks();
    } else {
      RunTracks(worlds, events, i - 1);
      ProcessesSafe(worlds, events, i - 1);
      assert events[..i] == events[..i - 1] + [events[i - 1]];
      StepTracks(worlds[i - 1], events[..i - 1], events[i - 1]);
    }
  }

  lemma StartTracks()
    ensures Tracks(Initial(), [])
  {
  }

  /** Under every interleaving the manager names the process the events say, since the time they say,
      and shows the error they say; its processes are those launched, each killed, ended and waited for
      as the events say. */
  lemma ManagerExactly(worlds: seq<World>, events: seq<Event>, i: nat, p: nat)
    requires Run(worlds, events) && i < |worlds|
    ensures var w, past := worlds[i], events[..i];
      && w.cmd == (if Current(past).Some? then Some(Current(past).value.process) else None)
      && w.startedAt == (if Current(past).Some? then Current(past).value.since else 0)
      && w.lastError == Problem(past) && w.next == Launched(past)
      && (p in w.processes <==> p < Launched(past))
      && (p < Launched(past) ==>
            w.processes[p] == Process(Killed(past, p), Ended(past, p), Reap(p) !in past))
  {
    hide Current, Launched, Problem, Killed, Ended;
    RunTracks(worlds, events, i);
    var w := worlds[i];
    if p in w.processes {
      assert ProcessTracks(w.processes[p], events[..i], p);
    }
  }

  /** Each process ends once and is waited for once, after its end; until then both are possible, and
      starts and stops always are. */
  lemma EndsOnce(worlds: seq<World>, events: seq<Event>, i: nat, p: nat)
    requires Run(worlds, events) && i < |worlds|
    ensures var w, past := worlds[i], events[..i];
      && (forall error :: Enabled(w, Exit(p, error)) <==> p < Launched(past) && Ended(past, p).None?)
      && (Enabled(w, Reap(p)) <==> p < Launched(past) && Ended(past, p).Some? && Reap(p) !in past)
      && (forall e: Event :: e.Start? || e.Stop? ==> Enabled(w, e))
  {
    hide Next, Current, Launched, Problem, Killed, Ended;
    ManagerExactly(worlds, events, i, p);
  }
}
