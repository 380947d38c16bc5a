/** The UDP echo manager: a mutex-protected handle and one goroutine per session, as a system of
    atomic steps. A step is a critical section or one socket call of one goroutine. */
module EchoSession {
  import opened Wrappers

  const SECOND: int := 1_000_000_000
  const BUFFER: nat := 1500

  /** Where a session's goroutine is in its loop. */
  datatype Phase =
    | Waiting
    | Reading(deadline: int)
    | Echoing(datagram: string, readAt: int)
    | Finishing
    | Done

  datatype Session = Session(token: string, expires: int, phase: Phase)

  datatype Echo = Echo(socket: nat, datagram: string, readAt: int)

  /** The manager's fields, the process's open sockets, every goroutine ever started, the clock
      and what has been echoed. Sockets are numbered in the order they were opened. */
  datatype World = World(conn: Option<nat>, token: string, expires: int, open: set<nat>,
                         sessions: map<nat, Session>, next: nat, clock: int, echoed: seq<Echo>)

  function Initial(clock: int): World {
    World(None, "", 0, {}, map[], 0, clock, [])
  }

  function Lifetime(duration: int): int {
    if duration < 30 * SECOND || duration > 600 * SECOND then 120 * SECOND else duration
  }

  predicate HasToken(token: string, datagram: string) {
    |datagram| >= |token| + 1 && datagram[..|token| + 1] == token + "|"
  }

  function Sockets(conn: Option<nat>): set<nat> {
    if conn.Some? then {conn.value} else {}
  }

  datatype Failure = NoRandom | NoSocket

  datatype Event =
    | StartOk(token: string, duration: int)
    | StartFails(failure: Failure)
    | Stopping
    | Tick(elapsed: nat)
    | SetDeadline(socket: nat)
    | ReadOk(socket: nat, datagram: string)
    | ReadFails(socket: nat, cancelled: bool)
    | WriteBack(socket: nat)
    | Finish(socket: nat)

  function Move(w: World, socket: nat, phase: Phase): World
    requires socket in w.sessions
  {
    w.(sessions := w.sessions[socket := w.sessions[socket].(phase := phase)])
  }

  /** When an event can happen: a read succeeds only on an open socket before its deadline, and
      fails otherwise only for reasons the loop then inspects. */
  predicate Enabled(w: World, e: Event) {
    match e
    case SetDeadline(s) => s in w.sessions && w.sessions[s].phase.Waiting?
    case ReadOk(s, d) => s in w.sessions && w.sessions[s].phase.Reading? && s in w.open
                         && w.clock < w.sessions[s].phase.deadline && |d| <= BUFFER
    case ReadFails(s, _) => s in w.sessions && w.sessions[s].phase.Reading?
    case WriteBack(s) => s in w.sessions && w.sessions[s].phase.Echoing?
    case Finish(s) => s in w.sessions && w.sessions[s].phase.Finishing?
    case _ => true
  }

  function Next(w: World, e: Event): World
    requires Enabled(w, e)
  {
    match e
    case StartOk(token, duration) =>
      w.(conn := Some(w.next), token := token, expires := w.clock + Lifetime(duration),
         open := w.open - Sockets(w.conn) + {w.next}, next := w.next + 1,
         sessions := w.sessions[w.next := Session(token, w.clock + Lifetime(duration), Waiting)])
    case StartFails(_) => w.(conn := None, open := w.open - Sockets(w.conn))
    case Stopping => w.(conn := None, token := "", expires := 0, open := w.open - Sockets(w.conn))
    case Tick(elapsed) => w.(clock := w.clock + elapsed)
    case SetDeadline(s) =>
      var soon := w.clock + SECOND;
      Move(w, s, Reading(if w.sessions[s].expires < soon then w.sessions[s].expires else soon))
    case ReadOk(s, d) =>
      Move(w, s, if HasToken(w.sessions[s].token, d) then Echoing(d, w.clock) else Waiting)
    case ReadFails(s, cancelled) =>
      Move(w, s, if s !in w.open || cancelled || w.clock > w.sessions[s].expires then Finishing else Waiting)
    case WriteBack(s) =>
      var phase := w.sessions[s].phase;
      var sent := if s in w.open then [Echo(s, phase.datagram, phase.readAt)] else [];
      Move(w, s, Waiting).(echoed := w.echoed + sent)
    case Finish(s) =>
      var freed := if w.conn == Some(s) then w.(conn := None, token := "", open := w.open - {s}) else w;
      Move(freed, s, Done)
  }

  ghost predicate SessionOk(w: World, s: nat)
    requires s in w.sessions
  {
    var session := w.sessions[s];
    && s < w.next
    && (session.phase.Reading? ==> session.phase.deadline <= session.expires)
    && (session.phase.Echoing? ==>
          HasToken(session.token, session.phase.datagram) && session.phase.readAt < session.expires)
  }

  ghost predicate EchoOk(w: World, e: Echo) {
    && e.socket in w.sessions
    && HasToken(w.sessions[e.socket].token, e.datagram) && e.readAt < w.sessions[e.socket].expires
  }

  /** What every interleaving keeps. */
  ghost predicate Safe(w: World) {
    && w.open == Sockets(w.conn)
    && (w.conn.Some? ==>
          w.conn.value in w.sessions && !w.sessions[w.conn.value].phase.Done?
          && w.sessions[w.conn.value].token == w.token && w.sessions[w.conn.value].expires == w.expires)
    && (forall s :: s in w.sessions ==> SessionOk(w, s))
    && (forall i :: 0 <= i < |w.echoed| ==> EchoOk(w, w.echoed[i]))
  }

  /** Tokens and expiries of sessions never change. */
  lemma SessionsStay(w: World, e: Event)
    requires Safe(w) && Enabled(w, e)
    ensures var after := Next(w, e);
      && (forall s :: s in w.sessions ==> s in after.sessions && after.sessions[s].token == w.sessions[s].token
                                          && after.sessions[s].expires == w.sessions[s].expires)
      && w.next !in w.sessions
  {
    hide HasToken, Lifetime;
    assert w.next in w.sessions ==> SessionOk(w, w.next);
  }

  lemma StepSafe(w: World, e: Event)
    requires Safe(w) && Enabled(w, e)
    ensures Safe(Next(w, e))
  {
    hide HasToken, Lifetime;
    SessionsStay(w, e);
    var after := Next(w, e);
    forall i | 0 <= i < |after.echoed| ensures EchoOk(after, after.echoed[i]) {
      if i < |w.echoed| {
        assert EchoOk(w, w.echoed[i]) && after.echoed[i] == w.echoed[i];
      } else {
        assert SessionOk(w, after.echoed[i].socket);
      }
    }
    forall s | s in after.sessions ensures SessionOk(after, s) {
      if s in w.sessions {
        assert SessionOk(w, s);
      }
    }
  }

  /** A run from a fresh manager under any interleaving. */
  ghost predicate Run(worlds: seq<World>, events: seq<Event>) {
    && |worlds| == |events| + 1
    && (exists clock :: worlds[0] == Initial(clock))
    && forall i :: 0 <= i < |events| ==> Enabled(worlds[i], events[i]) && worlds[i + 1] == Next(worlds[i], events[i])
  }

  lemma {:induction false} RunSafe(worlds: seq<World>, events: seq<Event>, i: nat)
    requires Run(worlds, events) && i < |worlds|
    ensures Safe(worlds[i])
  {
    hide Enabled, Next, Safe;
    if i == 0 {
      StartsSafe(worlds[0]);
    } else {
      RunSafe(worlds, events, i - 1);
      StepSafe(worlds[i - 1], events[i - 1]);
    }
  }

  lemma StartsSafe(w: World)
    requires exists clock :: w == Initial(clock)
    ensures Safe(w)
  {
  }

  /** Under every interleaving: at most one socket is open and it is the manager's; a handle
      has a goroutine that has not finished; and everything echoed carried the token of its own
      session and was read before that session's expiry. */
  lemma SessionsSafe(worlds: seq<World>, events: seq<Event>, i: nat)
    requires Run(worlds, events) && i < |worlds|
    ensures var w := worlds[i];
      && |w.open| <= 1 && (forall s :: s in w.open ==> w.conn == Some(s))
      && (w.conn.Some? ==>
            w.conn.value in w.open && w.conn.value in w.sessions && !w.sessions[w.conn.value].phase.Done?)
      && (forall k :: 0 <= k < |w.echoed| ==> EchoOk(w, w.echoed[k]))
  {
    RunSafe(worlds, events, i);
  }

  /** The goroutine an event belongs to, if any. */
  function Owner(e: Event): Option<nat> {
    match e
    case SetDeadline(s) => Some(s)
    case ReadOk(s, _) => Some(s)
    case ReadFails(s, _) => Some(s)
    case WriteBack(s) => Some(s)
    case Finish(s) => Some(s)
    case _ => None
  }

  /** No goroutine touches a session it does not own: whatever it does, finishing included, the
      manager's handle, token and expiry, the open sockets and all other goroutines stay. */
  lemma StaleHarmless(w: World, e: Event, s: nat)
    requires Safe(w) && Enabled(w, e) && Owner(e) == Some(s) && w.conn != Some(s)
    ensures var after := Next(w, e);
      && after.conn == w.conn && after.token == w.token && after.expires == w.expires && after.open == w.open
      && after.echoed == w.echoed && after.sessions - {s} == w.sessions - {s}
  {
    assert s !in w.open;
  }

  /** How many own steps a goroutine past its expiry can still take. */
  function Rank(phase: Phase): nat {
    match phase
    case Echoing(_, _) => 4
    case Waiting => 3
    case Reading(_) => 2
    case Finishing => 1
    case Done => 0
  }

  /** Past its expiry every step of a goroutine brings it closer to its end, the end releases
      the handle, and until then it always has a step to take. */
  lemma ExpiredSessionEnds(w: World, s: nat)
    requires Safe(w) && s in w.sessions && w.clock > w.sessions[s].expires
    ensures !w.sessions[s].phase.Done? ==> exists e :: Enabled(w, e) && Owner(e) == Some(s)
    ensures forall e :: Enabled(w, e) && Owner(e) == Some(s) ==>
      Rank(Next(w, e).sessions[s].phase) < Rank(w.sessions[s].phase)
    ensures forall e :: Enabled(w, e) && Owner(e) == Some(s) && Next(w, e).sessions[s].phase.Done? ==>
      Next(w, e).conn != Some(s) && s !in Next(w, e).open
  {
    hide HasToken;
    assert SessionOk(w, s);
    var e := match w.sessions[s].phase
      case Waiting => SetDeadline(s)
      case Reading(_) => ReadFails(s, false)
      case Echoing(_, _) => WriteBack(s)
      case _ => Finish(s);
    assert !w.sessions[s].phase.Done? ==> Enabled(w, e) && Owner(e) == Some(s);
  }

  /** The own steps of a goroutine among some events. */
  function OwnSteps(events: seq<Event>, s: nat): nat {
    if events == [] then 0
    else OwnSteps(events[..|events| - 1], s) + (if Owner(events[|events| - 1]) == Some(s) then 1 else 0)
  }

  lemma OthersLeave(w: World, e: Event, s: nat)
    requires Safe(w) && Enabled(w, e) && s in w.sessions && Owner(e) != Some(s)
    ensures s in Next(w, e).sessions && Next(w, e).sessions[s] == w.sessions[s]
  {
    hide HasToken, Lifetime;
    SessionsStay(w, e);
  }

  lemma ClockRuns(w: World, e: Event)
    requires Enabled(w, e)
    ensures Next(w, e).clock >= w.clock
  {
    hide HasToken, Lifetime;
  }

  /** Under every interleaving: a goroutine past its expiry has at most as many own steps left as its
      place in the loop allows, which is four, whatever the others do meanwhile, and one that has
      ended holds neither the handle nor an open socket. */
  lemma {:induction false} ExpiredSessionBounded(worlds: seq<World>, events: seq<Event>, i: nat, j: nat, s: nat)
    requires Run(worlds, events) && i <= j < |worlds|
    requires s in worlds[i].sessions && worlds[i].clock > worlds[i].sessions[s].expires
    ensures s in worlds[j].sessions && worlds[j].clock > worlds[j].sessions[s].expires
    ensures OwnSteps(events[i..j], s) + Rank(worlds[j].sessions[s].phase) <= Rank(worlds[i].sessions[s].phase) <= 4
    ensures worlds[j].sessions[s].phase.Done? ==> worlds[j].conn != Some(s) && s !in worlds[j].open
    decreases j - i
  {
    hide Enabled, Next, Safe;
    RunSafe(worlds, events, j);
    if i == j {
      assert events[i..j] == [];
    } else {
      ExpiredSessionBounded(worlds, events, i, j - 1, s);
      RunSafe(worlds, events, j - 1);
      var w, e := worlds[j - 1], events[j - 1];
      SessionsStay(w, e);
      ClockRuns(w, e);
      assert events[i..j][..j - 1 - i] == events[i..j - 1];
      if Owner(e) == Some(s) {
        ExpiredSessionEnds(w, s);
      } else {
        OthersLeave(w, e, s);
      }
    }
    if worlds[j].sessions[s].phase.Done? {
      DoneReleased(worlds[j], s);
    }
  }

  lemma DoneReleased(w: World, s: nat)
    requires Safe(w) && s in w.sessions && w.sessions[s].phase.Done?
    ensures w.conn != Some(s) && s !in w.open
  {
  }

  datatype StartResult = Started(token: string, expires: int) | Failed(failure: Failure)

  /** The manager itself. Its critical sections, and the system calls around them, on its own
      fields and the world they act in. */
  class Manager {
    var conn: Option<nat>
    var token: string
    var expires: int
    var open: set<nat>
    var sessions: map<nat, Session>
    var next: nat
    var clock: int
    var echoed: seq<Echo>

    function State(): World
      reads this
    {
      World(conn, token, expires, open, sessions, next, clock, echoed)
    }

    constructor (clock: int)
      ensures State() == Initial(clock)
    {
      conn, token, expires := None, "", 0;
      open, sessions, next := {}, map[], 0;
      this.clock := clock;
      echoed := [];
    }

    /** raw is the random token, None when the random source fails; listens says whether the
        port could be opened. */
    method Start(raw: Option<string>, listens: bool, duration: int) returns (r: StartResult)
      modifies this
      ensures State() == Next(old(State()), if raw.None? then StartFails(NoRandom)
                                            else if !listens then StartFails(NoSocket)
                                            else StartOk(raw.value, duration))
      ensures r == if raw.None? then Failed(NoRandom) else if !listens then Failed(NoSocket)
                   else Started(raw.value, old(clock) + Lifetime(duration))
    {
      if conn.Some? {
        open := open - {conn.value};
        conn := None;
      }
      if raw.None? {
        return Failed(NoRandom);
      }
      if !listens {
        return Failed(NoSocket);
      }
      var socket := next;
      next, open := next + 1, open + {socket};
      var span := duration;
      if span < 30 * SECOND || span > 600 * SECOND {
        span := 120 * SECOND;
      }
      conn := Some(socket);
      token := raw.value;
      expires := clock + span;
      sessions := sessions[socket := Session(token, expires, Waiting)];
      return Started(token, expires);
    }

    method Stop()
      modifies this
      ensures State() == Next(old(State()), Stopping)
    {
      if conn.Some? {
        open := open - {conn.value};
      }
      conn, token, expires := None, "", 0;
    }

    /** The end of serve: the guard compares the handle with the goroutine's own socket. */
    method EndServe(socket: nat)
      requires Enabled(State(), Finish(socket))
      modifies this
      ensures State() == Next(old(State()), Finish(socket))
    {
      if conn == Some(socket) {
        open := open - {socket};
        conn := None;
        token := "";
      }
      sessions := sessions[socket := sessions[socket].(phase := Done)];
    }

    /** One turn of the serve loop after a read, with its result. */
    method AfterRead(socket: nat, datagram: Option<string>, cancelled: bool)
      requires Enabled(State(), if datagram.Some? then ReadOk(socket, datagram.value) else ReadFails(socket, cancelled))
      modifies this
      ensures State() == Next(old(State()), if datagram.Some? then ReadOk(socket, datagram.value)
              else ReadFails(socket, cancelled))
    {
      var session := sessions[socket];
      var phase := Waiting;
      if datagram.None? {
        if socket !in open || cancelled || clock > session.expires {
          phase := Finishing;
        }
      } else {
        var prefix := session.token + "|";
        if |datagram.value| >= |prefix| && datagram.value[..|prefix|] == prefix {
          phase := Echoing(datagram.value, clock);
        }
      }
      sessions := sessions[socket := session.(phase := phase)];
    }

    /** The top of the serve loop: the read deadline never lies beyond the session's expiry. */
    method ArmDeadline(socket: nat)
      requires Enabled(State(), SetDeadline(socket))
      modifies this
      ensures State() == Next(old(State()), SetDeadline(socket))
    {
      var deadline := clock + SECOND;
      if sessions[socket].expires < deadline {
        deadline := sessions[socket].expires;
      }
      sessions := sessions[socket := sessions[socket].(phase := Reading(deadline))];
    }

    /** A write to a socket closed in the meantime sends nothing. */
    method WriteEcho(socket: nat)
      requires Enabled(State(), WriteBack(socket))
      modifies this
      ensures State() == Next(old(State()), WriteBack(socket))
    {
      var phase := sessions[socket].phase;
      if socket in open {
        echoed := echoed + [Echo(socket, phase.datagram, phase.readAt)];
      }
      sessions := sessions[socket := sessions[socket].(phase := Waiting)];
    }
  }
}
