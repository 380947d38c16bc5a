/** What the echo manager does over a run, told from the events alone: which sockets were opened, which
    is in use, which datagrams are owed an answer, and which were answered. */
module EchoRuns {
  import opened EchoSession
  import opened Wrappers

  /** The clock after some events. */
  function Now(clock: int, events: seq<Event>): int {
    if events == [] then clock
    else
      var e := events[|events| - 1];
      Now(clock, events[..|events| - 1]) + if e.Tick? then e.elapsed else 0
  }

  datatype Opening = Opening(token: string, expires: int)

  /** The sockets opened, numbered in order, each with its token and expiry. A duration below thirty
      seconds or above ten minutes means two minutes. */
  function Openings(clock: int, events: seq<Event>): seq<Opening> {
    if events == [] then []
    else
      var front, e := events[..|events| - 1], events[|events| - 1];
      if !e.StartOk? then Openings(clock, front)
      else
        var lasts := if 30_000_000_000 <= e.duration <= 600_000_000_000 then e.duration else 120_000_000_000;
        Openings(clock, front) + [Opening(e.token, Now(clock, front) + lasts)]
  }

  /** The socket in use: the last one opened, until a stop, another start or its own end. */
  function InUse(clock: int, events: seq<Event>): Option<nat> {
    if events == [] then None
    else
      var front, e := events[..|events| - 1], events[|events| - 1];
      match e
      case StartOk(_, _) => Some(|Openings(clock, front)|)
      case StartFails(_) => None
      case Stopping => None
      case Finish(s) => if InUse(clock, front) == Some(s) then None else InUse(clock, front)
      case _ => InUse(clock, front)
  }

  /** The token and expiry the manager shows: those of the last start; a stop clears both, and the end of
      the session in use its token. */
  function Shown(clock: int, events: seq<Event>): Opening {
    if events == [] then Opening("", 0)
    else
      var front, e := events[..|events| - 1], events[|events| - 1];
      match e
      case StartOk(_, _) =>
        var all := Openings(clock, events);
        if all == [] then Opening("", 0) else all[|all| - 1]
      case Stopping => Opening("", 0)
      case Finish(s) =>
        if InUse(clock, front) == Some(s) then Opening("", Shown(clock, front).expires) else Shown(clock, front)
      case _ => Shown(clock, front)
  }

  /** The datagram a socket still owes an answer: the last one it read, if that began with the socket's
      token and a bar and nothing was done on the socket since. */
  function Owed(clock: int, events: seq<Event>, s: nat): Option<Echo> {
    if events == [] then None
    else
      var front, e := events[..|events| - 1], events[|events| - 1];
      if Owner(e) != Some(s) then Owed(clock, front, s)
      else if e.ReadOk? && s < |Openings(clock, front)| && Openings(clock, front)[s].token + "|" <= e.datagram
      then Some(Echo(s, e.datagram, Now(clock, front)))
      else None
  }

  /** The answers sent, in order: each write on a socket in use answers what the socket owes. */
  function Answers(clock: int, events: seq<Event>): seq<Echo> {
    if events == [] then []
    else
      var front, e := events[..|events| - 1], events[|events| - 1];
      if e.WriteBack? && InUse(clock, front) == Some(e.socket) && Owed(clock, front, e.socket).Some?
      then Answers(clock, front) + [Owed(clock, front, e.socket).value]
      else Answers(clock, front)
  }

  datatype Place = Idle | Listening | Answering | Leaving | Left

  /** Where a session's goroutine is, told from the last of its own steps. A read that fails ends it
      exactly when the socket is no longer in use, the program shuts down, or the expiry is past. */
  function PlaceOf(clock: int, events: seq<Event>, s: nat): Place {
    if events == [] then Idle
    else
      var front, e := events[..|events| - 1], events[|events| - 1];
      if Owner(e) != Some(s) then PlaceOf(clock, front, s)
      else match e
        case SetDeadline(_) => Listening
        case ReadOk(_, _) => if Owed(clock, events, s).Some? then Answering else Idle
        case ReadFails(_, cancelled) =>
          if cancelled || InUse(clock, front) != Some(s)
             || (s < |Openings(clock, front)| && Now(clock, front) > Openings(clock, front)[s].expires)
          then Leaving else Idle
        case Finish(_) => Left
        case _ => Idle
  }

  function PlaceIn(phase: Phase): Place {
    match phase
    case Waiting => Idle
    case Reading(_) => Listening
    case Echoing(_, _) => Answering
    case Finishing => Leaving
    case Done => Left
  }

  /** The clock when a socket last set its read deadline. */
  function Armed(clock: int, events: seq<Event>, s: nat): int {
    if events == [] then clock
    else if events[|events| - 1] == SetDeadline(s) then Now(clock, events[..|events| - 1])
    else Armed(clock, events[..|events| - 1], s)
  }

  /** The end of a session has a reason: its socket is no longer in use, its expiry is past, or a read
      failed while the program was shutting down. */
  ghost predicate Over(clock: int, events: seq<Event>, s: nat) {
    || InUse(clock, events) != Some(s)
    || (s < |Openings(clock, events)| && Now(clock, events) > Openings(clock, events)[s].expires)
    || ReadFails(s, true) in events
  }

  /** What the events say of one session. */
  ghost predicate SessionTracks(session: Session, clock: int, events: seq<Event>, s: nat) {
    && s < |Openings(clock, events)|
    && session.token == Openings(clock, events)[s].token && session.expires == Openings(clock, events)[s].expires
    && Owed(clock, events, s) == (if session.phase.Echoing?
                                  then Some(Echo(s, session.phase.datagram, session.phase.readAt)) else None)
    && (session.phase.Reading? ==>
          var soon := Armed(clock, events, s) + 1_000_000_000;
          session.phase.deadline == if session.expires < soon then session.expires else soon)
    && (session.phase.Finishing? || session.phase.Done? ==> Over(clock, events, s))
    && PlaceIn(session.phase) == PlaceOf(clock, events, s)
  }

  ghost predicate Tracks(w: World, clock: int, events: seq<Event>) {
    && w.clock == Now(clock, events) && w.conn == InUse(clock, events) && w.next == |Openings(clock, events)|
    && (forall s: nat :: s in w.sessions <==> s < w.next)
    && (forall s :: s in w.sessions ==> SessionTracks(w.sessions[s], clock, events, s))
    && (forall e :: e in events && Owner(e).Some? ==> Owner(e).value < w.next)
    && Opening(w.token, w.expires) == Shown(clock, events)
    && w.echoed == Answers(clock, events)
  }

  lemma Front(events: seq<Event>, e: Event)
    ensures (events + [e])[..|events + [e]| - 1] == events && (events + [e])[|events + [e]| - 1] == e
  {
  }

  /** What one more event adds to the openings. */
  lemma OpeningsNext(clock: int, events: seq<Event>, e: Event)
    ensures var before, after := Openings(clock, events), Openings(clock, events + [e]);
      |before| <= |after| && (!e.StartOk? ==> after == before) && after[..|before|] == before
    ensures Now(clock, events + [e]) >= Now(clock, events)
  {
    Front(events, e);
  }

  /** A socket that went out of use stays so. */
  lemma OverStays(clock: int, events: seq<Event>, e: Event, s: nat)
    requires s < |Openings(clock, events)| && Over(clock, events, s)
    ensures Over(clock, events + [e], s)
  {
    Front(events, e);
    OpeningsNext(clock, events, e);
  }

  lemma OtherTracks(w: World, clock: int, events: seq<Event>, e: Event, s: nat)
    requires Safe(w) && Tracks(w, clock, events) && Enabled(w, e) && s in w.sessions && Owner(e) != Some(s)
    ensures s in Next(w, e).sessions && SessionTracks(Next(w, e).sessions[s], clock, events + [e], s)
  {
    OthersLeave(w, e, s);
    assert SessionTracks(w.sessions[s], clock, events, s);
    hide Next, Enabled, Safe, Tracks, Over;
    Front(events, e);
    OpeningsNext(clock, events, e);
    if w.sessions[s].phase.Finishing? || w.sessions[s].phase.Done? {
      OverStays(clock, events, e, s);
    }
  }

  lemma OwnTracks(w: World, clock: int, events: seq<Event>, e: Event, s: nat)
    requires Safe(w) && Tracks(w, clock, events) && Enabled(w, e) && Owner(e) == Some(s)
    ensures s in Next(w, e).sessions && SessionTracks(Next(w, e).sessions[s], clock, events + [e], s)
  {
    hide Lifetime;
    assert SessionTracks(w.sessions[s], clock, events, s);
    Front(events, e);
    OpeningsNext(clock, events, e);
  }

  lemma NewTracks(w: World, clock: int, events: seq<Event>, e: Event)
    requires Safe(w) && Tracks(w, clock, events) && e.StartOk?
    ensures w.next in Next(w, e).sessions && SessionTracks(Next(w, e).sessions[w.next], clock, events + [e], w.next)
  {
    Front(events, e);
    NothingDone(clock, events, w.next);
    assert Owed(clock, events + [e], w.next) == None && PlaceOf(clock, events + [e], w.next) == Idle;
  }

  lemma {:induction false} NothingDone(clock: int, events: seq<Event>, s: nat)
    requires forall e :: e in events ==> Owner(e) != Some(s)
    ensures Owed(clock, events, s) == None && PlaceOf(clock, events, s) == Idle
  {
    if events != [] {
      assert events[|events| - 1] in events;
      NothingDone(clock, events[..|events| - 1], s);
    }
  }

  lemma StepTracks(w: World, clock: int, events: seq<Event>, e: Event)
    requires Safe(w) && Tracks(w, clock, events) && Enabled(w, e)
    ensures Tracks(Next(w, e), clock, events + [e])
  {
    var after, all := Next(w, e), events + [e];
    forall s | s in after.sessions ensures SessionTracks(after.sessions[s], clock, all, s) {
      hide Next, Safe, Enabled, Tracks, SessionTracks;
      if s in w.sessions && Owner(e) != Some(s) {
        OtherTracks(w, clock, events, e, s);
      } else if s in w.sessions {
        OwnTracks(w, clock, events, e, s);
      } else {
        OnlyNew(w, e, s);
        NewTracks(w, clock, events, e);
      }
    }
    FieldsTrack(w, clock, events, e);
    ShownTracks(w, clock, events, e);
    OwnersTrack(w, e);
  }

  lemma ShownTracks(w: World, clock: int, events: seq<Event>, e: Event)
    requires Tracks(w, clock, events) && Enabled(w, e)
    ensures Opening(Next(w, e).token, Next(w, e).expires) == Shown(clock, events + [e])
  {
    hide HasToken, SessionTracks, Answers;
    Front(events, e);
  }

  lemma OwnersTrack(w: World, e: Event)
    requires Safe(w) && Enabled(w, e)
    ensures Owner(e).Some? ==> Owner(e).value in w.sessions
    ensures Next(w, e).next >= w.next
  {
  }

  lemma OnlyNew(w: World, e: Event, s: nat)
    requires Enabled(w, e) && s in Next(w, e).sessions && s !in w.sessions
    ensures e.StartOk? && s == w.next
  {
  }

  lemma FieldsTrack(w: World, clock: int, events: seq<Event>, e: Event)
    requires Safe(w) && Tracks(w, clock, events) && Enabled(w, e)
    ensures var after, all := Next(w, e), events + [e];
      && after.clock == Now(clock, all) && after.conn == InUse(clock, all) && after.next == |Openings(clock, all)|
      && (forall s: nat :: s in after.sessions <==> s < after.next)
      && after.echoed == Answers(clock, all)
  {
    hide Lifetime, HasToken, Over;
    Front(events, e);
    if e.WriteBack? {
      assert SessionTracks(w.sessions[e.socket], clock, events, e.socket);
    }
  }

  lemma {:induction false} RunTracks(worlds: seq<World>, events: seq<Event>, i: nat)
    requires Run(worlds, events) && i < |worlds|
    ensures Tracks(worlds[i], worlds[0].clock, events[..i])
  {
    hide Enabled, Next, Safe, Tracks;
    if i == 0 {
      assert events[..0] == [];
      StartTracks(worlds[0]);
    } else {
      RunTracks(worlds, events, i - 1);
      RunSafe(worlds, events, i - 1);
      assert events[..i] == events[..i - 1] + [events[i - 1]];
      StepTracks(worlds[i - 1], worlds[0].clock, events[..i - 1], events[i - 1]);
    }
  }

  lemma StartTracks(w: World)
    requires exists clock :: w == Initial(clock)
    ensures Tracks(w, w.clock, [])
  {
  }

  /** Under every interleaving: what was echoed is exactly, in order, what the events say: each
      datagram read on a socket that begins with the socket's token and a bar, once, if its write came
      while the socket was in use. The socket in use and its token and expiry are those of the last
      successful start, if neither a stop, a failed start nor its own end came since. */
  lemma EchoedExactly(worlds: seq<World>, events: seq<Event>, i: nat)
    requires Run(worlds, events) && i < |worlds|
    ensures var w, clock, past := worlds[i], worlds[0].clock, events[..i];
      && w.echoed == Answers(clock, past)
      && w.conn == InUse(clock, past)
      && w.open == (if w.conn.Some? then {w.conn.value} else {})
      && Opening(w.token, w.expires) == Shown(clock, past)
      && (w.conn.Some? ==> w.conn.value < |Openings(clock, past)|
                           && Opening(w.token, w.expires) == Openings(clock, past)[w.conn.value])
  {
    RunTracks(worlds, events, i);
    RunSafe(worlds, events, i);
  }

  /** So a datagram with the token is answered by the write that follows its read, while the socket is
      in use, and a datagram without it never. */
  lemma ReadAnswered(worlds: seq<World>, events: seq<Event>, i: nat, j: nat, s: nat)
    requires Run(worlds, events) && i < j < |events|
    requires events[i].ReadOk? && events[i].socket == s && forall k :: i < k < j ==> Owner(events[k]) != Some(s)
    ensures s in worlds[i].sessions
    ensures events[j] == WriteBack(s) ==> worlds[i].sessions[s].token + "|" <= events[i].datagram
    ensures worlds[i].sessions[s].token + "|" <= events[i].datagram && Owner(events[j]) == Some(s) ==>
              events[j] == WriteBack(s)
              && worlds[j + 1].echoed == worlds[j].echoed + if s in worlds[j].open
                                         then [Echo(s, events[i].datagram, worlds[i].clock)] else []
  {
    hide Next, Enabled, Owed, Openings;
    var clock := worlds[0].clock;
    SessionAt(worlds, events, i, s);
    SessionAt(worlds, events, j, s);
    ReadsOwn(worlds, events, i, s);
    OpeningsGrow(clock, events, i, j);
    OwedLast(clock, events, i, j, s);
    if Owner(events[j]) == Some(s) {
      OwnStep(worlds, events, j, s);
    }
  }

  /** What the events say of one session in a run. */
  lemma SessionAt(worlds: seq<World>, events: seq<Event>, i: nat, s: nat)
    requires Run(worlds, events) && i < |worlds|
    ensures var w, clock, past := worlds[i], worlds[0].clock, events[..i];
      && (s in w.sessions <==> s < |Openings(clock, past)|) && w.clock == Now(clock, past)
      && (s in w.sessions ==>
            && w.sessions[s].token == Openings(clock, past)[s].token
            && Owed(clock, past, s) == (if w.sessions[s].phase.Echoing?
                                        then Some(Echo(s, w.sessions[s].phase.datagram, w.sessions[s].phase.readAt))
                                        else None))
  {
    hide Next, Enabled, Owed, Openings, Now, InUse, Over, PlaceOf, Armed, Answers;
    RunTracks(worlds, events, i);
    assert s in worlds[i].sessions ==> SessionTracks(worlds[i].sessions[s], worlds[0].clock, events[..i], s);
  }

  lemma ReadsOwn(worlds: seq<World>, events: seq<Event>, i: nat, s: nat)
    requires Run(worlds, events) && i < |events| && events[i].ReadOk? && events[i].socket == s
    ensures s in worlds[i].sessions
  {
    assert Enabled(worlds[i], events[i]);
  }

  /** A goroutine's own step while it owes an answer is its write, and no step of its own is a write
      otherwise. */
  lemma OwnStep(worlds: seq<World>, events: seq<Event>, j: nat, s: nat)
    requires Run(worlds, events) && j < |events| && Owner(events[j]) == Some(s)
    ensures s in worlds[j].sessions
    ensures var w, phase := worlds[j], worlds[j].sessions[s].phase;
      && (events[j] == WriteBack(s) <==> phase.Echoing?)
      && (phase.Echoing? ==>
            worlds[j + 1].echoed == w.echoed + if s in w.open then [Echo(s, phase.datagram, phase.readAt)] else [])
  {
    assert Enabled(worlds[j], events[j]) && worlds[j + 1] == Next(worlds[j], events[j]);
  }

  lemma {:induction false} OpeningsGrow(clock: int, events: seq<Event>, i: nat, j: nat)
    requires i <= j <= |events|
    ensures |Openings(clock, events[..i])| <= |Openings(clock, events[..j])|
    decreases j - i
  {
    if i < j {
      OpeningsGrow(clock, events, i, j - 1);
      assert events[..j] == events[..j - 1] + [events[j - 1]];
      OpeningsNext(clock, events[..j - 1], events[j - 1]);
    }
  }

  lemma {:induction false} OwedLast(clock: int, events: seq<Event>, i: nat, j: nat, s: nat)
    requires i < j <= |events| && events[i].ReadOk? && events[i].socket == s && s < |Openings(clock, events[..i])|
    requires forall k :: i < k < j ==> Owner(events[k]) != Some(s)
    ensures Owed(clock, events[..j], s) ==
            if Openings(clock, events[..i])[s].token + "|" <= events[i].datagram
            then Some(Echo(s, events[i].datagram, Now(clock, events[..i]))) else None
    decreases j - i
  {
    assert events[..j][..j - 1] == events[..j - 1];
    if i + 1 < j {
      OwedLast(clock, events, i, j - 1, s);
    }
  }

  /** A session whose socket is in use goes on until its expiry, or until the program shuts down. */
  lemma SessionGoesOn(worlds: seq<World>, events: seq<Event>, i: nat, s: nat)
    requires Run(worlds, events) && i < |worlds| && worlds[i].conn == Some(s)
    requires ReadFails(s, true) !in events[..i]
    ensures s in worlds[i].sessions
    ensures worlds[i].clock <= worlds[i].sessions[s].expires ==>
              !worlds[i].sessions[s].phase.Finishing? && !worlds[i].sessions[s].phase.Done?
  {
    RunTracks(worlds, events, i);
    RunSafe(worlds, events, i);
    assert SessionTracks(worlds[i].sessions[s], worlds[0].clock, events[..i], s);
  }

  /** Each read waits at most a second, and never past the expiry. */
  lemma ReadsWake(worlds: seq<World>, events: seq<Event>, i: nat, s: nat)
    requires Run(worlds, events) && i < |worlds| && s in worlds[i].sessions && worlds[i].sessions[s].phase.Reading?
    ensures var soon := Armed(worlds[0].clock, events[..i], s) + 1_000_000_000;
            worlds[i].sessions[s].phase.deadline == if worlds[i].sessions[s].expires < soon
                                                    then worlds[i].sessions[s].expires else soon
  {
    RunTracks(worlds, events, i);
    assert SessionTracks(worlds[i].sessions[s], worlds[0].clock, events[..i], s);
  }

  /** Which steps can happen, told from the events: a goroutine that is idle sets a deadline, one that
      listens reads a datagram of up to 1500 bytes before the deadline on the socket in use or fails to,
      one with an answer writes it, one that leaves ends; starts, stops and time are always possible. */
  lemma StepsPossible(worlds: seq<World>, events: seq<Event>, i: nat, s: nat)
    requires Run(worlds, events) && i < |worlds|
    ensures var w, clock, past := worlds[i], worlds[0].clock, events[..i];
            var known := s < |Openings(clock, past)|;
            var place, soon := PlaceOf(clock, past, s), Armed(clock, past, s) + 1_000_000_000;
      && (Enabled(w, SetDeadline(s)) <==> known && place == Idle)
      && (forall d :: Enabled(w, ReadOk(s, d)) <==>
            known && place == Listening && InUse(clock, past) == Some(s) && |d| <= 1500
            && Now(clock, past) < soon && Now(clock, past) < Openings(clock, past)[s].expires)
      && (forall c :: Enabled(w, ReadFails(s, c)) <==> known && place == Listening)
      && (Enabled(w, WriteBack(s)) <==> known && place == Answering)
      && (Enabled(w, Finish(s)) <==> known && place == Leaving)
      && (forall e :: Owner(e) == None ==> Enabled(w, e))
  {
    hide Next, Answers, Owed, Over, Now, Openings, InUse, Armed, PlaceOf, Enabled, SessionTracks, Safe;
    var w, clock, past := worlds[i], worlds[0].clock, events[..i];
    RunTracks(worlds, events, i);
    RunSafe(worlds, events, i);
    OneOpen(w);
    if s in w.sessions {
      assert SessionTracks(w.sessions[s], clock, past, s);
      SessionPossible(w, clock, past, s);
      forall d ensures Enabled(w, ReadOk(s, d)) <==>
          w.sessions[s].phase.Reading? && s in w.open && w.clock < w.sessions[s].phase.deadline && |d| <= 1500
      {
        ReadPossible(w, s, d);
      }
    } else {
      NothingPossible(w, s);
    }
    AlwaysPossible(w);
  }

  lemma OneOpen(w: World)
    requires Safe(w)
    ensures forall s: nat :: s in w.open <==> w.conn == Some(s)
  {
  }

  lemma SessionPossible(w: World, clock: int, past: seq<Event>, s: nat)
    requires s in w.sessions && SessionTracks(w.sessions[s], clock, past, s)
    ensures var place, phase := PlaceOf(clock, past, s), w.sessions[s].phase;
      && (Enabled(w, SetDeadline(s)) <==> place == Idle)
      && (forall c :: Enabled(w, ReadFails(s, c)) <==> place == Listening)
      && (Enabled(w, WriteBack(s)) <==> place == Answering) && (Enabled(w, Finish(s)) <==> place == Leaving)
      && (phase.Reading? <==> place == Listening) && s < |Openings(clock, past)|
      && (phase.Reading? ==>
            var soon, expires := Armed(clock, past, s) + 1_000_000_000, Openings(clock, past)[s].expires;
            phase.deadline == if expires < soon then expires else soon)
  {
    hide Owed, Over, Now, Openings, InUse, Armed, PlaceOf;
  }

  lemma ReadPossible(w: World, s: nat, d: string)
    requires s in w.sessions
    ensures Enabled(w, ReadOk(s, d)) <==>
            w.sessions[s].phase.Reading? && s in w.open && w.clock < w.sessions[s].phase.deadline && |d| <= 1500
  {
  }

  lemma NothingPossible(w: World, s: nat)
    requires s !in w.sessions
    ensures forall e :: Owner(e) == Some(s) ==> !Enabled(w, e)
  {
  }

  lemma AlwaysPossible(w: World)
    ensures forall e :: Owner(e) == None ==> Enabled(w, e)
  {
  }
}
