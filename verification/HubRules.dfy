/**
 * The connection lifecycle of pkg/ws/hub.go: what registering, unregistering, abandonment and stats
 * updates make of the hub, and what becomes of its timers. The closed channels, the frames handed over and
 * the abandonments reported are recorded in the order they happen.
 */
module HubRules {
  import opened Basics

  /** One player's place in one session. */
  datatype Slot = Slot(session: string, player: string)

  /** A live socket; the serial number tells one client object from another. */
  datatype Conn = Conn(serial: nat, slot: Slot)

  datatype Status = Connected | Disconnected | Abandoned

  /** The timer is named by its number among the timers started. */
  datatype PlayerState = PlayerState(status: Status, timer: Option<nat>)

  type Frame = nat

  /**
   * Timers are numbered as they are started. A running one may yet be stopped; one that has fired has sent an
   * abandonment event, which names the player and not the timer, and which is due until it is handled.
   */
  datatype Hub = Hub(
    live: map<Slot, Conn>,
    states: map<Slot, PlayerState>,
    pending: map<Slot, seq<Frame>>,
    timers: nat,
    running: map<nat, Slot>,
    due: map<nat, Slot>,
    closed: seq<Conn>,
    sent: map<Slot, seq<Frame>>,
    reported: seq<Slot>)

  function NewHub(): Hub {
    Hub(map[], map[], map[], 0, map[], map[], [], map[], [])
  }

  function FramesOf(m: map<Slot, seq<Frame>>, slot: Slot): seq<Frame> {
    if slot in m then m[slot] else []
  }

  function StateOf(h: Hub, slot: Slot): PlayerState {
    if slot in h.states then h.states[slot] else PlayerState(Connected, None)
  }

  /** The channel takes `room` frames before it is full; only if all fit is the buffer emptied. */
  function Flush(h: Hub, slot: Slot, room: nat): (r: Hub)
    ensures r.(sent := h.sent, pending := h.pending) == h
  {
    var waiting := FramesOf(h.pending, slot);
    if |waiting| == 0 || room == 0 || slot !in h.live then h
    else if room < |waiting| then h.(sent := h.sent[slot := FramesOf(h.sent, slot) + waiting[..room]])
    else h.(sent := h.sent[slot := FramesOf(h.sent, slot) + waiting], pending := h.pending - {slot})
  }

  /** Stopping a timer that has fired already changes nothing. */
  function Stopped(running: map<nat, Slot>, timer: Option<nat>): map<nat, Slot> {
    if timer.Some? then running - {timer.value} else running
  }

  /** A player is there again: a grace period that runs ends. */
  function Arrive(h: Hub, slot: Slot): (r: Hub)
    ensures r.(running := h.running, states := h.states) == h
  {
    var state := StateOf(h, slot);
    if state.status.Disconnected?
    then h.(states := h.states[slot := PlayerState(Connected, None)], running := Stopped(h.running, state.timer))
    else h.(states := h.states[slot := state.(status := Connected)])
  }

  /** A player is gone: unless it was given up, a grace period begins. */
  function Depart(h: Hub, slot: Slot): (r: Hub)
    ensures r.(running := h.running, states := h.states, timers := h.timers) == h
  {
    var state := StateOf(h, slot);
    if state.status.Abandoned? then h.(states := h.states[slot := state])
    else h.(states := h.states[slot := PlayerState(Disconnected, Some(h.timers))], timers := h.timers + 1,
            running := Stopped(h.running, state.timer)[h.timers := slot])
  }

  /** A socket for the same place replaces the one there, whose channel is closed. */
  function Attach(h: Hub, c: Conn): (r: Hub)
    ensures r.(live := h.live, closed := h.closed, running := h.running, states := h.states) == h
  {
    var closed := if c.slot in h.live then h.closed + [h.live[c.slot]] else h.closed;
    Arrive(h.(live := h.live[c.slot := c], closed := closed), c.slot)
  }

  function Register(h: Hub, c: Conn, room: nat): Hub {
    Flush(Attach(h, c), c.slot, room)
  }

  function Unregister(h: Hub, c: Conn): (r: Hub)
    ensures r.sent == h.sent && r.pending == h.pending && r.due == h.due && r.reported == h.reported
  {
    if c.slot !in h.live || h.live[c.slot] != c then h
    else Depart(h.(live := h.live - {c.slot}, closed := h.closed + [c]), c.slot)
  }

  /** Only a disconnected player is given up; the game is told when there is one to tell. */
  function Abandon(h: Hub, slot: Slot, told: bool): (r: Hub)
    ensures r.(states := h.states, reported := h.reported) == h
  {
    if slot in h.states && h.states[slot].status.Disconnected?
    then h.(states := h.states[slot := PlayerState(Abandoned, None)],
            reported := if told then h.reported + [slot] else h.reported)
    else h
  }

  /** The timer runs out, unless it was stopped; its event is due from then on. */
  function Fire(h: Hub, timer: nat): (r: Hub)
    ensures r.(running := h.running, due := h.due) == h
  {
    if timer in h.running then h.(running := h.running - {timer}, due := h.due[timer := h.running[timer]]) else h
  }

  /** The event finds the queue full and is dropped. */
  function Drop(h: Hub, timer: nat): Hub {
    h.(due := h.due - {timer})
  }

  /** The event reaches the hub. */
  function GiveUp(h: Hub, timer: nat, told: bool): (r: Hub)
    ensures r.(due := h.due, states := h.states, reported := h.reported) == h
  {
    if timer in h.due then Abandon(h.(due := h.due - {timer}), h.due[timer], told) else h
  }

  /** A frame goes out at once if the player is there and the channel has room, and waits otherwise. */
  function Deliver(h: Hub, slot: Slot, frame: Frame, room: bool): (r: Hub)
    ensures r.(sent := h.sent, pending := h.pending) == h
  {
    if slot in h.live && room then h.(sent := h.sent[slot := FramesOf(h.sent, slot) + [frame]])
    else h.(pending := h.pending[slot := FramesOf(h.pending, slot) + [frame]])
  }

  datatype Update = Update(player: string, frame: Frame, hasRoom: bool)

  function DeliverAll(h: Hub, session: string, updates: seq<Update>): Hub {
    if |updates| == 0 then h
    else
      var last := updates[|updates| - 1];
      Deliver(DeliverAll(h, session, updates[..|updates| - 1]), Slot(session, last.player), last.frame, last.hasRoom)
  }

  datatype Event =
    | Registers(c: Conn, room: nat)
    | Unregisters(c: Conn)
    | Fires(timer: nat)
    | Drops(timer: nat)
    | GivesUp(timer: nat)
    | Updates(slot: Slot, frame: Frame, hasRoom: bool)

  function Step(h: Hub, e: Event, told: bool): Hub {
    match e
    case Registers(c, room) => Register(h, c, room)
    case Unregisters(c) => Unregister(h, c)
    case Fires(timer) => Fire(h, timer)
    case Drops(timer) => Drop(h, timer)
    case GivesUp(timer) => GiveUp(h, timer, told)
    case Updates(slot, frame, hasRoom) => Deliver(h, slot, frame, hasRoom)
  }

  function From(h: Hub, es: seq<Event>, told: bool): Hub {
    if |es| == 0 then h else Step(From(h, es[..|es| - 1], told), es[|es| - 1], told)
  }

  function After(es: seq<Event>, told: bool): Hub {
    From(NewHub(), es, told)
  }

  // ---- the lifecycle ----------------------------------------------------------------------------

  function RegisteredIn(es: seq<Event>): set<Conn> {
    set i | 0 <= i < |es| && es[i].Registers? :: es[i].c
  }

  /** Every client object is registered at most once; it may be unregistered any number of times. */
  predicate RegisteredOnce(es: seq<Event>) {
    forall i, j :: 0 <= i < j < |es| && es[i].Registers? && es[j].Registers? ==> es[i].c != es[j].c
  }

  predicate NoRepeats<T(==)>(s: seq<T>) {
    forall i, j :: 0 <= i < j < |s| ==> s[i] != s[j]
  }

  /** A player is live exactly when connected, and has a timer exactly when disconnected. */
  ghost predicate Tidy(h: Hub) {
    && (forall slot :: slot in h.live <==> slot in h.states && h.states[slot].status.Connected?)
    && (forall slot :: slot in h.states ==> (h.states[slot].timer.Some? <==> h.states[slot].status.Disconnected?))
    && (forall slot :: slot in h.live ==> h.live[slot].slot == slot)
  }

  /** Live players are on open channels, and no channel is closed twice. */
  ghost predicate Orderly(h: Hub, known: set<Conn>) {
    && Tidy(h)
    && (forall slot :: slot in h.live ==> h.live[slot] in known && h.live[slot] !in h.closed)
    && NoRepeats(h.closed) && (forall i :: 0 <= i < |h.closed| ==> h.closed[i] in known)
  }

  lemma ClosedOnce(closed: seq<Conn>, c: Conn)
    requires NoRepeats(closed) && c !in closed
    ensures NoRepeats(closed + [c])
  {
  }

  lemma Attached(h: Hub, c: Conn)
    ensures var h', state := Attach(h, c), StateOf(h, c.slot);
      && h'.live == h.live[c.slot := c] && h'.timers == h.timers && h'.due == h.due
      && h'.states
           == h.states[c.slot := PlayerState(Connected, if state.status.Disconnected? then None else state.timer)]
      && h'.closed == (if c.slot in h.live then h.closed + [h.live[c.slot]] else h.closed)
      && h'.running == (if state.status.Disconnected? then Stopped(h.running, state.timer) else h.running)
  {
  }

  lemma AttachIsOrderly(h: Hub, known: set<Conn>, c: Conn)
    requires Orderly(h, known) && c !in known
    ensures Orderly(Attach(h, c), known + {c})
  {
    hide Attach;
    Attached(h, c);
    if c.slot in h.live {
      ClosedOnce(h.closed, h.live[c.slot]);
    }
  }

  lemma UnregisterIsOrderly(h: Hub, known: set<Conn>, c: Conn)
    requires Orderly(h, known)
    ensures Orderly(Unregister(h, c), known)
  {
    if c.slot in h.live && h.live[c.slot] == c {
      ClosedOnce(h.closed, c);
    }
  }

  lemma AbandonIsOrderly(h: Hub, known: set<Conn>, slot: Slot, told: bool)
    requires Orderly(h, known)
    ensures Orderly(Abandon(h, slot, told), known)
    ensures Abandon(h, slot, told).reported == h.reported
            || (slot !in h.live && Abandon(h, slot, told).reported == h.reported + [slot])
  {
  }

  lemma GiveUpIsOrderly(h: Hub, known: set<Conn>, timer: nat, told: bool)
    requires Orderly(h, known)
    ensures Orderly(GiveUp(h, timer, told), known)
    ensures GiveUp(h, timer, told).reported == h.reported
            || (timer in h.due && h.due[timer] !in h.live
                && GiveUp(h, timer, told).reported == h.reported + [h.due[timer]])
  {
    hide Orderly, Abandon;
    if timer in h.due {
      var h1 := h.(due := h.due - {timer});
      StaysOrderly(h, h1, known);
      AbandonIsOrderly(h1, known, h.due[timer], told);
    }
  }

  /** Orderliness is about sockets, states and closed channels only. */
  lemma StaysOrderly(h: Hub, h': Hub, known: set<Conn>)
    requires Orderly(h, known) && h'.live == h.live && h'.states == h.states && h'.closed == h.closed
    ensures Orderly(h', known)
  {
  }

  lemma StepIsOrderly(h: Hub, known: set<Conn>, e: Event, told: bool)
    requires Orderly(h, known) && (e.Registers? ==> e.c !in known)
    ensures Orderly(Step(h, e, told), if e.Registers? then known + {e.c} else known)
    ensures Step(h, e, told).reported == h.reported
            || (e.GivesUp? && e.timer in h.due && h.due[e.timer] !in h.live
                && Step(h, e, told).reported == h.reported + [h.due[e.timer]])
  {
    hide Orderly, Flush, Attach, Unregister, GiveUp, Fire, Deliver;
    match e {
      case Registers(c, room) =>
        AttachIsOrderly(h, known, c);
        StaysOrderly(Attach(h, c), Register(h, c, room), known + {c});
      case Unregisters(c) => UnregisterIsOrderly(h, known, c);
      case GivesUp(timer) => GiveUpIsOrderly(h, known, timer, told);
      case _ => StaysOrderly(h, Step(h, e, told), known);
    }
  }

  lemma RegisteredGrows(es: seq<Event>)
    requires |es| > 0
    ensures var before, e := es[..|es| - 1], es[|es| - 1];
      RegisteredIn(es) == if e.Registers? then RegisteredIn(before) + {e.c} else RegisteredIn(before)
  {
    var before, e := es[..|es| - 1], es[|es| - 1];
    forall c | c in RegisteredIn(es)
      ensures c in (if e.Registers? then RegisteredIn(before) + {e.c} else RegisteredIn(before))
    {
      var i :| 0 <= i < |es| && es[i].Registers? && es[i].c == c;
      assert i < |before| ==> before[i] == es[i];
    }
    forall c | c in RegisteredIn(before) ensures c in RegisteredIn(es) {
      var i :| 0 <= i < |before| && before[i].Registers? && before[i].c == c;
      assert es[i] == before[i];
    }
    assert e.Registers? ==> es[|es| - 1].c in RegisteredIn(es);
  }

  lemma NotRegisteredBefore(es: seq<Event>)
    requires RegisteredOnce(es) && |es| > 0 && es[|es| - 1].Registers?
    ensures es[|es| - 1].c !in RegisteredIn(es[..|es| - 1])
  {
    var before := es[..|es| - 1];
    forall i | 0 <= i < |before| && before[i].Registers? ensures before[i].c != es[|es| - 1].c {
      assert before[i] == es[i];
    }
  }

  /** Whatever the order of registrations, departures, stale departures, abandonments and updates. */
  lemma {:induction false} HubStaysOrderly(es: seq<Event>, told: bool)
    requires RegisteredOnce(es)
    ensures Orderly(After(es, told), RegisteredIn(es))
  {
    if |es| > 0 {
      hide Orderly, Step;
      var before, e := es[..|es| - 1], es[|es| - 1];
      HubStaysOrderly(before, told);
      RegisteredGrows(es);
      if e.Registers? {
        NotRegisteredBefore(es);
      }
      StepIsOrderly(After(before, told), RegisteredIn(before), e, told);
    } else {
      assert RegisteredIn(es) == {};
    }
  }

  /** Abandonment is only ever reported for a player who is not connected at that moment. */
  lemma NeverReportedWhileConnected(es: seq<Event>, timer: nat, told: bool)
    requires RegisteredOnce(es) && timer in After(es, told).due && After(es, told).due[timer] in After(es, told).live
    ensures Step(After(es, told), GivesUp(timer), told) == Drop(After(es, told), timer)
  {
    hide Step;
    HubStaysOrderly(es, told);
    ConnectedIsNotGivenUp(After(es, told), timer, told);
  }

  lemma ConnectedIsNotGivenUp(h: Hub, timer: nat, told: bool)
    requires Tidy(h) && timer in h.due && h.due[timer] in h.live
    ensures Step(h, GivesUp(timer), told) == Drop(h, timer)
  {
  }

  // ---- grace periods ------------------------------------------------------------------------------

  /** Every timer ever started has a number below the next one's. */
  ghost predicate Numbered(h: Hub) {
    && (forall n :: n in h.running || n in h.due ==> n < h.timers)
    && (forall slot :: slot in h.states && h.states[slot].timer.Some? ==> h.states[slot].timer.value < h.timers)
  }

  /** The player is disconnected, in the grace period of that timer. */
  predicate Waiting(h: Hub, slot: Slot, own: nat) {
    slot in h.states && h.states[slot] == PlayerState(Disconnected, Some(own))
  }

  /** No timer but `own` is running, or has an event due, for the player. */
  predicate OnlyFor(h: Hub, slot: Slot, own: nat) {
    && (forall n :: n in h.running && h.running[n] == slot ==> n == own)
    && (forall n :: n in h.due && h.due[n] == slot ==> n == own)
  }

  /** No timer is running, and no event is due, for the player. */
  predicate NothingLeftOver(h: Hub, slot: Slot) {
    && (forall n :: n in h.running ==> h.running[n] != slot)
    && (forall n :: n in h.due ==> h.due[n] != slot)
  }

  /** Whatever happens after the live socket goes, no other timer's event ends the grace period that then begins. */
  ghost predicate EndsByOwnTimer(h: Hub, slot: Slot, told: bool)
    requires slot in h.live
  {
    forall es, n :: var h1 := From(Unregister(h, h.live[slot]), es, told);
      Waiting(h1, slot, h.timers) && !Waiting(Step(h1, GivesUp(n), told), slot, h.timers) ==> n == h.timers
  }

  lemma AttachIsTidy(h: Hub, c: Conn)
    requires Tidy(h) && Numbered(h)
    ensures Tidy(Attach(h, c)) && Numbered(Attach(h, c))
  {
    hide Attach;
    Attached(h, c);
  }

  lemma UnregisterIsTidy(h: Hub, c: Conn)
    requires Tidy(h) && Numbered(h)
    ensures Tidy(Unregister(h, c)) && Numbered(Unregister(h, c)) && h.timers <= Unregister(h, c).timers
  {
  }

  lemma AbandonIsTidy(h: Hub, slot: Slot, told: bool)
    requires Tidy(h) && Numbered(h)
    ensures Tidy(Abandon(h, slot, told)) && Numbered(Abandon(h, slot, told))
  {
  }

  lemma GiveUpIsTidy(h: Hub, timer: nat, told: bool)
    requires Tidy(h) && Numbered(h)
    ensures Tidy(GiveUp(h, timer, told)) && Numbered(GiveUp(h, timer, told))
  {
    hide Tidy, Numbered, Abandon;
    if timer in h.due {
      var h1 := h.(due := h.due - {timer});
      StaysTidy(h, h1);
      AbandonIsTidy(h1, h.due[timer], told);
    }
  }

  lemma StaysTidy(h: Hub, h': Hub)
    requires Tidy(h) && Numbered(h)
    requires h'.live == h.live && h'.states == h.states && h'.timers == h.timers
    requires h'.running.Keys + h'.due.Keys <= h.running.Keys + h.due.Keys
    ensures Tidy(h') && Numbered(h')
  {
    assert forall n :: n in h'.running || n in h'.due ==> n in h.running.Keys + h.due.Keys;
  }

  lemma StepIsTidy(h: Hub, e: Event, told: bool)
    requires Tidy(h) && Numbered(h)
    ensures Tidy(Step(h, e, told)) && Numbered(Step(h, e, told)) && h.timers <= Step(h, e, told).timers
  {
    hide Tidy, Numbered, Flush, Attach, Unregister, GiveUp, Deliver;
    match e {
      case Registers(c, room) =>
        AttachIsTidy(h, c);
        StaysTidy(Attach(h, c), Register(h, c, room));
      case Unregisters(c) => UnregisterIsTidy(h, c);
      case GivesUp(timer) => GiveUpIsTidy(h, timer, told);
      case _ => StaysTidy(h, Step(h, e, told));
    }
  }

  lemma {:induction false} RunIsTidy(h: Hub, es: seq<Event>, told: bool)
    requires Tidy(h) && Numbered(h)
    ensures Tidy(From(h, es, told)) && Numbered(From(h, es, told)) && h.timers <= From(h, es, told).timers
  {
    if |es| > 0 {
      hide Step, Tidy, Numbered;
      RunIsTidy(h, es[..|es| - 1], told);
      StepIsTidy(From(h, es[..|es| - 1], told), es[|es| - 1], told);
    }
  }

  /** What a step does to the timers and events of a player who keeps waiting: no new timer is started for it. */
  predicate NoNewTimer(h: Hub, h': Hub, slot: Slot) {
    && (forall n :: n in h'.running && h'.running[n] == slot ==> n in h.running && h.running[n] == slot)
    && (forall n :: n in h'.due && h'.due[n] == slot ==>
          (n in h.due && h.due[n] == slot) || (n in h.running && h.running[n] == slot))
  }

  lemma AttachKeepsWaiting(h: Hub, c: Conn, slot: Slot, own: nat)
    requires Waiting(Attach(h, c), slot, own)
    ensures Waiting(h, slot, own) && NoNewTimer(h, Attach(h, c), slot)
  {
  }

  lemma UnregisterKeepsWaiting(h: Hub, c: Conn, slot: Slot, own: nat)
    requires Tidy(h) && own < h.timers && Waiting(Unregister(h, c), slot, own)
    ensures Waiting(h, slot, own) && NoNewTimer(h, Unregister(h, c), slot)
  {
  }

  lemma GiveUpKeepsWaiting(h: Hub, timer: nat, slot: Slot, own: nat, told: bool)
    requires Waiting(GiveUp(h, timer, told), slot, own)
    ensures Waiting(h, slot, own) && NoNewTimer(h, GiveUp(h, timer, told), slot)
  {
  }

  /** A grace period is not entered twice, and while it lasts no timer is started for the player. */
  lemma StepKeepsWaiting(h: Hub, e: Event, slot: Slot, own: nat, told: bool)
    requires Tidy(h) && own < h.timers && Waiting(Step(h, e, told), slot, own)
    ensures Waiting(h, slot, own)
    ensures OnlyFor(h, slot, own) ==> OnlyFor(Step(h, e, told), slot, own)
  {
    hide Tidy, Flush, Attach, Unregister, GiveUp, Deliver;
    match e {
      case Registers(c, room) => AttachKeepsWaiting(h, c, slot, own);
      case Unregisters(c) => UnregisterKeepsWaiting(h, c, slot, own);
      case GivesUp(timer) => GiveUpKeepsWaiting(h, timer, slot, own, told);
      case _ =>
    }
  }

  lemma {:induction false} RunKeepsWaiting(h: Hub, es: seq<Event>, slot: Slot, own: nat, told: bool)
    requires Tidy(h) && Numbered(h) && own < h.timers && OnlyFor(h, slot, own)
    requires Waiting(From(h, es, told), slot, own)
    ensures OnlyFor(From(h, es, told), slot, own)
  {
    if |es| > 0 {
      hide Step, Tidy, Numbered, OnlyFor, Waiting;
      var before := es[..|es| - 1];
      RunIsTidy(h, before, told);
      StepKeepsWaiting(From(h, before, told), es[|es| - 1], slot, own, told);
      RunKeepsWaiting(h, before, slot, own, told);
    }
  }

  /** The event of any timer ends the grace period of the player it names. */
  lemma AnyEventEndsGrace(h: Hub, slot: Slot, n: nat, told: bool)
    requires Tidy(h) && Numbered(h) && slot in h.live
    requires (n in h.running && h.running[n] == slot) || (n in h.due && h.due[n] == slot)
    ensures !EndsByOwnTimer(h, slot, told)
  {
    var h0 := Unregister(h, h.live[slot]);
    var es := if n in h.due && h.due[n] == slot then [] else [Fires(n)];
    assert es != [] ==> es[..0] == [] && From(h0, [], told) == h0;
    var h1 := From(h0, es, told);
    assert h1 == if es == [] then h0 else Step(h0, Fires(n), told);
    assert Waiting(h1, slot, h.timers) && !Waiting(Step(h1, GivesUp(n), told), slot, h.timers);
  }

  /**
   * Abandonment events do not say which timer sent them. In every run, the grace period that begins when a
   * live socket goes can be ended by no timer but its own exactly when, at that moment, no earlier timer of
   * the player is running or has an event due.
   */
  lemma GraceEndsByOwnTimerIff(es: seq<Event>, slot: Slot, told: bool)
    requires slot in After(es, told).live
    ensures EndsByOwnTimer(After(es, told), slot, told) <==> NothingLeftOver(After(es, told), slot)
  {
    hide Tidy, Numbered, From, Step;
    var h := After(es, told);
    RunIsTidy(NewHub(), es, told) by {
      NewIsTidy();
    }
    if NothingLeftOver(h, slot) {
      GraceBegins(h, slot, told);
      var h0 := Unregister(h, h.live[slot]);
      forall more, n | var h1 := From(h0, more, told);
                       Waiting(h1, slot, h.timers) && !Waiting(Step(h1, GivesUp(n), told), slot, h.timers)
        ensures n == h.timers
      {
        var h1 := From(h0, more, told);
        RunKeepsWaiting(h0, more, slot, h.timers, told);
        EndedBy(h1, slot, h.timers, n, told);
      }
    } else {
      var n :| (n in h.running && h.running[n] == slot) || (n in h.due && h.due[n] == slot);
      AnyEventEndsGrace(h, slot, n, told);
    }
  }

  lemma NewIsTidy()
    ensures Tidy(NewHub()) && Numbered(NewHub())
  {
  }

  lemma GraceBegins(h: Hub, slot: Slot, told: bool)
    requires Tidy(h) && Numbered(h) && slot in h.live && NothingLeftOver(h, slot)
    ensures var h0 := Unregister(h, h.live[slot]);
      Tidy(h0) && Numbered(h0) && h.timers < h0.timers && OnlyFor(h0, slot, h.timers)
  {
  }

  lemma EndedBy(h: Hub, slot: Slot, own: nat, n: nat, told: bool)
    requires Waiting(h, slot, own) && OnlyFor(h, slot, own) && !Waiting(Step(h, GivesUp(n), told), slot, own)
    ensures n == own
  {
  }

  /**
   * A player whose timer fires just before it reconnects, and who then leaves again, is given up at once: the
   * event of the first timer ends the grace period of the second, which is still running.
   */
  lemma LeftoverEventEndsGrace(c: Conn, again: Conn, told: bool) returns (es: seq<Event>)
    requires c != again && c.slot == again.slot
    ensures es == [Registers(c, 0), Unregisters(c), Fires(0), Registers(again, 0), Unregisters(again), GivesUp(0)]
    ensures RegisteredOnce(es)
    ensures Waiting(After(es[..5], told), c.slot, 1)
    ensures var h := After(es, told);
      && h.states == map[c.slot := PlayerState(Abandoned, None)] && h.running == map[1 := c.slot]
      && h.reported == (if told then [c.slot] else [])
  {
    hide Waiting, Step;
    var first := [Registers(c, 0), Unregisters(c), Fires(0)];
    var second := [Registers(again, 0), Unregisters(again)];
    ThreeSteps(NewHub(), first, told);
    TwoSteps(After(first, told), second, told);
    FromFrom(NewHub(), first, second, told);
    FiredEarly(c, told);
    GoneAgain(c, again, told);
    es := first + second + [GivesUp(0)];
    assert es[..5] == es[..|es| - 1] == first + second;
  }

  /** The hub after a visit whose grace period ran out, with nobody there to give up yet. */
  function Overdue(c: Conn): Hub {
    Hub(map[], map[c.slot := PlayerState(Disconnected, Some(0))], map[], 1, map[], map[0 := c.slot], [c], map[], [])
  }

  lemma FiredEarly(c: Conn, told: bool)
    ensures Step(Step(Step(NewHub(), Registers(c, 0), told), Unregisters(c), told), Fires(0), told) == Overdue(c)
  {
    var s := c.slot;
    assert map[0 := s] - {0} == map[] && map[s := c] - {s} == map[];
    assert map[s := PlayerState(Connected, None)][s := PlayerState(Disconnected, Some(0))]
      == map[s := PlayerState(Disconnected, Some(0))];
  }

  lemma GoneAgain(c: Conn, again: Conn, told: bool)
    requires c != again && c.slot == again.slot
    ensures var h := Step(Step(Overdue(c), Registers(again, 0), told), Unregisters(again), told);
      && Waiting(h, c.slot, 1)
      && Step(h, GivesUp(0), told).states == map[c.slot := PlayerState(Abandoned, None)]
      && Step(h, GivesUp(0), told).running == map[1 := c.slot]
      && Step(h, GivesUp(0), told).reported == (if told then [c.slot] else [])
  {
    var s := c.slot;
    var h := Unregister(Register(Overdue(c), again, 0), again);
    assert h.states == map[s := PlayerState(Disconnected, Some(1))];
    assert h.running == map[1 := s] && h.due == map[0 := s];
    assert map[s := PlayerState(Disconnected, Some(1))][s := PlayerState(Abandoned, None)]
      == map[s := PlayerState(Abandoned, None)];
  }

  lemma TwoSteps(h: Hub, es: seq<Event>, told: bool)
    requires |es| == 2
    ensures From(h, es, told) == Step(Step(h, es[0], told), es[1], told)
  {
    hide Step;
    assert es[..1] == [es[0]] && es[..1][..0] == [];
    assert From(h, es[..1], told) == Step(From(h, es[..1][..0], told), es[0], told);
  }

  lemma ThreeSteps(h: Hub, es: seq<Event>, told: bool)
    requires |es| == 3
    ensures From(h, es, told) == Step(Step(Step(h, es[0], told), es[1], told), es[2], told)
  {
    hide Step;
    TwoSteps(h, es[..2], told);
  }

  lemma FromOneMore(h: Hub, es: seq<Event>, e: Event, told: bool)
    ensures From(h, es + [e], told) == Step(From(h, es, told), e, told)
  {
    hide Step;
    assert (es + [e])[..|es|] == es;
  }

  lemma {:induction false} FromFrom(h: Hub, es: seq<Event>, more: seq<Event>, told: bool)
    ensures From(h, es + more, told) == From(From(h, es, told), more, told)
  {
    hide Step;
    if |more| == 0 {
      assert es + more == es;
    } else {
      hide From;
      var before, e := more[..|more| - 1], more[|more| - 1];
      assert more == before + [e] && es + more == (es + before) + [e];
      FromFrom(h, es, before, told);
      FromOneMore(h, es + before, e, told);
      FromOneMore(From(h, es, told), before, e, told);
    }
  }

  // ---- pending updates --------------------------------------------------------------------------

  function Count(s: seq<Frame>, f: Frame): nat {
    if |s| == 0 then 0 else Count(s[..|s| - 1], f) + (if s[|s| - 1] == f then 1 else 0)
  }

  lemma {:induction false} CountConcat(a: seq<Frame>, b: seq<Frame>, f: Frame)
    ensures Count(a + b, f) == Count(a, f) + Count(b, f)
  {
    if |b| == 0 {
      assert a + b == a;
    } else {
      assert (a + b)[..|a + b| - 1] == a + b[..|b| - 1];
      CountConcat(a, b[..|b| - 1], f);
    }
  }

  lemma CountOne(frame: Frame, f: Frame)
    ensures Count([frame], f) == if frame == f then 1 else 0
  {
    assert [frame][..0] == [];
  }

  /** How often a frame has been handed over or is kept for a player. */
  function Accounted(h: Hub, slot: Slot, f: Frame): nat {
    Count(FramesOf(h.sent, slot), f) + Count(FramesOf(h.pending, slot), f)
  }

  /** The flush on registering hands over everything that waits, or nothing. */
  predicate WholeFlush(h: Hub, c: Conn, room: nat) {
    room == 0 || room >= |FramesOf(h.pending, c.slot)|
  }

  lemma FlushAccounts(h: Hub, slot: Slot, room: nat, other: Slot, f: Frame)
    requires slot in h.live
    ensures var waiting := FramesOf(h.pending, slot);
      Accounted(Flush(h, slot, room), other, f) ==
        Accounted(h, other, f) + (if other == slot && room < |waiting| then Count(waiting[..room], f) else 0)
  {
    var waiting := FramesOf(h.pending, slot);
    if room < |waiting| {
      CountConcat(FramesOf(h.sent, slot), waiting[..room], f);
    } else {
      CountConcat(FramesOf(h.sent, slot), waiting, f);
    }
  }

  /** Registering never loses an update; it repeats some exactly when the flush stops half-way. */
  lemma RegisterConservesIff(h: Hub, c: Conn, room: nat)
    ensures forall f :: Accounted(Register(h, c, room), c.slot, f) >= Accounted(h, c.slot, f)
    ensures (forall f :: Accounted(Register(h, c, room), c.slot, f) == Accounted(h, c.slot, f))
            <==> WholeFlush(h, c, room)
  {
    var h1 := Attach(h, c);
    var waiting := FramesOf(h.pending, c.slot);
    forall f ensures Accounted(Register(h, c, room), c.slot, f) ==
                     Accounted(h, c.slot, f) + (if room < |waiting| then Count(waiting[..room], f) else 0) {
      FlushAccounts(h1, c.slot, room, c.slot, f);
    }
    if !WholeFlush(h, c, room) {
      var f := waiting[..room][room - 1];
      assert Count(waiting[..room], f) >= 1;
      assert Accounted(Register(h, c, room), c.slot, f) > Accounted(h, c.slot, f);
    } else if room < |waiting| {
      assert forall f :: Count(waiting[..room], f) == 0;
    }
  }

  /** The updates meant for a player. */
  function Meant(es: seq<Event>, slot: Slot): seq<Frame> {
    if |es| == 0 then []
    else
      var last := es[|es| - 1];
      Meant(es[..|es| - 1], slot) + (if last.Updates? && last.slot == slot then [last.frame] else [])
  }

  /** No registration of the run stops its flush half-way. */
  predicate WholeFlushes(es: seq<Event>, told: bool) {
    |es| == 0
    || (var before, last := es[..|es| - 1], es[|es| - 1];
        WholeFlushes(before, told) && (last.Registers? ==> WholeFlush(After(before, told), last.c, last.room)))
  }

  lemma AttachedIsLive(h: Hub, c: Conn)
    ensures c.slot in Attach(h, c).live
  {
    hide Arrive;
  }

  lemma RegisterAccounts(h: Hub, c: Conn, room: nat, slot: Slot, f: Frame)
    ensures Accounted(Register(h, c, room), slot, f) >= Accounted(h, slot, f)
    ensures WholeFlush(h, c, room) ==> Accounted(Register(h, c, room), slot, f) == Accounted(h, slot, f)
  {
    if c.slot == slot {
      RegisterConservesIff(h, c, room);
    } else {
      hide Count, Attach, Flush;
      AttachedIsLive(h, c);
      FlushAccounts(Attach(h, c), c.slot, room, slot, f);
    }
  }

  lemma DeliverAccounts(h: Hub, to: Slot, frame: Frame, hasRoom: bool, slot: Slot, f: Frame)
    ensures Accounted(Deliver(h, to, frame, hasRoom), slot, f)
      == Accounted(h, slot, f) + if to == slot && frame == f then 1 else 0
  {
    hide Count;
    CountConcat(FramesOf(h.sent, to), [frame], f);
    CountConcat(FramesOf(h.pending, to), [frame], f);
    CountOne(frame, f);
  }

  lemma StepAccounts(h: Hub, e: Event, told: bool, slot: Slot, f: Frame)
    ensures var more := if e.Updates? && e.slot == slot && e.frame == f then 1 else 0;
      && Accounted(Step(h, e, told), slot, f) >= Accounted(h, slot, f) + more
      && ((e.Registers? ==> WholeFlush(h, e.c, e.room)) ==>
            Accounted(Step(h, e, told), slot, f) == Accounted(h, slot, f) + more)
  {
    hide Count, Register, Deliver, Unregister, GiveUp, Fire, WholeFlush;
    match e {
      case Registers(c, room) => RegisterAccounts(h, c, room, slot, f);
      case Updates(to, frame, hasRoom) => DeliverAccounts(h, to, frame, hasRoom, slot, f);
      case _ =>
    }
  }

  /** How often a frame has been meant for a player, and how often handed over or kept, after one more event. */
  lemma MeantGrows(es: seq<Event>, slot: Slot, f: Frame)
    requires |es| > 0
    ensures var before, e := es[..|es| - 1], es[|es| - 1];
      Count(Meant(es, slot), f)
        == Count(Meant(before, slot), f) + if e.Updates? && e.slot == slot && e.frame == f then 1 else 0
  {
    var before, e := es[..|es| - 1], es[|es| - 1];
    var more := if e.Updates? && e.slot == slot then [e.frame] else [];
    CountConcat(Meant(before, slot), more, f);
    if |more| == 1 {
      CountOne(e.frame, f);
    }
  }

  /** No update is ever lost, and none is repeated in a run whose flushes are whole. */
  lemma {:induction false} UpdatesAreKept(es: seq<Event>, told: bool, slot: Slot, f: Frame)
    ensures Accounted(After(es, told), slot, f) >= Count(Meant(es, slot), f)
    ensures WholeFlushes(es, told) ==> Accounted(After(es, told), slot, f) == Count(Meant(es, slot), f)
  {
    if |es| > 0 {
      hide Step, Accounted, WholeFlush, Meant, Count;
      var before, e := es[..|es| - 1], es[|es| - 1];
      UpdatesAreKept(before, told, slot, f);
      StepAccounts(After(before, told), e, told, slot, f);
      MeantGrows(es, slot, f);
    } else {
      assert Accounted(After(es, told), slot, f) == 0;
    }
  }

  /** A flush that stops half-way repeats a frame, and nothing later makes up for that. */
  lemma {:induction false} RepeatedForGood(es: seq<Event>, told: bool) returns (slot: Slot, f: Frame)
    requires !WholeFlushes(es, told)
    ensures Accounted(After(es, told), slot, f) > Count(Meant(es, slot), f)
  {
    hide Step, Register, Accounted, WholeFlush, Meant, Count;
    var before, e := es[..|es| - 1], es[|es| - 1];
    if WholeFlushes(before, told) {
      slot := e.c.slot;
      RegisterConservesIff(After(before, told), e.c, e.room);
      f :| Accounted(Register(After(before, told), e.c, e.room), slot, f) != Accounted(After(before, told), slot, f);
      UpdatesAreKept(before, told, slot, f);
      StepIsRegister(After(before, told), e, told);
    } else {
      slot, f := RepeatedForGood(before, told);
      StepAccounts(After(before, told), e, told, slot, f);
    }
    MeantGrows(es, slot, f);
  }

  lemma StepIsRegister(h: Hub, e: Event, told: bool)
    requires e.Registers?
    ensures Step(h, e, told) == Register(h, e.c, e.room)
  {
  }

  /** No update is ever lost, and each is handed over or kept exactly once exactly when no flush stops half-way. */
  lemma UpdatesAreConservedIff(es: seq<Event>, told: bool)
    ensures forall slot, f :: Accounted(After(es, told), slot, f) >= Count(Meant(es, slot), f)
    ensures (forall slot, f :: Accounted(After(es, told), slot, f) == Count(Meant(es, slot), f))
       <==> WholeFlushes(es, told)
  {
    hide After, Accounted, Meant, Count, WholeFlushes;
    forall slot, f
      ensures Accounted(After(es, told), slot, f) >= Count(Meant(es, slot), f)
      ensures WholeFlushes(es, told) ==> Accounted(After(es, told), slot, f) == Count(Meant(es, slot), f)
    {
      UpdatesAreKept(es, told, slot, f);
    }
    if !WholeFlushes(es, told) {
      var slot, f := RepeatedForGood(es, told);
    }
  }

  /** No channel is ever too full: every flush can hand over all that waits, every update goes through. */
  predicate Roomy(es: seq<Event>, told: bool) {
    |es| == 0
    || (var before, last := es[..|es| - 1], es[|es| - 1];
        && Roomy(before, told)
        && (last.Registers? ==> last.room >= |FramesOf(After(before, told).pending, last.c.slot)|)
        && (last.Updates? ==> last.hasRoom))
  }

  /** Handed over and waiting, in order; nothing waits for a player who is there. */
  predicate InOrder(h: Hub, slot: Slot, meant: seq<Frame>) {
    && FramesOf(h.sent, slot) + FramesOf(h.pending, slot) == meant
    && (slot in h.live ==> FramesOf(h.pending, slot) == [])
  }

  lemma RegisterInOrder(h: Hub, c: Conn, room: nat, slot: Slot, meant: seq<Frame>)
    requires InOrder(h, slot, meant) && room >= |FramesOf(h.pending, c.slot)|
    ensures InOrder(Register(h, c, room), slot, meant)
  {
    hide Attach;
    Attached(h, c);
    AttachKeepsFrames(h, c);
    var sent := FramesOf(h.sent, slot) + FramesOf(h.pending, slot);
    assert sent + [] == sent;
  }

  lemma AttachKeepsFrames(h: Hub, c: Conn)
    ensures Attach(h, c).sent == h.sent && Attach(h, c).pending == h.pending
  {
    hide Arrive;
  }

  lemma UpdateInOrder(h: Hub, to: Slot, frame: Frame, slot: Slot, meant: seq<Frame>)
    requires InOrder(h, slot, meant)
    ensures InOrder(Deliver(h, to, frame, true), slot, meant + if to == slot then [frame] else [])
  {
    if to == slot {
      assert FramesOf(h.sent, slot) + (FramesOf(h.pending, slot) + [frame]) == meant + [frame];
      assert slot in h.live ==> FramesOf(h.sent, slot) + [] == meant;
    } else {
      assert meant + [] == meant;
    }
  }

  lemma OtherInOrder(h: Hub, h': Hub, slot: Slot, meant: seq<Frame>)
    requires InOrder(h, slot, meant) && h'.sent == h.sent && h'.pending == h.pending
    requires slot in h'.live ==> slot in h.live
    ensures InOrder(h', slot, meant)
  {
  }

  lemma LeavingIsLeaving(h: Hub, c: Conn, slot: Slot)
    ensures slot in Unregister(h, c).live ==> slot in h.live
  {
  }

  /** With room enough every player gets its updates in order, at once while connected, on returning otherwise. */
  lemma {:induction false} UpdatesComeInOrder(es: seq<Event>, told: bool, slot: Slot)
    requires Roomy(es, told)
    ensures InOrder(After(es, told), slot, Meant(es, slot))
  {
    if |es| > 0 {
      hide Register, Deliver, Unregister, GiveUp, Fire, InOrder;
      var before, e := es[..|es| - 1], es[|es| - 1];
      UpdatesComeInOrder(before, told, slot);
      var h, meant := After(before, told), Meant(before, slot);
      assert meant + [] == meant;
      match e {
        case Registers(c, room) => RegisterInOrder(h, c, room, slot, meant);
        case Updates(to, frame, hasRoom) => UpdateInOrder(h, to, frame, slot, meant);
        case Unregisters(c) =>
          LeavingIsLeaving(h, c, slot);
          OtherInOrder(h, Unregister(h, c), slot, meant);
        case _ => OtherInOrder(h, Step(h, e, told), slot, meant);
      }
    } else {
      assert InOrder(NewHub(), slot, []);
    }
  }

  // ---- timers -------------------------------------------------------------------------------------

  /** The timer was started, and will not fire any more. */
  predicate Quiet(h: Hub, timer: nat) {
    timer < h.timers && timer !in h.running
  }

  /** A timer that runs has not sent its event yet. */
  ghost predicate FiresFirst(h: Hub) {
    forall n :: n in h.running ==> n !in h.due
  }

  /** What a step does to the timers: it may start a new one, stop or fire one, and handle or drop an event. */
  lemma StepTimers(h: Hub, e: Event, told: bool, n: nat)
    requires Numbered(h)
    ensures var h' := Step(h, e, told);
      && (n in h'.running ==> n in h.running || n >= h.timers)
      && (n in h'.due ==> n in h.due || (n in h.running && n !in h'.running))
      && ((e == Drops(n) || e == GivesUp(n)) ==> n !in h'.due)
  {
    hide Flush, Deliver;
    match e {
      case Registers(c, room) =>
      case Unregisters(c) =>
      case GivesUp(timer) =>
      case _ =>
    }
  }

  lemma {:induction false} RunFiresFirst(es: seq<Event>, told: bool)
    ensures FiresFirst(After(es, told)) && Tidy(After(es, told)) && Numbered(After(es, told))
  {
    if |es| > 0 {
      hide Step, Tidy, Numbered;
      var before, e := es[..|es| - 1], es[|es| - 1];
      RunFiresFirst(before, told);
      StepIsTidy(After(before, told), e, told);
      forall n | n in After(es, told).running ensures n !in After(es, told).due {
        StepTimers(After(before, told), e, told, n);
        DueWasStarted(After(before, told), n);
      }
    }
  }

  lemma DueWasStarted(h: Hub, n: nat)
    requires Numbered(h)
    ensures n in h.due ==> n < h.timers
  {
  }

  lemma {:induction false} StaysQuiet(h: Hub, es: seq<Event>, told: bool, timer: nat)
    requires Tidy(h) && Numbered(h) && Quiet(h, timer)
    ensures Quiet(From(h, es, told), timer)
    ensures timer in From(h, es, told).due ==> timer in h.due
  {
    if |es| > 0 {
      hide Step, Tidy, Numbered;
      var before := es[..|es| - 1];
      StaysQuiet(h, before, told, timer);
      RunIsTidy(h, before, told);
      StepTimers(From(h, before, told), es[|es| - 1], told, timer);
      StepIsTidy(From(h, before, told), es[|es| - 1], told);
    }
  }

  /** Whoever returns stops its timer for good: its event never comes, unless the timer had fired already. */
  lemma ReturnStopsTimer(es: seq<Event>, told: bool, c: Conn, room: nat, own: nat, more: seq<Event>)
    requires Waiting(After(es, told), c.slot, own)
    ensures var h := From(Step(After(es, told), Registers(c, room), told), more, told);
      own !in h.running && (own in h.due ==> own in After(es, told).due)
  {
    hide From, Tidy;
    var h := After(es, told);
    RunFiresFirst(es, told);
    StepIsTidy(h, Registers(c, room), told);
    StaysQuiet(Step(h, Registers(c, room), told), more, told, own);
  }

  /** An event comes once: handled or dropped, it is gone, and its timer never fires again. */
  lemma EventComesOnce(es: seq<Event>, told: bool, timer: nat, e: Event, more: seq<Event>)
    requires timer in After(es, told).due && (e == Drops(timer) || e == GivesUp(timer))
    ensures var h := From(Step(After(es, told), e, told), more, told);
      timer !in h.running && timer !in h.due
  {
    hide From, Tidy, Step;
    var h := After(es, told);
    RunFiresFirst(es, told);
    StepIsTidy(h, e, told);
    StepTimers(h, e, told, timer);
    StaysQuiet(Step(h, e, told), more, told, timer);
  }

  // ---- room ---------------------------------------------------------------------------------------

  /** How many frames the channels of the player's sockets could take, over the whole run. */
  function RoomGiven(es: seq<Event>, slot: Slot): nat {
    if |es| == 0 then 0
    else
      var e := es[|es| - 1];
      RoomGiven(es[..|es| - 1], slot) +
      if e.Registers? && e.c.slot == slot then e.room
      else if e.Updates? && e.slot == slot && e.hasRoom then 1
      else 0
  }

  lemma StepFillsRoom(h: Hub, e: Event, told: bool, slot: Slot)
    ensures |FramesOf(Step(h, e, told).sent, slot)| <= |FramesOf(h.sent, slot)| +
      if e.Registers? && e.c.slot == slot then e.room
      else if e.Updates? && e.slot == slot && e.hasRoom then 1
      else 0
  {
    hide Attach, Abandon, Depart;
    match e {
      case Registers(_, _) =>
      case _ =>
    }
  }

  /** In no run is more handed to a player's channels than they have room for. */
  lemma {:induction false} NeverMoreThanRoom(es: seq<Event>, told: bool, slot: Slot)
    ensures |FramesOf(After(es, told).sent, slot)| <= RoomGiven(es, slot)
  {
    if |es| > 0 {
      hide Step;
      NeverMoreThanRoom(es[..|es| - 1], told, slot);
      StepFillsRoom(After(es[..|es| - 1], told), es[|es| - 1], told, slot);
    }
  }
}
