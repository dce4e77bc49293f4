/** The hub of pkg/ws/hub.go, its nested maps updated in place, proved to do what HubRules says. */
module Hub {
  import opened Basics
  import Rules = HubRules
  import opened HubRules

  type Nested<V> = map<string, map<string, V>>

  ghost function FlatRow<V>(a: string, row: map<string, V>): map<Slot, V>
    decreases |row|
  {
    if row == map[] then map[]
    else
      var b :| b in row;
      FlatRow(a, row - {b})[Slot(a, b) := row[b]]
  }

  /** One map for all places. */
  ghost function Flat<V>(m: Nested<V>): map<Slot, V>
    decreases |m|
  {
    if m == map[] then map[]
    else
      var a :| a in m;
      Flat(m - {a}) + FlatRow(a, m[a])
  }

  function Inner<V>(m: Nested<V>, a: string): map<string, V> {
    if a in m then m[a] else map[]
  }

  lemma {:induction false} FlatRowAt<V>(a: string, row: map<string, V>, slot: Slot)
    ensures slot in FlatRow(a, row) <==> slot.session == a && slot.player in row
    ensures slot in FlatRow(a, row) ==> FlatRow(a, row)[slot] == row[slot.player]
    decreases |row|
  {
    if row != map[] {
      var b :| b in row && FlatRow(a, row) == FlatRow(a, row - {b})[Slot(a, b) := row[b]];
      FlatRowAt(a, row - {b}, slot);
      assert slot == Slot(a, b) <==> slot.session == a && slot.player == b;
    }
  }

  lemma {:induction false} FlatAt<V>(m: Nested<V>, slot: Slot)
    ensures slot in Flat(m) <==> slot.session in m && slot.player in m[slot.session]
    ensures slot in Flat(m) ==> Flat(m)[slot] == m[slot.session][slot.player]
    decreases |m|
  {
    hide FlatRow;
    if m != map[] {
      var a :| a in m && Flat(m) == Flat(m - {a}) + FlatRow(a, m[a]);
      FlatAt(m - {a}, slot);
      FlatRowAt(a, m[a], slot);
    }
  }

  lemma SameMaps<V>(m: map<Slot, V>, n: map<Slot, V>)
    requires forall slot :: slot in m <==> slot in n
    requires forall slot :: slot in m && slot in n ==> m[slot] == n[slot]
    ensures m == n
  {
  }

  lemma FlatPut<V>(m: Nested<V>, a: string, b: string, v: V)
    ensures Flat(m[a := Inner(m, a)[b := v]]) == Flat(m)[Slot(a, b) := v]
  {
    hide Flat;
    var n := m[a := Inner(m, a)[b := v]];
    forall slot: Slot
      ensures slot in Flat(n) <==> slot in Flat(m)[Slot(a, b) := v]
      ensures slot in Flat(n) && slot in Flat(m)[Slot(a, b) := v] ==> Flat(n)[slot] == Flat(m)[Slot(a, b) := v][slot]
    {
      FlatAt(m, slot);
      FlatAt(n, slot);
    }
    SameMaps(Flat(n), Flat(m)[Slot(a, b) := v]);
  }

  /** The place is removed, and the session with it when it was the last. */
  function Removed<V>(m: Nested<V>, a: string, b: string): Nested<V>
    requires a in m
  {
    if |m[a] - {b}| == 0 then m - {a} else m[a := m[a] - {b}]
  }

  lemma FlatRemove<V>(m: Nested<V>, a: string, b: string)
    requires a in m
    ensures Flat(Removed(m, a, b)) == Flat(m) - {Slot(a, b)}
  {
    hide Flat;
    var n := Removed(m, a, b);
    var gone := m[a] - {b};
    assert |gone| == 0 ==> gone == map[];
    forall slot: Slot
      ensures slot in Flat(n) <==> slot in Flat(m) - {Slot(a, b)}
      ensures slot in Flat(n) && slot in Flat(m) - {Slot(a, b)} ==> Flat(n)[slot] == (Flat(m) - {Slot(a, b)})[slot]
    {
      FlatAt(m, slot);
      FlatAt(n, slot);
      assert slot.session == a && slot.player != b && slot.player in m[a] ==> slot.player in gone;
    }
    SameMaps(Flat(n), Flat(m) - {Slot(a, b)});
  }

  class Hub {
    var clients: Nested<Conn>
    var playerStates: Nested<PlayerState>
    var pendingStats: Nested<seq<Frame>>
    var timersStarted: nat
    /** The timers not yet stopped or run out, and the events sent by those that ran out. */
    var runningTimers: map<nat, Slot>
    var abandon: map<nat, Slot>
    const hasActions: bool

    /** What the hub has done to the world: channels closed, frames handed over, abandonments reported. */
    ghost var closed: seq<Conn>
    ghost var sent: map<Slot, seq<Frame>>
    ghost var reported: seq<Slot>

    ghost function State(): HubRules.Hub
      reads this
    {
      HubRules.Hub(Flat(clients), Flat(playerStates), Flat(pendingStats), timersStarted, runningTimers, abandon,
        closed, sent, reported)
    }

    constructor (hasActions: bool)
      ensures State() == NewHub() && this.hasActions == hasActions
    {
      clients, playerStates, pendingStats := map[], map[], map[];
      timersStarted, runningTimers, abandon := 0, map[], map[];
      this.hasActions := hasActions;
      closed, sent, reported := [], map[], [];
    }

    method EnsurePlayerState(session: string, player: string) returns (state: PlayerState)
      modifies this`playerStates
      ensures state == StateOf(old(State()), Slot(session, player))
      ensures State() == old(State()).(states := old(State()).states[Slot(session, player) := state])
    {
      hide Flat;
      FlatAt(playerStates, Slot(session, player));
      var states := Inner(playerStates, session);
      state := if player in states then states[player] else PlayerState(Connected, None);
      FlatPut(playerStates, session, player, state);
      playerStates := playerStates[session := states[player := state]];
    }

    method SetPlayerState(session: string, player: string, state: PlayerState)
      modifies this`playerStates
      ensures State() == old(State()).(states := old(State()).states[Slot(session, player) := state])
    {
      hide Flat;
      FlatPut(playerStates, session, player, state);
      playerStates := playerStates[session := Inner(playerStates, session)[player := state]];
    }

    method CancelReconnectTimer(state: PlayerState) returns (r: PlayerState)
      modifies this`runningTimers
      ensures r == state.(timer := None)
      ensures State() == old(State()).(running := Stopped(old(State()).running, state.timer))
    {
      if state.timer.None? {
        return state;
      }
      runningTimers := runningTimers - {state.timer.value};
      r := state.(timer := None);
    }

    method ScheduleReconnectTimer(session: string, player: string, state: PlayerState) returns (r: PlayerState)
      modifies this`runningTimers, this`timersStarted
      ensures r == state.(timer := Some(old(timersStarted)))
      ensures State() == old(State()).(
        running := Stopped(old(State()).running, state.timer)[old(timersStarted) := Slot(session, player)],
        timers := old(timersStarted) + 1)
    {
      r := CancelReconnectTimer(state);
      r := r.(timer := Some(timersStarted));
      runningTimers := runningTimers[timersStarted := Slot(session, player)];
      timersStarted := timersStarted + 1;
    }

    /** What a timer does when it runs out: its event is queued, or dropped when the queue is full. */
    method TimerFires(timer: nat, queueHasRoom: bool)
      requires timer in runningTimers
      modifies this`runningTimers, this`abandon
      ensures State() == if queueHasRoom then Fire(old(State()), timer) else Drop(Fire(old(State()), timer), timer)
    {
      abandon := if queueHasRoom then abandon[timer := runningTimers[timer]] else abandon - {timer};
      runningTimers := runningTimers - {timer};
    }

    method EndGracePeriod(session: string, player: string)
      modifies this`playerStates, this`runningTimers
      ensures State() == Arrive(old(State()), Slot(session, player))
    {
      hide Flat;
      var state := EnsurePlayerState(session, player);
      if state.status.Disconnected? {
        state := CancelReconnectTimer(state);
      }
      SetPlayerState(session, player, state.(status := Connected));
    }

    method BeginGracePeriod(session: string, player: string)
      modifies this`playerStates, this`runningTimers, this`timersStarted
      ensures State() == Depart(old(State()), Slot(session, player))
    {
      hide Flat;
      var state := EnsurePlayerState(session, player);
      if state.status.Abandoned? {
        return;
      }
      state := ScheduleReconnectTimer(session, player, state.(status := Disconnected));
      SetPlayerState(session, player, state);
    }

    method RegisterClient(c: Conn, room: nat)
      modifies this
      ensures State() == Register(old(State()), c, room)
    {
      hide Flat, Flush, Arrive;
      var session, player := c.slot.session, c.slot.player;
      FlatAt(clients, c.slot);
      var players := Inner(clients, session);
      if player in players {
        closed := closed + [players[player]];
        players := players - {player};
      }
      FlatPut(clients, session, player, c);
      assert players[player := c] == Inner(clients, session)[player := c];
      clients := clients[session := players[player := c]];
      EndGracePeriod(session, player);
      assert State() == Attach(old(State()), c);
      FlushPendingStats(session, player, room);
    }

    method DropClient(session: string, player: string)
      requires session in clients
      modifies this`clients
      ensures State() == old(State()).(live := old(State()).live - {Slot(session, player)})
    {
      hide Flat;
      FlatRemove(clients, session, player);
      var players := clients[session] - {player};
      clients := if |players| == 0 then clients - {session} else clients[session := players];
    }

    method UnregisterClient(c: Conn)
      modifies this
      ensures State() == Unregister(old(State()), c)
    {
      hide Flat, Depart;
      var session, player := c.slot.session, c.slot.player;
      FlatAt(clients, c.slot);
      if session !in clients || player !in clients[session] || clients[session][player] != c {
        return;
      }
      DropClient(session, player);
      closed := closed + [c];
      BeginGracePeriod(session, player);
    }

    /** The event sent by that timer is taken from the queue. */
    method HandleAbandonment(timer: nat)
      requires timer in abandon
      modifies this
      ensures State() == GiveUp(old(State()), timer, hasActions)
    {
      hide Flat;
      var Slot(session, player) := abandon[timer];
      abandon := abandon - {timer};
      FlatAt(playerStates, Slot(session, player));
      if session !in playerStates || player !in playerStates[session]
         || !playerStates[session][player].status.Disconnected? {
        return;
      }
      SetPlayerState(session, player, PlayerState(Abandoned, None));
      if hasActions {
        reported := reported + [Slot(session, player)];
      }
    }

    /** hasRoom says whether the player's channel would take one more frame. */
    method DeliverOrBufferStats(session: string, player: string, frame: Frame, hasRoom: bool) returns (delivered: bool)
      modifies this
      ensures State() == Deliver(old(State()), Slot(session, player), frame, hasRoom)
      ensures delivered <==> hasRoom && Slot(session, player) in old(State()).live
    {
      hide Flat;
      FlatAt(clients, Slot(session, player));
      FlatAt(pendingStats, Slot(session, player));
      if session in clients && player in clients[session] && hasRoom {
        sent := sent[Slot(session, player) := FramesOf(sent, Slot(session, player)) + [frame]];
        return true;
      }
      var waiting := Inner(pendingStats, session);
      var frames := if player in waiting then waiting[player] else [];
      FlatPut(pendingStats, session, player, frames + [frame]);
      pendingStats := pendingStats[session := waiting[player := frames + [frame]]];
      delivered := false;
    }

    /** Each update of a finished match goes to its player; hasRoom answers for the channels in turn. */
    method HandleStatsBroadcast(session: string, updates: seq<Update>)
      modifies this
      ensures State() == DeliverAll(old(State()), session, updates)
    {
      for i := 0 to |updates|
        invariant State() == DeliverAll(old(State()), session, updates[..i])
      {
        assert updates[..i + 1][..i] == updates[..i];
        var _ := DeliverOrBufferStats(session, updates[i].player, updates[i].frame, updates[i].hasRoom);
      }
      assert updates[..|updates|] == updates;
    }

    /** The channel takes `room` more frames. */
    method FlushPendingStats(session: string, player: string, room: nat)
      modifies this
      ensures State() == Flush(old(State()), Slot(session, player), room)
    {
      hide Flat;
      FlatAt(clients, Slot(session, player));
      FlatAt(pendingStats, Slot(session, player));
      if session !in pendingStats || player !in pendingStats[session] {
        return;
      }
      var waiting := pendingStats[session][player];
      if |waiting| == 0 || session !in clients || player !in clients[session] {
        return;
      }
      ghost var slot := Slot(session, player);
      var left := room;
      for i := 0 to |waiting|
        invariant left == room - i && pendingStats == old(pendingStats)
        invariant sent == if i == 0 then old(sent) else old(sent)[slot := FramesOf(old(sent), slot) + waiting[..i]]
        invariant State() == old(State()).(sent := sent)
      {
        if left == 0 {
          return;
        }
        assert FramesOf(old(sent), slot) + waiting[..i + 1]
            == (FramesOf(old(sent), slot) + waiting[..i]) + [waiting[i]];
        assert waiting[..1] == [waiting[0]];
        sent := sent[slot := FramesOf(sent, slot) + [waiting[i]]];
        left := left - 1;
      }
      assert waiting[..|waiting|] == waiting;
      FlatRemove(pendingStats, session, player);
      var others := pendingStats[session] - {player};
      pendingStats := if |others| == 0 then pendingStats - {session} else pendingStats[session := others];
    }
  }
}
