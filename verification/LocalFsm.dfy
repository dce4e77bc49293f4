/** LocalGameFSM: the in-memory match state machine, its snapshot and its restore (pkg/consensus/fsm.go). */
module LocalFsm {
  import opened Basics
  import opened Wire
  import opened GameFsm
  import opened FsmCodec

  /** Apply answers without an error. */
  predicate Accepts(m: Matches, c: Command) {
    match c
    case StartMatch(_) => true
    case ApplyTurn(id) => id in m
    case DebugNoop => true
    case _ => false
  }

  class LocalGameFSM {
    var matches: Matches

    constructor ()
      ensures matches == map[]
    {
      matches := map[];
    }

    method Apply(c: Command) returns (ok: bool)
      modifies this
      ensures ok == Accepts(old(matches), c)
      ensures matches == ApplyCommand(old(matches), c)
      ensures !ok ==> matches == old(matches)
    {
      match c {
        case StartMatch(id) =>
          matches := matches[id := MatchState(0, ACTIVE)];
          return true;
        case ApplyTurn(id) =>
          if id !in matches {
            return false;
          }
          var state := matches[id];
          matches := matches[id := MatchState(state.counter + 1, state.status)];
          return true;
        case DebugNoop => return true;
        case _ => return false;
      }
    }

    /** Fails exactly when an id or a status is too long for its length field. */
    method CreateSnapshot() returns (r: Result<Bytes>)
      ensures r.Ok? == Encodable(matches)
      ensures r.Ok? ==> exists order :: IterationOrder(matches, order) && r.value == Encode(matches, order)
    {
      r := EncodeLocalFSMSnapshot(matches);
    }

    method Restore(snapshot: Bytes) returns (ok: bool)
      modifies this
      ensures ok == Decode(snapshot).Ok?
      ensures matches == if ok then Decode(snapshot).value else old(matches)
    {
      var decoded := DecodeLocalFSMSnapshot(snapshot);
      if decoded.Err? {
        return false;
      }
      matches := decoded.value;
      return true;
    }
  }

  lemma {:induction false} EncodeBodySnoc(m: Matches, order: seq<Bytes>, id: Bytes)
    requires id in m && forall x :: x in order ==> x in m
    ensures EncodeBody(m, order + [id]) == EncodeBody(m, order) + EncodeMatch(id, m[id])
  {
    hide EncodeMatch;
    if |order| == 0 {
      assert order + [id] == [id];
      assert EncodeBody(m, [id][1..]) == [];
    } else {
      EncodeBodySnoc(m, order[1..], id);
      assert (order + [id])[1..] == order[1..] + [id];
    }
  }

  /** Writes the header, then the records. */
  method EncodeLocalFSMSnapshot(m: Matches) returns (r: Result<Bytes>)
    ensures r.Ok? == Encodable(m)
    ensures r.Ok? ==> exists order :: IterationOrder(m, order) && r.value == Encode(m, order)
  {
    ghost var order;
    r, order := WriteRecords(m);
    if r.Ok? {
      r := Ok(Header(MAGIC, |m| % U32) + r.value);
      assert r.value == Encode(m, order);
    }
  }

  /** One record per match, in whatever order the map yields them; the first over-long field stops it. */
  method WriteRecords(m: Matches) returns (r: Result<Bytes>, ghost order: seq<Bytes>)
    ensures r.Ok? == Encodable(m)
    ensures r.Ok? ==> IterationOrder(m, order) && r.value == EncodeBody(m, order)
  {
    hide EncodeMatch;
    var buf: Bytes := [];
    var todo := m.Keys;
    order := [];
    while todo != {}
      invariant todo <= m.Keys
      invariant forall id :: id in order <==> id in m && id !in todo
      invariant forall i, j :: 0 <= i < j < |order| ==> order[i] != order[j]
      invariant forall id :: id in order ==> |id| < U16 && |m[id].status| < U16
      invariant buf == EncodeBody(m, order)
    {
      var id :| id in todo;
      if |id| >= U16 || |m[id].status| >= U16 {
        return Err, order;
      }
      EncodeBodySnoc(m, order, id);
      buf := buf + EncodeMatch(id, m[id]);
      todo := todo - {id};
      order := order + [id];
    }
    r := Ok(buf);
  }

  method DecodeLocalFSMSnapshot(snapshot: Bytes) returns (r: Result<Matches>)
    ensures r == Decode(snapshot)
  {
    if !HeaderOk(snapshot) {
      return Err;
    }
    var body := ReadRecords(snapshot[9..], Unsigned(snapshot[5..9]));
    if body.Eof? {
      return Err;
    }
    return Ok(body.value);
  }

  /** Reads count records one after the other. */
  method ReadRecords(input: Bytes, count: nat) returns (r: Read<Matches>)
    ensures r == DecodeBody(input, count, map[])
  {
    hide DecodeMatch;
    var reader := input;
    var matches: Matches := map[];
    var i := 0;
    while i < count
      invariant 0 <= i <= count
      invariant DecodeBody(reader, count - i, matches) == DecodeBody(input, count, map[])
    {
      var record := DecodeMatch(reader);
      if record.Eof? {
        return Eof;
      }
      matches := matches[record.value.0 := record.value.1];
      reader := record.rest;
      i := i + 1;
    }
    return Got(matches, reader);
  }

  /** Stops at the first entry the state machine rejects; otherwise computes the replay of them all. */
  method ReplayCommands(entries: seq<Entry>) returns (r: Result<Matches>)
    ensures r.Ok? <==> forall k :: 0 <= k < |entries| ==> Accepts(Replay(entries[..k]), entries[k].command)
    ensures r.Ok? ==> r.value == Replay(entries)
  {
    var fsm := new LocalGameFSM();
    var i := 0;
    assert Replay(entries[..0]) == map[];
    hide Replay, Accepts;
    while i < |entries|
      invariant 0 <= i <= |entries| && fresh(fsm)
      invariant fsm.matches == Replay(entries[..i])
      invariant forall k :: 0 <= k < i ==> Accepts(Replay(entries[..k]), entries[k].command)
    {
      ReplayStep(entries[..i], entries[i]);
      assert entries[..i + 1] == entries[..i] + [entries[i]];
      var ok := fsm.Apply(entries[i].command);
      if !ok {
        return Err;
      }
      i := i + 1;
    }
    assert entries[..i] == entries;
    return Ok(fsm.matches);
  }

  predicate StartedIn(es: seq<Entry>, id: Bytes) {
    exists k :: 0 <= k < |es| && es[k].command == StartMatch(id)
  }

  lemma {:induction false} KnownIff(es: seq<Entry>, id: Bytes)
    ensures id in Replay(es) <==> StartedIn(es, id)
  {
    if |es| > 0 {
      var n := |es| - 1;
      KnownIff(es[..n], id);
      assert forall k :: 0 <= k < n ==> es[..n][k] == es[k];
      if es[n].command == StartMatch(id) {
        assert StartedIn(es, id);
      }
    }
  }

  /** After any entries, what is accepted: no-ops, starts, and turns of a match that has been started. */
  lemma AcceptedIff(es: seq<Entry>, c: Command)
    ensures Accepts(Replay(es), c) <==> c.DebugNoop? || c.StartMatch? || (c.ApplyTurn? && StartedIn(es, c.matchId))
  {
    if c.ApplyTurn? {
      KnownIff(es, c.matchId);
    }
  }

  /** A snapshot of the state after fewer than 2^31 entries restores exactly that state. */
  lemma SnapshotRestoresReplay(es: seq<Entry>, order: seq<Bytes>)
    requires |es| < 0x8000_0000
    requires Encodable(Replay(es)) && IterationOrder(Replay(es), order)
    ensures Decode(Encode(Replay(es), order)) == Ok(Replay(es))
  {
    hide Decode, Encode;
    ReplayBounds(es);
    RoundTripExactIff(Replay(es), order);
  }
}
