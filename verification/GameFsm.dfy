/** The replicated commands and the match state machine they drive (pkg/consensus/fsm.go, commands.go). */
module GameFsm {
  import opened Basics

  /** A log entry's payload after DecodeCommand; Undecodable stands for every payload it rejects. */
  datatype Command =
    | Undecodable
    | StartMatch(matchId: Bytes)
    | ApplyTurn(matchId: Bytes)
    | DebugNoop
    | AddNode(nodeId: string, address: string)
    | RemoveNode(nodeId: string)
    | CommitConfig
    | UnknownOp

  predicate IsMembership(c: Command) {
    c.AddNode? || c.RemoveNode? || c.CommitConfig?
  }

  datatype Entry = Entry(index: nat, term: nat, command: Command)

  datatype MatchState = MatchState(counter: int, status: Bytes)

  type Matches = map<Bytes, MatchState>

  /** The bytes of "active". */
  const ACTIVE: Bytes := [97, 99, 116, 105, 118, 101]

  /** What one command makes of the match map. */
  function ApplyCommand(m: Matches, c: Command): Matches {
    match c
    case StartMatch(id) => m[id := MatchState(0, ACTIVE)]
    case ApplyTurn(id) => if id in m then m[id := MatchState(m[id].counter + 1, m[id].status)] else m
    case _ => m
  }

  /** The match map a fresh state machine reaches after the given entries. */
  function Replay(es: seq<Entry>): Matches {
    if |es| == 0 then map[]
    else ApplyCommand(Replay(es[..|es| - 1]), es[|es| - 1].command)
  }

  lemma ReplayStep(es: seq<Entry>, e: Entry)
    ensures Replay(es + [e]) == ApplyCommand(Replay(es), e.command)
  {
    assert (es + [e])[..|es|] == es;
  }

  /** Every counter is bounded by the number of entries replayed, and so is the number of matches. */
  lemma {:induction false} ReplayBounds(es: seq<Entry>)
    ensures |Replay(es)| <= |es|
    ensures forall id :: id in Replay(es) ==> 0 <= Replay(es)[id].counter <= |es|
    ensures forall id :: id in Replay(es) ==> Replay(es)[id].status == ACTIVE
  {
    if |es| > 0 {
      var before := es[..|es| - 1];
      ReplayBounds(before);
      var m := Replay(before);
      match es[|es| - 1].command {
        case StartMatch(id) =>
          SizeOfUpdate(m, id, MatchState(0, ACTIVE));
        case ApplyTurn(id) =>
          if id in m {
            SizeOfUpdate(m, id, MatchState(m[id].counter + 1, m[id].status));
          }
        case _ =>
      }
    }
  }

  lemma SizeOfUpdate(m: Matches, id: Bytes, st: MatchState)
    ensures |m[id := st]| == if id in m then |m| else |m| + 1
  {
    if id in m {
      assert m[id := st].Keys == m.Keys;
    } else {
      assert m[id := st].Keys == m.Keys + {id};
    }
    assert |m| == |m.Keys| && |m[id := st]| == |m[id := st].Keys|;
  }

  // ---- what a counter counts ----------------------------------------------------------------------

  /** The match was last started by entry k. */
  predicate LastStarted(es: seq<Entry>, id: Bytes, k: nat) {
    && k < |es| && es[k].command == StartMatch(id)
    && forall j :: k < j < |es| ==> es[j].command != StartMatch(id)
  }

  /** The match's turns after entry k. */
  function TurnsAfter(es: seq<Entry>, id: Bytes, k: nat): set<nat> {
    set j: nat | k < j < |es| && es[j].command == ApplyTurn(id)
  }

  /** A match is known exactly when it has been started, and counts the turns since it last was. */
  lemma {:induction false} ReplayCountsTurns(es: seq<Entry>, id: Bytes)
    ensures id in Replay(es) <==> exists k: nat :: LastStarted(es, id, k)
    ensures forall k: nat :: LastStarted(es, id, k) ==> Replay(es)[id].counter == |TurnsAfter(es, id, k)|
  {
    if |es| > 0 {
      var before, last := es[..|es| - 1], es[|es| - 1].command;
      ReplayCountsTurns(before, id);
      if last == StartMatch(id) {
        assert LastStarted(es, id, |es| - 1);
        assert TurnsAfter(es, id, |es| - 1) == {};
      } else {
        forall k: nat ensures LastStarted(es, id, k) <==> LastStarted(before, id, k) {
          OneMoreCommand(es, id, k);
        }
        forall k: nat | LastStarted(es, id, k) ensures Replay(es)[id].counter == |TurnsAfter(es, id, k)| {
          OneMoreCommand(es, id, k);
        }
      }
    }
  }

  lemma OneMoreCommand(es: seq<Entry>, id: Bytes, k: nat)
    requires |es| > 0 && es[|es| - 1].command != StartMatch(id)
    ensures LastStarted(es, id, k) <==> LastStarted(es[..|es| - 1], id, k)
    ensures k < |es| - 1 ==>
      |TurnsAfter(es, id, k)|
        == |TurnsAfter(es[..|es| - 1], id, k)| + if es[|es| - 1].command == ApplyTurn(id) then 1 else 0
  {
    var before := es[..|es| - 1];
    assert forall j :: 0 <= j < |before| ==> before[j] == es[j];
    if k < |es| - 1 {
      if es[|es| - 1].command == ApplyTurn(id) {
        assert TurnsAfter(es, id, k) == TurnsAfter(before, id, k) + {|es| - 1};
      } else {
        assert TurnsAfter(es, id, k) == TurnsAfter(before, id, k);
      }
    }
  }
}
