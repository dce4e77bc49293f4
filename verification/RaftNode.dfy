/**
 * The Raft node as it runs: a log compacted to a sentinel and a tail, a state machine kept up to
 * date in place, and the files behind them (pkg/consensus/raft_node.go). Every method is proved to
 * do to the full history what RaftSpec says.
 */
module RaftNode {
  import opened Basics
  import opened GameFsm
  import opened FsmCodec
  import opened SnapshotFile
  import opened LocalFsm
  import opened RaftSpec
  import opened RaftStorage

  const DEFAULT_COMPACT_THRESHOLD: nat := 1000

  /** The in-memory log: a sentinel carrying the snapshot's coordinates, then what follows them. */
  function CompactedLog(h: seq<Entry>, k: nat, term: nat): seq<Entry>
    requires k <= |h|
  {
    [Entry(k, term, Undecodable)] + h[k..]
  }

  /** Cutting the compacted log after an index and appending is cutting the history and appending. */
  lemma CutAndAppend(h: seq<Entry>, k: nat, term: nat, p: nat, es: seq<Entry>)
    requires k <= p <= |h| && Indexed(h, 1) && Indexed(es, p + 1)
    ensures p - k + 1 <= |CompactedLog(h, k, term)|
    ensures CompactedLog(h, k, term)[..p - k + 1] + es == CompactedLog(h[..p] + es, k, term)
    ensures Indexed(h[..p] + es, 1)
  {
    var l := CompactedLog(h, k, term);
    assert (h[..p] + es)[k..] == h[k..p] + es;
    assert l[..p - k + 1] == [l[0]] + h[k..p];
  }

  /** What the compacted log keeps beyond an index is what the history keeps beyond it. */
  lemma TailBeyond(h: seq<Entry>, k: nat, term: nat, j: nat)
    requires k <= j && k <= |h|
    ensures var l := CompactedLog(h, k, term);
            (if j - k + 1 < |l| then l[j - k + 1..] else []) == if j <= |h| then h[j..] else []
  {
    var l := CompactedLog(h, k, term);
    if j - k + 1 < |l| {
      assert l[j - k + 1..] == h[k..][j - k..] == h[j..];
    }
  }

  /** The compacted log behind a later sentinel. */
  lemma CompactedTail(h: seq<Entry>, k: nat, term: nat, j: nat, newTerm: nat)
    requires k <= j <= |h|
    ensures var l := CompactedLog(h, k, term);
      CompactedLog(h, j, newTerm)
        == [Entry(j, newTerm, Undecodable)] + (if j - k + 1 < |l| then l[j - k + 1..] else [])
  {
    TailBeyond(h, k, term, j);
  }

  /** A well-formed disk loads into a gapless history. */
  lemma RecoveredShape(d: Disk)
    requires DiskWellFormed(d)
    ensures Indexed(RecoveredHist(d), 1)
    ensures |ImageEntries(d)| <= |RecoveredHist(d)|
    ensures CompactedLog(RecoveredHist(d), |ImageEntries(d)|, ImageTerm(d))
         == [Entry(|ImageEntries(d)|, ImageTerm(d), Undecodable)] + Beyond(d.log, |ImageEntries(d)|)
  {
    hide Beyond;
    var image := ImageEntries(d);
    var tail := Beyond(d.log, |image|);
    if |d.log| > 0 {
      BeyondIsSuffix(d.log, d.log[0].index, |image|);
    } else {
      BeyondIsSuffix(d.log, 1, |image|);
    }
    assert Indexed(tail, |image| + 1);
    assert RecoveredHist(d)[|image|..] == tail;
  }

  lemma FollowersTrackNobody(last: nat)
    ensures ProgressWithin(Follower, map[], map[], last)
  {
  }

  lemma SpliceImage(h: seq<Entry>, image: seq<Entry>)
    requires Indexed(h, 1) && Indexed(image, 1)
    ensures var tail := if |image| <= |h| then h[|image|..] else [];
            Indexed(image + tail, 1) && (image + tail)[|image|..] == tail
  {
  }

  function Spliced(h: seq<Entry>, image: seq<Entry>): seq<Entry> {
    image + if |image| < |h| then h[|image|..] else []
  }

  /** The node with a snapshot in place of what it covers. */
  function Replaced(s: Node, lastTerm: nat, image: seq<Entry>): Node {
    s.(hist := Spliced(s.hist, image), applied := image, snap := image, snapTerm := lastTerm,
       commit := if |image| < s.commit then |image| else s.commit)
  }

  lemma InstallCases(s: Node, term: nat, lastTerm: nat, image: seq<Entry>)
    ensures HandleInstall(s, term, lastTerm, image) ==
      if term < s.term then s
      else if |image| <= |s.snap| then Adopt(s, term)
      else Replaced(Adopt(s, term), lastTerm, image)
    ensures Adopt(s, term).snap == s.snap && Adopt(s, term).role.Follower? && Adopt(s, term).term == term
  {
  }

  lemma InstallKeepsShape(s: Node, lastTerm: nat, image: seq<Entry>)
    requires Shape(s) && LeaderBounds(s) && s.role.Follower? && Indexed(image, 1)
    ensures Shape(Replaced(s, lastTerm, image)) && LeaderBounds(Replaced(s, lastTerm, image))
    ensures |s.snap| <= |s.hist|
  {
    SpliceImage(s.hist, image);
  }

  /** The compacted log behind its new sentinel, from the compacted log before. */
  lemma InstalledLog(h: seq<Entry>, k: nat, term: nat, image: seq<Entry>, lastTerm: nat)
    requires k <= |h| && k < |image|
    ensures |image| <= |Spliced(h, image)|
    ensures var l := CompactedLog(h, k, term);
      CompactedLog(Spliced(h, image), |image|, lastTerm)
        == [Entry(|image|, lastTerm, Undecodable)] + (if |image| - k + 1 < |l| then l[|image| - k + 1..] else [])
  {
    TailBeyond(h, k, term, |image|);
    assert Spliced(h, image)[|image|..] == if |image| <= |h| then h[|image|..] else [];
  }

  lemma MembershipKeepsShape(s: Node, c: Command)
    requires Shape(s) && LeaderBounds(s)
    ensures Shape(ApplyMembership(s, c)) && LeaderBounds(ApplyMembership(s, c)) && |s.snap| <= |s.hist|
  {
  }

  function WithPeer(s: Node, id: string, address: string): Node {
    var after := s.peers[id := address];
    s.(joint := Joint(s.peers, after), peers := after,
       next := if s.role.Leader? then s.next[id := |s.hist| + 1] else s.next,
       matched := if s.role.Leader? then s.matched[id := 0] else s.matched)
  }

  lemma AddCases(s: Node, id: string, address: string)
    ensures ApplyMembership(s, AddNode(id, address)) ==
      if id == "" || address == "" || id in s.peers || s.joint.Joint? then s else WithPeer(s, id, address)
  {
  }

  lemma NewPeerKeepsShape(s: Node, id: string, address: string)
    requires Shape(s) && LeaderBounds(s)
    ensures Shape(WithPeer(s, id, address)) && LeaderBounds(WithPeer(s, id, address)) && |s.snap| <= |s.hist|
  {
  }

  function WithoutPeer(s: Node, id: string): Node {
    var after := s.peers - {id};
    s.(joint := Joint(s.peers, after), peers := after, next := s.next - {id}, matched := s.matched - {id})
  }

  lemma RemoveCases(s: Node, id: string)
    ensures ApplyMembership(s, RemoveNode(id)) ==
      if id == "" || id !in s.peers || s.joint.Joint? then s else WithoutPeer(s, id)
  {
  }

  lemma LostPeerKeepsShape(s: Node, id: string)
    requires Shape(s) && LeaderBounds(s)
    ensures Shape(WithoutPeer(s, id)) && LeaderBounds(WithoutPeer(s, id)) && |s.snap| <= |s.hist|
  {
  }

  /** The disk states maybeCompactLocked passes through. */
  function CompactStates(s: Node, d: Disk): seq<Disk>
    requires Shape(s)
  {
    if Compact(s) == s then [] else SnapshotStates(d, Compact(s))
  }

  function LastDisk(d: Disk, w: seq<Disk>): Disk {
    if |w| == 0 then d else w[|w| - 1]
  }

  /** The disk states AppendEntries passes through. */
  function AppendStates(s: Node, m: AppendEntriesArgs, d: Disk): seq<Disk>
    requires Shape(s) && (AcceptsAppend(s, m) ==> WellIndexed(m))
  {
    if !AcceptsAppend(s, m) then []
    else
      var s1 := ApplyLoop(MergeEntries(Adopt(s, m.term), m));
      var w := CompactStates(s1, d);
      w + PersistStates(LastDisk(d, w), Compact(s1))
  }

  /** The disk states InstallSnapshot passes through. */
  function InstallStates(s: Node, term: nat, lastTerm: nat, image: seq<Entry>, d: Disk): seq<Disk>
    requires Shape(s)
  {
    if term < s.term || |image| <= |s.snap| then []
    else SnapshotStates(d, HandleInstall(s, term, lastTerm, image))
  }

  /** The disk states advancing the commit index passes through. */
  function AdvanceStates(s: Node, d: Disk): seq<Disk>
    requires Shape(s)
  {
    var c := TopCommit(s, |s.hist|);
    if c == s.commit then [] else CompactStates(ApplyLoop(s.(commit := c)), d)
  }

  /** A leader that has noted what the peer acknowledged. */
  function WithReply(s: Node, m: AppendEntriesArgs, peer: string): Node {
    var top := m.prevIndex + |m.entries|;
    s.(matched := s.matched[peer := top], next := s.next[peer := top + 1])
  }

  /** The disk states the reply to AppendEntries passes through. */
  function ReplyStates(s: Node, term: nat, peer: string, m: AppendEntriesArgs, replyTerm: nat, success: bool, d: Disk)
    : seq<Disk>
    requires Shape(s)
  {
    if replyTerm <= s.term && s.role.Leader? && s.term == term && success then AdvanceStates(WithReply(s, m, peer), d)
    else []
  }

  class RaftNode {
    const nodeId: string
    const matchFSM: LocalGameFSM
    const storage: RaftStorage?

    var peerAddresses: Peers
    var currentTerm: nat
    var votedFor: string
    var state: Role
    var log: seq<Entry>
    var commitIndex: nat
    var lastApplied: nat
    var nextIndex: map<string, nat>
    var matchIndex: map<string, nat>
    var joint: JointConfig
    var compactThreshold: nat
    var snapshotIndex: nat
    var snapshotTerm: nat
    var lastSnapshot: Bytes

    /** The full history, the entries applied, and the entries the snapshot stands for. */
    ghost var hist: seq<Entry>
    ghost var applied: seq<Entry>
    ghost var snap: seq<Entry>

    ghost function View(): Node
      reads this
    {
      Node(nodeId, currentTerm, votedFor, state, peerAddresses, joint, nextIndex, matchIndex,
           hist, commitIndex, applied, snap, snapshotTerm, compactThreshold)
    }

    /** The compacted log is the tail of the history behind its sentinel. */
    ghost predicate LogValid()
      reads this
    {
      && Shape(View())
      && LeaderBounds(View())
      && snapshotIndex == |snap|
      && lastApplied == |applied|
      && log == CompactedLog(hist, |snap|, snapshotTerm)
    }

    /** ... and the state machine and the snapshot are the replays of the entries they stand for. */
    ghost predicate Valid()
      reads this, matchFSM, storage
    {
      && LogValid()
      && matchFSM.matches == Replay(applied)
      && (0 < |snap| < 0x8000_0000 ==> Decode(lastSnapshot) == Ok(Replay(snap)))
      && (storage != null ==> storage.Valid())
    }

    constructor (id: string, peers: Peers, fsm: LocalGameFSM, disk: RaftStorage?)
      requires fsm.matches == map[]
      requires disk != null ==> disk.Valid()
      ensures Valid()
      ensures View() == Fresh(id, peers, DEFAULT_COMPACT_THRESHOLD)
      ensures matchFSM == fsm && storage == disk
    {
      nodeId, matchFSM, storage := id, fsm, disk;
      peerAddresses, currentTerm, votedFor, state := peers, 0, "", Follower;
      log, commitIndex, lastApplied := [Entry(0, 0, Undecodable)], 0, 0;
      nextIndex, matchIndex, joint := map[], map[], NoJoint;
      compactThreshold := DEFAULT_COMPACT_THRESHOLD;
      snapshotIndex, snapshotTerm, lastSnapshot := 0, 0, [];
      hist, applied, snap := [], [], [];
    }

    method SetCompactThreshold(threshold: nat)
      requires Valid()
      modifies this`compactThreshold
      ensures Valid()
      ensures View() == old(View()).(threshold := if threshold == 0 then DEFAULT_COMPACT_THRESHOLD else threshold)
    {
      hide Decode, Replay, Encodable;
      compactThreshold := if threshold == 0 then DEFAULT_COMPACT_THRESHOLD else threshold;
    }

    // ---- log access ---------------------------------------------------------------------

    /** Every position of the compacted log holds the entry of the history with that index. */
    lemma Offsets()
      requires LogValid()
      ensures |log| == |hist| - |snap| + 1
      ensures forall i :: |snap| <= i <= |hist| ==>
        log[i - |snap|].term == TermOf(View(), i) && log[i - |snap|].index == i
      ensures forall o :: 1 <= o < |log| ==> log[o] == hist[|snap| + o - 1]
    {
      forall o | 1 <= o < |log| ensures log[o] == hist[|snap| + o - 1] {
        assert log[o] == hist[|snap|..][o - 1];
      }
    }

    lemma OffsetTerm(i: nat)
      requires LogValid() && |snap| <= i <= |hist|
      ensures 0 <= i - |snap| < |log| && log[i - |snap|].term == TermOf(View(), i)
    {
      Offsets();
    }

    method LogOffsetForIndex(index: nat) returns (offset: int)
      ensures offset == if index < snapshotIndex then -1 else index - snapshotIndex
    {
      if index < snapshotIndex {
        return -1;
      }
      return index - snapshotIndex;
    }

    method LastLogIndex() returns (index: nat)
      requires LogValid()
      ensures index == |hist|
    {
      Offsets();
      if |log| == 0 {
        return snapshotIndex;
      }
      return log[|log| - 1].index;
    }

    method LastLogTerm() returns (term: nat)
      requires LogValid()
      ensures term == TermOf(View(), |hist|)
    {
      Offsets();
      if |log| == 0 {
        return snapshotTerm;
      }
      return log[|log| - 1].term;
    }

    // ---- roles and votes ----------------------------------------------------------------

    method BecomeFollowerLocked(term: nat)
      requires Valid()
      modifies this`currentTerm, this`votedFor, this`state, this`nextIndex, this`matchIndex
      ensures Valid()
      ensures View() == BecomeFollower(old(View()), term)
    {
      hide Decode, Replay, Encodable;
      currentTerm, votedFor, state := term, "", Follower;
      nextIndex, matchIndex := map[], map[];
    }

    method RequestVote(args: RequestVoteArgs) returns (replyTerm: nat, voteGranted: bool)
      requires Valid()
      modifies this
      ensures Valid()
      ensures View() == HandleRequestVote(old(View()), args)
      ensures replyTerm == currentTerm == Max(old(currentTerm), args.term)
      ensures voteGranted == GrantsVote(old(View()), args)
    {
      hide Decode, Replay, Encodable, Indexed, CompactedLog;
      if args.term > currentTerm {
        BecomeFollowerLocked(args.term);
      }
      replyTerm, voteGranted := currentTerm, false;
      if args.term < currentTerm {
        return;
      }
      if votedFor != "" && votedFor != args.candidate {
        return;
      }
      var upToDate := LogIsUpToDate(args.lastIndex, args.lastTerm);
      if !upToDate {
        return;
      }
      votedFor := args.candidate;
      voteGranted := true;
    }

    method LogIsUpToDate(lastIndex: nat, lastTerm: nat) returns (ok: bool)
      requires Valid()
      ensures ok == LogUpToDate(View(), lastIndex, lastTerm)
    {
      var localIndex := LastLogIndex();
      var localTerm := LastLogTerm();
      if lastTerm != localTerm {
        return lastTerm > localTerm;
      }
      return lastIndex >= localIndex;
    }

    method StartElectionLocked() returns (started: bool, args: RequestVoteArgs, majority: nat)
      requires Valid()
      modifies this
      ensures Valid()
      ensures View() == StartElection(old(View()))
      ensures started == !old(state).Leader?
      ensures started ==> args == RequestVoteArgs(currentTerm, nodeId, |hist|, TermOf(View(), |hist|))
      ensures started ==> majority == ElectionMajority(View())
    {
      hide Decode, Replay, Encodable, Indexed, CompactedLog;
      started, args, majority := state != Leader, RequestVoteArgs(0, "", 0, 0), 0;
      if !started {
        return;
      }
      currentTerm := currentTerm + 1;
      state := Candidate;
      votedFor := nodeId;
      var lastIndex := LastLogIndex();
      var lastTerm := LastLogTerm();
      args := RequestVoteArgs(currentTerm, nodeId, lastIndex, lastTerm);
      var config := if joint.Joint? then joint.before else peerAddresses;
      majority := |config| / 2 + 1;
    }

    method PromoteToLeader(term: nat)
      requires Valid()
      modifies this
      ensures Valid()
      ensures View() == Promote(old(View()), term)
    {
      hide Decode, Replay, Encodable;
      if state != Candidate || currentTerm != term {
        return;
      }
      state := Leader;
      InitLeaderReplication();
    }

    method InitLeaderReplication()
      requires Valid() && state == Leader
      modifies this`nextIndex, this`matchIndex
      ensures Valid()
      ensures nextIndex == Uniform(peerAddresses.Keys - {nodeId}, |hist| + 1)
      ensures matchIndex == Uniform(peerAddresses.Keys - {nodeId}, 0)
    {
      hide Decode, Replay, Encodable, ProgressWithin, Indexed, CompactedLog, Uniform;
      var lastIdx := LastLogIndex();
      TrackEveryPeer(lastIdx);
      UniformWithin(peerAddresses.Keys - {nodeId}, lastIdx);
    }

    method TrackEveryPeer(lastIdx: nat)
      modifies this`nextIndex, this`matchIndex
      ensures nextIndex == Uniform(peerAddresses.Keys - {nodeId}, lastIdx + 1)
      ensures matchIndex == Uniform(peerAddresses.Keys - {nodeId}, 0)
    {
      hide Uniform;
      nextIndex, matchIndex := map[], map[];
      var todo := peerAddresses.Keys;
      while todo != {}
        invariant todo <= peerAddresses.Keys
        invariant forall p :: p in nextIndex <==> p in peerAddresses && p !in todo && p != nodeId
        invariant forall p :: p in matchIndex <==> p in peerAddresses && p !in todo && p != nodeId
        invariant forall p :: p in nextIndex ==> nextIndex[p] == lastIdx + 1
        invariant forall p :: p in matchIndex ==> matchIndex[p] == 0
      {
        var p :| p in todo;
        todo := todo - {p};
        if p != nodeId {
          nextIndex := nextIndex[p := lastIdx + 1];
          matchIndex := matchIndex[p := 0];
        }
      }
      UniformIs(nextIndex, peerAddresses.Keys - {nodeId}, lastIdx + 1);
      UniformIs(matchIndex, peerAddresses.Keys - {nodeId}, 0);
    }

    // ---- followers ----------------------------------------------------------------------

    /** Entering a term on a leader's message; within the current term this clears the vote. */
    method AdoptLeader(term: nat)
      requires Valid() && term >= currentTerm
      modifies this`currentTerm, this`votedFor, this`state, this`nextIndex, this`matchIndex
      ensures Valid()
      ensures View() == Adopt(old(View()), term)
    {
      hide Decode, Replay, Encodable;
      if term > currentTerm || state != Follower {
        BecomeFollowerLocked(term);
      } else {
        currentTerm := term;
        votedFor := "";
      }
    }

    method EntriesFrom(args: AppendEntriesArgs) returns (out: seq<Entry>)
      ensures out == EntriesFromArgs(args)
    {
      out := [];
      var i := 0;
      while i < |args.entries|
        invariant 0 <= i <= |args.entries|
        invariant out == EntriesFromArgs(args)[..i]
      {
        var entry := args.entries[i];
        var index := entry.index;
        if index == 0 {
          index := args.prevIndex + 1 + i;
        }
        var term := entry.term;
        if term == 0 {
          term := args.term;
        }
        out := out + [Entry(index, term, entry.command)];
        i := i + 1;
      }
    }

    method AppendEntries(args: AppendEntriesArgs) returns (replyTerm: nat, success: bool, panicked: bool)
      requires Valid()
      requires WellIndexed(args)
      modifies this, matchFSM, storage
      ensures panicked == AppendPanics(old(View()), args)
      ensures !panicked ==> Valid()
      ensures !panicked ==> View() == HandleAppend(old(View()), args)
      ensures !panicked ==> replyTerm == currentTerm && success == AcceptsAppend(old(View()), args)
      ensures !panicked && storage != null ==>
        storage.trace == old(storage.trace) + AppendStates(old(View()), args, old(storage.View()))
    {
      hide Decode, Replay, Encodable, ApplyLoop, CompactionPanics, Indexed, ProgressWithin, Compact, MergeEntries,
           CompactStates, PersistStates, CompactedLog;
      success, panicked := false, false;
      if args.term < currentTerm {
        replyTerm := currentTerm;
        return;
      }
      AdoptLeader(args.term);
      replyTerm := currentTerm;
      var prevOffset := MatchPrevious(args);
      if prevOffset < 0 {
        return;
      }
      AcceptEntries(args, prevOffset);
      panicked := ApplyCommittedLocked();
      if panicked {
        return;
      }
      if storage != null {
        PersistDurableState();
      }
      success := true;
    }

    /** The offset of the entry the message follows on from, or -1 when the log does not hold it. */
    method MatchPrevious(args: AppendEntriesArgs) returns (prevOffset: int)
      requires Valid() && args.term == currentTerm
      ensures prevOffset == if AcceptsAppend(View(), args) then args.prevIndex - snapshotIndex else -1
    {
      hide Decode, Replay, Indexed, ProgressWithin;
      if args.prevIndex < snapshotIndex {
        return -1;
      }
      prevOffset := LogOffsetForIndex(args.prevIndex);
      Offsets();
      if prevOffset >= |log| {
        return -1;
      }
      if log[prevOffset].term != args.prevTerm {
        return -1;
      }
    }

    /** The in-place cut after prevIndex, the new entries, and the commit index they allow. */
    method AcceptEntries(args: AppendEntriesArgs, prevOffset: int)
      requires Valid() && WellIndexed(args) && state == Follower
      requires 0 <= prevOffset <= |hist| - |snap| && args.prevIndex == snapshotIndex + prevOffset
      modifies this`log, this`commitIndex, this`hist
      ensures Valid()
      ensures View() == MergeEntries(old(View()), args)
    {
      hide Decode, Replay, Encodable, EntriesFromArgs, Indexed, CompactedLog;
      if |args.entries| > 0 {
        CutAndAppend(hist, |snap|, snapshotTerm, args.prevIndex, EntriesFromArgs(args));
        var entries := EntriesFrom(args);
        log := log[..prevOffset + 1] + entries;
        hist := hist[..args.prevIndex] + entries;
      }
      if args.leaderCommit > commitIndex {
        var lastNew := LastLogIndex();
        if args.leaderCommit < lastNew {
          commitIndex := args.leaderCommit;
        } else {
          commitIndex := lastNew;
        }
      }
    }

    /** `image` is what the leader's snapshot stands for. */
    method InstallSnapshot(term: nat, lastIndex: nat, lastTerm: nat, data: Bytes, ghost image: seq<Entry>)
      returns (replyTerm: nat, ok: bool)
      requires Valid()
      requires |image| == lastIndex && Indexed(image, 1)
      requires Decode(data).Ok? ==> Decode(data) == Ok(Replay(image))
      modifies this, matchFSM, storage
      ensures Valid()
      ensures ok == (term < old(currentTerm) || lastIndex <= old(snapshotIndex) || Decode(data).Ok?)
      ensures ok ==> View() == HandleInstall(old(View()), term, lastTerm, image)
      ensures !ok ==> View() == Adopt(old(View()), term)
      ensures replyTerm == if ok && old(snapshotIndex) < lastIndex then currentTerm else old(currentTerm)
      ensures storage != null ==>
        storage.trace == old(storage.trace)
          + (if ok then InstallStates(old(View()), term, lastTerm, image, old(storage.View())) else [])
    {
      hide Decode, Replay, Encodable, ProgressWithin, CompactedLog, Indexed, HandleInstall, Adopt;
      replyTerm, ok := currentTerm, true;
      InstallCases(View(), term, lastTerm, image);
      if term < currentTerm {
        return;
      }
      AdoptLeader(term);
      if lastIndex <= snapshotIndex {
        return;
      }
      ok := matchFSM.Restore(data);
      if !ok {
        return;
      }
      ReplaceLog(lastIndex, lastTerm, data, image);
      if storage != null {
        PersistInstalled(data);
      }
      replyTerm := currentTerm;
    }

    /** The snapshot takes the place of everything up to its index; entries beyond it stay. */
    method ReplaceLog(lastIndex: nat, lastTerm: nat, data: Bytes, ghost image: seq<Entry>)
      requires LogValid() && snapshotIndex < lastIndex == |image| && Indexed(image, 1) && state == Follower
      modifies this`snapshotIndex, this`snapshotTerm, this`lastSnapshot, this`lastApplied, this`commitIndex, this`log
      modifies this`hist, this`applied, this`snap
      ensures LogValid() && lastSnapshot == data
      ensures View() == Replaced(old(View()), lastTerm, image)
    {
      hide CompactedLog, Shape, ProgressWithin, Spliced, Indexed;
      InstallKeepsShape(View(), lastTerm, image);
      InstalledLog(hist, |snap|, snapshotTerm, image, lastTerm);
      ghost var after := Replaced(View(), lastTerm, image);
      KeepTail(lastIndex, lastTerm, data);
      hist, applied, snap := Spliced(hist, image), image, image;
      assert View() == after;
    }

    method KeepTail(lastIndex: nat, lastTerm: nat, data: Bytes)
      requires snapshotIndex < lastIndex
      modifies this`snapshotIndex, this`snapshotTerm, this`lastSnapshot, this`lastApplied, this`commitIndex, this`log
      ensures log == [Entry(lastIndex, lastTerm, Undecodable)]
        + (if lastIndex - old(snapshotIndex) + 1 < |old(log)|
           then old(log)[lastIndex - old(snapshotIndex) + 1..] else [])
      ensures snapshotIndex == lastApplied == lastIndex && snapshotTerm == lastTerm && lastSnapshot == data
      ensures commitIndex == if lastIndex < old(commitIndex) then lastIndex else old(commitIndex)
    {
      DropUpTo(lastIndex, lastTerm, data);
      lastApplied := lastIndex;
      if lastIndex < commitIndex {
        commitIndex := lastIndex;
      }
    }

    /** The files follow an installed snapshot. */
    method PersistInstalled(data: Bytes)
      requires LogValid() && matchFSM.matches == Replay(applied) && lastSnapshot == data
      requires storage != null && storage.Valid() && (|snap| < 0x8000_0000 ==> Decode(data) == Ok(Replay(snap)))
      modifies storage
      ensures Valid()
      ensures storage.trace == old(storage.trace) + SnapshotStates(old(storage.View()), View())
    {
      hide Decode, Replay, Indexed, ProgressWithin, CompactedLog;
      storage.PersistSnapshot(snapshotIndex, snapshotTerm, data, snap);
      PersistDurableState();
    }

    // ---- applying and compacting --------------------------------------------------------

    /** Feeds committed entries to the configuration or the state machine, then compacts. */
    method ApplyCommittedLocked() returns (panicked: bool)
      requires Valid()
      modifies this, matchFSM, storage
      ensures panicked == CompactionPanics(ApplyLoop(old(View())))
      ensures !panicked ==> Valid()
      ensures !panicked ==> View() == ApplyCommitted(old(View()))
      ensures !panicked && storage != null ==>
        storage.trace == old(storage.trace) + CompactStates(ApplyLoop(old(View())), old(storage.View()))
    {
      hide Decode, Replay, Encodable, ApplyLoop;
      ReplayCommittedLocked();
      panicked := MaybeCompactLocked();
    }

    /** The loop shared by applyCommittedLocked and replayUncompactedLogLocked. */
    method ReplayCommittedLocked()
      requires Valid()
      modifies this`peerAddresses, this`joint, this`nextIndex, this`matchIndex, this`lastApplied, this`applied, matchFSM
      ensures Valid()
      ensures View() == ApplyLoop(old(View()))
    {
      hide Decode, Replay, Encodable, Indexed, ProgressWithin, ApplyMembership, ApplyEntry, ApplyLoop;
      ApplyLoopStep(View());
      while lastApplied < commitIndex
        invariant Valid()
        invariant ApplyLoop(View()) == ApplyLoop(old(View()))
        decreases commitIndex - lastApplied
      {
        Offsets();
        ApplyLoopStep(View());
        var offset := LogOffsetForIndex(lastApplied + 1);
        if offset < 0 || offset >= |log| {
          break;
        }
        var entry := log[offset];
        ApplyEntryLocked(entry);
      }
      ApplyLoopStep(View());
    }

    /** One log entry: rejected by the decoder, a membership change, or a state machine command. */
    method ApplyEntryLocked(entry: Entry)
      requires Valid()
      modifies this`peerAddresses, this`joint, this`nextIndex, this`matchIndex, this`lastApplied, this`applied, matchFSM
      ensures Valid()
      ensures View() == ApplyEntry(old(View()), entry)
      ensures lastApplied == old(lastApplied) + 1
    {
      hide Decode, Encodable, Replay, ApplyMembership, Indexed;
      ReplayStep(applied, entry);
      if entry.command.Undecodable? {
      } else if IsMembership(entry.command) {
        ApplyMembershipLocked(entry.command);
      } else {
        var _ := matchFSM.Apply(entry.command);
      }
      lastApplied := lastApplied + 1;
      applied := applied + [entry];
    }

    method ApplyMembershipLocked(c: Command)
      requires Valid() && IsMembership(c)
      modifies this`peerAddresses, this`joint, this`nextIndex, this`matchIndex
      ensures Valid()
      ensures View() == ApplyMembership(old(View()), c)
    {
      hide Valid, ApplyMembership;
      match c {
        case AddNode(id, address) => AddPeer(id, address);
        case RemoveNode(id) => RemovePeer(id);
        case CommitConfig => CommitJoint();
      }
    }

    method AddPeer(id: string, address: string)
      requires Valid()
      modifies this`peerAddresses, this`joint, this`nextIndex, this`matchIndex
      ensures Valid()
      ensures View() == ApplyMembership(old(View()), AddNode(id, address))
    {
      hide Valid, LogValid, WithPeer, ApplyMembership;
      AddCases(View(), id, address);
      if id == "" || address == "" || id in peerAddresses || joint.Joint? {
        return;
      }
      EnterTransition(id, address);
    }

    /** The peer joins through a transition, and a leader starts tracking it. */
    method EnterTransition(id: string, address: string)
      requires Valid()
      modifies this`peerAddresses, this`joint, this`nextIndex, this`matchIndex
      ensures Valid()
      ensures View() == WithPeer(old(View()), id, address)
    {
      hide Decode, Replay, Encodable, Indexed, CompactedLog, Shape, LeaderBounds;
      NewPeerKeepsShape(View(), id, address);
      var lastIdx := LastLogIndex();
      var newPeers := peerAddresses[id := address];
      joint := Joint(peerAddresses, newPeers);
      peerAddresses := newPeers;
      TrackNewPeer(id, lastIdx);
    }

    method RemovePeer(id: string)
      requires Valid()
      modifies this`peerAddresses, this`joint, this`nextIndex, this`matchIndex
      ensures Valid()
      ensures View() == ApplyMembership(old(View()), RemoveNode(id))
    {
      hide Valid, LogValid, WithoutPeer, ApplyMembership;
      RemoveCases(View(), id);
      if id == "" || id !in peerAddresses || joint.Joint? {
        return;
      }
      LeaveTransition(id);
    }

    /** The peer leaves through a transition, and is tracked no longer. */
    method LeaveTransition(id: string)
      requires Valid()
      modifies this`peerAddresses, this`joint, this`nextIndex, this`matchIndex
      ensures Valid()
      ensures View() == WithoutPeer(old(View()), id)
    {
      hide Decode, Replay, Encodable, Indexed, CompactedLog, Shape, LeaderBounds;
      LostPeerKeepsShape(View(), id);
      var newPeers := peerAddresses - {id};
      joint := Joint(peerAddresses, newPeers);
      peerAddresses := newPeers;
      nextIndex, matchIndex := nextIndex - {id}, matchIndex - {id};
    }

    method CommitJoint()
      requires Valid()
      modifies this`peerAddresses, this`joint, this`nextIndex, this`matchIndex
      ensures Valid()
      ensures View() == ApplyMembership(old(View()), CommitConfig)
    {
      hide Decode, Replay, Encodable, Indexed, CompactedLog, Shape, LeaderBounds;
      MembershipKeepsShape(View(), CommitConfig);
      if joint.NoJoint? {
        return;
      }
      peerAddresses := joint.after;
      joint := NoJoint;
      PruneReplicationState();
    }

    method TrackNewPeer(peer: string, lastIdx: nat)
      modifies this`nextIndex, this`matchIndex
      ensures nextIndex == if state.Leader? then old(nextIndex)[peer := lastIdx + 1] else old(nextIndex)
      ensures matchIndex == if state.Leader? then old(matchIndex)[peer := 0] else old(matchIndex)
    {
      if state != Leader {
        return;
      }
      nextIndex := nextIndex[peer := lastIdx + 1];
      matchIndex := matchIndex[peer := 0];
    }

    /** Peers no longer listed are forgotten. */
    method PruneReplicationState()
      modifies this`nextIndex, this`matchIndex
      ensures nextIndex == old(nextIndex) - (old(nextIndex).Keys - peerAddresses.Keys)
      ensures matchIndex == old(matchIndex) - (old(nextIndex).Keys - peerAddresses.Keys)
    {
      var todo := nextIndex.Keys;
      while todo != {}
        invariant todo <= old(nextIndex).Keys
        invariant nextIndex == old(nextIndex) - (old(nextIndex).Keys - peerAddresses.Keys - todo)
        invariant matchIndex == old(matchIndex) - (old(nextIndex).Keys - peerAddresses.Keys - todo)
      {
        var p :| p in todo;
        todo := todo - {p};
        if p !in peerAddresses {
          nextIndex := nextIndex - {p};
          matchIndex := matchIndex - {p};
        }
      }
    }

    method MaybeCompactLocked() returns (panicked: bool)
      requires Valid()
      modifies this, storage
      ensures panicked == CompactionPanics(old(View()))
      ensures !panicked ==> Valid()
      ensures !panicked ==> View() == Compact(old(View()))
      ensures !panicked && storage != null ==>
        storage.trace == old(storage.trace) + CompactStates(old(View()), old(storage.View()))
    {
      hide Decode, Replay, Encodable, Indexed, ProgressWithin, CompactedLog;
      panicked := false;
      var lastIdx := LastLogIndex();
      if lastIdx - snapshotIndex < compactThreshold {
        return;
      }
      var compactUpTo := lastApplied;
      if compactUpTo <= snapshotIndex {
        return;
      }
      var data := matchFSM.CreateSnapshot();
      if data.Err? {
        return;
      }
      Offsets();
      if compactUpTo - snapshotIndex >= |log| {
        panicked := true;
        return;
      }
      var term := log[compactUpTo - snapshotIndex].term;
      SnapshotIsTruthful(data.value);
      CompactTo(term, data.value);
    }

    /** The log loses everything up to the last applied index; the files follow. */
    method CompactTo(term: nat, data: Bytes)
      requires Valid() && |snap| < |applied| <= |hist| && term == TermOf(View(), |applied|)
      requires |applied| < 0x8000_0000 ==> Decode(data) == Ok(Replay(applied))
      modifies this`snapshotIndex, this`snapshotTerm, this`lastSnapshot, this`log, this`snap, storage
      ensures Valid()
      ensures View() == old(View()).(snap := applied, snapTerm := term)
      ensures storage != null ==> storage.trace == old(storage.trace) + SnapshotStates(old(storage.View()), View())
    {
      hide Decode, Replay, Indexed, ProgressWithin;
      var compactUpTo := lastApplied;
      if storage != null {
        storage.PersistSnapshot(compactUpTo, term, data, applied);
      }
      TruncateLogInMemory(term, data);
      if storage != null {
        PersistDurableState();
      }
    }

    /** Everything up to the last applied index gives way to a new sentinel. */
    method TruncateLogInMemory(term: nat, data: Bytes)
      requires LogValid() && |snap| < |applied| <= |hist|
      modifies this`snapshotIndex, this`snapshotTerm, this`lastSnapshot, this`log, this`snap
      ensures LogValid()
      ensures View() == old(View()).(snap := applied, snapTerm := term)
      ensures lastSnapshot == data
    {
      hide Indexed, ProgressWithin, CompactedLog;
      CompactedTail(hist, |snap|, snapshotTerm, |applied|, term);
      DropUpTo(lastApplied, term, data);
      snap := applied;
    }

    method DropUpTo(index: nat, term: nat, data: Bytes)
      requires snapshotIndex <= index
      modifies this`snapshotIndex, this`snapshotTerm, this`lastSnapshot, this`log
      ensures log == [Entry(index, term, Undecodable)]
        + (if index - old(snapshotIndex) + 1 < |old(log)| then old(log)[index - old(snapshotIndex) + 1..] else [])
      ensures snapshotIndex == index && snapshotTerm == term && lastSnapshot == data
    {
      var tailOffset := index - snapshotIndex + 1;
      var tail: seq<Entry> := [];
      if tailOffset < |log| {
        tail := log[tailOffset..];
      }
      snapshotIndex, snapshotTerm, lastSnapshot := index, term, data;
      log := [Entry(index, term, Undecodable)] + tail;
    }

    /** A snapshot of the current state restores the replay of what was applied. */
    lemma SnapshotIsTruthful(data: Bytes)
      requires matchFSM.matches == Replay(applied) && Encodable(matchFSM.matches)
      requires exists order :: IterationOrder(matchFSM.matches, order) && data == Encode(matchFSM.matches, order)
      ensures |applied| < 0x8000_0000 ==> Decode(data) == Ok(Replay(applied))
    {
      if |applied| < 0x8000_0000 {
        var order :| IterationOrder(matchFSM.matches, order) && data == Encode(matchFSM.matches, order);
        SnapshotRestoresReplay(applied, order);
      }
    }

    method PersistDurableState()
      requires Valid() && storage != null
      modifies storage
      ensures Valid()
      ensures storage.trace == old(storage.trace) + PersistStates(old(storage.View()), View())
    {
      hide Decode, Replay, Encodable;
      var entries: seq<Entry> := [];
      Offsets();
      var i := 1;
      while i < |log|
        invariant 1 <= i <= |log|
        invariant entries == hist[|snap|..|snap| + i - 1]
      {
        if log[i].index > snapshotIndex {
          entries := entries + [log[i]];
        }
        i := i + 1;
      }
      assert entries == hist[|snap|..];
      storage.PersistLog(entries,
        RaftMeta(snapshotIndex, snapshotTerm, commitIndex, lastApplied, currentTerm, votedFor));
    }

    // ---- leaders ------------------------------------------------------------------------

    method Propose(command: Command) returns (index: nat, ok: bool)
      requires Valid()
      modifies this, storage
      ensures Valid()
      ensures View() == RaftSpec.Propose(old(View()), command)
      ensures ok == old(state).Leader? && (ok ==> index == |hist|)
      ensures storage != null ==>
        storage.trace == old(storage.trace) + (if ok then PersistStates(old(storage.View()), View()) else [])
    {
      hide Decode, Replay;
      if state != Leader {
        return 0, false;
      }
      var last := LastLogIndex();
      index := last + 1;
      log := log + [Entry(index, currentTerm, command)];
      hist := hist + [Entry(index, currentTerm, command)];
      if storage != null {
        PersistDurableState();
      }
      ok := true;
    }

    /** One task per remote peer: the entries it is missing, or the snapshot. */
    method CollectReplicationTasks(term: nat) returns (tasks: map<string, Task>, ok: bool)
      requires Valid()
      ensures ok == (state.Leader? && currentTerm == term)
      ensures ok ==> tasks.Keys == peerAddresses.Keys - {nodeId}
      ensures ok ==> forall p :: p in tasks ==> tasks[p] == TaskFor(View(), p)
    {
      tasks, ok := map[], state == Leader && currentTerm == term;
      if !ok {
        return;
      }
      var todo := peerAddresses.Keys - {nodeId};
      while todo != {}
        invariant todo <= peerAddresses.Keys - {nodeId}
        invariant tasks.Keys == peerAddresses.Keys - {nodeId} - todo
        invariant forall p :: p in tasks ==> tasks[p] == TaskFor(View(), p)
      {
        var p :| p in todo;
        todo := todo - {p};
        var task := TaskForPeer(p);
        tasks := tasks[p := task];
      }
    }

    /** The entry before a peer's next index is in the log. */
    lemma PreviousInLog(p: string)
      requires LogValid() && |snap| < Lookup(nextIndex, p)
      ensures var k := Lookup(nextIndex, p) - 1;
        k <= |hist| && k - |snap| < |log| && log[k - |snap|].term == TermOf(View(), k)
    {
      hide Indexed, CompactedLog, TermOf;
      OffsetTerm(Lookup(nextIndex, p) - 1);
    }

    /** What the log holds from a peer's next index on. */
    lemma TailInLog(k: nat)
      requires LogValid() && |snap| <= k <= |hist|
      ensures k - |snap| + 1 <= |log| && log[k - |snap| + 1..] == hist[k..]
    {
      hide Indexed, LeaderBounds;
      TailBeyond(hist, |snap|, snapshotTerm, k);
    }

    method TaskForPeer(p: string) returns (task: Task)
      requires Valid()
      ensures task == TaskFor(View(), p)
    {
      hide Decode, Replay, Indexed, CompactedLog, ProgressWithin, TermOf;
      var nextIdx := Lookup(nextIndex, p);
      if nextIdx <= snapshotIndex {
        return SendSnapshot;
      }
      var prevLogIndex := nextIdx - 1;
      PreviousInLog(p);
      TailInLog(prevLogIndex);
      var prevOffset := LogOffsetForIndex(prevLogIndex);
      var prevLogTerm := log[prevOffset].term;
      var entries: seq<Entry> := [];
      var startOffset := LogOffsetForIndex(nextIdx);
      if startOffset < |log| {
        entries := log[startOffset..];
      }
      return SendEntries(AppendEntriesArgs(currentTerm, nodeId, prevLogIndex, prevLogTerm, entries, commitIndex));
    }

    /** The reply to a message this leader built: its entries are still in the log. */
    method HandleAppendEntriesReply(term: nat, peer: string, args: AppendEntriesArgs, replyTerm: nat, success: bool)
      returns (sendSnapshot: bool, panicked: bool)
      requires Valid()
      requires state.Leader? && currentTerm == term ==> args.prevIndex + |args.entries| <= |hist|
      modifies this, matchFSM, storage
      ensures !panicked ==> Valid()
      ensures !panicked ==> View() == HandleAppendReply(old(View()), term, peer, args, replyTerm, success)
      ensures panicked == ReplyPanics(old(View()), term, peer, args, replyTerm, success)
      ensures sendSnapshot == (replyTerm <= old(currentTerm) && old(state).Leader? && old(currentTerm) == term
        && !success && Lookup(old(nextIndex), peer) <= old(snapshotIndex) + 1)
      ensures !panicked && storage != null ==>
        storage.trace == old(storage.trace)
          + ReplyStates(old(View()), term, peer, args, replyTerm, success, old(storage.View()))
    {
      hide Decode, Replay, AdvanceCommit, AdvancePanics, Indexed, CompactedLog, AdvanceStates;
      sendSnapshot, panicked := false, false;
      if replyTerm > currentTerm {
        BecomeFollowerLocked(replyTerm);
        return;
      }
      if state != Leader || currentTerm != term {
        return;
      }
      if success {
        matchIndex := matchIndex[peer := args.prevIndex + |args.entries|];
        nextIndex := nextIndex[peer := matchIndex[peer] + 1];
        panicked := AdvanceCommitIndexLocked();
        return;
      }
      var next := Lookup(nextIndex, peer);
      if next <= snapshotIndex + 1 {
        sendSnapshot := true;
        return;
      }
      if next > 1 {
        nextIndex := nextIndex[peer := next - 1];
      }
    }

    /** Searches from the end of the log for a current-term index that a quorum holds. */
    method AdvanceCommitIndexLocked() returns (panicked: bool)
      requires Valid()
      modifies this, matchFSM, storage
      ensures !panicked ==> Valid()
      ensures !panicked ==> View() == AdvanceCommit(old(View()))
      ensures panicked == AdvancePanics(old(View()))
      ensures !panicked && storage != null ==>
        storage.trace == old(storage.trace) + AdvanceStates(old(View()), old(storage.View()))
    {
      hide Decode, Replay, ApplyLoop, CompactionPanics, Indexed, ProgressWithin, CompactedLog, QuorumMet, CompactStates;
      panicked := false;
      var lastIdx := LastLogIndex();
      var idx: nat := lastIdx;
      while idx > commitIndex
        invariant Valid() && View() == old(View()) && idx <= lastIdx
        invariant storage != null ==> storage.trace == old(storage.trace) && storage.View() == old(storage.View())
        invariant TopCommit(View(), idx) == TopCommit(View(), lastIdx)
      {
        var current := HasCurrentTerm(idx);
        if current {
          var met := QuorumMetForIndex(idx);
          if met {
            commitIndex := idx;
            panicked := ApplyCommittedLocked();
            return;
          }
        }
        idx := idx - 1;
      }
    }

    method HasCurrentTerm(idx: nat) returns (r: bool)
      requires Valid() && idx <= |hist|
      ensures r == (|snap| <= idx && TermOf(View(), idx) == currentTerm)
    {
      var offset := LogOffsetForIndex(idx);
      Offsets();
      return !(offset < 0 || offset >= |log|) && log[offset].term == currentTerm;
    }

    method QuorumMetForIndex(index: nat) returns (met: bool)
      ensures met == QuorumMet(View(), index)
    {
      if joint.Joint? {
        met := QuorumMetInConfig(index, joint.before);
        if met {
          met := QuorumMetInConfig(index, joint.after);
        }
      } else {
        met := QuorumMetInConfig(index, peerAddresses);
      }
    }

    method QuorumMetInConfig(index: nat, config: Peers) returns (met: bool)
      ensures met == QuorumIn(View(), index, config)
    {
      var voters := ActiveVotersInConfig(config);
      if voters == 0 {
        return true;
      }
      var held := ReplicationCountInConfig(index, config);
      return held >= voters / 2 + 1;
    }

    method ActiveVotersInConfig(config: Peers) returns (count: nat)
      ensures count == |Voters(View(), config)|
    {
      count := 0;
      var todo := config.Keys;
      ghost var counted: set<string> := {};
      while todo != {}
        invariant todo <= config.Keys
        invariant counted == set p | p in config.Keys - todo && !PendingPeer(View(), p)
        invariant count == |counted|
      {
        var p :| p in todo;
        todo := todo - {p};
        var pending := IsPendingNewPeer(p);
        if !pending {
          count := count + 1;
          counted := counted + {p};
        }
      }
      assert counted == Voters(View(), config);
    }

    method ReplicationCountInConfig(index: nat, config: Peers) returns (count: nat)
      ensures count == |Holders(View(), index, config)|
    {
      count := 0;
      var todo := config.Keys;
      ghost var counted: set<string> := {};
      while todo != {}
        invariant todo <= config.Keys
        invariant counted == set p | p in config.Keys - todo && !PendingPeer(View(), p)
                                     && (p == nodeId || Lookup(matchIndex, p) >= index)
        invariant count == |counted|
      {
        var p :| p in todo;
        todo := todo - {p};
        var pending := IsPendingNewPeer(p);
        if !pending && (p == nodeId || Lookup(matchIndex, p) >= index) {
          count := count + 1;
          counted := counted + {p};
        }
      }
      assert counted == Holders(View(), index, config);
    }

    method IsPendingNewPeer(peer: string) returns (pending: bool)
      ensures pending == PendingPeer(View(), peer)
    {
      if joint.NoJoint? {
        return false;
      }
      if peer in joint.before {
        return false;
      }
      return Lookup(matchIndex, peer) == 0;
    }

    // ---- restart ------------------------------------------------------------------------

    /** Rebuilds the node from whatever the files hold. */
    method BootstrapFromStorage() returns (ok: bool)
      requires Valid() && storage != null
      requires View() == Fresh(nodeId, peerAddresses, compactThreshold)
      requires DiskWellFormed(storage.View()) && |ImageEntries(storage.View())| < 0x8000_0000
      modifies this, matchFSM
      ensures ok && Valid()
      ensures View() == Recovered(storage.View(), old(View()))
    {
      hide ApplyLoop, Decode, Replay, Encodable, Indexed;
      ghost var d, empty := storage.View(), View();
      ok := LoadFiles();
      LoadMeta(storage.metaFile);
      assert View() == Loaded(d, empty);
      ReplayCommittedLocked();
    }

    /** Snapshot file and log file; nothing is applied beyond the snapshot yet. */
    method LoadFiles() returns (ok: bool)
      requires Valid() && storage != null
      requires View() == Fresh(nodeId, peerAddresses, compactThreshold)
      requires DiskWellFormed(storage.View()) && |ImageEntries(storage.View())| < 0x8000_0000
      modifies matchFSM, this`snapshotIndex, this`snapshotTerm, this`lastSnapshot, this`lastApplied, this`log
      modifies this`hist, this`snap, this`applied
      ensures ok && Valid() && lastApplied == snapshotIndex
      ensures var d := storage.View();
        View() == old(View()).(
          hist := RecoveredHist(d), applied := ImageEntries(d), snap := ImageEntries(d), snapTerm := ImageTerm(d))
    {
      hide ApplyLoop, Decode, Replay, Encodable, ProgressWithin, Indexed, CompactedLog, Beyond, RecoveredHist;
      ghost var d := storage.View();
      ok := LoadSnapshot();
      LoadLog(storage.logFile);
      hist := RecoveredHist(d);
      RecoveredShape(d);
      FollowersTrackNobody(|hist|);
    }

    /** The state machine and the snapshot coordinates, from the snapshot file if there is one. */
    method LoadSnapshot() returns (ok: bool)
      requires Valid() && storage != null && View() == Fresh(nodeId, peerAddresses, compactThreshold)
      requires |ImageEntries(storage.View())| < 0x8000_0000
      modifies matchFSM, this`snapshotIndex, this`snapshotTerm, this`lastSnapshot, this`lastApplied
      modifies this`snap, this`applied
      ensures ok && storage.Valid()
      ensures matchFSM.matches == Replay(applied)
      ensures 0 < |snap| < 0x8000_0000 ==> Decode(lastSnapshot) == Ok(Replay(snap))
      ensures snap == applied == ImageEntries(storage.View()) && snapshotTerm == ImageTerm(storage.View())
      ensures snapshotIndex == lastApplied == |snap|
    {
      hide Decode, Encodable, Indexed, ProgressWithin, CompactedLog;
      var record := storage.snapshotFile;
      ok := true;
      if record.Some? {
        ok := matchFSM.Restore(record.value.data);
        snapshotIndex, snapshotTerm := record.value.index, record.value.term;
        lastSnapshot, lastApplied := record.value.data, record.value.index;
        snap, applied := storage.image, storage.image;
      }
    }

    /** The sentinel, then the entries of the file that the snapshot does not cover. */
    method LoadLog(entries: seq<Entry>)
      modifies this`log
      ensures log == [Entry(snapshotIndex, snapshotTerm, Undecodable)] + Beyond(entries, snapshotIndex)
    {
      log := [Entry(snapshotIndex, snapshotTerm, Undecodable)];
      var i := 0;
      while i < |entries|
        invariant 0 <= i <= |entries|
        invariant log == [Entry(snapshotIndex, snapshotTerm, Undecodable)] + Beyond(entries[..i], snapshotIndex)
      {
        assert entries[..i + 1][..i] == entries[..i];
        if entries[i].index > snapshotIndex {
          log := log + [entries[i]];
        }
        i := i + 1;
      }
      assert entries[..i] == entries;
    }

    /** The snapshot file is written before the meta file, so the corrections below never have to be made. */
    method LoadMeta(meta: Option<RaftMeta>)
      requires LogValid() && lastApplied == snapshotIndex
      requires meta.Some? ==> meta.value.snapshotIndex <= snapshotIndex
      modifies this`commitIndex, this`currentTerm, this`votedFor
      ensures LogValid()
      ensures View() == (var m := if meta.Some? then meta.value else RaftMeta(0, 0, 0, 0, 0, "");
        old(View()).(commit := Max(Max(m.commitIndex, old(commitIndex)), |hist|),
                     term := Max(m.currentTerm, old(currentTerm)),
                     votedFor := if m.votedFor != "" then m.votedFor else old(votedFor)))
    {
      hide Indexed, CompactedLog, ProgressWithin;
      if meta.Some? {
        if meta.value.snapshotIndex > snapshotIndex {
          assert false;
        }
        if meta.value.commitIndex > commitIndex {
          commitIndex := meta.value.commitIndex;
        }
        if meta.value.currentTerm > currentTerm {
          currentTerm := meta.value.currentTerm;
        }
        if meta.value.votedFor != "" {
          votedFor := meta.value.votedFor;
        }
      }
      var lastIdx := LastLogIndex();
      if lastIdx > commitIndex {
        commitIndex := lastIdx;
      }
      if lastApplied < snapshotIndex || commitIndex < snapshotIndex {
        assert false;
      }
    }
  }
}
