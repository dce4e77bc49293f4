/**
 * The Raft node over its full history: every operation of pkg/consensus/raft_node.go, written for a
 * log that is never compacted. The compacted node of RaftNode.dfy is proved to do exactly this, and
 * the whole-cluster theorems are about these functions.
 *
 * A node is described by three sequences of entries: `hist`, its log since index 1; `applied`, the
 * entries it fed to its state machine; `snap`, the entries its latest snapshot stands for.
 */
module RaftSpec {
  import opened Basics
  import opened GameFsm
  import opened FsmCodec

  datatype Role = Follower | Candidate | Leader

  type Peers = map<string, string>

  datatype JointConfig = NoJoint | Joint(before: Peers, after: Peers)

  datatype Node = Node(
    id: string,
    term: nat,
    votedFor: string,
    role: Role,
    peers: Peers,
    joint: JointConfig,
    next: map<string, nat>,
    matched: map<string, nat>,
    hist: seq<Entry>,
    commit: nat,
    applied: seq<Entry>,
    snap: seq<Entry>,
    snapTerm: nat,
    threshold: nat)

  datatype RequestVoteArgs = RequestVoteArgs(term: nat, candidate: string, lastIndex: nat, lastTerm: nat)

  datatype AppendEntriesArgs = AppendEntriesArgs(
    term: nat, leader: string, prevIndex: nat, prevTerm: nat, entries: seq<Entry>, leaderCommit: nat)

  /** What NewRaftNode builds. */
  function Fresh(id: string, peers: Peers, threshold: nat): Node {
    Node(id, 0, "", Follower, peers, NoJoint, map[], map[], [], 0, [], [], 0, threshold)
  }

  // ---- the shape every operation keeps ------------------------------------------------------

  /** Entry i of a history sits at index i + 1. */
  predicate Indexed(es: seq<Entry>, first: nat) {
    forall i :: 0 <= i < |es| ==> es[i].index == first + i
  }

  predicate Shape(s: Node) {
    && |s.snap| <= |s.hist|
    && |s.snap| <= |s.applied|
    && Indexed(s.hist, 1)
  }

  /** The state machine and the snapshot reflect the log: three nested prefixes. */
  predicate Consistent(s: Node) {
    && s.snap <= s.applied <= s.hist
    && s.snapTerm == TermAt(s.hist, |s.snap|)
  }

  /** The term of index i of a full history; index 0 is the sentinel of the empty log. */
  function TermAt(h: seq<Entry>, i: nat): nat
    requires i <= |h|
  {
    if i == 0 then 0 else h[i - 1].term
  }

  /** The term the node reads at index i: at the snapshot's own index it is the recorded one. */
  function TermOf(s: Node, i: nat): nat
    requires |s.snap| <= i <= |s.hist|
  {
    if i == |s.snap| then s.snapTerm else s.hist[i - 1].term
  }

  /** Logs that agree on an entry's index and term agree up to it. */
  predicate LogsMatch(g: seq<Entry>, h: seq<Entry>) {
    forall k :: 0 <= k < |g| && k < |h| && g[k].term == h[k].term ==> g[..k + 1] == h[..k + 1]
  }

  // ---- applying, committing, compacting -----------------------------------------------------

  /** One committed entry: membership commands change the configuration, the rest go to the FSM. */
  function ApplyEntry(s: Node, e: Entry): (r: Node)
    ensures r.applied == s.applied + [e]
    ensures r.(applied := s.applied, peers := s.peers, joint := s.joint, next := s.next, matched := s.matched) == s
    ensures !IsMembership(e.command) ==> r == s.(applied := s.applied + [e])
  {
    ApplyMembership(s, e.command).(applied := s.applied + [e])
  }

  function ApplyMembership(s: Node, c: Command): (r: Node)
    ensures r.(peers := s.peers, joint := s.joint, next := s.next, matched := s.matched) == s
    ensures !IsMembership(c) ==> r == s
  {
    match c
    case AddNode(id, address) =>
      if id == "" || address == "" || id in s.peers || s.joint.Joint? then s
      else
        var after := s.peers[id := address];
        var s1 := s.(joint := Joint(s.peers, after), peers := after);
        if s.role.Leader? then s1.(next := s.next[id := |s.hist| + 1], matched := s.matched[id := 0]) else s1
    case RemoveNode(id) =>
      if id == "" || id !in s.peers || s.joint.Joint? then s
      else
        var after := s.peers - {id};
        s.(joint := Joint(s.peers, after), peers := after, next := s.next - {id}, matched := s.matched - {id})
    case CommitConfig =>
      if s.joint.NoJoint? then s
      else
        var gone := s.next.Keys - s.joint.after.Keys;
        s.(peers := s.joint.after, joint := NoJoint, next := s.next - gone, matched := s.matched - gone)
    case _ => s
  }

  /** Applies entries one by one until the commit index, or the end of the log, is reached. */
  function ApplyLoop(s: Node): (r: Node)
    ensures r.(applied := s.applied, peers := s.peers, joint := s.joint, next := s.next, matched := s.matched) == s
    ensures s.applied <= r.applied
    decreases s.commit - |s.applied|
  {
    if |s.applied| < s.commit && |s.applied| < |s.hist|
    then ApplyLoop(ApplyEntry(s, s.hist[|s.applied|]))
    else s
  }

  /** Enough uncompacted entries, some of them applied since the last snapshot. */
  predicate CompactionDue(s: Node) {
    |s.hist| >= |s.snap| + s.threshold && |s.applied| > |s.snap|
  }

  function Compact(s: Node): (r: Node)
    ensures r.(snap := s.snap, snapTerm := s.snapTerm) == s
  {
    if CompactionDue(s) && |s.applied| <= |s.hist| && Encodable(Replay(s.applied))
    then s.(snap := s.applied, snapTerm := TermOf(s, |s.applied|))
    else s
  }

  /** The log has been cut below what was applied, and compaction reads past its end. */
  predicate CompactionPanics(s: Node) {
    CompactionDue(s) && |s.applied| > |s.hist| && Encodable(Replay(s.applied))
  }

  function ApplyCommitted(s: Node): Node {
    Compact(ApplyLoop(s))
  }

  // ---- followers ----------------------------------------------------------------------------

  function BecomeFollower(s: Node, term: nat): Node {
    s.(term := term, votedFor := "", role := Follower, next := map[], matched := map[])
  }

  predicate LogUpToDate(s: Node, lastIndex: nat, lastTerm: nat)
    requires |s.snap| <= |s.hist|
  {
    var mine := TermOf(s, |s.hist|);
    if lastTerm != mine then lastTerm > mine else lastIndex >= |s.hist|
  }

  function CatchUpTerm(s: Node, term: nat): Node {
    if term > s.term then BecomeFollower(s, term) else s
  }

  predicate GrantsVote(s: Node, m: RequestVoteArgs)
    requires |s.snap| <= |s.hist|
  {
    var s1 := CatchUpTerm(s, m.term);
    && m.term == s1.term
    && (s1.votedFor == "" || s1.votedFor == m.candidate)
    && LogUpToDate(s, m.lastIndex, m.lastTerm)
  }

  function HandleRequestVote(s: Node, m: RequestVoteArgs): Node
    requires |s.snap| <= |s.hist|
  {
    var s1 := CatchUpTerm(s, m.term);
    if GrantsVote(s, m) then s1.(votedFor := m.candidate) else s1
  }

  /** A message of the current or a later term: its sender is followed and the vote is forgotten. */
  function Adopt(s: Node, term: nat): Node {
    if term > s.term || s.role != Follower then BecomeFollower(s, term)
    else s.(term := term, votedFor := "")
  }

  /** Entries as entriesFromArgs stores them: a zero index or term is filled in. */
  function EntriesFromArgs(m: AppendEntriesArgs): (es: seq<Entry>)
    ensures |es| == |m.entries|
  {
    seq(|m.entries|, i requires 0 <= i < |m.entries| =>
      Entry(if m.entries[i].index == 0 then m.prevIndex + 1 + i else m.entries[i].index,
            if m.entries[i].term == 0 then m.term else m.entries[i].term,
            m.entries[i].command))
  }

  /** The message numbers its entries as the log will. */
  predicate WellIndexed(m: AppendEntriesArgs) {
    Indexed(EntriesFromArgs(m), m.prevIndex + 1)
  }

  predicate AcceptsAppend(s: Node, m: AppendEntriesArgs) {
    && m.term >= s.term
    && |s.snap| <= m.prevIndex <= |s.hist|
    && TermOf(s, m.prevIndex) == m.prevTerm
  }

  function MergedHist(s: Node, m: AppendEntriesArgs): seq<Entry>
    requires m.prevIndex <= |s.hist|
  {
    if |m.entries| > 0 then s.hist[..m.prevIndex] + EntriesFromArgs(m) else s.hist
  }

  /** The log and commit index after an accepted message, before anything is applied. */
  function MergeEntries(s: Node, m: AppendEntriesArgs): (r: Node)
    requires m.prevIndex <= |s.hist|
    ensures r.(hist := s.hist, commit := s.commit) == s
  {
    var h := MergedHist(s, m);
    s.(hist := h, commit := if m.leaderCommit > s.commit then Min(m.leaderCommit, |h|) else s.commit)
  }

  function HandleAppend(s: Node, m: AppendEntriesArgs): Node {
    if m.term < s.term then s
    else if !AcceptsAppend(s, m) then Adopt(s, m.term)
    else ApplyCommitted(MergeEntries(Adopt(s, m.term), m))
  }

  /** The node is brought down while handling the message. */
  predicate AppendPanics(s: Node, m: AppendEntriesArgs) {
    AcceptsAppend(s, m) && CompactionPanics(ApplyLoop(MergeEntries(Adopt(s, m.term), m)))
  }

  /** The snapshot stands for the entries `image`, the last of which carries `lastTerm`. */
  function HandleInstall(s: Node, term: nat, lastTerm: nat, image: seq<Entry>): Node {
    if term < s.term then s
    else
      var s1 := Adopt(s, term);
      if |image| <= |s.snap| then s1
      else s1.(
        hist := image + (if |image| < |s.hist| then s.hist[|image|..] else []),
        applied := image,
        snap := image,
        snapTerm := lastTerm,
        commit := if |image| < s.commit then |image| else s.commit)
  }

  // ---- candidates and leaders ---------------------------------------------------------------

  function StartElection(s: Node): Node {
    if s.role.Leader? then s
    else s.(term := s.term + 1, role := Candidate, votedFor := s.id)
  }

  function ElectionMajority(s: Node): nat {
    (if s.joint.Joint? then |s.joint.before| else |s.peers|) / 2 + 1
  }

  /** Every peer mapped to the same index. */
  ghost function Uniform(peers: set<string>, index: nat): (m: map<string, nat>)
    ensures m.Keys == peers
    ensures forall p :: p in m ==> m[p] == index
    decreases |peers|
  {
    if peers == {} then map[]
    else
      var p :| p in peers;
      Uniform(peers - {p}, index)[p := index]
  }

  lemma UniformIs(m: map<string, nat>, peers: set<string>, index: nat)
    requires m.Keys == peers && forall p :: p in m ==> m[p] == index
    ensures m == Uniform(peers, index)
  {
  }

  ghost function Promote(s: Node, term: nat): Node {
    if !s.role.Candidate? || s.term != term then s
    else s.(role := Leader,
            next := Uniform(s.peers.Keys - {s.id}, |s.hist| + 1),
            matched := Uniform(s.peers.Keys - {s.id}, 0))
  }

  function Propose(s: Node, c: Command): Node {
    if !s.role.Leader? then s else s.(hist := s.hist + [Entry(|s.hist| + 1, s.term, c)])
  }

  datatype Task = SendEntries(args: AppendEntriesArgs) | SendSnapshot

  /** What collectReplicationTasks prepares for one peer. */
  function TaskFor(s: Node, peer: string): Task
    requires |s.snap| < Lookup(s.next, peer) ==> Lookup(s.next, peer) <= |s.hist| + 1
  {
    var next := Lookup(s.next, peer);
    if next <= |s.snap| then SendSnapshot
    else SendEntries(AppendEntriesArgs(s.term, s.id, next - 1, TermOf(s, next - 1), s.hist[next - 1..], s.commit))
  }

  function HandleAppendReply(s: Node, term: nat, peer: string, m: AppendEntriesArgs, replyTerm: nat, success: bool)
    : Node
    requires |s.snap| <= |s.hist|
  {
    if replyTerm > s.term then BecomeFollower(s, replyTerm)
    else if !s.role.Leader? || s.term != term then s
    else if success then
      var top := m.prevIndex + |m.entries|;
      AdvanceCommit(s.(matched := s.matched[peer := top], next := s.next[peer := top + 1]))
    else if Lookup(s.next, peer) > |s.snap| + 1 && Lookup(s.next, peer) > 1
    then s.(next := s.next[peer := s.next[peer] - 1])
    else s
  }

  // ---- quorums ------------------------------------------------------------------------------

  /** A peer joining through the transition that has acknowledged nothing yet. */
  predicate PendingPeer(s: Node, p: string) {
    s.joint.Joint? && p !in s.joint.before && Lookup(s.matched, p) == 0
  }

  function Voters(s: Node, config: Peers): set<string> {
    set p | p in config && !PendingPeer(s, p)
  }

  function Holders(s: Node, index: nat, config: Peers): set<string> {
    set p | p in config && !PendingPeer(s, p) && (p == s.id || Lookup(s.matched, p) >= index)
  }

  predicate QuorumIn(s: Node, index: nat, config: Peers) {
    |Voters(s, config)| == 0 || |Holders(s, index, config)| >= |Voters(s, config)| / 2 + 1
  }

  predicate QuorumMet(s: Node, index: nat) {
    if s.joint.Joint? then QuorumIn(s, index, s.joint.before) && QuorumIn(s, index, s.joint.after)
    else QuorumIn(s, index, s.peers)
  }

  predicate Committable(s: Node, index: nat) {
    |s.snap| <= index <= |s.hist| && TermOf(s, index) == s.term && QuorumMet(s, index)
  }

  /** The largest committable index above the commit index, or the commit index itself. */
  function TopCommit(s: Node, from: nat): (c: nat)
    ensures c == s.commit || (s.commit < c <= from && Committable(s, c))
    ensures forall i :: s.commit < i <= from && Committable(s, i) ==> i <= c
  {
    if from <= s.commit then s.commit
    else if Committable(s, from) then from
    else TopCommit(s, from - 1)
  }

  function AdvanceCommit(s: Node): Node
    requires |s.snap| <= |s.hist|
  {
    var c := TopCommit(s, |s.hist|);
    if c == s.commit then s else ApplyCommitted(s.(commit := c))
  }

  /** Advancing brings the node down: its log no longer reaches what it applied. */
  predicate AdvancePanics(s: Node)
    requires |s.snap| <= |s.hist|
  {
    var c := TopCommit(s, |s.hist|);
    c > s.commit && CompactionPanics(ApplyLoop(s.(commit := c)))
  }

  predicate ReplyPanics(s: Node, term: nat, peer: string, m: AppendEntriesArgs, replyTerm: nat, success: bool)
    requires |s.snap| <= |s.hist|
  {
    var top := m.prevIndex + |m.entries|;
    replyTerm <= s.term && s.role.Leader? && s.term == term && success
    && AdvancePanics(s.(matched := s.matched[peer := top], next := s.next[peer := top + 1]))
  }

  // ---- a leader's bookkeeping ---------------------------------------------------------------

  /** What a leader believes about its peers never points past the end of its own log. */
  predicate LeaderBounds(s: Node) {
    ProgressWithin(s.role, s.next, s.matched, |s.hist|)
  }

  predicate ProgressWithin(role: Role, next: map<string, nat>, matched: map<string, nat>, last: nat) {
    && (forall p :: p in next ==> next[p] <= last + 1)
    && (forall p :: p in matched ==> matched[p] <= last)
    && (!role.Leader? ==> next == map[] && matched == map[])
  }

  lemma UniformWithin(peers: set<string>, last: nat)
    ensures ProgressWithin(Leader, Uniform(peers, last + 1), Uniform(peers, 0), last)
  {
  }

  // ---- what the loops amount to -------------------------------------------------------------

  /** Applying runs through the log as far as the commit index and the log allow. */
  lemma {:induction false} ApplyLoopRunsAhead(s: Node)
    ensures ApplyLoop(s).applied ==
      s.applied + (if |s.applied| < Min(s.commit, |s.hist|) then s.hist[|s.applied|..Min(s.commit, |s.hist|)] else [])
    decreases s.commit - |s.applied|
  {
    if |s.applied| < s.commit && |s.applied| < |s.hist| {
      var s1 := ApplyEntry(s, s.hist[|s.applied|]);
      ApplyLoopRunsAhead(s1);
      var top := Min(s.commit, |s.hist|);
      assert s.hist[|s.applied|..top] == [s.hist[|s.applied|]] + s.hist[|s1.applied|..top];
    }
  }

  lemma ApplyLoopStep(s: Node)
    ensures ApplyLoop(s) == if |s.applied| < s.commit && |s.applied| < |s.hist|
                            then ApplyLoop(ApplyEntry(s, s.hist[|s.applied|])) else s
  {
  }
}
