/**
 * A cluster of Raft nodes and everything they have ever sent. Messages are never removed, so a run
 * may lose, delay, repeat and reorder them freely; nodes do not restart and peers are fixed.
 */
module Cluster {
  import opened Basics
  import opened GameFsm
  import opened FsmCodec
  import opened RaftSpec

  datatype Message =
    | VoteRequest(to: string, vote: RequestVoteArgs)
    | VoteReply(candidate: string, voter: string, askedTerm: nat, replyTerm: nat, granted: bool)
    | AppendRequest(to: string, args: AppendEntriesArgs, probe: bool)
    | AppendReply(follower: string, args: AppendEntriesArgs, replyTerm: nat, success: bool)
    | ProbeReply(leader: string, replyTerm: nat)
    | SnapshotRequest(to: string, term: nat, lastTerm: nat, image: seq<Entry>)

  /**
   * The nodes, the messages sent, and the votes each candidate has counted. The last four fields only
   * record what happened: votes cast, leaders' messages followed, promotions, and each term's leader log.
   */
  datatype Cluster = Cluster(
    nodes: map<string, Node>,
    net: set<Message>,
    counted: set<(string, nat, string)>,
    votes: set<(nat, string, string)>,
    followed: set<(nat, string)>,
    promoted: set<(nat, string)>,
    leaderLog: map<nat, seq<Entry>>)

  datatype Event =
    | Timeout(i: string)
    | DeliverVoteRequest(m: Message)
    | DeliverVoteReply(m: Message)
    | BecomeLeader(i: string)
    | ClientProposes(i: string, command: Command)
    | SendTask(i: string, peer: string)
    | OfferSnapshot(i: string, peer: string)
    | SendProbe(i: string, peer: string)
    | DeliverAppend(m: Message)
    | DeliverAppendReply(m: Message)
    | DeliverProbeReply(m: Message)
    | DeliverSnapshot(m: Message)

  /** All nodes fresh, knowing the same peers: one another. */
  predicate Initial(c: Cluster, peers: Peers) {
    && peers.Keys == c.nodes.Keys && "" !in peers
    && (forall i :: i in c.nodes ==> c.nodes[i] == Fresh(i, peers, c.nodes[i].threshold))
    && c.net == {} && c.counted == {} && c.votes == {} && c.followed == {} && c.promoted == {} && c.leaderLog == map[]
  }

  /** Bounds the events rely on; every reachable cluster has them. */
  predicate Workable(c: Cluster) {
    forall i :: i in c.nodes ==> Shape(c.nodes[i]) && LeaderBounds(c.nodes[i])
  }

  function CountedFor(c: Cluster, i: string, term: nat): set<string> {
    set v | v in c.nodes && (i, term, v) in c.counted
  }

  predicate Enabled(c: Cluster, e: Event)
    requires Workable(c)
  {
    match e
    case Timeout(i) => i in c.nodes && !c.nodes[i].role.Leader?
    case DeliverVoteRequest(m) => m in c.net && m.VoteRequest? && m.to in c.nodes
    case DeliverVoteReply(m) => m in c.net && m.VoteReply? && m.candidate in c.nodes
    case BecomeLeader(i) =>
      && i in c.nodes && c.nodes[i].role.Candidate?
      && 1 + |CountedFor(c, i, c.nodes[i].term)| >= ElectionMajority(c.nodes[i])
    case ClientProposes(i, command) => i in c.nodes && c.nodes[i].role.Leader?
    case SendTask(i, peer) => i in c.nodes && peer in c.nodes && peer != i && c.nodes[i].role.Leader?
    case OfferSnapshot(i, peer) =>
      i in c.nodes && peer in c.nodes && peer != i && c.nodes[i].role.Leader? && |c.nodes[i].snap| > 0
    case SendProbe(i, peer) => i in c.nodes && peer in c.nodes && peer != i && c.nodes[i].role.Leader?
    case DeliverAppend(m) => m in c.net && m.AppendRequest? && m.to in c.nodes
    case DeliverAppendReply(m) => m in c.net && m.AppendReply? && m.args.leader in c.nodes
    case DeliverProbeReply(m) => m in c.net && m.ProbeReply? && m.leader in c.nodes
    case DeliverSnapshot(m) => m in c.net && m.SnapshotRequest? && m.to in c.nodes
  }

  /** The leader sends its latest snapshot: OfferSnapshot lets it at any time, not only when entries are refused. */
  function Offered(c: Cluster, i: string, peer: string): Cluster
    requires i in c.nodes
  {
    var s := c.nodes[i];
    c.(net := c.net + {SnapshotRequest(peer, s.term, s.snapTerm, s.snap)})
  }

  ghost function Next(c: Cluster, e: Event): Cluster
    requires Workable(c) && Enabled(c, e)
  {
    match e
    case Timeout(i) =>
      var s := StartElection(c.nodes[i]);
      var ask := RequestVoteArgs(s.term, i, |s.hist|, TermOf(s, |s.hist|));
      c.(nodes := c.nodes[i := s],
         net := c.net + (set p | p in c.nodes && p != i :: VoteRequest(p, ask)),
         votes := c.votes + {(s.term, i, i)})
    case DeliverVoteRequest(m) =>
      var s := HandleRequestVote(c.nodes[m.to], m.vote);
      var granted := GrantsVote(c.nodes[m.to], m.vote);
      c.(nodes := c.nodes[m.to := s],
         net := c.net + {VoteReply(m.vote.candidate, m.to, m.vote.term, s.term, granted)},
         votes := if granted then c.votes + {(s.term, m.to, m.vote.candidate)} else c.votes)
    case DeliverVoteReply(m) =>
      var s := c.nodes[m.candidate];
      c.(nodes := c.nodes[m.candidate := CatchUpTerm(s, m.replyTerm)],
         counted := if m.granted && m.replyTerm == m.askedTerm && s.role.Candidate? && s.term == m.askedTerm
                    then c.counted + {(m.candidate, m.askedTerm, m.voter)} else c.counted)
    case BecomeLeader(i) =>
      var s := Promote(c.nodes[i], c.nodes[i].term);
      c.(nodes := c.nodes[i := s],
         promoted := c.promoted + {(s.term, i)},
         leaderLog := c.leaderLog[s.term := s.hist])
    case ClientProposes(i, command) =>
      var s := Propose(c.nodes[i], command);
      c.(nodes := c.nodes[i := s], leaderLog := c.leaderLog[s.term := s.hist])
    case SendTask(i, peer) =>
      var s := c.nodes[i];
      (match TaskFor(s, peer)
       case SendEntries(args) => c.(net := c.net + {AppendRequest(peer, args, false)})
       case SendSnapshot => if |s.snap| == 0 then c else Offered(c, i, peer))
    case OfferSnapshot(i, peer) => Offered(c, i, peer)
    case SendProbe(i, peer) =>
      var s := c.nodes[i];
      var args := AppendEntriesArgs(s.term, i, |s.hist|, TermOf(s, |s.hist|), [], s.commit);
      c.(net := c.net + {AppendRequest(peer, args, true)})
    case DeliverAppend(m) =>
      var s := c.nodes[m.to];
      var s' := HandleAppend(s, m.args);
      c.(nodes := c.nodes[m.to := s'],
         net := c.net + {if m.probe then ProbeReply(m.args.leader, s'.term)
                         else AppendReply(m.to, m.args, s'.term, AcceptsAppend(s, m.args))},
         followed := if m.args.term >= s.term then c.followed + {(m.args.term, m.to)} else c.followed)
    case DeliverAppendReply(m) =>
      var s := c.nodes[m.args.leader];
      var s' := HandleAppendReply(s, m.args.term, m.follower, m.args, m.replyTerm, m.success);
      c.(nodes := c.nodes[m.args.leader := s'])
    case DeliverProbeReply(m) =>
      c.(nodes := c.nodes[m.leader := CatchUpTerm(c.nodes[m.leader], m.replyTerm)])
    case DeliverSnapshot(m) =>
      var s := c.nodes[m.to];
      c.(nodes := c.nodes[m.to := HandleInstall(s, m.term, m.lastTerm, m.image)],
         followed := if m.term >= s.term then c.followed + {(m.term, m.to)} else c.followed)
  }

  /** Events enabled one after the other; the last event is the latest. */
  ghost predicate Possible(c: Cluster, es: seq<Event>)
    decreases |es|, 0
  {
    |es| == 0
    || (var before := es[..|es| - 1];
        Possible(c, before) && Workable(After(c, before)) && Enabled(After(c, before), es[|es| - 1]))
  }

  ghost function After(c: Cluster, es: seq<Event>): Cluster
    requires Possible(c, es)
    decreases |es|, 1
  {
    if |es| == 0 then c else Next(After(c, es[..|es| - 1]), es[|es| - 1])
  }

  lemma OneMore(c: Cluster, es: seq<Event>, e: Event)
    requires Possible(c, es) && Workable(After(c, es)) && Enabled(After(c, es), e)
    ensures Possible(c, es + [e]) && After(c, es + [e]) == Next(After(c, es), e)
  {
    hide Workable, Enabled, Next;
    assert (es + [e])[..|es|] == es;
  }

  /** No membership change is proposed. */
  predicate FixedPeers(e: Event) {
    e.ClientProposes? ==> !IsMembership(e.command)
  }

  /** A node that has followed a leader's message of a term gives no second candidate of that term its vote. */
  ghost predicate KeepsVote(c: Cluster, e: Event)
    requires Workable(c) && Enabled(c, e)
  {
    e.DeliverVoteRequest? && GrantsVote(c.nodes[e.m.to], e.m.vote) && (e.m.vote.term, e.m.to) in c.followed ==>
      forall x :: (e.m.vote.term, e.m.to, x) in c.votes ==> x == e.m.vote.candidate
  }

  predicate Clean(es: seq<Entry>) {
    forall k :: 0 <= k < |es| ==> !IsMembership(es[k].command)
  }

  /** Without membership commands applying changes nothing but the applied entries. */
  lemma {:induction false} CleanApply(s: Node)
    requires Clean(s.hist)
    ensures ApplyLoop(s) == s.(applied := ApplyLoop(s).applied)
    ensures Clean(s.applied) ==> Clean(ApplyLoop(s).applied)
    decreases s.commit - |s.applied|
  {
    if |s.applied| < s.commit && |s.applied| < |s.hist| {
      CleanApply(ApplyEntry(s, s.hist[|s.applied|]));
    }
  }

  // ---- what a handler may do to a node ---------------------------------------------------------

  /** What holds of each single node in every reachable cluster. */
  predicate NodeOk(s: Node) {
    && Shape(s) && LeaderBounds(s)
    && Clean(s.hist) && Clean(s.applied) && Clean(s.snap)
    && Indexed(s.applied, 1) && Indexed(s.snap, 1)
    && (!s.role.Follower? ==> s.term >= 1)
  }

  predicate ArgsOk(m: AppendEntriesArgs) {
    Clean(m.entries) && Indexed(m.entries, m.prevIndex + 1)
  }

  predicate SameConfig(s: Node, s': Node) {
    s'.id == s.id && s'.peers == s.peers && s'.joint == s.joint
  }

  /** Terms only grow; a leader keeps its log for the whole of its term; roles are entered in order. */
  predicate NodeStep(s: Node, s': Node) {
    && SameConfig(s, s') && NodeOk(s') && s.term <= s'.term
    && (s'.role.Candidate? && s'.term == s.term ==> s.role.Candidate?)
    && (s'.role.Leader? ==> s'.term == s.term && !s.role.Follower? && (s.role.Leader? ==> s.hist <= s'.hist))
  }

  /** The snapshot stays, or moves forward to an index of the log. */
  predicate KeepsOrCompacts(s: Node, s': Node) {
    && |s'.snap| <= |s'.hist|
    && ((s'.snap == s.snap && s'.snapTerm == s.snapTerm)
        || (|s.snap| < |s'.snap| && s'.snapTerm == TermAt(s'.hist, |s'.snap|)))
  }

  /** The node takes up the message's term as a follower without a vote, or the message is stale and ignored. */
  predicate FollowsOrIgnores(s: Node, s': Node, term: nat) {
    if term >= s.term then s'.term == term && s'.role.Follower? && s'.votedFor == "" else s' == s
  }

  lemma NoProgress(last: nat)
    ensures ProgressWithin(Follower, map[], map[], last)
  {
  }

  /** Applying and compacting a clean log. */
  lemma ApplyCleanly(s: Node)
    requires NodeOk(s)
    ensures var s' := ApplyCommitted(s);
      && s'.(applied := s.applied, snap := s.snap, snapTerm := s.snapTerm) == s
      && NodeOk(s') && KeepsOrCompacts(s, s')
  {
    hide Encodable;
    CleanApply(s);
    ApplyLoopRunsAhead(s);
    AppliedIndexed(s);
  }

  lemma AppliedIndexed(s: Node)
    requires Indexed(s.hist, 1) && Indexed(s.applied, 1) && Clean(s.hist) && Clean(s.applied)
    ensures Indexed(ApplyLoop(s).applied, 1) && Clean(ApplyLoop(s).applied)
  {
    hide ApplyLoop, Indexed, Clean;
    ApplyLoopRunsAhead(s);
    if |s.applied| < Min(s.commit, |s.hist|) {
      ExtendedIndexed(s.applied, s.hist, Min(s.commit, |s.hist|));
    } else {
      assert s.applied + [] == s.applied;
    }
  }

  lemma ExtendedIndexed(a: seq<Entry>, h: seq<Entry>, top: nat)
    requires Indexed(a, 1) && Indexed(h, 1) && Clean(a) && Clean(h) && |a| < top <= |h|
    ensures Indexed(a + h[|a|..top], 1) && Clean(a + h[|a|..top])
  {
    var b := a + h[|a|..top];
    assert forall k :: 0 <= k < |b| ==> b[k] == if k < |a| then a[k] else h[k];
  }

  lemma MergedOk(s: Node, m: AppendEntriesArgs)
    requires NodeOk(s) && ArgsOk(m) && AcceptsAppend(s, m)
    ensures var s1 := MergeEntries(Adopt(s, m.term), m);
      && NodeOk(s1) && s1.hist == MergedHist(s, m)
      && s1.role.Follower? && s1.term == m.term && s1.votedFor == "" && SameConfig(s, s1)
      && s1.applied == s.applied && s1.snap == s.snap && s1.snapTerm == s.snapTerm
  {
    var h := MergedHist(s, m);
    assert Clean(h) && Indexed(h, 1);
    NoProgress(|h|);
  }

  lemma AppendEffect(s: Node, m: AppendEntriesArgs)
    requires NodeOk(s) && ArgsOk(m)
    ensures var s' := HandleAppend(s, m);
      && FollowsOrIgnores(s, s', m.term) && NodeStep(s, s') && KeepsOrCompacts(s, s')
      && s'.hist == (if AcceptsAppend(s, m) then MergedHist(s, m) else s.hist)
  {
    hide Clean, Indexed, ProgressWithin, ApplyCommitted, MergedHist, MergeEntries, TermAt;
    NoProgress(|s.hist|);
    if AcceptsAppend(s, m) {
      MergedOk(s, m);
      ApplyCleanly(MergeEntries(Adopt(s, m.term), m));
    }
  }

  lemma AppendReplyEffect(s: Node, term: nat, peer: string, m: AppendEntriesArgs, replyTerm: nat, success: bool)
    requires NodeOk(s)
    requires s.role.Leader? && s.term == term ==> m.prevIndex + |m.entries| <= |s.hist|
    ensures var s' := HandleAppendReply(s, term, peer, m, replyTerm, success);
      && NodeStep(s, s') && s'.hist == s.hist && KeepsOrCompacts(s, s')
      && (if replyTerm > s.term then s'.role.Follower? && s'.term > s.term
          else s'.term == s.term && s'.role == s.role && s'.votedFor == s.votedFor)
  {
    hide AdvanceCommit, Clean, Indexed, ProgressWithin, TermAt;
    NoProgress(|s.hist|);
    if replyTerm <= s.term && s.role.Leader? && s.term == term {
      var top := m.prevIndex + |m.entries|;
      ReplyBounds(s, peer, top);
      if success {
        AdvanceEffect(s.(matched := s.matched[peer := top], next := s.next[peer := top + 1]));
      }
    }
  }

  lemma ReplyBounds(s: Node, peer: string, top: nat)
    requires s.role.Leader? && LeaderBounds(s)
    ensures top <= |s.hist| ==> ProgressWithin(Leader, s.next[peer := top + 1], s.matched[peer := top], |s.hist|)
    ensures Lookup(s.next, peer) > 1 ==> ProgressWithin(Leader, s.next[peer := s.next[peer] - 1], s.matched, |s.hist|)
  {
  }

  lemma AdvanceEffect(s: Node)
    requires NodeOk(s)
    ensures var s' := AdvanceCommit(s);
      && s'.(commit := s.commit, applied := s.applied, snap := s.snap, snapTerm := s.snapTerm) == s
      && NodeOk(s') && KeepsOrCompacts(s, s')
  {
    hide TopCommit, ApplyCommitted, Clean, Indexed, ProgressWithin, TermAt;
    ApplyCleanly(s.(commit := TopCommit(s, |s.hist|)));
  }

  lemma InstallEffect(s: Node, term: nat, lastTerm: nat, image: seq<Entry>)
    requires NodeOk(s) && Clean(image) && Indexed(image, 1)
    ensures var s' := HandleInstall(s, term, lastTerm, image);
      FollowsOrIgnores(s, s', term) && NodeStep(s, s')
  {
  }
}
