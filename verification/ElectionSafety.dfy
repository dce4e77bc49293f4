/**
 * Election safety (section 5.2 of the Raft paper) over all message orders, with fixed peers and no
 * restart. Two nodes are promoted in one term only if some node voted for both, having followed a leader
 * of that term, which cleared its vote; so a term has at most one leader in every run in which no node
 * that has followed gives a second candidate its vote.
 */
module ElectionSafety {
  import opened Basics
  import opened GameFsm
  import opened RaftSpec
  import opened Cluster

  // ---- the invariant ----------------------------------------------------------------------------

  ghost predicate NodesOk(c: Cluster, peers: Peers) {
    && c.nodes.Keys == peers.Keys && "" !in peers
    && forall i :: i in c.nodes ==>
         NodeOk(c.nodes[i]) && c.nodes[i].id == i && c.nodes[i].peers == peers && c.nodes[i].joint == NoJoint
  }

  /** A message a leader sent: its entries lie within the log that leader has while it still leads that term. */
  ghost predicate SentBy(nodes: map<string, Node>, m: AppendEntriesArgs) {
    && ArgsOk(m)
    && m.leader in nodes
    && var s := nodes[m.leader];
    && m.term <= s.term
    && (s.role.Candidate? ==> m.term < s.term)
    && (s.role.Leader? && m.term == s.term ==> m.prevIndex + |m.entries| <= |s.hist|)
  }

  ghost predicate MessageOk(nodes: map<string, Node>, votes: set<(nat, string, string)>, m: Message) {
    match m
    case VoteRequest(to, vote) => vote.candidate in nodes && to != vote.candidate
    case VoteReply(candidate, voter, asked, _, granted) =>
      voter != candidate && candidate in nodes && voter in nodes && (granted ==> (asked, voter, candidate) in votes)
    case AppendRequest(_, args, _) => SentBy(nodes, args)
    case AppendReply(_, args, _, _) => SentBy(nodes, args)
    case ProbeReply(_, _) => true
    case SnapshotRequest(_, _, _, image) => Clean(image) && Indexed(image, 1)
  }

  ghost predicate NetOk(c: Cluster) {
    forall m :: m in c.net ==> MessageOk(c.nodes, c.votes, m)
  }

  /** Nobody has voted, or followed anyone, in a term it has not reached. */
  ghost predicate PastOnly(c: Cluster) {
    && (forall t, v, x :: (t, v, x) in c.votes ==> v in c.nodes && x in c.nodes && t <= c.nodes[v].term)
    && (forall t, v :: (t, v) in c.followed ==> v in c.nodes && t <= c.nodes[v].term)
  }

  /** A vote of the current term is the one the node remembers, unless it has followed a leader since. */
  ghost predicate VotesRemembered(c: Cluster)
    requires PastOnly(c)
  {
    forall t, v, x :: (t, v, x) in c.votes && t == c.nodes[v].term ==> c.nodes[v].votedFor == x || (t, v) in c.followed
  }

  ghost predicate OneVotePerTerm(c: Cluster) {
    forall t, v, x, y :: (t, v, x) in c.votes && (t, v, y) in c.votes ==> x == y
  }

  /** Whoever voted for two candidates of a term has followed a leader of that term. */
  ghost predicate RevotersFollowed(c: Cluster) {
    forall t, v, x, y :: (t, v, x) in c.votes && (t, v, y) in c.votes ==> x == y || (t, v) in c.followed
  }

  ghost predicate CountedOk(c: Cluster) {
    forall x, t, v :: (x, t, v) in c.counted ==> v != x && (t, v, x) in c.votes
  }

  ghost predicate Elected(c: Cluster, t: nat, i: string, q: set<string>) {
    q <= c.nodes.Keys && 2 * |q| > |c.nodes.Keys| && forall v :: v in q ==> (t, v, i) in c.votes
  }

  ghost predicate RolesOk(c: Cluster) {
    && (forall i :: i in c.nodes && c.nodes[i].role.Leader? ==> (c.nodes[i].term, i) in c.promoted)
    && (forall i :: i in c.nodes && c.nodes[i].role.Candidate? ==>
          (c.nodes[i].term, i) !in c.promoted && (c.nodes[i].term, i, i) in c.votes)
    && (forall t, i :: (t, i) in c.promoted ==> i in c.nodes && t <= c.nodes[i].term && exists q :: Elected(c, t, i, q))
  }

  ghost predicate Inv(c: Cluster, peers: Peers) {
    && NodesOk(c, peers) && NetOk(c)
    && PastOnly(c) && VotesRemembered(c) && RevotersFollowed(c) && CountedOk(c) && RolesOk(c)
  }

  lemma InvIsWorkable(c: Cluster, peers: Peers)
    requires NodesOk(c, peers)
    ensures Workable(c)
  {
  }

  /** Two promotions in a term are owed to a node that voted for both. */
  lemma SharedVoter(c: Cluster, t: nat, i: string, j: string) returns (v: string)
    requires RolesOk(c) && (t, i) in c.promoted && (t, j) in c.promoted
    ensures (t, v, i) in c.votes && (t, v, j) in c.votes
  {
    var p :| Elected(c, t, i, p);
    var q :| Elected(c, t, j, q);
    v := QuorumsMeet(p, q, c.nodes.Keys);
  }

  // ---- one node changes -------------------------------------------------------------------------

  /** Whatever a handler does to one node, messages already sent stay within bounds. */
  lemma OneNodeChanges(c: Cluster, peers: Peers, i: string, s': Node, votes: set<(nat, string, string)>)
    requires NodesOk(c, peers) && NetOk(c) && i in c.nodes && NodeStep(c.nodes[i], s') && c.votes <= votes
    ensures NodesOk(c.(nodes := c.nodes[i := s']), peers)
    ensures forall m :: m in c.net ==> MessageOk(c.nodes[i := s'], votes, m)
  {
    hide NodeOk, ArgsOk;
    forall m | m in c.net ensures MessageOk(c.nodes[i := s'], votes, m) {
      assert MessageOk(c.nodes, c.votes, m);
    }
  }

  /** A step in which node i casts no vote: its remembered vote stays, or it entered a new term, or it now follows. */
  lemma NoVoteCast(c: Cluster, i: string, s': Node, followed: set<(nat, string)>)
    requires PastOnly(c) && VotesRemembered(c) && RevotersFollowed(c) && i in c.nodes && c.nodes[i].term <= s'.term
    requires c.followed <= followed <= c.followed + {(s'.term, i)}
    requires s'.term == c.nodes[i].term ==> s'.votedFor == c.nodes[i].votedFor || (s'.term, i) in followed
    ensures PastOnly(c.(nodes := c.nodes[i := s'], followed := followed))
    ensures VotesRemembered(c.(nodes := c.nodes[i := s'], followed := followed))
    ensures RevotersFollowed(c.(nodes := c.nodes[i := s'], followed := followed))
  {
  }

  /** A step in which node i votes for x: in a new term, or with no vote for another in memory. */
  lemma VoteCast(c: Cluster, i: string, s': Node, x: string)
    requires PastOnly(c) && VotesRemembered(c) && RevotersFollowed(c) && i in c.nodes && x in c.nodes && "" !in c.nodes
    requires c.nodes[i].term <= s'.term && s'.votedFor == x
    requires s'.term == c.nodes[i].term ==> c.nodes[i].votedFor == "" || c.nodes[i].votedFor == x
    ensures var c' := c.(nodes := c.nodes[i := s'], votes := c.votes + {(s'.term, i, x)});
      PastOnly(c') && VotesRemembered(c') && RevotersFollowed(c')
  {
    forall y | (s'.term, i, y) in c.votes ensures y == x || (s'.term, i) in c.followed {
      assert s'.term <= c.nodes[i].term;
      assert c.nodes[i].votedFor == y || (s'.term, i) in c.followed;
    }
  }

  /** Votes only accumulate, so a promotion stays justified; roles follow the node's own step. */
  lemma RolesCarryOver(c: Cluster, c': Cluster, i: string, s': Node)
    requires RolesOk(c) && i in c.nodes && c'.nodes == c.nodes[i := s'] && c'.promoted == c.promoted
    requires c.votes <= c'.votes && c.nodes[i].term <= s'.term
    requires s'.role.Candidate? ==>
      && ((s'.term == c.nodes[i].term && c.nodes[i].role.Candidate?) || s'.term > c.nodes[i].term)
      && (s'.term, i, i) in c'.votes
    requires s'.role.Leader? ==> s'.term == c.nodes[i].term && c.nodes[i].role.Leader?
    ensures RolesOk(c')
  {
    assert c'.nodes.Keys == c.nodes.Keys;
    forall t, j | (t, j) in c'.promoted ensures exists q :: Elected(c', t, j, q) {
      var q :| Elected(c, t, j, q);
      assert Elected(c', t, j, q);
    }
  }

  lemma NodeFacts(c: Cluster, peers: Peers, i: string)
    requires NodesOk(c, peers) && i in c.nodes
    ensures NodeOk(c.nodes[i]) && c.nodes[i].id == i && c.nodes[i].peers == peers && c.nodes[i].joint == NoJoint
    ensures "" !in c.nodes && c.nodes.Keys == peers.Keys && Shape(c.nodes[i])
  {
  }

  lemma MessageFacts(c: Cluster, m: Message)
    requires NetOk(c) && m in c.net
    ensures MessageOk(c.nodes, c.votes, m)
  {
  }

  /** The event delivered to node i made it s', cast no vote and promoted nobody. */
  ghost predicate Quiet(c: Cluster, c': Cluster, i: string, s': Node) {
    && i in c.nodes && NodeStep(c.nodes[i], s')
    && c'.nodes == c.nodes[i := s'] && c'.votes == c.votes && c'.promoted == c.promoted
    && c.followed <= c'.followed <= c.followed + {(s'.term, i)}
    && (s'.term == c.nodes[i].term ==> s'.votedFor == c.nodes[i].votedFor || (s'.term, i) in c'.followed)
    && (s'.role.Leader? ==> c.nodes[i].role.Leader?)
    && (s'.role.Candidate? ==> c.nodes[i].role.Candidate? && s'.term == c.nodes[i].term)
  }

  lemma QuietKeeps(c: Cluster, c': Cluster, peers: Peers, i: string, s': Node)
    requires Inv(c, peers) && Quiet(c, c', i, s')
    requires CountedOk(c')
    requires forall m :: m in c'.net && m !in c.net ==> MessageOk(c'.nodes, c'.votes, m)
    ensures Inv(c', peers)
  {
    hide NodeOk, MessageOk, Elected, RolesOk, CountedOk, VotesRemembered;
    OneNodeChanges(c, peers, i, s', c.votes);
    NoVoteCast(c, i, s', c'.followed);
    var c1 := c.(nodes := c.nodes[i := s'], followed := c'.followed);
    SameVotes(c1, c');
    CandidateKeepsVote(c, i, s');
    RolesCarryOver(c, c', i, s');
  }

  lemma SameVotes(c: Cluster, c': Cluster)
    requires c.nodes == c'.nodes && c.votes == c'.votes && c.followed == c'.followed
    requires PastOnly(c) && VotesRemembered(c)
    ensures PastOnly(c') && VotesRemembered(c')
    ensures RevotersFollowed(c) ==> RevotersFollowed(c')
  {
  }

  // ---- each event keeps the invariant -------------------------------------------------------------

  lemma InitHolds(c: Cluster, peers: Peers)
    requires Initial(c, peers)
    ensures Inv(c, peers)
  {
  }

  lemma TimeoutKeeps(c: Cluster, peers: Peers, i: string)
    requires Inv(c, peers) && Workable(c) && Enabled(c, Timeout(i))
    ensures Inv(Next(c, Timeout(i)), peers)
  {
    hide NodeOk, LogUpToDate, ArgsOk, Elected, RolesOk, VotesRemembered, RevotersFollowed, Workable;
    var s' := StartElection(c.nodes[i]);
    var c' := Next(c, Timeout(i));
    NodeFacts(c, peers, i);
    ElectionStep(c.nodes[i]);
    OneNodeChanges(c, peers, i, s', c'.votes);
    VoteCast(c, i, s', i);
    SameVotes(c.(nodes := c'.nodes, votes := c'.votes), c');
    RolesCarryOver(c, c', i, s');
  }

  lemma ElectionStep(s: Node)
    requires NodeOk(s) && !s.role.Leader?
    ensures NodeStep(s, StartElection(s))
  {
    NoProgress(|s.hist|);
  }

  lemma VoteRequestKeeps(c: Cluster, peers: Peers, m: Message)
    requires Inv(c, peers) && Workable(c) && Enabled(c, DeliverVoteRequest(m))
    ensures Inv(Next(c, DeliverVoteRequest(m)), peers)
  {
    hide NodeOk, LogUpToDate, ArgsOk, Elected, RolesOk, VotesRemembered, RevotersFollowed, NodesOk, NetOk,
         CountedOk, Workable, GrantsVote, HandleRequestVote, NodeStep, PastOnly;
    var i := m.to;
    NodeFacts(c, peers, i);
    var s, s' := c.nodes[i], HandleRequestVote(c.nodes[i], m.vote);
    var c' := Next(c, DeliverVoteRequest(m));
    MessageFacts(c, m);
    VoteStep(s, m.vote);
    if GrantsVote(s, m.vote) {
      VoteGranted(c, c', peers, i, s', m.vote.candidate);
    } else {
      assert CountedOk(c') by {
        SameCounted(c, c');
      }
      QuietKeeps(c, c', peers, i, s');
    }
  }

  lemma SameCounted(c: Cluster, c': Cluster)
    requires CountedOk(c) && c'.counted == c.counted && c.votes <= c'.votes
    ensures CountedOk(c')
  {
  }

  lemma VoteGranted(c: Cluster, c': Cluster, peers: Peers, i: string, s': Node, x: string)
    requires Inv(c, peers) && i in c.nodes && x in c.nodes && x != i && NodeStep(c.nodes[i], s')
    requires s'.votedFor == x && !(s'.role.Leader? && !c.nodes[i].role.Leader?)
    requires s'.role.Candidate? ==> c.nodes[i].role.Candidate? && s'.term == c.nodes[i].term
    requires s'.term == c.nodes[i].term ==> c.nodes[i].votedFor == "" || c.nodes[i].votedFor == x
    requires exists reply: Message ::
               && c' == c.(nodes := c.nodes[i := s'], votes := c.votes + {(s'.term, i, x)}, net := c.net + {reply})
               && MessageOk(c'.nodes, c'.votes, reply)
    ensures Inv(c', peers)
  {
    hide NodeOk, MessageOk, Elected, RolesOk, CountedOk, VotesRemembered, RevotersFollowed;
    OneNodeChanges(c, peers, i, s', c'.votes);
    VoteCast(c, i, s', x);
    SameVotes(c.(nodes := c'.nodes, votes := c'.votes), c');
    SameCounted(c, c');
    CandidateKeepsVote(c, i, s');
    RolesCarryOver(c, c', i, s');
  }

  lemma VoteStep(s: Node, vote: RequestVoteArgs)
    requires NodeOk(s)
    ensures var s' := HandleRequestVote(s, vote);
      && NodeStep(s, s')
      && (s'.role.Leader? ==> s.role.Leader?)
      && (s'.role.Candidate? ==> s.role.Candidate? && s'.term == s.term)
      && (if GrantsVote(s, vote) then s'.term == vote.term && s'.votedFor == vote.candidate
            && (s'.term == s.term ==> s.votedFor == "" || s.votedFor == vote.candidate)
          else s'.term == s.term ==> s'.votedFor == s.votedFor)
  {
    NoProgress(|s.hist|);
  }

  /** A node still a candidate in the same term has voted for itself. */
  lemma CandidateKeepsVote(c: Cluster, i: string, s': Node)
    requires RolesOk(c) && i in c.nodes && NodeStep(c.nodes[i], s')
    ensures s'.role.Candidate? && s'.term == c.nodes[i].term ==> (s'.term, i, i) in c.votes
  {
  }

  lemma VoteReplyKeeps(c: Cluster, peers: Peers, m: Message)
    requires Inv(c, peers) && Workable(c) && Enabled(c, DeliverVoteReply(m))
    ensures Inv(Next(c, DeliverVoteReply(m)), peers)
  {
    hide NodeOk, ArgsOk, Elected, RolesOk, VotesRemembered, RevotersFollowed, PastOnly, NodesOk, NetOk, Workable;
    MessageFacts(c, m);
    TermNoticeKeeps(c, peers, m.candidate, m.replyTerm, Next(c, DeliverVoteReply(m)));
  }

  /** Learning of a higher term turns the node into a follower; anything else leaves it alone. */
  lemma TermNoticeKeeps(c: Cluster, peers: Peers, i: string, term: nat, c': Cluster)
    requires Inv(c, peers) && i in c.nodes
    requires c' == c.(nodes := c.nodes[i := CatchUpTerm(c.nodes[i], term)], counted := c'.counted)
    requires CountedOk(c')
    ensures Inv(c', peers)
  {
    hide ArgsOk, Elected, RolesOk, VotesRemembered, RevotersFollowed, PastOnly, NodesOk, NetOk, CountedOk, Clean,
         Indexed, ProgressWithin;
    var s' := CatchUpTerm(c.nodes[i], term);
    NodeFacts(c, peers, i);
    NoProgress(|s'.hist|);
    QuietKeeps(c, c', peers, i, s');
  }

  lemma BecomeLeaderKeeps(c: Cluster, peers: Peers, i: string)
    requires Inv(c, peers) && Workable(c) && Enabled(c, BecomeLeader(i))
    ensures Inv(Next(c, BecomeLeader(i)), peers)
  {
    hide NodeOk, Elected, Workable, CountedFor, Promote, NodeStep, NodesOk, NetOk, RolesOk, CountedOk, PastOnly;
    ElectionWon(c, peers, i);
    NodeFacts(c, peers, i);
    PromoteStep(c.nodes[i]);
    PromotionKeeps(c, Next(c, BecomeLeader(i)), peers, i, Promote(c.nodes[i], c.nodes[i].term));
  }

  lemma PromotionKeeps(c: Cluster, c': Cluster, peers: Peers, i: string, s': Node)
    requires Inv(c, peers) && i in c.nodes && NodeStep(c.nodes[i], s')
    requires s'.role.Leader? && s'.term == c.nodes[i].term && s'.votedFor == c.nodes[i].votedFor
    requires c' == c.(nodes := c.nodes[i := s'], promoted := c.promoted + {(s'.term, i)}, leaderLog := c'.leaderLog)
    requires exists q :: Elected(c, s'.term, i, q)
    ensures Inv(c', peers)
  {
    hide NodeOk, MessageOk, Elected, VotesRemembered, RevotersFollowed, CountedOk, RolesOk, NodeStep;
    OneNodeChanges(c, peers, i, s', c.votes);
    NoVoteCast(c, i, s', c.followed);
    SameVotes(c.(nodes := c'.nodes, followed := c'.followed), c');
    SameCounted(c, c');
    PromotedRoles(c, c', i, s');
  }

  lemma PromoteStep(s: Node)
    requires NodeOk(s) && s.role.Candidate?
    ensures var s' := Promote(s, s.term);
      NodeStep(s, s') && s'.role.Leader? && s'.term == s.term && s'.votedFor == s.votedFor && s'.hist == s.hist
  {
  }

  /** The votes a candidate counts, with its own, are a majority of the cluster. */
  lemma ElectionWon(c: Cluster, peers: Peers, i: string)
    requires Inv(c, peers) && Workable(c) && Enabled(c, BecomeLeader(i))
    ensures exists q :: Elected(c, c.nodes[i].term, i, q)
  {
    hide NodesOk, NetOk, VotesRemembered, RevotersFollowed, PastOnly, RolesOk, Workable;
    var s := c.nodes[i];
    NodeFacts(c, peers, i);
    CandidateVoted(c, i);
    MajorityOfVotes(c, i, s.term, |peers|);
  }

  lemma CandidateVoted(c: Cluster, i: string)
    requires RolesOk(c) && i in c.nodes && c.nodes[i].role.Candidate?
    ensures (c.nodes[i].term, i, i) in c.votes
  {
  }

  lemma MajorityOfVotes(c: Cluster, i: string, term: nat, n: nat)
    requires CountedOk(c) && i in c.nodes && (term, i, i) in c.votes && |c.nodes.Keys| == n
    requires 1 + |CountedFor(c, i, term)| >= n / 2 + 1
    ensures exists q :: Elected(c, term, i, q)
  {
    var q := CountedFor(c, i, term) + {i};
    assert i !in CountedFor(c, i, term);
    assert |q| == |CountedFor(c, i, term)| + 1;
    assert Elected(c, term, i, q);
  }

  lemma PromotedRoles(c: Cluster, c': Cluster, i: string, s': Node)
    requires RolesOk(c) && i in c.nodes && c'.nodes == c.nodes[i := s'] && c'.votes == c.votes
    requires c'.promoted == c.promoted + {(s'.term, i)} && s'.role.Leader? && s'.term == c.nodes[i].term
    requires exists q :: Elected(c, s'.term, i, q)
    ensures RolesOk(c')
  {
    hide Elected;
    assert c'.nodes.Keys == c.nodes.Keys;
    forall t, j | (t, j) in c'.promoted ensures exists q :: Elected(c', t, j, q) {
      var r :| Elected(c, t, j, r);
      ElectedCarriesOver(c, c', t, j, r);
    }
  }

  lemma ElectedCarriesOver(c: Cluster, c': Cluster, t: nat, i: string, q: set<string>)
    requires Elected(c, t, i, q) && c'.nodes.Keys == c.nodes.Keys && c'.votes == c.votes
    ensures Elected(c', t, i, q)
  {
  }

  lemma ProposeKeeps(c: Cluster, peers: Peers, i: string, command: Command)
    requires Inv(c, peers) && Workable(c) && Enabled(c, ClientProposes(i, command)) && !IsMembership(command)
    ensures Inv(Next(c, ClientProposes(i, command)), peers)
  {
    hide NodeOk, ArgsOk, Elected, RolesOk, VotesRemembered, RevotersFollowed, PastOnly, NodesOk, NetOk, CountedOk,
         Workable;
    var c' := Next(c, ClientProposes(i, command));
    NodeFacts(c, peers, i);
    ProposeStep(c.nodes[i], command);
    SameCounted(c, c');
    QuietKeeps(c, c', peers, i, Propose(c.nodes[i], command));
  }

  lemma ProposeStep(s: Node, command: Command)
    requires NodeOk(s) && s.role.Leader? && !IsMembership(command)
    ensures NodeStep(s, Propose(s, command))
  {
  }

  lemma SendKeeps(c: Cluster, peers: Peers, e: Event)
    requires Inv(c, peers) && Workable(c) && Enabled(c, e) && (e.SendTask? || e.OfferSnapshot? || e.SendProbe?)
    ensures Inv(Next(c, e), peers)
  {
    hide NodeOk, ArgsOk, Elected, RolesOk, VotesRemembered, RevotersFollowed, NodesOk, CountedOk, TaskFor;
    var s := c.nodes[e.i];
    var c' := Next(c, e);
    NodeFacts(c, peers, e.i);
    forall m | m in c'.net ensures MessageOk(c'.nodes, c'.votes, m) {
      if m in c.net {
        MessageFacts(c, m);
      } else if !e.SendProbe? {
        TaskOk(s, e.peer);
      } else {
        ProbeOk(s, m.args);
      }
    }
    SameCounted(c, c');
    SameVotes(c, c');
    SameRoles(c, c');
    SameNodes(c, c', peers);
  }

  lemma SameRoles(c: Cluster, c': Cluster)
    requires RolesOk(c) && c.nodes == c'.nodes && c.votes == c'.votes && c.promoted == c'.promoted
    ensures RolesOk(c')
  {
    forall t, j | (t, j) in c'.promoted ensures exists q :: Elected(c', t, j, q) {
      var r :| Elected(c, t, j, r);
      assert Elected(c', t, j, r);
    }
  }

  lemma SameNodes(c: Cluster, c': Cluster, peers: Peers)
    requires NodesOk(c, peers) && c.nodes == c'.nodes
    ensures NodesOk(c', peers)
  {
  }

  lemma TaskOk(s: Node, peer: string)
    requires NodeOk(s)
    ensures TaskFor(s, peer).SendEntries? ==>
      var m := TaskFor(s, peer).args;
      ArgsOk(m) && m.leader == s.id && m.term == s.term && m.prevIndex + |m.entries| == |s.hist|
    ensures Clean(s.snap) && Indexed(s.snap, 1)
  {
  }

  lemma ProbeOk(s: Node, m: AppendEntriesArgs)
    requires m.entries == []
    ensures ArgsOk(m)
  {
  }

  lemma AppendKeeps(c: Cluster, peers: Peers, m: Message)
    requires Inv(c, peers) && Workable(c) && Enabled(c, DeliverAppend(m))
    ensures Inv(Next(c, DeliverAppend(m)), peers)
  {
    hide ArgsOk, Elected, HandleAppend, NodeOk, AcceptsAppend, KeepsOrCompacts, RolesOk, VotesRemembered,
         RevotersFollowed, PastOnly, NodesOk, NetOk, CountedOk, Workable;
    var i := m.to;
    var s' := HandleAppend(c.nodes[i], m.args);
    var c' := Next(c, DeliverAppend(m));
    NodeFacts(c, peers, i);
    MessageFacts(c, m);
    AppendEffect(c.nodes[i], m.args);
    SameCounted(c, c');
    SentStaysSent(c, i, s', m.args);
    QuietKeeps(c, c', peers, i, s');
  }

  lemma SentStaysSent(c: Cluster, i: string, s': Node, args: AppendEntriesArgs)
    requires i in c.nodes && NodeStep(c.nodes[i], s') && SentBy(c.nodes, args)
    ensures SentBy(c.nodes[i := s'], args)
  {
    hide ArgsOk, NodeOk;
  }

  lemma AppendReplyKeeps(c: Cluster, peers: Peers, m: Message)
    requires Inv(c, peers) && Workable(c) && Enabled(c, DeliverAppendReply(m))
    ensures Inv(Next(c, DeliverAppendReply(m)), peers)
  {
    hide ArgsOk, Elected, HandleAppendReply, NodeOk, KeepsOrCompacts, RolesOk, VotesRemembered, RevotersFollowed,
         PastOnly, NodesOk, NetOk, CountedOk, Workable;
    var i := m.args.leader;
    NodeFacts(c, peers, i);
    var s' := HandleAppendReply(c.nodes[i], m.args.term, m.follower, m.args, m.replyTerm, m.success);
    var c' := Next(c, DeliverAppendReply(m));
    MessageFacts(c, m);
    AppendReplyEffect(c.nodes[i], m.args.term, m.follower, m.args, m.replyTerm, m.success);
    SameCounted(c, c');
    QuietKeeps(c, c', peers, i, s');
  }

  lemma SnapshotKeeps(c: Cluster, peers: Peers, m: Message)
    requires Inv(c, peers) && Workable(c) && Enabled(c, DeliverSnapshot(m))
    ensures Inv(Next(c, DeliverSnapshot(m)), peers)
  {
    hide ArgsOk, Elected, HandleInstall, NodeOk, RolesOk, VotesRemembered, RevotersFollowed, PastOnly, NodesOk,
         NetOk, CountedOk, Workable;
    var i := m.to;
    var s' := HandleInstall(c.nodes[i], m.term, m.lastTerm, m.image);
    var c' := Next(c, DeliverSnapshot(m));
    NodeFacts(c, peers, i);
    MessageFacts(c, m);
    InstallEffect(c.nodes[i], m.term, m.lastTerm, m.image);
    SameCounted(c, c');
    QuietKeeps(c, c', peers, i, s');
  }

  /** Every event that changes no membership keeps the invariant. */
  lemma StepKeeps(c: Cluster, peers: Peers, e: Event)
    requires Inv(c, peers) && Workable(c) && Enabled(c, e) && FixedPeers(e)
    ensures Inv(Next(c, e), peers)
  {
    hide Inv, Workable, Enabled, Next;
    match e {
      case Timeout(i) => TimeoutKeeps(c, peers, i);
      case DeliverVoteRequest(m) => VoteRequestKeeps(c, peers, m);
      case DeliverVoteReply(m) => VoteReplyKeeps(c, peers, m);
      case BecomeLeader(i) => BecomeLeaderKeeps(c, peers, i);
      case ClientProposes(i, command) => ProposeKeeps(c, peers, i, command);
      case SendTask(_, _) => SendKeeps(c, peers, e);
      case OfferSnapshot(_, _) => SendKeeps(c, peers, e);
      case SendProbe(_, _) => SendKeeps(c, peers, e);
      case DeliverAppend(m) => AppendKeeps(c, peers, m);
      case DeliverAppendReply(m) => AppendReplyKeeps(c, peers, m);
      case DeliverProbeReply(m) => ProbeReplyKeeps(c, peers, m);
      case DeliverSnapshot(m) => SnapshotKeeps(c, peers, m);
    }
  }

  lemma ProbeReplyKeeps(c: Cluster, peers: Peers, m: Message)
    requires Inv(c, peers) && Workable(c) && Enabled(c, DeliverProbeReply(m))
    ensures Inv(Next(c, DeliverProbeReply(m)), peers)
  {
    hide NodeOk, ArgsOk, Elected;
    TermNoticeKeeps(c, peers, m.leader, m.replyTerm, Next(c, DeliverProbeReply(m)));
  }

  // ---- runs -------------------------------------------------------------------------------------

  /** No membership change anywhere in the run. */
  predicate PeersFixed(es: seq<Event>) {
    forall k :: 0 <= k < |es| ==> FixedPeers(es[k])
  }

  /** No vote given to a second candidate of a term after following, anywhere in the run. */
  ghost predicate Disciplined(c: Cluster, es: seq<Event>)
    requires Possible(c, es)
    decreases |es|
  {
    |es| == 0
    || (var before, last := es[..|es| - 1], es[|es| - 1];
        Disciplined(c, before) && KeepsVote(After(c, before), last))
  }

  lemma {:induction false} RunKeepsInv(c: Cluster, peers: Peers, es: seq<Event>)
    requires Initial(c, peers) && Possible(c, es) && PeersFixed(es)
    ensures Inv(After(c, es), peers)
    decreases |es|
  {
    hide Inv, Workable, Enabled, Next, FixedPeers, Initial;
    if |es| == 0 {
      InitHolds(c, peers);
    } else {
      RunKeepsInv(c, peers, es[..|es| - 1]);
      StepKeeps(After(c, es[..|es| - 1]), peers, es[|es| - 1]);
    }
  }

  /** The bounds that events rely on always hold: no event is ever ruled out for want of them. */
  lemma RunStaysWorkable(c: Cluster, peers: Peers, es: seq<Event>, e: Event)
    requires Initial(c, peers) && Possible(c, es) && PeersFixed(es)
    ensures Workable(After(c, es))
    ensures Enabled(After(c, es), e) ==> Possible(c, es + [e])
  {
    hide Initial, Workable, After, Enabled;
    RunKeepsInv(c, peers, es);
    InvIsWorkable(After(c, es), peers);
    assert (es + [e])[..|es|] == es;
  }

  /**
   * However messages are delivered, a second leader of a term is owed to a node that voted for both, and
   * that had its vote cleared by following one of them.
   */
  lemma SecondLeaderNeedsRevote(c: Cluster, peers: Peers, es: seq<Event>, t: nat, i: string, j: string)
    returns (v: string)
    requires Initial(c, peers) && Possible(c, es) && PeersFixed(es)
    requires (t, i) in After(c, es).promoted && (t, j) in After(c, es).promoted && i != j
    ensures var d := After(c, es);
      v in d.nodes && (t, v, i) in d.votes && (t, v, j) in d.votes && (t, v) in d.followed
  {
    hide Initial, Possible, After, RolesOk, VotesRemembered;
    RunKeepsInv(c, peers, es);
    v := SharedVoter(After(c, es), t, i, j);
  }

  // ---- when each node votes once ------------------------------------------------------------------

  lemma StepKeepsVotes(c: Cluster, peers: Peers, e: Event)
    requires Inv(c, peers) && Workable(c) && Enabled(c, e)
    ensures c.votes <= Next(c, e).votes
    ensures KeepsVote(c, e) && OneVotePerTerm(c) ==> OneVotePerTerm(Next(c, e))
    ensures OneVotePerTerm(Next(c, e)) ==> KeepsVote(c, e) && OneVotePerTerm(c)
  {
    hide Next, Enabled, Workable, Inv, KeepsVote;
    match e {
      case DeliverVoteRequest(m) => GrantKeepsVotes(c, peers, m);
      case Timeout(i) => StandingKeepsVotes(c, peers, i);
      case _ => CastsNoVote(c, e);
    }
  }

  lemma CastsNoVote(c: Cluster, e: Event)
    requires Workable(c) && Enabled(c, e) && !e.DeliverVoteRequest? && !e.Timeout?
    ensures Next(c, e).votes == c.votes && KeepsVote(c, e)
  {
    hide HandleAppend, HandleInstall, HandleAppendReply, TaskFor, Promote, Propose, CountedFor, AcceptsAppend;
  }

  lemma StandingKeepsVotes(c: Cluster, peers: Peers, i: string)
    requires Inv(c, peers) && Workable(c) && Enabled(c, Timeout(i))
    ensures c.votes <= Next(c, Timeout(i)).votes && KeepsVote(c, Timeout(i))
    ensures OneVotePerTerm(c) ==> OneVotePerTerm(Next(c, Timeout(i)))
  {
    hide NodeOk, RolesOk, CountedOk, NetOk, Workable;
    var t := c.nodes[i].term + 1;
    assert forall x :: (t, i, x) !in c.votes;
  }

  lemma GrantKeepsVotes(c: Cluster, peers: Peers, m: Message)
    requires Inv(c, peers) && Workable(c) && Enabled(c, DeliverVoteRequest(m))
    ensures c.votes <= Next(c, DeliverVoteRequest(m)).votes
    ensures KeepsVote(c, DeliverVoteRequest(m)) && OneVotePerTerm(c) ==> OneVotePerTerm(Next(c, DeliverVoteRequest(m)))
    ensures OneVotePerTerm(Next(c, DeliverVoteRequest(m))) ==> KeepsVote(c, DeliverVoteRequest(m))
  {
    hide NodeOk, RolesOk, CountedOk, Workable, LogUpToDate, NodesOk;
    NodeFacts(c, peers, m.to);
    VoteStep(c.nodes[m.to], m.vote);
    if GrantsVote(c.nodes[m.to], m.vote) {
      var t, v, x := m.vote.term, m.to, m.vote.candidate;
      assert Next(c, DeliverVoteRequest(m)).votes == c.votes + {(t, v, x)};
      forall y | (t, v, y) in c.votes ensures y == x || (t, v) in c.followed {
        assert t <= c.nodes[v].term;
      }
    }
  }

  /** Every node votes at most once in a term exactly when none gives a second candidate its vote after following. */
  lemma {:induction false} OneVotePerTermIff(c: Cluster, peers: Peers, es: seq<Event>)
    requires Initial(c, peers) && Possible(c, es) && PeersFixed(es)
    ensures OneVotePerTerm(After(c, es)) <==> Disciplined(c, es)
    decreases |es|
  {
    hide Inv, Workable, Enabled, Next, FixedPeers, Initial, KeepsVote;
    if |es| == 0 {
      NoVotesYet(c, peers);
    } else {
      var before := es[..|es| - 1];
      OneVotePerTermIff(c, peers, before);
      RunKeepsInv(c, peers, before);
      StepKeepsVotes(After(c, before), peers, es[|es| - 1]);
    }
  }

  lemma NoVotesYet(c: Cluster, peers: Peers)
    requires Initial(c, peers)
    ensures OneVotePerTerm(c)
  {
  }

  // ---- election safety ----------------------------------------------------------------------------

  ghost predicate OneLeaderPerTerm(c: Cluster) {
    forall t, i, j :: (t, i) in c.promoted && (t, j) in c.promoted ==> i == j
  }

  /** Election safety: however messages are delivered, a term has at most one leader. */
  lemma ElectionSafetyHolds(c: Cluster, peers: Peers, es: seq<Event>)
    requires Initial(c, peers) && Possible(c, es) && PeersFixed(es) && Disciplined(c, es)
    ensures OneLeaderPerTerm(After(c, es))
  {
    hide Initial, Possible, Disciplined, After, RolesOk;
    RunKeepsInv(c, peers, es);
    OneVotePerTermIff(c, peers, es);
    var d := After(c, es);
    forall t, i, j | (t, i) in d.promoted && (t, j) in d.promoted ensures i == j {
      var v := SharedVoter(d, t, i, j);
    }
  }

  /** In particular two nodes never act as leaders of the same term at the same time. */
  lemma OneActingLeader(c: Cluster, peers: Peers, es: seq<Event>, i: string, j: string)
    requires Initial(c, peers) && Possible(c, es) && PeersFixed(es) && Disciplined(c, es)
    requires var d := After(c, es);
      && i in d.nodes && j in d.nodes && d.nodes[i].role.Leader? && d.nodes[j].role.Leader?
      && d.nodes[i].term == d.nodes[j].term
    ensures i == j
  {
    hide Initial, Possible, Disciplined, After, NodesOk, NetOk, PastOnly, VotesRemembered, RevotersFollowed,
         CountedOk, Elected;
    RunKeepsInv(c, peers, es);
    ElectionSafetyHolds(c, peers, es);
  }
}
