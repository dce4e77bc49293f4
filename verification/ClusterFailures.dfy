/**
 * Runs that break election safety, and with it log matching, in every cluster of three nodes or more: the
 * hypotheses of ElectionSafety.dfy and LogMatching.dfy cannot be dropped there, and need not be made in
 * smaller ones. All but two nodes vote for a candidate of term 1, follow its first message as leader, which
 * clears the vote within the term, and so vote again for the last node. Both leaders then take a command.
 */
module ClusterFailures {
  import opened Basics
  import opened GameFsm
  import opened RaftSpec
  import opened Cluster
  import opened ElectionSafety
  import opened ClusterRuns

  function Probe(a: string, b: string): Message {
    AppendRequest(b, AppendEntriesArgs(1, a, 0, 0, [], 0), true)
  }

  // ---- votes are cleared --------------------------------------------------------------------------

  /** The leader sends b a probe. */
  lemma Probes(d: Cluster, peers: Peers, a: string, b: string)
    requires Blank(d, peers) && Leads(d, a) && b in peers && a != b
    ensures Workable(d) && Enabled(d, SendProbe(a, b))
    ensures var d' := Next(d, SendProbe(a, b));
      Blank(d', peers) && Probe(a, b) in d'.net && d'.nodes == d.nodes && d'.promoted == d.promoted
  {
    hide Workable;
    BlankIsWorkable(d, peers);
  }

  /** b follows the leader, and forgets its vote. */
  lemma Obeys(d: Cluster, peers: Peers, a: string, b: string)
    requires Blank(d, peers) && b in peers && Probe(a, b) in d.net
    requires d.nodes[b].role.Follower? && d.nodes[b].term == 1
    ensures Workable(d) && Enabled(d, DeliverAppend(Probe(a, b)))
    ensures var d' := Next(d, DeliverAppend(Probe(a, b)));
      && Blank(d', peers) && d'.promoted == d.promoted && Willing(d', b)
      && forall y :: y in peers && y != b ==> d'.nodes[y] == d.nodes[y]
  {
    hide Workable, HandleAppend, AcceptsAppend, LeaderBounds;
    BlankIsWorkable(d, peers);
    EmptyObeys(d.nodes[b], a);
    FollowerBounds(d.nodes[b]);
  }

  /** An empty-handed follower takes a probe of its term in, and forgets its vote. */
  lemma EmptyObeys(s: Node, a: string)
    requires s.hist == [] && s.snap == [] && s.applied == [] && s.commit == 0 && s.snapTerm == 0
    requires s.role.Follower? && s.term == 1
    ensures HandleAppend(s, AppendEntriesArgs(1, a, 0, 0, [], 0)) == s.(votedFor := "")
  {
  }

  lemma FollowerBounds(s: Node)
    requires LeaderBounds(s)
    ensures LeaderBounds(s.(votedFor := ""))
  {
  }

  /** The leader's probes reach all of `some`. */
  lemma {:induction false} Subdues(c: Cluster, d: Cluster, peers: Peers, a: string, some: set<string>)
    returns (d': Cluster)
    requires Reaches(c, d) && Blank(d, peers) && Leads(d, a) && a !in some && some <= peers.Keys
    requires forall b :: b in some ==> b in d.nodes && d.nodes[b].role.Follower? && d.nodes[b].term == 1
    ensures Reaches(c, d') && Blank(d', peers) && d'.promoted == d.promoted
    ensures forall b :: b in some ==> Willing(d', b)
    ensures d'.nodes.Keys == d.nodes.Keys && forall y :: y in d.nodes && y !in some ==> d'.nodes[y] == d.nodes[y]
    decreases |some|
  {
    hide Reaches, Empty, Next, Workable, Enabled, Probe;
    d' := d;
    if some != {} {
      var b :| b in some;
      BlankNodes(d, peers);
      Probes(d, peers, a, b);
      var d1 := GoOn(c, d, SendProbe(a, b));
      Obeys(d1, peers, a, b);
      var d2 := GoOn(c, d1, DeliverAppend(Probe(a, b)));
      BlankNodes(d2, peers);
      d' := Subdues(c, d2, peers, a, some - {b});
    }
  }

  /** From any fresh cluster of three or more, two nodes can become, and remain, leaders of the same term. */
  lemma TwoLeadersInOneTerm(c: Cluster, peers: Peers, a: string, x: string) returns (d: Cluster)
    requires Initial(c, peers) && |peers| >= 3 && a in peers && x in peers && a != x
    ensures Reaches(c, d) && (1, a) in d.promoted && (1, x) in d.promoted
    ensures Blank(d, peers) && Leads(d, a) && Leads(d, x)
  {
    hide Reaches, Blank, Next, Initial;
    var others := peers.Keys - {a, x};
    assert |peers.Keys| == |peers| && |others| == |peers| - 2;
    ReachesItself(c);
    StartsBlank(c, peers);
    BlankNodes(c, peers);
    d := Elects(c, c, peers, a, others);
    d := Subdues(c, d, peers, a, others);
    d := Elects(c, d, peers, x, others);
  }

  // ---- what the size of the cluster has to do with it -----------------------------------------------

  /** A candidate has followed nobody in its term. */
  ghost predicate Unled(c: Cluster) {
    forall i :: i in c.nodes && c.nodes[i].role.Candidate? ==> (c.nodes[i].term, i) !in c.followed
  }

  lemma StaysUnled(c: Cluster, c': Cluster, i: string, s': Node)
    requires Unled(c) && PastOnly(c) && i in c.nodes && c'.nodes == c.nodes[i := s']
    requires c'.followed == c.followed || (c'.followed == c.followed + {(s'.term, i)} && s'.role.Follower?)
    requires s'.role.Candidate? ==>
      (c.nodes[i].role.Candidate? && s'.term == c.nodes[i].term) || s'.term > c.nodes[i].term
    ensures Unled(c')
  {
  }

  lemma StepStaysUnled(c: Cluster, peers: Peers, e: Event)
    requires Inv(c, peers) && Workable(c) && Enabled(c, e) && FixedPeers(e) && Unled(c)
    ensures Unled(Next(c, e))
  {
    hide NodeOk, ArgsOk, Elected, RolesOk, VotesRemembered, RevotersFollowed, NodesOk, NetOk, CountedOk, Workable,
         Unled, PastOnly, HandleAppend, HandleInstall, HandleAppendReply, HandleRequestVote, GrantsVote, TaskFor,
         Promote, NodeStep, KeepsOrCompacts, CountedFor, AcceptsAppend, MergedHist;
    var c' := Next(c, e);
    match e {
      case Timeout(i) => NodeFacts(c, peers, i); StaysUnled(c, c', i, c'.nodes[i]);
      case DeliverVoteRequest(m) =>
        NodeFacts(c, peers, m.to);
        VoteStep(c.nodes[m.to], m.vote);
        StaysUnled(c, c', m.to, c'.nodes[m.to]);
      case DeliverVoteReply(m) => StaysUnled(c, c', m.candidate, c'.nodes[m.candidate]);
      case BecomeLeader(i) =>
        NodeFacts(c, peers, i);
        PromoteStep(c.nodes[i]);
        StaysUnled(c, c', i, c'.nodes[i]);
      case ClientProposes(i, _) => StaysUnled(c, c', i, c'.nodes[i]);
      case DeliverAppend(m) =>
        NodeFacts(c, peers, m.to);
        MessageFacts(c, m);
        AppendEffect(c.nodes[m.to], m.args);
        StaysUnled(c, c', m.to, c'.nodes[m.to]);
      case DeliverAppendReply(m) =>
        NodeFacts(c, peers, m.args.leader);
        MessageFacts(c, m);
        AppendReplyEffect(c.nodes[m.args.leader], m.args.term, m.follower, m.args, m.replyTerm, m.success);
        StaysUnled(c, c', m.args.leader, c'.nodes[m.args.leader]);
      case DeliverProbeReply(m) => StaysUnled(c, c', m.leader, c'.nodes[m.leader]);
      case DeliverSnapshot(m) =>
        NodeFacts(c, peers, m.to);
        MessageFacts(c, m);
        InstallEffect(c.nodes[m.to], m.term, m.lastTerm, m.image);
        StaysUnled(c, c', m.to, c'.nodes[m.to]);
      case _ => SendsStayUnled(c, e);
    }
  }

  lemma SendsStayUnled(c: Cluster, e: Event)
    requires Workable(c) && Enabled(c, e) && Unled(c) && (e.SendTask? || e.OfferSnapshot? || e.SendProbe?)
    ensures Unled(Next(c, e))
  {
    hide TaskFor;
  }

  /** Of two nodes, the one that voted for the other cannot be a candidate of that term any more. */
  lemma NoSecondOfTwo(c: Cluster, peers: Peers, i: string, j: string)
    requires Inv(c, peers) && Unled(c) && |peers| <= 2 && i in c.nodes && c.nodes[i].role.Candidate?
    requires (c.nodes[i].term, j) in c.promoted
    ensures j == i
  {
    var t := c.nodes[i].term;
    var q :| Elected(c, t, j, q);
    assert |c.nodes.Keys| == |peers.Keys| == |peers|;
    if i !in q {
      SubsetSize(q + {i}, c.nodes.Keys);
    }
    assert (t, i, i) in c.votes && (t, i, j) in c.votes;
  }

  lemma SmallStaysSafe(c: Cluster, peers: Peers, e: Event)
    requires Inv(c, peers) && Workable(c) && Enabled(c, e) && Unled(c) && |peers| <= 2 && OneLeaderPerTerm(c)
    ensures OneLeaderPerTerm(Next(c, e))
  {
    hide HandleAppend, HandleInstall, HandleAppendReply, TaskFor, Promote, Propose, CountedFor, AcceptsAppend,
         GrantsVote, Inv, Workable;
    if e.BecomeLeader? {
      var t := c.nodes[e.i].term;
      PromoteKeepsTerm(c.nodes[e.i]);
      forall j | (t, j) in c.promoted ensures j == e.i {
        NoSecondOfTwo(c, peers, e.i, j);
      }
    }
  }

  lemma PromoteKeepsTerm(s: Node)
    ensures Promote(s, s.term).term == s.term
  {
  }

  lemma {:induction false} SmallRunsAreSafe(c: Cluster, peers: Peers, es: seq<Event>)
    requires Initial(c, peers) && Possible(c, es) && PeersFixed(es) && |peers| <= 2
    ensures OneLeaderPerTerm(After(c, es)) && Unled(After(c, es))
    decreases |es|
  {
    hide Inv, Workable, Enabled, Next, FixedPeers, Unled, OneLeaderPerTerm;
    if |es| == 0 {
      NobodyLed(c, peers);
    } else {
      hide Initial;
      var before, last := es[..|es| - 1], es[|es| - 1];
      SmallRunsAreSafe(c, peers, before);
      RunKeepsInv(c, peers, before);
      StepStaysUnled(After(c, before), peers, last);
      SmallStaysSafe(After(c, before), peers, last);
    }
  }

  lemma NobodyLed(c: Cluster, peers: Peers)
    requires Initial(c, peers)
    ensures Unled(c) && OneLeaderPerTerm(c)
  {
  }

  /** Whatever is delivered when, no term of any run has two leaders. */
  ghost predicate AlwaysSafe(c: Cluster) {
    forall es | Possible(c, es) && PeersFixed(es) :: OneLeaderPerTerm(After(c, es))
  }

  /** Without any hypothesis on votes, election safety holds in all runs exactly of clusters of at most two nodes. */
  lemma AlwaysSafeIff(c: Cluster, peers: Peers)
    requires Initial(c, peers)
    ensures AlwaysSafe(c) <==> |peers| <= 2
  {
    hide Initial, Possible, PeersFixed, After;
    if |peers| <= 2 {
      forall es | Possible(c, es) && PeersFixed(es) ensures OneLeaderPerTerm(After(c, es)) {
        SmallRunsAreSafe(c, peers, es);
      }
    } else {
      var a, x := TwoOf(peers.Keys);
      var d := TwoLeadersInOneTerm(c, peers, a, x);
      var es :| Possible(c, es) && PeersFixed(es) && After(c, es) == d;
      assert !OneLeaderPerTerm(d);
    }
  }

  lemma TwoOf(s: set<string>) returns (a: string, b: string)
    requires |s| >= 2
    ensures a in s && b in s && a != b
  {
    a :| a in s;
    assert |s - {a}| == |s| - 1;
    b :| b in s - {a};
  }

  // ---- logs ---------------------------------------------------------------------------------------

  /** A leader with nothing in its log appends a client's command. */
  lemma Appends(d: Cluster, i: string, command: Command)
    requires Workable(d) && Leads(d, i) && d.nodes[i].hist == []
    ensures Enabled(d, ClientProposes(i, command))
    ensures Next(d, ClientProposes(i, command)).nodes
      == d.nodes[i := d.nodes[i].(hist := [Entry(1, 1, command)])]
  {
    hide Workable;
    assert [] + [Entry(1, 1, command)] == [Entry(1, 1, command)];
    assert Propose(d.nodes[i], command) == d.nodes[i].(hist := [Entry(1, 1, command)]);
  }

  /** The two leaders take a command each: one index and term, two entries. */
  lemma LogsDiverge(c: Cluster, peers: Peers, a: string, x: string) returns (d: Cluster)
    requires Initial(c, peers) && |peers| >= 3 && a in peers && x in peers && a != x
    ensures Reaches(c, d) && a in d.nodes && x in d.nodes && !LogsMatch(d.nodes[a].hist, d.nodes[x].hist)
  {
    hide Reaches, Next, Workable, Enabled, Initial, LeaderBounds;
    d := TwoLeadersInOneTerm(c, peers, a, x);
    BlankIsWorkable(d, peers);
    Appends(d, a, StartMatch([]));
    AppendingStaysWorkable(d, a, StartMatch([]));
    d := GoOn(c, d, ClientProposes(a, StartMatch([])));
    Appends(d, x, ApplyTurn([]));
    d := GoOn(c, d, ClientProposes(x, ApplyTurn([])));
    Differ(d.nodes[a].hist, d.nodes[x].hist);
  }

  lemma AppendingStaysWorkable(d: Cluster, i: string, command: Command)
    requires Workable(d) && Leads(d, i) && d.nodes[i].hist == [] && Enabled(d, ClientProposes(i, command))
    ensures Workable(Next(d, ClientProposes(i, command)))
  {
  }

  lemma Differ(g: seq<Entry>, h: seq<Entry>)
    requires |g| == |h| == 1 && g[0].term == h[0].term && g[0] != h[0]
    ensures !LogsMatch(g, h)
  {
    assert g[..0 + 1][0] != h[..0 + 1][0];
  }
}
