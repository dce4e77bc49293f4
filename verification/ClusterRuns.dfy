/** Building runs of a fresh cluster of any size: a node is elected with the votes of a set of others. */
module ClusterRuns {
  import opened Basics
  import opened GameFsm
  import opened RaftSpec
  import opened Cluster
  import opened ElectionSafety

  ghost predicate Reaches(c: Cluster, d: Cluster) {
    exists es :: Possible(c, es) && PeersFixed(es) && After(c, es) == d
  }

  lemma ReachesItself(c: Cluster)
    ensures Reaches(c, c)
  {
    assert Possible(c, []) && PeersFixed([]) && After(c, []) == c;
  }

  lemma GoOn(c: Cluster, d: Cluster, e: Event) returns (d': Cluster)
    requires Reaches(c, d) && Workable(d) && Enabled(d, e) && FixedPeers(e)
    ensures d' == Next(d, e) && Reaches(c, d')
  {
    hide Workable, Enabled, Next, Possible, After, FixedPeers;
    var es :| Possible(c, es) && PeersFixed(es) && After(c, es) == d;
    OneMore(c, es, e);
    assert PeersFixed(es + [e]);
    d' := Next(d, e);
  }

  /** A node whose log is empty. */
  predicate Empty(s: Node, id: string, peers: Peers) {
    && s.id == id && s.peers == peers && s.joint == NoJoint && LeaderBounds(s)
    && s.hist == [] && s.snap == [] && s.applied == [] && s.commit == 0 && s.snapTerm == 0
  }

  predicate Blank(c: Cluster, peers: Peers) {
    && c.nodes.Keys == peers.Keys && "" !in peers
    && forall i :: i in c.nodes ==> Empty(c.nodes[i], i, peers)
  }

  lemma BlankIsWorkable(c: Cluster, peers: Peers)
    requires Blank(c, peers)
    ensures Workable(c)
  {
  }

  lemma StartsBlank(c: Cluster, peers: Peers)
    requires Initial(c, peers)
    ensures Blank(c, peers)
    ensures forall i :: i in peers ==> Untried(c, i) && Willing(c, i)
  {
  }

  /** The node has not stood for election yet. */
  predicate Untried(c: Cluster, i: string) {
    i in c.nodes && c.nodes[i].role.Follower? && c.nodes[i].term == 0
  }

  /** The node would vote in term 1. */
  predicate Willing(c: Cluster, i: string) {
    i in c.nodes && c.nodes[i].role.Follower? && c.nodes[i].term <= 1 && c.nodes[i].votedFor == ""
  }

  predicate Candidacy(c: Cluster, x: string) {
    x in c.nodes && c.nodes[x].role.Candidate? && c.nodes[x].term == 1
  }

  predicate Leads(c: Cluster, x: string) {
    x in c.nodes && c.nodes[x].role.Leader? && c.nodes[x].term == 1
  }

  function Ask(x: string, b: string): Message {
    VoteRequest(b, RequestVoteArgs(1, x, 0, 0))
  }

  function Yes(x: string, b: string): Message {
    VoteReply(x, b, 1, 1, true)
  }

  /** What the steps below leave alone: promotions, leaders followed, messages and votes counted, other nodes. */
  predicate OnlyTouches(d: Cluster, d': Cluster, some: set<string>) {
    && d'.promoted == d.promoted && d'.followed == d.followed && d.net <= d'.net && d.counted <= d'.counted
    && d'.nodes.Keys == d.nodes.Keys && forall y :: y in d.nodes && y !in some ==> d'.nodes[y] == d.nodes[y]
  }

  // ---- an election ------------------------------------------------------------------------------

  /** x stands for election. */
  lemma Asks(d: Cluster, peers: Peers, x: string)
    requires Blank(d, peers) && Untried(d, x)
    ensures Workable(d) && Enabled(d, Timeout(x))
    ensures var d' := Next(d, Timeout(x));
      && Blank(d', peers) && Candidacy(d', x) && OnlyTouches(d, d', {x})
      && forall b :: b in peers && b != x ==> Ask(x, b) in d'.net
  {
    hide Empty, Ask, Workable, StartElection, LogUpToDate;
    BlankIsWorkable(d, peers);
    EmptyStands(d, peers, x);
    assert Timeout(x).i == x;
    forall b | b in peers && b != x ensures Ask(x, b) in Next(d, Timeout(x)).net {
      AskedInNet(d, peers, x, b);
    }
  }

  lemma EmptyStands(d: Cluster, peers: Peers, x: string)
    requires Blank(d, peers) && Untried(d, x)
    ensures var s' := StartElection(d.nodes[x]); Empty(s', x, peers) && s'.term == 1 && s'.role.Candidate?
  {
  }

  lemma AskedInNet(d: Cluster, peers: Peers, x: string, b: string)
    requires Blank(d, peers) && Untried(d, x) && b in peers && x != b
    requires Workable(d) && Enabled(d, Timeout(x))
    ensures Ask(x, b) in Next(d, Timeout(x)).net
  {
    hide Workable;
  }

  /** b grants its vote. */
  lemma Answers(d: Cluster, peers: Peers, x: string, b: string)
    requires Blank(d, peers) && Willing(d, b) && x != b && Ask(x, b) in d.net
    ensures Workable(d) && Enabled(d, DeliverVoteRequest(Ask(x, b)))
    ensures var d' := Next(d, DeliverVoteRequest(Ask(x, b)));
      && Blank(d', peers) && Yes(x, b) in d'.net && OnlyTouches(d, d', {b})
      && d'.nodes[b].role.Follower? && d'.nodes[b].term == 1
  {
    hide Empty, Workable, HandleRequestVote, GrantsVote;
    BlankIsWorkable(d, peers);
    EmptyVotes(d, peers, x, b);
  }

  lemma EmptyVotes(d: Cluster, peers: Peers, x: string, b: string)
    requires Blank(d, peers) && Willing(d, b)
    ensures var s, vote := d.nodes[b], RequestVoteArgs(1, x, 0, 0); var s' := HandleRequestVote(s, vote);
      && GrantsVote(s, vote) && Empty(s', b, peers) && s'.term == 1 && s'.role.Follower?
  {
  }

  /** x counts it. */
  lemma Counts(d: Cluster, peers: Peers, x: string, b: string)
    requires Blank(d, peers) && Yes(x, b) in d.net && Candidacy(d, x)
    ensures Workable(d) && Enabled(d, DeliverVoteReply(Yes(x, b)))
    ensures var d' := Next(d, DeliverVoteReply(Yes(x, b)));
      Blank(d', peers) && Candidacy(d', x) && (x, 1, b) in d'.counted && OnlyTouches(d, d', {})
  {
    hide Empty, Workable;
    BlankIsWorkable(d, peers);
  }

  /** Those of `some` vote for x, one after the other. */
  lemma {:induction false} Canvasses(c: Cluster, d: Cluster, peers: Peers, x: string, some: set<string>)
    returns (d': Cluster)
    requires Reaches(c, d) && Blank(d, peers) && Candidacy(d, x) && x !in some
    requires forall b :: b in some ==> Willing(d, b) && Ask(x, b) in d.net
    ensures Reaches(c, d') && Blank(d', peers) && Candidacy(d', x) && OnlyTouches(d, d', some)
    ensures forall b :: b in some ==>
      b in d'.nodes && (x, 1, b) in d'.counted && d'.nodes[b].role.Follower? && d'.nodes[b].term == 1
    decreases |some|
  {
    hide Reaches, Empty, Ask, Yes, Next, Workable, Enabled;
    d' := d;
    if some != {} {
      var b :| b in some;
      Answers(d, peers, x, b);
      var d1 := GoOn(c, d, DeliverVoteRequest(Ask(x, b)));
      Counts(d1, peers, x, b);
      var d2 := GoOn(c, d1, DeliverVoteReply(Yes(x, b)));
      d' := Canvasses(c, d2, peers, x, some - {b});
    }
  }

  /** With enough of them x leads. */
  lemma Wins(d: Cluster, peers: Peers, x: string, some: set<string>)
    requires Blank(d, peers) && Candidacy(d, x) && some <= peers.Keys && 2 * (|some| + 1) > |peers|
    requires forall b :: b in some ==> (x, 1, b) in d.counted
    ensures Workable(d) && Enabled(d, BecomeLeader(x))
    ensures var d' := Next(d, BecomeLeader(x));
      && Blank(d', peers) && d'.promoted == d.promoted + {(1, x)} && d'.followed == d.followed && Leads(d', x)
      && d'.nodes.Keys == d.nodes.Keys && forall y :: y in d.nodes && y != x ==> d'.nodes[y] == d.nodes[y]
  {
    hide Empty, Workable, Promote, CountedFor, ElectionMajority;
    BlankIsWorkable(d, peers);
    EmptyLeads(d, peers, x);
    CountedAll(d, x, some);
  }

  lemma EmptyLeads(d: Cluster, peers: Peers, x: string)
    requires Blank(d, peers) && Candidacy(d, x)
    ensures var s' := Promote(d.nodes[x], 1); Empty(s', x, peers) && s'.term == 1 && s'.role.Leader?
    ensures ElectionMajority(d.nodes[x]) == |peers| / 2 + 1
  {
  }

  lemma CountedAll(d: Cluster, x: string, some: set<string>)
    requires some <= d.nodes.Keys && forall b :: b in some ==> (x, 1, b) in d.counted
    ensures |CountedFor(d, x, 1)| >= |some|
  {
    SubsetSize(some, CountedFor(d, x, 1));
  }

  /** Term 1 is won with the votes of `some`. */
  lemma Elects(c: Cluster, d: Cluster, peers: Peers, x: string, some: set<string>) returns (d': Cluster)
    requires Reaches(c, d) && Blank(d, peers) && Untried(d, x) && x !in some && some <= peers.Keys
    requires 2 * (|some| + 1) > |peers| && forall b :: b in some ==> Willing(d, b)
    ensures Reaches(c, d') && Blank(d', peers) && Leads(d', x)
    ensures d'.promoted == d.promoted + {(1, x)} && d'.followed == d.followed
    ensures forall b :: b in some ==> b in d'.nodes && d'.nodes[b].role.Follower? && d'.nodes[b].term == 1
    ensures d'.nodes.Keys == d.nodes.Keys
    ensures forall y :: y in d.nodes && y != x && y !in some ==> d'.nodes[y] == d.nodes[y]
  {
    hide Reaches, Empty, Ask, Next, Workable, Enabled;
    BlankNodes(d, peers);
    Asks(d, peers, x);
    d' := GoOn(c, d, Timeout(x));
    d' := Canvasses(c, d', peers, x, some);
    Wins(d', peers, x, some);
    d' := GoOn(c, d', BecomeLeader(x));
  }

  lemma BlankNodes(c: Cluster, peers: Peers)
    requires Blank(c, peers)
    ensures c.nodes.Keys == peers.Keys
  {
  }
}
