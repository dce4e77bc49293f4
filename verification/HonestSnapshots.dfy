/**
 * Where snapshots come from: while no append cuts what its receiver has applied, every snapshot sent stands
 * for a part of its sender's log. Log matching then needs of snapshots only the check of section 7.
 */
module HonestSnapshots {
  import opened Basics
  import opened GameFsm
  import opened RaftSpec
  import NodeRuns
  import opened Cluster
  import opened ElectionSafety
  import opened LogMatching

  /** The append delivered cuts nothing its receiver has applied. */
  predicate Harmless(c: Cluster, e: Event)
    requires Workable(c) && Enabled(c, e)
  {
    e.DeliverAppend? ==>
      var s := c.nodes[e.m.to]; |s.applied| <= |s.hist| ==> NodeRuns.HarmlessAppend(s, e.m.args)
  }

  /** The tail kept behind a snapshot that is installed fits it. */
  predicate KeptTailFits(c: Cluster, e: Event)
    requires Workable(c) && Enabled(c, e)
  {
    e.DeliverSnapshot? && e.m.term >= c.nodes[e.m.to].term && |e.m.image| > |c.nodes[e.m.to].snap| ==>
      TailFits(c.nodes[e.m.to], e.m.image)
  }

  predicate AllConsistent(c: Cluster) {
    forall i :: i in c.nodes ==> Consistent(c.nodes[i])
  }

  /** The snapshot is a part of the log its sender led with. */
  predicate PartOfLog(logs: map<nat, seq<Entry>>, m: Message) {
    m.SnapshotRequest? ==> m.term in logs && m.image <= logs[m.term] && m.lastTerm == TermAt(m.image, |m.image|)
  }

  predicate SnapshotsTrue(c: Cluster) {
    forall m :: m in c.net ==> PartOfLog(c.leaderLog, m)
  }

  // ---- nodes --------------------------------------------------------------------------------------

  lemma ExtendedConsistent(s: Node, s': Node)
    requires Consistent(s) && s.hist <= s'.hist
    requires s'.applied == s.applied && s'.snap == s.snap && s'.snapTerm == s.snapTerm
    ensures Consistent(s')
  {
    assert |s.snap| > 0 ==> s'.hist[|s.snap| - 1] == s.hist[|s.snap| - 1];
  }

  lemma AdvanceConsistent(s: Node)
    requires Shape(s) && Consistent(s)
    ensures Consistent(AdvanceCommit(s))
  {
    hide ApplyLoop, Compact, TopCommit, TermAt, Indexed;
    NodeRuns.ApplyKeepsPrefix(s.(commit := TopCommit(s, |s.hist|)));
  }

  lemma ReplyConsistent(s: Node, m: AppendEntriesArgs, peer: string, replyTerm: nat, success: bool)
    requires Shape(s) && Consistent(s)
    ensures Consistent(HandleAppendReply(s, m.term, peer, m, replyTerm, success))
  {
    hide AdvanceCommit, TermAt, Indexed;
    var top := m.prevIndex + |m.entries|;
    AdvanceConsistent(s.(matched := s.matched[peer := top], next := s.next[peer := top + 1]));
  }

  lemma InstallConsistent(s: Node, term: nat, lastTerm: nat, image: seq<Entry>)
    requires Consistent(s) && lastTerm == TermAt(image, |image|)
    ensures Consistent(HandleInstall(s, term, lastTerm, image))
  {
  }

  lemma AppendConsistent(logs: map<nat, seq<Entry>>, s: Node, m: AppendEntriesArgs)
    requires Shape(s) && Consistent(s) && LogsOk(logs) && FromLeader(logs, m) && ArgsOk(m)
    requires NodeRuns.HarmlessAppend(s, m)
    ensures Consistent(HandleAppend(s, m))
  {
    hide HandleAppend, Consistent, LogsOk, FromLeader;
    StoredAsSent(logs, m);
    NodeRuns.AppendConsistentIff(s, m);
  }

  // ---- the cluster ----------------------------------------------------------------------------------

  lemma OneChanges(c: Cluster, c': Cluster, i: string)
    requires AllConsistent(c) && i in c.nodes && i in c'.nodes
    requires c'.nodes == c.nodes[i := c'.nodes[i]] && Consistent(c'.nodes[i])
    ensures AllConsistent(c')
  {
    hide Consistent;
  }

  lemma ConsistentAt(c: Cluster, peers: Peers, i: string)
    requires Inv(c, peers) && AllConsistent(c) && i in c.nodes
    ensures Consistent(c.nodes[i]) && Shape(c.nodes[i]) && NodeOk(c.nodes[i])
  {
    NodeFacts(c, peers, i);
  }

  /** The node that an election event, or the term of a reply, concerns. */
  function Concerned(e: Event): string {
    match e
    case Timeout(i) => i
    case BecomeLeader(i) => i
    case DeliverVoteRequest(m) => if m.VoteRequest? then m.to else ""
    case DeliverVoteReply(m) => if m.VoteReply? then m.candidate else ""
    case DeliverProbeReply(m) => if m.ProbeReply? then m.leader else ""
    case _ => ""
  }

  predicate Electoral(e: Event) {
    e.Timeout? || e.BecomeLeader? || e.DeliverVoteRequest? || e.DeliverVoteReply? || e.DeliverProbeReply?
  }

  /** Such events leave log, state machine and snapshot alone. */
  lemma ElectoralConsistent(c: Cluster, peers: Peers, e: Event)
    requires Inv(c, peers) && Workable(c) && Enabled(c, e) && AllConsistent(c) && Electoral(e)
    ensures AllConsistent(Next(c, e))
  {
    hide ElectionSafety.Inv, Workable, AllConsistent, Consistent, Shape, NodeOk, GrantsVote, CountedFor;
    var i := Concerned(e);
    ConsistentAt(c, peers, i);
    ExtendedConsistent(c.nodes[i], Next(c, e).nodes[i]);
    OneChanges(c, Next(c, e), i);
  }

  lemma ProposalConsistent(c: Cluster, peers: Peers, i: string, command: Command)
    requires Inv(c, peers) && Workable(c) && Enabled(c, ClientProposes(i, command)) && AllConsistent(c)
    ensures AllConsistent(Next(c, ClientProposes(i, command)))
  {
    hide ElectionSafety.Inv, Workable, AllConsistent, Consistent, Shape, NodeOk;
    ConsistentAt(c, peers, i);
    ExtendedConsistent(c.nodes[i], Propose(c.nodes[i], command));
    OneChanges(c, Next(c, ClientProposes(i, command)), i);
  }

  lemma DeliveryConsistent(c: Cluster, peers: Peers, m: Message)
    requires Inv(c, peers) && Workable(c) && Enabled(c, DeliverAppend(m)) && MatchInv(c) && AllConsistent(c)
    requires Harmless(c, DeliverAppend(m))
    ensures AllConsistent(Next(c, DeliverAppend(m)))
  {
    hide Workable, AllConsistent, Shape, NodeOk, HandleAppend, AcceptsAppend, NodesOk, RolesOk, LogsOk, FromLeader,
         ArgsOk, NodeRuns.HarmlessAppend;
    ConsistentAt(c, peers, m.to);
    MessageFacts(c, m);
    AppendConsistent(c.leaderLog, c.nodes[m.to], m.args);
    OneChanges(c, Next(c, DeliverAppend(m)), m.to);
  }

  lemma ReplyDeliveryConsistent(c: Cluster, peers: Peers, m: Message)
    requires Inv(c, peers) && Workable(c) && Enabled(c, DeliverAppendReply(m)) && AllConsistent(c)
    ensures AllConsistent(Next(c, DeliverAppendReply(m)))
  {
    hide ElectionSafety.Inv, Workable, AllConsistent, Consistent, Shape, NodeOk, HandleAppendReply;
    ConsistentAt(c, peers, m.args.leader);
    ReplyConsistent(c.nodes[m.args.leader], m.args, m.follower, m.replyTerm, m.success);
    OneChanges(c, Next(c, DeliverAppendReply(m)), m.args.leader);
  }

  lemma SnapshotConsistent(c: Cluster, peers: Peers, m: Message)
    requires Inv(c, peers) && Workable(c) && Enabled(c, DeliverSnapshot(m)) && AllConsistent(c) && SnapshotsTrue(c)
    ensures AllConsistent(Next(c, DeliverSnapshot(m)))
  {
    hide ElectionSafety.Inv, Workable, AllConsistent, Consistent, Shape, NodeOk, HandleInstall;
    ConsistentAt(c, peers, m.to);
    InstallConsistent(c.nodes[m.to], m.term, m.lastTerm, m.image);
    OneChanges(c, Next(c, DeliverSnapshot(m)), m.to);
  }

  lemma SendConsistent(c: Cluster, e: Event)
    requires Workable(c) && Enabled(c, e) && AllConsistent(c) && (e.SendTask? || e.OfferSnapshot? || e.SendProbe?)
    ensures AllConsistent(Next(c, e))
  {
    hide Workable, Consistent, TaskFor;
  }

  lemma StepConsistent(c: Cluster, peers: Peers, e: Event)
    requires Inv(c, peers) && Workable(c) && Enabled(c, e) && MatchInv(c) && AllConsistent(c) && SnapshotsTrue(c)
    requires Harmless(c, e)
    ensures AllConsistent(Next(c, e))
  {
    hide ElectionSafety.Inv, Workable, Enabled, Next, MatchInv, AllConsistent, SnapshotsTrue, Harmless;
    match e {
      case ClientProposes(i, command) => ProposalConsistent(c, peers, i, command);
      case DeliverAppend(m) => DeliveryConsistent(c, peers, m);
      case DeliverAppendReply(m) => ReplyDeliveryConsistent(c, peers, m);
      case DeliverSnapshot(m) => SnapshotConsistent(c, peers, m);
      case _ =>
        if Electoral(e) {
          ElectoralConsistent(c, peers, e);
        } else {
          SendConsistent(c, e);
        }
    }
  }

  // ---- snapshots sent -------------------------------------------------------------------------------

  lemma GrownStaysTrue(logs: map<nat, seq<Entry>>, logs': map<nat, seq<Entry>>, m: Message)
    requires Grows(logs, logs') && PartOfLog(logs, m)
    ensures PartOfLog(logs', m)
  {
  }

  /** A leader's own snapshot is a part of its log. */
  lemma OwnSnapshot(c: Cluster, peers: Peers, i: string, peer: string)
    requires Inv(c, peers) && MatchInv(c) && AllConsistent(c) && i in c.nodes && c.nodes[i].role.Leader?
    ensures var s := c.nodes[i]; PartOfLog(c.leaderLog, SnapshotRequest(peer, s.term, s.snapTerm, s.snap))
  {
    hide ElectionSafety.Inv, MatchInv, NodeOk, Shape, OnLeaderLogs;
    NodeMatches(c, peers, i);
    ConsistentAt(c, peers, i);
    SnapshotTerm(c.nodes[i]);
  }

  lemma SnapshotTerm(s: Node)
    requires Consistent(s)
    ensures s.snap <= s.hist && s.snapTerm == TermAt(s.snap, |s.snap|)
  {
  }

  /** The only snapshots an event sends are a leader's own. */
  lemma NewSnapshots(c: Cluster, e: Event, m: Message)
    requires Workable(c) && Enabled(c, e) && m in Next(c, e).net && m !in c.net && m.SnapshotRequest?
    ensures (e.SendTask? || e.OfferSnapshot?) && e.i in c.nodes && c.nodes[e.i].role.Leader?
    ensures var s := c.nodes[e.i]; m == SnapshotRequest(e.peer, s.term, s.snapTerm, s.snap)
  {
    hide Workable, HandleAppend, HandleAppendReply, HandleInstall, HandleRequestVote, GrantsVote, Promote, CountedFor,
         AcceptsAppend, LogUpToDate, StartElection;
  }

  lemma StepTrue(c: Cluster, peers: Peers, e: Event)
    requires Inv(c, peers) && Workable(c) && Enabled(c, e) && MatchInv(c) && AllConsistent(c) && SnapshotsTrue(c)
    requires OneLeaderPerTerm(Next(c, e))
    ensures SnapshotsTrue(Next(c, e))
  {
    hide ElectionSafety.Inv, Workable, Enabled, Next, MatchInv, AllConsistent, PartOfLog, Grows, OneLeaderPerTerm;
    LogsGrow(c, peers, e);
    var c' := Next(c, e);
    forall m | m in c'.net ensures PartOfLog(c'.leaderLog, m) {
      if m !in c.net {
        if m.SnapshotRequest? {
          NewSnapshots(c, e, m);
          OwnSnapshot(c, peers, e.i, e.peer);
        } else {
          NoSnapshot(c.leaderLog, m);
        }
      }
      GrownStaysTrue(c.leaderLog, c'.leaderLog, m);
    }
  }

  lemma NoSnapshot(logs: map<nat, seq<Entry>>, m: Message)
    requires !m.SnapshotRequest?
    ensures PartOfLog(logs, m)
  {
  }

  // ---- runs -------------------------------------------------------------------------------------

  /** No append of the run cuts what was applied. */
  ghost predicate AppendsHarmless(c: Cluster, es: seq<Event>)
    requires Possible(c, es)
    decreases |es|
  {
    |es| == 0
    || (var before, last := es[..|es| - 1], es[|es| - 1];
        AppendsHarmless(c, before) && Harmless(After(c, before), last))
  }

  /** Every tail the run keeps behind a snapshot passes the check of section 7. */
  ghost predicate TailsFit(c: Cluster, es: seq<Event>)
    requires Possible(c, es)
    decreases |es|
  {
    |es| == 0
    || (var before, last := es[..|es| - 1], es[|es| - 1];
        TailsFit(c, before) && KeptTailFits(After(c, before), last))
  }

  lemma TrueFits(c: Cluster, e: Event)
    requires Workable(c) && Enabled(c, e) && SnapshotsTrue(c) && KeptTailFits(c, e)
    ensures SnapshotFits(c, e)
  {
    hide Workable, TailFits;
    assert e.DeliverSnapshot? ==> PartOfLog(c.leaderLog, e.m);
  }

  lemma StartsTrue(c: Cluster, peers: Peers)
    requires Initial(c, peers)
    ensures AllConsistent(c) && SnapshotsTrue(c)
  {
  }

  lemma {:induction false} RunStaysTrue(c: Cluster, peers: Peers, es: seq<Event>)
    requires Initial(c, peers) && Possible(c, es) && PeersFixed(es) && OneLeaderPerTerm(After(c, es))
    requires AppendsHarmless(c, es) && TailsFit(c, es)
    ensures SnapshotsFit(c, es) && AllConsistent(After(c, es)) && SnapshotsTrue(After(c, es))
    decreases |es|
  {
    hide Workable, Enabled, Next, FixedPeers, OneLeaderPerTerm, AllConsistent, SnapshotsTrue, Harmless, KeptTailFits,
         SnapshotFits, MatchInv, ElectionSafety.Inv;
    if |es| == 0 {
      StartsTrue(c, peers);
    } else {
      hide Initial;
      var before, last := es[..|es| - 1], es[|es| - 1];
      EarlierLeaders(After(c, before), last);
      RunStaysTrue(c, peers, before);
      RunMatches(c, peers, before);
      StepConsistent(After(c, before), peers, last);
      StepTrue(After(c, before), peers, last);
      TrueFits(After(c, before), last);
    }
  }

  /**
   * In every run with one leader per term whose appends cut nothing applied and whose kept tails fit: state
   * machines and snapshots stay in step with the logs, and logs match.
   */
  lemma HarmlessLogsMatch(c: Cluster, peers: Peers, es: seq<Event>)
    requires Initial(c, peers) && Possible(c, es) && PeersFixed(es) && OneLeaderPerTerm(After(c, es))
    requires AppendsHarmless(c, es) && TailsFit(c, es)
    ensures var nodes := After(c, es).nodes;
      && (forall i :: i in nodes ==> Consistent(nodes[i]))
      && forall i, j :: i in nodes && j in nodes ==> LogsMatch(nodes[i].hist, nodes[j].hist)
  {
    hide Possible, After, SnapshotsFit, Initial, OneLeaderPerTerm, PeersFixed, LogsMatch, Consistent,
         AppendsHarmless, TailsFit;
    RunStaysTrue(c, peers, es);
    LogMatchingHolds(c, peers, es);
  }
}
