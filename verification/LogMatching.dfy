/**
 * Log matching (section 5.3 of the Raft paper) over all runs with lost, repeated and reordered messages
 * and one leader per term, compaction included, although followers cut their log after PrevLogIndex
 * unconditionally. Installing a snapshot keeps a tail nobody checked, so the runs are those whose snapshots
 * fit the log they replace; InstallKeepsMatchingIff says that nothing less will do.
 */
module LogMatching {
  import opened Basics
  import opened GameFsm
  import opened RaftSpec
  import opened Cluster
  import opened ElectionSafety

  /** Every entry of h, with all that precedes it, is what the leader of its term had in its log. */
  predicate OnLeaderLogs(logs: map<nat, seq<Entry>>, h: seq<Entry>) {
    forall k :: 0 <= k < |h| ==> h[k].term in logs && h[..k + 1] <= logs[h[k].term]
  }

  /** The message carries a stretch of the log l. */
  predicate SliceOf(l: seq<Entry>, m: AppendEntriesArgs) {
    && m.prevIndex + |m.entries| <= |l|
    && m.entries == l[m.prevIndex..m.prevIndex + |m.entries|]
    && m.prevTerm == TermAt(l, m.prevIndex)
  }

  predicate FromLeader(logs: map<nat, seq<Entry>>, m: AppendEntriesArgs) {
    m.term in logs && SliceOf(logs[m.term], m)
  }

  predicate LogsOk(logs: map<nat, seq<Entry>>) {
    forall t :: t in logs ==> t >= 1 && OnLeaderLogs(logs, logs[t])
  }

  predicate NodesMatch(c: Cluster) {
    forall i :: i in c.nodes ==>
      && OnLeaderLogs(c.leaderLog, c.nodes[i].hist)
      && (|c.nodes[i].snap| <= |c.nodes[i].hist| ==> c.nodes[i].snapTerm == TermAt(c.nodes[i].hist, |c.nodes[i].snap|))
      && (c.nodes[i].role.Leader? ==> c.nodes[i].term in c.leaderLog && c.leaderLog[c.nodes[i].term] == c.nodes[i].hist)
  }

  predicate MessagesMatch(c: Cluster) {
    forall m :: m in c.net ==>
      && (m.AppendRequest? ==> FromLeader(c.leaderLog, m.args))
      && (m.AppendReply? ==> FromLeader(c.leaderLog, m.args))
  }

  ghost predicate LogsPromoted(c: Cluster) {
    forall t :: t in c.leaderLog ==> exists i :: (t, i) in c.promoted
  }

  ghost predicate MatchInv(c: Cluster) {
    LogsOk(c.leaderLog) && NodesMatch(c) && MessagesMatch(c) && LogsPromoted(c)
  }

  // ---- leader logs only grow ------------------------------------------------------------------

  /** The log of one term appears, or is extended; the others stay. */
  predicate Grows(logs: map<nat, seq<Entry>>, logs': map<nat, seq<Entry>>) {
    forall t :: t in logs ==> t in logs' && logs[t] <= logs'[t]
  }

  lemma GrowthKeeps(logs: map<nat, seq<Entry>>, logs': map<nat, seq<Entry>>, h: seq<Entry>)
    requires Grows(logs, logs') && OnLeaderLogs(logs, h)
    ensures OnLeaderLogs(logs', h)
  {
  }

  lemma GrowthKeepsSlices(logs: map<nat, seq<Entry>>, logs': map<nat, seq<Entry>>, m: AppendEntriesArgs)
    requires Grows(logs, logs') && FromLeader(logs, m)
    ensures FromLeader(logs', m)
  {
    var l, l' := logs[m.term], logs'[m.term];
    assert forall k :: 0 <= k < |l| ==> l[k] == l'[k];
  }

  /** Two logs that agree on the term at an index agree up to it. */
  lemma AgreeUpTo(logs: map<nat, seq<Entry>>, g: seq<Entry>, h: seq<Entry>, k: nat)
    requires OnLeaderLogs(logs, g) && OnLeaderLogs(logs, h)
    requires k <= |g| && k <= |h| && TermAt(g, k) == TermAt(h, k)
    ensures g[..k] == h[..k]
  {
    if k > 0 {
      var l := logs[g[k - 1].term];
      assert g[..(k - 1) + 1] <= l && h[..(k - 1) + 1] <= l;
      assert g[..k] == l[..k] == h[..k];
    }
  }

  lemma OnLogsMatch(logs: map<nat, seq<Entry>>, g: seq<Entry>, h: seq<Entry>)
    requires OnLeaderLogs(logs, g) && OnLeaderLogs(logs, h)
    ensures LogsMatch(g, h)
  {
    hide OnLeaderLogs;
    forall k | 0 <= k < |g| && k < |h| && g[k].term == h[k].term ensures g[..k + 1] == h[..k + 1] {
      AgreeUpTo(logs, g, h, k + 1);
    }
  }

  // ---- the follower -----------------------------------------------------------------------------

  /** A message built from a leader's log stores its entries unchanged. */
  lemma StoredAsSent(logs: map<nat, seq<Entry>>, m: AppendEntriesArgs)
    requires LogsOk(logs) && FromLeader(logs, m) && ArgsOk(m)
    ensures EntriesFromArgs(m) == m.entries
  {
    var l := logs[m.term];
    forall i | 0 <= i < |m.entries| ensures EntriesFromArgs(m)[i] == m.entries[i] {
      assert m.entries[i] == l[m.prevIndex + i];
      assert m.entries[i].index == m.prevIndex + 1 + i;
    }
  }

  /** Accepting a leader's message makes the follower's log, up to the message's end, that leader's log. */
  lemma MergedIsLeaderPrefix(logs: map<nat, seq<Entry>>, s: Node, m: AppendEntriesArgs)
    requires LogsOk(logs) && FromLeader(logs, m) && ArgsOk(m) && AcceptsAppend(s, m)
    requires OnLeaderLogs(logs, s.hist) && s.snapTerm == TermAt(s.hist, |s.snap|)
    ensures s.hist[..m.prevIndex] == logs[m.term][..m.prevIndex]
    ensures |m.entries| > 0 ==> MergedHist(s, m) == logs[m.term][..m.prevIndex + |m.entries|]
    ensures |m.entries| == 0 ==> MergedHist(s, m) == s.hist
    ensures OnLeaderLogs(logs, MergedHist(s, m))
    ensures TermAt(MergedHist(s, m), |s.snap|) == TermAt(s.hist, |s.snap|)
  {
    var l := logs[m.term];
    var p, n := m.prevIndex, m.prevIndex + |m.entries|;
    StoredAsSent(logs, m);
    AgreeUpTo(logs, s.hist, l, p);
    if |m.entries| > 0 {
      assert l[..p] + l[p..n] == l[..n];
      PrefixOnLogs(logs, l, n);
      assert |s.snap| > 0 ==> l[..p][|s.snap| - 1] == s.hist[..p][|s.snap| - 1];
    }
  }

  lemma PrefixOnLogs(logs: map<nat, seq<Entry>>, l: seq<Entry>, n: nat)
    requires OnLeaderLogs(logs, l) && n <= |l|
    ensures OnLeaderLogs(logs, l[..n])
  {
    forall k | 0 <= k < n ensures l[..n][k].term in logs && l[..n][..k + 1] <= logs[l[..n][k].term] {
      assert l[..n][..k + 1] == l[..k + 1];
    }
  }

  // ---- each event keeps the invariant ---------------------------------------------------------

  /** A node changes without touching its log, and without becoming a leader. */
  lemma LogUntouched(c: Cluster, c': Cluster, i: string, s': Node)
    requires MatchInv(c) && i in c.nodes
    requires c'.nodes == c.nodes[i := s'] && c'.leaderLog == c.leaderLog && c'.promoted == c.promoted
    requires s'.hist == c.nodes[i].hist && KeepsOrCompacts(c.nodes[i], s')
    requires |c.nodes[i].snap| <= |c.nodes[i].hist|
    requires s'.role.Leader? ==> c.nodes[i].role.Leader? && s'.term == c.nodes[i].term
    requires MessagesMatch(c')
    ensures MatchInv(c')
  {
    hide OnLeaderLogs, MessagesMatch, LogsOk;
  }

  lemma SameMessages(c: Cluster, c': Cluster)
    requires MessagesMatch(c) && c'.leaderLog == c.leaderLog
    requires forall m :: m in c'.net && m !in c.net ==> !m.AppendRequest? && !m.AppendReply?
    ensures MessagesMatch(c')
  {
  }

  lemma LogMatchInit(c: Cluster, peers: Peers)
    requires Initial(c, peers)
    ensures MatchInv(c)
  {
  }

  lemma ShapeOf(c: Cluster, peers: Peers, i: string)
    requires Inv(c, peers) && i in c.nodes
    ensures NodeOk(c.nodes[i]) && Shape(c.nodes[i]) && LeaderBounds(c.nodes[i]) && c.nodes[i].id == i
  {
    NodeFacts(c, peers, i);
  }

  /** Events that move no log: elections, votes, term notices, leaders' replies. */
  lemma QuietMatch(c: Cluster, peers: Peers, e: Event)
    requires Inv(c, peers) && Workable(c) && Enabled(c, e) && MatchInv(c)
    requires e.Timeout? || e.DeliverVoteRequest? || e.DeliverVoteReply? || e.DeliverProbeReply?
    ensures MatchInv(Next(c, e))
  {
    hide Inv, MatchInv, Workable, LogUpToDate, GrantsVote, NodeOk, MessagesMatch, NodesMatch, LogsOk, LogsPromoted,
         TermAt;
    var c' := Next(c, e);
    var i := match e case Timeout(i) => i case DeliverVoteRequest(m) => m.to
                     case DeliverVoteReply(m) => m.candidate case DeliverProbeReply(m) => m.leader;
    ShapeOf(c, peers, i);
    assert MessagesMatch(c') by {
      MatchParts(c);
      SameMessages(c, c');
    }
    LogUntouched(c, c', i, c'.nodes[i]);
  }

  lemma MatchParts(c: Cluster)
    requires MatchInv(c)
    ensures LogsOk(c.leaderLog) && NodesMatch(c) && MessagesMatch(c) && LogsPromoted(c)
  {
  }

  lemma NodeMatches(c: Cluster, peers: Peers, i: string)
    requires Inv(c, peers) && MatchInv(c) && i in c.nodes
    ensures Shape(c.nodes[i]) && NodeOk(c.nodes[i]) && c.nodes[i].id == i
    ensures OnLeaderLogs(c.leaderLog, c.nodes[i].hist)
    ensures c.nodes[i].snapTerm == TermAt(c.nodes[i].hist, |c.nodes[i].snap|)
    ensures c.nodes[i].role.Leader? ==>
      c.nodes[i].term in c.leaderLog && c.leaderLog[c.nodes[i].term] == c.nodes[i].hist
  {
    ShapeOf(c, peers, i);
  }

  lemma ReplyMatch(c: Cluster, peers: Peers, m: Message)
    requires Inv(c, peers) && Workable(c) && Enabled(c, DeliverAppendReply(m)) && MatchInv(c)
    ensures MatchInv(Next(c, DeliverAppendReply(m)))
  {
    hide MatchInv, Workable, NodeOk, MessagesMatch, NodesMatch, LogsOk, LogsPromoted, TermAt, HandleAppendReply,
         NodesOk, RolesOk, ArgsOk;
    var i := m.args.leader;
    ShapeOf(c, peers, i);
    MessageFacts(c, m);
    AppendReplyEffect(c.nodes[i], m.args.term, m.follower, m.args, m.replyTerm, m.success);
    var c' := Next(c, DeliverAppendReply(m));
    assert MessagesMatch(c') by {
      MatchParts(c);
      SameMessages(c, c');
    }
    LogUntouched(c, c', i, c'.nodes[i]);
  }

  /** A leader's log changes: its term's log is that log. */
  lemma LeaderLogGrows(c: Cluster, c': Cluster, i: string, s': Node)
    requires MatchInv(c) && i in c.nodes && s'.role.Leader?
    requires c'.nodes == c.nodes[i := s'] && c'.net == c.net && c'.leaderLog == c.leaderLog[s'.term := s'.hist]
    requires Grows(c.leaderLog, c'.leaderLog) && s'.term >= 1
    requires OnLeaderLogs(c'.leaderLog, s'.hist)
    requires |s'.snap| <= |s'.hist| ==> s'.snapTerm == TermAt(s'.hist, |s'.snap|)
    requires forall j :: j in c.nodes && j != i && c.nodes[j].role.Leader? ==> c.nodes[j].term != s'.term
    requires LogsPromoted(c')
    ensures MatchInv(c')
  {
    hide OnLeaderLogs, TermAt, FromLeader, Grows;
    forall t | t in c'.leaderLog ensures t >= 1 && OnLeaderLogs(c'.leaderLog, c'.leaderLog[t]) {
      if t != s'.term {
        GrowthKeeps(c.leaderLog, c'.leaderLog, c.leaderLog[t]);
      }
    }
    forall j | j in c'.nodes && j != i ensures OnLeaderLogs(c'.leaderLog, c'.nodes[j].hist) {
      GrowthKeeps(c.leaderLog, c'.leaderLog, c.nodes[j].hist);
    }
    forall m | m in c'.net && (m.AppendRequest? || m.AppendReply?) ensures FromLeader(c'.leaderLog, m.args) {
      GrowthKeepsSlices(c.leaderLog, c'.leaderLog, m.args);
    }
  }

  lemma BecomeLeaderMatch(c: Cluster, peers: Peers, i: string)
    requires Inv(c, peers) && Workable(c) && Enabled(c, BecomeLeader(i)) && MatchInv(c)
    requires OneLeaderPerTerm(Next(c, BecomeLeader(i)))
    ensures MatchInv(Next(c, BecomeLeader(i)))
  {
    hide Workable, NodeOk, NodesOk, MatchInv, CountedFor, Promote, OneLeaderPerTerm, OnLeaderLogs, TermAt,
         ElectionSafety.Inv;
    var s := c.nodes[i];
    NodeMatches(c, peers, i);
    PromoteStep(s);
    PromoteKeepsSnap(s);
    FreshTerm(c, peers, i);
    PromotionMatches(c, Next(c, BecomeLeader(i)), i, Promote(s, s.term));
  }

  lemma PromotionMatches(c: Cluster, c': Cluster, i: string, s': Node)
    requires MatchInv(c) && i in c.nodes && s'.role.Leader? && s'.term >= 1 && s'.term !in c.leaderLog
    requires c' == c.(nodes := c.nodes[i := s'], promoted := c.promoted + {(s'.term, i)},
                      leaderLog := c.leaderLog[s'.term := s'.hist])
    requires forall j :: j in c.nodes && c.nodes[j].role.Leader? ==> c.nodes[j].term != s'.term
    requires OnLeaderLogs(c.leaderLog, s'.hist)
    requires |s'.snap| <= |s'.hist| ==> s'.snapTerm == TermAt(s'.hist, |s'.snap|)
    ensures MatchInv(c')
  {
    hide MatchInv, OnLeaderLogs, TermAt;
    GrowthKeeps(c.leaderLog, c'.leaderLog, s'.hist);
    PromotedLogs(c, c', s'.term, i);
    LeaderLogGrows(c, c', i, s');
  }

  lemma PromoteKeepsSnap(s: Node)
    ensures Promote(s, s.term).snap == s.snap && Promote(s, s.term).snapTerm == s.snapTerm
  {
  }

  lemma PromotedLogs(c: Cluster, c': Cluster, t: nat, i: string)
    requires MatchInv(c) && c'.leaderLog.Keys == c.leaderLog.Keys + {t} && c'.promoted == c.promoted + {(t, i)}
    ensures LogsPromoted(c')
  {
    forall u | u in c'.leaderLog ensures exists j :: (u, j) in c'.promoted {
      if u == t {
        assert (u, i) in c'.promoted;
      } else {
        var j :| (u, j) in c.promoted;
        assert (u, j) in c'.promoted;
      }
    }
  }

  /** Nobody has led, or leads, the term a candidate is about to lead. */
  lemma FreshTerm(c: Cluster, peers: Peers, i: string)
    requires Inv(c, peers) && Workable(c) && Enabled(c, BecomeLeader(i)) && MatchInv(c)
    requires OneLeaderPerTerm(Next(c, BecomeLeader(i)))
    ensures c.nodes[i].term !in c.leaderLog && c.nodes[i].term >= 1
    ensures forall j :: j in c.nodes && c.nodes[j].role.Leader? ==> c.nodes[j].term != c.nodes[i].term
  {
    var t := c.nodes[i].term;
    var c' := Next(c, BecomeLeader(i));
    assert (t, i) in c'.promoted && (t, i) !in c.promoted;
    assert c.promoted <= c'.promoted;
    assert forall j :: (t, j) !in c.promoted;
    CandidateTermPositive(c, peers, i);
  }

  lemma CandidateTermPositive(c: Cluster, peers: Peers, i: string)
    requires Inv(c, peers) && i in c.nodes && c.nodes[i].role.Candidate?
    ensures c.nodes[i].term >= 1
  {
    NodeFacts(c, peers, i);
  }

  lemma ProposeMatch(c: Cluster, peers: Peers, i: string, command: Command)
    requires Inv(c, peers) && Workable(c) && Enabled(c, ClientProposes(i, command)) && MatchInv(c)
    requires OneLeaderPerTerm(c)
    ensures MatchInv(Next(c, ClientProposes(i, command)))
  {
    hide Workable, NodeOk, MessagesMatch, LogsOk, NodesOk, NetOk, MatchInv, NodesMatch, LogsPromoted,
         ElectionSafety.Inv;
    var s := c.nodes[i];
    var c' := Next(c, ClientProposes(i, command));
    NodeMatches(c, peers, i);
    ProposedOnLogs(c.leaderLog, s.term, s.hist, Entry(|s.hist| + 1, s.term, command));
    OtherLeaders(c, peers, i);
    SamePromotions(c, c');
    MatchParts(c);
    LeaderTermPositive(c, s.term);
    LeaderLogGrows(c, c', i, Propose(s, command));
  }

  lemma LeaderTermPositive(c: Cluster, t: nat)
    requires LogsOk(c.leaderLog) && t in c.leaderLog
    ensures t >= 1
  {
  }

  lemma SamePromotions(c: Cluster, c': Cluster)
    requires MatchInv(c) && c'.leaderLog.Keys == c.leaderLog.Keys && c'.promoted == c.promoted
    ensures LogsPromoted(c')
  {
    forall t | t in c'.leaderLog ensures exists j :: (t, j) in c'.promoted {
      var j :| (t, j) in c.promoted;
      assert (t, j) in c'.promoted;
    }
  }

  lemma OtherLeaders(c: Cluster, peers: Peers, i: string)
    requires Inv(c, peers) && OneLeaderPerTerm(c) && i in c.nodes && c.nodes[i].role.Leader?
    ensures forall j :: j in c.nodes && j != i && c.nodes[j].role.Leader? ==> c.nodes[j].term != c.nodes[i].term
  {
  }

  lemma ProposedOnLogs(logs: map<nat, seq<Entry>>, t: nat, h: seq<Entry>, e: Entry)
    requires t in logs && logs[t] == h && OnLeaderLogs(logs, h) && e.term == t
    ensures Grows(logs, logs[t := h + [e]]) && OnLeaderLogs(logs[t := h + [e]], h + [e])
  {
    var logs' := logs[t := h + [e]];
    assert Grows(logs, logs');
    forall k | 0 <= k < |h + [e]| ensures (h + [e])[k].term in logs' && (h + [e])[..k + 1] <= logs'[(h + [e])[k].term] {
      if k < |h| {
        assert (h + [e])[..k + 1] == h[..k + 1];
      }
    }
  }

  lemma SendMatch(c: Cluster, peers: Peers, e: Event)
    requires Inv(c, peers) && Workable(c) && Enabled(c, e) && MatchInv(c)
    requires e.SendTask? || e.OfferSnapshot? || e.SendProbe?
    ensures MatchInv(Next(c, e))
  {
    hide NodeOk, LogsOk, NodesOk, NetOk, OnLeaderLogs, LogsPromoted, TaskFor, ElectionSafety.Inv, SliceOf;
    var s := c.nodes[e.i];
    var c' := Next(c, e);
    NodeMatches(c, peers, e.i);
    TaskIsSlice(s, e.peer);
    assert LogsPromoted(c') by {
      SamePromotions(c, c');
    }
    forall m | m in c'.net && m !in c.net ensures m.AppendRequest? ==> FromLeader(c'.leaderLog, m.args) {
      if e.SendProbe? {
        ProbeIsSlice(s, m.args);
      }
    }
  }

  lemma TaskIsSlice(s: Node, peer: string)
    requires Shape(s) && LeaderBounds(s) && s.snapTerm == TermAt(s.hist, |s.snap|)
    ensures TaskFor(s, peer).SendEntries? ==>
      TaskFor(s, peer).args.term == s.term && SliceOf(s.hist, TaskFor(s, peer).args)
  {
  }

  lemma ProbeIsSlice(s: Node, m: AppendEntriesArgs)
    requires Shape(s) && s.snapTerm == TermAt(s.hist, |s.snap|)
    requires m.prevIndex == |s.hist| && m.entries == [] && m.prevTerm == TermOf(s, |s.hist|)
    ensures SliceOf(s.hist, m)
  {
  }

  lemma AppendMatch(c: Cluster, peers: Peers, m: Message)
    requires Inv(c, peers) && Workable(c) && Enabled(c, DeliverAppend(m)) && MatchInv(c)
    ensures MatchInv(Next(c, DeliverAppend(m)))
  {
    hide Workable, NodeOk, LogsOk, NodesOk, RolesOk, TermAt, OnLeaderLogs, HandleAppend, LogsPromoted, FromLeader,
         ArgsOk, AcceptsAppend, MergedHist;
    var i := m.to;
    var s := c.nodes[i];
    var c' := Next(c, DeliverAppend(m));
    NodeMatches(c, peers, i);
    MessageFacts(c, m);
    AppendEffect(s, m.args);
    AppendedMatches(c.leaderLog, s, m.args);
    assert LogsPromoted(c') by {
      SamePromotions(c, c');
    }
  }

  lemma AppendedMatches(logs: map<nat, seq<Entry>>, s: Node, m: AppendEntriesArgs)
    requires LogsOk(logs) && FromLeader(logs, m) && ArgsOk(m) && NodeOk(s)
    requires OnLeaderLogs(logs, s.hist) && s.snapTerm == TermAt(s.hist, |s.snap|)
    requires KeepsOrCompacts(s, HandleAppend(s, m))
    requires HandleAppend(s, m).hist == (if AcceptsAppend(s, m) then MergedHist(s, m) else s.hist)
    ensures var s' := HandleAppend(s, m);
      OnLeaderLogs(logs, s'.hist) && s'.snapTerm == TermAt(s'.hist, |s'.snap|)
  {
    hide HandleAppend, OnLeaderLogs, LogsOk, FromLeader, ArgsOk, MergedHist;
    if AcceptsAppend(s, m) {
      MergedIsLeaderPrefix(logs, s, m);
    }
  }

  // ---- snapshots --------------------------------------------------------------------------------

  /** The check section 7 of the Raft paper asks for before a tail is kept, and the code leaves out. */
  predicate TailFits(s: Node, image: seq<Entry>) {
    |image| < |s.hist| ==> TermAt(s.hist, |image|) == TermAt(image, |image|)
  }

  /** A snapshot that gets installed stands for a part of its sender's log, and its receiver's tail fits it. */
  predicate SnapshotFits(c: Cluster, e: Event)
    requires Workable(c) && Enabled(c, e)
  {
    e.DeliverSnapshot? && e.m.term >= c.nodes[e.m.to].term && |e.m.image| > |c.nodes[e.m.to].snap| ==>
      && e.m.term in c.leaderLog && e.m.image <= c.leaderLog[e.m.term]
      && e.m.lastTerm == TermAt(e.m.image, |e.m.image|)
      && TailFits(c.nodes[e.m.to], e.m.image)
  }

  /**
   * Installing a snapshot keeps log matching exactly when the tail fits: matching with every leader's log,
   * and matching with another node that holds the same log the receiver held.
   */
  lemma InstallKeepsMatchingIff(logs: map<nat, seq<Entry>>, s: Node, term: nat, lastTerm: nat, image: seq<Entry>)
    requires OnLeaderLogs(logs, s.hist) && OnLeaderLogs(logs, image)
    requires term >= s.term && |image| > |s.snap|
    ensures OnLeaderLogs(logs, HandleInstall(s, term, lastTerm, image).hist) <==> TailFits(s, image)
    ensures LogsMatch(HandleInstall(s, term, lastTerm, image).hist, s.hist) <==> TailFits(s, image)
  {
    var h := HandleInstall(s, term, lastTerm, image).hist;
    var n := |image|;
    if n < |s.hist| {
      if TailFits(s, image) {
        AgreeUpTo(logs, s.hist, image, n);
        assert h == s.hist;
      }
      if OnLeaderLogs(logs, h) {
        OnLogsMatch(logs, h, s.hist);
      }
      if LogsMatch(h, s.hist) {
        KeptTailTells(s.hist, h, n);
      }
    } else {
      assert h == image;
      OnLogsMatch(logs, h, s.hist);
    }
  }

  /** Where the kept tail begins, two matching logs show the same predecessor. */
  lemma KeptTailTells(g: seq<Entry>, h: seq<Entry>, n: nat)
    requires n < |g| && n < |h| && h[n] == g[n] && LogsMatch(h, g)
    ensures TermAt(h, n) == TermAt(g, n)
  {
    assert h[..n + 1] == g[..n + 1];
    assert n > 0 ==> h[..n + 1][n - 1] == g[..n + 1][n - 1];
  }

  lemma SnapshotMatch(c: Cluster, peers: Peers, m: Message)
    requires Inv(c, peers) && Workable(c) && Enabled(c, DeliverSnapshot(m)) && MatchInv(c)
    requires SnapshotFits(c, DeliverSnapshot(m))
    ensures MatchInv(Next(c, DeliverSnapshot(m)))
  {
    hide Workable, NodeOk, NodesOk, RolesOk, TermAt, OnLeaderLogs, HandleInstall, LogsPromoted, FromLeader, NetOk;
    var s := c.nodes[m.to];
    var c' := Next(c, DeliverSnapshot(m));
    NodeMatches(c, peers, m.to);
    InstalledMatches(c.leaderLog, s, m);
    assert LogsPromoted(c') by {
      SamePromotions(c, c');
    }
  }

  lemma InstalledMatches(logs: map<nat, seq<Entry>>, s: Node, m: Message)
    requires m.SnapshotRequest? && LogsOk(logs) && Shape(s)
    requires OnLeaderLogs(logs, s.hist) && s.snapTerm == TermAt(s.hist, |s.snap|)
    requires m.term >= s.term && |m.image| > |s.snap| ==>
      && m.term in logs && m.image <= logs[m.term] && m.lastTerm == TermAt(m.image, |m.image|) && TailFits(s, m.image)
    ensures var s' := HandleInstall(s, m.term, m.lastTerm, m.image);
      && OnLeaderLogs(logs, s'.hist)
      && (|s'.snap| <= |s'.hist| ==> s'.snapTerm == TermAt(s'.hist, |s'.snap|))
      && (s'.role.Leader? ==> s' == s)
  {
    if m.term >= s.term && |m.image| > |s.snap| {
      hide OnLeaderLogs;
      PrefixOnLogs(logs, logs[m.term], |m.image|);
      assert logs[m.term][..|m.image|] == m.image;
      InstallKeepsMatchingIff(logs, s, m.term, m.lastTerm, m.image);
    }
  }

  /** Promotions are never taken back. */
  lemma EarlierLeaders(c: Cluster, e: Event)
    requires Workable(c) && Enabled(c, e) && OneLeaderPerTerm(Next(c, e))
    ensures OneLeaderPerTerm(c)
  {
    hide HandleAppend, HandleInstall, HandleAppendReply, TaskFor, Promote, Propose, CountedFor, AcceptsAppend,
         GrantsVote;
    assert c.promoted <= Next(c, e).promoted;
  }

  lemma StepMatches(c: Cluster, peers: Peers, e: Event)
    requires Inv(c, peers) && Workable(c) && Enabled(c, e) && MatchInv(c) && SnapshotFits(c, e)
    requires OneLeaderPerTerm(Next(c, e))
    ensures MatchInv(Next(c, e))
  {
    EarlierLeaders(c, e);
    hide ElectionSafety.Inv, Workable, Enabled, Next, MatchInv, SnapshotFits, OneLeaderPerTerm;
    match e {
      case BecomeLeader(i) => BecomeLeaderMatch(c, peers, i);
      case ClientProposes(i, command) => ProposeMatch(c, peers, i, command);
      case SendTask(_, _) => SendMatch(c, peers, e);
      case OfferSnapshot(_, _) => SendMatch(c, peers, e);
      case SendProbe(_, _) => SendMatch(c, peers, e);
      case DeliverAppend(m) => AppendMatch(c, peers, m);
      case DeliverAppendReply(m) => ReplyMatch(c, peers, m);
      case DeliverSnapshot(m) => SnapshotMatch(c, peers, m);
      case _ => QuietMatch(c, peers, e);
    }
  }

  /** Leader logs are never cut. */
  lemma LogsGrow(c: Cluster, peers: Peers, e: Event)
    requires Inv(c, peers) && Workable(c) && Enabled(c, e) && MatchInv(c) && OneLeaderPerTerm(Next(c, e))
    ensures Grows(c.leaderLog, Next(c, e).leaderLog)
  {
    hide ElectionSafety.Inv, Workable, MatchInv, HandleAppend, HandleAppendReply, HandleInstall, HandleRequestVote,
         GrantsVote, TaskFor, CountedFor, AcceptsAppend, OnLeaderLogs, OneLeaderPerTerm, NodeOk, Shape, Promote;
    match e {
      case BecomeLeader(i) =>
        FreshTerm(c, peers, i);
        PromoteStep(c.nodes[i]) by { ShapeOf(c, peers, i); }
      case ClientProposes(i, command) => NodeMatches(c, peers, i);
      case _ =>
    }
  }

  // ---- runs -------------------------------------------------------------------------------------

  /** Every snapshot the run installs fits. */
  ghost predicate SnapshotsFit(c: Cluster, es: seq<Event>)
    requires Possible(c, es)
    decreases |es|
  {
    |es| == 0
    || (var before, last := es[..|es| - 1], es[|es| - 1];
        SnapshotsFit(c, before) && SnapshotFits(After(c, before), last))
  }

  lemma {:induction false} RunMatches(c: Cluster, peers: Peers, es: seq<Event>)
    requires Initial(c, peers) && Possible(c, es) && PeersFixed(es) && SnapshotsFit(c, es)
    requires OneLeaderPerTerm(After(c, es))
    ensures Inv(After(c, es), peers) && MatchInv(After(c, es))
    decreases |es|
  {
    hide ElectionSafety.Inv, MatchInv, Workable, Enabled, Next, FixedPeers, SnapshotFits, Initial, OneLeaderPerTerm;
    RunKeepsInv(c, peers, es);
    if |es| == 0 {
      LogMatchInit(c, peers);
    } else {
      var before, last := es[..|es| - 1], es[|es| - 1];
      RunKeepsInv(c, peers, before);
      EarlierLeaders(After(c, before), last);
      RunMatches(c, peers, before);
      StepMatches(After(c, before), peers, last);
    }
  }

  /** Log matching, in every run in which terms have one leader each and the snapshots installed fit. */
  lemma LogMatchingHolds(c: Cluster, peers: Peers, es: seq<Event>)
    requires Initial(c, peers) && Possible(c, es) && PeersFixed(es) && SnapshotsFit(c, es)
    requires OneLeaderPerTerm(After(c, es))
    ensures var nodes := After(c, es).nodes;
      forall i, j :: i in nodes && j in nodes ==> LogsMatch(nodes[i].hist, nodes[j].hist)
  {
    hide OnLeaderLogs, LogsMatch, Possible, After, LogsOk, SnapshotsFit, Initial, ElectionSafety.Inv,
         OneLeaderPerTerm, PeersFixed;
    RunMatches(c, peers, es);
    var d := After(c, es);
    forall i, j | i in d.nodes && j in d.nodes ensures LogsMatch(d.nodes[i].hist, d.nodes[j].hist) {
      OnLogsMatch(d.leaderLog, d.nodes[i].hist, d.nodes[j].hist);
    }
  }

  /** In particular where no node that has followed a leader gives a second candidate its vote. */
  lemma DisciplinedLogsMatch(c: Cluster, peers: Peers, es: seq<Event>)
    requires Initial(c, peers) && Possible(c, es) && PeersFixed(es) && SnapshotsFit(c, es) && Disciplined(c, es)
    ensures var nodes := After(c, es).nodes;
      forall i, j :: i in nodes && j in nodes ==> LogsMatch(nodes[i].hist, nodes[j].hist)
  {
    hide Possible, After, SnapshotsFit, Initial, OneLeaderPerTerm, PeersFixed, LogsMatch, Disciplined;
    ElectionSafetyHolds(c, peers, es);
    LogMatchingHolds(c, peers, es);
  }
}
