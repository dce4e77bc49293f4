/**
 * The election restriction (section 5.4.1 of the Raft paper): a vote is given only to a candidate whose log is
 * at least as up to date as the voter's. Of whole logs this says that the candidate's last term is later, or
 * the voter's log is a prefix of the candidate's.
 */
module ElectionRestriction {
  import opened Basics
  import opened GameFsm
  import opened RaftSpec
  import opened Cluster
  import opened ElectionSafety
  import opened LogMatching

  /** Terms never decrease along the log. */
  predicate Ordered(h: seq<Entry>) {
    forall i, j :: 0 <= i < j < |h| ==> h[i].term <= h[j].term
  }

  function LastTerm(h: seq<Entry>): nat {
    TermAt(h, |h|)
  }

  /** The request was made with this log. */
  predicate Describes(vote: RequestVoteArgs, h: seq<Entry>) {
    vote.lastIndex == |h| && vote.lastTerm == LastTerm(h)
  }

  /** The candidate's log h ends in a later term than the voter's, or contains it. */
  predicate AtLeastAsUpToDate(h: seq<Entry>, voter: seq<Entry>) {
    LastTerm(h) > LastTerm(voter) || voter <= h
  }

  // ---- two logs -----------------------------------------------------------------------------------

  /** Logs that end in the same term are both parts of that term's leader log. */
  lemma SameLastTerm(logs: map<nat, seq<Entry>>, g: seq<Entry>, h: seq<Entry>)
    requires OnLeaderLogs(logs, g) && OnLeaderLogs(logs, h) && |g| <= |h| && LastTerm(g) == LastTerm(h)
    ensures g <= h
  {
    if |g| > 0 {
      var l := logs[h[|h| - 1].term];
      assert g[..(|g| - 1) + 1] == g && h[..(|h| - 1) + 1] == h;
      assert g <= l && h <= l;
    }
  }

  lemma LongerEndsNoEarlier(g: seq<Entry>, h: seq<Entry>)
    requires g <= h && Ordered(h)
    ensures LastTerm(g) <= LastTerm(h)
  {
    if 0 < |g| < |h| {
      assert h[|g| - 1].term <= h[|h| - 1].term;
    }
  }

  /** What the comparison of last index and last term decides about whole logs. */
  lemma UpToDateIff(logs: map<nat, seq<Entry>>, s: Node, h: seq<Entry>)
    requires Shape(s) && s.snapTerm == TermAt(s.hist, |s.snap|)
    requires OnLeaderLogs(logs, s.hist) && OnLeaderLogs(logs, h) && Ordered(h)
    ensures LogUpToDate(s, |h|, LastTerm(h)) <==> AtLeastAsUpToDate(h, s.hist)
  {
    if LastTerm(h) == LastTerm(s.hist) && |s.hist| <= |h| {
      SameLastTerm(logs, s.hist, h);
    }
    if s.hist <= h {
      LongerEndsNoEarlier(s.hist, h);
    }
  }

  /** A proper part of the voter's own log is never enough. */
  lemma ShorterIsRefused(s: Node, h: seq<Entry>)
    requires Shape(s) && s.snapTerm == TermAt(s.hist, |s.snap|) && Ordered(s.hist) && h < s.hist
    ensures !LogUpToDate(s, |h|, LastTerm(h))
  {
    LongerEndsNoEarlier(h, s.hist);
  }

  /** A log that contains the voter's is never refused for its length or term. */
  lemma LongerIsAccepted(s: Node, h: seq<Entry>)
    requires Shape(s) && s.snapTerm == TermAt(s.hist, |s.snap|) && Ordered(h) && s.hist <= h
    ensures LogUpToDate(s, |h|, LastTerm(h))
  {
    LongerEndsNoEarlier(s.hist, h);
  }

  /**
   * That two logs match and their terms do not decrease is not enough for the first: these two agree wherever
   * they show the same term at the same index, and end in the same term, and neither contains the other.
   */
  lemma MatchingIsNotEnough() returns (s: Node, h: seq<Entry>)
    ensures Shape(s) && s.snapTerm == TermAt(s.hist, |s.snap|) && Ordered(s.hist) && Ordered(h) && LogsMatch(h, s.hist)
    ensures LogUpToDate(s, |h|, LastTerm(h)) && !AtLeastAsUpToDate(h, s.hist)
  {
    h := [Entry(1, 1, DebugNoop), Entry(2, 2, DebugNoop)];
    s := Fresh("", map[], 0).(hist := [Entry(1, 2, DebugNoop)]);
    assert h[0] != s.hist[0];
  }

  /**
   * A node that has voted answers the same request the same way, as often as it comes, and no other candidate
   * of that term gets its vote; in a later term an up-to-date log is all that counts.
   */
  lemma VoteGivenOnce(s: Node, m: RequestVoteArgs, other: RequestVoteArgs)
    requires Shape(s) && GrantsVote(s, m) && m.candidate != ""
    ensures var s' := HandleRequestVote(s, m);
      && GrantsVote(s', m) && HandleRequestVote(s', m) == s'
      && (other.term <= m.term && (other.term < m.term || other.candidate != m.candidate) ==>
           !GrantsVote(s', other) && HandleRequestVote(s', other) == s')
      && (other.term > m.term ==> (GrantsVote(s', other) <==> LogUpToDate(s, other.lastIndex, other.lastTerm)))
  {
  }

  // ---- the cluster --------------------------------------------------------------------------------

  /** Terms do not decrease along the log, and do not go beyond the given one. */
  predicate OrderedWithin(h: seq<Entry>, term: nat) {
    Ordered(h) && forall k :: 0 <= k < |h| ==> h[k].term <= term
  }

  ghost predicate LogsOrdered(c: Cluster) {
    && (forall i :: i in c.nodes ==> OrderedWithin(c.nodes[i].hist, c.nodes[i].term))
    && (forall t :: t in c.leaderLog ==> OrderedWithin(c.leaderLog[t], t))
  }

  /** The candidate asked with this log. */
  ghost predicate AskedWith(logs: map<nat, seq<Entry>>, vote: RequestVoteArgs, h: seq<Entry>) {
    Describes(vote, h) && OnLeaderLogs(logs, h) && Ordered(h)
  }

  ghost predicate RequestsDescribeLogs(c: Cluster) {
    forall m :: m in c.net && m.VoteRequest? ==> exists h :: AskedWith(c.leaderLog, m.vote, h)
  }

  lemma LaterTerm(h: seq<Entry>, t: nat, u: nat)
    requires OrderedWithin(h, t) && t <= u
    ensures OrderedWithin(h, u)
  {
  }

  lemma PrefixOrdered(h: seq<Entry>, n: nat, t: nat)
    requires OrderedWithin(h, t) && n <= |h|
    ensures OrderedWithin(h[..n], t)
  {
  }

  /** One node's log stays ordered within its term, and so do the leader logs. */
  lemma OneNodeOrdered(c: Cluster, c': Cluster, i: string)
    requires LogsOrdered(c) && i in c.nodes && i in c'.nodes && c'.nodes == c.nodes[i := c'.nodes[i]]
    requires OrderedWithin(c'.nodes[i].hist, c'.nodes[i].term)
    requires forall t :: t in c'.leaderLog ==>
      (t in c.leaderLog && c'.leaderLog[t] == c.leaderLog[t]) || OrderedWithin(c'.leaderLog[t], t)
    ensures LogsOrdered(c')
  {
    hide OrderedWithin;
  }

  lemma OrderedAt(c: Cluster, i: string)
    requires LogsOrdered(c) && i in c.nodes
    ensures OrderedWithin(c.nodes[i].hist, c.nodes[i].term)
  {
  }

  lemma SameLogOrdered(c: Cluster, c': Cluster, i: string)
    requires LogsOrdered(c) && i in c.nodes && i in c'.nodes && c'.nodes == c.nodes[i := c'.nodes[i]]
    requires c'.nodes[i].hist == c.nodes[i].hist && c.nodes[i].term <= c'.nodes[i].term && c'.leaderLog == c.leaderLog
    ensures LogsOrdered(c')
  {
    hide OrderedWithin;
    OrderedAt(c, i);
    LaterTerm(c.nodes[i].hist, c.nodes[i].term, c'.nodes[i].term);
    OneNodeOrdered(c, c', i);
  }

  /** Elections, votes, term notices and replies move no log. */
  lemma QuietOrdered(c: Cluster, peers: Peers, e: Event)
    requires Inv(c, peers) && Workable(c) && Enabled(c, e) && LogsOrdered(c)
    requires e.Timeout? || e.DeliverVoteRequest? || e.DeliverVoteReply? || e.DeliverProbeReply?
    ensures LogsOrdered(Next(c, e))
  {
    hide ElectionSafety.Inv, Workable, LogsOrdered, LogUpToDate, GrantsVote;
    var i := match e case Timeout(i) => i case DeliverVoteRequest(m) => m.to
                     case DeliverVoteReply(m) => m.candidate case DeliverProbeReply(m) => m.leader;
    SameLogOrdered(c, Next(c, e), i);
  }

  lemma ReplyOrdered(c: Cluster, peers: Peers, m: Message)
    requires Inv(c, peers) && Workable(c) && Enabled(c, DeliverAppendReply(m)) && LogsOrdered(c)
    ensures LogsOrdered(Next(c, DeliverAppendReply(m)))
  {
    hide Workable, LogsOrdered, NodeOk, HandleAppendReply, NodesOk, RolesOk, ArgsOk, KeepsOrCompacts;
    var i := m.args.leader;
    ShapeOf(c, peers, i);
    MessageFacts(c, m);
    AppendReplyEffect(c.nodes[i], m.args.term, m.follower, m.args, m.replyTerm, m.success);
    SameLogOrdered(c, Next(c, DeliverAppendReply(m)), i);
  }

  lemma LeaderOrdered(c: Cluster, peers: Peers, i: string)
    requires Inv(c, peers) && Workable(c) && Enabled(c, BecomeLeader(i)) && LogsOrdered(c)
    ensures LogsOrdered(Next(c, BecomeLeader(i)))
  {
    hide ElectionSafety.Inv, Workable, LogsOrdered, Promote, CountedFor, OrderedWithin;
    var c' := Next(c, BecomeLeader(i));
    ShapeOf(c, peers, i);
    PromoteStep(c.nodes[i]);
    OrderedAt(c, i);
    OneNodeOrdered(c, c', i);
  }

  lemma ProposalOrdered(c: Cluster, i: string, command: Command)
    requires Workable(c) && Enabled(c, ClientProposes(i, command)) && LogsOrdered(c)
    ensures LogsOrdered(Next(c, ClientProposes(i, command)))
  {
    hide Workable, LogsOrdered;
    OrderedAt(c, i);
    OneNodeOrdered(c, Next(c, ClientProposes(i, command)), i);
  }

  lemma AppendOrdered(c: Cluster, peers: Peers, m: Message)
    requires Inv(c, peers) && Workable(c) && Enabled(c, DeliverAppend(m)) && MatchInv(c) && LogsOrdered(c)
    ensures LogsOrdered(Next(c, DeliverAppend(m)))
  {
    hide Workable, LogsOrdered, NodeOk, NodesOk, RolesOk, LogsOk, OnLeaderLogs, HandleAppend, LogsPromoted, ArgsOk,
         AcceptsAppend, MergedHist, OrderedWithin, KeepsOrCompacts, TermAt, SliceOf;
    var s := c.nodes[m.to];
    NodeMatches(c, peers, m.to);
    MessageFacts(c, m);
    AppendEffect(s, m.args);
    OrderedAt(c, m.to);
    LeaderLogOrdered(c, m.args.term);
    if AcceptsAppend(s, m.args) {
      MergedOrdered(c.leaderLog, s, m.args);
      OneNodeOrdered(c, Next(c, DeliverAppend(m)), m.to);
    } else {
      TermsGrow(s, HandleAppend(s, m.args), m.args.term);
      SameLogOrdered(c, Next(c, DeliverAppend(m)), m.to);
    }
  }

  lemma TermsGrow(s: Node, s': Node, term: nat)
    requires FollowsOrIgnores(s, s', term)
    ensures s.term <= s'.term
  {
  }

  lemma LeaderLogOrdered(c: Cluster, t: nat)
    requires LogsOrdered(c)
    ensures t in c.leaderLog ==> OrderedWithin(c.leaderLog[t], t)
  {
  }

  lemma MergedOrdered(logs: map<nat, seq<Entry>>, s: Node, m: AppendEntriesArgs)
    requires LogsOk(logs) && FromLeader(logs, m) && ArgsOk(m) && AcceptsAppend(s, m)
    requires OnLeaderLogs(logs, s.hist) && s.snapTerm == TermAt(s.hist, |s.snap|)
    requires OrderedWithin(s.hist, s.term) && OrderedWithin(logs[m.term], m.term)
    ensures OrderedWithin(MergedHist(s, m), m.term)
  {
    hide OnLeaderLogs, LogsOk, OrderedWithin, TermAt, MergedHist;
    MergedIsLeaderPrefix(logs, s, m);
    if |m.entries| > 0 {
      PrefixOrdered(logs[m.term], m.prevIndex + |m.entries|, m.term);
    } else {
      LaterTerm(s.hist, s.term, m.term);
    }
  }

  lemma SnapshotOrdered(c: Cluster, peers: Peers, m: Message)
    requires Inv(c, peers) && Workable(c) && Enabled(c, DeliverSnapshot(m)) && MatchInv(c) && LogsOrdered(c)
    requires SnapshotFits(c, DeliverSnapshot(m))
    ensures LogsOrdered(Next(c, DeliverSnapshot(m)))
  {
    hide ElectionSafety.Inv, Workable, LogsOrdered, OnLeaderLogs, HandleInstall, OrderedWithin, TailFits, MatchInv,
         TermAt;
    var s := c.nodes[m.to];
    NodeMatches(c, peers, m.to);
    OrderedAt(c, m.to);
    LeaderLogOrdered(c, m.term);
    if m.term >= s.term && |m.image| > |s.snap| {
      MatchParts(c);
      PrefixOnLogs(c.leaderLog, c.leaderLog[m.term], |m.image|) by { LogOnLogs(c.leaderLog, m.term); }
      assert c.leaderLog[m.term][..|m.image|] == m.image;
      PrefixOrdered(c.leaderLog[m.term], |m.image|, m.term);
      LaterTerm(s.hist, s.term, m.term);
      InstalledIsEither(c.leaderLog, s, m);
      OneNodeOrdered(c, Next(c, DeliverSnapshot(m)), m.to);
    } else {
      NotInstalled(s, m);
      SameLogOrdered(c, Next(c, DeliverSnapshot(m)), m.to);
    }
  }

  lemma LogOnLogs(logs: map<nat, seq<Entry>>, t: nat)
    requires LogsOk(logs) && t in logs
    ensures OnLeaderLogs(logs, logs[t])
  {
  }

  lemma NotInstalled(s: Node, m: Message)
    requires m.SnapshotRequest? && !(m.term >= s.term && |m.image| > |s.snap|)
    ensures var s' := HandleInstall(s, m.term, m.lastTerm, m.image); s'.hist == s.hist && s.term <= s'.term
  {
  }

  /** A snapshot that fits leaves the log as it was, or puts the image in its place. */
  lemma InstalledIsEither(logs: map<nat, seq<Entry>>, s: Node, m: Message)
    requires m.SnapshotRequest? && m.term >= s.term && |m.image| > |s.snap| && TailFits(s, m.image)
    requires OnLeaderLogs(logs, s.hist) && OnLeaderLogs(logs, m.image)
    ensures var s' := HandleInstall(s, m.term, m.lastTerm, m.image);
      s'.hist in {s.hist, m.image} && s'.term == m.term
  {
    if |m.image| < |s.hist| {
      AgreeUpTo(logs, s.hist, m.image, |m.image|);
      assert m.image + s.hist[|m.image|..] == s.hist;
    } else {
      assert m.image + [] == m.image;
    }
  }

  lemma SendOrdered(c: Cluster, e: Event)
    requires Workable(c) && Enabled(c, e) && LogsOrdered(c) && (e.SendTask? || e.OfferSnapshot? || e.SendProbe?)
    ensures LogsOrdered(Next(c, e))
  {
    hide Workable, TaskFor, OrderedWithin;
  }

  lemma StepOrdered(c: Cluster, peers: Peers, e: Event)
    requires Inv(c, peers) && Workable(c) && Enabled(c, e) && MatchInv(c) && LogsOrdered(c) && SnapshotFits(c, e)
    ensures LogsOrdered(Next(c, e))
  {
    hide ElectionSafety.Inv, Workable, Enabled, Next, MatchInv, LogsOrdered, SnapshotFits;
    match e {
      case BecomeLeader(i) => LeaderOrdered(c, peers, i);
      case ClientProposes(i, command) => ProposalOrdered(c, i, command);
      case DeliverAppend(m) => AppendOrdered(c, peers, m);
      case DeliverAppendReply(m) => ReplyOrdered(c, peers, m);
      case DeliverSnapshot(m) => SnapshotOrdered(c, peers, m);
      case SendTask(_, _) => SendOrdered(c, e);
      case OfferSnapshot(_, _) => SendOrdered(c, e);
      case SendProbe(_, _) => SendOrdered(c, e);
      case _ => QuietOrdered(c, peers, e);
    }
  }

  // ---- vote requests ------------------------------------------------------------------------------

  lemma StillAskedWith(logs: map<nat, seq<Entry>>, logs': map<nat, seq<Entry>>, vote: RequestVoteArgs)
    requires Grows(logs, logs') && exists h :: AskedWith(logs, vote, h)
    ensures exists h :: AskedWith(logs', vote, h)
  {
    var h :| AskedWith(logs, vote, h);
    GrowthKeeps(logs, logs', h);
    assert AskedWith(logs', vote, h);
  }

  /** The only vote requests an event sends are those of a node that stands for election, about its own log. */
  lemma NewRequests(c: Cluster, peers: Peers, e: Event, m: Message)
    requires Inv(c, peers) && Workable(c) && Enabled(c, e) && MatchInv(c) && LogsOrdered(c)
    requires m in Next(c, e).net && m !in c.net && m.VoteRequest?
    ensures e.Timeout? && e.i in c.nodes && AskedWith(c.leaderLog, m.vote, c.nodes[e.i].hist)
  {
    hide ElectionSafety.Inv, MatchInv, LogsOrdered, Workable, HandleAppend, HandleAppendReply, HandleInstall,
         HandleRequestVote, GrantsVote, Promote, CountedFor, AcceptsAppend, TaskFor, OnLeaderLogs, Shape, NodeOk;
    if e.Timeout? {
      NodeMatches(c, peers, e.i);
      OrderedAt(c, e.i);
      LastTermRead(c.nodes[e.i]);
    }
  }

  lemma LastTermRead(s: Node)
    requires Shape(s) && s.snapTerm == TermAt(s.hist, |s.snap|)
    ensures TermOf(s, |s.hist|) == LastTerm(s.hist) && StartElection(s).hist == s.hist
    ensures TermOf(StartElection(s), |s.hist|) == LastTerm(s.hist)
  {
  }

  lemma StepDescribes(c: Cluster, peers: Peers, e: Event)
    requires Inv(c, peers) && Workable(c) && Enabled(c, e) && MatchInv(c) && LogsOrdered(c) && RequestsDescribeLogs(c)
    requires OneLeaderPerTerm(Next(c, e))
    ensures RequestsDescribeLogs(Next(c, e))
  {
    hide ElectionSafety.Inv, Workable, Enabled, Next, MatchInv, LogsOrdered, AskedWith, OneLeaderPerTerm, Grows;
    LogsGrow(c, peers, e);
    var c' := Next(c, e);
    forall m | m in c'.net && m.VoteRequest? ensures exists h :: AskedWith(c'.leaderLog, m.vote, h) {
      if m !in c.net {
        NewRequests(c, peers, e, m);
        assert exists h :: AskedWith(c.leaderLog, m.vote, h);
      }
      StillAskedWith(c.leaderLog, c'.leaderLog, m.vote);
    }
  }

  // ---- runs -------------------------------------------------------------------------------------

  lemma StartsOrdered(c: Cluster, peers: Peers)
    requires Initial(c, peers)
    ensures LogsOrdered(c) && RequestsDescribeLogs(c)
  {
  }

  lemma {:induction false} RunIsOrdered(c: Cluster, peers: Peers, es: seq<Event>)
    requires Initial(c, peers) && Possible(c, es) && PeersFixed(es) && SnapshotsFit(c, es)
    requires OneLeaderPerTerm(After(c, es))
    ensures LogsOrdered(After(c, es)) && RequestsDescribeLogs(After(c, es))
    decreases |es|
  {
    hide Workable, Enabled, Next, FixedPeers, OneLeaderPerTerm, LogsOrdered, RequestsDescribeLogs, SnapshotFits,
         MatchInv, ElectionSafety.Inv;
    if |es| == 0 {
      StartsOrdered(c, peers);
    } else {
      hide Initial;
      var before, last := es[..|es| - 1], es[|es| - 1];
      EarlierLeaders(After(c, before), last);
      RunIsOrdered(c, peers, before);
      RunMatches(c, peers, before);
      StepOrdered(After(c, before), peers, last);
      StepDescribes(After(c, before), peers, last);
    }
  }

  /**
   * In every run with one leader per term and fitting snapshots: terms never decrease along a log, and whichever
   * vote request is delivered to whom, the candidate's log at the time it asked passes the voter's comparison
   * exactly if it ends in a later term than the voter's log or contains it.
   */
  lemma VotersCompareLogs(c: Cluster, peers: Peers, es: seq<Event>, m: Message) returns (h: seq<Entry>)
    requires Initial(c, peers) && Possible(c, es) && PeersFixed(es) && SnapshotsFit(c, es)
    requires OneLeaderPerTerm(After(c, es))
    requires m in After(c, es).net && m.VoteRequest? && m.to in After(c, es).nodes
    ensures forall i :: i in After(c, es).nodes ==> Ordered(After(c, es).nodes[i].hist)
    ensures Describes(m.vote, h) && Ordered(h)
    ensures var s := After(c, es).nodes[m.to];
      && |s.snap| <= |s.hist|
      && (LogUpToDate(s, m.vote.lastIndex, m.vote.lastTerm) <==> AtLeastAsUpToDate(h, s.hist))
      && (GrantsVote(s, m.vote) ==> AtLeastAsUpToDate(h, s.hist))
  {
    hide Initial, Possible, After, PeersFixed, SnapshotsFit, OneLeaderPerTerm, MatchInv, ElectionSafety.Inv,
         LogUpToDate, AtLeastAsUpToDate, Ordered, OnLeaderLogs;
    RunIsOrdered(c, peers, es);
    RunMatches(c, peers, es);
    var d := After(c, es);
    h :| AskedWith(d.leaderLog, m.vote, h);
    NodeMatches(d, peers, m.to);
    UpToDateIff(d.leaderLog, d.nodes[m.to], h);
  }
}
