/**
 * What is committed when: a leader by counting copies of an entry of its own term (section 5.4.2 of the Raft
 * paper), a follower by what its leader tells it, a node that installs a snapshot by what it stands for.
 */
module CommitRules {
  import opened Basics
  import opened GameFsm
  import opened FsmCodec
  import opened RaftSpec
  import opened NodeRuns

  // ---- leaders ------------------------------------------------------------------------------------

  /** The peers of a configuration known to hold the index, the node itself included. */
  function Holding(s: Node, i: nat, config: Peers): set<string> {
    set p | p in config && (p == s.id || Lookup(s.matched, p) >= i)
  }

  predicate HeldByMost(s: Node, i: nat, config: Peers) {
    2 * |Holding(s, i, config)| > |config|
  }

  /** An entry of the node's own term that more than half of its peers hold. */
  predicate OwnAndHeld(s: Node, i: nat) {
    1 <= i <= |s.hist| && s.hist[i - 1].term == s.term && HeldByMost(s, i, s.peers)
  }

  lemma CommittableIff(s: Node, i: nat)
    requires Shape(s) && s.snapTerm == TermAt(s.hist, |s.snap|) && s.joint.NoJoint? && s.peers != map[] && i >= 1
    ensures Committable(s, i) <==> |s.snap| <= i && OwnAndHeld(s, i)
  {
    assert Voters(s, s.peers) == s.peers.Keys && Holders(s, i, s.peers) == Holding(s, i, s.peers);
    assert |s.peers.Keys| == |s.peers|;
  }

  lemma AdvanceSetsCommit(s: Node)
    requires |s.snap| <= |s.hist|
    ensures AdvanceCommit(s).commit == TopCommit(s, |s.hist|)
    ensures AdvanceCommit(s).hist == s.hist && AdvanceCommit(s).term == s.term && AdvanceCommit(s).role == s.role
  {
    hide ApplyLoop, Compact, TopCommit;
  }

  /**
   * Outside a transition the commit index only grows, to the last uncompacted index of the leader's own term
   * that more than half of the peers hold; if there is none above it, it stays.
   */
  lemma LeaderCommitRule(s: Node)
    requires Shape(s) && s.snapTerm == TermAt(s.hist, |s.snap|) && s.joint.NoJoint? && s.peers != map[]
    ensures var c := AdvanceCommit(s).commit;
      && c >= s.commit
      && (c > s.commit ==> |s.snap| <= c && OwnAndHeld(s, c))
      && forall i :: c < i && |s.snap| <= i ==> !OwnAndHeld(s, i)
  {
    hide AdvanceCommit, Committable, OwnAndHeld;
    AdvanceSetsCommit(s);
    var c := TopCommit(s, |s.hist|);
    if c > s.commit {
      CommittableIff(s, c);
    }
    forall i | c < i && |s.snap| <= i ensures !OwnAndHeld(s, i) {
      CommittableIff(s, i);
      BeyondIsNotHeld(s, i);
    }
  }

  lemma BeyondIsNotHeld(s: Node, i: nat)
    ensures i > |s.hist| ==> !OwnAndHeld(s, i)
  {
  }

  /** The leader's books after a peer has stored everything up to the given index. */
  function Acknowledged(s: Node, peer: string, top: nat): Node {
    s.(matched := s.matched[peer := top], next := s.next[peer := top + 1])
  }

  /**
   * So with every acknowledgement of its own term a leader commits at once all that its books then allow, and
   * applies it; a reply that comes to another term, or to a node that does not lead, commits nothing.
   */
  lemma ReplyCommitRule(s: Node, term: nat, peer: string, m: AppendEntriesArgs, replyTerm: nat)
    requires Shape(s) && s.snapTerm == TermAt(s.hist, |s.snap|) && s.joint.NoJoint? && replyTerm <= s.term
    ensures var s' := HandleAppendReply(s, term, peer, m, replyTerm, true);
      if s.role.Leader? && s.term == term then
        s.peers != map[] ==>
          var known := Acknowledged(s, peer, m.prevIndex + |m.entries|);
          && s'.commit >= s.commit
          && (s'.commit > s.commit ==>
               |s.snap| <= s'.commit && OwnAndHeld(known, s'.commit) && |s'.applied| == Max(|s.applied|, s'.commit))
          && forall i :: s'.commit < i && |s.snap| <= i ==> !OwnAndHeld(known, i)
      else s' == s
  {
    hide OwnAndHeld, AdvanceCommit, Indexed, TermAt;
    var known := Acknowledged(s, peer, m.prevIndex + |m.entries|);
    if s.role.Leader? && s.term == term && s.peers != map[] {
      LeaderCommitRule(known);
      AdvanceApplies(known);
    }
  }

  lemma AdvanceApplies(s: Node)
    requires |s.snap| <= |s.hist|
    ensures var s' := AdvanceCommit(s);
      s'.commit > s.commit ==> s'.commit <= |s.hist| && |s'.applied| == Max(|s.applied|, s'.commit)
  {
    hide ApplyCommitted;
    AppliesUpTo(s.(commit := TopCommit(s, |s.hist|)));
  }

  /** Transition or not, the entry at a newly reached commit index is of the leader's own term. */
  lemma CommitsOwnTerm(s: Node)
    requires Shape(s) && s.snapTerm == TermAt(s.hist, |s.snap|) && AdvanceCommit(s).commit > s.commit
    ensures var c := AdvanceCommit(s).commit; 1 <= c <= |s.hist| && s.hist[c - 1].term == s.term
  {
    hide AdvanceCommit;
    AdvanceSetsCommit(s);
  }

  /** In every run, whenever a node that leads raises its commit index, the entry there is of its own term. */
  lemma LeadersCommitOwnTerm(r: Run, ops: seq<Op>, op: Op)
    requires Sound(r) && Legal(r, ops) && Admissible(After(r, ops), op)
    requires var s, s' := After(r, ops).node, Next(After(r, ops), op).node; s'.role.Leader? && s'.commit > s.commit
    ensures var s' := Next(After(r, ops), op).node;
      1 <= s'.commit <= |s'.hist| && s'.hist[s'.commit - 1].term == s'.term
  {
    hide Legal, After, Admissible, AdvanceCommit, HandleAppend, LogUpToDate, GrantsVote, Sound;
    var s := After(r, ops).node;
    SoundTerm(After(r, ops));
    match op {
      case Append(m) => AppendMakesFollower(s, m);
      case Replied(m, peer, _, _) =>
        var top := m.prevIndex + |m.entries|;
        var s1 := s.(matched := s.matched[peer := top], next := s.next[peer := top + 1]);
        AdvanceSetsCommit(s1);
        CommitsOwnTerm(s1);
      case _ =>
    }
  }

  lemma SoundTerm(r: Run)
    requires Sound(r)
    ensures Shape(r.node) && LeaderBounds(r.node) && r.node.snapTerm == TermAt(r.node.hist, |r.node.snap|)
  {
  }

  /**
   * A new leader's first message to every peer is a heartbeat at the end of its log that passes its commit
   * index on; by itself it can commit only in a cluster of one.
   */
  lemma FreshLeader(s: Node, peer: string)
    requires Shape(s) && s.role.Candidate? && s.snapTerm == TermAt(s.hist, |s.snap|) && peer in s.peers && peer != s.id
    ensures var l := Promote(s, s.term);
      && LeaderBounds(l) && l.next.Keys == l.matched.Keys == s.peers.Keys - {s.id}
      && TaskFor(l, peer) == SendEntries(
           AppendEntriesArgs(s.term, s.id, |s.hist|, TermAt(s.hist, |s.hist|), [], s.commit))
      && forall i :: OwnAndHeld(l, i) ==> |s.peers| <= 1
  {
    hide OwnAndHeld, Promote, Uniform, LeaderBounds, TermAt, Indexed;
    FreshBooks(s);
    FreshHeartbeat(Promote(s, s.term), peer);
    forall i | OwnAndHeld(Promote(s, s.term), i) ensures |s.peers| <= 1 {
      NobodyHolds(s, i);
    }
  }

  lemma FreshBooks(s: Node)
    requires s.role.Candidate?
    ensures var l := Promote(s, s.term);
      && l == s.(role := Leader, next := l.next, matched := l.matched)
      && l.next.Keys == l.matched.Keys == s.peers.Keys - {s.id} && LeaderBounds(l)
      && forall p :: p in l.next ==> l.next[p] == |s.hist| + 1
  {
  }

  lemma FreshHeartbeat(l: Node, peer: string)
    requires Shape(l) && l.snapTerm == TermAt(l.hist, |l.snap|) && peer in l.next && l.next[peer] == |l.hist| + 1
    ensures TaskFor(l, peer)
      == SendEntries(AppendEntriesArgs(l.term, l.id, |l.hist|, TermAt(l.hist, |l.hist|), [], l.commit))
  {
    hide Indexed;
    assert l.hist[|l.hist|..] == [];
  }

  lemma NobodyHolds(s: Node, i: nat)
    requires s.role.Candidate? && OwnAndHeld(Promote(s, s.term), i)
    ensures |s.peers| <= 1
  {
    SubsetSize(Holding(Promote(s, s.term), i, s.peers), {s.id});
  }

  /** Votes counted in one term promote nobody in another, and nobody who is not standing. */
  lemma PromotedIff(s: Node, term: nat)
    ensures Promote(s, term) != s <==> s.role.Candidate? && s.term == term
    ensures Promote(s, term).term == s.term && Promote(s, term).hist == s.hist
  {
  }

  /** Commands are taken by leaders alone, as one entry of their term at the end of their log. */
  lemma ProposedIff(s: Node, c: Command)
    requires Shape(s)
    ensures Propose(s, c) != s <==> s.role.Leader?
    ensures Propose(s, c) != s ==>
      && s.hist < Propose(s, c).hist && |Propose(s, c).hist| == |s.hist| + 1 && Shape(Propose(s, c))
      && Propose(s, c).hist[|s.hist|] == Entry(|s.hist| + 1, s.term, c)
  {
    assert s.role.Leader? ==> |Propose(s, c).hist| == |s.hist| + 1;
  }

  // ---- followers ----------------------------------------------------------------------------------

  /** How far a follower has applied: to its commit index or the end of its log, or not at all. */
  lemma AppliesUpTo(s: Node)
    ensures var s' := ApplyCommitted(s);
      && s'.commit == s.commit && s'.hist == s.hist
      && |s'.applied| == Max(|s.applied|, Min(s.commit, |s.hist|))
      && (s.applied <= s.hist ==> s'.applied == s.hist[..|s'.applied|])
  {
    hide ApplyLoop, Encodable;
    ApplyLoopRunsAhead(s);
    if s.applied <= s.hist && |s.applied| < Min(s.commit, |s.hist|) {
      assert s.hist[..|s.applied|] + s.hist[|s.applied|..Min(s.commit, |s.hist|)] == s.hist[..Min(s.commit, |s.hist|)];
    }
  }

  /**
   * Every accepted message, heartbeats included, brings the follower's commit index up to the leader's, as far
   * as the follower's log reaches, and everything committed is applied. The commit index goes back exactly
   * where the message cuts the log below it and commits beyond it.
   */
  lemma FollowerCommitRule(s: Node, m: AppendEntriesArgs)
    requires AcceptsAppend(s, m)
    ensures var s' := HandleAppend(s, m);
      && (s'.commit == Max(s.commit, Min(m.leaderCommit, |s'.hist|)) <==> !(m.leaderCommit > s.commit > |s'.hist|))
      && (s'.commit < s.commit <==> m.leaderCommit > s.commit > |s'.hist|)
      && s'.commit >= Min(m.leaderCommit, |s'.hist|)
      && |s'.applied| == Max(|s.applied|, Min(s'.commit, |s'.hist|))
      && (s.applied <= s'.hist ==> s'.applied == s'.hist[..|s'.applied|])
  {
    hide ApplyCommitted, MergedHist;
    AppliesUpTo(MergeEntries(Adopt(s, m.term), m));
  }

  /** A message that is not accepted commits and applies nothing. */
  lemma RejectedCommitsNothing(s: Node, m: AppendEntriesArgs)
    requires !AcceptsAppend(s, m)
    ensures HandleAppend(s, m).commit == s.commit && HandleAppend(s, m).applied == s.applied
    ensures HandleAppend(s, m).hist == s.hist
  {
  }

  /** Entries are stored as sent, a missing term or index filled in: exactly those numbered so are numbered in order. */
  lemma StoredInOrderIff(m: AppendEntriesArgs)
    ensures WellIndexed(m) <==> forall i :: 0 <= i < |m.entries| ==> m.entries[i].index in {0, m.prevIndex + 1 + i}
    ensures forall i :: 0 <= i < |m.entries| ==> var e, sent := EntriesFromArgs(m)[i], m.entries[i];
      && e.command == sent.command && (e.term == sent.term || (sent.term == 0 && e.term == m.term))
      && (m.term >= 1 ==> e.term >= 1)
  {
    var es := EntriesFromArgs(m);
    if WellIndexed(m) {
      forall i | 0 <= i < |m.entries| ensures m.entries[i].index in {0, m.prevIndex + 1 + i} {
        assert es[i].index == m.prevIndex + 1 + i;
      }
    }
  }

  // ---- snapshots ----------------------------------------------------------------------------------

  /**
   * After whatever has been applied a snapshot of all of it is taken exactly when the log has reached the
   * threshold, there is something new to cover, and it can be encoded.
   */
  lemma SnapshotTakenIff(s: Node)
    requires Consistent(s)
    ensures var s' := ApplyCommitted(s);
      && (s'.snap == s.snap || s'.snap == s'.applied)
      && (s'.snap != s.snap <==>
           && |s.hist| - |s.snap| >= s.threshold && |s'.applied| > |s.snap| && Encodable(Replay(s'.applied)))
      && |s'.snap| <= |s.hist| && s'.snapTerm == TermAt(s.hist, |s'.snap|)
  {
    hide ApplyLoop, Encodable;
    AppliesUpTo(s);
  }

  /**
   * What installing does to the indices: the commit index is left behind what is applied exactly when it was
   * below the image, and what is applied goes back exactly when the image is shorter.
   */
  lemma InstallMovesIndices(s: Node, term: nat, lastTerm: nat, image: seq<Entry>)
    requires term >= s.term && |image| > |s.snap|
    ensures var s' := HandleInstall(s, term, lastTerm, image);
      && s'.commit <= |s'.applied| && s'.commit <= s.commit
      && (s'.commit < |s'.applied| <==> s.commit < |image|)
      && (s'.commit < s.commit <==> |image| < s.commit)
      && (|s'.applied| < |s.applied| <==> |image| < |s.applied|)
  {
  }
}
