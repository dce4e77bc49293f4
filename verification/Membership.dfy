/** Cluster membership changes and the quorums in force while one is under way (section 6 of the Raft paper). */
module Membership {
  import opened Basics
  import opened GameFsm
  import opened RaftSpec
  import opened NodeRuns
  import opened CommitRules

  /** One configuration is the other with exactly one peer added or removed. */
  ghost predicate DifferByOne(a: Peers, b: Peers) {
    exists id :: (id !in a && b.Keys == a.Keys + {id}) || (id in a && b.Keys == a.Keys - {id})
  }

  /** During a transition the node already routes by the new configuration, one peer away from the old. */
  ghost predicate ConfigOk(s: Node) {
    s.joint.Joint? ==> s.peers == s.joint.after && DifferByOne(s.joint.before, s.joint.after)
  }

  lemma ApplyEntryKeepsConfig(s: Node, e: Entry)
    requires ConfigOk(s)
    ensures ConfigOk(ApplyEntry(s, e))
  {
    match e.command {
      case AddNode(id, address) =>
        if id !in s.peers {
          assert s.peers[id := address].Keys == s.peers.Keys + {id};
        }
      case RemoveNode(id) =>
        assert (s.peers - {id}).Keys == s.peers.Keys - {id};
      case _ =>
    }
  }

  lemma {:induction false} ApplyKeepsConfig(s: Node)
    requires ConfigOk(s)
    ensures ConfigOk(ApplyLoop(s))
    decreases s.commit - |s.applied|
  {
    if |s.applied| < s.commit && |s.applied| < |s.hist| {
      ApplyEntryKeepsConfig(s, s.hist[|s.applied|]);
      ApplyKeepsConfig(ApplyEntry(s, s.hist[|s.applied|]));
    }
  }

  /** Every operation of every run keeps the configuration well formed, whatever the log contains. */
  lemma StepKeepsConfig(r: Run, op: Op)
    requires Shape(r.node) && LeaderBounds(r.node) && ConfigOk(r.node)
    ensures ConfigOk(Next(r, op).node)
  {
    hide ApplyLoop, DifferByOne, TopCommit, Shape, Consistent, ProgressWithin, TermOf, LogUpToDate, GrantsVote;
    var s := r.node;
    match op {
      case Append(m) =>
        if AcceptsAppend(s, m) {
          ApplyKeepsConfig(MergeEntries(Adopt(s, m.term), m));
        }
      case Replied(m, peer, replyTerm, success) =>
        var top := m.prevIndex + |m.entries|;
        var s1 := s.(matched := s.matched[peer := top], next := s.next[peer := top + 1]);
        ApplyKeepsConfig(s1.(commit := TopCommit(s1, |s1.hist|)));
      case _ =>
    }
  }

  /** ... and so after every run, also one whose appends cut applied entries. */
  lemma {:induction false} RunsKeepConfig(r: Run, ops: seq<Op>)
    requires InBounds(r) && AnyRun(r, ops) && ConfigOk(r.node)
    ensures ConfigOk(AfterAny(r, ops).node)
    decreases |ops|
  {
    if |ops| > 0 {
      hide ConfigOk, InBounds, WellFormed, Next;
      StepStaysInBounds(r, ops[0]);
      InBoundsShape(r);
      StepKeepsConfig(r, ops[0]);
      RunsKeepConfig(Next(r, ops[0]), ops[1..]);
    }
  }

  lemma InBoundsShape(r: Run)
    requires InBounds(r)
    ensures Shape(r.node) && LeaderBounds(r.node)
  {
  }

  // ---- a whole change -------------------------------------------------------------------------------

  /** Committing a configuration ends the transition and leaves the peers as they are. */
  lemma CommitKeepsPeers(s: Node)
    requires ConfigOk(s)
    ensures var s' := ApplyMembership(s, CommitConfig); s'.peers == s.peers && s'.joint.NoJoint?
  {
  }

  /** A change is taken up exactly outside a transition, if it adds a new named peer or removes a present one. */
  lemma ChangeBeginsIff(s: Node, c: Command)
    requires c.AddNode? || c.RemoveNode?
    ensures ApplyMembership(s, c).joint != s.joint <==>
      && s.joint.NoJoint? && c.nodeId != ""
      && if c.AddNode? then c.address != "" && c.nodeId !in s.peers else c.nodeId in s.peers
    ensures ApplyMembership(s, c).joint == s.joint ==> ApplyMembership(s, c) == s
  {
  }

  function AppliedAll(s: Node, es: seq<Entry>): Node {
    if |es| == 0 then s else ApplyEntry(AppliedAll(s, es[..|es| - 1]), es[|es| - 1])
  }

  /** While a transition lasts, only COMMIT_CONFIG touches the configuration. */
  lemma {:induction false} TransitionLasts(s: Node, es: seq<Entry>)
    requires s.joint.Joint? && forall k :: 0 <= k < |es| ==> !es[k].command.CommitConfig?
    ensures AppliedAll(s, es) == s.(applied := s.applied + es)
  {
    if |es| == 0 {
      assert s.applied + es == s.applied;
    } else {
      var before, last := es[..|es| - 1], es[|es| - 1];
      TransitionLasts(s, before);
      TransitionIgnores(AppliedAll(s, before), last);
      assert es == before + [last];
    }
  }

  lemma TransitionIgnores(s: Node, e: Entry)
    requires s.joint.Joint? && !e.command.CommitConfig?
    ensures ApplyEntry(s, e) == s.(applied := s.applied + [e])
  {
  }

  /** The configuration a change asks for. */
  function Changed(peers: Peers, c: Command): Peers
    requires c.AddNode? || c.RemoveNode?
  {
    if c.AddNode? then peers[c.nodeId := c.address] else peers - {c.nodeId}
  }

  /** A peer's progress as the leader knows it, before and after. */
  predicate SameProgress(s: Node, s': Node, p: string) {
    && (p in s'.next <==> p in s.next) && (p in s.next && p in s'.next ==> s'.next[p] == s.next[p])
    && (p in s'.matched <==> p in s.matched) && (p in s.matched && p in s'.matched ==> s'.matched[p] == s.matched[p])
  }

  /** What a committed change leaves of a leader's bookkeeping: old peers as they were, a new one from the log's end. */
  predicate TracksChange(s: Node, s': Node, c: Command)
    requires c.AddNode? || c.RemoveNode?
  {
    && (forall p :: p in s.peers && p in s'.peers && p != c.nodeId ==> SameProgress(s, s', p))
    && (c.RemoveNode? ==> c.nodeId !in s'.next && c.nodeId !in s'.matched)
    && (c.AddNode? ==> c.nodeId in s'.next && s'.next[c.nodeId] == |s.hist| + 1
                       && c.nodeId in s'.matched && s'.matched[c.nodeId] == 0)
  }

  /** Nobody outside the new configuration stays in the leader's books, whatever late replies have put there. */
  lemma CommitForgetsOthers(s: Node)
    requires ConfigOk(s) && s.joint.Joint?
    ensures var s' := ApplyMembership(s, CommitConfig);
      && (forall p :: p in s'.peers ==> SameProgress(s, s', p))
      && (forall p :: p in s'.next ==> p in s'.peers)
      && (forall p :: p in s'.matched && p in s.next ==> p in s'.peers)
  {
  }

  lemma BegunAndCommitted(s: Node, c: Command)
    requires (c.AddNode? || c.RemoveNode?) && ApplyMembership(s, c).joint != s.joint
    ensures var s' := ApplyMembership(ApplyMembership(s, c), CommitConfig);
      && s'.peers == Changed(s.peers, c) && s'.joint.NoJoint? && (s.role.Leader? ==> TracksChange(s, s', c))
  {
  }

  lemma AppliedAside(s: Node, applied: seq<Entry>, c: Command)
    ensures ApplyMembership(s.(applied := applied), c) == ApplyMembership(s, c).(applied := applied)
  {
  }

  lemma AppliedOneMore(s: Node, es: seq<Entry>, e: Entry)
    ensures AppliedAll(s, es + [e]) == ApplyEntry(AppliedAll(s, es), e)
  {
    hide ApplyEntry;
    assert (es + [e])[..|es|] == es;
  }

  lemma AppliedOne(s: Node, e: Entry)
    ensures AppliedAll(s, [e]) == ApplyEntry(s, e)
  {
    hide ApplyEntry;
    assert [e][..0] == [];
  }

  /** What has been applied when a change has begun and more has followed. */
  lemma MeanwhileApplied(s: Node, e: Entry, between: seq<Entry>)
    requires ApplyMembership(s, e.command).joint.Joint?
    requires forall k :: 0 <= k < |between| ==> !between[k].command.CommitConfig?
    ensures AppliedAll(s, [e] + between)
      == ApplyMembership(s, e.command).(applied := s.applied + [e] + between)
  {
    hide ApplyMembership, AppliedAll;
    AppliedFrom(s, [e], between);
    AppliedOne(s, e);
    TransitionLasts(ApplyEntry(s, e), between);
  }

  lemma TakesEffect(s: Node, e: Entry, between: seq<Entry>, f: Entry)
    requires ApplyMembership(s, e.command).joint.Joint? && f.command.CommitConfig?
    requires forall k :: 0 <= k < |between| ==> !between[k].command.CommitConfig?
    ensures AppliedAll(s, [e] + between + [f])
      == ApplyMembership(ApplyMembership(s, e.command), CommitConfig).(applied := s.applied + [e] + between + [f])
  {
    hide ApplyMembership, AppliedAll;
    var s1, applied := ApplyMembership(s, e.command), s.applied + [e] + between;
    assert AppliedAll(s, [e] + between + [f]) == ApplyEntry(s1.(applied := applied), f) by {
      MeanwhileApplied(s, e, between);
      AppliedOneMore(s, [e] + between, f);
    }
    AppliedAside(s1, applied, CommitConfig);
  }

  /**
   * A change that begins and, whatever is applied in between, is committed: the configuration is the one asked
   * for, with no transition left, and a leader tracks its peers.
   */
  lemma WholeChange(s: Node, e: Entry, between: seq<Entry>, f: Entry)
    requires e.command.AddNode? || e.command.RemoveNode?
    requires ApplyMembership(s, e.command).joint != s.joint && f.command.CommitConfig?
    requires forall k :: 0 <= k < |between| ==> !between[k].command.CommitConfig?
    ensures var s' := AppliedAll(s, [e] + between + [f]);
      && s'.peers == Changed(s.peers, e.command) && s'.joint.NoJoint?
      && s'.applied == s.applied + [e] + between + [f]
      && (s.role.Leader? ==> TracksChange(s, s', e.command))
  {
    hide ApplyMembership, TracksChange, AppliedAll, Changed;
    BeginsJoint(s, e.command);
    TakesEffect(s, e, between, f);
    BegunAndCommitted(s, e.command);
    SameTracking(s, ApplyMembership(ApplyMembership(s, e.command), CommitConfig), e.command,
                 s.applied + [e] + between + [f]);
  }

  /** Until then, whatever else is applied, the new configuration is in use beside the old one and already tracked. */
  lemma ChangeTakesHold(s: Node, e: Entry, between: seq<Entry>)
    requires e.command.AddNode? || e.command.RemoveNode?
    requires ApplyMembership(s, e.command).joint != s.joint
    requires forall k :: 0 <= k < |between| ==> !between[k].command.CommitConfig?
    ensures var s' := AppliedAll(s, [e] + between);
      && s'.peers == Changed(s.peers, e.command) && s'.joint == Joint(s.peers, s'.peers)
      && (s.role.Leader? ==> TracksChange(s, s', e.command))
  {
    hide TracksChange, AppliedAll, ApplyMembership, Changed;
    BeginsJoint(s, e.command);
    MeanwhileApplied(s, e, between);
    Begun(s, e.command);
    SameTracking(s, ApplyMembership(s, e.command), e.command, s.applied + [e] + between);
  }

  lemma Begun(s: Node, c: Command)
    requires (c.AddNode? || c.RemoveNode?) && ApplyMembership(s, c).joint != s.joint
    ensures var s' := ApplyMembership(s, c);
      && s'.peers == Changed(s.peers, c) && s'.joint == Joint(s.peers, s'.peers)
      && (s.role.Leader? ==> TracksChange(s, s', c))
  {
  }

  lemma BeginsJoint(s: Node, c: Command)
    requires (c.AddNode? || c.RemoveNode?) && ApplyMembership(s, c).joint != s.joint
    ensures ApplyMembership(s, c).joint.Joint?
  {
  }

  lemma SameTracking(s: Node, s': Node, c: Command, applied: seq<Entry>)
    requires c.AddNode? || c.RemoveNode?
    ensures TracksChange(s, s', c) ==> TracksChange(s, s'.(applied := applied), c)
  {
  }

  lemma {:induction false} AppliedFrom(s: Node, es: seq<Entry>, more: seq<Entry>)
    ensures AppliedAll(s, es + more) == AppliedAll(AppliedAll(s, es), more)
  {
    if |more| == 0 {
      assert es + more == es;
    } else {
      hide ApplyEntry;
      assert (es + more)[..|es + more| - 1] == es + more[..|more| - 1];
      AppliedFrom(s, es, more[..|more| - 1]);
    }
  }

  // ---- commit quorums -------------------------------------------------------------------------

  predicate MajorityOf(q: set<string>, config: set<string>) {
    q <= config && 2 * |q| > |config|
  }

  /** Every peer whose acknowledgement counted towards committing the index. */
  function CommitVoters(s: Node, index: nat): set<string> {
    if s.joint.Joint? then Holders(s, index, s.joint.before) + Holders(s, index, s.joint.after)
    else Holders(s, index, s.peers)
  }

  /** Outside a transition a commit quorum is a majority of the configuration. */
  lemma StableQuorum(s: Node, index: nat)
    requires s.joint.NoJoint? && |s.peers| > 0 && QuorumMet(s, index)
    ensures MajorityOf(Holders(s, index, s.peers), s.peers.Keys)
    ensures Holders(s, index, s.peers) <= CommitVoters(s, index)
  {
    assert Voters(s, s.peers) == s.peers.Keys;
    assert |s.peers.Keys| == |s.peers|;
  }

  /** During a transition it contains a majority of the old configuration, pending peers or not. */
  lemma JointQuorum(s: Node, index: nat)
    requires s.joint.Joint? && |s.joint.before| > 0 && QuorumMet(s, index)
    ensures MajorityOf(Holders(s, index, s.joint.before), s.joint.before.Keys)
    ensures Holders(s, index, s.joint.before) <= CommitVoters(s, index)
  {
    assert Voters(s, s.joint.before) == s.joint.before.Keys;
    assert |s.joint.before.Keys| == |s.joint.before|;
  }

  /**
   * While a peer is being added, an index is committed by most of the old configuration alone as long as the
   * new peer has acknowledged nothing, and by most of both from then on.
   */
  lemma AddingQuorumIff(s: Node, i: nat, id: string, address: string)
    requires s.joint.Joint? && s.joint.after == s.joint.before[id := address] && id !in s.joint.before
    requires s.joint.before != map[]
    ensures QuorumMet(s, i) <==>
      && HeldByMost(s, i, s.joint.before)
      && (Lookup(s.matched, id) == 0 || HeldByMost(s, i, s.joint.after))
  {
    var before, after := s.joint.before, s.joint.after;
    assert after.Keys == before.Keys + {id} && |before.Keys| == |before| && |after.Keys| == |after|;
    assert Voters(s, before) == before.Keys && Holders(s, i, before) == Holding(s, i, before);
    if Lookup(s.matched, id) == 0 {
      assert Voters(s, after) == before.Keys && Holders(s, i, after) == Holding(s, i, before);
    } else {
      assert Voters(s, after) == after.Keys && Holders(s, i, after) == Holding(s, i, after);
    }
  }

  /** While one is being removed, by most of both. */
  lemma RemovingQuorumIff(s: Node, i: nat, id: string)
    requires s.joint.Joint? && s.joint.after == s.joint.before - {id} && id in s.joint.before
    ensures QuorumMet(s, i) <==>
      HeldByMost(s, i, s.joint.before) && (s.joint.after == map[] || HeldByMost(s, i, s.joint.after))
  {
    var before, after := s.joint.before, s.joint.after;
    assert |before.Keys| == |before| && |after.Keys| == |after|;
    assert Voters(s, before) == before.Keys && Holders(s, i, before) == Holding(s, i, before);
    assert Voters(s, after) == after.Keys && Holders(s, i, after) == Holding(s, i, after);
  }

  /** Majorities of one configuration, or of two that differ by one peer, meet. */
  lemma MajoritiesMeet(p: set<string>, q: set<string>, a: Peers, b: Peers)
    requires MajorityOf(p, a.Keys) && MajorityOf(q, b.Keys)
    requires a.Keys == b.Keys || DifferByOne(a, b)
    ensures p * q != {}
  {
    var all := a.Keys + b.Keys;
    if a.Keys != b.Keys {
      KeysDiffer(a, b);
    }
    UnionSize(a.Keys, b.Keys);
    var x := QuorumsMeet(p, q, all);
    assert x in p * q;
  }

  lemma OneMore(s: set<string>, t: set<string>, id: string)
    requires id !in s && t == s + {id}
    ensures |t| == |s| + 1 && s + t == t && t + s == t
  {
  }

  lemma UnionSize(s: set<string>, t: set<string>)
    requires s == t || exists id :: (id !in s && t == s + {id}) || (id !in t && s == t + {id})
    ensures 2 * |s + t| <= |s| + |t| + 1
  {
    if s == t {
      assert s + t == s;
    } else {
      var id :| (id !in s && t == s + {id}) || (id !in t && s == t + {id});
      if id !in s {
        OneMore(s, t, id);
      } else {
        OneMore(t, s, id);
      }
    }
  }

  lemma KeysDiffer(a: Peers, b: Peers)
    requires DifferByOne(a, b)
    ensures exists id :: (id !in a.Keys && b.Keys == a.Keys + {id}) || (id !in b.Keys && a.Keys == b.Keys + {id})
  {
    var id :| (id !in a && b.Keys == a.Keys + {id}) || (id in a && b.Keys == a.Keys - {id});
    if id in a {
      assert a.Keys == b.Keys + {id};
    }
  }

  /** The node works under the old configuration, the transition, or the new configuration. */
  predicate Within(s: Node, before: Peers, after: Peers) {
    if s.joint.Joint? then s.joint == Joint(before, after)
    else s.peers == before || s.peers == after
  }

  /**
   * Two nodes anywhere in the same membership change never commit through disjoint sets of peers: not before
   * and during it, not during and after it, not before and after it, however many peers each leaves out as pending.
   */
  lemma CommitQuorumsMeet(s: Node, i: nat, t: Node, j: nat, before: Peers, after: Peers)
    requires DifferByOne(before, after) && |before| > 0 && |after| > 0
    requires Within(s, before, after) && Within(t, before, after)
    requires QuorumMet(s, i) && QuorumMet(t, j)
    ensures CommitVoters(s, i) * CommitVoters(t, j) != {}
  {
    hide QuorumMet, CommitVoters, Holders, DifferByOne;
    var p, a := QuorumCore(s, i, before, after);
    var q, b := QuorumCore(t, j, before, after);
    if a != b {
      DifferSymmetric(before, after);
    }
    MajoritiesMeet(p, q, a, b);
    assert p * q <= CommitVoters(s, i) * CommitVoters(t, j);
  }

  /** The majority inside a commit quorum, and the configuration it is a majority of. */
  lemma QuorumCore(s: Node, i: nat, before: Peers, after: Peers) returns (q: set<string>, config: Peers)
    requires |before| > 0 && |after| > 0 && Within(s, before, after) && QuorumMet(s, i)
    ensures config == before || config == after
    ensures MajorityOf(q, config.Keys) && q <= CommitVoters(s, i)
  {
    if s.joint.Joint? {
      JointQuorum(s, i);
      return Holders(s, i, before), before;
    } else {
      StableQuorum(s, i);
      return Holders(s, i, s.peers), s.peers;
    }
  }

  lemma DifferSymmetric(a: Peers, b: Peers)
    requires DifferByOne(a, b)
    ensures DifferByOne(b, a)
  {
    var id :| (id !in a && b.Keys == a.Keys + {id}) || (id in a && b.Keys == a.Keys - {id});
    if id !in a {
      assert a.Keys == b.Keys - {id};
    } else {
      assert a.Keys == b.Keys + {id};
    }
  }

  /** Two nodes anywhere in this membership change always commit through a common peer. */
  ghost predicate QuorumsAlwaysMeet(before: Peers, after: Peers) {
    forall s, i, t, j | Within(s, before, after) && Within(t, before, after) && QuorumMet(s, i) && QuorumMet(t, j) ::
      CommitVoters(s, i) * CommitVoters(t, j) != {}
  }

  /** Removing the last peer leaves a configuration that commits with no acknowledgement at all. */
  lemma EmptyConfigurationCommitsAlone(s: Node, index: nat)
    requires s.joint.NoJoint? && s.peers == map[]
    ensures QuorumMet(s, index) && CommitVoters(s, index) == {}
  {
  }

  /** They do exactly when neither the old nor the new configuration is empty. */
  lemma CommitQuorumsMeetIff(before: Peers, after: Peers)
    requires DifferByOne(before, after)
    ensures QuorumsAlwaysMeet(before, after) <==> before != map[] && after != map[]
  {
    hide QuorumMet, CommitVoters, DifferByOne;
    if before != map[] && after != map[] {
      forall s, i, t, j | Within(s, before, after) && Within(t, before, after) && QuorumMet(s, i) && QuorumMet(t, j)
        ensures CommitVoters(s, i) * CommitVoters(t, j) != {}
      {
        CommitQuorumsMeet(s, i, t, j, before, after);
      }
    } else {
      var s := Fresh("", map[], 0);
      EmptyConfigurationCommitsAlone(s, 0);
      assert Within(s, before, after);
      assert CommitVoters(s, 0) * CommitVoters(s, 0) == {};
    }
  }

  // ---- elections during a transition ----------------------------------------------------------

  /** The candidate's own vote and those of the new configuration's peers, counted against the old one's majority. */
  predicate WinsElection(candidate: string, votes: set<string>, before: Peers, after: Peers) {
    candidate in votes && votes - {candidate} <= after.Keys && |votes| >= |before| / 2 + 1
  }

  /** Whichever peers of either configuration stand, two elections share a voter. */
  ghost predicate ElectionsAlwaysMeet(before: Peers, after: Peers) {
    forall x, v, y, w | x in before.Keys + after.Keys && y in before.Keys + after.Keys
                        && WinsElection(x, v, before, after) && WinsElection(y, w, before, after) ::
      v * w != {}
  }

  lemma {:induction false} SubsetOfSize(s: set<string>, n: nat) returns (t: set<string>)
    requires n <= |s|
    ensures t <= s && |t| == n
    decreases n
  {
    if n == 0 {
      t := {};
    } else {
      var x :| x in s;
      t := SubsetOfSize(s - {x}, n - 1);
      t := t + {x};
    }
  }

  lemma Halves(all: set<string>, n: nat) returns (v: set<string>, w: set<string>)
    requires |all| == 2 * n
    ensures v <= all && w <= all && v * w == {} && |v| == |w| == n
  {
    v := SubsetOfSize(all, n);
    w := all - v;
  }

  /** An old configuration of odd size, and one peer more: two candidates can win half of them each. */
  lemma DisjointElections(before: Peers, after: Peers)
    requires |after.Keys| == |before| + 1 && |before| % 2 == 1
    ensures !ElectionsAlwaysMeet(before, after)
  {
    var n := |before| / 2 + 1;
    var v, w := Halves(after.Keys, n);
    var x :| x in v;
    var y :| y in w;
    assert WinsElection(x, v, before, after) && WinsElection(y, w, before, after);
  }

  /** All voters and candidates belong to `all`, of which an old majority is more than half. */
  lemma ElectionsMeet(before: Peers, after: Peers, all: set<string>)
    requires before.Keys <= all && after.Keys <= all && |all| < 2 * (|before| / 2 + 1)
    ensures ElectionsAlwaysMeet(before, after)
  {
    forall x, v, y, w | x in before.Keys + after.Keys && y in before.Keys + after.Keys
                        && WinsElection(x, v, before, after) && WinsElection(y, w, before, after)
      ensures v * w != {}
    {
      VotersWithin(x, v, before, after, all);
      VotersWithin(y, w, before, after, all);
      var z := QuorumsMeet(v, w, all);
      assert z in v * w;
    }
  }

  lemma VotersWithin(x: string, v: set<string>, before: Peers, after: Peers, all: set<string>)
    requires before.Keys <= all && after.Keys <= all
    requires x in before.Keys + after.Keys && WinsElection(x, v, before, after)
    ensures v <= all
  {
  }

  /**
   * While a peer is being added, two elections always share a voter exactly when the old configuration had an
   * even number of peers; while one is being removed, they always do, even if the one removed stands.
   */
  lemma JointElectionsMeetIff(before: Peers, after: Peers)
    requires DifferByOne(before, after)
    ensures ElectionsAlwaysMeet(before, after) <==> |after| < |before| || |before| % 2 == 0
  {
    hide ElectionsAlwaysMeet;
    assert |before| == |before.Keys| && |after| == |after.Keys|;
    var id :| (id !in before && after.Keys == before.Keys + {id}) || (id in before && after.Keys == before.Keys - {id});
    if id in before {
      ElectionsMeet(before, after, before.Keys);
    } else if |before| % 2 == 0 {
      ElectionsMeet(before, after, after.Keys);
    } else {
      DisjointElections(before, after);
    }
  }

  /** What a candidate's own count amounts to. */
  lemma ElectionCountsOldMajority(s: Node, votes: set<string>)
    requires ConfigOk(s) && s.joint.Joint? && s.id in votes && votes - {s.id} <= s.peers.Keys
    ensures |votes| >= ElectionMajority(s) <==> WinsElection(s.id, votes, s.joint.before, s.joint.after)
  {
  }
}
