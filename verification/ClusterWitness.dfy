/**
 * The hypotheses of election safety and log matching can be met: from a fresh cluster of any size a run to
 * which the theorems apply makes any node leader.
 */
module ClusterWitness {
  import opened Basics
  import opened RaftSpec
  import opened Cluster
  import opened ElectionSafety
  import opened LogMatching
  import opened ClusterRuns

  /** While nobody has followed anyone, no vote is given again, and no snapshot is installed. */
  lemma {:induction false} NobodyFollowed(c: Cluster, es: seq<Event>)
    requires Possible(c, es) && After(c, es).followed == {}
    ensures Disciplined(c, es) && SnapshotsFit(c, es)
    decreases |es|
  {
    hide Workable, Enabled, Next;
    if |es| > 0 {
      var before, last := es[..|es| - 1], es[|es| - 1];
      FollowingStays(After(c, before), last);
      NobodyFollowed(c, before);
    }
  }

  lemma FollowingStays(c: Cluster, e: Event)
    requires Workable(c) && Enabled(c, e) && Next(c, e).followed == {}
    ensures c.followed == {} && KeepsVote(c, e) && SnapshotFits(c, e)
  {
    hide HandleAppend, HandleInstall, HandleAppendReply, TaskFor, Promote, Propose, CountedFor, AcceptsAppend,
         GrantsVote;
    assert c.followed <= Next(c, e).followed;
  }

  /** In any fresh cluster a disciplined run makes any node leader. */
  lemma ALeaderCanBeElected(c: Cluster, peers: Peers, a: string) returns (es: seq<Event>, d: Cluster)
    requires Initial(c, peers) && a in peers
    ensures Possible(c, es) && PeersFixed(es) && Disciplined(c, es) && SnapshotsFit(c, es) && After(c, es) == d
    ensures a in d.nodes && d.nodes[a].role.Leader? && (1, a) in d.promoted
  {
    hide Possible, PeersFixed, Disciplined, SnapshotsFit, After, Blank, Untried, Willing;
    var others := peers.Keys - {a};
    assert |peers.Keys| == |peers| && |others| == |peers| - 1;
    ReachesItself(c);
    StartsBlank(c, peers);
    d := Elects(c, c, peers, a, others);
    es :| Possible(c, es) && PeersFixed(es) && After(c, es) == d;
    NobodyFollowed(c, es);
  }
}
