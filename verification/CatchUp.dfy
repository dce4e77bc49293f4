/**
 * Replication catches up: a leader whose log stays as it is, repeating what collectReplicationTasks,
 * AppendEntries, handleAppendEntriesReply and InstallSnapshot do for one peer, brings that peer's log up
 * to its own exactly when nextIndex lies past both snapshots, its own and the peer's.
 */
module CatchUp {
  import opened Basics
  import opened GameFsm
  import opened RaftSpec
  import opened CommitRules

  /** A leader's log as runs build it, its snapshot part of it, with no membership command left to apply. */
  predicate Steady(l: Node) {
    && l.role.Leader? && Shape(l) && LeaderBounds(l) && l.snap <= l.hist
    && l.snapTerm == TermAt(l.hist, |l.snap|)
    && (forall k :: 0 <= k < |l.hist| ==> l.hist[k].term >= 1)
    && (forall k :: |l.applied| <= k < |l.hist| ==> !IsMembership(l.hist[k].command))
  }

  /** The follower is in no later term, and its snapshot ends within the leader's log, in the same term. */
  predicate Follows(l: Node, f: Node) {
    && Shape(f) && f.term <= l.term
    && f.snapTerm == TermAt(f.hist, |f.snap|)
    && LogsMatch(l.hist, f.hist)
    && |f.snap| <= |l.hist| && f.snapTerm == TermAt(l.hist, |f.snap|)
  }

  predicate CaughtUp(l: Node, f: Node, peer: string) {
    && l.hist <= f.hist
    && Lookup(l.matched, peer) == |l.hist| && Lookup(l.next, peer) == |l.hist| + 1
  }

  /** The follower receives the leader's latest snapshot, if there is one; the leader ignores the reply. */
  function Snapshotted(l: Node, f: Node): Node {
    if |l.snap| == 0 then f else HandleInstall(f, l.term, l.snapTerm, l.snap)
  }

  /**
   * One exchange: a message is prepared, delivered, and its reply delivered. The leader sends its snapshot
   * instead of entries it no longer has, and after a rejection that leaves it nothing earlier to offer.
   */
  function Round(l: Node, f: Node, peer: string): (r: (Node, Node))
    requires Shape(l) && LeaderBounds(l)
  {
    match TaskFor(l, peer)
    case SendSnapshot => (l, Snapshotted(l, f))
    case SendEntries(m) =>
      var f' := HandleAppend(f, m);
      var accepted := AcceptsAppend(f, m);
      var l' := HandleAppendReply(l, l.term, peer, m, f'.term, accepted);
      (l', if !accepted && l'.role.Leader? && Lookup(l.next, peer) <= |l.snap| + 1 then Snapshotted(l, f') else f')
  }

  /** Below this no entry can be taken over: either side's snapshot may be the obstacle. */
  function Floor(l: Node, f: Node): nat {
    Max(|l.snap|, |f.snap|)
  }

  /** One round for each index down to the floor, and one more if the follower needs the leader's snapshot. */
  function RoundsNeeded(l: Node, f: Node, peer: string): nat
    requires Floor(l, f) < Lookup(l.next, peer)
  {
    Lookup(l.next, peer) - Floor(l, f) + (if |f.snap| < |l.snap| then 1 else 0)
  }

  // ---- an accepted message ----------------------------------------------------------------------

  lemma FreshEntries(l: Node, m: AppendEntriesArgs)
    requires Steady(l) && m.prevIndex <= |l.hist| && m.entries == l.hist[m.prevIndex..]
    ensures EntriesFromArgs(m) == m.entries
  {
    forall i | 0 <= i < |m.entries| ensures EntriesFromArgs(m)[i] == m.entries[i] {
      assert m.entries[i] == l.hist[m.prevIndex + i];
    }
  }

  /** Where the follower's log agrees with the leader's, a message from there on makes it cover the leader's. */
  lemma MergeCovers(l: Node, f: Node, m: AppendEntriesArgs)
    requires Steady(l) && LogsMatch(l.hist, f.hist)
    requires m.prevIndex <= |l.hist| && m.prevIndex <= |f.hist| && m.entries == l.hist[m.prevIndex..]
    requires TermAt(l.hist, m.prevIndex) == TermAt(f.hist, m.prevIndex)
    ensures l.hist <= MergedHist(f, m)
  {
    var p := m.prevIndex;
    FreshEntries(l, m);
    assert l.hist[..p] == f.hist[..p] by {
      if p > 0 {
        assert l.hist[..(p - 1) + 1] == f.hist[..(p - 1) + 1];
      }
    }
    assert l.hist == l.hist[..p] + l.hist[p..];
  }

  /** Applying entries that change no configuration leaves a leader's bookkeeping alone. */
  lemma {:induction false} CalmApply(s: Node)
    requires forall k :: |s.applied| <= k < |s.hist| ==> !IsMembership(s.hist[k].command)
    ensures ApplyLoop(s) == s.(applied := ApplyLoop(s).applied)
    decreases s.commit - |s.applied|
  {
    if |s.applied| < s.commit && |s.applied| < |s.hist| {
      CalmApply(ApplyEntry(s, s.hist[|s.applied|]));
    }
  }

  lemma CalmAdvance(s: Node)
    requires Shape(s)
    requires forall k :: |s.applied| <= k < |s.hist| ==> !IsMembership(s.hist[k].command)
    ensures var s' := AdvanceCommit(s); s'.hist == s.hist && s'.next == s.next && s'.matched == s.matched
  {
    hide TopCommit;
    CalmApply(s.(commit := TopCommit(s, |s.hist|)));
  }

  lemma MergeSets(s: Node, f: Node, m: AppendEntriesArgs)
    requires s.hist == f.hist && m.prevIndex <= |s.hist|
    ensures var s' := ApplyCommitted(MergeEntries(s, m)); s'.hist == MergedHist(f, m) && s'.term == s.term
  {
  }

  lemma AcceptedRound(l: Node, f: Node, peer: string)
    requires Steady(l) && Follows(l, f) && |l.snap| < Lookup(l.next, peer)
    requires var m := TaskFor(l, peer).args; AcceptsAppend(f, m)
    ensures var (l', f') := Round(l, f, peer); CaughtUp(l', f', peer) && l'.hist == l.hist
  {
    hide AdvanceCommit, ApplyCommitted, MergeEntries, MergedHist, LogsMatch, TermAt;
    var m := TaskFor(l, peer).args;
    TaskCovers(l, f, peer);
    MergeSets(Adopt(f, m.term), f, m);
    var top := m.prevIndex + |m.entries|;
    CalmAdvance(l.(matched := l.matched[peer := top], next := l.next[peer := top + 1]));
  }

  lemma TaskCovers(l: Node, f: Node, peer: string)
    requires Steady(l) && Follows(l, f) && |l.snap| < Lookup(l.next, peer)
    requires var m := TaskFor(l, peer).args; AcceptsAppend(f, m)
    ensures var m := TaskFor(l, peer).args;
      && l.hist <= MergedHist(f, m) && m.prevIndex + |m.entries| == |l.hist| && m.term == l.term
  {
    hide MergedHist, LogsMatch;
    MergeCovers(l, f, TaskFor(l, peer).args);
  }

  /** Everything the leader has committed of its log, the follower has applied. */
  predicate Informed(l: Node, f: Node) {
    l.hist[..Min(l.commit, |l.hist|)] <= f.applied
  }

  /** The message that is accepted tells the follower how far it may apply. */
  lemma AcceptedInforms(l: Node, f: Node, peer: string)
    requires Steady(l) && Follows(l, f) && |l.snap| < Lookup(l.next, peer)
    requires var m := TaskFor(l, peer).args; AcceptsAppend(f, m)
    ensures var f' := Round(l, f, peer).1;
      && l.hist <= f'.hist && f'.commit >= Min(l.commit, |l.hist|) && |f'.applied| >= Min(l.commit, |l.hist|)
      && (f.applied <= l.hist ==> Informed(l, f'))
  {
    hide HandleAppend, AcceptsAppend, MergedHist, LogsMatch, HandleAppendReply, TermOf;
    var m := TaskFor(l, peer).args;
    TaskCovers(l, f, peer);
    MergedIsStored(f, m);
    FollowerCommitRule(f, m);
    assert m.leaderCommit == l.commit;
    var f' := HandleAppend(f, m);
    if f.applied <= l.hist {
      assert l.hist[..Min(l.commit, |l.hist|)] == f'.hist[..Min(l.commit, |l.hist|)];
    }
  }

  lemma MergedIsStored(f: Node, m: AppendEntriesArgs)
    requires AcceptsAppend(f, m)
    ensures HandleAppend(f, m).hist == MergedHist(f, m)
  {
    MergeSets(Adopt(f, m.term), f, m);
  }

  lemma AcceptedAbove(l: Node, f: Node, peer: string)
    requires Steady(l) && Follows(l, f) && |l.snap| < Lookup(l.next, peer)
    requires var m := TaskFor(l, peer).args; AcceptsAppend(f, m)
    ensures Floor(l, f) < Lookup(l.next, peer)
  {
  }

  // ---- a snapshot ---------------------------------------------------------------------------------

  /** The follower's tail is kept unchecked, yet no entry of it passes for one of the leader's. */
  lemma SnapshotMatches(l: Node, f: Node)
    requires Steady(l) && Follows(l, f) && |f.snap| < |l.snap|
    ensures LogsMatch(l.hist, Snapshotted(l, f).hist)
  {
    hide LogsMatch, Indexed, LeaderBounds;
    var n := |l.snap|;
    PrefixOnMatches(l.hist, f.hist, n);
    assert l.hist[..n] == l.snap;
    assert Snapshotted(l, f).hist == l.snap + if n < |f.hist| then f.hist[n..] else [];
  }

  /** A log whose first entries are replaced by those of a log it matches still matches it. */
  lemma PrefixOnMatches(g: seq<Entry>, h: seq<Entry>, n: nat)
    requires LogsMatch(g, h) && n <= |g|
    ensures LogsMatch(g, g[..n] + if n < |h| then h[n..] else [])
  {
    var t := g[..n] + if n < |h| then h[n..] else [];
    forall k | 0 <= k < |g| && k < |t| && g[k].term == t[k].term ensures g[..k + 1] == t[..k + 1] {
      if k >= n {
        assert t[k] == h[k] && g[..k + 1] == h[..k + 1];
        assert forall j :: 0 <= j < k + 1 ==> g[j] == g[..k + 1][j] == h[..k + 1][j] == h[j];
      }
      assert forall j :: 0 <= j < k + 1 ==> t[j] == if j < n then g[j] else h[j];
    }
  }

  /** A follower that lacks the leader's snapshot takes it over; any other only notes the term. */
  lemma SnapshotTaken(l: Node, f: Node)
    requires Steady(l) && Follows(l, f) && |l.snap| > 0
    ensures var f' := Snapshotted(l, f);
      && Follows(l, f') && f'.term == l.term
      && f'.snap == (if |f.snap| < |l.snap| then l.snap else f.snap)
      && f'.applied == (if |f.snap| < |l.snap| then l.snap else f.applied) && l.snap <= l.hist
  {
    if |f.snap| < |l.snap| {
      SnapshotMatches(l, f);
      SnapshotShape(l, f);
    }
    hide LogsMatch;
  }

  lemma SnapshotShape(l: Node, f: Node)
    requires Steady(l) && Follows(l, f) && |f.snap| < |l.snap|
    ensures var f' := Snapshotted(l, f);
      && Shape(f') && f'.snap == l.snap && f'.snapTerm == l.snapTerm == TermAt(f'.hist, |f'.snap|)
  {
    var f' := Snapshotted(l, f);
    assert forall i :: 0 <= i < |l.snap| ==> f'.hist[i] == l.snap[i] == l.hist[i];
    assert forall i :: |l.snap| <= i < |f'.hist| ==> f'.hist[i] == f.hist[i];
  }

  // ---- a rejected one ---------------------------------------------------------------------------

  /** The leader steps back one entry, while it can, and else sends its snapshot. */
  lemma RejectedRound(l: Node, f: Node, peer: string)
    requires Steady(l) && Follows(l, f) && |l.snap| < Lookup(l.next, peer)
    requires var m := TaskFor(l, peer).args; !AcceptsAppend(f, m)
    ensures Lookup(l.next, peer) - 1 != |f.snap|
    ensures Round(l, f, peer) ==
      if Lookup(l.next, peer) > |l.snap| + 1 then (l.(next := l.next[peer := l.next[peer] - 1]), Adopt(f, l.term))
      else (l, Snapshotted(l, Adopt(f, l.term)))
  {
    hide AdvanceCommit, ApplyCommitted, MergeEntries, LogsMatch, Snapshotted;
  }

  lemma StillFollows(l: Node, f: Node, peer: string)
    requires Steady(l) && Follows(l, f)
    ensures Follows(l, Adopt(f, l.term)) && Adopt(f, l.term).snap == f.snap && Adopt(f, l.term).applied == f.applied
    ensures Lookup(l.next, peer) > 1 ==>
      var l' := l.(next := l.next[peer := l.next[peer] - 1]); Steady(l') && Follows(l', Adopt(f, l.term))
  {
  }

  /** After a round that has not caught the follower up: nextIndex past the floor comes nearer to it, or stays below. */
  predicate Nearer(l: Node, f: Node, l': Node, f': Node, peer: string) {
    && l'.hist == l.hist && l'.commit == l.commit && (f.applied <= l.hist ==> f'.applied <= l.hist)
    && Steady(l') && Follows(l', f') && Floor(l', f') == Floor(l, f)
    && (if Floor(l, f) < Lookup(l.next, peer)
        then Floor(l', f') < Lookup(l'.next, peer) && RoundsNeeded(l', f', peer) < RoundsNeeded(l, f, peer)
        else Lookup(l'.next, peer) <= Floor(l', f'))
  }

  lemma RejectedKeeps(l: Node, f: Node, peer: string)
    requires Steady(l) && Follows(l, f) && |l.snap| < Lookup(l.next, peer)
    requires var m := TaskFor(l, peer).args; !AcceptsAppend(f, m)
    ensures var (l', f') := Round(l, f, peer);
      Nearer(l, f, l', f', peer) && (CaughtUp(l', f', peer) ==> Informed(l, f'))
  {
    hide Round, Steady, Follows, AcceptsAppend, TermOf, Snapshotted, Adopt;
    SteadyShape(l);
    RejectedRound(l, f, peer);
    StillFollows(l, f, peer);
    SnapshotInLog(l, f, peer);
    if Lookup(l.next, peer) == |l.snap| + 1 && |l.snap| > 0 {
      SnapshotTaken(l, Adopt(f, l.term));
    } else if |l.snap| == 0 {
      NoSnapshot(l, Adopt(f, l.term));
    }
  }

  /** A follower rejects nothing below what it needs only if it lacks the leader's snapshot. */
  lemma SnapshotInLog(l: Node, f: Node, peer: string)
    requires Steady(l) && Follows(l, f)
    ensures l.snap <= l.hist && |f.snap| <= |l.hist| && Lookup(l.next, peer) <= |l.hist| + 1
    ensures |l.snap| == |l.hist| ==> l.snap == l.hist
  {
  }

  lemma NoSnapshot(l: Node, f: Node)
    requires |l.snap| == 0
    ensures Snapshotted(l, f) == f
  {
  }

  lemma SnapshotRound(l: Node, f: Node, peer: string)
    requires Steady(l) && Follows(l, f) && Lookup(l.next, peer) <= |l.snap|
    ensures var (l', f') := Round(l, f, peer); Nearer(l, f, l', f', peer)
  {
    hide Steady, Follows, Snapshotted;
    SteadyShape(l);
    assert Round(l, f, peer) == (l, Snapshotted(l, f));
    if |l.snap| > 0 {
      SnapshotTaken(l, f);
    } else {
      NoSnapshot(l, f);
    }
  }

  /** A round catches the follower up, or brings nextIndex nearer to the floor; below the floor neither side gains. */
  lemma RoundProgress(l: Node, f: Node, peer: string)
    requires Steady(l) && Follows(l, f)
    ensures var (l', f') := Round(l, f, peer);
      && l'.hist == l.hist
      && (CaughtUp(l', f', peer) ==> Floor(l, f) < Lookup(l.next, peer))
      && (CaughtUp(l', f', peer) || Nearer(l, f, l', f', peer))
      && (CaughtUp(l', f', peer) && f.applied <= l.hist ==> Informed(l, f'))
  {
    hide Round, Steady, Follows, AcceptsAppend, TermOf, HandleAppend;
    SteadyShape(l);
    var (l', f') := Round(l, f, peer);
    if Lookup(l.next, peer) <= |l.snap| {
      SnapshotRound(l, f, peer);
    } else if AcceptsAppend(f, TaskFor(l, peer).args) {
      AcceptedRound(l, f, peer);
      AcceptedAbove(l, f, peer);
      AcceptedInforms(l, f, peer);
    } else {
      RejectedKeeps(l, f, peer);
    }
    if Nearer(l, f, l', f', peer) {
      FloorWithin(l', f');
    }
  }

  lemma FloorWithin(l: Node, f: Node)
    requires Steady(l) && Follows(l, f)
    ensures Floor(l, f) <= |l.hist|
  {
  }

  // ---- repeated rounds --------------------------------------------------------------------------

  /** n rounds, or fewer once the follower has caught up. */
  function Rounds(l: Node, f: Node, peer: string, n: nat): (r: (Node, Node))
    requires Steady(l) && Follows(l, f)
    decreases n
  {
    if n == 0 then (l, f)
    else
      RoundProgress(l, f, peer);
      var (l', f') := Round(l, f, peer);
      if CaughtUp(l', f', peer) then (l', f') else Rounds(l', f', peer, n - 1)
  }

  /**
   * Past the floor, the leader's log is a prefix of the follower's and the leader knows it after so many
   * rounds, never more than nextIndex.
   */
  lemma {:induction false} CatchesUp(l: Node, f: Node, peer: string, n: nat)
    requires Steady(l) && Follows(l, f) && Floor(l, f) < Lookup(l.next, peer)
    requires n >= RoundsNeeded(l, f, peer)
    ensures RoundsNeeded(l, f, peer) <= Lookup(l.next, peer)
    ensures var (l', f') := Rounds(l, f, peer, n);
      && CaughtUp(l', f', peer) && l'.hist == l.hist
      && (f.applied <= l.hist ==> Informed(l, f'))
    decreases n
  {
    hide Steady, Follows, Round, CaughtUp;
    SteadyShape(l);
    RoundProgress(l, f, peer);
    var (l', f') := Round(l, f, peer);
    if !CaughtUp(l', f', peer) {
      CatchesUp(l', f', peer, n - 1);
    }
  }

  /** And one heartbeat later it has applied whatever the leader has committed since. */
  lemma HeartbeatInforms(l: Node, f: Node, peer: string)
    requires Steady(l) && Follows(l, f) && CaughtUp(l, f, peer) && f.applied <= l.hist
    ensures var (l', f') := Round(l, f, peer);
      CaughtUp(l', f', peer) && l'.hist == l.hist && Informed(l, f')
  {
    hide LogsMatch, Round;
    HeartbeatIsAccepted(l, f, peer);
    AcceptedRound(l, f, peer);
    AcceptedInforms(l, f, peer);
  }

  lemma HeartbeatIsAccepted(l: Node, f: Node, peer: string)
    requires Steady(l) && Follows(l, f) && CaughtUp(l, f, peer)
    ensures |l.snap| < Lookup(l.next, peer)
    ensures var m := TaskFor(l, peer).args; m.entries == [] && AcceptsAppend(f, m)
  {
    hide LogsMatch;
  }

  /** At the floor or below it, no number of rounds helps. */
  lemma {:induction false} StaysBehind(l: Node, f: Node, peer: string, n: nat)
    requires Steady(l) && Follows(l, f) && Lookup(l.next, peer) <= Floor(l, f)
    ensures var (l', f') := Rounds(l, f, peer, n);
      !CaughtUp(l', f', peer)
    decreases n
  {
    if n > 0 {
      hide Steady, Follows, Round, CaughtUp;
      SteadyShape(l);
      RoundProgress(l, f, peer);
      var (l', f') := Round(l, f, peer);
      StaysBehind(l', f', peer, n - 1);
    } else {
      FloorWithin(l, f);
    }
  }

  lemma SteadyShape(l: Node)
    requires Steady(l)
    ensures Shape(l) && LeaderBounds(l)
  {
  }

  /** So some number of rounds catches the follower up exactly when nextIndex lies past both snapshots. */
  lemma CatchesUpIff(l: Node, f: Node, peer: string)
    requires Steady(l) && Follows(l, f)
    ensures (exists n: nat :: var (l', f') := Rounds(l, f, peer, n); CaughtUp(l', f', peer))
            <==> Floor(l, f) < Lookup(l.next, peer)
  {
    hide Steady, CaughtUp, Rounds;
    if Floor(l, f) < Lookup(l.next, peer) {
      CatchesUp(l, f, peer, RoundsNeeded(l, f, peer));
    } else {
      forall n: nat ensures var (l', f') := Rounds(l, f, peer, n); !CaughtUp(l', f', peer) {
        StaysBehind(l, f, peer, n);
      }
    }
  }
}
