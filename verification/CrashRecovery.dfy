/**
 * What a restart rebuilds after a crash between any two file writes (the write order of
 * maybeCompactLocked, AppendEntries, InstallSnapshot and Propose; bootstrapFromStorage).
 */
module CrashRecovery {
  import opened Basics
  import opened GameFsm
  import opened FsmCodec
  import opened RaftSpec
  import opened RaftStorage
  import opened RaftNode
  import opened NodeRuns

  /** Every log-file entry the snapshot does not cover is the entry of h with its index. */
  predicate LogAgrees(d: Disk, h: seq<Entry>) {
    AgreesBeyond(d.log, |ImageEntries(d)|, h)
  }

  predicate AgreesBeyond(log: seq<Entry>, k: nat, h: seq<Entry>) {
    forall i :: 0 <= i < |log| && log[i].index > k ==> log[i].index <= |h| && h[log[i].index - 1] == log[i]
  }

  /** The last index found on disk. */
  function LastPersisted(d: Disk): nat
    requires DiskWellFormed(d)
  {
    if |d.log| == 0 then |ImageEntries(d)| else Max(|ImageEntries(d)|, d.log[|d.log| - 1].index)
  }

  lemma RecoveredTail(d: Disk)
    requires DiskWellFormed(d)
    ensures var k := |ImageEntries(d)|; var t := Beyond(d.log, k);
      && |RecoveredHist(d)| == k + |t| == LastPersisted(d)
      && (|t| > 0 ==> |d.log| > 0 && t == d.log[k + 1 - d.log[0].index..])
      && (|t| == 0 ==> forall i :: 0 <= i < |d.log| ==> d.log[i].index <= k)
  {
    if |d.log| > 0 {
      BeyondIsSuffix(d.log, d.log[0].index, |ImageEntries(d)|);
    }
  }

  /** A restart applies the whole recovered history, whatever the metadata said was committed. */
  lemma RestartReplaysEverything(d: Disk, id: string, peers: Peers, threshold: nat)
    requires DiskWellFormed(d)
    ensures var s := Recovered(d, Fresh(id, peers, threshold));
      && s.hist == s.applied == RecoveredHist(d)
      && s.snap == ImageEntries(d) && s.snap <= s.applied
      && |s.hist| == LastPersisted(d)
      && s.commit >= |s.hist|
  {
    hide Beyond, ApplyLoop, Indexed;
    var s0 := Loaded(d, Fresh(id, peers, threshold));
    RecoveredLength(d);
    RunsToTheEnd(s0);
  }

  lemma RecoveredLength(d: Disk)
    requires DiskWellFormed(d)
    ensures |RecoveredHist(d)| == LastPersisted(d) && ImageEntries(d) <= RecoveredHist(d)
  {
    hide Beyond, Indexed;
    RecoveredTail(d);
  }

  /** A node that has applied a prefix of its log, all of which counts as committed, applies all of it. */
  lemma RunsToTheEnd(s: Node)
    requires s.applied <= s.hist && s.commit >= |s.hist|
    ensures ApplyLoop(s).applied == s.hist
    ensures ApplyLoop(s).hist == s.hist && ApplyLoop(s).snap == s.snap && ApplyLoop(s).commit == s.commit
  {
    hide ApplyLoop;
    ApplyLoopRunsAhead(s);
    assert s.hist[..|s.applied|] + s.hist[|s.applied|..] == s.hist;
  }

  /** The tail t continues a prefix of length k along h. */
  predicate Continues(t: seq<Entry>, k: nat, h: seq<Entry>) {
    k + |t| <= |h| && forall j :: 0 <= j < |t| ==> h[k + j] == t[j]
  }

  lemma ContinuesIffPrefix(image: seq<Entry>, t: seq<Entry>, h: seq<Entry>)
    requires image <= h
    ensures image + t <= h <==> Continues(t, |image|, h)
    ensures Continues(t, |image|, h) ==> image + t == h[..|image| + |t|]
  {
    if image + t <= h {
      forall j | 0 <= j < |t| ensures h[|image| + j] == t[j] {
        assert (image + t)[|image| + j] == t[j];
      }
    }
  }

  lemma SuffixAgrees(log: seq<Entry>, f: nat, k: nat, h: seq<Entry>)
    requires Indexed(log, f) && 1 <= f <= k + 1 <= f + |log| && k <= |h|
    ensures Continues(log[k + 1 - f..], k, h) ==> AgreesBeyond(log, k, h)
    ensures AgreesBeyond(log, k, h) ==> Continues(log[k + 1 - f..], k, h)
  {
    var t := log[k + 1 - f..];
    if Continues(t, k, h) {
      forall i | 0 <= i < |log| && log[i].index > k
        ensures log[i].index <= |h| && h[log[i].index - 1] == log[i]
      {
        assert t[f + i - 1 - k] == log[i];
      }
    }
    if AgreesBeyond(log, k, h) {
      forall j | 0 <= j < |t| ensures k + j < |h| && h[k + j] == t[j] {
        assert log[k + 1 - f + j].index == k + 1 + j;
      }
      if |t| > 0 {
        assert log[|log| - 1].index == k + |t|;
      }
    }
  }

  lemma ContinuesIffAgrees(d: Disk, h: seq<Entry>)
    requires DiskWellFormed(d) && |ImageEntries(d)| <= |h|
    ensures Continues(Beyond(d.log, |ImageEntries(d)|), |ImageEntries(d)|, h) <==> LogAgrees(d, h)
  {
    hide Beyond, Continues;
    var k := |ImageEntries(d)|;
    RecoveredTail(d);
    if |d.log| > 0 && k + 1 <= d.log[0].index + |d.log| {
      BeyondIsSuffix(d.log, d.log[0].index, k);
      SuffixAgrees(d.log, d.log[0].index, k, h);
    } else {
      NothingBeyond(d, h);
    }
  }

  lemma NothingBeyond(d: Disk, h: seq<Entry>)
    requires DiskWellFormed(d) && |ImageEntries(d)| <= |h|
    requires |d.log| > 0 ==> d.log[0].index + |d.log| <= |ImageEntries(d)|
    ensures Beyond(d.log, |ImageEntries(d)|) == [] && LogAgrees(d, h) && Continues([], |ImageEntries(d)|, h)
  {
    if |d.log| > 0 {
      BeyondIsSuffix(d.log, d.log[0].index, |ImageEntries(d)|);
    }
  }

  /**
   * The recovered history is part of h exactly when what the disk holds beyond the snapshot agrees with h;
   * it then reaches as far as the snapshot or the last persisted index, whichever is later.
   */
  lemma RecoversPrefixIff(d: Disk, h: seq<Entry>)
    requires DiskWellFormed(d) && ImageEntries(d) <= h
    ensures RecoveredHist(d) <= h <==> LogAgrees(d, h)
    ensures LogAgrees(d, h) ==> LastPersisted(d) <= |h| && RecoveredHist(d) == h[..LastPersisted(d)]
  {
    hide Beyond, LogAgrees, Continues, AgreesBeyond;
    ContinuesIffPrefix(ImageEntries(d), Beyond(d.log, |ImageEntries(d)|), h);
    ContinuesIffAgrees(d, h);
    RecoveredTail(d);
  }

  /** Disk and memory agree: the files recover exactly the node's history. */
  predicate Synced(d: Disk, s: Node) {
    && DiskWellFormed(d)
    && ImageEntries(d) == s.snap
    && RecoveredHist(d) == s.hist
  }

  lemma WrittenLogRecovers(d: Disk, s: Node)
    requires Shape(s) && Consistent(s) && ImageEntries(d) == s.snap
    requires d.log == s.hist[|s.snap|..]
    requires d.meta.Some? ==> d.meta.value.snapshotIndex <= |s.snap|
    ensures Synced(d, s)
  {
    hide Beyond;
    assert s.snap + s.hist[|s.snap|..] == s.hist;
    assert Indexed(s.snap, 1);
    var k := |s.snap|;
    assert Indexed(d.log, k + 1) by {
      assert forall i :: 0 <= i < |d.log| ==> d.log[i] == s.hist[k + i];
    }
    BeyondIsSuffix(d.log, k + 1, k);
    assert d.log[k + 1 - (k + 1)..] == d.log;
  }

  /** Rewriting the log and the metadata: every state in between recovers the old or the new history. */
  lemma PersistCrash(d: Disk, s: Node, i: nat)
    requires Shape(s) && Consistent(s)
    requires DiskWellFormed(d) && ImageEntries(d) == s.snap
    requires i < 2
    ensures Synced(PersistStates(d, s)[i], s)
  {
    WrittenLogRecovers(WithLog(d, s), s);
    WrittenLogRecovers(WithMeta(WithLog(d, s), s), s);
  }

  /** With a new snapshot on disk and the old log file behind it. */
  lemma SnapshotThenOldLog(d: Disk, old_: Node, s: Node)
    requires Shape(old_) && Shape(s) && Consistent(s)
    requires Synced(d, old_) && |old_.snap| <= |s.snap|
    ensures DiskWellFormed(WithSnapshot(d, s))
    ensures RecoveredHist(WithSnapshot(d, s)) == s.snap + From(old_.hist, |s.snap|)
  {
    hide Beyond, Indexed, From;
    ImageIndexed(s);
    OldTail(old_.snap, d.log, |s.snap|);
  }

  lemma ImageIndexed(s: Node)
    requires Shape(s) && s.snap <= s.hist
    ensures Indexed(s.snap, 1)
  {
  }

  function From<T>(s: seq<T>, n: nat): seq<T> {
    if n <= |s| then s[n..] else []
  }

  /** Of a recovered history, what lies beyond a later index is what the log file holds beyond it. */
  lemma OldTail(image: seq<Entry>, log: seq<Entry>, k: nat)
    requires |log| > 0 ==> 1 <= log[0].index <= |image| + 1 && Indexed(log, log[0].index)
    requires |image| <= k
    ensures Beyond(log, k) == From(image + Beyond(log, |image|), k)
  {
    hide Beyond, Indexed, From;
    var f := if |log| > 0 then log[0].index else 1;
    assert Indexed(log, f) by {
      NothingToNumber(log);
    }
    BeyondFrom(log, f, |image|);
    BeyondFrom(log, f, k);
    FromFrom(image, log, |image| + 1 - f, k);
  }

  lemma NothingToNumber(log: seq<Entry>)
    ensures |log| == 0 ==> Indexed(log, 1)
  {
  }

  lemma BeyondFrom(log: seq<Entry>, f: nat, k: nat)
    requires Indexed(log, f) && 1 <= f <= k + 1
    ensures Beyond(log, k) == From(log, k + 1 - f)
  {
    hide Beyond, Indexed;
    BeyondIsSuffix(log, f, k);
  }

  lemma FromFrom<T>(image: seq<T>, log: seq<T>, a: nat, k: nat)
    requires |image| <= k
    ensures From(log, a + (k - |image|)) == From(image + From(log, a), k)
  {
  }

  /** What a crash during AppendEntries may leave: the new log, or a new snapshot before the old log file. */
  lemma AppendCrash(s: Node, m: AppendEntriesArgs, d: Disk, i: nat)
    requires Shape(s) && Consistent(s) && WellIndexed(m) && AcceptsAppend(s, m) && HarmlessAppend(s, m)
    requires Synced(d, s)
    requires i < |AppendStates(s, m, d)|
    ensures var s' := HandleAppend(s, m); var e := AppendStates(s, m, d)[i];
      && Shape(s') && Consistent(s')
      && DiskWellFormed(e)
      && (Synced(e, s') || (e == WithSnapshot(d, s') && RecoveredHist(e) == s'.snap + From(s.hist, |s'.snap|)))
      && (i == |AppendStates(s, m, d)| - 1 ==> Synced(e, s'))
  {
    hide MergeEntries, ApplyLoop, Encodable, Beyond, Indexed, HarmlessAppend, TermOf;
    AppendConsistentIff(s, m);
    var s1 := ApplyLoop(MergeEntries(Adopt(s, m.term), m));
    CompactKeeps(s, m);
    var s' := Compact(s1);
    var w := CompactStates(s1, d);
    if s' == s1 {
      PersistCrash(d, s', i);
    } else {
      SnapshotThenOldLog(d, s, s');
      if i >= 1 {
        PersistCrash(WithSnapshot(d, s'), s', if i < 3 then i - 1 else 0);
        if i >= 3 {
          PersistCrash(w[2], s', i - 3);
        }
      }
    }
  }

  lemma CompactKeeps(s: Node, m: AppendEntriesArgs)
    requires Shape(s) && Consistent(s) && WellIndexed(m) && AcceptsAppend(s, m) && HarmlessAppend(s, m)
    ensures var s1 := ApplyLoop(MergeEntries(Adopt(s, m.term), m)); var s' := Compact(s1);
      && Shape(s1) && s'.hist == s1.hist && s1.snap == s.snap
      && s.applied <= s'.applied <= s'.hist
      && (s' == s1 || s'.snap == s'.applied)
  {
    hide MergeEntries, ApplyLoop, Encodable, Indexed, HarmlessAppend;
    MergeFacts(s, m);
    ApplyKeepsPrefix(MergeEntries(Adopt(s, m.term), m));
  }

  /** What the log holds before and after is found in the old tail behind the new snapshot. */
  lemma OldTailUnderSnapshot(before: seq<Entry>, after: seq<Entry>, snap: seq<Entry>, a: seq<Entry>)
    requires a <= before && a <= after && snap <= after
    ensures a <= snap + From(before, |snap|)
  {
    var r := snap + From(before, |snap|);
    forall k | 0 <= k < |a| ensures k < |r| && r[k] == a[k] {
      if k < |snap| {
        assert after[k] == a[k];
      } else {
        assert r[k] == before[|snap|..][k - |snap|] == before[k];
      }
    }
  }

  /** Proposing only ever adds to what a crash leaves behind. */
  lemma ProposeCrash(s: Node, c: Command, d: Disk, i: nat)
    requires Shape(s) && Consistent(s) && s.role.Leader? && Synced(d, s) && i < 2
    ensures Synced(PersistStates(d, Propose(s, c))[i], Propose(s, c))
    ensures s.hist <= Propose(s, c).hist
  {
    var s' := Propose(s, c);
    assert TermAt(s'.hist, |s.snap|) == TermAt(s.hist, |s.snap|);
    PersistCrash(d, s', i);
  }

  /** Installing a snapshot: every state the files pass through already recovers the final history. */
  lemma InstallCrash(s: Node, term: nat, lastTerm: nat, image: seq<Entry>, d: Disk, i: nat)
    requires Shape(s) && Indexed(image, 1) && TermAt(image, |image|) == lastTerm
    requires Synced(d, s) && i < |InstallStates(s, term, lastTerm, image, d)|
    ensures Synced(InstallStates(s, term, lastTerm, image, d)[i], HandleInstall(s, term, lastTerm, image))
  {
    hide Beyond;
    var s' := HandleInstall(s, term, lastTerm, image);
    assert Shape(s') && Consistent(s');
    SnapshotThenOldLog(d, s, s');
    assert RecoveredHist(WithSnapshot(d, s')) == s'.hist;
    if i >= 1 {
      PersistCrash(WithSnapshot(d, s'), s', i - 1);
    }
  }

  /** Compacting while the commit index advances loses nothing at any point. */
  lemma AdvanceCrash(s: Node, d: Disk, i: nat)
    requires Shape(s) && Consistent(s) && Synced(d, s)
    requires i < |AdvanceStates(s, d)|
    ensures Synced(AdvanceStates(s, d)[i], AdvanceCommit(s))
    ensures AdvanceCommit(s).hist == s.hist
  {
    hide Beyond, ApplyLoop, Encodable, Indexed, TopCommit;
    var s0 := s.(commit := TopCommit(s, |s.hist|));
    ApplyKeepsPrefix(s0);
    var s' := ApplyCommitted(s0);
    SnapshotThenOldLog(d, s, s');
    assert s'.snap == s.hist[..|s'.snap|];
    if i >= 1 {
      PersistCrash(WithSnapshot(d, s'), s', i - 1);
    }
  }

  // ---- whole runs -----------------------------------------------------------------------------

  /** The disk states one operation of a run passes through. */
  function OpStates(s: Node, op: Op, d: Disk): seq<Disk>
    requires Shape(s) && (op.Append? ==> WellIndexed(op.m))
  {
    match op
    case Append(m) => AppendStates(s, m, d)
    case Install(term, lastTerm, image) => InstallStates(s, term, lastTerm, image, d)
    case Proposed(c) => if s.role.Leader? then PersistStates(d, Propose(s, c)) else []
    case Replied(m, peer, replyTerm, success) => ReplyStates(s, m.term, peer, m, replyTerm, success, d)
    case _ => []
  }

  /**
   * A crash at any point of an operation leaves a disk from which is recovered all that the log held before
   * and holds after the operation; once the operation is through, the disk recovers exactly the node's log.
   */
  lemma StepCrash(r: Run, op: Op, d: Disk, i: nat, kept: seq<Entry>)
    requires Sound(r) && Admissible(r, op) && Synced(d, r.node)
    requires i < |OpStates(r.node, op, d)|
    requires kept <= r.node.hist && kept <= Next(r, op).node.hist
    ensures var e := OpStates(r.node, op, d)[i]; var s' := Next(r, op).node;
      && DiskWellFormed(e) && kept <= RecoveredHist(e)
      && (Synced(e, s') || e == WithSnapshot(d, s'))
      && (i == |OpStates(r.node, op, d)| - 1 ==> Synced(e, s'))
  {
    hide Beyond, AppendStates, InstallStates, AdvanceStates, PersistStates, HandleAppend, AdvanceCommit,
         RecoveredHist, From;
    var s := r.node;
    match op {
      case Append(m) =>
        AppendHasStates(s, m, d);
        AppendCrash(s, m, d, i);
        OldTailUnderSnapshot(s.hist, HandleAppend(s, m).hist, HandleAppend(s, m).snap, kept);
      case Install(term, lastTerm, image) => InstallCrash(s, term, lastTerm, image, d, i);
      case Proposed(c) => ProposeCrash(s, c, d, i);
      case Replied(m, peer, replyTerm, success) => AdvanceCrash(WithReply(s, m, peer), d, i);
      case _ =>
    }
  }

  /** What was applied stays in the log, unless a snapshot takes its place. */
  lemma AppliedStays(r: Run, op: Op)
    requires Sound(r) && Admissible(r, op) && !op.Install?
    ensures var s' := Next(r, op).node; r.node.applied <= s'.applied <= s'.hist
  {
    StepKeepsSound(r, op);
    hide HandleAppend, HandleAppendReply, Sound, Promote, LogUpToDate;
    match op {
      case Append(m) => AppendAppliesMore(r.node, m);
      case Replied(m, peer, replyTerm, success) => ReplyAppliesMore(r.node, m, peer, replyTerm, success);
      case _ =>
    }
    SoundPrefixes(Next(r, op));
  }

  lemma SoundPrefixes(r: Run)
    requires Sound(r)
    ensures r.node.applied <= r.node.hist
  {
  }

  lemma AppendAppliesMore(s: Node, m: AppendEntriesArgs)
    ensures s.applied <= HandleAppend(s, m).applied
  {
    hide ApplyLoop, Encodable, MergeEntries, AcceptsAppend;
  }

  lemma ReplyAppliesMore(s: Node, m: AppendEntriesArgs, peer: string, replyTerm: nat, success: bool)
    requires Shape(s)
    ensures s.applied <= HandleAppendReply(s, m.term, peer, m, replyTerm, success).applied
  {
    hide ApplyLoop, Encodable, TopCommit;
  }

  lemma AppendHasStates(s: Node, m: AppendEntriesArgs, d: Disk)
    requires Shape(s) && (AcceptsAppend(s, m) ==> WellIndexed(m))
    ensures AcceptsAppend(s, m) <==> |AppendStates(s, m, d)| > 0
  {
  }

  /** An operation that writes nothing changes nothing a restart would see. */
  lemma SilentStep(r: Run, op: Op, d: Disk)
    requires Sound(r) && Admissible(r, op) && Synced(d, r.node)
    requires |OpStates(r.node, op, d)| == 0
    ensures Synced(d, Next(r, op).node)
  {
    hide Beyond, RecoveredHist, DiskWellFormed;
    if op.Append? {
      AppendHasStates(r.node, op.m, d);
    }
    if op.Replied? && op.replyTerm <= r.node.term && r.node.role.Leader? && r.node.term == op.m.term && op.success {
      var s1 := WithReply(r.node, op.m, op.peer);
      SilentAdvance(s1, d);
    }
  }

  lemma SilentAdvance(s: Node, d: Disk)
    requires Shape(s) && |AdvanceStates(s, d)| == 0
    ensures AdvanceCommit(s).hist == s.hist && AdvanceCommit(s).snap == s.snap
  {
    hide ApplyLoop, TopCommit, Encodable;
  }

  ghost function DiskAfter(r: Run, d: Disk, ops: seq<Op>): Disk
    requires Sound(r) && Legal(r, ops)
    decreases |ops|
  {
    if |ops| == 0 then d
    else
      StepKeepsSound(r, ops[0]);
      DiskAfter(Next(r, ops[0]), LastDisk(d, OpStates(r.node, ops[0], d)), ops[1..])
  }

  /** After any admissible run the files recover exactly the log in memory. */
  lemma {:induction false} EveryRunSynced(r: Run, d: Disk, ops: seq<Op>)
    requires Sound(r) && Legal(r, ops) && Synced(d, r.node)
    ensures Synced(DiskAfter(r, d, ops), After(r, ops).node)
    decreases |ops|
  {
    if |ops| > 0 {
      hide OpStates, Synced, Sound, Admissible, Next;
      StepKeepsSound(r, ops[0]);
      var w := OpStates(r.node, ops[0], d);
      if |w| == 0 {
        SilentStep(r, ops[0], d);
      } else {
        StepCrash(r, ops[0], d, |w| - 1, []);
      }
      EveryRunSynced(Next(r, ops[0]), LastDisk(d, w), ops[1..]);
    }
  }

  lemma EmptyDiskSynced(id: string, peers: Peers, threshold: nat)
    ensures Synced(Disk(None, [], None), Start(id, peers, threshold).node)
  {
  }

  // ---- where the hypotheses matter ----------------------------------------------------------

  /** A crash right after the snapshot of a rewritten log revives, and applies, the entries that were cut. */
  lemma CutEntriesRevived()
    returns (s: Node, m: AppendEntriesArgs, d: Disk)
    ensures Shape(s) && Consistent(s) && WellIndexed(m) && AcceptsAppend(s, m) && HarmlessAppend(s, m) && Synced(d, s)
    ensures |AppendStates(s, m, d)| > 0
    ensures var e := AppendStates(s, m, d)[0];
      !(Recovered(e, Fresh("b", map[], 1)).applied <= HandleAppend(s, m).hist)
  {
    hide Beyond, RecoveredHist, Recovered;
    var e1, e2, f1 := Entry(1, 1, DebugNoop), Entry(2, 1, DebugNoop), Entry(1, 2, DebugNoop);
    s := Fresh("b", map[], 1).(term := 1, hist := [e1, e2]);
    m := AppendEntriesArgs(2, "a", 0, 0, [f1], 1);
    d := Disk(None, [e1, e2], None);
    assert EntriesFromArgs(m) == [f1];
    WrittenLogRecovers(d, s);
    var s0 := MergeEntries(Adopt(s, 2), m);
    assert s.hist[..0] + [f1] == [f1];
    ApplyLoopRunsAhead(s0);
    var s1 := ApplyLoop(s0);
    assert s1.applied == [f1];
    assert Replay([f1]) == map[] by {
      assert [f1][..0] == [];
    }
    var s' := Compact(s1);
    assert s'.snap == [f1];
    var e := WithSnapshot(d, s');
    assert AppendStates(s, m, d)[0] == e;
    SnapshotThenOldLog(d, s, s');
    assert s.hist[1..] == [e2];
    RestartReplaysEverything(e, "b", map[], 1);
  }
}
