/**
 * Runs with any number of crashes: a node restarts from whatever files a crash left, between any two
 * writes, and goes on. Peers are those it is started with, and replies to calls made before the crash
 * are lost with the calls.
 */
module Restarts {
  import opened Basics
  import opened GameFsm
  import opened FsmCodec
  import opened RaftSpec
  import opened RaftStorage
  import opened RaftNode
  import opened NodeRuns
  import opened CrashRecovery

  /** The files recover the node's log, and do not claim more to be committed than it has applied. */
  predicate Trusted(d: Disk, s: Node) {
    && Synced(d, s) && ImageTerm(d) == s.snapTerm
    && (d.meta.Some? ==> d.meta.value.commitIndex <= |s.applied|)
  }

  /** Files a node can go on from. */
  predicate Restartable(d: Disk) {
    && DiskWellFormed(d) && ImageTerm(d) == TermAt(ImageEntries(d), |ImageEntries(d)|)
    && (d.meta.Some? ==> d.meta.value.commitIndex <= |RecoveredHist(d)|)
  }

  /** The node started from those files; it has sent nothing yet. */
  function Reborn(d: Disk, id: string, peers: Peers, threshold: nat): Run {
    Run(Recovered(d, Fresh(id, peers, threshold)), {})
  }

  // ---- a restart --------------------------------------------------------------------------------

  /** Snapshot, state machine and log of a restarted node are in step, and in step with its files. */
  lemma RestartIsSound(d: Disk, id: string, peers: Peers, threshold: nat)
    requires Restartable(d)
    ensures Sound(Reborn(d, id, peers, threshold))
    ensures Trusted(d, Reborn(d, id, peers, threshold).node)
  {
    hide Beyond, ApplyLoop, RecoveredHist;
    var s0 := Loaded(d, Fresh(id, peers, threshold));
    RecoveredShape(d);
    RestartReplaysEverything(d, id, peers, threshold);
    FollowerApplyTracksNobody(s0);
    LongerSameTerm(ImageEntries(d), RecoveredHist(d));
  }

  lemma LongerSameTerm(a: seq<Entry>, h: seq<Entry>)
    requires a <= h
    ensures TermAt(h, |a|) == TermAt(a, |a|)
  {
  }

  // ---- what a crash leaves ------------------------------------------------------------------------

  /** Snapshot and metadata files are the old ones or those of the new state; in the end they are the new. */
  predicate Rewritten(d: Disk, e: Disk, s': Node, last: bool) {
    && (e.image == d.image || e.image == Some(Image(s'.snap, s'.snapTerm)))
    && (e.meta == d.meta || e.meta == Some(MetaOf(s')))
    && (last ==> e.meta == Some(MetaOf(s')))
  }

  lemma WritesOf(r: Run, op: Op, d: Disk, i: nat)
    requires Sound(r) && Admissible(r, op) && i < |OpStates(r.node, op, d)|
    ensures Rewritten(d, OpStates(r.node, op, d)[i], Next(r, op).node, i == |OpStates(r.node, op, d)| - 1)
  {
    match op {
      case Append(m) => AppendWrites(r.node, m, d, i);
      case Install(term, lastTerm, image) => InstallWrites(r.node, term, lastTerm, image, d, i);
      case Proposed(c) =>
      case Replied(m, peer, replyTerm, success) => ReplyWrites(r.node, m, peer, replyTerm, success, d, i);
      case _ =>
    }
  }

  lemma AppendWrites(s: Node, m: AppendEntriesArgs, d: Disk, i: nat)
    requires Shape(s) && WellIndexed(m) && i < |AppendStates(s, m, d)|
    ensures Rewritten(d, AppendStates(s, m, d)[i], HandleAppend(s, m), i == |AppendStates(s, m, d)| - 1)
  {
    hide MergeEntries, ApplyLoop, Compact, WellIndexed;
  }

  lemma InstallWrites(s: Node, term: nat, lastTerm: nat, image: seq<Entry>, d: Disk, i: nat)
    requires Shape(s) && i < |InstallStates(s, term, lastTerm, image, d)|
    ensures Rewritten(d, InstallStates(s, term, lastTerm, image, d)[i], HandleInstall(s, term, lastTerm, image),
                      i == |InstallStates(s, term, lastTerm, image, d)| - 1)
  {
    hide HandleInstall;
  }

  lemma ReplyWrites(s: Node, m: AppendEntriesArgs, peer: string, replyTerm: nat, success: bool, d: Disk, i: nat)
    requires Shape(s) && i < |ReplyStates(s, m.term, peer, m, replyTerm, success, d)|
    ensures Rewritten(d, ReplyStates(s, m.term, peer, m, replyTerm, success, d)[i],
                      HandleAppendReply(s, m.term, peer, m, replyTerm, success),
                      i == |ReplyStates(s, m.term, peer, m, replyTerm, success, d)| - 1)
  {
    hide ApplyLoop, Compact, TopCommit;
  }

  /** Installing a snapshot never shortens the log. */
  lemma InstallKeepsLength(s: Node, term: nat, lastTerm: nat, image: seq<Entry>)
    ensures |s.hist| <= |HandleInstall(s, term, lastTerm, image).hist|
  {
  }

  /** A crash anywhere leaves files at least as long as what was applied, on which a node can go on. */
  lemma CrashIsRestartable(r: Run, op: Op, d: Disk, i: nat)
    requires Sound(r) && Admissible(r, op) && Trusted(d, r.node) && i < |OpStates(r.node, op, d)|
    ensures Restartable(OpStates(r.node, op, d)[i])
    ensures i == |OpStates(r.node, op, d)| - 1 ==> Trusted(OpStates(r.node, op, d)[i], Next(r, op).node)
  {
    hide OpStates, Next, Synced, RecoveredHist, DiskWellFormed;
    StepKeepsSound(r, op);
    WritesOf(r, op, d, i);
    LongEnough(r, op, d, i);
    StepCrash(r, op, d, i, []);
    FilesAgree(r, d);
    FilesStayTrue(r, Next(r, op), d, OpStates(r.node, op, d)[i], i == |OpStates(r.node, op, d)| - 1);
  }

  lemma FilesAgree(r: Run, d: Disk)
    requires Sound(r) && Trusted(d, r.node)
    ensures ImageTerm(d) == TermAt(ImageEntries(d), |ImageEntries(d)|) && ImageEntries(d) == r.node.snap
    ensures d.meta.Some? ==> d.meta.value.commitIndex <= |r.node.applied|
  {
    hide RecoveredHist, DiskWellFormed;
    LongerSameTerm(r.node.snap, r.node.hist);
  }

  lemma LongEnough(r: Run, op: Op, d: Disk, i: nat)
    requires Sound(r) && Admissible(r, op) && Synced(d, r.node) && i < |OpStates(r.node, op, d)|
    ensures var e := OpStates(r.node, op, d)[i]; DiskWellFormed(e) && |r.node.applied| <= |RecoveredHist(e)|
  {
    hide OpStates, Next, Synced, RecoveredHist, DiskWellFormed, Sound;
    var s := r.node;
    SoundPrefixes(r);
    if op.Install? {
      InstallIsLongEnough(r, op, d, i);
    } else {
      AppliedStays(r, op);
      StepCrash(r, op, d, i, s.applied);
    }
  }

  lemma InstallIsLongEnough(r: Run, op: Op, d: Disk, i: nat)
    requires Sound(r) && Admissible(r, op) && op.Install? && Synced(d, r.node) && i < |OpStates(r.node, op, d)|
    ensures var e := OpStates(r.node, op, d)[i]; DiskWellFormed(e) && |r.node.hist| <= |RecoveredHist(e)|
  {
    hide InstallStates, HandleInstall, RecoveredHist, DiskWellFormed;
    InstallCrash(r.node, op.term, op.lastTerm, op.image, d, i);
    InstallKeepsLength(r.node, op.term, op.lastTerm, op.image);
  }

  lemma FilesStayTrue(r: Run, r': Run, d: Disk, e: Disk, last: bool)
    requires Sound(r) && Sound(r') && Rewritten(d, e, r'.node, last)
    requires ImageTerm(d) == TermAt(ImageEntries(d), |ImageEntries(d)|)
    requires d.meta.Some? ==> d.meta.value.commitIndex <= |r.node.applied|
    requires DiskWellFormed(e) && |r.node.applied| <= |RecoveredHist(e)|
    requires last ==> Synced(e, r'.node)
    requires Synced(e, r'.node) || e.meta == d.meta
    ensures Restartable(e) && (last ==> Trusted(e, r'.node))
  {
    hide RecoveredHist, DiskWellFormed;
    LongerSameTerm(r'.node.snap, r'.node.hist);
  }

  /** An operation that writes nothing leaves the files as good as they were. */
  lemma SilentStepTrusted(r: Run, op: Op, d: Disk)
    requires Sound(r) && Admissible(r, op) && Trusted(d, r.node) && |OpStates(r.node, op, d)| == 0
    ensures Trusted(d, Next(r, op).node)
  {
    hide RecoveredHist, DiskWellFormed, Sound, Next, OpStates;
    SilentStep(r, op, d);
    SilentStepApplies(r, op, d);
  }

  lemma SilentStepApplies(r: Run, op: Op, d: Disk)
    requires Sound(r) && Admissible(r, op) && |OpStates(r.node, op, d)| == 0
    ensures var s' := Next(r, op).node; |r.node.applied| <= |s'.applied| && s'.snapTerm == r.node.snapTerm
  {
    RoleSteps(r.node, op);
    hide HandleAppend, HandleAppendReply, HandleRequestVote, StartElection, Promote, Adopt, CatchUpTerm,
         AppendStates, ReplyStates;
    match op {
      case Install(term, lastTerm, image) => SilentInstall(r.node, term, lastTerm, image, d);
      case Append(m) => SilentAppend(r.node, m, d);
      case Replied(m, peer, replyTerm, success) => SilentReply(r.node, m, peer, replyTerm, success, d);
      case _ =>
    }
  }

  lemma SilentAppend(s: Node, m: AppendEntriesArgs, d: Disk)
    requires Shape(s) && WellIndexed(m) && |AppendStates(s, m, d)| == 0
    ensures HandleAppend(s, m).applied == s.applied && HandleAppend(s, m).snapTerm == s.snapTerm
  {
    AppendHasStates(s, m, d);
    hide AppendStates, AcceptsAppend;
  }

  lemma SilentInstall(s: Node, term: nat, lastTerm: nat, image: seq<Entry>, d: Disk)
    requires Shape(s) && |InstallStates(s, term, lastTerm, image, d)| == 0
    ensures var s' := HandleInstall(s, term, lastTerm, image); s'.applied == s.applied && s'.snapTerm == s.snapTerm
  {
  }

  lemma SilentReply(s: Node, m: AppendEntriesArgs, peer: string, replyTerm: nat, success: bool, d: Disk)
    requires Shape(s) && |ReplyStates(s, m.term, peer, m, replyTerm, success, d)| == 0
    ensures var s' := HandleAppendReply(s, m.term, peer, m, replyTerm, success);
      s.applied <= s'.applied && s'.snapTerm == s.snapTerm
  {
    hide ApplyLoop, TopCommit, Encodable;
  }

  // ---- lives --------------------------------------------------------------------------------------

  lemma {:induction false} RunIsTrusted(r: Run, d: Disk, ops: seq<Op>)
    requires Sound(r) && Legal(r, ops) && Trusted(d, r.node)
    ensures Trusted(DiskAfter(r, d, ops), After(r, ops).node)
    decreases |ops|
  {
    if |ops| > 0 {
      hide OpStates, Trusted, Sound, Admissible, Next;
      StepKeepsSound(r, ops[0]);
      var w := OpStates(r.node, ops[0], d);
      if |w| == 0 {
        SilentStepTrusted(r, ops[0], d);
      } else {
        CrashIsRestartable(r, ops[0], d, |w| - 1);
      }
      RunIsTrusted(Next(r, ops[0]), LastDisk(d, w), ops[1..]);
    }
  }

  /** A run that is cut short during its last operation, after so many of that operation's writes. */
  datatype Life = Life(ops: seq<Op>, last: Op, written: nat)

  ghost predicate Lived(r: Run, d: Disk, life: Life)
    requires Sound(r)
  {
    && Legal(r, life.ops) && Admissible(After(r, life.ops), life.last)
    && life.written <= |OpStates(After(r, life.ops).node, life.last, DiskAfter(r, d, life.ops))|
  }

  /** The files a life leaves behind. */
  ghost function Remains(r: Run, d: Disk, life: Life): Disk
    requires Sound(r) && Lived(r, d, life)
  {
    var d1 := DiskAfter(r, d, life.ops);
    if life.written == 0 then d1 else OpStates(After(r, life.ops).node, life.last, d1)[life.written - 1]
  }

  lemma RemainsAreRestartable(r: Run, d: Disk, life: Life)
    requires Sound(r) && Trusted(d, r.node) && Lived(r, d, life)
    ensures Restartable(Remains(r, d, life))
  {
    hide OpStates, Legal, Sound, After, DiskAfter, Admissible, Restartable, Trusted;
    RunIsTrusted(r, d, life.ops);
    var q, d1 := After(r, life.ops), DiskAfter(r, d, life.ops);
    if life.written == 0 {
      TrustedIsRestartable(q, d1);
    } else {
      CrashIsRestartable(q, life.last, d1, life.written - 1);
    }
  }

  lemma TrustedIsRestartable(r: Run, d: Disk)
    requires Sound(r) && Trusted(d, r.node)
    ensures Restartable(d)
  {
    hide DiskWellFormed, RecoveredHist;
    FilesAgree(r, d);
    SoundPrefixes(r);
  }

  /** One life after another, each begun from the files the one before left. */
  ghost predicate AllLived(r: Run, d: Disk, lives: seq<Life>, id: string, peers: Peers, threshold: nat)
    requires Sound(r) && Trusted(d, r.node)
    decreases |lives|
  {
    |lives| == 0
    || (&& Lived(r, d, lives[0])
        && (RemainsAreRestartable(r, d, lives[0]);
            var e := Remains(r, d, lives[0]);
            RestartIsSound(e, id, peers, threshold);
            AllLived(Reborn(e, id, peers, threshold), e, lives[1..], id, peers, threshold)))
  }

  /** The node and its files after the last restart. */
  ghost function Survived(r: Run, d: Disk, lives: seq<Life>, id: string, peers: Peers, threshold: nat): (q: (Run, Disk))
    requires Sound(r) && Trusted(d, r.node) && AllLived(r, d, lives, id, peers, threshold)
    ensures Sound(q.0) && Trusted(q.1, q.0.node)
    decreases |lives|
  {
    if |lives| == 0 then (r, d)
    else
      RemainsAreRestartable(r, d, lives[0]);
      var e := Remains(r, d, lives[0]);
      RestartIsSound(e, id, peers, threshold);
      Survived(Reborn(e, id, peers, threshold), e, lives[1..], id, peers, threshold)
  }

  const EMPTY: Disk := Disk(None, [], None)

  lemma StartIsTrusted(id: string, peers: Peers, threshold: nat)
    ensures Sound(Start(id, peers, threshold)) && Trusted(EMPTY, Start(id, peers, threshold).node)
  {
    EmptyDiskSynced(id, peers, threshold);
  }

  /** Lives from a node's first start on. */
  ghost predicate History(lives: seq<Life>, id: string, peers: Peers, threshold: nat) {
    StartIsTrusted(id, peers, threshold);
    AllLived(Start(id, peers, threshold), EMPTY, lives, id, peers, threshold)
  }

  ghost function Now(lives: seq<Life>, id: string, peers: Peers, threshold: nat): (q: (Run, Disk))
    requires History(lives, id, peers, threshold)
    ensures Sound(q.0) && Trusted(q.1, q.0.node)
  {
    StartIsTrusted(id, peers, threshold);
    Survived(Start(id, peers, threshold), EMPTY, lives, id, peers, threshold)
  }

  /**
   * However often a node has crashed and restarted, and whatever it does next: snapshot, state machine and
   * log are in step, and its files recover exactly its log.
   */
  lemma SoundAfterAnyCrashes(lives: seq<Life>, ops: seq<Op>, id: string, peers: Peers, threshold: nat)
    requires History(lives, id, peers, threshold) && Legal(Now(lives, id, peers, threshold).0, ops)
    ensures var (r, d) := Now(lives, id, peers, threshold);
      Sound(After(r, ops)) && Synced(DiskAfter(r, d, ops), After(r, ops).node)
  {
    hide Sound, Legal, After, DiskAfter, Synced, History, Now;
    var (r, d) := Now(lives, id, peers, threshold);
    RunIsTrusted(r, d, ops);
  }

  /**
   * Nothing acknowledged is lost: what the log held before an operation, and still holds after it, a node
   * that crashes in between has applied once it is up again, whatever crashes went before.
   */
  lemma NothingKeptIsLost(lives: seq<Life>, life: Life, kept: seq<Entry>, id: string, peers: Peers, threshold: nat)
    requires History(lives, id, peers, threshold)
    requires var (r, d) := Now(lives, id, peers, threshold); Lived(r, d, life)
    requires var r := After(Now(lives, id, peers, threshold).0, life.ops);
      kept <= r.node.hist && kept <= Next(r, life.last).node.hist
    ensures var (r, d) := Now(lives, id, peers, threshold);
      var s := Reborn(Remains(r, d, life), id, peers, threshold).node;
      kept <= s.applied == s.hist
  {
    hide OpStates, Legal, Sound, After, DiskAfter, Admissible, Next, History, Now, RecoveredHist, DiskWellFormed,
         Recovered;
    var (r, d) := Now(lives, id, peers, threshold);
    RunIsTrusted(r, d, life.ops);
    var q, d1 := After(r, life.ops), DiskAfter(r, d, life.ops);
    if life.written > 0 {
      StepCrash(q, life.last, d1, life.written - 1, kept);
    }
    RestartReplaysEverything(Remains(r, d, life), id, peers, threshold);
  }

  /** In particular nothing it had applied, unless a snapshot was being installed: its image may be an older state. */
  lemma NothingAppliedIsLost(lives: seq<Life>, life: Life, id: string, peers: Peers, threshold: nat)
    requires History(lives, id, peers, threshold)
    requires var (r, d) := Now(lives, id, peers, threshold); Lived(r, d, life) && !life.last.Install?
    ensures var (r, d) := Now(lives, id, peers, threshold);
      After(r, life.ops).node.applied <= Reborn(Remains(r, d, life), id, peers, threshold).node.applied
  {
    hide OpStates, Legal, Sound, After, DiskAfter, Admissible, Next, History, Now, Recovered, Remains;
    var (r, d) := Now(lives, id, peers, threshold);
    AppliedStays(After(r, life.ops), life.last);
    SoundPrefixes(After(r, life.ops));
    NothingKeptIsLost(lives, life, After(r, life.ops).node.applied, id, peers, threshold);
  }
}
