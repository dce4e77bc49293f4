/** Durable Raft state: three files, each replaced atomically (pkg/database/storage.go). */
module RaftStorage {
  import opened Basics
  import opened GameFsm
  import opened FsmCodec
  import opened SnapshotFile
  import opened RaftSpec

  datatype RaftMeta = RaftMeta(
    snapshotIndex: nat, snapshotTerm: nat, commitIndex: nat, lastApplied: nat, currentTerm: nat, votedFor: string)

  /** A snapshot file seen as the entries its state is the replay of. */
  datatype Image = Image(entries: seq<Entry>, term: nat)

  /** The contents of the three files; a missing log file reads as no entries. */
  datatype Disk = Disk(image: Option<Image>, log: seq<Entry>, meta: Option<RaftMeta>)

  function ImageEntries(d: Disk): seq<Entry> {
    if d.image.Some? then d.image.value.entries else []
  }

  function ImageTerm(d: Disk): nat {
    if d.image.Some? then d.image.value.term else 0
  }

  function MetaOf(s: Node): RaftMeta {
    RaftMeta(|s.snap|, s.snapTerm, s.commit, |s.applied|, s.term, s.votedFor)
  }

  /** The files a node's state corresponds to once everything is written. */
  function WithSnapshot(d: Disk, s: Node): Disk {
    d.(image := Some(Image(s.snap, s.snapTerm)))
  }

  function WithLog(d: Disk, s: Node): Disk
    requires |s.snap| <= |s.hist|
  {
    d.(log := s.hist[|s.snap|..])
  }

  function WithMeta(d: Disk, s: Node): Disk {
    d.(meta := Some(MetaOf(s)))
  }

  /** The disk states passed through while the log, then the metadata, is replaced. */
  function PersistStates(d: Disk, s: Node): (w: seq<Disk>)
    requires |s.snap| <= |s.hist|
    ensures |w| == 2
  {
    [WithLog(d, s), WithMeta(WithLog(d, s), s)]
  }

  /** Those passed through while the snapshot, the log and the metadata are replaced. */
  function SnapshotStates(d: Disk, s: Node): (w: seq<Disk>)
    requires |s.snap| <= |s.hist|
    ensures |w| == 3
  {
    [WithSnapshot(d, s)] + PersistStates(WithSnapshot(d, s), s)
  }

  // ---- what a restart makes of the files ----------------------------------------------------

  /** The entries of a log file with an index above k. */
  function Beyond(es: seq<Entry>, k: nat): seq<Entry> {
    if |es| == 0 then []
    else Beyond(es[..|es| - 1], k) + (if es[|es| - 1].index > k then [es[|es| - 1]] else [])
  }

  lemma {:induction false} BeyondIsSuffix(es: seq<Entry>, first: nat, k: nat)
    requires Indexed(es, first) && 1 <= first <= k + 1
    ensures Beyond(es, k) == if k + 1 - first <= |es| then es[k + 1 - first..] else []
  {
    if |es| > 0 {
      BeyondIsSuffix(es[..|es| - 1], first, k);
    }
  }

  /** The log file numbers its entries without gaps and starts no later than the snapshot ends. */
  predicate DiskWellFormed(d: Disk) {
    && Indexed(ImageEntries(d), 1)
    && (|d.log| > 0 ==> 1 <= d.log[0].index <= |ImageEntries(d)| + 1 && Indexed(d.log, d.log[0].index))
    && (d.meta.Some? ==> d.meta.value.snapshotIndex <= |ImageEntries(d)|)
  }

  function RecoveredHist(d: Disk): seq<Entry> {
    ImageEntries(d) + Beyond(d.log, |ImageEntries(d)|)
  }

  /** The node as loaded, before the log is replayed: everything in the log counts as committed. */
  function Loaded(d: Disk, s: Node): Node {
    var h := RecoveredHist(d);
    var meta := if d.meta.Some? then d.meta.value else RaftMeta(0, 0, 0, 0, 0, "");
    s.(hist := h, applied := ImageEntries(d), snap := ImageEntries(d), snapTerm := ImageTerm(d),
       commit := Max(Max(meta.commitIndex, s.commit), |h|),
       term := Max(meta.currentTerm, s.term),
       votedFor := if meta.votedFor != "" then meta.votedFor else s.votedFor)
  }

  function Recovered(d: Disk, s: Node): Node {
    ApplyLoop(Loaded(d, s))
  }

  class RaftStorage {
    var snapshotFile: Option<SnapshotRecord>
    var logFile: seq<Entry>
    var metaFile: Option<RaftMeta>

    ghost var image: seq<Entry>
    /** Every disk state so far, oldest first: a crash leaves one of them behind. */
    ghost var trace: seq<Disk>

    ghost predicate Valid()
      reads this
    {
      && |trace| > 0 && trace[|trace| - 1] == View()
      && (snapshotFile.Some? ==>
           && snapshotFile.value.index == |image|
           && (|image| < 0x8000_0000 ==> Decode(snapshotFile.value.data) == Ok(Replay(image))))
    }

    ghost function View(): Disk
      reads this
    {
      Disk(if snapshotFile.Some? then Some(Image(image, snapshotFile.value.term)) else None, logFile, metaFile)
    }

    constructor ()
      ensures Valid()
      ensures View() == Disk(None, [], None)
      ensures trace == [View()]
    {
      snapshotFile, logFile, metaFile := None, [], None;
      image, trace := [], [Disk(None, [], None)];
    }

    method PersistSnapshot(index: nat, term: nat, data: Bytes, ghost entries: seq<Entry>)
      requires Valid()
      requires index == |entries|
      requires |entries| < 0x8000_0000 ==> Decode(data) == Ok(Replay(entries))
      modifies this
      ensures Valid()
      ensures View() == old(View()).(image := Some(Image(entries, term)))
      ensures trace == old(trace) + [View()]
    {
      snapshotFile := Some(SnapshotRecord(index, term, data));
      image := entries;
      trace := trace + [View()];
    }

    /** The log file first, then the metadata file. */
    method PersistLog(entries: seq<Entry>, meta: RaftMeta)
      requires Valid()
      modifies this
      ensures Valid()
      ensures trace == old(trace) + [old(View()).(log := entries), View()]
      ensures View() == old(View()).(log := entries, meta := Some(meta))
    {
      logFile := entries;
      trace := trace + [View()];
      metaFile := Some(meta);
      trace := trace + [View()];
    }
  }
}
