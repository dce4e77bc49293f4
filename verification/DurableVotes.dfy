/**
 * Votes across restarts. The metadata file has a place for the vote, but handling RequestVote writes no
 * file, and every write that does happen is made by a node that has forgotten its vote or holds its own.
 */
module DurableVotes {
  import opened Basics
  import opened GameFsm
  import opened RaftSpec
  import opened RaftStorage
  import opened RaftNode
  import opened NodeRuns
  import opened CrashRecovery
  import opened Restarts

  /** A candidate or leader has its own vote; the empty name stands for no vote. */
  predicate OwnVote(s: Node) {
    s.id != "" && (s.role.Follower? || s.votedFor == s.id)
  }

  /** The metadata file holds no vote, or the node's own, of no later term. */
  predicate OnFile(d: Disk, s: Node) {
    d.meta.Some? ==> d.meta.value.votedFor in {"", s.id} && d.meta.value.currentTerm <= s.term
  }

  /** No other node's vote is on file. */
  predicate NobodyElse(d: Disk, s: Node) {
    OwnVote(s) && OnFile(d, s)
  }

  /** What an operation does to id, term and role. */
  predicate KeepsOwn(s: Node, s': Node) {
    s'.id == s.id && s.term <= s'.term && OwnVote(s')
  }

  lemma RolesKeepOwn(s: Node, op: Op)
    requires Shape(s) && OwnVote(s)
    ensures match op
      case VoteAsked(vote) => KeepsOwn(s, HandleRequestVote(s, vote))
      case ElectionTimeout => KeepsOwn(s, StartElection(s))
      case Promoted(term) => KeepsOwn(s, Promote(s, term))
      case InstallGarbled(term) => term >= s.term ==> KeepsOwn(s, Adopt(s, term))
      case TermSeen(term) => KeepsOwn(s, CatchUpTerm(s, term))
      case Proposed(command) => KeepsOwn(s, Propose(s, command))
      case Install(term, lastTerm, image) => KeepsOwn(s, HandleInstall(s, term, lastTerm, image))
      case _ => true
  {
    hide LogUpToDate, Indexed;
  }

  lemma ReplyKeepsOwn(s: Node, m: AppendEntriesArgs, peer: string, replyTerm: nat, success: bool)
    requires Shape(s) && OwnVote(s)
    ensures KeepsOwn(s, HandleAppendReply(s, m.term, peer, m, replyTerm, success))
  {
    hide ApplyLoop, TopCommit, Compact;
  }

  lemma StepKeepsOwn(r: Run, op: Op)
    requires Sound(r) && OwnVote(r.node)
    ensures KeepsOwn(r.node, Next(r, op).node)
  {
    RolesKeepOwn(r.node, op);
    hide HandleAppend, HandleAppendReply, HandleInstall, HandleRequestVote, StartElection, Promote, Adopt, CatchUpTerm,
         Propose, OwnVote;
    match op {
      case Append(m) => AppendMakesFollower(r.node, m); FollowersOwn(r.node, HandleAppend(r.node, m));
      case Replied(m, peer, replyTerm, success) => ReplyKeepsOwn(r.node, m, peer, replyTerm, success);
      case InstallGarbled(term) =>
      case Build(_) =>
      case _ =>
    }
  }

  lemma FollowersOwn(s: Node, s': Node)
    requires OwnVote(s) && s'.id == s.id && (s' == s || s'.role.Follower?)
    ensures OwnVote(s')
  {
  }

  /** Whoever writes files has no vote, or its own. */
  lemma WritersVote(r: Run, op: Op, d: Disk)
    requires Sound(r) && Admissible(r, op) && OwnVote(r.node) && |OpStates(r.node, op, d)| > 0
    ensures Next(r, op).node.votedFor in {"", r.node.id}
  {
    var s := r.node;
    match op {
      case Append(m) =>
        AppendHasStates(s, m, d);
        AppendMakesFollower(s, m);
      case Install(term, lastTerm, image) => InstallForgets(s, term, lastTerm, image, d);
      case Proposed(_) =>
      case Replied(m, peer, replyTerm, success) => ReplyWritersVote(s, m, peer, replyTerm, success, d);
      case _ =>
    }
  }

  lemma InstallForgets(s: Node, term: nat, lastTerm: nat, image: seq<Entry>, d: Disk)
    requires Shape(s) && |InstallStates(s, term, lastTerm, image, d)| > 0
    ensures HandleInstall(s, term, lastTerm, image).votedFor == ""
  {
  }

  lemma ReplyWritersVote(s: Node, m: AppendEntriesArgs, peer: string, replyTerm: nat, success: bool, d: Disk)
    requires Shape(s) && OwnVote(s) && |ReplyStates(s, m.term, peer, m, replyTerm, success, d)| > 0
    ensures HandleAppendReply(s, m.term, peer, m, replyTerm, success).votedFor == s.id
  {
    hide ApplyLoop, TopCommit, Compact;
  }

  /** At every write of every operation. */
  lemma WritesKeepVotes(r: Run, op: Op, d: Disk, i: nat)
    requires Sound(r) && Admissible(r, op) && NobodyElse(d, r.node) && i < |OpStates(r.node, op, d)|
    ensures NobodyElse(OpStates(r.node, op, d)[i], Next(r, op).node)
  {
    hide OpStates, Next, Sound, Admissible;
    StepKeepsOwn(r, op);
    WritersVote(r, op, d);
    WritesOf(r, op, d, i);
  }

  lemma {:induction false} RunKeepsVotes(r: Run, d: Disk, ops: seq<Op>)
    requires Sound(r) && Legal(r, ops) && NobodyElse(d, r.node)
    ensures NobodyElse(DiskAfter(r, d, ops), After(r, ops).node) && After(r, ops).node.id == r.node.id
    decreases |ops|
  {
    if |ops| > 0 {
      hide OpStates, Sound, Admissible, Next;
      StepKeepsSound(r, ops[0]);
      StepKeepsOwn(r, ops[0]);
      var w := OpStates(r.node, ops[0], d);
      if |w| > 0 {
        WritesKeepVotes(r, ops[0], d, |w| - 1);
      }
      RunKeepsVotes(Next(r, ops[0]), LastDisk(d, w), ops[1..]);
    }
  }

  lemma RemainsKeepVotes(r: Run, d: Disk, life: Life)
    requires Sound(r) && Lived(r, d, life) && NobodyElse(d, r.node)
    ensures var e := Remains(r, d, life); e.meta.Some? ==> e.meta.value.votedFor in {"", r.node.id}
    ensures life.written == 0 ==> NobodyElse(Remains(r, d, life), After(r, life.ops).node)
  {
    hide OpStates, Legal, Sound, After, DiskAfter, Admissible, Next;
    RunKeepsVotes(r, d, life.ops);
    var q, d1 := After(r, life.ops), DiskAfter(r, d, life.ops);
    if life.written > 0 {
      StepKeepsOwn(q, life.last);
      WritesKeepVotes(q, life.last, d1, life.written - 1);
    }
  }

  lemma RebornHasNone(d: Disk, id: string, peers: Peers, threshold: nat)
    requires id != "" && (d.meta.Some? ==> d.meta.value.votedFor in {"", id})
    ensures var s := Reborn(d, id, peers, threshold).node; NobodyElse(d, s) && s.id == id
  {
    hide ApplyLoop;
  }

  lemma {:induction false} LivesKeepVotes(r: Run, d: Disk, lives: seq<Life>, id: string, peers: Peers, threshold: nat)
    requires Sound(r) && Trusted(d, r.node) && AllLived(r, d, lives, id, peers, threshold)
    requires NobodyElse(d, r.node) && r.node.id == id
    ensures var (q, e) := Survived(r, d, lives, id, peers, threshold); NobodyElse(e, q.node) && q.node.id == id
    decreases |lives|
  {
    hide Sound, Trusted, Lived, Remains, Recovered;
    if |lives| > 0 {
      RemainsAreRestartable(r, d, lives[0]);
      RemainsKeepVotes(r, d, lives[0]);
      var e := Remains(r, d, lives[0]);
      RestartIsSound(e, id, peers, threshold);
      RebornHasNone(e, id, peers, threshold);
      LivesKeepVotes(Reborn(e, id, peers, threshold), e, lives[1..], id, peers, threshold);
    }
  }

  lemma FreshHasNone(id: string, peers: Peers, threshold: nat)
    requires id != ""
    ensures NobodyElse(EMPTY, Start(id, peers, threshold).node)
  {
  }

  /**
   * However often a node has crashed and restarted, and wherever it crashes next, its files never hold a vote
   * given to another node.
   */
  lemma NoVoteForAnotherOnFile(lives: seq<Life>, life: Life, id: string, peers: Peers, threshold: nat)
    requires id != "" && History(lives, id, peers, threshold)
    requires var (r, d) := Now(lives, id, peers, threshold); Lived(r, d, life)
    ensures var (r, d) := Now(lives, id, peers, threshold); var e := Remains(r, d, life);
      e.meta.Some? ==> e.meta.value.votedFor in {"", id}
  {
    hide Sound, Trusted, Lived, Remains, AllLived, Survived;
    StartIsTrusted(id, peers, threshold);
    FreshHasNone(id, peers, threshold);
    LivesKeepVotes(Start(id, peers, threshold), EMPTY, lives, id, peers, threshold);
    var (r, d) := Now(lives, id, peers, threshold);
    RemainsKeepVotes(r, d, life);
  }

  // ---- what a restarted node votes ----------------------------------------------------------------

  /** The metadata stand in the way of a vote: a later term, or another vote of the same term. */
  predicate OnFileAgainst(d: Disk, vote: RequestVoteArgs) {
    && d.meta.Some?
    && (d.meta.value.currentTerm > vote.term
        || (d.meta.value.currentTerm == vote.term && d.meta.value.votedFor !in {"", vote.candidate}))
  }

  /** A restarted node votes by its files alone: for any candidate with an up-to-date log they do not stand against. */
  lemma RestartedVotesIff(d: Disk, id: string, peers: Peers, threshold: nat, vote: RequestVoteArgs)
    requires DiskWellFormed(d)
    ensures var s := Reborn(d, id, peers, threshold).node;
      && |s.snap| <= |s.hist|
      && (GrantsVote(s, vote) <==> LogUpToDate(s, vote.lastIndex, vote.lastTerm) && !OnFileAgainst(d, vote))
  {
    hide ApplyLoop, Beyond, LogUpToDate;
    RestartReplaysEverything(d, id, peers, threshold);
  }

  /**
   * A vote is forgotten by a crash exactly where the files do not hold the node's own candidacy of that term:
   * then a second candidate of the term, up to date with the restarted node, gets it.
   */
  lemma VoteForgottenIff(lives: seq<Life>, life: Life, id: string, peers: Peers, threshold: nat,
                         first: RequestVoteArgs, second: RequestVoteArgs)
    requires id != "" && History(lives, id, peers, threshold)
    requires var (r, d) := Now(lives, id, peers, threshold); Lived(r, d, life)
    requires life.last == VoteAsked(first)
    requires GrantsVote(After(Now(lives, id, peers, threshold).0, life.ops).node, first)
    requires second.term == first.term && second.candidate !in {first.candidate, id}
    ensures var (r, d) := Now(lives, id, peers, threshold); var e := Remains(r, d, life);
      var s := Reborn(e, id, peers, threshold).node;
      && |s.snap| <= |s.hist|
      && (GrantsVote(s, second) <==>
            && LogUpToDate(s, second.lastIndex, second.lastTerm)
            && !(e.meta.Some? && e.meta.value.currentTerm == first.term && e.meta.value.votedFor == id))
  {
    hide Sound, Trusted, Lived, AllLived, Survived, LogUpToDate, OpStates;
    StartIsTrusted(id, peers, threshold);
    FreshHasNone(id, peers, threshold);
    LivesKeepVotes(Start(id, peers, threshold), EMPTY, lives, id, peers, threshold);
    var (r, d) := Now(lives, id, peers, threshold);
    VotesWriteNothing(r, d, life);
    RemainsKeepVotes(r, d, life);
    RemainsAreRestartable(r, d, life);
    RestartedVotesIff(Remains(r, d, life), id, peers, threshold, second);
  }

  /** Handling RequestVote writes no file. */
  lemma VotesWriteNothing(r: Run, d: Disk, life: Life)
    requires Sound(r) && Lived(r, d, life) && life.last.VoteAsked?
    ensures life.written == 0
  {
  }

  // ---- what the metadata tell ---------------------------------------------------------------------

  /** The metadata on file are the node's own indices, term and vote. */
  predicate Tells(d: Disk, s: Node) {
    && d.meta.Some?
    && var m := d.meta.value;
       && m.currentTerm == s.term && m.votedFor == s.votedFor
       && m.commitIndex == s.commit && m.lastApplied == |s.applied|
       && m.snapshotIndex == |s.snap| && m.snapshotTerm == s.snapTerm
  }

  lemma PersistTells(d: Disk, s: Node)
    requires |s.snap| <= |s.hist|
    ensures Tells(LastDisk(d, PersistStates(d, s)), s) && Tells(LastDisk(d, SnapshotStates(d, s)), s)
  {
  }

  lemma AdvanceTells(s: Node, d: Disk)
    requires Shape(s) && |AdvanceStates(s, d)| > 0
    ensures |AdvanceCommit(s).snap| <= |AdvanceCommit(s).hist|
    ensures Tells(LastDisk(d, AdvanceStates(s, d)), AdvanceCommit(s))
  {
    hide ApplyLoop, TopCommit, Tells, Indexed;
    var s1 := ApplyLoop(s.(commit := TopCommit(s, |s.hist|)));
    PersistTells(d, Compact(s1));
  }

  lemma AppendTells(s: Node, m: AppendEntriesArgs, d: Disk)
    requires Shape(s) && AcceptsAppend(s, m) && WellIndexed(m)
    ensures Tells(LastDisk(d, AppendStates(s, m, d)), HandleAppend(s, m))
  {
    hide ApplyLoop, Tells;
    var s1 := ApplyLoop(MergeEntries(Adopt(s, m.term), m));
    var w := CompactStates(s1, d);
    PersistTells(LastDisk(d, w), Compact(s1));
  }

  /** Once an operation that writes is through, the metadata tell the node as it then is. */
  lemma WritesTell(r: Run, op: Op, d: Disk)
    requires Sound(r) && Admissible(r, op) && |OpStates(r.node, op, d)| > 0
    ensures Tells(LastDisk(d, OpStates(r.node, op, d)), Next(r, op).node)
  {
    hide Tells, HandleAppend, HandleInstall, AdvanceCommit, AppendStates, AdvanceStates, AcceptsAppend, Indexed,
         PersistStates, SnapshotStates;
    var s := r.node;
    match op {
      case Append(m) =>
        AppendHasStates(s, m, d);
        AppendTells(s, m, d);
      case Install(term, lastTerm, image) => InstallTells(s, term, lastTerm, image, d);
      case Proposed(c) => PersistTells(d, Propose(s, c));
      case Replied(m, peer, _, _) => AdvanceTells(WithReply(s, m, peer), d);
      case _ =>
    }
  }

  lemma InstallTells(s: Node, term: nat, lastTerm: nat, image: seq<Entry>, d: Disk)
    requires Shape(s) && |InstallStates(s, term, lastTerm, image, d)| > 0
    ensures Tells(LastDisk(d, InstallStates(s, term, lastTerm, image, d)), HandleInstall(s, term, lastTerm, image))
  {
    hide PersistStates, SnapshotStates, Tells;
    PersistTells(d, HandleInstall(s, term, lastTerm, image));
  }

  /** The node as it was after the last operation of the run that wrote files. */
  ghost function LastWritten(r: Run, d: Disk, ops: seq<Op>): Option<Node>
    requires Sound(r) && Legal(r, ops)
    decreases |ops|
  {
    if |ops| == 0 then None
    else
      StepKeepsSound(r, ops[0]);
      var w := OpStates(r.node, ops[0], d);
      var later := LastWritten(Next(r, ops[0]), LastDisk(d, w), ops[1..]);
      if later.Some? then later
      else if |w| > 0 then Some(Next(r, ops[0]).node)
      else None
  }

  lemma {:induction false} FilesTellLastWrite(r: Run, d: Disk, ops: seq<Op>)
    requires Sound(r) && Legal(r, ops)
    ensures match LastWritten(r, d, ops)
      case Some(s) => Tells(DiskAfter(r, d, ops), s)
      case None => DiskAfter(r, d, ops) == d
    decreases |ops|
  {
    if |ops| > 0 {
      hide OpStates, Sound, Admissible, Next, Tells;
      StepKeepsSound(r, ops[0]);
      var w := OpStates(r.node, ops[0], d);
      if |w| > 0 {
        WritesTell(r, ops[0], d);
      }
      FilesTellLastWrite(Next(r, ops[0]), LastDisk(d, w), ops[1..]);
    }
  }

  /** After any run a restarted node is in the term, and with the vote, it had after its last write. */
  lemma RestartedWhereLastWritten(ops: seq<Op>, id: string, peers: Peers, threshold: nat)
    requires Sound(Start(id, peers, threshold)) && Legal(Start(id, peers, threshold), ops)
    ensures var s := Reborn(DiskAfter(Start(id, peers, threshold), EMPTY, ops), id, peers, threshold).node;
      match LastWritten(Start(id, peers, threshold), EMPTY, ops)
      case Some(w) => s.term == w.term && s.votedFor == w.votedFor
      case None => s.term == 0 && s.votedFor == ""
  {
    hide ApplyLoop, Sound, Legal, DiskAfter, LastWritten;
    FilesTellLastWrite(Start(id, peers, threshold), EMPTY, ops);
  }
}
