/**
 * One node over any run of operations: what keeps its state machine and its snapshot equal to the
 * replay of its log, and what a leader may rely on when it builds messages.
 */
module NodeRuns {
  import opened Basics
  import opened GameFsm
  import opened FsmCodec
  import opened RaftSpec

  // ---- the cut that AppendEntries makes -----------------------------------------------------

  /** The message covers every applied entry past its starting point, and agrees with it. */
  predicate KeepsApplied(s: Node, m: AppendEntriesArgs)
    requires |s.applied| <= |s.hist|
  {
    && |s.applied| <= m.prevIndex + |m.entries|
    && forall i :: m.prevIndex <= i < |s.applied| ==> EntriesFromArgs(m)[i - m.prevIndex] == s.hist[i]
  }

  /** Handling the message cuts nothing that was applied. */
  predicate HarmlessAppend(s: Node, m: AppendEntriesArgs)
    requires |s.applied| <= |s.hist|
  {
    AcceptsAppend(s, m) && |m.entries| > 0 ==> KeepsApplied(s, m)
  }

  /** Everything committed has been applied. */
  predicate Settled(s: Node) {
    s.commit <= |s.applied|
  }

  lemma AgreeingPrefix(a: seq<Entry>, h: seq<Entry>, p: nat, es: seq<Entry>)
    requires a <= h && p <= |h|
    ensures a <= h[..p] + es
       <==> |a| <= p + |es| && forall i :: p <= i < |a| ==> es[i - p] == h[i]
  {
    var merged := h[..p] + es;
    if |a| <= |merged| && forall i :: p <= i < |a| ==> es[i - p] == h[i] {
      forall i | 0 <= i < |a| ensures a[i] == merged[i] {
      }
    }
    if a <= merged {
      forall i | p <= i < |a| ensures es[i - p] == h[i] {
        assert a[i] == merged[i];
      }
    }
  }

  lemma LoopKeepsPrefix(s: Node)
    ensures ApplyLoop(s).applied <= s.hist <==> s.applied <= s.hist
    ensures |s.applied| <= |ApplyLoop(s).applied| && (s.snap <= s.applied ==> s.snap <= ApplyLoop(s).applied)
    ensures |s.applied| <= |s.hist| ==> |ApplyLoop(s).applied| <= |s.hist|
    ensures |s.applied| <= |s.hist| ==> (Settled(ApplyLoop(s)) <==> s.commit <= |s.hist|)
  {
    hide ApplyLoop;
    ApplyLoopRunsAhead(s);
    ExtendAlong(s.applied, s.hist, Min(s.commit, |s.hist|));
  }

  /** Applying extends the applied entries along the log, and never past its end. */
  lemma ApplyKeepsPrefix(s: Node)
    requires Shape(s)
    ensures Shape(ApplyCommitted(s))
    ensures ApplyLoop(s).applied <= s.hist <==> s.applied <= s.hist
    ensures ApplyCommitted(s).applied == ApplyLoop(s).applied
    ensures s.applied <= s.hist ==> Settled(ApplyCommitted(s)) == (s.commit <= Max(|s.hist|, |s.applied|))
    ensures s.snap <= s.applied <= s.hist && s.snapTerm == TermAt(s.hist, |s.snap|) ==> Consistent(ApplyCommitted(s))
  {
    hide Encodable, ApplyLoop, Indexed, Replay;
    LoopKeepsPrefix(s);
  }

  lemma ExtendAlong(a: seq<Entry>, h: seq<Entry>, top: nat)
    requires top <= |h|
    ensures var b := a + (if |a| < top then h[|a|..top] else []);
            a <= b && (b <= h <==> a <= h)
  {
    if a <= h && |a| < top {
      assert h[..|a|] + h[|a|..top] == h[..top];
    }
  }

  /** The merged log, before anything is applied to it. */
  lemma MergeFacts(s: Node, m: AppendEntriesArgs)
    requires Shape(s) && Consistent(s) && AcceptsAppend(s, m) && WellIndexed(m)
    ensures var s1 := MergeEntries(Adopt(s, m.term), m);
      && Shape(s1) && s1.snap <= s1.applied && s1.snapTerm == TermAt(s1.hist, |s1.snap|)
      && (s1.applied <= s1.hist <==> HarmlessAppend(s, m))
      && (Settled(s) ==> s1.commit <= Max(|s1.hist|, |s1.applied|))
  {
    var h := MergedHist(s, m);
    MergedHistFacts(s, m);
    hide EntriesFromArgs, Indexed, HarmlessAppend, MergedHist, TermAt, AcceptsAppend;
    assert MergeEntries(Adopt(s, m.term), m).hist == h by {
      SameMerge(s, Adopt(s, m.term), m);
    }
  }

  lemma SameMerge(s: Node, s1: Node, m: AppendEntriesArgs)
    requires s.hist == s1.hist && m.prevIndex <= |s.hist|
    ensures MergedHist(s, m) == MergedHist(s1, m)
  {
  }

  lemma MergedHistFacts(s: Node, m: AppendEntriesArgs)
    requires Shape(s) && Consistent(s) && AcceptsAppend(s, m) && WellIndexed(m)
    ensures var h := MergedHist(s, m);
      && |s.snap| <= |h| && Indexed(h, 1) && TermAt(h, |s.snap|) == TermAt(s.hist, |s.snap|)
      && (s.applied <= h <==> HarmlessAppend(s, m))
  {
    hide EntriesFromArgs, Indexed;
    AgreeingPrefix(s.applied, s.hist, m.prevIndex, EntriesFromArgs(m));
    CutKeepsIndexing(s.hist, m.prevIndex, EntriesFromArgs(m));
  }

  lemma CutKeepsIndexing(h: seq<Entry>, p: nat, es: seq<Entry>)
    requires Indexed(h, 1) && p <= |h| && Indexed(es, p + 1)
    ensures Indexed(h[..p] + es, 1)
    ensures forall k :: 0 <= k <= p ==> TermAt(h[..p] + es, k) == TermAt(h, k)
  {
  }

  /** AppendEntries leaves the applied entries a prefix of the log exactly when the message keeps them. */
  lemma AppendConsistentIff(s: Node, m: AppendEntriesArgs)
    requires Shape(s) && Consistent(s) && WellIndexed(m)
    ensures Consistent(HandleAppend(s, m)) <==> HarmlessAppend(s, m)
    ensures Shape(HandleAppend(s, m))
    ensures HarmlessAppend(s, m) && Settled(s) ==> Settled(HandleAppend(s, m))
  {
    if AcceptsAppend(s, m) {
      hide MergeEntries, HarmlessAppend, Indexed, ApplyLoop, Compact, Encodable;
      MergeFacts(s, m);
      ApplyKeepsPrefix(MergeEntries(Adopt(s, m.term), m));
    }
  }

  /** A harmless message never brings the node down. */
  lemma HarmlessNeverPanics(s: Node, m: AppendEntriesArgs)
    requires Shape(s) && Consistent(s) && WellIndexed(m) && HarmlessAppend(s, m)
    ensures !AppendPanics(s, m)
  {
    if AcceptsAppend(s, m) {
      hide MergeEntries, HarmlessAppend, Indexed, ApplyLoop, Encodable;
      MergeFacts(s, m);
      ApplyKeepsPrefix(MergeEntries(Adopt(s, m.term), m));
    }
  }

  /**
   * Handling a message brings the node down exactly when it is accepted, cuts the log below what was applied,
   * and leaves enough entries for a compaction that can be encoded.
   */
  lemma AppendPanicsIff(s: Node, m: AppendEntriesArgs)
    requires Shape(s) && |s.applied| <= |s.hist|
    ensures AppendPanics(s, m) <==>
      && AcceptsAppend(s, m) && |m.entries| > 0
      && |s.snap| + s.threshold <= m.prevIndex + |m.entries| < |s.applied|
      && Encodable(Replay(s.applied))
  {
    hide Encodable, Replay, ApplyLoop, Indexed, EntriesFromArgs, TermOf;
    if AcceptsAppend(s, m) {
      var s1 := MergeEntries(Adopt(s, m.term), m);
      ApplyLoopRunsAhead(s1);
      assert s1.applied + [] == s1.applied;
      assert |s1.hist| == if |m.entries| > 0 then m.prevIndex + |m.entries| else |s.hist|;
    }
  }

  // ---- runs ---------------------------------------------------------------------------------

  /** InstallGarbled is a snapshot that cannot be decoded; TermSeen a reply to a vote request, or to a probe. */
  datatype Op =
    | VoteAsked(vote: RequestVoteArgs)
    | Append(m: AppendEntriesArgs)
    | Install(term: nat, lastTerm: nat, image: seq<Entry>)
    | InstallGarbled(term: nat)
    | TermSeen(term: nat)
    | ElectionTimeout
    | Promoted(term: nat)
    | Proposed(command: Command)
    | Build(peer: string)
    | Replied(m: AppendEntriesArgs, peer: string, replyTerm: nat, success: bool)

  /** The node, and every message it has built. */
  datatype Run = Run(node: Node, sent: set<AppendEntriesArgs>)

  ghost function Next(r: Run, op: Op): Run
    requires Shape(r.node) && LeaderBounds(r.node)
  {
    var s := r.node;
    match op
    case VoteAsked(vote) => r.(node := HandleRequestVote(s, vote))
    case Append(m) => r.(node := HandleAppend(s, m))
    case Install(term, lastTerm, image) => r.(node := HandleInstall(s, term, lastTerm, image))
    case InstallGarbled(term) => if term < s.term then r else r.(node := Adopt(s, term))
    case TermSeen(term) => r.(node := CatchUpTerm(s, term))
    case ElectionTimeout => r.(node := StartElection(s))
    case Promoted(term) => r.(node := Promote(s, term))
    case Proposed(command) => r.(node := Propose(s, command))
    case Build(peer) =>
      if s.role.Leader? && TaskFor(s, peer).SendEntries? then r.(sent := r.sent + {TaskFor(s, peer).args}) else r
    case Replied(m, peer, replyTerm, success) =>
      r.(node := HandleAppendReply(s, m.term, peer, m, replyTerm, success))
  }

  /** What the run may contain: harmless appends, truthful snapshots, replies to messages it sent. */
  predicate Admissible(r: Run, op: Op)
    requires |r.node.applied| <= |r.node.hist|
  {
    match op
    case Append(m) => WellIndexed(m) && HarmlessAppend(r.node, m)
    case Install(_, lastTerm, image) => Indexed(image, 1) && TermAt(image, |image|) == lastTerm
    case Replied(m, _, _, _) => m in r.sent
    case _ => true
  }

  /** A message's entries are still in the log of the leader that built it. */
  predicate SentWithinLog(r: Run) {
    forall m :: m in r.sent ==>
      && m.term <= r.node.term
      && (r.node.role.Candidate? ==> m.term < r.node.term)
      && (r.node.role.Leader? && m.term == r.node.term ==> m.prevIndex + |m.entries| <= |r.node.hist|)
  }

  predicate Sound(r: Run) {
    && Shape(r.node) && Consistent(r.node) && Settled(r.node)
    && LeaderBounds(r.node) && SentWithinLog(r)
  }

  /** A change of term or role that leaves the log alone. */
  predicate OnlyRole(s: Node, s': Node) {
    && s'.hist == s.hist && s'.applied == s.applied && s'.snap == s.snap && s'.snapTerm == s.snapTerm
    && s'.commit == s.commit && LeaderBounds(s') && s.term <= s'.term
    && (s'.role.Candidate? ==> s'.term > s.term || s.role.Candidate?)
    && (s'.role.Leader? ==> s'.term == s.term && !s.role.Follower?)
  }

  lemma RoleKeepsSound(r: Run, s': Node)
    requires Sound(r) && OnlyRole(r.node, s')
    ensures Sound(r.(node := s'))
  {
    hide ProgressWithin, Indexed, TermAt;
  }

  lemma RoleSteps(s: Node, op: Op)
    requires Shape(s) && LeaderBounds(s)
    ensures match op
      case VoteAsked(vote) => OnlyRole(s, HandleRequestVote(s, vote))
      case ElectionTimeout => OnlyRole(s, StartElection(s))
      case Promoted(term) => OnlyRole(s, Promote(s, term))
      case InstallGarbled(term) => term >= s.term ==> OnlyRole(s, Adopt(s, term))
      case TermSeen(term) => OnlyRole(s, CatchUpTerm(s, term))
      case _ => true
  {
    hide LogUpToDate, Indexed;
  }

  lemma ProposeKeepsSound(r: Run, command: Command)
    requires Sound(r)
    ensures Sound(Next(r, Proposed(command)))
  {
    var s := r.node;
    var h := s.hist + [Entry(|s.hist| + 1, s.term, command)];
    assert TermAt(h, |s.snap|) == TermAt(s.hist, |s.snap|);
  }

  lemma StepKeepsSound(r: Run, op: Op)
    requires Sound(r) && Admissible(r, op)
    ensures Sound(Next(r, op))
  {
    RoleSteps(r.node, op);
    hide HandleAppend, HandleAppendReply, HandleInstall, TaskFor, HandleRequestVote, StartElection, Promote,
         Propose, Adopt, CatchUpTerm, OnlyRole, HarmlessAppend, WellIndexed, Indexed, SentWithinLog, Consistent,
         Settled;
    match op {
      case Append(m) => AppendKeepsSound(r, m);
      case Replied(m, peer, replyTerm, success) => ReplyKeepsSound(r, m, peer, replyTerm, success);
      case Install(term, lastTerm, image) => InstallKeepsSound(r, term, lastTerm, image);
      case Build(peer) => BuildKeepsSound(r, peer);
      case Proposed(command) => ProposeKeepsSound(r, command);
      case InstallGarbled(term) =>
        if term >= r.node.term {
          RoleKeepsSound(r, Adopt(r.node, term));
        }
      case VoteAsked(vote) => RoleKeepsSound(r, HandleRequestVote(r.node, vote));
      case ElectionTimeout => RoleKeepsSound(r, StartElection(r.node));
      case Promoted(term) => RoleKeepsSound(r, Promote(r.node, term));
      case TermSeen(term) => RoleKeepsSound(r, CatchUpTerm(r.node, term));
    }
  }

  lemma BuildKeepsSound(r: Run, peer: string)
    requires Sound(r)
    ensures Sound(Next(r, Build(peer)))
  {
  }

  /** The image followed by the tail that is kept. */
  lemma SplicedFacts(h: seq<Entry>, image: seq<Entry>)
    requires Indexed(h, 1) && Indexed(image, 1)
    ensures var h' := image + (if |image| < |h| then h[|image|..] else []);
      image <= h' && |h| <= |h'| && Indexed(h', 1) && TermAt(h', |image|) == TermAt(image, |image|)
  {
  }

  lemma InstallKeepsSound(r: Run, term: nat, lastTerm: nat, image: seq<Entry>)
    requires Sound(r) && Indexed(image, 1) && TermAt(image, |image|) == lastTerm
    ensures Sound(Next(r, Install(term, lastTerm, image)))
  {
    hide Indexed, TermAt;
    SplicedFacts(r.node.hist, image);
  }

  lemma AppendKeepsSound(r: Run, m: AppendEntriesArgs)
    requires Sound(r) && WellIndexed(m) && HarmlessAppend(r.node, m)
    ensures Sound(Next(r, Append(m)))
  {
    AppendConsistentIff(r.node, m);
    AppendMakesFollower(r.node, m);
  }

  /** Whoever handles a message of its term or a later one follows its sender from then on. */
  lemma AppendMakesFollower(s: Node, m: AppendEntriesArgs)
    requires Shape(s) && LeaderBounds(s)
    ensures var s' := HandleAppend(s, m);
      if m.term < s.term then s' == s
      else s'.term == m.term && s'.role.Follower? && s'.votedFor == "" && s'.next == map[] && s'.matched == map[]
           && s'.id == s.id
  {
    hide Encodable, Indexed, MergeEntries;
    if AcceptsAppend(s, m) {
      FollowerApplyTracksNobody(MergeEntries(Adopt(s, m.term), m));
    }
  }

  /** Applying on a follower leaves its (empty) replication state empty. */
  lemma {:induction false} FollowerApplyTracksNobody(s: Node)
    requires s.role.Follower? && s.next == map[] && s.matched == map[]
    ensures ApplyLoop(s).next == map[] && ApplyLoop(s).matched == map[]
    decreases s.commit - |s.applied|
  {
    if |s.applied| < s.commit && |s.applied| < |s.hist| {
      FollowerApplyTracksNobody(ApplyEntry(s, s.hist[|s.applied|]));
    }
  }

  /** Applying on a leader keeps its bookkeeping within the log. */
  lemma {:induction false} ApplyKeepsBounds(s: Node)
    requires LeaderBounds(s)
    ensures LeaderBounds(ApplyLoop(s))
    decreases s.commit - |s.applied|
  {
    if |s.applied| < s.commit && |s.applied| < |s.hist| {
      ApplyKeepsBounds(ApplyEntry(s, s.hist[|s.applied|]));
    }
  }

  lemma ReplyKeepsSound(r: Run, m: AppendEntriesArgs, peer: string, replyTerm: nat, success: bool)
    requires Sound(r) && m in r.sent
    ensures Sound(Next(r, Replied(m, peer, replyTerm, success)))
  {
    hide Encodable, Replay, AdvanceCommit, Indexed;
    var s := r.node;
    if replyTerm <= s.term && s.role.Leader? && s.term == m.term && success {
      var top := m.prevIndex + |m.entries|;
      AdvanceKeepsSound(s.(matched := s.matched[peer := top], next := s.next[peer := top + 1]));
    }
  }

  lemma AdvanceKeepsSound(s: Node)
    requires Shape(s) && Consistent(s) && LeaderBounds(s) && Settled(s)
    ensures var s' := AdvanceCommit(s);
      && Shape(s') && Consistent(s') && LeaderBounds(s') && Settled(s')
      && s'.hist == s.hist && s'.term == s.term && s'.role == s.role
  {
    hide Encodable, Replay, ApplyLoop, TopCommit, Indexed, ProgressWithin;
    var s1 := s.(commit := TopCommit(s, |s.hist|));
    ApplyKeepsPrefix(s1);
    ApplyKeepsBounds(s1);
  }

  /** A run: each operation admissible where it happens. */
  ghost predicate Legal(r: Run, ops: seq<Op>)
    requires Sound(r)
    decreases |ops|
  {
    |ops| == 0
    || (Admissible(r, ops[0]) && (StepKeepsSound(r, ops[0]); Legal(Next(r, ops[0]), ops[1..])))
  }

  /** Every admissible run ends with snapshot, state machine and log in step. */
  ghost function After(r: Run, ops: seq<Op>): (q: Run)
    requires Sound(r) && Legal(r, ops)
    ensures Sound(q)
    decreases |ops|
  {
    if |ops| == 0 then r
    else StepKeepsSound(r, ops[0]); After(Next(r, ops[0]), ops[1..])
  }

  /** A node that has just been created, and has sent nothing. */
  function Start(id: string, peers: Peers, threshold: nat): (r: Run)
    ensures Sound(r)
  {
    Run(Fresh(id, peers, threshold), {})
  }

  /** At the end of any such run, every message the leader builds is in range and commits only what it carries. */
  lemma TasksAreInRange(id: string, peers: Peers, threshold: nat, ops: seq<Op>, peer: string)
    requires Legal(Start(id, peers, threshold), ops)
    ensures var s := After(Start(id, peers, threshold), ops).node;
      && Shape(s) && LeaderBounds(s)
      && (forall p :: p in s.next ==> s.next[p] <= |s.hist| + 1)
      && (forall p :: p in s.matched ==> s.matched[p] <= |s.hist|)
      && (TaskFor(s, peer).SendEntries? ==>
            var m := TaskFor(s, peer).args;
            m.prevIndex + |m.entries| == |s.hist| && m.leaderCommit <= m.prevIndex + |m.entries|)
  {
    hide Legal;
    assert Sound(After(Start(id, peers, threshold), ops));
  }

  // ---- runs with appends that do harm -------------------------------------------------------------

  /** What the log arithmetic relies on, whatever was cut. */
  predicate InBounds(r: Run) {
    Shape(r.node) && LeaderBounds(r.node) && SentWithinLog(r)
  }

  /** Messages number their entries, snapshots too, and replies are to messages sent. */
  predicate WellFormed(r: Run, op: Op) {
    match op
    case Append(m) => WellIndexed(m)
    case Install(_, _, image) => Indexed(image, 1)
    case Replied(m, _, _, _) => m in r.sent
    case _ => true
  }

  lemma MergeKeepsShape(s: Node, m: AppendEntriesArgs)
    requires Shape(s) && AcceptsAppend(s, m) && WellIndexed(m)
    ensures Shape(MergeEntries(Adopt(s, m.term), m))
  {
    hide EntriesFromArgs, Indexed;
    CutKeepsIndexing(s.hist, m.prevIndex, EntriesFromArgs(m));
  }

  lemma AppendStaysInBounds(r: Run, m: AppendEntriesArgs)
    requires InBounds(r) && WellIndexed(m)
    ensures InBounds(Next(r, Append(m)))
  {
    hide HandleAppend;
    AppendMakesFollower(r.node, m);
    AppendKeepsShape(r.node, m);
  }

  lemma AppendKeepsShape(s: Node, m: AppendEntriesArgs)
    requires Shape(s) && WellIndexed(m)
    ensures Shape(HandleAppend(s, m))
  {
    if AcceptsAppend(s, m) {
      hide Shape, ApplyCommitted, MergeEntries, WellIndexed;
      MergeKeepsShape(s, m);
      ApplyKeepsPrefix(MergeEntries(Adopt(s, m.term), m));
    }
  }

  lemma AdvanceStaysInBounds(s: Node)
    requires Shape(s) && LeaderBounds(s)
    ensures var s' := AdvanceCommit(s);
      && Shape(s') && LeaderBounds(s') && s'.hist == s.hist && s'.term == s.term && s'.role == s.role
  {
    hide Encodable, Replay, ApplyLoop, TopCommit, Indexed, ProgressWithin;
    var s1 := s.(commit := TopCommit(s, |s.hist|));
    ApplyKeepsPrefix(s1);
    ApplyKeepsBounds(s1);
  }

  lemma ReplyStaysInBounds(r: Run, m: AppendEntriesArgs, peer: string, replyTerm: nat, success: bool)
    requires InBounds(r) && m in r.sent
    ensures InBounds(Next(r, Replied(m, peer, replyTerm, success)))
  {
    hide AdvanceCommit, Indexed;
    var s := r.node;
    if replyTerm <= s.term && s.role.Leader? && s.term == m.term && success {
      var top := m.prevIndex + |m.entries|;
      AdvanceStaysInBounds(s.(matched := s.matched[peer := top], next := s.next[peer := top + 1]));
    }
  }

  lemma InstallStaysInBounds(r: Run, term: nat, lastTerm: nat, image: seq<Entry>)
    requires InBounds(r) && Indexed(image, 1)
    ensures InBounds(Next(r, Install(term, lastTerm, image)))
  {
    hide Indexed, TermAt;
    SplicedFacts(r.node.hist, image);
  }

  lemma RoleStaysInBounds(r: Run, s': Node)
    requires InBounds(r) && OnlyRole(r.node, s')
    ensures InBounds(r.(node := s'))
  {
    hide ProgressWithin, Indexed;
  }

  lemma BuildStaysInBounds(r: Run, op: Op)
    requires InBounds(r) && (op.Build? || op.Proposed?)
    ensures InBounds(Next(r, op))
  {
  }

  /** Every operation keeps what the log arithmetic relies on. */
  lemma StepStaysInBounds(r: Run, op: Op)
    requires InBounds(r) && WellFormed(r, op)
    ensures InBounds(Next(r, op))
  {
    RoleSteps(r.node, op);
    hide HandleAppend, HandleAppendReply, HandleInstall, TaskFor, HandleRequestVote, StartElection, Promote,
         Propose, Adopt, CatchUpTerm, OnlyRole, WellIndexed, Indexed, SentWithinLog;
    match op {
      case Append(m) => AppendStaysInBounds(r, m);
      case Replied(m, peer, replyTerm, success) => ReplyStaysInBounds(r, m, peer, replyTerm, success);
      case Install(term, lastTerm, image) => InstallStaysInBounds(r, term, lastTerm, image);
      case Build(_) => BuildStaysInBounds(r, op);
      case Proposed(_) => BuildStaysInBounds(r, op);
      case InstallGarbled(term) =>
        if term >= r.node.term {
          RoleStaysInBounds(r, Adopt(r.node, term));
        }
      case VoteAsked(vote) => RoleStaysInBounds(r, HandleRequestVote(r.node, vote));
      case ElectionTimeout => RoleStaysInBounds(r, StartElection(r.node));
      case Promoted(term) => RoleStaysInBounds(r, Promote(r.node, term));
      case TermSeen(term) => RoleStaysInBounds(r, CatchUpTerm(r.node, term));
    }
  }

  /** A run of well-formed operations, harmful appends included. */
  ghost predicate AnyRun(r: Run, ops: seq<Op>)
    requires InBounds(r)
    decreases |ops|
  {
    |ops| == 0
    || (WellFormed(r, ops[0]) && (StepStaysInBounds(r, ops[0]); AnyRun(Next(r, ops[0]), ops[1..])))
  }

  ghost function AfterAny(r: Run, ops: seq<Op>): (q: Run)
    requires InBounds(r) && AnyRun(r, ops)
    ensures InBounds(q)
    decreases |ops|
  {
    if |ops| == 0 then r
    else StepStaysInBounds(r, ops[0]); AfterAny(Next(r, ops[0]), ops[1..])
  }

  // ---- where the condition fails ------------------------------------------------------------

  const FIRST: Entry := Entry(1, 1, DebugNoop)
  const SECOND: Entry := Entry(2, 1, DebugNoop)

  /** A follower of term 1 that has applied two entries. */
  function TwoApplied(threshold: nat): Node {
    Fresh("b", map["a" := "", "b" := ""], threshold).(
      term := 1, hist := [FIRST, SECOND], applied := [FIRST, SECOND], commit := 2)
  }

  /** A delayed copy of the message that carried only the first of them. */
  const STALE: AppendEntriesArgs := AppendEntriesArgs(1, "a", 0, 0, [FIRST], 0)

  lemma StaleLeavesOne(threshold: nat)
    ensures var s := TwoApplied(threshold);
      && AcceptsAppend(s, STALE) && WellIndexed(STALE)
      && ApplyLoop(MergeEntries(Adopt(s, 1), STALE)) == s.(hist := [FIRST])
  {
    var s := TwoApplied(threshold);
    assert EntriesFromArgs(STALE) == [FIRST];
    assert s.hist[..0] + [FIRST] == [FIRST];
    ApplyLoopStep(MergeEntries(Adopt(s, 1), STALE));
  }

  /** The delayed copy is accepted, cuts an applied entry, and the state machine no longer matches the log. */
  lemma StaleAppendUndoesApplied(threshold: nat)
    ensures var s := TwoApplied(threshold);
      && Shape(s) && Consistent(s) && Settled(s) && AcceptsAppend(s, STALE) && STALE.entries <= s.hist
      && HandleAppend(s, STALE).hist == [FIRST] && HandleAppend(s, STALE).applied == s.applied
      && !Consistent(HandleAppend(s, STALE))
  {
    StaleLeavesOne(threshold);
    hide Encodable, MergeEntries, ApplyLoop;
  }

  /** When compaction is due at that point, it reads past the end of the log. */
  lemma StaleAppendPanics()
    ensures AppendPanics(TwoApplied(1), STALE)
  {
    hide MergeEntries, ApplyLoop, Indexed;
    StaleLeavesOne(1);
    ReplayStep([], FIRST);
    ReplayStep([FIRST], SECOND);
    assert [] + [FIRST] == [FIRST] && [FIRST] + [SECOND] == [FIRST, SECOND];
    assert Replay([FIRST, SECOND]) == map[];
  }
}
