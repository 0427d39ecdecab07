/**
 What holds of the lock-free cache in every run: grace-period safety, freedom from ABA,
 and the life of a payload block.
 */
module CacheSafety {
  import opened CacheMachine
  import opened CacheInvariant

  /** `s` is reached by some run. */
  ghost predicate Reached(c: Config, s0: State, xs: seq<Action>, s: State) {
    Init(c, s0) && Executable(c, s0, xs) && s == After(c, s0, xs)
  }

  lemma ReachedInv(c: Config, s0: State, xs: seq<Action>, s: State)
    requires Reached(c, s0, xs, s)
    ensures Inv(c, s)
  {
    InitInv(c, s0);
    RunKeepsInvariant(c, s0, xs);
  }

  // ----- grace-period safety

  ghost predicate IsLinked(s: State, q: nat) {
    exists i :: 0 <= i < |s.buckets| && s.buckets[i] == At(q)
  }

  ghost predicate AwaitsRetire(s: State, q: nat) {
    exists u :: 0 <= u < |s.threads| && Pending(s.threads[u].pc) == At(q)
  }

  /** Retired in an epoch the thread entered no later than, and not yet of age. */
  ghost predicate WaitsFor(s: State, q: nat, t: nat)
    requires t < |s.threads|
  {
    exists e: nat :: Node(q, e) in s.retired && s.threads[t].local <= e <= s.global < e + GRACE
  }

  /** The pointer still points into the allocation it was read from, and that is not in any pool. */
  ghost predicate Intact(s: State, r: Ref) {
    r.q < |s.blocks| && !s.blocks[r.q].inPool && s.blocks[r.q].serial == r.serial
  }

  /** In the present section of thread `t` the epoch has advanced after a scan that had missed it. */
  predicate Exposed(s: State, t: nat) {
    t in s.watch.exposed
  }

  /**
   How a thread comes to be exposed: a scan compares its epoch, which lags, and passes over it because the
   words do not show the lag; the epoch advances before the thread leaves; and leaving ends it.
   */
  lemma ExposedByOversight(c: Config, s: State, x: Action, t: nat)
    requires Enabled(c, s, x)
    ensures var s' := Act(c, s, x);
      && (Exposed(s', t) && !Exposed(s, t) ==> x.ReclaimAdvance? && t in s.watch.missed)
      && (t in s'.watch.missed && t !in s.watch.missed ==>
            && x.ReclaimCompare? && t < |s.threads| && s.threads[t].active
            && s.threads[t].local < s.reclaimer.current && Word(s.threads[t].local) >= Word(s.reclaimer.current))
      && (x == ExitSection(t) ==> t !in s'.watch.missed && !Exposed(s', t))
  {
    if x.Continue? {
      RunKeepsWatch(c, s, x.t);
    }
  }

  lemma RunKeepsWatch(c: Config, s: State, t: nat)
    requires CanRun(c, s, t)
    ensures Run(c, s, t).watch == s.watch
  {
  }

  /**
   Every pointer a thread has read from the table since it entered its section, whether or
   not it is still using it, is intact until it leaves, unless the thread is exposed; whoever
   else may be.
   */
  lemma GraceSafety(c: Config, s0: State, xs: seq<Action>, s: State, t: nat, r: Ref)
    requires Reached(c, s0, xs, s) && t < |s.threads| && r in s.threads[t].seen && !Exposed(s, t)
    ensures Intact(s, r)
    ensures IsLinked(s, r.q) || AwaitsRetire(s, r.q) || WaitsFor(s, r.q, t) || s.blocks[r.q].status == Lost
    ensures s.threads[t].active
  {
    ReachedInv(c, s0, xs, s);
    assert Protected(s, t, r);
    match s.blocks[r.q].status
    case Linked(i) => assert s.buckets[i] == At(r.q);
    case Unlinked(u) => assert Pending(s.threads[u].pc) == At(r.q);
    case Retired(e) => assert Node(r.q, e) in s.retired;
    case _ =>
  }

  /** No instruction that dereferences a payload read from the table finds it freed or reused. */
  lemma NoUseAfterFree(c: Config, s0: State, xs: seq<Action>, s: State, t: nat, r: Ref)
    requires Reached(c, s0, xs, s) && t < |s.threads| && r in InHand(s.threads[t].pc) && !Exposed(s, t)
    ensures Intact(s, r)
  {
    ReachedInv(c, s0, xs, s);
    GraceSafety(c, s0, xs, s, t, r);
  }

  lemma RunKeepsSeen(c: Config, s: State, t: nat, v: nat)
    requires CanRun(c, s, t) && v < |s.threads|
    ensures |Run(c, s, t).threads| == |s.threads|
    ensures s.threads[v].seen <= Run(c, s, t).threads[v].seen
  {
    var s' := Run(c, s, t);
    var pc := s.threads[t].pc;
    if pc.Load? {
      assert s'.threads == s.threads[t := s'.threads[t]];
    } else if pc.Remove? {
      assert s'.threads == s.threads[t := s'.threads[t]];
    } else {
      assert s'.threads == s.threads[t := s'.threads[t]];
    }
  }

  /** A pointer read from the table stays under protection until the thread leaves its section. */
  lemma SeenUntilExit(c: Config, s: State, x: Action, t: nat, r: Ref)
    requires Enabled(c, s, x) && t < |s.threads| && r in s.threads[t].seen
    ensures |Act(c, s, x).threads| == |s.threads|
    ensures x != ExitSection(t) ==> r in Act(c, s, x).threads[t].seen
  {
    if x.Continue? {
      RunKeepsSeen(c, s, x.t, t);
    } else if x.DropNode? {
      assert Act(c, s, x).threads[t].seen == s.threads[t].seen;
    }
  }

  // ----- ABA

  /** The compare-and-swap that would take a payload out is about to succeed. */
  ghost predicate WinsRemoval(c: Config, s: State, t: nat) {
    && c.Valid() && |s.buckets| == c.size
    && t < |s.threads| && s.threads[t].pc.Remove?
    && s.buckets[Slot(c, s.threads[t].pc.op, s.threads[t].pc.k)] == At(s.threads[t].pc.q)
  }

  /**
   When it succeeds, the bucket holds the very allocation the thread inspected, and what the
   thread read of it is still so: lookup and sweep take out only what has expired at their own
   `now` (lookup: of its own key), and store displaces only its own key or what has expired.
   */
  lemma RemovalIsNotAba(c: Config, s0: State, xs: seq<Action>, s: State, t: nat)
    requires Reached(c, s0, xs, s) && WinsRemoval(c, s, t) && !Exposed(s, t)
    ensures var pc := s.threads[t].pc;
      && pc.q < |s.blocks|
      && s.blocks[pc.q].serial == pc.serial
      && (match pc.op
          case Lookup(key, now) => s.blocks[pc.q].key == key && s.blocks[pc.q].expire <= now
          case Store(a, key, now) => a != pc.q && (s.blocks[pc.q].key == key || s.blocks[pc.q].expire <= now)
          case Sweep(now, _) => s.blocks[pc.q].expire <= now)
  {
    ReachedInv(c, s0, xs, s);
    var pc := s.threads[t].pc;
    NoUseAfterFree(c, s0, xs, s, t, Ref(pc.q, pc.serial));
    if pc.op.Store? {
      assert OwnBlock(pc) == At(pc.op.a);
    }
  }

  // ----- the life of a block

  /** A block is linked in at most one bucket, and then nowhere else. */
  lemma LinkedOnceAtATime(c: Config, s0: State, xs: seq<Action>, s: State, i: nat, j: nat, q: nat)
    requires Reached(c, s0, xs, s) && i < |s.buckets| && j < |s.buckets|
    requires s.buckets[i] == At(q) && s.buckets[j] == At(q)
    ensures i == j
    ensures q < |s.blocks| && !s.blocks[q].inPool && !AwaitsRetire(s, q)
    ensures forall e: nat :: Node(q, e) !in s.retired
  {
    ReachedInv(c, s0, xs, s);
  }

  /** At most one thread has won a block, no node for it exists yet, and no block has two nodes. */
  lemma WonByOne(c: Config, s0: State, xs: seq<Action>, s: State, q: nat)
    requires Reached(c, s0, xs, s)
    ensures forall u, v :: 0 <= u < v < |s.threads| ==>
              !(Pending(s.threads[u].pc) == At(q) && Pending(s.threads[v].pc) == At(q))
    ensures AwaitsRetire(s, q) ==> forall e: nat :: Node(q, e) !in s.retired
    ensures forall d: nat, e: nat :: Node(q, d) in s.retired && Node(q, e) in s.retired ==>
              d == e && s.retired[Node(q, d)] == 1
  {
    ReachedInv(c, s0, xs, s);
  }

  /** Which stage of the present allocation a block is in; each allocation goes through them in order. */
  function Stage(b: Block): nat {
    5 * b.serial + match b.status
                   case Private(_) => 0
                   case Linked(_) => 1
                   case Unlinked(_) => 2
                   case Retired(_) => 3
                   case Lost => 3
                   case Free => 4
  }

  /** The thread that takes step `x`, for the steps that move blocks. */
  function Actor(x: Action): Ptr {
    match x
    case Continue(t) => At(t)
    case BeginWrite(t, _, _, _) => At(t)
    case DropNode(t) => At(t)
    case _ => Null
  }

  /** The one way a block may change in one step, and by whom. */
  ghost predicate Edge(x: Action, b: Block, b': Block) {
    || b' == b
    || (b.status.Private? && b'.status == b.status && b'.serial == b.serial && b'.arena == b.arena
        && Actor(x) == At(b.status.owner) && b'.homePool == b.arena)
    || (b.status == Free && b'.status.Private? && b'.serial == b.serial + 1
        && Actor(x) == At(b'.status.owner) && b'.status.owner == b.arena)
    || (b.status.Private? && b'.status.Linked? && b'.serial == b.serial && Actor(x) == At(b.status.owner))
    || (b.status.Private? && b'.status == Free && b'.serial == b.serial && Actor(x) == At(b.status.owner))
    || (b.status.Linked? && b'.status.Unlinked? && b'.serial == b.serial && Actor(x) == At(b'.status.winner))
    || (b.status.Unlinked? && (b'.status.Retired? || b'.status == Lost) && b'.serial == b.serial
        && Actor(x) == At(b.status.winner))
    || (b.status.Retired? && b'.status == Free && b'.serial == b.serial && x.ReclaimFree?
        && b.homePool == b.arena)
  }

  lemma RemoveFollowsEdges(c: Config, s: State, t: nat, q: nat)
    requires Inv(c, s) && CanRun(c, s, t) && s.threads[t].pc.Remove? && q < |s.blocks|
    ensures q < |Run(c, s, t).blocks| && Edge(Continue(t), s.blocks[q], Run(c, s, t).blocks[q])
  {
    var pc := s.threads[t].pc;
    var i := Slot(c, pc.op, pc.k);
    if s.buckets[i] == At(pc.q) {
      assert s.blocks[pc.q].status == Linked(i);
      if pc.op.Store? {
        assert OwnBlock(pc) == At(pc.op.a);
        assert s.blocks[pc.op.a].status == Private(t);
      }
    }
  }

  lemma PlainFollowsEdges(c: Config, s: State, t: nat, q: nat)
    requires CanRun(c, s, t) && q < |s.blocks|
    requires var pc := s.threads[t].pc;
      || pc.Load? || pc.Inspect? || pc.ReadHit? || pc.RetireLoad? || pc.Account? || pc.AccountRetired?
      || pc.Entering? || pc.Entered?
    ensures Run(c, s, t).blocks == s.blocks
  {
  }

  lemma RunFollowsEdges(c: Config, s: State, t: nat, q: nat)
    requires Inv(c, s) && CanRun(c, s, t) && q < |s.blocks|
    ensures q < |Run(c, s, t).blocks| && Edge(Continue(t), s.blocks[q], Run(c, s, t).blocks[q])
  {
    var pc := s.threads[t].pc;
    if pc.Remove? {
      RemoveFollowsEdges(c, s, t, q);
    } else if pc.Insert? {
      assert OwnBlock(pc) == At(pc.op.a);
    } else if pc.RetirePush? {
      assert Pending(pc) == At(pc.q);
    } else if pc.GiveBack? || pc.Fresh? {
      assert OwnBlock(pc) == At(pc.a);
    } else {
      PlainFollowsEdges(c, s, t, q);
    }
  }

  lemma DropFollowsEdges(c: Config, s: State, t: nat, q: nat)
    requires Inv(c, s) && Enabled(c, s, DropNode(t)) && q < |s.blocks|
    ensures q < |Act(c, s, DropNode(t)).blocks|
    ensures Edge(DropNode(t), s.blocks[q], Act(c, s, DropNode(t)).blocks[q])
  {
    assert Pending(s.threads[t].pc) == At(s.threads[t].pc.q);
  }

  lemma FreeFollowsEdges(c: Config, s: State, node: Node, q: nat)
    requires Inv(c, s) && Enabled(c, s, ReclaimFree(node)) && q < |s.blocks|
    ensures q < |Act(c, s, ReclaimFree(node)).blocks|
    ensures Edge(ReclaimFree(node), s.blocks[q], Act(c, s, ReclaimFree(node)).blocks[q])
  {
    FreeEffect(c, s, node);
  }

  lemma AllocateFollowsEdges(c: Config, s: State, x: Action, q: nat)
    requires Inv(c, s) && Enabled(c, s, x) && x.BeginWrite? && q < |s.blocks|
    ensures q < |Act(c, s, x).blocks| && Edge(x, s.blocks[q], Act(c, s, x).blocks[q])
  {
    assert s.blocks[x.a].inPool <==> s.blocks[x.a].status == Free;
  }

  lemma EdgeRaisesStage(x: Action, b: Block, b': Block)
    requires Edge(x, b, b')
    ensures Stage(b) <= Stage(b')
    ensures Stage(b) == Stage(b') ==> b.status == b'.status
  {
  }

  lemma StepFollowsEdges(c: Config, s: State, x: Action, q: nat)
    requires Inv(c, s) && Enabled(c, s, x) && q < |s.blocks|
    ensures q < |Act(c, s, x).blocks| && Edge(x, s.blocks[q], Act(c, s, x).blocks[q])
  {
    match x
    case Continue(t) => RunFollowsEdges(c, s, t, q);
    case DropNode(t) => DropFollowsEdges(c, s, t, q);
    case ReclaimFree(node) => FreeFollowsEdges(c, s, node, q);
    case BeginWrite(_, _, _, _) => AllocateFollowsEdges(c, s, x, q);
    case _ => assert Act(c, s, x).blocks == s.blocks;
  }

  /**
   Over all runs: a block is handed out to the worker that owns its arena, linked by that
   worker or given back by it, unlinked by one thread, retired by that same thread, and
   returned to its home pool by the reclaimer; each of these at most once per allocation,
   since the stage only grows.
   */
  lemma PayloadLifecycle(c: Config, s0: State, xs: seq<Action>, s: State, x: Action, q: nat)
    requires Reached(c, s0, xs, s) && Enabled(c, s, x) && q < |s.blocks|
    ensures q < |Act(c, s, x).blocks|
    ensures Edge(x, s.blocks[q], Act(c, s, x).blocks[q])
    ensures s.blocks[q].status != Act(c, s, x).blocks[q].status ==>
              Stage(s.blocks[q]) < Stage(Act(c, s, x).blocks[q])
  {
    ReachedInv(c, s0, xs, s);
    StepFollowsEdges(c, s, x, q);
    EdgeRaisesStage(x, s.blocks[q], Act(c, s, x).blocks[q]);
  }

  lemma {:induction false} StageGrowsOverRuns(c: Config, s: State, xs: seq<Action>, q: nat)
    requires Inv(c, s) && Executable(c, s, xs) && q < |s.blocks|
    ensures q < |After(c, s, xs).blocks|
    ensures Stage(s.blocks[q]) <= Stage(After(c, s, xs).blocks[q])
    ensures (Stage(s.blocks[q]) == Stage(After(c, s, xs).blocks[q]) && s.blocks[q].status.Linked?) ==>
              s.blocks[q].status == After(c, s, xs).blocks[q].status
    decreases |xs|
  {
    if xs != [] {
      var s1 := Act(c, s, xs[0]);
      StepFollowsEdges(c, s, xs[0], q);
      EdgeRaisesStage(xs[0], s.blocks[q], s1.blocks[q]);
      StepKeepsInv(c, s, xs[0]);
      StageGrowsOverRuns(c, s1, xs[1..], q);
    }
  }

  /** One allocation is never linked twice: if it is linked now and linked later, it never moved. */
  lemma LinkedOnceInALife(c: Config, s0: State, xs: seq<Action>, s: State, ys: seq<Action>, q: nat, i: nat, j: nat)
    requires Reached(c, s0, xs, s) && Executable(c, s, ys)
    requires i < |s.buckets| && s.buckets[i] == At(q)
    requires j < |After(c, s, ys).buckets| && After(c, s, ys).buckets[j] == At(q)
    requires q < |s.blocks| && q < |After(c, s, ys).blocks| && After(c, s, ys).blocks[q].serial == s.blocks[q].serial
    ensures i == j
  {
    ReachedInv(c, s0, xs, s);
    RunKeepsInvariant(c, s, ys);
    StageGrowsOverRuns(c, s, ys, q);
  }

  // ----- what was never visible

  /** The payload that `r` was read to has been linked in the allocation it was read from. */
  ghost predicate WasLinked(blocks: seq<Block>, r: Ref) {
    r.q < |blocks| && 5 * r.serial + 1 <= Stage(blocks[r.q])
  }

  ghost predicate SeenWasLinked(s: State) {
    forall t, r :: 0 <= t < |s.threads| && r in s.threads[t].seen ==> WasLinked(s.blocks, r)
  }

  lemma LoadReadsLinked(c: Config, s: State, t: nat, r: Ref)
    requires CanRun(c, s, t) && BucketsOk(s.buckets, s.blocks)
    ensures |Run(c, s, t).threads| == |s.threads|
    ensures r in Run(c, s, t).threads[t].seen && r !in s.threads[t].seen ==> NewlyRead(s, r)
    ensures forall v :: 0 <= v < |s.threads| && v != t ==> Run(c, s, t).threads[v] == s.threads[v]
  {
    if s.threads[t].pc.Load? {
    } else {
      OthersReadNothing(c, s, t);
    }
  }

  lemma OthersReadNothing(c: Config, s: State, t: nat)
    requires CanRun(c, s, t) && !s.threads[t].pc.Load?
    ensures |Run(c, s, t).threads| == |s.threads| && Run(c, s, t).threads[t].seen == s.threads[t].seen
    ensures forall v :: 0 <= v < |s.threads| && v != t ==> Run(c, s, t).threads[v] == s.threads[v]
  {
    if s.threads[t].pc.Remove? {
    } else {
    }
  }

  /** What is read is linked when it is read. */
  lemma ReadsOnlyLinked(c: Config, s: State, x: Action, t: nat, r: Ref)
    requires Enabled(c, s, x) && BucketsOk(s.buckets, s.blocks) && t < |s.threads|
    ensures |Act(c, s, x).threads| == |s.threads|
    ensures r in Act(c, s, x).threads[t].seen && r !in s.threads[t].seen ==> x == Continue(t) && NewlyRead(s, r)
  {
    if x.Continue? {
      LoadReadsLinked(c, s, x.t, r);
    } else if x.DropNode? {
      assert Act(c, s, x).threads[t].seen == s.threads[t].seen;
    }
  }

  lemma StageIsKept(c: Config, s: State, x: Action, q: nat)
    requires Inv(c, s) && Enabled(c, s, x) && q < |s.blocks|
    ensures q < |Act(c, s, x).blocks| && Stage(s.blocks[q]) <= Stage(Act(c, s, x).blocks[q])
  {
    StepFollowsEdges(c, s, x, q);
    EdgeRaisesStage(x, s.blocks[q], Act(c, s, x).blocks[q]);
  }

  lemma StepKeepsSeenLinked(c: Config, s: State, x: Action)
    requires Inv(c, s) && Enabled(c, s, x) && SeenWasLinked(s)
    ensures SeenWasLinked(Act(c, s, x))
  {
    var s' := Act(c, s, x);
    forall t, r | 0 <= t < |s'.threads| && r in s'.threads[t].seen ensures WasLinked(s'.blocks, r) {
      ThreadsStay(c, s, x);
      ReadsOnlyLinked(c, s, x, t, r);
      assert WasLinked(s.blocks, r);
      StageIsKept(c, s, x, r.q);
    }
  }

  lemma ThreadsStay(c: Config, s: State, x: Action)
    requires Enabled(c, s, x) && BucketsOk(s.buckets, s.blocks)
    ensures |Act(c, s, x).threads| == |s.threads|
  {
    if s.threads != [] {
      ReadsOnlyLinked(c, s, x, 0, Ref(0, 0));
    }
  }

  lemma {:induction false} RunKeepsSeenLinked(c: Config, s: State, xs: seq<Action>)
    requires Inv(c, s) && Executable(c, s, xs) && SeenWasLinked(s)
    ensures SeenWasLinked(After(c, s, xs))
    decreases |xs|
  {
    if xs != [] {
      StepKeepsInv(c, s, xs[0]);
      StepKeepsSeenLinked(c, s, xs[0]);
      RunKeepsSeenLinked(c, Act(c, s, xs[0]), xs[1..]);
    }
  }

  lemma ReachedSeenLinked(c: Config, s0: State, xs: seq<Action>, s: State)
    requires Reached(c, s0, xs, s)
    ensures SeenWasLinked(s)
  {
    InitInv(c, s0);
    RunKeepsSeenLinked(c, s0, xs);
  }

  lemma StaysLinked(c: Config, s: State, xs: seq<Action>, r: Ref)
    requires Inv(c, s) && Executable(c, s, xs) && WasLinked(s.blocks, r)
    ensures WasLinked(After(c, s, xs).blocks, r)
  {
    StageGrowsOverRuns(c, s, xs, r.q);
  }

  lemma GivenBackIsPrivate(c: Config, s: State, t: nat)
    requires Inv(c, s) && t < |s.threads| && s.threads[t].pc.GiveBack?
    ensures var a := s.threads[t].pc.a;
      a < |s.blocks| && s.blocks[a].status == Private(t) && s.blocks[a].arena == t
      && !IsLinked(s, a) && !AwaitsRetire(s, a)
  {
    assert OwnBlock(s.threads[t].pc) == At(s.threads[t].pc.a);
  }

  /**
   A block whose store failed was never visible to anybody before it is freed directly: whatever pointer into it
   some thread has read, at any time earlier in the run, was into an earlier allocation.
   */
  lemma FailedStoreWasPrivate(
    c: Config, s0: State, xs: seq<Action>, s: State, v: nat, r: Ref, ys: seq<Action>, s': State, t: nat)
    requires Reached(c, s0, xs, s) && v < |s.threads| && r in s.threads[v].seen
    requires Executable(c, s, ys) && s' == After(c, s, ys)
    requires t < |s'.threads| && s'.threads[t].pc.GiveBack?
    ensures var a := s'.threads[t].pc.a;
      && a < |s'.blocks| && s'.blocks[a].arena == t
      && !IsLinked(s', a) && !AwaitsRetire(s', a)
      && (r.q == a ==> r.serial < s'.blocks[a].serial)
  {
    ReachedInv(c, s0, xs, s);
    ReachedSeenLinked(c, s0, xs, s);
    assert WasLinked(s.blocks, r);
    RunKeepsInvariant(c, s, ys);
    GivenBackIsPrivate(c, s', t);
    StaysLinked(c, s, ys, r);
  }
}
