/**
 The invariant of the lock-free cache, kept by every step of every thread and of the
 reclaimer: every block is in the one place its status names, and what a reader has
 seen in its section is protected unless the reader is exposed.
 */
module CacheInvariant {
  import opened CacheMachine

  /** The payload a thread is about to dereference without owning it. */
  function InHand(pc: Pc): set<Ref> {
    match pc
    case Inspect(_, _, q, serial) => {Ref(q, serial)}
    case Remove(_, _, q, serial) => {Ref(q, serial)}
    case ReadHit(q, serial) => {Ref(q, serial)}
    case _ => {}
  }

  /** The block a thread has allocated and not published. */
  function OwnBlock(pc: Pc): Ptr {
    match pc
    case Fresh(a, _, _) => At(a)
    case Load(op, _) => Published(op)
    case Inspect(op, _, _, _) => Published(op)
    case Remove(op, _, _, _) => Published(op)
    case Insert(op, _) => Published(op)
    case GiveBack(a) => At(a)
    case _ => Null
  }

  /** The block an operation is trying to publish. */
  function Published(op: Op): Ptr {
    if op.Store? then At(op.a) else Null
  }

  /** The block whose removal a thread has won and which it has not retired yet. */
  function Pending(pc: Pc): Ptr {
    match pc
    case RetireLoad(_, _, q) => At(q)
    case RetirePush(_, _, q, _) => At(q)
    case _ => Null
  }

  /** Which operations reach which program points. */
  predicate WellFormed(pc: Pc) {
    && (pc.Insert? ==> pc.op.Store?)
    && (pc.Account? ==> pc.op.Sweep?)
    && (pc.AccountRetired? ==> !pc.op.Store?)
  }

  predicate InSection(pc: Pc) {
    !pc.Outside? && !pc.Entering? && !pc.Entered?
  }

  // ----- every block is in exactly the one place its status names

  ghost predicate BucketsOk(buckets: seq<Ptr>, blocks: seq<Block>) {
    && (forall i :: 0 <= i < |buckets| && buckets[i].At? ==>
          buckets[i].a < |blocks| && blocks[buckets[i].a].status == Linked(i))
    && (forall a :: 0 <= a < |blocks| && blocks[a].status.Linked? ==>
          blocks[a].status.bucket < |buckets| && buckets[blocks[a].status.bucket] == At(a))
  }

  ghost predicate OwnersOk(blocks: seq<Block>, threads: seq<Thread>) {
    && (forall t :: 0 <= t < |threads| && OwnBlock(threads[t].pc).At? ==>
          && OwnBlock(threads[t].pc).a < |blocks|
          && blocks[OwnBlock(threads[t].pc).a].status == Private(t)
          && blocks[OwnBlock(threads[t].pc).a].arena == t
          && (!threads[t].pc.Fresh? ==> blocks[OwnBlock(threads[t].pc).a].homePool == t))
    && (forall a :: 0 <= a < |blocks| && blocks[a].status.Private? ==>
          blocks[a].status.owner < |threads| && OwnBlock(threads[blocks[a].status.owner].pc) == At(a))
  }

  ghost predicate WinnersOk(blocks: seq<Block>, threads: seq<Thread>) {
    && (forall t :: 0 <= t < |threads| && Pending(threads[t].pc).At? ==>
          Pending(threads[t].pc).a < |blocks| && blocks[Pending(threads[t].pc).a].status == Unlinked(t))
    && (forall a :: 0 <= a < |blocks| && blocks[a].status.Unlinked? ==>
          blocks[a].status.winner < |threads| && Pending(threads[blocks[a].status.winner].pc) == At(a))
  }

  ghost predicate NodesOk(blocks: seq<Block>, retired: multiset<Node>) {
    && (forall n :: n in retired ==>
          n.q < |blocks| && blocks[n.q].status == Retired(n.epoch) && retired[n] == 1)
    && (forall a :: 0 <= a < |blocks| && blocks[a].status.Retired? ==> Node(a, blocks[a].status.epoch) in retired)
  }

  ghost predicate NodeEpochsOk(retired: multiset<Node>, global: nat) {
    forall n :: n in retired ==> n.epoch <= global
  }

  /** The pool holds exactly the free blocks; a published block carries its own home pool. */
  ghost predicate PoolsOk(blocks: seq<Block>) {
    forall a :: 0 <= a < |blocks| ==>
      && (blocks[a].inPool <==> blocks[a].status == Free)
      && (!blocks[a].status.Free? && !blocks[a].status.Private? ==> blocks[a].homePool == blocks[a].arena)
  }

  // ----- epochs

  ghost predicate ThreadOk(th: Thread, global: nat) {
    && th.active == InSection(th.pc)
    && th.local <= global
    && (th.pc.Entering? ==> th.pc.e <= global)
    && (th.pc.RetirePush? ==> th.pc.e <= global)
    && WellFormed(th.pc)
    && InHand(th.pc) <= th.seen
    && (!th.active ==> th.seen == {})
  }

  ghost predicate EpochsOk(threads: seq<Thread>, global: nat, r: Reclaimer) {
    && (forall t :: 0 <= t < |threads| ==> ThreadOk(threads[t], global))
    && (r.Scanning? ==> r.current == global)
    && (r.SawActive? ==> r.current == global && r.t in r.todo)
    && (r.Draining? ==> r.now == global)
  }

  /** The scan that is going on has not got past thread `t`, or has missed it. */
  predicate StillToScan(r: Reclaimer, w: Watch, t: nat) {
    match r
    case Scanning(_, todo) => t in todo || t in w.missed
    case SawActive(_, todo, _) => t in todo || t in w.missed
    case _ => true
  }

  /** Thread `t` protects whatever was unlinked by epoch `e`. */
  predicate Guards(s: State, t: nat, e: nat)
    requires t < |s.threads|
  {
    && s.threads[t].local <= e
    && s.global <= e + 1
    && (s.global == e + 1 ==> StillToScan(s.reclaimer, s.watch, t))
  }

  /**
   A payload read in this section is still the allocation that was read, and is linked, or
   unlinked and awaiting its retire, or retired in an epoch its reader protects.
   */
  ghost predicate Protected(s: State, t: nat, r: Ref)
    requires t < |s.threads|
  {
    && r.q < |s.blocks|
    && s.blocks[r.q].serial == r.serial
    && (match s.blocks[r.q].status
        case Free => false
        case Private(_) => false
        case Linked(_) => true
        case Unlinked(u) =>
          && u < |s.threads|
          && (s.threads[u].pc.RetirePush? ==> Guards(s, t, s.threads[u].pc.e))
        case Retired(e) => Guards(s, t, e)
        case Lost => true)
  }

  ghost predicate SeenOk(s: State) {
    forall t, r :: 0 <= t < |s.threads| && t !in s.watch.exposed && r in s.threads[t].seen ==> Protected(s, t, r)
  }

  /** What the operation tested still holds of the payload it is about to remove. */
  ghost predicate TestedOk(blocks: seq<Block>, threads: seq<Thread>, w: Watch) {
    forall t :: 0 <= t < |threads| && t !in w.exposed && threads[t].pc.Remove? ==>
      && threads[t].pc.q < |blocks|
      && Removable(threads[t].pc.op, blocks[threads[t].pc.q].key, blocks[threads[t].pc.q].expire)
  }

  ghost predicate Inv(c: Config, s: State) {
    && c.Valid() && |s.buckets| == c.size
    && BucketsOk(s.buckets, s.blocks)
    && OwnersOk(s.blocks, s.threads)
    && WinnersOk(s.blocks, s.threads)
    && NodesOk(s.blocks, s.retired)
    && PoolsOk(s.blocks)
    && EpochsOk(s.threads, s.global, s.reclaimer)
    && NodeEpochsOk(s.retired, s.global)
    && SeenOk(s)
    && TestedOk(s.blocks, s.threads, s.watch)
  }

  // ----- steps that change one thread's program counter and no memory

  /** `th` differs from the thread it replaces in ways that the shared memory does not notice. */
  ghost predicate Quiet(s: State, t: nat, th: Thread)
    requires t < |s.threads|
  {
    var was := s.threads[t];
    && OwnBlock(th.pc) == OwnBlock(was.pc)
    && Pending(th.pc) == Pending(was.pc)
    && (th.pc.Fresh? <==> was.pc.Fresh?)
    && th.active == InSection(th.pc)
    && th.local <= s.global
    && (th.pc.Entering? ==> th.pc.e <= s.global)
    && WellFormed(th.pc)
    && InHand(th.pc) <= th.seen
    && (!th.active ==> th.seen == {})
    && (th.seen != {} ==> th.local == was.local)
    && (forall r :: r in th.seen ==> r in was.seen || NewlyRead(s, r))
    && (th.pc.RetirePush? ==> th.pc.e == s.global)
    && (th.pc.Remove? ==> th.pc.q < |s.blocks| && Removable(th.pc.op, s.blocks[th.pc.q].key, s.blocks[th.pc.q].expire))
  }

  ghost predicate NewlyRead(s: State, r: Ref) {
    r.q < |s.blocks| && s.blocks[r.q].status.Linked? && s.blocks[r.q].serial == r.serial
  }

  lemma QuietKeepsSeen(c: Config, s: State, t: nat, th: Thread, s': State)
    requires Inv(c, s) && t < |s.threads| && Quiet(s, t, th)
    requires s'.threads == s.threads[t := th] && s'.blocks == s.blocks
    requires s'.global == s.global && s'.reclaimer == s.reclaimer && s'.watch == s.watch
    ensures SeenOk(s')
  {
    forall v, r | 0 <= v < |s'.threads| && v !in s'.watch.exposed && r in s'.threads[v].seen
      ensures Protected(s', v, r)
    {
      if r in s.threads[v].seen {
        assert Protected(s, v, r);
      } else {
        assert NewlyRead(s, r);
      }
    }
  }

  lemma QuietKeepsInv(c: Config, s: State, t: nat, th: Thread, s': State)
    requires Inv(c, s) && t < |s.threads| && Quiet(s, t, th)
    requires s' == s.(threads := s.threads[t := th], cursor := s'.cursor, shared := s'.shared)
    ensures Inv(c, s')
  {
    QuietKeepsSeen(c, s, t, th, s');
  }

  // ----- steps that change memory: thread `t` and the blocks in `ws`, each conjunct on its own

  ghost predicate Local(s: State, s': State, t: nat, ws: set<nat>) {
    && t < |s.threads| && |s'.threads| == |s.threads| && |s'.blocks| == |s.blocks|
    && |s'.buckets| == |s.buckets|
    && (forall v :: 0 <= v < |s.threads| && v != t ==> s'.threads[v] == s.threads[v])
    && (forall a :: 0 <= a < |s.blocks| && a !in ws ==> s'.blocks[a] == s.blocks[a])
    && (forall a :: a in ws ==> a < |s.blocks|)
  }

  lemma BucketsStep(s: State, s': State, t: nat, ws: set<nat>, i: nat)
    requires Local(s, s', t, ws) && BucketsOk(s.buckets, s.blocks)
    requires i < |s.buckets| && s'.buckets == s.buckets[i := s'.buckets[i]]
    requires s'.buckets[i].At? ==> s'.buckets[i].a < |s.blocks| && s'.blocks[s'.buckets[i].a].status == Linked(i)
    requires s.buckets[i] != s'.buckets[i] && s.buckets[i].At? ==> s.buckets[i].a in ws
    requires forall a :: a in ws ==> s.blocks[a].status.Linked? ==> s.blocks[a].status == Linked(i)
    requires forall a :: a in ws ==> s'.blocks[a].status.Linked? ==>
               s'.blocks[a].status == Linked(i) && s'.buckets[i] == At(a)
    ensures BucketsOk(s'.buckets, s'.blocks)
  {
  }

  lemma BucketsSame(s: State, s': State, t: nat, ws: set<nat>)
    requires Local(s, s', t, ws) && BucketsOk(s.buckets, s.blocks)
    requires s'.buckets == s.buckets
    requires forall a :: a in ws ==> !s.blocks[a].status.Linked? && !s'.blocks[a].status.Linked?
    ensures BucketsOk(s'.buckets, s'.blocks)
  {
  }

  lemma OwnersStep(s: State, s': State, t: nat, ws: set<nat>)
    requires Local(s, s', t, ws) && OwnersOk(s.blocks, s.threads)
    requires forall a :: a in ws ==> s.blocks[a].status.Private? ==> s.blocks[a].status == Private(t)
    requires forall a :: a in ws ==> s'.blocks[a].status.Private? ==>
               s'.blocks[a].status == Private(t) && OwnBlock(s'.threads[t].pc) == At(a)
    requires OwnBlock(s'.threads[t].pc).At? ==>
               var a := OwnBlock(s'.threads[t].pc).a;
               && a < |s.blocks| && s'.blocks[a].status == Private(t) && s'.blocks[a].arena == t
               && (!s'.threads[t].pc.Fresh? ==> s'.blocks[a].homePool == t)
    requires OwnBlock(s.threads[t].pc).At? ==>
               OwnBlock(s.threads[t].pc).a in ws || OwnBlock(s'.threads[t].pc) == OwnBlock(s.threads[t].pc)
    ensures OwnersOk(s'.blocks, s'.threads)
  {
  }

  lemma WinnersStep(s: State, s': State, t: nat, ws: set<nat>)
    requires Local(s, s', t, ws) && WinnersOk(s.blocks, s.threads)
    requires forall a :: a in ws ==> s.blocks[a].status.Unlinked? ==> s.blocks[a].status == Unlinked(t)
    requires forall a :: a in ws ==> s'.blocks[a].status.Unlinked? ==>
               s'.blocks[a].status == Unlinked(t) && Pending(s'.threads[t].pc) == At(a)
    requires Pending(s'.threads[t].pc).At? ==>
               Pending(s'.threads[t].pc).a < |s.blocks| && s'.blocks[Pending(s'.threads[t].pc).a].status == Unlinked(t)
    requires Pending(s.threads[t].pc).At? ==>
               Pending(s.threads[t].pc).a in ws || Pending(s'.threads[t].pc) == Pending(s.threads[t].pc)
    ensures WinnersOk(s'.blocks, s'.threads)
  {
  }

  lemma NodesSame(s: State, s': State, t: nat, ws: set<nat>)
    requires Local(s, s', t, ws) && NodesOk(s.blocks, s.retired) && s'.retired == s.retired
    requires forall a :: a in ws ==> !s.blocks[a].status.Retired? && !s'.blocks[a].status.Retired?
    ensures NodesOk(s'.blocks, s'.retired)
  {
  }

  lemma PoolsStep(s: State, s': State, t: nat, ws: set<nat>)
    requires Local(s, s', t, ws) && PoolsOk(s.blocks)
    requires forall a :: a in ws ==>
               && (s'.blocks[a].inPool <==> s'.blocks[a].status == Free)
               && (!s'.blocks[a].status.Free? && !s'.blocks[a].status.Private? ==>
                     s'.blocks[a].homePool == s'.blocks[a].arena)
    ensures PoolsOk(s'.blocks)
  {
  }

  lemma EpochsStep(s: State, s': State, t: nat, ws: set<nat>)
    requires Local(s, s', t, ws) && EpochsOk(s.threads, s.global, s.reclaimer)
    requires s'.global == s.global && s'.reclaimer == s.reclaimer && s'.watch == s.watch
    requires EpochsOk([s'.threads[t]], s.global, s.reclaimer)
    ensures EpochsOk(s'.threads, s'.global, s'.reclaimer)
  {
    assert [s'.threads[t]][0] == s'.threads[t];
  }

  /** The ways a block that others may hold can move without leaving its holders unprotected. */
  ghost predicate SafeMove(s: State, s': State, t: nat, q: nat)
    requires t < |s.threads| && t < |s'.threads| && q < |s.blocks| && q < |s'.blocks|
  {
    var b, b' := s.blocks[q], s'.blocks[q];
    b.status.Free? || b.status.Private? || (
      && b'.serial == b.serial && b'.key == b.key && b'.expire == b.expire
      && (match b.status
          case Linked(_) => b'.status == Unlinked(t) && s'.threads[t].pc.RetireLoad?
          case Unlinked(u) => u == t && (b'.status == Lost
                                || (s.threads[t].pc.RetirePush? && b'.status == Retired(s.threads[t].pc.e)))
          case _ => false))
  }

  lemma SeenStep(s: State, s': State, t: nat, ws: set<nat>)
    requires Local(s, s', t, ws) && SeenOk(s) && WinnersOk(s.blocks, s.threads)
    requires s'.global == s.global && s'.reclaimer == s.reclaimer && s'.watch == s.watch
    requires s'.threads[t].local == s.threads[t].local
    requires s'.threads[t].seen == s.threads[t].seen && InHand(s'.threads[t].pc) == {}
    requires forall q :: q in ws ==> SafeMove(s, s', t, q)
    requires Pending(s.threads[t].pc).At? ==> Pending(s.threads[t].pc).a in ws
    ensures SeenOk(s')
  {
    forall v, r | 0 <= v < |s'.threads| && v !in s'.watch.exposed && r in s'.threads[v].seen
      ensures Protected(s', v, r)
    {
      assert Protected(s, v, r);
      if r.q in ws {
        assert SafeMove(s, s', t, r.q);
      }
    }
  }

  lemma TestedStep(s: State, s': State, t: nat, ws: set<nat>)
    requires Local(s, s', t, ws) && SeenOk(s) && TestedOk(s.blocks, s.threads, s.watch)
    requires EpochsOk(s.threads, s.global, s.reclaimer)
    requires !s'.threads[t].pc.Remove? && s'.watch == s.watch
    requires forall q :: q in ws ==> SafeMove(s, s', t, q)
    ensures TestedOk(s'.blocks, s'.threads, s'.watch)
  {
    forall v | 0 <= v < |s'.threads| && v !in s'.watch.exposed && s'.threads[v].pc.Remove?
      ensures s'.threads[v].pc.q < |s'.blocks|
      ensures Removable(s'.threads[v].pc.op, s'.blocks[s'.threads[v].pc.q].key, s'.blocks[s'.threads[v].pc.q].expire)
    {
      assert Protected(s, v, Ref(s.threads[v].pc.q, s.threads[v].pc.serial));
      if s.threads[v].pc.q in ws {
        assert SafeMove(s, s', t, s.threads[v].pc.q);
      }
    }
  }

  /** The conjuncts that a step of thread `t` over the blocks `ws` keeps in the same way every time. */
  lemma LocalStep(s: State, s': State, t: nat, ws: set<nat>)
    requires Local(s, s', t, ws) && SeenOk(s) && WinnersOk(s.blocks, s.threads)
    requires TestedOk(s.blocks, s.threads, s.watch)
    requires EpochsOk(s.threads, s.global, s.reclaimer)
    requires s'.global == s.global && s'.reclaimer == s.reclaimer && s'.watch == s.watch
    requires s'.threads[t].local == s.threads[t].local
    requires s'.threads[t].seen == s.threads[t].seen && InHand(s'.threads[t].pc) == {}
    requires s'.threads[t].active && InSection(s'.threads[t].pc) && s'.threads[t].local == s.threads[t].local
    requires WellFormed(s'.threads[t].pc) && !s'.threads[t].pc.RetirePush?
    requires Pending(s.threads[t].pc).At? ==> Pending(s.threads[t].pc).a in ws
    requires forall q :: q in ws ==> SafeMove(s, s', t, q)
    ensures SeenOk(s') && TestedOk(s'.blocks, s'.threads, s'.watch) && EpochsOk(s'.threads, s'.global, s'.reclaimer)
  {
    SeenStep(s, s', t, ws);
    TestedStep(s, s', t, ws);
    EpochsStep(s, s', t, ws);
  }

  // ----- the steps themselves

  lemma AllocateKeepsPlaces(c: Config, s: State, t: nat, a: nat, s': State)
    requires BucketsOk(s.buckets, s.blocks) && OwnersOk(s.blocks, s.threads) && WinnersOk(s.blocks, s.threads)
    requires Local(s, s', t, {a}) && s'.buckets == s.buckets && a < |s.blocks| && s.blocks[a].status == Free
    requires s'.blocks[a].status == Private(t) && s'.blocks[a].arena == t && s'.threads[t].pc.Fresh?
    requires s'.threads[t].pc.a == a && OwnBlock(s.threads[t].pc) == Null && Pending(s.threads[t].pc) == Null
    ensures BucketsOk(s'.buckets, s'.blocks) && OwnersOk(s'.blocks, s'.threads) && WinnersOk(s'.blocks, s'.threads)
  {
    BucketsSame(s, s', t, {a});
    OwnersStep(s, s', t, {a});
    WinnersStep(s, s', t, {a});
  }

  /** The pool hands out a free block. */
  lemma AllocateKeepsInv(c: Config, s: State, t: nat, key: nat, now: nat, a: nat)
    requires Inv(c, s) && Enabled(c, s, BeginWrite(t, key, now, a))
    ensures Inv(c, Act(c, s, BeginWrite(t, key, now, a)))
  {
    var s' := Act(c, s, BeginWrite(t, key, now, a));
    assert s.blocks[a].status == Free;
    AllocateKeepsPlaces(c, s, t, a, s');
    NodesSame(s, s', t, {a});
    PoolsStep(s, s', t, {a});
    LocalStep(s, s', t, {a});
  }

  /** The worker writes the header and payload of its fresh block. */
  lemma FillKeepsInv(c: Config, s: State, t: nat)
    requires Inv(c, s) && CanRun(c, s, t) && s.threads[t].pc.Fresh?
    ensures Inv(c, Run(c, s, t))
  {
    var s' := Run(c, s, t);
    var a := s.threads[t].pc.a;
    assert OwnBlock(s.threads[t].pc) == At(a);
    BucketsSame(s, s', t, {a});
    OwnersStep(s, s', t, {a});
    WinnersStep(s, s', t, {a});
    NodesSame(s, s', t, {a});
    PoolsStep(s, s', t, {a});
    LocalStep(s, s', t, {a});
  }

  /** A store has won the empty bucket `i` for its block `a`. */
  lemma InsertedInv(c: Config, s: State, t: nat, a: nat, i: nat, th: Thread, s': State)
    requires Inv(c, s) && t < |s.threads| && a < |s.blocks| && i < |s.buckets|
    requires OwnBlock(s.threads[t].pc) == At(a) && s.threads[t].pc.Insert? && s.buckets[i] == Null
    requires s'.threads == s.threads[t := th] && th.pc == Idle
    requires th.active && th.local == s.threads[t].local && th.seen == s.threads[t].seen
    requires s'.blocks == s.blocks[a := s.blocks[a].(status := Linked(i))]
    requires s'.buckets == s.buckets[i := At(a)]
    requires s'.retired == s.retired && s'.global == s.global && s'.reclaimer == s.reclaimer && s'.watch == s.watch
    ensures Inv(c, s')
  {
    BucketsStep(s, s', t, {a}, i);
    OwnersStep(s, s', t, {a});
    WinnersStep(s, s', t, {a});
    NodesSame(s, s', t, {a});
    PoolsStep(s, s', t, {a});
    LocalStep(s, s', t, {a});
  }

  lemma InsertKeepsInv(c: Config, s: State, t: nat)
    requires Inv(c, s) && CanRun(c, s, t) && s.threads[t].pc.Insert?
    ensures Inv(c, Run(c, s, t))
  {
    var s' := Run(c, s, t);
    var pc := s.threads[t].pc;
    var i := Slot(c, pc.op, pc.k);
    if s.buckets[i] == Null {
      InsertedInv(c, s, t, pc.op.a, i, s'.threads[t], s');
    } else {
      QuietKeepsInv(c, s, t, s'.threads[t], s');
    }
  }

  lemma TakeOutKeepsPlaces(s: State, s': State, t: nat, q: nat, i: nat)
    requires BucketsOk(s.buckets, s.blocks) && OwnersOk(s.blocks, s.threads) && WinnersOk(s.blocks, s.threads)
    requires Local(s, s', t, {q}) && i < |s.buckets| && s.buckets[i] == At(q) && s'.buckets == s.buckets[i := Null]
    requires s'.blocks[q].status == Unlinked(t) && Pending(s'.threads[t].pc) == At(q)
    requires OwnBlock(s.threads[t].pc) == Null == OwnBlock(s'.threads[t].pc) && Pending(s.threads[t].pc) == Null
    ensures BucketsOk(s'.buckets, s'.blocks) && OwnersOk(s'.blocks, s'.threads) && WinnersOk(s'.blocks, s'.threads)
  {
    BucketsStep(s, s', t, {q}, i);
    OwnersStep(s, s', t, {q});
    WinnersStep(s, s', t, {q});
  }

  /** A lookup or the sweeper takes an expired payload out. */
  lemma TakeOutKeepsInv(c: Config, s: State, t: nat)
    requires Inv(c, s) && CanRun(c, s, t) && s.threads[t].pc.Remove? && !s.threads[t].pc.op.Store?
    requires s.buckets[Slot(c, s.threads[t].pc.op, s.threads[t].pc.k)] == At(s.threads[t].pc.q)
    ensures Inv(c, Run(c, s, t))
  {
    var s' := Run(c, s, t);
    var pc := s.threads[t].pc;
    var i := Slot(c, pc.op, pc.k);
    TakeOutKeepsPlaces(s, s', t, pc.q, i);
    NodesSame(s, s', t, {pc.q});
    PoolsStep(s, s', t, {pc.q});
    LocalStep(s, s', t, {pc.q});
  }

  /** A store has won bucket `i` from the payload `q` for its block `a`, and left the thread as `th`. */
  ghost predicate Replaced(c: Config, s: State, t: nat, q: nat, a: nat, i: nat, th: Thread, s': State) {
    && Inv(c, s) && t < |s.threads| && a < |s.blocks| && q < |s.blocks| && i < |s.buckets|
    && OwnBlock(s.threads[t].pc) == At(a) && s.threads[t].pc.Remove? && s.buckets[i] == At(q)
    && s'.threads == s.threads[t := th]
    && th.pc.RetireLoad? && th.pc.q == q
    && th.active && th.local == s.threads[t].local && th.seen == s.threads[t].seen
    && q != a
    && s'.blocks == s.blocks[q := s.blocks[q].(status := Unlinked(t))][a := s.blocks[a].(status := Linked(i))]
    && s'.buckets == s.buckets[i := At(a)]
    && s'.retired == s.retired && s'.global == s.global && s'.reclaimer == s.reclaimer && s'.watch == s.watch
  }

  lemma ReplacedPlaces(c: Config, s: State, t: nat, q: nat, a: nat, i: nat, th: Thread, s': State)
    requires Replaced(c, s, t, q, a, i, th, s')
    ensures BucketsOk(s'.buckets, s'.blocks) && OwnersOk(s'.blocks, s'.threads)
  {
    BucketsStep(s, s', t, {q, a}, i);
    OwnersStep(s, s', t, {q, a});
  }

  lemma ReplacedPools(c: Config, s: State, t: nat, q: nat, a: nat, i: nat, th: Thread, s': State)
    requires Replaced(c, s, t, q, a, i, th, s')
    ensures NodesOk(s'.blocks, s'.retired) && PoolsOk(s'.blocks)
  {
    NodesSame(s, s', t, {q, a});
    PoolsStep(s, s', t, {q, a});
  }

  lemma ReplacedWinners(c: Config, s: State, t: nat, q: nat, a: nat, i: nat, th: Thread, s': State)
    requires Replaced(c, s, t, q, a, i, th, s')
    ensures WinnersOk(s'.blocks, s'.threads)
  {
    WinnersStep(s, s', t, {q, a});
  }

  lemma ReplacedInv(c: Config, s: State, t: nat, q: nat, a: nat, i: nat, th: Thread, s': State)
    requires Replaced(c, s, t, q, a, i, th, s')
    ensures Inv(c, s')
  {
    ReplacedPlaces(c, s, t, q, a, i, th, s');
    ReplacedPools(c, s, t, q, a, i, th, s');
    ReplacedWinners(c, s, t, q, a, i, th, s');
    LocalStep(s, s', t, {q, a});
  }

  lemma ReplaceKeepsInv(c: Config, s: State, t: nat)
    requires Inv(c, s) && CanRun(c, s, t) && s.threads[t].pc.Remove? && s.threads[t].pc.op.Store?
    requires s.buckets[Slot(c, s.threads[t].pc.op, s.threads[t].pc.k)] == At(s.threads[t].pc.q)
    ensures Inv(c, Run(c, s, t))
  {
    var pc := s.threads[t].pc;
    assert OwnBlock(pc) == At(pc.op.a);
    assert pc.q != pc.op.a;
    var s' := Run(c, s, t);
    ReplacedInv(c, s, t, pc.q, pc.op.a, Slot(c, pc.op, pc.k), s'.threads[t], s');
  }

  /** The winner of an unlinked block lets go of it. */
  lemma LetGoKeepsPlaces(s: State, s': State, t: nat, q: nat)
    requires BucketsOk(s.buckets, s.blocks) && OwnersOk(s.blocks, s.threads) && WinnersOk(s.blocks, s.threads)
    requires Local(s, s', t, {q}) && s'.buckets == s.buckets && q < |s.blocks| && Pending(s.threads[t].pc) == At(q)
    requires s'.blocks[q].status.Retired? || s'.blocks[q].status == Lost
    requires OwnBlock(s.threads[t].pc) == Null == OwnBlock(s'.threads[t].pc) && Pending(s'.threads[t].pc) == Null
    ensures BucketsOk(s'.buckets, s'.blocks) && OwnersOk(s'.blocks, s'.threads) && WinnersOk(s'.blocks, s'.threads)
  {
    BucketsSame(s, s', t, {q});
    OwnersStep(s, s', t, {q});
    WinnersStep(s, s', t, {q});
  }

  lemma PushedNodes(blocks: seq<Block>, retired: multiset<Node>, q: nat, e: nat)
    requires NodesOk(blocks, retired) && q < |blocks| && blocks[q].status.Unlinked?
    ensures NodesOk(blocks[q := blocks[q].(status := Retired(e))], retired + multiset{Node(q, e)})
  {
    assert Node(q, e) !in retired;
  }

  /** The node of the unlinked block `q` is pushed with epoch `e`. */
  lemma PushedInv(c: Config, s: State, t: nat, q: nat, e: nat, th: Thread, s': State)
    requires Inv(c, s) && t < |s.threads| && q < |s.blocks|
    requires s.threads[t].pc.RetirePush? && s.threads[t].pc.q == q && s.threads[t].pc.e == e
    requires s'.threads == s.threads[t := th]
    requires (th.pc.Idle? || th.pc.Account? || th.pc.AccountRetired?) && WellFormed(th.pc)
    requires th.active && th.local == s.threads[t].local && th.seen == s.threads[t].seen
    requires s'.blocks == s.blocks[q := s.blocks[q].(status := Retired(e))]
    requires s'.buckets == s.buckets && s'.retired == s.retired + multiset{Node(q, e)}
    requires s'.global == s.global && s'.reclaimer == s.reclaimer && s'.watch == s.watch
    ensures Inv(c, s')
  {
    assert Pending(s.threads[t].pc) == At(q);
    LetGoKeepsPlaces(s, s', t, q);
    PushedNodes(s.blocks, s.retired, q, e);
    PoolsStep(s, s', t, {q});
    LocalStep(s, s', t, {q});
  }

  lemma RetireKeepsInv(c: Config, s: State, t: nat)
    requires Inv(c, s) && CanRun(c, s, t) && s.threads[t].pc.RetirePush?
    ensures Inv(c, Run(c, s, t))
  {
    var s' := Run(c, s, t);
    PushedInv(c, s, t, s.threads[t].pc.q, s.threads[t].pc.e, s'.threads[t], s');
  }

  /** The unlinked block `q` is given up without a node. */
  lemma DroppedInv(c: Config, s: State, t: nat, q: nat, th: Thread, s': State)
    requires Inv(c, s) && t < |s.threads| && q < |s.blocks| && s.threads[t].pc.RetireLoad?
    requires Pending(s.threads[t].pc) == At(q)
    requires s'.threads == s.threads[t := th]
    requires (th.pc.Idle? || th.pc.Account? || th.pc.AccountRetired?) && WellFormed(th.pc)
    requires th.active && th.local == s.threads[t].local && th.seen == s.threads[t].seen
    requires s'.blocks == s.blocks[q := s.blocks[q].(status := Lost)]
    requires s'.buckets == s.buckets
    requires s'.retired == s.retired && s'.global == s.global && s'.reclaimer == s.reclaimer && s'.watch == s.watch
    ensures Inv(c, s')
  {
    LetGoKeepsPlaces(s, s', t, q);
    NodesSame(s, s', t, {q});
    PoolsStep(s, s', t, {q});
    LocalStep(s, s', t, {q});
  }

  lemma DropKeepsInv(c: Config, s: State, t: nat)
    requires Inv(c, s) && Enabled(c, s, DropNode(t))
    ensures Inv(c, Act(c, s, DropNode(t)))
  {
    var s' := Act(c, s, DropNode(t));
    DroppedInv(c, s, t, s.threads[t].pc.q, s'.threads[t], s');
  }

  /** A store that found no bucket frees its block, which nobody else has seen. */
  lemma GiveBackKeepsInv(c: Config, s: State, t: nat)
    requires Inv(c, s) && CanRun(c, s, t) && s.threads[t].pc.GiveBack?
    ensures Inv(c, Run(c, s, t))
  {
    var s' := Run(c, s, t);
    var a := s.threads[t].pc.a;
    assert OwnBlock(s.threads[t].pc) == At(a);
    BucketsSame(s, s', t, {a});
    OwnersStep(s, s', t, {a});
    WinnersStep(s, s', t, {a});
    NodesSame(s, s', t, {a});
    PoolsStep(s, s', t, {a});
    LocalStep(s, s', t, {a});
  }

  // ----- thread steps that leave memory alone

  /** Only thread `t` moves, quietly; the cursor and the shared counters may change. */
  ghost predicate QuietStep(s: State, t: nat, s': State) {
    && t < |s.threads| == |s'.threads|
    && Quiet(s, t, s'.threads[t])
    && s' == s.(threads := s.threads[t := s'.threads[t]], cursor := s'.cursor, shared := s'.shared)
  }

  lemma LoadIsQuiet(c: Config, s: State, t: nat)
    requires BucketsOk(s.buckets, s.blocks) && CanRun(c, s, t) && ThreadOk(s.threads[t], s.global)
    requires s.threads[t].pc.Load?
    ensures QuietStep(s, t, Run(c, s, t))
  {
  }

  lemma InspectIsQuiet(c: Config, s: State, t: nat)
    requires CanRun(c, s, t) && ThreadOk(s.threads[t], s.global) && s.threads[t].pc.Inspect?
    ensures QuietStep(s, t, Run(c, s, t))
  {
  }

  lemma FailedRemoveIsQuiet(c: Config, s: State, t: nat)
    requires CanRun(c, s, t) && ThreadOk(s.threads[t], s.global) && s.threads[t].pc.Remove?
    requires s.buckets[Slot(c, s.threads[t].pc.op, s.threads[t].pc.k)] != At(s.threads[t].pc.q)
    ensures QuietStep(s, t, Run(c, s, t))
  {
  }

  lemma OthersAreQuiet(c: Config, s: State, t: nat)
    requires CanRun(c, s, t) && ThreadOk(s.threads[t], s.global)
    requires var pc := s.threads[t].pc;
      pc.ReadHit? || pc.RetireLoad? || pc.Account? || pc.AccountRetired? || pc.Entering? || pc.Entered?
    ensures QuietStep(s, t, Run(c, s, t))
  {
  }

  lemma QuietStepKeepsInv(c: Config, s: State, t: nat, s': State)
    requires Inv(c, s) && QuietStep(s, t, s')
    ensures Inv(c, s')
  {
    QuietKeepsInv(c, s, t, s'.threads[t], s');
  }

  lemma QuietRunKeepsInv(c: Config, s: State, t: nat)
    requires Inv(c, s) && CanRun(c, s, t)
    requires var pc := s.threads[t].pc;
      || pc.Load? || pc.Inspect? || pc.ReadHit? || pc.RetireLoad? || pc.Account? || pc.AccountRetired?
      || pc.Entering? || pc.Entered?
    ensures Inv(c, Run(c, s, t))
  {
    if s.threads[t].pc.Load? {
      LoadIsQuiet(c, s, t);
    } else if s.threads[t].pc.Inspect? {
      InspectIsQuiet(c, s, t);
    } else {
      OthersAreQuiet(c, s, t);
    }
    QuietStepKeepsInv(c, s, t, Run(c, s, t));
  }

  lemma RunKeepsInv(c: Config, s: State, t: nat)
    requires Inv(c, s) && CanRun(c, s, t)
    ensures Inv(c, Run(c, s, t))
  {
    var pc := s.threads[t].pc;
    if pc.Fresh? {
      FillKeepsInv(c, s, t);
    } else if pc.Insert? {
      InsertKeepsInv(c, s, t);
    } else if pc.RetirePush? {
      RetireKeepsInv(c, s, t);
    } else if pc.GiveBack? {
      GiveBackKeepsInv(c, s, t);
    } else if pc.Remove? {
      RemoveKeepsInv(c, s, t);
    } else {
      QuietRunKeepsInv(c, s, t);
    }
  }

  lemma RemoveKeepsInv(c: Config, s: State, t: nat)
    requires Inv(c, s) && CanRun(c, s, t) && s.threads[t].pc.Remove?
    ensures Inv(c, Run(c, s, t))
  {
    var pc := s.threads[t].pc;
    if s.buckets[Slot(c, pc.op, pc.k)] != At(pc.q) {
      FailedRemoveIsQuiet(c, s, t);
      QuietStepKeepsInv(c, s, t, Run(c, s, t));
    } else if pc.op.Store? {
      ReplaceKeepsInv(c, s, t);
    } else {
      TakeOutKeepsInv(c, s, t);
    }
  }

  // ----- the reclaimer

  /** While the two epochs lie in the same WORD-wide block, comparing the words is comparing the epochs. */
  lemma ScanComparesEpochs(local: nat, current: nat)
    requires local / WORD == current / WORD
    ensures Word(local) < Word(current) <==> local < current
  {
    assert local == WORD * (local / WORD) + Word(local);
    assert current == WORD * (current / WORD) + Word(current);
  }

  /** The scan may pass over a thread only if it holds nothing that the next epoch would age, or counts as missed. */
  lemma ReclaimerMoves(c: Config, s: State, r: Reclaimer, missed: set<nat>)
    requires Inv(c, s) && EpochsOk(s.threads, s.global, r)
    requires forall v :: 0 <= v < |s.threads| && s.threads[v].seen != {} && StillToScan(s.reclaimer, s.watch, v) ==>
               StillToScan(r, s.watch.(missed := missed), v) || s.threads[v].local == s.global
    ensures Inv(c, s.(reclaimer := r, watch := s.watch.(missed := missed)))
  {
    var s' := s.(reclaimer := r, watch := s.watch.(missed := missed));
    forall v, r | 0 <= v < |s'.threads| && v !in s'.watch.exposed && r in s'.threads[v].seen
      ensures Protected(s', v, r)
    {
      assert Protected(s, v, r);
    }
  }

  lemma ScanKeepsInv(c: Config, s: State, x: Action)
    requires Inv(c, s) && Enabled(c, s, x) && (x.ReclaimBegin? || x.ReclaimLook? || x.ReclaimEnd?)
    ensures Inv(c, Act(c, s, x))
  {
    var s' := Act(c, s, x);
    ReclaimerMoves(c, s, s'.reclaimer, s'.watch.missed);
  }

  lemma CompareKeepsInv(c: Config, s: State)
    requires Inv(c, s) && Enabled(c, s, ReclaimCompare)
    ensures Inv(c, Act(c, s, ReclaimCompare))
  {
    var s' := Act(c, s, ReclaimCompare);
    assert ThreadOk(s.threads[s.reclaimer.t], s.global);
    ReclaimerMoves(c, s, s'.reclaimer, s'.watch.missed);
  }

  /** Whoever the scan missed becomes exposed; to all others the advance does no harm. */
  lemma AdvanceKeepsInv(c: Config, s: State)
    requires Inv(c, s) && Enabled(c, s, ReclaimAdvance)
    ensures Inv(c, Act(c, s, ReclaimAdvance))
  {
    var s' := Act(c, s, ReclaimAdvance);
    forall v, r | 0 <= v < |s'.threads| && v !in s'.watch.exposed && r in s'.threads[v].seen
      ensures Protected(s', v, r)
    {
      assert Protected(s, v, r);
    }
  }

  /** The unsigned age of a node reaches the grace period only when its true age has. */
  lemma AgeIsExact(now: nat, epoch: nat)
    requires epoch <= now
    ensures Age(now, epoch) == (now - epoch) % WORD
    ensures Age(now, epoch) >= GRACE ==> now - epoch >= GRACE
  {
    var d := now - epoch;
    var k := (Word(now) + WORD - Word(epoch) - d) / WORD;
    assert Word(now) == now - WORD * (now / WORD);
    assert Word(epoch) == epoch - WORD * (epoch / WORD);
  }

  /** Nobody inside a section, unless exposed, has seen a block whose node has aged past the grace period. */
  lemma AgedIsUnseen(c: Config, s: State, node: Node, v: nat, r: Ref)
    requires Inv(c, s) && Enabled(c, s, ReclaimFree(node)) && v < |s.threads| && r in s.threads[v].seen
    requires v !in s.watch.exposed
    ensures r.q != node.q
  {
    assert Protected(s, v, r);
    if r.q == node.q {
      assert s.blocks[node.q].status == Retired(node.epoch);
      AgeIsExact(s.global, node.epoch);
      assert false;
    }
  }

  /** The reclaimer's call of the cleanup returns the block to its own pool. */
  lemma FreeEffect(c: Config, s: State, node: Node)
    requires Inv(c, s) && Enabled(c, s, ReclaimFree(node))
    ensures s.blocks[node.q].status == Retired(node.epoch) && s.retired[node] == 1
    ensures Act(c, s, ReclaimFree(node)) ==
      s.(retired := s.retired - multiset{node},
         blocks := s.blocks[node.q := s.blocks[node.q].(inPool := true, status := Free)])
  {
  }

  lemma FreeKeepsSeen(c: Config, s: State, node: Node)
    requires Inv(c, s) && Enabled(c, s, ReclaimFree(node))
    ensures SeenOk(Act(c, s, ReclaimFree(node)))
    ensures TestedOk(Act(c, s, ReclaimFree(node)).blocks, s.threads, s.watch)
  {
    FreeEffect(c, s, node);
    var s' := Act(c, s, ReclaimFree(node));
    forall v, r | 0 <= v < |s'.threads| && v !in s'.watch.exposed && r in s'.threads[v].seen
      ensures Protected(s', v, r)
      ensures r.q != node.q
    {
      assert Protected(s, v, r);
      AgedIsUnseen(c, s, node, v, r);
    }
    forall v | 0 <= v < |s'.threads| && v !in s'.watch.exposed && s'.threads[v].pc.Remove?
      ensures s'.threads[v].pc.q != node.q
    {
      assert Ref(s.threads[v].pc.q, s.threads[v].pc.serial) in s.threads[v].seen;
    }
  }

  lemma FreeKeepsNodes(blocks: seq<Block>, retired: multiset<Node>, node: Node)
    requires NodesOk(blocks, retired) && node in retired
    ensures NodesOk(blocks[node.q := blocks[node.q].(inPool := true, status := Free)], retired - multiset{node})
  {
  }

  lemma FreeKeepsPlaces(blocks: seq<Block>, threads: seq<Thread>, buckets: seq<Ptr>, q: nat)
    requires q < |blocks| && blocks[q].status.Retired?
    requires BucketsOk(buckets, blocks) && OwnersOk(blocks, threads) && WinnersOk(blocks, threads) && PoolsOk(blocks)
    ensures var blocks' := blocks[q := blocks[q].(inPool := true, status := Free)];
      && BucketsOk(buckets, blocks') && OwnersOk(blocks', threads) && WinnersOk(blocks', threads) && PoolsOk(blocks')
  {
  }

  lemma FreeKeepsInv(c: Config, s: State, node: Node)
    requires Inv(c, s) && Enabled(c, s, ReclaimFree(node))
    ensures Inv(c, Act(c, s, ReclaimFree(node)))
  {
    FreeEffect(c, s, node);
    FreeKeepsSeen(c, s, node);
    FreeKeepsNodes(s.blocks, s.retired, node);
    FreeKeepsPlaces(s.blocks, s.threads, s.buckets, node.q);
  }

  lemma EnterKeepsInv(c: Config, s: State, t: nat)
    requires Inv(c, s) && Enabled(c, s, EnterSection(t))
    ensures Inv(c, Act(c, s, EnterSection(t)))
  {
    var s' := Act(c, s, EnterSection(t));
    QuietKeepsInv(c, s, t, s'.threads[t], s');
  }

  /** A thread that leaves has seen nothing any more, so the scans need not remember it. */
  lemma ForgetKeepsInv(c: Config, s: State, t: nat)
    requires Inv(c, s) && t < |s.threads| && s.threads[t].pc == Outside
    ensures Inv(c, s.(watch := Watch(s.watch.missed - {t}, s.watch.exposed - {t})))
  {
    var s' := s.(watch := Watch(s.watch.missed - {t}, s.watch.exposed - {t}));
    assert ThreadOk(s.threads[t], s.global);
    forall v, r | 0 <= v < |s'.threads| && v !in s'.watch.exposed && r in s'.threads[v].seen
      ensures Protected(s', v, r)
    {
      assert Protected(s, v, r);
    }
  }

  lemma ExitKeepsInv(c: Config, s: State, t: nat)
    requires Inv(c, s) && Enabled(c, s, ExitSection(t))
    ensures Inv(c, Act(c, s, ExitSection(t)))
  {
    var s1 := s.(threads := s.threads[t := s.threads[t].(pc := Outside, active := false, seen := {})]);
    QuietKeepsInv(c, s, t, s1.threads[t], s1);
    ForgetKeepsInv(c, s1, t);
  }

  lemma BeginKeepsInv(c: Config, s: State, x: Action)
    requires Inv(c, s) && Enabled(c, s, x) && (x.BeginLookup? || x.BeginSweep?)
    ensures Inv(c, Act(c, s, x))
  {
    var s' := Act(c, s, x);
    QuietKeepsInv(c, s, x.t, s'.threads[x.t], s');
  }

  lemma FlushKeepsInv(c: Config, s: State, x: Action)
    requires Inv(c, s) && Enabled(c, s, x) && (x.Flush? || x.Drain?)
    ensures Inv(c, Act(c, s, x))
  {
    var s' := Act(c, s, x);
    if x.Flush? {
      QuietKeepsInv(c, s, x.t, s'.threads[x.t], s');
    } else {
      forall v, r | 0 <= v < |s'.threads| && v !in s'.watch.exposed && r in s'.threads[v].seen
        ensures Protected(s', v, r)
      {
        assert Protected(s, v, r);
      }
    }
  }

  /** Every step keeps the invariant. */
  lemma StepKeepsInv(c: Config, s: State, x: Action)
    requires Inv(c, s) && Enabled(c, s, x)
    ensures Inv(c, Act(c, s, x))
  {
    match x
    case Continue(t) => RunKeepsInv(c, s, t);
    case BeginWrite(t, key, now, a) => AllocateKeepsInv(c, s, t, key, now, a);
    case DropNode(t) => DropKeepsInv(c, s, t);
    case ReclaimBegin => ScanKeepsInv(c, s, x);
    case ReclaimLook(_) => ScanKeepsInv(c, s, x);
    case ReclaimEnd => ScanKeepsInv(c, s, x);
    case ReclaimCompare => CompareKeepsInv(c, s);
    case ReclaimAdvance => AdvanceKeepsInv(c, s);
    case ReclaimFree(node) => FreeKeepsInv(c, s, node);
    case EnterSection(t) => EnterKeepsInv(c, s, t);
    case ExitSection(t) => ExitKeepsInv(c, s, t);
    case BeginLookup(_, _, _) => BeginKeepsInv(c, s, x);
    case BeginSweep(_, _) => BeginKeepsInv(c, s, x);
    case Flush(_, _) => FlushKeepsInv(c, s, x);
    case Drain(_) => FlushKeepsInv(c, s, x);
  }

  lemma {:induction false} RunKeepsInvariant(c: Config, s: State, xs: seq<Action>)
    requires Inv(c, s) && Executable(c, s, xs)
    ensures Inv(c, After(c, s, xs))
    decreases |xs|
  {
    if xs != [] {
      StepKeepsInv(c, s, xs[0]);
      RunKeepsInvariant(c, Act(c, s, xs[0]), xs[1..]);
    }
  }

  lemma InitInv(c: Config, s: State)
    requires Init(c, s)
    ensures Inv(c, s)
  {
  }
}
