/**
 Bounded reclamation: enough consecutive sweeper calls with the carried cursor take out every
 payload that had expired when they began, whatever the other threads do meanwhile.
 */
module CacheSweep {
  import opened Words
  import opened CacheMachine
  import opened CacheInvariant
  import opened CacheSafety

  /** The sweep a thread is executing. */
  predicate Sweeping(pc: Pc) {
    match pc
    case Load(op, _) => op.Sweep?
    case Inspect(op, _, _, _) => op.Sweep?
    case Remove(op, _, _, _) => op.Sweep?
    case RetireLoad(op, _, _) => op.Sweep?
    case RetirePush(op, _, _, _) => op.Sweep?
    case Account(op, _) => op.Sweep?
    case AccountRetired(op, _) => op.Sweep?
    case _ => false
  }

  /** Buckets the sweep is done with: the one at hand counts once its payload is out. */
  function Progress(pc: Pc): nat {
    match pc
    case Load(_, k) => k
    case Inspect(_, k, _, _) => k
    case Remove(_, k, _, _) => k
    case RetireLoad(_, k, _) => k + 1
    case RetirePush(_, k, _, _) => k + 1
    case Account(_, k) => k + 1
    case AccountRetired(_, k) => k + 1
    case _ => 0
  }

  function SweepOp(pc: Pc): Op
    requires Sweeping(pc)
  {
    pc.op
  }

  /** The bucket visited as number `p` of a round that starts at `start`. */
  function Visited(start: nat, p: nat, size: nat): nat
    requires size > 0
  {
    (start + p) % size
  }

  /** The sweeper's last step of a call. */
  ghost predicate EndsSweep(c: Config, s: State, x: Action) {
    && x == Continue(c.sweeper) && c.sweeper < |s.threads|
    && s.threads[c.sweeper].pc.Load? && s.threads[c.sweeper].pc.op.Sweep?
    && s.threads[c.sweeper].pc.k >= c.budget
  }

  ghost function SweepsDone(c: Config, s: State, xs: seq<Action>): nat
    requires Executable(c, s, xs)
    decreases |xs|
  {
    if xs == [] then 0
    else (if EndsSweep(c, s, xs[0]) then 1 else 0) + SweepsDone(c, Act(c, s, xs[0]), xs[1..])
  }

  /** Every sweep begun in `xs` has a time stamp of at least `expire`. */
  predicate SweepsFrom(xs: seq<Action>, expire: nat) {
    forall j :: 0 <= j < |xs| && xs[j].BeginSweep? ==> xs[j].now >= expire
  }

  /** The allocation under watch: block, serial, bucket and expiry. */
  datatype Target = Target(q: nat, serial: nat, i: nat, expire: nat)

  /** The allocation is still linked. */
  predicate Remains(s: State, g: Target) {
    g.q < |s.blocks| && s.blocks[g.q].serial == g.serial && s.blocks[g.q].status.Linked?
  }

  /** Only the sweeper sweeps, from the stored cursor, with a late enough time stamp. */
  ghost predicate Roles(c: Config, s: State, g: Target) {
    && c.sweeper < |s.threads|
    && (forall t :: 0 <= t < |s.threads| && Sweeping(s.threads[t].pc) ==> t == c.sweeper)
    && var pc := s.threads[c.sweeper].pc;
       Sweeping(pc) ==>
         && Progress(pc) <= c.budget
         && SweepOp(pc).now >= g.expire
         && SweepOp(pc).cursor == s.cursor
         && (pc.Load? || pc.k < c.budget)
  }

  /** After `done` calls, started with the cursor at `start`. */
  ghost predicate Round(c: Config, s: State, g: Target, start: nat, done: nat) {
    && c.Valid() && g.i < c.size
    && s.cursor == (start + done * c.budget) % c.size
    && Roles(c, s, g)
    && g.q < |s.blocks| && 5 * g.serial + 1 <= Stage(s.blocks[g.q])
    && (Remains(s, g) ==>
          && s.blocks[g.q].status == Linked(g.i)
          && s.blocks[g.q].expire == g.expire
          && Ahead(c, s, g, start, done)
          && InSight(c, s, g))
  }

  /** The target's bucket is not among those the round has done. */
  ghost predicate Ahead(c: Config, s: State, g: Target, start: nat, done: nat)
    requires c.Valid() && c.sweeper < |s.threads|
  {
    var pc := s.threads[c.sweeper].pc;
    forall p: nat :: p < done * c.budget + (if Sweeping(pc) then Progress(pc) else 0) ==>
      Visited(start, p, c.size) != g.i
  }

  /** When the sweeper is at the target's bucket, it is looking at the target. */
  ghost predicate InSight(c: Config, s: State, g: Target)
    requires c.Valid() && c.sweeper < |s.threads|
  {
    var pc := s.threads[c.sweeper].pc;
    (pc.Inspect? || pc.Remove?) && pc.op.Sweep? && Slot(c, pc.op, pc.k) == g.i ==> pc.q == g.q
  }

  // ----- the target itself

  /** If the allocation is linked after a step it was linked before, and nothing of it changed. */
  lemma TargetStays(c: Config, s: State, x: Action, g: Target)
    requires Inv(c, s) && Enabled(c, s, x) && g.q < |s.blocks| && 5 * g.serial + 1 <= Stage(s.blocks[g.q])
    ensures g.q < |Act(c, s, x).blocks| && 5 * g.serial + 1 <= Stage(Act(c, s, x).blocks[g.q])
    ensures Remains(Act(c, s, x), g) ==> Remains(s, g) && Act(c, s, x).blocks[g.q] == s.blocks[g.q]
  {
    StepFollowsEdges(c, s, x, g.q);
    TargetOverEdge(x, s, Act(c, s, x), g);
  }

  lemma TargetOverEdge(x: Action, s: State, s': State, g: Target)
    requires g.q < |s.blocks| && g.q < |s'.blocks| && 5 * g.serial + 1 <= Stage(s.blocks[g.q])
    requires Edge(x, s.blocks[g.q], s'.blocks[g.q])
    ensures 5 * g.serial + 1 <= Stage(s'.blocks[g.q])
    ensures Remains(s', g) ==> Remains(s, g) && s'.blocks[g.q] == s.blocks[g.q]
  {
    EdgeRaisesStage(x, s.blocks[g.q], s'.blocks[g.q]);
  }

  // ----- steps of the other threads

  /** Everything the round depends on besides the target. */
  ghost predicate SameSweeper(c: Config, s: State, s': State) {
    && c.sweeper < |s.threads| && |s'.threads| == |s.threads|
    && s'.cursor == s.cursor
    && s'.threads[c.sweeper].pc == s.threads[c.sweeper].pc
    && (forall t :: 0 <= t < |s.threads| && t != c.sweeper && Sweeping(s'.threads[t].pc) ==> Sweeping(s.threads[t].pc))
  }

  /** Only thread `t` moves; unless it is sweeping it does not start to, and the cursor stays. */
  ghost predicate MovesOne(c: Config, s: State, s': State, t: nat) {
    && t < |s.threads| == |s'.threads|
    && (forall v :: 0 <= v < |s.threads| && v != t ==> s'.threads[v] == s.threads[v])
    && (!Sweeping(s.threads[t].pc) ==> !Sweeping(s'.threads[t].pc) && s'.cursor == s.cursor)
    && (s.cursor < c.size ==> s'.cursor < c.size)
  }

  lemma LoadMovesOne(c: Config, s: State, t: nat)
    requires CanRun(c, s, t) && s.threads[t].pc.Load?
    ensures MovesOne(c, s, Run(c, s, t), t)
  {
  }

  lemma RemoveMovesOne(c: Config, s: State, t: nat)
    requires CanRun(c, s, t) && (s.threads[t].pc.Remove? || s.threads[t].pc.Insert?)
    ensures MovesOne(c, s, Run(c, s, t), t)
  {
  }

  lemma RestMovesOne(c: Config, s: State, t: nat)
    requires CanRun(c, s, t) && !s.threads[t].pc.Load? && !s.threads[t].pc.Remove? && !s.threads[t].pc.Insert?
    ensures MovesOne(c, s, Run(c, s, t), t)
  {
  }

  lemma RunMovesOne(c: Config, s: State, t: nat)
    requires CanRun(c, s, t)
    ensures MovesOne(c, s, Run(c, s, t), t)
  {
    var pc := s.threads[t].pc;
    if pc.Load? {
      LoadMovesOne(c, s, t);
    } else if pc.Remove? || pc.Insert? {
      RemoveMovesOne(c, s, t);
    } else {
      RestMovesOne(c, s, t);
    }
  }

  lemma RunOfAnother(c: Config, s: State, t: nat)
    requires CanRun(c, s, t) && t != c.sweeper && c.sweeper < |s.threads| && !Sweeping(s.threads[t].pc)
    ensures SameSweeper(c, s, Run(c, s, t))
  {
    RunMovesOne(c, s, t);
  }

  lemma OutsideEvent(c: Config, s: State, x: Action)
    requires Enabled(c, s, x) && c.sweeper < |s.threads|
    requires x.EnterSection? || x.ExitSection? || x.BeginLookup? || x.BeginWrite? || x.Flush? || x.Drain?
          || x.ReclaimBegin? || x.ReclaimLook? || x.ReclaimCompare? || x.ReclaimAdvance? || x.ReclaimFree?
          || x.ReclaimEnd?
    ensures
      var s' := Act(c, s, x);
      && |s'.threads| == |s.threads| && s'.cursor == s.cursor
      && (forall t :: 0 <= t < |s.threads| ==>
            s'.threads[t].pc == s.threads[t].pc || (!Sweeping(s'.threads[t].pc) && !Sweeping(s.threads[t].pc)))
  {
  }

  /** A step that leaves the sweeper where it is keeps the round. */
  lemma RoundUndisturbed(c: Config, s: State, x: Action, g: Target, start: nat, done: nat)
    requires Inv(c, s) && Enabled(c, s, x) && Round(c, s, g, start, done)
    requires SameSweeper(c, s, Act(c, s, x))
    ensures Round(c, Act(c, s, x), g, start, done)
  {
    TargetStays(c, s, x, g);
  }

  /** So does a step that moves it while it is not sweeping. */
  lemma RoundIdle(c: Config, s: State, x: Action, g: Target, start: nat, done: nat)
    requires Inv(c, s) && Enabled(c, s, x) && Round(c, s, g, start, done)
    requires x.EnterSection? || x.ExitSection? || x.BeginLookup? || x.BeginWrite? || x.Flush? || x.Drain?
          || x.ReclaimBegin? || x.ReclaimLook? || x.ReclaimCompare? || x.ReclaimAdvance? || x.ReclaimFree?
          || x.ReclaimEnd?
    ensures Round(c, Act(c, s, x), g, start, done)
  {
    OutsideEvent(c, s, x);
    TargetStays(c, s, x, g);
    RoundCarries(c, s, Act(c, s, x), g, start, done);
  }

  lemma RoundCarries(c: Config, s: State, s': State, g: Target, start: nat, done: nat)
    requires Round(c, s, g, start, done) && |s'.threads| == |s.threads| && s'.cursor == s.cursor
    requires forall t :: 0 <= t < |s.threads| ==>
               s'.threads[t].pc == s.threads[t].pc || (!Sweeping(s'.threads[t].pc) && !Sweeping(s.threads[t].pc))
    requires g.q < |s'.blocks| && 5 * g.serial + 1 <= Stage(s'.blocks[g.q])
    requires Remains(s', g) ==> Remains(s, g) && s'.blocks[g.q] == s.blocks[g.q]
    ensures Round(c, s', g, start, done)
  {
  }

  // ----- steps of the sweeper

  lemma SweepSlot(c: Config, g: Target, start: nat, done: nat, now: nat, k: nat)
    requires c.Valid()
    ensures Slot(c, Sweep(now, (start + done * c.budget) % c.size), k) == Visited(start, done * c.budget + k, c.size)
  {
    var a := start + done * c.budget;
    ModAdd(a, k, c.size);
  }

  lemma BeginSweepKeeps(c: Config, s: State, now: nat, g: Target, start: nat, done: nat)
    requires Inv(c, s) && Enabled(c, s, BeginSweep(c.sweeper, now)) && Round(c, s, g, start, done)
    requires now >= g.expire
    ensures Round(c, Act(c, s, BeginSweep(c.sweeper, now)), g, start, done)
  {
    TargetStays(c, s, BeginSweep(c.sweeper, now), g);
    SweepBegun(c, s, Act(c, s, BeginSweep(c.sweeper, now)), now, g, start, done);
  }

  lemma SweepBegun(c: Config, s: State, s': State, now: nat, g: Target, start: nat, done: nat)
    requires c.Valid() && Enabled(c, s, BeginSweep(c.sweeper, now)) && s' == Act(c, s, BeginSweep(c.sweeper, now))
    requires Roles(c, s, g) && now >= g.expire && s.cursor < c.size
    ensures s'.cursor == s.cursor && s'.blocks == s.blocks
    ensures Roles(c, s', g) && InSight(c, s', g)
    ensures Ahead(c, s, g, start, done) ==> Ahead(c, s', g, start, done)
  {
    var pc := s'.threads[c.sweeper].pc;
    DivModUnique(0, s.cursor, c.size);
    assert Sweeping(pc) && Progress(pc) == 0 && pc.Load?;
    assert !Sweeping(s.threads[c.sweeper].pc);
    assert s'.threads == s.threads[c.sweeper := s'.threads[c.sweeper]];
  }

  lemma EndSweepKeeps(c: Config, s: State, g: Target, start: nat, done: nat)
    requires Inv(c, s) && Round(c, s, g, start, done)
    requires Enabled(c, s, Continue(c.sweeper)) && EndsSweep(c, s, Continue(c.sweeper))
    ensures Round(c, Run(c, s, c.sweeper), g, start, done + 1)
  {
    var x := Continue(c.sweeper);
    var s' := Act(c, s, x);
    TargetStays(c, s, x, g);
    var a := start + done * c.budget;
    ModAdd(a, c.budget, c.size);
    assert a + c.budget == start + (done + 1) * c.budget;
    assert s.threads[c.sweeper].pc.k == c.budget;
  }

  /** The sweeper reads a bucket: if it is the target's, it finds the target there. */
  lemma SweepLoadKeeps(c: Config, s: State, g: Target, start: nat, done: nat)
    requires Inv(c, s) && Round(c, s, g, start, done) && CanRun(c, s, c.sweeper)
    requires Sweeping(s.threads[c.sweeper].pc) && s.threads[c.sweeper].pc.Load?
    requires s.threads[c.sweeper].pc.k < c.budget
    ensures Round(c, Run(c, s, c.sweeper), g, start, done)
  {
    var pc := s.threads[c.sweeper].pc;
    TargetStays(c, s, Continue(c.sweeper), g);
    SweepSlot(c, g, start, done, pc.op.now, pc.k);
    var s' := Run(c, s, c.sweeper);
    assert s'.threads == s.threads[c.sweeper := s'.threads[c.sweeper]];
  }

  lemma SweepInspectKeeps(c: Config, s: State, g: Target, start: nat, done: nat)
    requires Inv(c, s) && Round(c, s, g, start, done) && CanRun(c, s, c.sweeper)
    requires Sweeping(s.threads[c.sweeper].pc) && s.threads[c.sweeper].pc.Inspect?
    ensures Round(c, Run(c, s, c.sweeper), g, start, done)
  {
    var pc := s.threads[c.sweeper].pc;
    TargetStays(c, s, Continue(c.sweeper), g);
    SweepSlot(c, g, start, done, pc.op.now, pc.k);
    var s' := Run(c, s, c.sweeper);
    assert s'.threads == s.threads[c.sweeper := s'.threads[c.sweeper]];
  }

  /** The sweeper's compare-and-swap either takes the target out or was not aimed at it. */
  lemma SweepRemoveKeeps(c: Config, s: State, g: Target, start: nat, done: nat)
    requires Inv(c, s) && Round(c, s, g, start, done) && CanRun(c, s, c.sweeper)
    requires Sweeping(s.threads[c.sweeper].pc) && s.threads[c.sweeper].pc.Remove?
    ensures Round(c, Run(c, s, c.sweeper), g, start, done)
  {
    var pc := s.threads[c.sweeper].pc;
    TargetStays(c, s, Continue(c.sweeper), g);
    SweepSlot(c, g, start, done, pc.op.now, pc.k);
    var s' := Run(c, s, c.sweeper);
    assert s'.threads == s.threads[c.sweeper := s'.threads[c.sweeper]];
  }

  lemma SweepRestKeeps(c: Config, s: State, g: Target, start: nat, done: nat)
    requires Inv(c, s) && Round(c, s, g, start, done) && CanRun(c, s, c.sweeper)
    requires var pc := s.threads[c.sweeper].pc;
      Sweeping(pc) && (pc.RetireLoad? || pc.RetirePush? || pc.Account? || pc.AccountRetired?)
    ensures Round(c, Run(c, s, c.sweeper), g, start, done)
  {
    TargetStays(c, s, Continue(c.sweeper), g);
    var s' := Run(c, s, c.sweeper);
    assert s'.threads == s.threads[c.sweeper := s'.threads[c.sweeper]];
  }

  lemma SweepDropKeeps(c: Config, s: State, g: Target, start: nat, done: nat)
    requires Inv(c, s) && Round(c, s, g, start, done) && Enabled(c, s, DropNode(c.sweeper))
    requires Sweeping(s.threads[c.sweeper].pc)
    ensures Round(c, Act(c, s, DropNode(c.sweeper)), g, start, done)
  {
    TargetStays(c, s, DropNode(c.sweeper), g);
    var s' := Act(c, s, DropNode(c.sweeper));
    assert s'.threads == s.threads[c.sweeper := s'.threads[c.sweeper]];
  }

  lemma SweepEnterKeeps(c: Config, s: State, g: Target, start: nat, done: nat)
    requires Inv(c, s) && Round(c, s, g, start, done) && CanRun(c, s, c.sweeper)
    requires !Sweeping(s.threads[c.sweeper].pc)
    ensures Round(c, Run(c, s, c.sweeper), g, start, done)
  {
    TargetStays(c, s, Continue(c.sweeper), g);
    SweeperStaysIdle(c, s);
  }

  lemma SweeperStaysIdle(c: Config, s: State)
    requires CanRun(c, s, c.sweeper) && !Sweeping(s.threads[c.sweeper].pc)
    ensures var s' := Run(c, s, c.sweeper);
      && |s'.threads| == |s.threads| && s'.cursor == s.cursor && !Sweeping(s'.threads[c.sweeper].pc)
      && s'.threads == s.threads[c.sweeper := s'.threads[c.sweeper]]
  {
    var pc := s.threads[c.sweeper].pc;
    if pc.Load? {
    } else if pc.Remove? || pc.Insert? {
    } else {
    }
  }

  lemma SweeperKeepsRound(c: Config, s: State, g: Target, start: nat, done: nat)
    requires Inv(c, s) && Round(c, s, g, start, done) && CanRun(c, s, c.sweeper)
    ensures Round(c, Run(c, s, c.sweeper), g, start, done + if EndsSweep(c, s, Continue(c.sweeper)) then 1 else 0)
  {
    var pc := s.threads[c.sweeper].pc;
    if EndsSweep(c, s, Continue(c.sweeper)) {
      EndSweepKeeps(c, s, g, start, done);
    } else if !Sweeping(pc) {
      SweepEnterKeeps(c, s, g, start, done);
    } else if pc.Load? {
      SweepLoadKeeps(c, s, g, start, done);
    } else if pc.Inspect? {
      SweepInspectKeeps(c, s, g, start, done);
    } else if pc.Remove? {
      SweepRemoveKeeps(c, s, g, start, done);
    } else {
      SweepRestKeeps(c, s, g, start, done);
    }
  }

  lemma StepKeepsRound(c: Config, s: State, x: Action, g: Target, start: nat, done: nat)
    requires Inv(c, s) && Enabled(c, s, x) && Round(c, s, g, start, done)
    requires x.BeginSweep? ==> x.now >= g.expire
    ensures Round(c, Act(c, s, x), g, start, done + if EndsSweep(c, s, x) then 1 else 0)
  {
    if x.Continue? {
      if x.t == c.sweeper {
        SweeperKeepsRound(c, s, g, start, done);
      } else {
        RunOfAnother(c, s, x.t);
        RoundUndisturbed(c, s, x, g, start, done);
      }
    } else if x.DropNode? {
      if x.t == c.sweeper && Sweeping(s.threads[x.t].pc) {
        SweepDropKeeps(c, s, g, start, done);
      } else {
        DropOutsideSweep(c, s, x.t, g, start, done);
      }
    } else if x.BeginSweep? {
      BeginSweepKeeps(c, s, x.now, g, start, done);
    } else {
      RoundIdle(c, s, x, g, start, done);
    }
  }

  lemma DropOutsideSweep(c: Config, s: State, t: nat, g: Target, start: nat, done: nat)
    requires Inv(c, s) && Enabled(c, s, DropNode(t)) && Round(c, s, g, start, done)
    requires t != c.sweeper || !Sweeping(s.threads[t].pc)
    ensures Round(c, Act(c, s, DropNode(t)), g, start, done)
  {
    TargetStays(c, s, DropNode(t), g);
    DropMovesOne(c, s, t);
    RoundCarries(c, s, Act(c, s, DropNode(t)), g, start, done);
  }

  lemma DropMovesOne(c: Config, s: State, t: nat)
    requires Enabled(c, s, DropNode(t)) && !Sweeping(s.threads[t].pc)
    ensures MovesOne(c, s, Act(c, s, DropNode(t)), t) && Act(c, s, DropNode(t)).cursor == s.cursor
  {
  }

  lemma FirstStepKeepsRound(c: Config, s: State, xs: seq<Action>, g: Target, start: nat, done: nat)
    requires Inv(c, s) && Round(c, s, g, start, done) && Executable(c, s, xs) && SweepsFrom(xs, g.expire)
    requires xs != []
    ensures Inv(c, Act(c, s, xs[0])) && SweepsFrom(xs[1..], g.expire)
    ensures Round(c, Act(c, s, xs[0]), g, start, done + if EndsSweep(c, s, xs[0]) then 1 else 0)
  {
    StepKeepsInv(c, s, xs[0]);
    StepKeepsRound(c, s, xs[0], g, start, done);
  }

  ghost predicate SoundRound(c: Config, s: State, g: Target, start: nat, done: nat) {
    Inv(c, s) && Round(c, s, g, start, done)
  }

  /** The same of all counts equal to `done`, so that a proof by induction carries it as one fact. */
  ghost predicate UnderWay(c: Config, s: State, g: Target, start: nat, done: nat) {
    forall d: nat :: d == done ==> SoundRound(c, s, g, start, d)
  }

  lemma StepStaysUnderWay(c: Config, s: State, xs: seq<Action>, g: Target, start: nat, done: nat)
    requires UnderWay(c, s, g, start, done) && Executable(c, s, xs) && SweepsFrom(xs, g.expire)
    requires xs != []
    ensures UnderWay(c, Act(c, s, xs[0]), g, start, done + if EndsSweep(c, s, xs[0]) then 1 else 0)
    ensures SweepsFrom(xs[1..], g.expire)
  {
    assert SoundRound(c, s, g, start, done);
    FirstStepKeepsRound(c, s, xs, g, start, done);
  }

  lemma {:induction false} RunKeepsRound(
    c: Config, s: State, xs: seq<Action>, g: Target, start: nat, done: nat, total: nat)
    requires UnderWay(c, s, g, start, done) && Executable(c, s, xs) && SweepsFrom(xs, g.expire)
    requires total == done + SweepsDone(c, s, xs)
    ensures UnderWay(c, After(c, s, xs), g, start, total)
    decreases |xs|
  {
    if xs != [] {
      StepStaysUnderWay(c, s, xs, g, start, done);
      RunKeepsRound(c, Act(c, s, xs[0]), xs[1..], g, start, done + if EndsSweep(c, s, xs[0]) then 1 else 0, total);
    }
  }

  /** A round of `size` consecutive buckets leaves none out. */
  lemma RoundVisitsAll(start: nat, i: nat, size: nat) returns (p: nat)
    requires i < size
    ensures p < size && Visited(start, p, size) == i
  {
    p := (i + size - start % size) % size;
    var d := start / size;
    assert start == size * d + start % size;
    if start % size <= i {
      DivModUnique(0, i - start % size, size);
      assert p == i - start % size by {
        assert i + size - start % size == size * 1 + (i - start % size);
        DivModUnique(1, i - start % size, size);
      }
      assert start + p == size * d + i;
      DivModUnique(d, i, size);
    } else {
      assert p == i + size - start % size by {
        DivModUnique(0, i + size - start % size, size);
      }
      assert start + p == size * (d + 1) + i;
      DivModUnique(d + 1, i, size);
    }
  }

  lemma EnoughCalls(size: nat, budget: nat, calls: nat)
    requires budget > 0 && calls >= (size + budget - 1) / budget
    ensures calls * budget >= size
  {
    var m := (size + budget - 1) / budget;
    assert size + budget - 1 == budget * m + (size + budget - 1) % budget;
    assert calls * budget >= m * budget;
  }

  /** The sweeper is the only thread that ever sweeps, and the stored cursor is a bucket. */
  ghost predicate OneSweeper(c: Config, s: State) {
    && c.Valid() && s.cursor < c.size
    && (forall t :: 0 <= t < |s.threads| && Sweeping(s.threads[t].pc) ==> t == c.sweeper)
  }

  lemma StepKeepsOneSweeper(c: Config, s: State, x: Action)
    requires Enabled(c, s, x) && OneSweeper(c, s)
    ensures OneSweeper(c, Act(c, s, x))
  {
    if x.Continue? {
      RunKeepsOneSweeper(c, s, x.t);
    }
  }

  lemma RunKeepsOneSweeper(c: Config, s: State, t: nat)
    requires CanRun(c, s, t) && OneSweeper(c, s)
    ensures OneSweeper(c, Run(c, s, t))
  {
    RunMovesOne(c, s, t);
  }

  lemma {:induction false} RunsKeepOneSweeper(c: Config, s: State, xs: seq<Action>)
    requires Executable(c, s, xs) && OneSweeper(c, s)
    ensures OneSweeper(c, After(c, s, xs))
    decreases |xs|
  {
    if xs != [] {
      StepKeepsOneSweeper(c, s, xs[0]);
      RunsKeepOneSweeper(c, Act(c, s, xs[0]), xs[1..]);
    }
  }

  /**
   A payload linked and expired (at every later sweep's time) when ceil(size / budget)
   consecutive sweeper calls begin is no longer linked when they have ended. Other threads
   take any steps in between, and the block may have been handed out again by then.
   */
  lemma BoundedReclamation(c: Config, s0: State, xs: seq<Action>, s: State, ys: seq<Action>, q: nat, i: nat)
    requires Reached(c, s0, xs, s)
    requires c.sweeper < |s.threads| && !Sweeping(s.threads[c.sweeper].pc)
    requires i < |s.buckets| && s.buckets[i] == At(q) && q < |s.blocks|
    requires Executable(c, s, ys)
    requires SweepsFrom(ys, s.blocks[q].expire)
    requires SweepsDone(c, s, ys) >= (c.size + c.budget - 1) / c.budget
    ensures var s' := After(c, s, ys);
      q < |s'.blocks| && s'.blocks[q].serial == s.blocks[q].serial ==> !IsLinked(s', q)
  {
    ReachedInv(c, s0, xs, s);
    RunsKeepOneSweeper(c, s0, xs);
    var g := Target(q, s.blocks[q].serial, i, s.blocks[q].expire);
    RoundBegins(c, s, g);
    RunKeepsRound(c, s, ys, g, s.cursor, 0, SweepsDone(c, s, ys));
    RoundEnds(c, After(c, s, ys), g, s.cursor, SweepsDone(c, s, ys));
  }

  /** A full round starts at the cursor, before any of the coming calls. */
  lemma RoundBegins(c: Config, s: State, g: Target)
    requires Inv(c, s) && OneSweeper(c, s)
    requires c.sweeper < |s.threads| && !Sweeping(s.threads[c.sweeper].pc)
    requires g.i < |s.buckets| && s.buckets[g.i] == At(g.q) && g.q < |s.blocks|
    requires g.serial == s.blocks[g.q].serial && g.expire == s.blocks[g.q].expire
    ensures UnderWay(c, s, g, s.cursor, 0)
  {
    DivModUnique(0, s.cursor, c.size);
    assert s.blocks[g.q].status == Linked(g.i);
  }

  /** After enough calls no bucket is ahead of the sweeper, so the target is not linked. */
  lemma RoundEnds(c: Config, s: State, g: Target, start: nat, calls: nat)
    requires c.Valid() && UnderWay(c, s, g, start, calls) && calls >= (c.size + c.budget - 1) / c.budget
    ensures g.q < |s.blocks| && s.blocks[g.q].serial == g.serial ==> !IsLinked(s, g.q)
  {
    assert SoundRound(c, s, g, start, calls);
    EnoughCalls(c.size, c.budget, calls);
    if s.blocks[g.q].serial == g.serial && IsLinked(s, g.q) {
      var j :| 0 <= j < |s.buckets| && s.buckets[j] == At(g.q);
      assert Remains(s, g);
      var p := RoundVisitsAll(start, g.i, c.size);
      assert false;
    }
  }
}
