/**
 How far the grace period reaches. The scan compares 32-bit epoch words with `<`, so it may pass
 over a reader whose epoch lies behind a wrap of the counter, and expose it. Each pair of epochs
 that the comparison gets wrong is the one wrong comparison of a run that frees a payload under
 its reader. So the sets of comparisons that are always safe are known exactly, and with
 them the number of advances that is always safe.
 */
module CacheWrap {
  import opened CacheMachine
  import opened CacheInvariant
  import opened CacheSafety

  /** In `s` no thread has a pointer from its section that has been freed or reused. */
  ghost predicate AllIntact(s: State) {
    forall t, r :: 0 <= t < |s.threads| && r in s.threads[t].seen ==> Intact(s, r)
  }

  /** If step `x` compares an active thread's epoch and lets the scan go on, the two epochs are among `allowed`. */
  predicate PassesOnly(s: State, x: Action, allowed: (nat, nat) -> bool) {
    x.ReclaimCompare? && s.reclaimer.SawActive? && s.reclaimer.t < |s.threads| ==>
      var local, current := s.threads[s.reclaimer.t].local, s.reclaimer.current;
      Word(local) < Word(current) || allowed(local, current)
  }

  /** Every scan of the run passes over active threads only with epochs among `allowed`. */
  ghost predicate Within(c: Config, s: State, xs: seq<Action>, allowed: (nat, nat) -> bool)
    requires Executable(c, s, xs)
    decreases |xs|
  {
    xs == [] || (PassesOnly(s, xs[0], allowed) && Within(c, Act(c, s, xs[0]), xs[1..], allowed))
  }

  /** Every run of every configuration whose scans keep to `allowed` is safe. */
  ghost predicate SafeUnder(allowed: (nat, nat) -> bool) {
    forall c: Config, s0: State, xs: seq<Action> ::
      Init(c, s0) && Executable(c, s0, xs) && Within(c, s0, xs, allowed) ==> AllIntact(After(c, s0, xs))
  }

  /** The comparison of the two epoch words lets no lagging thread pass. */
  ghost predicate NoMistake(allowed: (nat, nat) -> bool) {
    forall local: nat, current: nat :: local < current && allowed(local, current) ==> Word(local) < Word(current)
  }

  // ----- right comparisons are enough

  /** No scan has missed anybody, and nobody is exposed. */
  predicate Unmissed(s: State) {
    s.watch == Watch({}, {})
  }

  lemma {:induction false} RightScansExposeNobody(c: Config, s: State, xs: seq<Action>, allowed: (nat, nat) -> bool)
    requires Executable(c, s, xs) && Within(c, s, xs, allowed) && NoMistake(allowed) && Unmissed(s)
    ensures Unmissed(After(c, s, xs))
    decreases |xs|
  {
    if xs != [] {
      RightStepExposesNobody(c, s, xs[0], allowed);
      RightScansExposeNobody(c, Act(c, s, xs[0]), xs[1..], allowed);
    }
  }

  lemma RightStepExposesNobody(c: Config, s: State, x: Action, allowed: (nat, nat) -> bool)
    requires Enabled(c, s, x) && PassesOnly(s, x, allowed) && NoMistake(allowed) && Unmissed(s)
    ensures Unmissed(Act(c, s, x))
  {
    if x.ReclaimCompare? {
      var local, current := s.threads[s.reclaimer.t].local, s.reclaimer.current;
      assert allowed(local, current) ==> !(local < current && Word(local) >= Word(current));
    } else {
      OthersMissNobody(c, s, x);
    }
  }

  lemma OthersMissNobody(c: Config, s: State, x: Action)
    requires Enabled(c, s, x) && !x.ReclaimCompare? && Unmissed(s)
    ensures Unmissed(Act(c, s, x))
  {
    if x.Continue? {
      RunKeepsWatch(c, s, x.t);
    }
  }

  lemma UnexposedIsSafe(c: Config, s0: State, xs: seq<Action>)
    requires Init(c, s0) && Executable(c, s0, xs) && After(c, s0, xs).watch.exposed == {}
    ensures AllIntact(After(c, s0, xs))
  {
    var s := After(c, s0, xs);
    forall t, r | 0 <= t < |s.threads| && r in s.threads[t].seen ensures Intact(s, r) {
      GraceSafety(c, s0, xs, s, t, r);
    }
  }

  // ----- building runs

  /** The tiny cache gets from its start to `s` with scans that keep to `allowed`. */
  ghost predicate Leads(allowed: (nat, nat) -> bool, s: State) {
    exists xs: seq<Action> ::
      Executable(Tiny(), Start(), xs) && Within(Tiny(), Start(), xs, allowed) && After(Tiny(), Start(), xs) == s
  }

  lemma {:induction false} AppendStep(c: Config, s: State, xs: seq<Action>, x: Action, allowed: (nat, nat) -> bool)
    requires Executable(c, s, xs) && Within(c, s, xs, allowed)
    requires Enabled(c, After(c, s, xs), x) && PassesOnly(After(c, s, xs), x, allowed)
    ensures Executable(c, s, xs + [x]) && Within(c, s, xs + [x], allowed)
    ensures After(c, s, xs + [x]) == Act(c, After(c, s, xs), x)
    decreases |xs|
  {
    if xs == [] {
      assert xs + [x] == [x];
      assert [x][1..] == [];
    } else {
      AppendStep(c, Act(c, s, xs[0]), xs[1..], x, allowed);
      assert (xs + [x])[1..] == xs[1..] + [x];
    }
  }

  lemma NobodyIsAdded()
    ensures Watch({}, Watch({}, {}).exposed + Watch({}, {}).missed) == Watch({}, {})
  {
  }

  lemma NobodyIsForgotten(t: nat)
    ensures Watch({}, {}).missed - {t} == {} && Watch({}, {}).exposed - {t} == {}
  {
  }

  /** One more step, to a state given outright. */
  lemma Hop(ok: (nat, nat) -> bool, s: State, x: Action, s': State)
    requires Leads(ok, s) && Enabled(Tiny(), s, x) && PassesOnly(s, x, ok) && Act(Tiny(), s, x) == s'
    ensures Leads(ok, s')
  {
    var xs: seq<Action> :|
      Executable(Tiny(), Start(), xs) && Within(Tiny(), Start(), xs, ok) && After(Tiny(), Start(), xs) == s;
    AppendStep(Tiny(), Start(), xs, x, ok);
  }

  // ----- one bucket, one block, a worker (thread 0) and the sweeper (thread 1)

  ghost function Tiny(): Config {
    Config(1, 1, 1, 1, 0, (k: nat) => 0 as nat)
  }

  function World(bucket: Ptr, b: Block, w: Thread, v: Thread, global: nat, retired: multiset<Node>,
                 r: Reclaimer, shared: Stats): State {
    State([bucket], [b], [w, v], global, retired, r, 0, shared, ZERO, Watch({}, {}))
  }

  function Resident(stats: Stats): Thread {
    Thread(Outside, false, 0, stats, {})
  }

  const WROTE: Stats := ZERO.(writeOps := 1)
  const SWEPT: Stats := ZERO.(cleanups := 1, retirements := 1)
  const STORED: Block := Block(0, false, 0, 0, 0, 1, Linked(0))

  function Start(): State {
    World(Null, Block(0, true, 0, 0, 0, 0, Free), Resident(ZERO), Resident(ZERO), 0, multiset{}, Resting, ZERO)
  }

  function InSectionAt(th: Thread, local: nat): Thread {
    th.(pc := Idle, local := local, active := true)
  }

  lemma Enters(ok: (nat, nat) -> bool, s: State, t: nat)
    requires Leads(ok, s) && t < |s.threads| && s.threads[t].pc == Outside && |s.buckets| == 1
    ensures Leads(ok, s.(threads := s.threads[t := InSectionAt(s.threads[t], s.global)]))
  {
    var th := s.threads[t];
    var s1 := s.(threads := s.threads[t := th.(pc := Entering(s.global))]);
    Hop(ok, s, EnterSection(t), s1);
    Activates(ok, s1, t);
    assert s1.threads[t := InSectionAt(s1.threads[t], s.global)] == s.threads[t := InSectionAt(th, s.global)];
  }

  /** The epoch a thread read is stored and takes effect, however old it is by then. */
  lemma Activates(ok: (nat, nat) -> bool, s: State, t: nat)
    requires Leads(ok, s) && t < |s.threads| && s.threads[t].pc.Entering? && |s.buckets| == 1
    ensures Leads(ok, s.(threads := s.threads[t := InSectionAt(s.threads[t], s.threads[t].pc.e)]))
  {
    var th := s.threads[t];
    var s1 := s.(threads := s.threads[t := th.(pc := Entered, local := th.pc.e)]);
    Hop(ok, s, Continue(t), s1);
    Hop(ok, s1, Continue(t), s.(threads := s.threads[t := InSectionAt(th, th.pc.e)]));
  }

  /** A thread in its section at `pc`. */
  function Inside(pc: Pc, local: nat, stats: Stats, seen: set<Ref>): Thread {
    Thread(pc, true, local, stats, seen)
  }

  function Writing(bucket: Ptr, b: Block, pc: Pc, stats: Stats): State {
    World(bucket, b, Inside(pc, 0, stats, {}), Resident(ZERO), 0, multiset{}, Resting, ZERO)
  }

  lemma Allocated(ok: (nat, nat) -> bool)
    ensures Leads(ok, Writing(Null, Block(0, false, 0, 0, 0, 1, Private(0)), Load(Store(0, 0, 0), 0), ZERO))
  {
    var none: seq<Action> := [];
    assert Executable(Tiny(), Start(), none) && Within(Tiny(), Start(), none, ok);
    assert Leads(ok, Start());
    Enters(ok, Start(), 0);
    var s1 := Writing(Null, Block(0, true, 0, 0, 0, 0, Free), Idle, ZERO);
    var b := Block(0, false, 0, 0, 0, 1, Private(0));
    var s2 := Writing(Null, b, Fresh(0, 0, 0), ZERO);
    Hop(ok, s1, BeginWrite(0, 0, 0, 0), s2);
    Hop(ok, s2, Continue(0), Writing(Null, b, Load(Store(0, 0, 0), 0), ZERO));
  }

  lemma WriteOne(ok: (nat, nat) -> bool)
    ensures Leads(ok, AtRest(Resident(WROTE), 0))
  {
    Allocated(ok);
    var b := Block(0, false, 0, 0, 0, 1, Private(0));
    var op := Store(0, 0, 0);
    var s1 := Writing(Null, b, Insert(op, 0), ZERO);
    Hop(ok, Writing(Null, b, Load(op, 0), ZERO), Continue(0), s1);
    Publishes(ok);
    NobodyIsForgotten(0);
    Hop(ok, Writing(At(0), STORED, Idle, WROTE), ExitSection(0), AtRest(Resident(WROTE), 0));
  }

  lemma Publishes(ok: (nat, nat) -> bool)
    requires Leads(ok, Writing(Null, Block(0, false, 0, 0, 0, 1, Private(0)), Insert(Store(0, 0, 0), 0), ZERO))
    ensures Leads(ok, Writing(At(0), STORED, Idle, WROTE))
  {
    Hop(ok, Writing(Null, Block(0, false, 0, 0, 0, 1, Private(0)), Insert(Store(0, 0, 0), 0), ZERO), Continue(0),
        Writing(At(0), STORED, Idle, WROTE));
  }

  // ----- the counter runs on while nobody is active

  /** One payload is stored, already expired, and the epoch is `g`; thread 0 is at `w`. */
  function AtRest(w: Thread, g: nat): State {
    World(At(0), STORED, w, Resident(ZERO), g, multiset{}, Resting, ZERO)
  }

  function Scan(s: State, todo: set<nat>): State {
    s.(reclaimer := Scanning(s.global, todo))
  }

  /** A scan that finds nobody active is done. */
  lemma ScansIdle(ok: (nat, nat) -> bool, w: Thread, g: nat)
    requires Leads(ok, AtRest(w, g)) && !w.active
    ensures Leads(ok, Scan(AtRest(w, g), {}))
  {
    var s := AtRest(w, g);
    assert Everyone(2) == {0, 1};
    Hop(ok, s, ReclaimBegin, Scan(s, {0, 1}));
    assert {0 as nat, 1 as nat} - {0 as nat} == {1 as nat};
    Hop(ok, Scan(s, {0, 1}), ReclaimLook(0), Scan(s, {1}));
    assert {1 as nat} - {1 as nat} == {};
    Hop(ok, Scan(s, {1}), ReclaimLook(1), Scan(s, {}));
  }

  lemma AdvanceIdle(ok: (nat, nat) -> bool, w: Thread, g: nat)
    requires Leads(ok, AtRest(w, g)) && !w.active
    ensures Leads(ok, AtRest(w, g + 1))
  {
    ScansIdle(ok, w, g);
    var none: multiset<Node> := multiset{};
    assert OfAge(none, g + 1) == {};
    NobodyIsAdded();
    var s1 := AtRest(w, g).(global := g + 1, reclaimer := Draining(g + 1, {}));
    Hop(ok, Scan(AtRest(w, g), {}), ReclaimAdvance, s1);
    Hop(ok, s1, ReclaimEnd, AtRest(w, g + 1));
  }

  lemma {:induction false} AdvancesIdle(ok: (nat, nat) -> bool, w: Thread, from: nat, g: nat)
    requires Leads(ok, AtRest(w, from)) && !w.active && from <= g
    ensures Leads(ok, AtRest(w, g))
    decreases g
  {
    if from < g {
      AdvancesIdle(ok, w, from, g - 1);
      AdvanceIdle(ok, w, g - 1);
    }
  }

  // ----- a reader that is slow to enter picks the payload up

  /** The reader has read the bucket with epoch `local` and is about to look at the payload. */
  function Reader(local: nat): Thread {
    Inside(Inspect(Lookup(0, 0), 0, 0, 1), local, WROTE, {Ref(0, 1)})
  }

  /** A scan of epoch `e` has found nobody active, and the reader, with epoch `local`, came after it. */
  function Read(local: nat, e: nat, bucket: Ptr, status: Status, v: Thread, shared: Stats): State {
    World(bucket, STORED.(status := status), Reader(local), v, e,
          if status.Retired? then multiset{Node(0, status.epoch)} else multiset{}, Scanning(e, {}), shared)
  }

  /** Thread 0 has read epoch `local` and not stored it yet. */
  function Late(local: nat): Thread {
    Thread(Entering(local), false, 0, WROTE, {})
  }

  lemma ReaderIsLate(ok: (nat, nat) -> bool, local: nat, e: nat)
    requires local <= e
    ensures Leads(ok, Scan(AtRest(Late(local), e), {}))
  {
    WriteOne(ok);
    AdvancesIdle(ok, Resident(WROTE), 0, local);
    Hop(ok, AtRest(Resident(WROTE), local), EnterSection(0), AtRest(Late(local), local));
    AdvancesIdle(ok, Late(local), local, e);
    ScansIdle(ok, Late(local), e);
  }

  lemma ReaderArrives(ok: (nat, nat) -> bool, local: nat, e: nat)
    requires local <= e
    ensures Leads(ok, Read(local, e, At(0), Linked(0), Resident(ZERO), ZERO))
  {
    ReaderIsLate(ok, local, e);
    Activates(ok, Scan(AtRest(Late(local), e), {}), 0);
    var op := Lookup(0, 0);
    var s1 := Scan(AtRest(Inside(Idle, local, WROTE, {}), e), {});
    var s2 := Scan(AtRest(Inside(Load(op, 0), local, WROTE, {}), e), {});
    Hop(ok, s1, BeginLookup(0, 0, 0), s2);
    var none: set<Ref> := {};
    assert none + {Ref(0, 1)} == {Ref(0, 1)};
    Hop(ok, s2, Continue(0), Read(local, e, At(0), Linked(0), Resident(ZERO), ZERO));
  }

  // ----- the sweeper takes it out

  function Sweeping(e: nat, pc: Pc, seen: set<Ref>): Thread {
    Inside(pc, e, ZERO, seen)
  }

  lemma SweeperLooks(ok: (nat, nat) -> bool, l: nat, e: nat)
    requires l <= e
    ensures Leads(ok, Read(l, e, At(0), Linked(0), Sweeping(e, Inspect(Sweep(0, 0), 0, 0, 1), {Ref(0, 1)}), ZERO))
  {
    ReaderArrives(ok, l, e);
    Enters(ok, Read(l, e, At(0), Linked(0), Resident(ZERO), ZERO), 1);
    var op := Sweep(0, 0);
    var s1 := Read(l, e, At(0), Linked(0), Sweeping(e, Load(op, 0), {}), ZERO);
    Hop(ok, Read(l, e, At(0), Linked(0), Sweeping(e, Idle, {}), ZERO), BeginSweep(1, 0), s1);
    var none: set<Ref> := {};
    assert none + {Ref(0, 1)} == {Ref(0, 1)};
    Hop(ok, s1, Continue(1), Read(l, e, At(0), Linked(0), Sweeping(e, Inspect(op, 0, 0, 1), {Ref(0, 1)}), ZERO));
  }

  lemma SweeperTakesOut(ok: (nat, nat) -> bool, l: nat, e: nat)
    requires l <= e
    ensures Leads(ok, Read(l, e, Null, Unlinked(1), Sweeping(e, RetireLoad(Sweep(0, 0), 0, 0), {Ref(0, 1)}), ZERO))
  {
    SweeperLooks(ok, l, e);
    var op, seen := Sweep(0, 0), {Ref(0, 1)};
    var s1 := Read(l, e, At(0), Linked(0), Sweeping(e, Remove(op, 0, 0, 1), seen), ZERO);
    Hop(ok, Read(l, e, At(0), Linked(0), Sweeping(e, Inspect(op, 0, 0, 1), seen), ZERO), Continue(1), s1);
    Hop(ok, s1, Continue(1), Read(l, e, Null, Unlinked(1), Sweeping(e, RetireLoad(op, 0, 0), seen), ZERO));
  }

  lemma SweeperRetires(ok: (nat, nat) -> bool, l: nat, e: nat)
    requires l <= e
    ensures Leads(ok, Read(l, e, Null, Retired(e), Sweeping(e, Account(Sweep(0, 0), 0), {Ref(0, 1)}), ZERO))
  {
    SweeperTakesOut(ok, l, e);
    var op, seen := Sweep(0, 0), {Ref(0, 1)};
    var s1 := Read(l, e, Null, Unlinked(1), Sweeping(e, RetirePush(op, 0, 0, e), seen), ZERO);
    Hop(ok, Read(l, e, Null, Unlinked(1), Sweeping(e, RetireLoad(op, 0, 0), seen), ZERO), Continue(1), s1);
    Hop(ok, s1, Continue(1), Read(l, e, Null, Retired(e), Sweeping(e, Account(op, 0), seen), ZERO));
  }

  /** The payload is retired in epoch `e`, the reader still has it, and the sweeper has left. */
  function Swept(local: nat, e: nat, global: nat, r: Reclaimer): State {
    World(Null, STORED.(status := Retired(e)), Reader(local), Thread(Outside, false, e, ZERO, {}), global,
          multiset{Node(0, e)}, r, SWEPT)
  }

  lemma YoungNode(e: nat)
    ensures OfAge(multiset{Node(0, e)}, e + 1) == {}
  {
    AgeIsExact(e + 1, e);
  }

  lemma AgedNode(e: nat)
    ensures OfAge(multiset{Node(0, e)}, e + 2) == {Node(0, e)}
    ensures Age(e + 2, e) >= GRACE
    ensures multiset{Node(0, e)} - multiset{Node(0, e)} == multiset{}
  {
    AgeIsExact(e + 2, e);
  }

  lemma SweeperLeaves(ok: (nat, nat) -> bool, l: nat, e: nat)
    requires l <= e
    ensures Leads(ok, Swept(l, e, e, Scanning(e, {})))
  {
    SweeperRetires(ok, l, e);
    var op, seen := Sweep(0, 0), {Ref(0, 1)};
    var s1 := Read(l, e, Null, Retired(e), Sweeping(e, AccountRetired(op, 0), seen), ZERO.(cleanups := 1));
    Hop(ok, Read(l, e, Null, Retired(e), Sweeping(e, Account(op, 0), seen), ZERO), Continue(1), s1);
    var s2 := Read(l, e, Null, Retired(e), Sweeping(e, Load(op, 1), seen), SWEPT);
    Hop(ok, s1, Continue(1), s2);
    var s3 := Read(l, e, Null, Retired(e), Sweeping(e, Idle, seen), SWEPT);
    Hop(ok, s2, Continue(1), s3);
    NobodyIsForgotten(1);
    Hop(ok, s3, ExitSection(1), Swept(l, e, e, Scanning(e, {})));
  }

  // ----- two advances later the node is of age

  /** The scan that came before the reader advances the epoch. */
  lemma FirstAdvance(ok: (nat, nat) -> bool, local: nat, e: nat)
    requires local <= e
    ensures Leads(ok, Swept(local, e, e + 1, Resting))
  {
    SweeperLeaves(ok, local, e);
    YoungNode(e);
    NobodyIsAdded();
    Hop(ok, Swept(local, e, e, Scanning(e, {})), ReclaimAdvance, Swept(local, e, e + 1, Draining(e + 1, {})));
    Hop(ok, Swept(local, e, e + 1, Draining(e + 1, {})), ReclaimEnd, Swept(local, e, e + 1, Resting));
  }

  /** The next scan finds the reader active. */
  lemma ReaderSeen(ok: (nat, nat) -> bool, local: nat, e: nat)
    requires local <= e
    ensures Leads(ok, Swept(local, e, e + 1, SawActive(e + 1, {0, 1}, 0)))
  {
    FirstAdvance(ok, local, e);
    assert Everyone(2) == {0, 1};
    Hop(ok, Swept(local, e, e + 1, Resting), ReclaimBegin, Swept(local, e, e + 1, Scanning(e + 1, {0, 1})));
    Hop(ok, Swept(local, e, e + 1, Scanning(e + 1, {0, 1})), ReclaimLook(0),
        Swept(local, e, e + 1, SawActive(e + 1, {0, 1}, 0)));
  }

  /** It compares the reader's epoch with the current one, and passes over it. */
  lemma ReaderMissed(ok: (nat, nat) -> bool, local: nat, e: nat)
    requires local <= e && Word(local) >= Word(e + 1) && ok(local, e + 1)
    ensures Leads(ok, Swept(local, e, e + 1, Scanning(e + 1, {})).(watch := Watch({0}, {})))
  {
    ReaderSeen(ok, local, e);
    assert {0 as nat, 1 as nat} - {0 as nat} == {1 as nat};
    var none: set<nat> := {};
    assert none + {0} == {0};
    var s1 := Swept(local, e, e + 1, Scanning(e + 1, {1})).(watch := Watch({0}, {}));
    Hop(ok, Swept(local, e, e + 1, SawActive(e + 1, {0, 1}, 0)), ReclaimCompare, s1);
    assert {1 as nat} - {1 as nat} == {};
    Hop(ok, s1, ReclaimLook(1), Swept(local, e, e + 1, Scanning(e + 1, {})).(watch := Watch({0}, {})));
  }

  /** The second advance exposes the reader. */
  lemma SecondAdvance(ok: (nat, nat) -> bool, local: nat, e: nat)
    requires Leads(ok, Swept(local, e, e + 1, Scanning(e + 1, {})).(watch := Watch({0}, {})))
    ensures Leads(ok, Swept(local, e, e + 2, Draining(e + 2, {Node(0, e)})).(watch := Watch({}, {0})))
  {
    AgedNode(e);
    var none: set<nat> := {};
    assert none + {0} == {0};
    Hop(ok, Swept(local, e, e + 1, Scanning(e + 1, {})).(watch := Watch({0}, {})), ReclaimAdvance,
        Swept(local, e, e + 2, Draining(e + 2, {Node(0, e)})).(watch := Watch({}, {0})));
  }

  /** The reader still has the payload in hand, and it is back in the pool. */
  function Pulled(local: nat, e: nat): State {
    World(Null, STORED.(inPool := true, status := Free), Reader(local), Thread(Outside, false, e, ZERO, {}),
          e + 2, multiset{}, Draining(e + 2, {Node(0, e)}), SWEPT).(watch := Watch({}, {0}))
  }

  lemma ReaderIsRobbed(local: nat, e: nat)
    ensures !AllIntact(Pulled(local, e))
  {
    assert Ref(0, 1) in Pulled(local, e).threads[0].seen && !Intact(Pulled(local, e), Ref(0, 1));
  }

  /**
   Each wrong comparison frees a payload under its reader: for any two epochs of which the older
   does not compare below, some run makes this one comparison and ends with the payload that
   the reader is about to look at in the pool.
   */
  lemma FreedUnderReader(ok: (nat, nat) -> bool, local: nat, e: nat)
    requires local < e + 1 && Word(local) >= Word(e + 1) && ok(local, e + 1)
    ensures Leads(ok, Pulled(local, e)) && !AllIntact(Pulled(local, e))
  {
    ReaderMissed(ok, local, e);
    SecondAdvance(ok, local, e);
    FreesUnderReader(ok, local, e);
    ReaderIsRobbed(local, e);
  }

  lemma FreesUnderReader(ok: (nat, nat) -> bool, local: nat, e: nat)
    requires Leads(ok, Swept(local, e, e + 2, Draining(e + 2, {Node(0, e)})).(watch := Watch({}, {0})))
    ensures Leads(ok, Pulled(local, e))
  {
    AgedNode(e);
    Hop(ok, Swept(local, e, e + 2, Draining(e + 2, {Node(0, e)})).(watch := Watch({}, {0})),
        ReclaimFree(Node(0, e)), Pulled(local, e));
  }

  /**
   Which comparisons are safe, exactly: all runs, of any length, whose scans pass over active threads only
   with epochs in `allowed` are safe if and only if no two epochs in `allowed` are compared wrongly.
   */
  lemma SafeExactlyWithoutMistakes(allowed: (nat, nat) -> bool)
    ensures SafeUnder(allowed) <==> NoMistake(allowed)
  {
    if NoMistake(allowed) {
      forall c: Config, s0: State, xs: seq<Action> |
        Init(c, s0) && Executable(c, s0, xs) && Within(c, s0, xs, allowed)
        ensures AllIntact(After(c, s0, xs))
      {
        RightScansExposeNobody(c, s0, xs, allowed);
        UnexposedIsSafe(c, s0, xs);
      }
    } else {
      var local: nat, g: nat :| local < g && allowed(local, g) && Word(local) >= Word(g);
      FreedUnderReader(allowed, local, g - 1);
      StartIsInitial();
      var xs: seq<Action> :| Executable(Tiny(), Start(), xs) && Within(Tiny(), Start(), xs, allowed)
        && After(Tiny(), Start(), xs) == Pulled(local, g - 1);
      assert !AllIntact(After(Tiny(), Start(), xs));
    }
  }

  lemma StartIsInitial()
    ensures Init(Tiny(), Start())
  {
  }

  /** No wrap of the counter lies between the two epochs. */
  predicate NoStraddle(local: nat, current: nat) {
    local / WORD == current / WORD
  }

  /** In particular a run is safe if no section that a scan passes over straddles a wrap of the counter. */
  lemma SafeWithoutStraddling()
    ensures SafeUnder(NoStraddle)
  {
    forall local: nat, current: nat | local < current && NoStraddle(local, current)
      ensures Word(local) < Word(current)
    {
      ScanComparesEpochs(local, current);
    }
    SafeExactlyWithoutMistakes(NoStraddle);
  }

  /** The comparison itself: for epochs less than a whole turn apart it is right unless they straddle a wrap. */
  lemma ScanSeesLagUnlessWrapped(local: nat, current: nat)
    requires local <= current < local + WORD
    ensures (Word(local) < Word(current) <==> local < current) <==> local / WORD == current / WORD
  {
    assert local == WORD * (local / WORD) + Word(local);
    assert current == WORD * (current / WORD) + Word(current);
    if local / WORD != current / WORD {
      assert current / WORD == local / WORD + 1;
    }
  }

  // ----- how many advances are always safe

  /** Every state that any configuration can reach within `n` epoch advances is safe. */
  ghost predicate SafeWithin(n: nat) {
    forall c: Config, s0: State, xs: seq<Action> ::
      Init(c, s0) && Executable(c, s0, xs) && After(c, s0, xs).global <= n ==> AllIntact(After(c, s0, xs))
  }

  /** Nobody is exposed, and before epoch WORD no scan has missed anybody. */
  predicate EarlySight(s: State) {
    s.watch.exposed == {} && (s.global < WORD ==> s.watch.missed == {})
  }

  lemma EarlyStep(c: Config, s: State, x: Action)
    requires Inv(c, s) && Enabled(c, s, x) && EarlySight(s) && (x.ReclaimAdvance? ==> s.global < WORD)
    ensures EarlySight(Act(c, s, x))
  {
    if x.ReclaimCompare? {
      if s.threads[s.reclaimer.t].local < s.global < WORD {
        SmallWord(s.threads[s.reclaimer.t].local, s.global);
      }
    } else if x.Continue? {
      RunKeepsWatch(c, s, x.t);
      OthersKeepEpoch(c, s, x);
    } else {
      OthersKeepEpoch(c, s, x);
    }
  }

  lemma SmallWord(local: nat, current: nat)
    requires local < current < WORD
    ensures Word(local) < Word(current)
  {
  }

  lemma OthersKeepEpoch(c: Config, s: State, x: Action)
    requires Enabled(c, s, x)
    ensures Act(c, s, x).global == if x.ReclaimAdvance? then s.global + 1 else s.global
  {
  }

  lemma {:induction false} EpochOnlyGrows(c: Config, s: State, xs: seq<Action>)
    requires Executable(c, s, xs)
    ensures s.global <= After(c, s, xs).global
    decreases |xs|
  {
    if xs != [] {
      OthersKeepEpoch(c, s, xs[0]);
      EpochOnlyGrows(c, Act(c, s, xs[0]), xs[1..]);
    }
  }

  lemma {:induction false} EarlyRunsExposeNobody(c: Config, s: State, xs: seq<Action>)
    requires Inv(c, s) && EarlySight(s) && Executable(c, s, xs) && After(c, s, xs).global <= WORD
    ensures After(c, s, xs).watch.exposed == {}
    decreases |xs|
  {
    if xs != [] {
      OthersKeepEpoch(c, s, xs[0]);
      EpochOnlyGrows(c, Act(c, s, xs[0]), xs[1..]);
      EarlyStep(c, s, xs[0]);
      StepKeepsInv(c, s, xs[0]);
      EarlyRunsExposeNobody(c, Act(c, s, xs[0]), xs[1..]);
    }
  }

  /** Of the bounds on the number of advances, WORD is the largest that makes every run safe. */
  lemma GracePeriodIsExact(n: nat)
    ensures SafeWithin(n) <==> n <= WORD
  {
    if n <= WORD {
      forall c: Config, s0: State, xs: seq<Action> |
        Init(c, s0) && Executable(c, s0, xs) && After(c, s0, xs).global <= n
        ensures AllIntact(After(c, s0, xs))
      {
        InitInv(c, s0);
        EarlyRunsExposeNobody(c, s0, xs);
        UnexposedIsSafe(c, s0, xs);
      }
    } else {
      var ok := (local: nat, current: nat) => true;
      FreedUnderReader(ok, WORD - 1, WORD - 1);
      StartIsInitial();
      var xs: seq<Action> :| Executable(Tiny(), Start(), xs) && Within(Tiny(), Start(), xs, ok)
        && After(Tiny(), Start(), xs) == Pulled(WORD - 1, WORD - 1);
      assert !AllIntact(After(Tiny(), Start(), xs));
    }
  }
}
