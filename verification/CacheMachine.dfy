/**
 The lock-free TTL cache as a state machine over its shared-memory steps, together with the
 epoch-based reclamation it relies on. Any number of threads run; every atomic load, every
 compare-and-swap, every epoch store, every retire and every free is one step.

 Plain reads of a published payload (key, expiry, data) are one step as well, so that the
 machine says exactly when a thread dereferences a pointer.

 Fields marked "history" are written by the machine and read by no guard of it: they record
 which allocation a pointer was read from, so that the theorems can speak about reuse.
 */
module CacheMachine {

  // Width of `global_epoch` and `local_epoch` (unsigned int), and TTAK_EPOCH_GRACE.
  const WORD: nat := 0x1_0000_0000
  const GRACE: nat := 2

  datatype Ptr = Null | At(a: nat)

  /** Where a block is in its life (history). */
  datatype Status =
    | Free
    | Private(owner: nat)     // allocated by a worker and not yet visible to others
    | Linked(bucket: nat)
    | Unlinked(winner: nat)   // the removing compare-and-swap was won by this thread
    | Retired(epoch: nat)
    | Lost                    // the retire found no memory for its list node

  datatype Block = Block(
    arena: nat,               // the pool the block physically belongs to
    inPool: bool,
    homePool: nat,            // header field written by the allocating worker
    key: nat,
    expire: nat,
    serial: nat,              // history: number of times the block was handed out
    status: Status)           // history

  datatype Op =
    | Lookup(key: nat, now: nat)
    | Store(a: nat, key: nat, now: nat)
    | Sweep(now: nat, cursor: nat)

  /** Program counters. `k` counts the probes (or swept buckets) done so far. */
  datatype Pc =
    | Outside
    | Entering(e: nat)                                // global epoch read
    | Entered                                         // local epoch stored, not yet active
    | Idle                                            // inside the epoch section, between operations
    | Fresh(a: nat, key: nat, now: nat)               // block handed out, header not yet written
    | Load(op: Op, k: nat)                            // about to read the bucket
    | Inspect(op: Op, k: nat, q: nat, serial: nat)    // about to read the payload found there
    | Remove(op: Op, k: nat, q: nat, serial: nat)     // about to compare-and-swap the payload away
    | Insert(op: Op, k: nat)                          // about to compare-and-swap into an empty bucket
    | ReadHit(q: nat, serial: nat)                    // lookup returned HIT, about to read the value
    | RetireLoad(op: Op, k: nat, q: nat)              // about to read the epoch for the retired node
    | RetirePush(op: Op, k: nat, q: nat, e: nat)      // about to push the node
    | Account(op: Op, k: nat)                         // about to add to `stats.cleanups`
    | AccountRetired(op: Op, k: nat)                  // about to add to `stats.retirements`
    | GiveBack(a: nat)                                // store failed, about to free the block directly

  datatype Counter = Reads | Writes | Hits | Misses | Expired | Evictions | Cleanups | Retirements

  datatype Stats = Stats(readOps: nat, writeOps: nat, hits: nat, misses: nat,
                         expired: nat, evictions: nat, cleanups: nat, retirements: nat)
  {
    function Get(c: Counter): nat {
      match c
      case Reads => readOps
      case Writes => writeOps
      case Hits => hits
      case Misses => misses
      case Expired => expired
      case Evictions => evictions
      case Cleanups => cleanups
      case Retirements => retirements
    }

    function Put(c: Counter, v: nat): Stats {
      match c
      case Reads => this.(readOps := v)
      case Writes => this.(writeOps := v)
      case Hits => this.(hits := v)
      case Misses => this.(misses := v)
      case Expired => this.(expired := v)
      case Evictions => this.(evictions := v)
      case Cleanups => this.(cleanups := v)
      case Retirements => this.(retirements := v)
    }

    function Inc(c: Counter): Stats {
      Put(c, Get(c) + 1)
    }
  }

  const ZERO: Stats := Stats(0, 0, 0, 0, 0, 0, 0, 0)

  /** A pointer together with the allocation it pointed into when it was read. */
  datatype Ref = Ref(q: nat, serial: nat)

  /** `seen` (history): every pointer read from the table since the section was entered. */
  datatype Thread = Thread(pc: Pc, active: bool, local: nat, stats: Stats, seen: set<Ref>)

  datatype Node = Node(q: nat, epoch: nat)

  /** The holder of the reclaim lock. `due`: the nodes of age in the lists it has taken. */
  datatype Reclaimer =
    | Resting
    | Scanning(current: nat, todo: set<nat>)
    | SawActive(current: nat, todo: set<nat>, t: nat)   // `active` read as true, `local_epoch` next
    | Draining(now: nat, due: set<Node>)

  /**
   History of the scans. `missed`: the active threads that the present scan has passed over although
   their epoch is behind the current one. `exposed`: the threads in whose present section the
   epoch advanced after a scan that had missed them.
   */
  datatype Watch = Watch(missed: set<nat>, exposed: set<nat>)

  /**
   Epochs are kept as true counts; the program holds them modulo WORD, and every comparison
   the program makes is made on `Word` of them.
   */
  datatype State = State(
    buckets: seq<Ptr>,
    blocks: seq<Block>,
    threads: seq<Thread>,
    global: nat,
    retired: multiset<Node>,
    reclaimer: Reclaimer,
    cursor: nat,              // g_maintenance_cursor
    shared: Stats,
    drained: Stats,           // what the reporting loop has exchanged out so far
    watch: Watch)

  /** `probes` is max_probe with 0 read as 1; `hash` is the key mixer. */
  datatype Config = Config(size: nat, probes: nat, budget: nat, sweeper: nat, ttl: nat, hash: nat -> nat)
  {
    ghost predicate Valid() {
      size > 0 && probes > 0 && budget > 0
    }
  }

  /** The threads 0..n, as the registration list holds them. */
  function Everyone(n: nat): (r: set<nat>)
    ensures forall t: nat :: t in r <==> t < n
  {
    if n == 0 then {} else Everyone(n - 1) + {n - 1}
  }

  function Word(n: nat): nat {
    n % WORD
  }

  /** The unsigned difference of two epoch words. */
  function Age(now: nat, epoch: nat): nat {
    (Word(now) + WORD - Word(epoch)) % WORD
  }

  // ----- one thread's instructions

  ghost function Slot(c: Config, op: Op, k: nat): nat
    requires c.Valid()
  {
    match op
    case Lookup(key, _) => (c.hash(key) + k) % c.size
    case Store(_, key, _) => (c.hash(key) + k) % c.size
    case Sweep(_, cursor) => (cursor + k) % c.size
  }

  ghost function Limit(c: Config, op: Op): nat {
    if op.Sweep? then c.budget else c.probes
  }

  /** The test each operation makes on a payload before it tries to remove it. */
  predicate Removable(op: Op, key: nat, expire: nat) {
    match op
    case Lookup(k, now) => key == k && expire <= now
    case Store(_, k, now) => key == k || expire <= now
    case Sweep(now, _) => expire <= now
  }

  function SetPc(s: State, t: nat, pc: Pc): State
    requires t < |s.threads|
  {
    s.(threads := s.threads[t := s.threads[t].(pc := pc)])
  }

  /** Moves to `pc` and counts `c1` and `c2` in the worker's own statistics. */
  function Tally(s: State, t: nat, pc: Pc, c1: Counter, c2: Counter): State
    requires t < |s.threads|
  {
    s.(threads := s.threads[t := s.threads[t].(pc := pc, stats := s.threads[t].stats.Inc(c1).Inc(c2))])
  }

  function TallyOne(s: State, t: nat, pc: Pc, c1: Counter): State
    requires t < |s.threads|
  {
    s.(threads := s.threads[t := s.threads[t].(pc := pc, stats := s.threads[t].stats.Inc(c1))])
  }

  function SetBlock(s: State, q: nat, b: Block): State
    requires q < |s.blocks|
  {
    s.(blocks := s.blocks[q := b])
  }

  /** What happens when the probe loop, or the sweep loop, runs out. */
  ghost function DoExhausted(c: Config, s: State, t: nat, op: Op, k: nat): State
    requires c.Valid() && t < |s.threads|
  {
    match op
    case Lookup(_, _) => Tally(s, t, Idle, Misses, Reads)
    case Store(a, _, _) => SetPc(s, t, GiveBack(a))
    case Sweep(_, cursor) => SetPc(s, t, Idle).(cursor := (cursor + k) % c.size)
  }

  ghost function DoLoad(c: Config, s: State, t: nat, op: Op, k: nat): State
    requires c.Valid() && t < |s.threads| && |s.buckets| == c.size
  {
    if k >= Limit(c, op) then DoExhausted(c, s, t, op, k)
    else
      match s.buckets[Slot(c, op, k)]
      case Null =>
        (match op
         case Lookup(_, _) => Tally(s, t, Idle, Misses, Reads)
         case Store(_, _, _) => SetPc(s, t, Insert(op, k))
         case Sweep(_, _) => SetPc(s, t, Load(op, k + 1)))
      case At(q) =>
        var serial := if q < |s.blocks| then s.blocks[q].serial else 0;
        var th := s.threads[t];
        s.(threads := s.threads[t := th.(pc := Inspect(op, k, q, serial), seen := th.seen + {Ref(q, serial)})])
  }

  ghost function DoInspect(c: Config, s: State, t: nat, op: Op, k: nat, q: nat, serial: nat): State
    requires t < |s.threads| && q < |s.blocks|
  {
    var b := s.blocks[q];
    if Removable(op, b.key, b.expire) then SetPc(s, t, Remove(op, k, q, serial))
    else if op.Lookup? && b.key == op.key then SetPc(s, t, ReadHit(q, serial))
    else SetPc(s, t, Load(op, k + 1))
  }

  ghost function DoRemove(c: Config, s: State, t: nat, op: Op, k: nat, q: nat): State
    requires c.Valid() && t < |s.threads| && q < |s.blocks| && |s.buckets| == c.size
    requires op.Store? ==> op.a < |s.blocks|
  {
    var i := Slot(c, op, k);
    if s.buckets[i] == At(q) then
      var s1 := SetBlock(s, q, s.blocks[q].(status := Unlinked(t)));
      match op
      case Store(a, key, _) =>
        var s2 := SetBlock(s1, a, s1.blocks[a].(status := Linked(i))).(buckets := s.buckets[i := At(a)]);
        if s.blocks[q].key != key then Tally(s2, t, RetireLoad(op, k, q), Retirements, Evictions)
        else TallyOne(s2, t, RetireLoad(op, k, q), Retirements)
      case _ =>
        SetPc(s1.(buckets := s.buckets[i := Null]), t, RetireLoad(op, k, q))
    else if op.Lookup? then Tally(s, t, Idle, Misses, Reads)
    else SetPc(s, t, Load(op, k + 1))
  }

  ghost function DoInsert(c: Config, s: State, t: nat, op: Op, k: nat): State
    requires c.Valid() && t < |s.threads| && |s.buckets| == c.size
    requires op.Store? && op.a < |s.blocks|
  {
    var i := Slot(c, op, k);
    if s.buckets[i] == Null then
      TallyOne(SetBlock(s, op.a, s.blocks[op.a].(status := Linked(i))).(buckets := s.buckets[i := At(op.a)]),
               t, Idle, Writes)
    else SetPc(s, t, Load(op, k + 1))
  }

  ghost function DoRetirePush(s: State, t: nat, op: Op, k: nat, q: nat, e: nat): State
    requires t < |s.threads| && q < |s.blocks|
  {
    AfterRetire(SetBlock(s, q, s.blocks[q].(status := Retired(e))).(retired := s.retired + multiset{Node(q, e)}),
                t, op, k)
  }

  /** A store counts its write; lookup and sweep still have shared counters to add to. */
  function AfterRetire(s: State, t: nat, op: Op, k: nat): State
    requires t < |s.threads|
  {
    match op
    case Lookup(_, _) => SetPc(s, t, AccountRetired(op, k))
    case Store(_, _, _) => TallyOne(s, t, Idle, Writes)
    case Sweep(_, _) => SetPc(s, t, Account(op, k))
  }

  function DoAccountRetired(s: State, t: nat, op: Op, k: nat): State
    requires t < |s.threads|
  {
    var s1 := s.(shared := s.shared.Inc(Retirements));
    if op.Lookup? then Tally(s1, t, Idle, Expired, Reads) else SetPc(s1, t, Load(op, k + 1))
  }

  /** ttak_object_pool_free: a block of another arena is rejected by the bounds check. */
  function PoolFree(s: State, pool: nat, q: nat): State
    requires q < |s.blocks|
  {
    var b := s.blocks[q];
    SetBlock(s, q, if b.arena == pool then b.(inPool := true, status := Free) else b.(status := Lost))
  }

  /** Thread `t` has a next instruction that it can run without outside input. */
  ghost predicate CanRun(c: Config, s: State, t: nat) {
    && c.Valid() && |s.buckets| == c.size
    && t < |s.threads|
    && match s.threads[t].pc
       case Outside => false
       case Idle => false
       case Entering(_) => true
       case Entered => true
       case Fresh(a, _, _) => a < |s.blocks|
       case Load(_, _) => true
       case Inspect(_, _, q, _) => q < |s.blocks|
       case Remove(op, _, q, _) => q < |s.blocks| && (op.Store? ==> op.a < |s.blocks|)
       case Insert(op, _) => op.Store? && op.a < |s.blocks|
       case ReadHit(q, _) => q < |s.blocks|
       case RetireLoad(_, _, _) => true
       case RetirePush(_, _, q, _) => q < |s.blocks|
       case Account(_, _) => true
       case AccountRetired(_, _) => true
       case GiveBack(a) => a < |s.blocks|
  }

  ghost function Run(c: Config, s: State, t: nat): State
    requires CanRun(c, s, t)
  {
    var th := s.threads[t];
    match th.pc
    case Entering(e) => s.(threads := s.threads[t := th.(pc := Entered, local := e)])
    case Entered => s.(threads := s.threads[t := th.(pc := Idle, active := true)])
    case Fresh(a, key, now) =>
      SetPc(SetBlock(s, a, s.blocks[a].(key := key, expire := now + c.ttl, homePool := t)),
            t, Load(Store(a, key, now), 0))
    case Load(op, k) => DoLoad(c, s, t, op, k)
    case Inspect(op, k, q, serial) => DoInspect(c, s, t, op, k, q, serial)
    case Remove(op, k, q, _) => DoRemove(c, s, t, op, k, q)
    case Insert(op, k) => DoInsert(c, s, t, op, k)
    case ReadHit(_, _) => Tally(s, t, Idle, Hits, Reads)
    case RetireLoad(op, k, q) => SetPc(s, t, RetirePush(op, k, q, s.global))
    case RetirePush(op, k, q, e) => DoRetirePush(s, t, op, k, q, e)
    case Account(op, k) => SetPc(s.(shared := s.shared.Inc(Cleanups)), t, AccountRetired(op, k))
    case AccountRetired(op, k) => DoAccountRetired(s, t, op, k)
    case GiveBack(a) => SetPc(PoolFree(s, t, a), t, Idle)
  }

  // ----- the steps of the whole system

  datatype Action =
    | Continue(t: nat)                      // next instruction of thread t
    | EnterSection(t: nat)                  // ttak_epoch_enter: read the global epoch
    | ExitSection(t: nat)                   // ttak_epoch_exit
    | BeginLookup(t: nat, key: nat, now: nat)
    | BeginWrite(t: nat, key: nat, now: nat, a: nat)   // the pool hands out block a
    | BeginSweep(t: nat, now: nat)
    | DropNode(t: nat)                      // no memory for the retired-list node
    | Flush(t: nat, counter: Counter)       // a worker adds one local counter to the shared one
    | Drain(counter: Counter)               // the reporting loop exchanges one shared counter for 0
    | ReclaimBegin
    | ReclaimLook(t: nat)                   // read `active` of thread t
    | ReclaimCompare                        // read `local_epoch` of the active thread seen
    | ReclaimAdvance
    | ReclaimFree(node: Node)
    | ReclaimEnd

  ghost predicate Enabled(c: Config, s: State, x: Action) {
    match x
    case Continue(t) => CanRun(c, s, t)
    case EnterSection(t) => t < |s.threads| && s.threads[t].pc == Outside
    case ExitSection(t) => t < |s.threads| && s.threads[t].pc == Idle
    case BeginLookup(t, _, _) => t < |s.threads| && s.threads[t].pc == Idle && t != c.sweeper
    case BeginWrite(t, _, _, a) =>
      && t < |s.threads| && s.threads[t].pc == Idle && t != c.sweeper
      && a < |s.blocks| && s.blocks[a].arena == t && s.blocks[a].inPool
    case BeginSweep(t, _) => c.Valid() && t < |s.threads| && s.threads[t].pc == Idle && t == c.sweeper
    case DropNode(t) =>
      && t < |s.threads| && s.threads[t].pc.RetireLoad? && s.threads[t].pc.q < |s.blocks|
    case Flush(t, _) => t < |s.threads| && s.threads[t].pc == Outside
    case Drain(_) => true
    case ReclaimBegin => s.reclaimer == Resting
    case ReclaimLook(t) => s.reclaimer.Scanning? && t in s.reclaimer.todo && t < |s.threads|
    case ReclaimCompare => s.reclaimer.SawActive? && s.reclaimer.t < |s.threads|
    case ReclaimAdvance => s.reclaimer.Scanning? && s.reclaimer.todo == {}
    case ReclaimFree(node) =>
      && s.reclaimer.Draining? && node in s.retired && node.q < |s.blocks|
      && Age(s.reclaimer.now, node.epoch) >= GRACE
    case ReclaimEnd => s.reclaimer.Draining? && forall n :: n in s.reclaimer.due ==> n !in s.retired
  }

  /** A scan that is comparing thread `t` has a laggard before it. */
  predicate Lags(s: State, t: nat)
    requires s.reclaimer.SawActive? && t < |s.threads|
  {
    s.threads[t].active && s.threads[t].local < s.reclaimer.current
  }

  function OfAge(retired: multiset<Node>, now: nat): set<Node> {
    set n | n in retired && Age(now, n.epoch) >= GRACE
  }

  ghost function Act(c: Config, s: State, x: Action): State
    requires Enabled(c, s, x)
  {
    match x
    case Continue(t) => Run(c, s, t)
    case EnterSection(t) => SetPc(s, t, Entering(s.global))
    case ExitSection(t) =>
      s.(threads := s.threads[t := s.threads[t].(pc := Outside, active := false, seen := {})],
         watch := Watch(s.watch.missed - {t}, s.watch.exposed - {t}))
    case BeginLookup(t, key, now) => SetPc(s, t, Load(Lookup(key, now), 0))
    case BeginWrite(t, key, now, a) =>
      SetPc(SetBlock(s, a, s.blocks[a].(inPool := false, serial := s.blocks[a].serial + 1, status := Private(t))),
            t, Fresh(a, key, now))
    case BeginSweep(t, now) => SetPc(s, t, Load(Sweep(now, s.cursor % c.size), 0))
    case DropNode(t) =>
      var pc := s.threads[t].pc;
      AfterRetire(SetBlock(s, pc.q, s.blocks[pc.q].(status := Lost)), t, pc.op, pc.k)
    case Flush(t, counter) =>
      var th := s.threads[t];
      s.(threads := s.threads[t := th.(stats := th.stats.Put(counter, 0))],
         shared := s.shared.Put(counter, s.shared.Get(counter) + th.stats.Get(counter)))
    case Drain(counter) =>
      s.(shared := s.shared.Put(counter, 0),
         drained := s.drained.Put(counter, s.drained.Get(counter) + s.shared.Get(counter)))
    case ReclaimBegin =>
      s.(reclaimer := Scanning(s.global, Everyone(|s.threads|)), watch := s.watch.(missed := {}))
    case ReclaimLook(t) =>
      var r := s.reclaimer;
      if s.threads[t].active then s.(reclaimer := SawActive(r.current, r.todo, t))
      else s.(reclaimer := Scanning(r.current, r.todo - {t}))
    case ReclaimCompare =>
      var r := s.reclaimer;
      if Word(s.threads[r.t].local) < Word(r.current) then s.(reclaimer := Resting)
      else
        s.(reclaimer := Scanning(r.current, r.todo - {r.t}),
           watch := if Lags(s, r.t) then s.watch.(missed := s.watch.missed + {r.t}) else s.watch)
    case ReclaimAdvance =>
      s.(global := s.global + 1, reclaimer := Draining(s.global + 1, OfAge(s.retired, s.global + 1)),
         watch := Watch({}, s.watch.exposed + s.watch.missed))
    case ReclaimFree(node) =>
      PoolFree(s.(retired := s.retired - multiset{node}), s.blocks[node.q].homePool, node.q)
    case ReclaimEnd => s.(reclaimer := Resting)
  }

  ghost predicate Init(c: Config, s: State) {
    && c.Valid()
    && |s.buckets| == c.size
    && (forall i :: 0 <= i < c.size ==> s.buckets[i] == Null)
    && (forall a :: 0 <= a < |s.blocks| ==> s.blocks[a].inPool && s.blocks[a].status == Free)
    && (forall t :: 0 <= t < |s.threads| ==> s.threads[t] == Thread(Outside, false, 0, ZERO, {}))
    && s.global == 0 && s.retired == multiset{} && s.reclaimer == Resting
    && s.cursor == 0 && s.shared == ZERO && s.drained == ZERO && s.watch == Watch({}, {})
  }

  /** `xs` can be executed one after the other from `s`. */
  ghost predicate Executable(c: Config, s: State, xs: seq<Action>)
    decreases |xs|
  {
    xs == [] || (Enabled(c, s, xs[0]) && Executable(c, Act(c, s, xs[0]), xs[1..]))
  }

  ghost function After(c: Config, s: State, xs: seq<Action>): State
    requires Executable(c, s, xs)
    decreases |xs|
  {
    if xs == [] then s else After(c, Act(c, s, xs[0]), xs[1..])
  }
}
