/**
 What reclaim calls promise while no thread is inside a section: GRACE consecutive calls free
 everything that was retired before them; and the one case, again behind a wrap of the
 counter, in which they do not.
 */
module CacheGrace {
  import opened Words
  import opened CacheMachine
  import opened CacheInvariant
  import opened CacheSafety
  import opened CacheWrap

  /** No thread is active; by the invariant that is to say that none has entered its section. */
  predicate NobodyInside(s: State) {
    forall t :: 0 <= t < |s.threads| ==> !s.threads[t].active && !InSection(s.threads[t].pc)
  }

  /** Nobody is inside a section at any point of the run. */
  ghost predicate NobodyEnters(c: Config, s: State, xs: seq<Action>)
    requires Executable(c, s, xs)
    decreases |xs|
  {
    NobodyInside(s) && (xs == [] || NobodyEnters(c, Act(c, s, xs[0]), xs[1..]))
  }

  /** How many reclaim calls end in the run. */
  function CallsDone(xs: seq<Action>): nat {
    if xs == [] then 0 else (if xs[0].ReclaimEnd? then 1 else 0) + CallsDone(xs[1..])
  }

  /** At one of the first `k` epochs after `global`, a node of epoch `e` shows itself to be of age. */
  predicate ComesOfAge(global: nat, k: nat, e: nat) {
    k > 0 && (ComesOfAge(global, k - 1, e) || Age(global + k, e) >= GRACE)
  }

  /** `k` calls after epoch `global` have ended; the node is still queued exactly if it has not shown itself of age. */
  ghost predicate InOrder(s: State, node: Node, global: nat, k: nat) {
    && !s.reclaimer.SawActive?
    && s.global == global + k + (if s.reclaimer.Draining? then 1 else 0)
    && (!s.reclaimer.Draining? ==> (node in s.retired <==> !ComesOfAge(global, k, node.epoch)))
    && (s.reclaimer.Draining? ==>
          && s.reclaimer.now == s.global
          && (node in s.retired ==> !ComesOfAge(global, k, node.epoch))
          && (node !in s.retired ==> ComesOfAge(global, k + 1, node.epoch))
          && (node in s.retired && Age(s.global, node.epoch) >= GRACE ==> node in s.reclaimer.due))
  }

  /** While nobody is inside, only the reclaimer touches what is retired. */
  lemma OnlyReclaimerActs(c: Config, s: State, x: Action)
    requires Enabled(c, s, x) && NobodyInside(s)
    ensures x.ReclaimBegin? || x.ReclaimLook? || x.ReclaimCompare? || x.ReclaimAdvance? || x.ReclaimFree?
         || x.ReclaimEnd?
         || (Act(c, s, x).retired == s.retired && Act(c, s, x).global == s.global
             && Act(c, s, x).reclaimer == s.reclaimer)
  {
  }

  lemma ReclaimerKeepsOrder(c: Config, s: State, x: Action, node: Node, global: nat, k: nat)
    requires Enabled(c, s, x) && NobodyInside(s) && InOrder(s, node, global, k)
    requires x.ReclaimBegin? || x.ReclaimLook? || x.ReclaimAdvance? || x.ReclaimFree? || x.ReclaimEnd?
    ensures InOrder(Act(c, s, x), node, global, k + if x.ReclaimEnd? then 1 else 0)
  {
    if x.ReclaimFree? {
      FreesOne(s, x.node);
    }
  }

  lemma FreesOne(s: State, node: Node)
    requires node.q < |s.blocks|
    ensures PoolFree(s.(retired := s.retired - multiset{node}), s.blocks[node.q].homePool, node.q).retired
         == s.retired - multiset{node}
  {
  }

  lemma StepKeepsOrder(c: Config, s: State, x: Action, node: Node, global: nat, k: nat)
    requires Enabled(c, s, x) && NobodyInside(s) && InOrder(s, node, global, k)
    ensures InOrder(Act(c, s, x), node, global, k + if x.ReclaimEnd? then 1 else 0)
  {
    OnlyReclaimerActs(c, s, x);
    if x.ReclaimBegin? || x.ReclaimLook? || x.ReclaimAdvance? || x.ReclaimFree? || x.ReclaimEnd? {
      ReclaimerKeepsOrder(c, s, x, node, global, k);
    }
  }

  lemma {:induction false} RunKeepsOrder(
    c: Config, s: State, xs: seq<Action>, node: Node, global: nat, k: nat, total: nat)
    requires Executable(c, s, xs) && NobodyEnters(c, s, xs) && InOrder(s, node, global, k)
    requires total == k + CallsDone(xs)
    ensures InOrder(After(c, s, xs), node, global, total)
    decreases |xs|
  {
    if xs != [] {
      StepKeepsOrder(c, s, xs[0], node, global, k);
      RunKeepsOrder(c, Act(c, s, xs[0]), xs[1..], node, global, k + if xs[0].ReclaimEnd? then 1 else 0, total);
    }
  }

  /** The unsigned age of a node `d` epochs old, as the next two calls see it. */
  lemma AgesAfter(d: nat, global: nat, e: nat)
    requires e + d == global
    ensures ComesOfAge(global, GRACE, e) <==> d % WORD != WORD - 1
  {
    AgeIsExact(global + 1, e);
    AgeIsExact(global + 2, e);
    assert ComesOfAge(global, 2, e) <==> Age(global + 1, e) >= GRACE || Age(global + 2, e) >= GRACE by {
      assert !ComesOfAge(global, 0, e);
      assert ComesOfAge(global, 1, e) <==> Age(global + 1, e) >= GRACE;
    }
    Successors(d);
  }

  lemma Successors(d: nat)
    ensures ((d + 1) % WORD < GRACE && (d + 2) % WORD < GRACE) <==> d % WORD == WORD - 1
  {
    assert d == WORD * (d / WORD) + d % WORD;
    if d % WORD + 2 < WORD {
      DivModUnique(d / WORD, d % WORD + 1, WORD);
      DivModUnique(d / WORD, d % WORD + 2, WORD);
    } else if d % WORD + 2 == WORD {
      DivModUnique(d / WORD, d % WORD + 1, WORD);
      DivModUnique(d / WORD + 1, 0, WORD);
    } else {
      DivModUnique(d / WORD + 1, 0, WORD);
      DivModUnique(d / WORD + 1, 1, WORD);
    }
  }

  /**
   While nobody is inside, the call that ends as number `k` leaves a node queued exactly if its age, as the
   program computes it, has stayed below GRACE in all of them.
   */
  lemma CallsFreeWhatAges(c: Config, s0: State, xs: seq<Action>, s: State, ys: seq<Action>, node: Node)
    requires Reached(c, s0, xs, s) && s.reclaimer == Resting && node in s.retired
    requires Executable(c, s, ys) && NobodyEnters(c, s, ys) && !After(c, s, ys).reclaimer.Draining?
    ensures node in After(c, s, ys).retired <==> !ComesOfAge(s.global, CallsDone(ys), node.epoch)
  {
    RunKeepsOrder(c, s, ys, node, s.global, 0, CallsDone(ys));
  }

  /**
   Exactly when GRACE consecutive calls, with nobody inside, free what was retired before them: always, except
   for a node that is one epoch short of a whole turn of the counter old when they begin.
   */
  lemma GraceCallsFree(c: Config, s0: State, xs: seq<Action>, s: State, ys: seq<Action>, node: Node)
    requires Reached(c, s0, xs, s) && s.reclaimer == Resting && node in s.retired
    requires Executable(c, s, ys) && NobodyEnters(c, s, ys) && !After(c, s, ys).reclaimer.Draining?
    requires CallsDone(ys) == GRACE
    ensures node.epoch <= s.global
    ensures node !in After(c, s, ys).retired <==> (s.global - node.epoch) % WORD != WORD - 1
  {
    ReachedInv(c, s0, xs, s);
    assert node.epoch <= s.global;
    CallsFreeWhatAges(c, s0, xs, s, ys, node);
    AgesAfter(s.global - node.epoch, s.global, node.epoch);
  }

  // ----- such a node

  /** The epoch whose word is the greatest: no scan ever finds it behind. */
  const LAST: nat := WORD - 1

  predicate Anything(local: nat, current: nat) {
    true
  }

  /** The sweeper, with epoch LAST, is alone in the cache at `pc`, and the epoch is `g`. */
  function Alone(g: nat, bucket: Ptr, status: Status, pc: Pc, seen: set<Ref>, r: Reclaimer, w: Watch): State {
    World(bucket, STORED.(status := status), Resident(WROTE), Sweeping(LAST, pc, seen), g, multiset{}, r, ZERO)
      .(watch := w)
  }

  lemma SweeperEnters()
    ensures Leads(Anything, Alone(LAST, At(0), Linked(0), Idle, {}, Resting, Watch({}, {})))
  {
    WriteOne(Anything);
    AdvancesIdle(Anything, Resident(WROTE), 0, LAST);
    Enters(Anything, AtRest(Resident(WROTE), LAST), 1);
  }

  /** It takes the payload out, reads the epoch for the node, and falls asleep before the push. */
  lemma SweeperSleeps()
    ensures Leads(Anything, Alone(LAST, Null, Unlinked(1), RetirePush(Sweep(0, 0), 0, 0, LAST), {Ref(0, 1)}, Resting,
                                  Watch({}, {})))
  {
    SweeperEnters();
    var op, none := Sweep(0, 0), Watch({}, {});
    var unread: set<Ref> := {};
    assert unread + {Ref(0, 1)} == {Ref(0, 1)};
    var s1 := Alone(LAST, At(0), Linked(0), Load(op, 0), {}, Resting, none);
    Hop(Anything, Alone(LAST, At(0), Linked(0), Idle, {}, Resting, none), BeginSweep(1, 0), s1);
    var s2 := Alone(LAST, At(0), Linked(0), Inspect(op, 0, 0, 1), {Ref(0, 1)}, Resting, none);
    Hop(Anything, s1, Continue(1), s2);
    SweeperWins();
  }

  lemma SweeperWins()
    requires Leads(Anything, Alone(LAST, At(0), Linked(0), Inspect(Sweep(0, 0), 0, 0, 1), {Ref(0, 1)}, Resting,
                                   Watch({}, {})))
    ensures Leads(Anything, Alone(LAST, Null, Unlinked(1), RetirePush(Sweep(0, 0), 0, 0, LAST), {Ref(0, 1)}, Resting,
                                  Watch({}, {})))
  {
    var op, seen, none := Sweep(0, 0), {Ref(0, 1)}, Watch({}, {});
    var s1 := Alone(LAST, At(0), Linked(0), Remove(op, 0, 0, 1), seen, Resting, none);
    Hop(Anything, Alone(LAST, At(0), Linked(0), Inspect(op, 0, 0, 1), seen, Resting, none), Continue(1), s1);
    var s2 := Alone(LAST, Null, Unlinked(1), RetireLoad(op, 0, 0), seen, Resting, none);
    Hop(Anything, s1, Continue(1), s2);
    Hop(Anything, s2, Continue(1), Alone(LAST, Null, Unlinked(1), RetirePush(op, 0, 0, LAST), seen, Resting, none));
  }

  function Asleep(g: nat, r: Reclaimer, w: Watch): State {
    Alone(g, Null, Unlinked(1), RetirePush(Sweep(0, 0), 0, 0, LAST), {Ref(0, 1)}, r, w)
  }

  lemma ScanLooks(g: nat, exposed: set<nat>)
    requires Leads(Anything, Asleep(g, Resting, Watch({}, exposed)))
    ensures Leads(Anything, Asleep(g, SawActive(g, {1}, 1), Watch({}, exposed)))
  {
    var w := Watch({}, exposed);
    assert Everyone(2) == {0, 1};
    Hop(Anything, Asleep(g, Resting, w), ReclaimBegin, Asleep(g, Scanning(g, {0, 1}), w));
    assert {0 as nat, 1 as nat} - {0 as nat} == {1 as nat};
    Hop(Anything, Asleep(g, Scanning(g, {0, 1}), w), ReclaimLook(0), Asleep(g, Scanning(g, {1}), w));
    Hop(Anything, Asleep(g, Scanning(g, {1}), w), ReclaimLook(1), Asleep(g, SawActive(g, {1}, 1), w));
  }

  lemma LastIsNeverBehind(g: nat)
    ensures Word(LAST) >= Word(g)
  {
  }

  lemma NobodyBut(t: nat)
    ensures {t} - {t} == {} && {} + {t} == {t}
  {
  }

  /** A scan passes over the sleeping sweeper, whatever the epoch. */
  lemma ScanPasses(g: nat, exposed: set<nat>)
    requires g >= LAST && Leads(Anything, Asleep(g, Resting, Watch({}, exposed)))
    ensures Leads(Anything, Asleep(g, Scanning(g, {}), Watch(if g > LAST then {1} else {}, exposed)))
  {
    ScanLooks(g, exposed);
    NobodyBut(1);
    LastIsNeverBehind(g);
    Hop(Anything, Asleep(g, SawActive(g, {1}, 1), Watch({}, exposed)), ReclaimCompare,
        Asleep(g, Scanning(g, {}), Watch(if g > LAST then {1} else {}, exposed)));
  }

  lemma Advances(g: nat, missed: set<nat>, exposed: set<nat>)
    requires Leads(Anything, Asleep(g, Scanning(g, {}), Watch(missed, exposed)))
    ensures Leads(Anything, Asleep(g + 1, Resting, Watch({}, exposed + missed)))
  {
    var none: multiset<Node> := multiset{};
    assert OfAge(none, g + 1) == {};
    var w := Watch({}, exposed + missed);
    Hop(Anything, Asleep(g, Scanning(g, {}), Watch(missed, exposed)), ReclaimAdvance,
        Asleep(g + 1, Draining(g + 1, {}), w));
    Hop(Anything, Asleep(g + 1, Draining(g + 1, {}), w), ReclaimEnd, Asleep(g + 1, Resting, w));
  }

  lemma {:induction false} SleepsOn(g: nat) returns (exposed: set<nat>)
    requires g >= LAST
    ensures Leads(Anything, Asleep(g, Resting, Watch({}, exposed))) && exposed <= {1}
    decreases g
  {
    if g == LAST {
      SweeperSleeps();
      exposed := {};
    } else {
      var before := SleepsOn(g - 1);
      var missed: set<nat> := if g - 1 > LAST then {1} else {};
      ScanPasses(g - 1, before);
      Advances(g - 1, missed, before);
      exposed := before + missed;
    }
  }

  /** The sweeper has woken and pushed its old node. */
  function Pushed(g: nat, v: Thread, shared: Stats, exposed: set<nat>): State {
    World(Null, STORED.(status := Retired(LAST)), Resident(WROTE), v, g, multiset{Node(0, LAST)}, Resting, shared)
      .(watch := Watch({}, exposed))
  }

  lemma SweeperPushes(g: nat, exposed: set<nat>)
    requires Leads(Anything, Asleep(g, Resting, Watch({}, exposed)))
    ensures Leads(Anything, Pushed(g, Sweeping(LAST, AccountRetired(Sweep(0, 0), 0), {Ref(0, 1)}),
                                   ZERO.(cleanups := 1), exposed))
  {
    var op, seen := Sweep(0, 0), {Ref(0, 1)};
    var s1 := Pushed(g, Sweeping(LAST, Account(op, 0), seen), ZERO, exposed);
    Hop(Anything, Asleep(g, Resting, Watch({}, exposed)), Continue(1), s1);
    Hop(Anything, s1, Continue(1),
        Pushed(g, Sweeping(LAST, AccountRetired(op, 0), seen), ZERO.(cleanups := 1), exposed));
  }

  lemma SweeperGoes(g: nat, exposed: set<nat>)
    requires Leads(Anything, Pushed(g, Sweeping(LAST, AccountRetired(Sweep(0, 0), 0), {Ref(0, 1)}),
                                    ZERO.(cleanups := 1), exposed))
    ensures Leads(Anything, Pushed(g, Sweeping(LAST, Idle, {Ref(0, 1)}), SWEPT, exposed))
  {
    var op, seen := Sweep(0, 0), {Ref(0, 1)};
    var s1 := Pushed(g, Sweeping(LAST, Load(op, 1), seen), SWEPT, exposed);
    Hop(Anything, Pushed(g, Sweeping(LAST, AccountRetired(op, 0), seen), ZERO.(cleanups := 1), exposed),
        Continue(1), s1);
    Hop(Anything, s1, Continue(1), Pushed(g, Sweeping(LAST, Idle, seen), SWEPT, exposed));
  }

  /** Node (0, LAST) is queued, everybody has left, and the epoch is `g`. */
  function LateNode(g: nat): State {
    Pushed(g, Thread(Outside, false, LAST, ZERO, {}), SWEPT, {})
  }

  lemma SweeperWakes(g: nat, exposed: set<nat>)
    requires exposed <= {1} && Leads(Anything, Asleep(g, Resting, Watch({}, exposed)))
    ensures Leads(Anything, LateNode(g))
  {
    SweeperPushes(g, exposed);
    SweeperGoes(g, exposed);
    var none: set<nat> := {};
    assert none - {1} == {} && exposed - {1} == {};
    Hop(Anything, Pushed(g, Sweeping(LAST, Idle, {Ref(0, 1)}), SWEPT, exposed), ExitSection(1), LateNode(g));
  }

  lemma OneShort(g: nat)
    requires g == LAST + (WORD - 1)
    ensures Node(0, LAST) in LateNode(g).retired && NobodyInside(LateNode(g)) && LateNode(g).reclaimer == Resting
    ensures LateNode(g).global == g && (g - LAST) % WORD == WORD - 1
  {
  }

  /**
   Such a node is reached: a sweeper whose epoch is LAST sleeps before it pushes, no scan ever finds it behind,
   and it wakes WORD - 1 epochs later. The next GRACE calls leave its node queued.
   */
  lemma LateNodeStays()
    ensures exists s: State, node: Node ::
              Leads(Anything, s) && s.reclaimer == Resting && NobodyInside(s) && node in s.retired
              && node.epoch <= s.global && (s.global - node.epoch) % WORD == WORD - 1
  {
    var g: nat := LAST + (WORD - 1);
    var exposed := SleepsOn(g);
    SweeperWakes(g, exposed);
    OneShort(g);
    assert Leads(Anything, LateNode(g)) && Node(0, LAST) in LateNode(g).retired;
  }
}
