/** When a round judges a producer to be cycling: what each wave runs, told before the round begins. */
module Fronts {
  // crates/borg-engine/src/derive.rs, `CYCLE_RERUN_LIMIT`, `schedule`.
  import opened Core
  import opened Producers
  import opened Scheduler
  import opened Waves
  import opened Settle
  import opened Confluence

  // --- The fronts ---

  // A record `j` writes puts `i` in front of its producer: it is the entity of `i`, or `i` is subscribed to it,
  // by the index as the round found it until `i` has run and by what `i` reads from then on.
  ghost predicate Reaches(s: Start, f: Footprint, j: Invocation, i: Invocation, ran: bool) {
    exists at :: at in f.outputs(j) && Concerns(s, f, j, i, at, ran)
  }

  ghost predicate Concerns(s: Start, f: Footprint, j: Invocation, i: Invocation, at: CellAt, ran: bool) {
    || Enters(s.producers, i, at, Some(j.producer))
    || (if ran then at in f.inputs(i) else Subscribed(s.readSets, i, at))
  }

  ghost predicate Healthy(s: Start, i: Invocation) {
    i.producer in s.producers && i.producer !in s.poisoned
  }

  // Front 0 is what the range dirties; each later one is what the one before it reaches.
  ghost predicate InFront(s: Start, f: Footprint, n: nat, i: Invocation)
    decreases n, 1
  {
    if n == 0 then WantedFirst(s, i)
    else Healthy(s, i) && exists j :: InFront(s, f, n - 1, j) && Reaches(s, f, j, i, InEarlier(s, f, n, i))
  }

  ghost predicate InEarlier(s: Start, f: Footprint, n: nat, i: Invocation)
    decreases n, 0
  {
    n > 0 && (InEarlier(s, f, n - 1, i) || InFront(s, f, n - 1, i))
  }

  ghost predicate EmptyFront(s: Start, f: Footprint, n: nat) {
    forall i :: !InFront(s, f, n, i)
  }

  // How many of the first `n` fronts hold an invocation.
  ghost function FrontsWith(s: Start, f: Footprint, n: nat, i: Invocation): nat {
    if n == 0 then 0 else FrontsWith(s, f, n - 1, i) + (if InFront(s, f, n - 1, i) then 1 else 0)
  }

  ghost predicate Recurs(s: Start, f: Footprint, i: Invocation) {
    exists n :: FrontsWith(s, f, n, i) > 8
  }

  lemma ReachedFrom(s: Start, f: Footprint, n: nat, i: Invocation) returns (j: Invocation)
    requires n > 0 && InFront(s, f, n, i)
    ensures Healthy(s, i) && InFront(s, f, n - 1, j) && Reaches(s, f, j, i, InEarlier(s, f, n, i))
  {
    hide WantedFirst, Healthy, Reaches, InEarlier;
    j :| InFront(s, f, n - 1, j) && Reaches(s, f, j, i, InEarlier(s, f, n, i));
  }

  lemma ReachedIsFront(s: Start, f: Footprint, n: nat, j: Invocation, i: Invocation)
    requires n > 0 && Healthy(s, i) && InFront(s, f, n - 1, j) && Reaches(s, f, j, i, InEarlier(s, f, n, i))
    ensures InFront(s, f, n, i)
  {
    hide WantedFirst, Healthy, Reaches, InEarlier;
  }

  // --- Waves run the fronts ---

  ghost predicate Unbroken(s: Start, m: Mark) {
    m.b.poisoned.Keys == s.poisoned.Keys
  }

  // After `n` waves that broke nobody, the last ran front n - 1 and each invocation has been counted once a front.
  ghost predicate Tracks(s: Start, f: Footprint, m: Mark, n: nat) {
    && m.b.count == n && Unbroken(s, m)
    && (forall i :: i in Ran(m.b.layers) <==> InEarlier(s, f, n, i))
    && (n > 0 ==> forall i :: i in Ran(m.b.last) <==> InFront(s, f, n - 1, i))
    && (forall i :: RunsOf(m.reruns, i) == FrontsWith(s, f, n, i) <= CYCLE_RERUN_LIMIT)
  }

  // What an invocation is subscribed to between two waves.
  lemma SubscribedAs(s: Start, f: Footprint, b: Between, i: Invocation, at: CellAt)
    requires Exact(s.prog, f) && Sound(s, b)
    ensures Subscribed(b.readSets, i, at) <==>
            if i in Ran(b.layers) then at in f.inputs(i) else Subscribed(s.readSets, i, at)
  {
    LastRunIs(b.layers, i);
    if i in Ran(b.layers) {
      WritesOf(s, f, b.layers, LastRun(b.layers, i).value);
    }
  }

  lemma WantedIsReached(s: Start, f: Footprint, b: Between, seeded: set<ProducerId>, i: Invocation)
    requires s.Behind() && Exact(s.prog, f) && b.count > 0 && b.poisoned.Keys == s.poisoned.Keys
    requires Sound(s, b) && Fresh(s, b) && Seeded(s, b, seeded)
    ensures SceneOf(s, b).Wanted(b.poisoned.Keys, WaveOf(s, b), seeded, i) <==>
            Healthy(s, i) && exists j :: j in Ran(b.last) && Reaches(s, f, j, i, i in Ran(b.layers))
  {
    hide Exact, Fresh, Seeded, Subscribed, Enters, Sound;
    if SceneOf(s, b).Wanted(b.poisoned.Keys, WaveOf(s, b), seeded, i) {
      var l, at := WantedVia(s, b, seeded, i);
      LastIsGenuine(s, f, b, l);
      SubscribedAs(s, f, b, i, at);
      assert Concerns(s, f, l.inv, i, at, i in Ran(b.layers));
      assert l.inv in Ran(b.last);
    }
    if j :| Healthy(s, i) && j in Ran(b.last) && Reaches(s, f, j, i, i in Ran(b.layers)) {
      var l :| l in b.last && l.inv == j;
      var at :| at in f.outputs(j) && Concerns(s, f, j, i, at, i in Ran(b.layers));
      LastIsGenuine(s, f, b, l);
      SubscribedAs(s, f, b, i, at);
      OwedIsWanted(s, b, seeded, l, i, at);
    }
  }

  lemma LastIsGenuine(s: Start, f: Footprint, b: Between, l: RunLayer)
    requires Exact(s.prog, f) && Sound(s, b) && l in b.last
    ensures WriteMap(l.writes).Keys == f.outputs(l.inv)
  {
    WritesOf(s, f, b.layers, l);
  }

  // The scheduler wants exactly the next front.
  lemma WantedIsFront(s: Start, f: Footprint, m: Mark, n: nat, i: Invocation)
    requires s.Behind() && Exact(s.prog, f) && Boundary(s, m) && Tracks(s, f, m, n)
    ensures SceneOf(s, m.b).Wanted(m.b.poisoned.Keys, WaveOf(s, m.b), m.seeded, i) <==> InFront(s, f, n, i)
  {
    hide Exact, Sound, Reaches;
    if n == 0 {
      assert SceneOf(s, m.b) == s.FirstScene();
    } else {
      WantedIsReached(s, f, m.b, m.seeded, i);
    }
  }

  // A wave that breaks nobody runs all that is wanted, counts it, and had nothing over the limit.
  lemma WaveRuns(s: Start, m: Mark, m': Mark, i: Invocation)
    requires Boundary(s, m) && OneWave(s, m, m') && Unbroken(s, m) && Unbroken(s, m')
    ensures var wanted := SceneOf(s, m.b).Wanted(m.b.poisoned.Keys, WaveOf(s, m.b), m.seeded, i);
            && (i in Ran(m'.b.last) <==> wanted)
            && (i in Ran(m'.b.layers) <==> i in Ran(m.b.layers) || wanted)
            && RunsOf(m'.reruns, i) == RunsOf(m.reruns, i) + (if wanted then 1 else 0)
            && (wanted ==> RunsOf(m'.reruns, i) <= CYCLE_RERUN_LIMIT)
    ensures m'.b.count == m.b.count + 1
  {
    hide Sound, Seeded, WaveOk, Recorded, SceneOf, WaveOf;
    var start := Plan({}, {}, m.reruns, m.seeded, m.b.poisoned);
    var plan, w :| Planned(SceneOf(s, m.b), WaveOf(s, m.b), start, plan)
                   && WaveDone(s, m.b, plan, w) && m' == Mark(After(m.b, w), plan.reruns, plan.seeded);
    UnbrokenThroughout(s, m.b, start, plan, w);
    forall j | j in plan.work
      ensures j.producer !in plan.poisoned
    {
      assert SceneOf(s, m.b).Wanted(m.b.poisoned.Keys, WaveOf(s, m.b), m.seeded, j);
    }
    RanAppend(m.b.layers, w.wave);
  }

  lemma FrontStep(s: Start, f: Footprint, m: Mark, m': Mark, n: nat)
    requires s.Behind() && Exact(s.prog, f) && Boundary(s, m) && Tracks(s, f, m, n)
    requires OneWave(s, m, m') && Unbroken(s, m')
    ensures Tracks(s, f, m', n + 1)
  {
    hide Exact, Boundary, OneWave, InFront, SceneOf, WaveOf;
    forall i
      ensures i in Ran(m'.b.layers) <==> InEarlier(s, f, n + 1, i)
      ensures i in Ran(m'.b.last) <==> InFront(s, f, n, i)
      ensures RunsOf(m'.reruns, i) == FrontsWith(s, f, n + 1, i) <= CYCLE_RERUN_LIMIT
      ensures m'.b.count == n + 1
    {
      WantedIsFront(s, f, m, n, i);
      WaveRuns(s, m, m', i);
    }
    WaveRuns(s, m, m', Invocation(0, Allocated(Object, 0, 0, 0)));
  }

  lemma StaysBroken(s: Start, m: Mark, m': Mark)
    requires OneWave(s, m, m') && Unbroken(s, m') && s.poisoned.Keys <= m.b.poisoned.Keys
    ensures Unbroken(s, m)
  {
    var start := Plan({}, {}, m.reruns, m.seeded, m.b.poisoned);
    var plan, w :| Planned(SceneOf(s, m.b), WaveOf(s, m.b), start, plan)
                   && WaveDone(s, m.b, plan, w) && m' == Mark(After(m.b, w), plan.reruns, plan.seeded);
    assert m.b.poisoned.Keys <= plan.poisoned.Keys <= w.poisoned.Keys;
  }

  lemma {:induction false} TracksTo(s: Start, f: Footprint, trace: seq<Mark>, n: nat)
    requires s.Behind() && Exact(s.prog, f) && Trace(s, trace) && n < |trace| && Unbroken(s, trace[n])
    ensures Tracks(s, f, trace[n], n)
  {
    hide Exact, OneWave;
    assert Boundary(s, trace[n]);
    if n > 0 {
      assert Boundary(s, trace[n - 1]);
      StaysBroken(s, trace[n - 1], trace[n]);
      TracksTo(s, f, trace, n - 1);
      hide Boundary;
      FrontStep(s, f, trace[n - 1], trace[n], n - 1);
    }
  }

  // --- A round that ends unbroken has run out of fronts ---

  lemma {:induction false} EmptyStaysEmpty(s: Start, f: Footprint, n: nat, k: nat)
    requires n <= k && EmptyFront(s, f, n)
    ensures EmptyFront(s, f, k)
  {
    if n < k {
      EmptyStaysEmpty(s, f, n, k - 1);
    }
  }

  lemma {:induction false} NoMoreFronts(s: Start, f: Footprint, n: nat, k: nat, i: Invocation)
    requires EmptyFront(s, f, n)
    ensures FrontsWith(s, f, k, i) <= FrontsWith(s, f, n, i)
  {
    if k < n {
      FrontsGrow(s, f, k, n, i);
    } else if k > n {
      NoMoreFronts(s, f, n, k - 1, i);
      EmptyStaysEmpty(s, f, n, k - 1);
    }
  }

  lemma {:induction false} FrontsGrow(s: Start, f: Footprint, k: nat, n: nat, i: Invocation)
    requires k <= n
    ensures FrontsWith(s, f, k, i) <= FrontsWith(s, f, n, i)
  {
    if k < n {
      FrontsGrow(s, f, k, n - 1, i);
    }
  }

  lemma NothingWanted(s: Start, f: Footprint, m: Mark, n: nat)
    requires s.Behind() && Exact(s.prog, f) && Boundary(s, m) && Tracks(s, f, m, n) && WaveOf(s, m.b) == []
    ensures EmptyFront(s, f, n)
  {
    forall i
      ensures !InFront(s, f, n, i)
    {
      WantedIsFront(s, f, m, n, i);
    }
  }

  // --- A wave that breaks someone without a failure had a ninth run to do ---

  ghost predicate NoneFailed(s: Start, poisoned: map<ProducerId, Poisoning>) {
    forall p :: p in poisoned && p !in s.poisoned ==> poisoned[p] == ProducerCycle
  }

  lemma NoneFailedBefore(s: Start, m: Mark, m': Mark)
    requires OneWave(s, m, m') && NoneFailed(s, m'.b.poisoned)
    ensures NoneFailed(s, m.b.poisoned)
  {
    var start := Plan({}, {}, m.reruns, m.seeded, m.b.poisoned);
    var plan, w :| Planned(SceneOf(s, m.b), WaveOf(s, m.b), start, plan)
                   && WaveDone(s, m.b, plan, w) && m' == Mark(After(m.b, w), plan.reruns, plan.seeded);
    forall p | p in m.b.poisoned && p !in s.poisoned
      ensures m.b.poisoned[p] == ProducerCycle
    {
      assert p in w.poisoned && plan.poisoned[p] == m.b.poisoned[p];
    }
  }

  lemma BreakIsNinth(s: Start, f: Footprint, m: Mark, m': Mark, n: nat) returns (i: Invocation)
    requires s.Behind() && Exact(s.prog, f) && Boundary(s, m) && Tracks(s, f, m, n)
    requires OneWave(s, m, m') && !Unbroken(s, m') && NoneFailed(s, m'.b.poisoned)
    ensures FrontsWith(s, f, n + 1, i) > CYCLE_RERUN_LIMIT
  {
    hide Exact, Boundary, InFront, SceneOf, WaveOf;
    var start := Plan({}, {}, m.reruns, m.seeded, m.b.poisoned);
    var plan, w :| Planned(SceneOf(s, m.b), WaveOf(s, m.b), start, plan)
                   && WaveDone(s, m.b, plan, w) && m' == Mark(After(m.b, w), plan.reruns, plan.seeded);
    assert s.poisoned.Keys <= w.poisoned.Keys;
    var p :| p in w.poisoned && p !in s.poisoned;
    assert p in plan.poisoned && TooOften(plan, p);
    i :| i in plan.scheduled && i.producer == p && RunsOf(plan.reruns, i) > CYCLE_RERUN_LIMIT;
    WantedIsFront(s, f, m, n, i);
    assert RunsOf(plan.reruns, i) == RunsOf(m.reruns, i) + 1;
  }

  lemma {:induction false} FirstBreak(s: Start, f: Footprint, trace: seq<Mark>, n: nat) returns (i: Invocation)
    requires s.Behind() && Exact(s.prog, f) && Trace(s, trace) && n < |trace|
    requires !Unbroken(s, trace[n]) && NoneFailed(s, trace[n].b.poisoned)
    ensures Recurs(s, f, i)
  {
    hide Exact, OneWave, FrontsWith;
    assert Boundary(s, trace[n]);
    if n > 0 {
      assert Boundary(s, trace[n - 1]);
      hide Boundary;
      if Unbroken(s, trace[n - 1]) {
        TracksTo(s, f, trace, n - 1);
        i := BreakIsNinth(s, f, trace[n - 1], trace[n], n - 1);
      } else {
        NoneFailedBefore(s, trace[n - 1], trace[n]);
        i := FirstBreak(s, f, trace, n - 1);
      }
    }
  }

  // A round in which no run failed breaks a producer for cycling exactly when some invocation is in more
  // fronts than the limit, whatever the interleaving and whether or not anything depends on itself.
  lemma CyclesWhen(s: Start, f: Footprint, trace: seq<Mark>)
    requires s.Behind() && Exact(s.prog, f) && Trace(s, trace) && WaveOf(s, trace[|trace| - 1].b) == []
    requires NoneFailed(s, trace[|trace| - 1].b.poisoned)
    ensures trace[|trace| - 1].b.poisoned.Keys != s.poisoned.Keys <==> exists i :: Recurs(s, f, i)
  {
    hide Exact, OneWave, FrontsWith;
    var n := |trace| - 1;
    if Unbroken(s, trace[n]) {
      TracksTo(s, f, trace, n);
      NothingWanted(s, f, trace[n], n);
      forall i
        ensures !Recurs(s, f, i)
      {
        forall k: nat
          ensures FrontsWith(s, f, k, i) <= CYCLE_RERUN_LIMIT
        {
          NoMoreFronts(s, f, n, k, i);
        }
      }
    } else {
      var i := FirstBreak(s, f, trace, n);
    }
  }

  // --- Fronts as walks ---

  // What the index holds of an invocation that the range does not dirty is what it reads.
  ghost predicate Foreseen(s: Start, f: Footprint) {
    forall i :: Healthy(s, i) && !WantedFirst(s, i) ==> forall at :: Subscribed(s.readSets, i, at) <==> at in f.inputs(i)
  }

  ghost predicate Edge(s: Start, f: Footprint, j: Invocation, i: Invocation) {
    Healthy(s, i) && exists at :: at in f.outputs(j) && (Enters(s.producers, i, at, Some(j.producer)) || at in f.inputs(i))
  }

  ghost predicate IsWalk(s: Start, f: Footprint, walk: seq<Invocation>, i: Invocation) {
    && walk != [] && WantedFirst(s, walk[0]) && walk[|walk| - 1] == i
    && forall k :: 0 < k < |walk| ==> Edge(s, f, walk[k - 1], walk[k])
  }

  ghost predicate WalksTo(s: Start, f: Footprint, n: nat, i: Invocation) {
    exists walk :: |walk| == n + 1 && IsWalk(s, f, walk, i)
  }

  lemma {:induction false} FirstIsEarlier(s: Start, f: Footprint, n: nat, i: Invocation)
    requires WantedFirst(s, i) && n > 0
    ensures InEarlier(s, f, n, i)
  {
    if n > 1 {
      FirstIsEarlier(s, f, n - 1, i);
    }
  }

  lemma EdgeIsReach(s: Start, f: Footprint, n: nat, j: Invocation, i: Invocation)
    requires Foreseen(s, f) && n > 0
    ensures Edge(s, f, j, i) <==> Healthy(s, i) && Reaches(s, f, j, i, InEarlier(s, f, n, i))
  {
    hide WantedFirst, Enters, InEarlier;
    if WantedFirst(s, i) {
      FirstIsEarlier(s, f, n, i);
    }
    if Healthy(s, i) {
      forall at
        ensures Concerns(s, f, j, i, at, InEarlier(s, f, n, i)) <==> (Enters(s.producers, i, at, Some(j.producer)) || at in f.inputs(i))
      {
      }
    }
  }

  lemma WalkOn(s: Start, f: Footprint, n: nat, j: Invocation, i: Invocation)
    requires WalksTo(s, f, n, j) && Edge(s, f, j, i)
    ensures WalksTo(s, f, n + 1, i)
  {
    hide Edge, WantedFirst;
    var walk :| |walk| == n + 1 && IsWalk(s, f, walk, j);
    assert |walk + [i]| == n + 2 && IsWalk(s, f, walk + [i], i);
  }

  lemma WalkBack(s: Start, f: Footprint, n: nat, i: Invocation) returns (j: Invocation)
    requires WalksTo(s, f, n + 1, i)
    ensures WalksTo(s, f, n, j) && Edge(s, f, j, i)
  {
    hide Edge, WantedFirst;
    var walk :| |walk| == n + 2 && IsWalk(s, f, walk, i);
    j := walk[n];
    assert |walk[..n + 1]| == n + 1 && IsWalk(s, f, walk[..n + 1], j);
  }

  lemma NoWalk(s: Start, f: Footprint, i: Invocation)
    ensures InFront(s, f, 0, i) <==> WalksTo(s, f, 0, i)
  {
    hide WantedFirst;
    assert |[i]| == 1 && ([i][0] == i);
    if WantedFirst(s, i) {
      assert IsWalk(s, f, [i], i);
    }
  }

  // An invocation is in front n exactly when a walk of n edges comes to it from one dirty at first.
  lemma {:induction false} FrontIsWalk(s: Start, f: Footprint, n: nat, i: Invocation)
    requires Foreseen(s, f)
    ensures InFront(s, f, n, i) <==> WalksTo(s, f, n, i)
  {
    hide InFront, WalksTo, Foreseen, Edge, Reaches, Healthy, InEarlier;
    if n == 0 {
      NoWalk(s, f, i);
    } else {
      if InFront(s, f, n, i) {
        var j := ReachedFrom(s, f, n, i);
        FrontIsWalk(s, f, n - 1, j);
        EdgeIsReach(s, f, n, j, i);
        WalkOn(s, f, n - 1, j, i);
      }
      if WalksTo(s, f, n, i) {
        var j := WalkBack(s, f, n - 1, i);
        FrontIsWalk(s, f, n - 1, j);
        EdgeIsReach(s, f, n, j, i);
        ReachedIsFront(s, f, n, j, i);
      }
    }
  }

  ghost predicate ManyWalks(s: Start, f: Footprint, i: Invocation) {
    exists lengths: set<nat> :: |lengths| > 8 && forall n :: n in lengths ==> WalksTo(s, f, n, i)
  }

  ghost function FrontsBelow(s: Start, f: Footprint, n: nat, i: Invocation): set<nat> {
    set m: nat | m < n && InFront(s, f, m, i)
  }

  lemma {:induction false} FrontsAreCounted(s: Start, f: Footprint, n: nat, i: Invocation)
    ensures FrontsWith(s, f, n, i) == |FrontsBelow(s, f, n, i)|
  {
    hide InFront;
    if n == 0 {
      assert FrontsBelow(s, f, 0, i) == {};
    } else {
      FrontsAreCounted(s, f, n - 1, i);
      assert FrontsBelow(s, f, n, i) ==
             FrontsBelow(s, f, n - 1, i) + (if InFront(s, f, n - 1, i) then {n - 1} else {});
    }
  }

  lemma {:induction false} SomeBound(ns: set<nat>) returns (bound: nat)
    ensures forall n :: n in ns ==> n < bound
  {
    bound := 0;
    if ns != {} {
      var n :| n in ns;
      var below := SomeBound(ns - {n});
      bound := Max(below, n + 1);
      assert forall m :: m in ns ==> m == n || m in ns - {n};
    }
  }

  lemma RecursByWalks(s: Start, f: Footprint, i: Invocation)
    requires Foreseen(s, f)
    ensures Recurs(s, f, i) <==> ManyWalks(s, f, i)
  {
    hide InFront, Foreseen, WalksTo, FrontsWith;
    forall n: nat
      ensures InFront(s, f, n, i) <==> WalksTo(s, f, n, i)
    {
      FrontIsWalk(s, f, n, i);
    }
    if n :| FrontsWith(s, f, n, i) > 8 {
      FrontsAreCounted(s, f, n, i);
      var lengths := FrontsBelow(s, f, n, i);
      assert |lengths| > 8;
    }
    if lengths: set<nat> :| |lengths| > 8 && forall n :: n in lengths ==> WalksTo(s, f, n, i) {
      var n := SomeBound(lengths);
      Fewer(lengths, FrontsBelow(s, f, n, i));
      FrontsAreCounted(s, f, n, i);
    }
  }

  // So such a round breaks a producer exactly when walks of more lengths than the limit come to one invocation.
  lemma CyclesByWalks(s: Start, f: Footprint, trace: seq<Mark>)
    requires s.Behind() && Exact(s.prog, f) && Trace(s, trace) && WaveOf(s, trace[|trace| - 1].b) == []
    requires NoneFailed(s, trace[|trace| - 1].b.poisoned) && Foreseen(s, f)
    ensures trace[|trace| - 1].b.poisoned.Keys != s.poisoned.Keys <==> exists i :: ManyWalks(s, f, i)
  {
    hide Exact, Trace, Recurs, ManyWalks, Foreseen, NoneFailed;
    CyclesWhen(s, f, trace);
    forall i
      ensures Recurs(s, f, i) <==> ManyWalks(s, f, i)
    {
      RecursByWalks(s, f, i);
    }
  }

  // --- Depth ---

  // In a layered graph a front is no deeper than its invocations are.
  lemma {:induction false} FrontIsShallow(s: Start, f: Footprint, n: nat, i: Invocation)
    requires LayeredFootprint(s, f) && InFront(s, f, n, i)
    ensures n <= f.depth(i)
  {
    hide WantedFirst, InEarlier;
    if n > 0 {
      var j := ReachedFrom(s, f, n, i);
      FrontIsShallow(s, f, n - 1, j);
    }
  }

  // Every edge goes one level down and nothing below the first level is dirty at first.
  ghost predicate Levelled(s: Start, f: Footprint) {
    && (forall i :: WantedFirst(s, i) ==> f.depth(i) == 0)
    && (forall i, j, at | at in f.outputs(j) && (at in f.inputs(i) || Enters(s.producers, i, at, Some(j.producer))) ::
          f.depth(i) == f.depth(j) + 1)
    && (forall i, at :: Subscribed(s.readSets, i, at) ==> at in f.inputs(i))
  }

  lemma {:induction false} FrontIsLevel(s: Start, f: Footprint, n: nat, i: Invocation)
    requires Levelled(s, f) && InFront(s, f, n, i)
    ensures f.depth(i) == n
  {
    hide WantedFirst, InEarlier;
    if n > 0 {
      var j := ReachedFrom(s, f, n, i);
      FrontIsLevel(s, f, n - 1, j);
    }
  }

  // Depth alone breaks nobody: a pipeline in levels, dirty at the first, runs each invocation once at most, however
  // many levels it has.
  lemma {:induction false} LevelledRunsOnce(s: Start, f: Footprint, n: nat, i: Invocation)
    requires Levelled(s, f)
    ensures FrontsWith(s, f, n, i) <= if n > f.depth(i) then 1 else 0
  {
    hide Levelled, InFront;
    if n > 0 {
      LevelledRunsOnce(s, f, n - 1, i);
      if InFront(s, f, n - 1, i) {
        FrontIsLevel(s, f, n - 1, i);
      }
    }
  }
}
