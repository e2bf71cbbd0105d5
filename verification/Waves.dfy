/** One wave of a round: every scheduled invocation runs on its own, in any interleaving, each into its
    own layer (crates/borg-engine/src/derive.rs, `settle_span` and `run`). */
module Waves {
  import opened Core
  import opened Producers
  import opened Scheduler

  // A run in flight. Its layer id is taken when the layer opens; its read path is bounded at the branch
  // head as it stood when the run resolved it.
  datatype Task = Waiting | Opened(layer: LayerId) | Reading(layer: LayerId, bound: LayerId, seen: History)

  // The wave so far: layers committed, the next layer id and who owns each id, the runs in flight, the
  // dependency index's latest read-sets and the producers judged broken.
  datatype WaveState = WaveState(wave: seq<RunLayer>, next: LayerId, owners: map<LayerId, Invocation>,
                                 tasks: map<Invocation, Task>, readSets: map<Invocation, set<CellAt>>, poisoned: map<ProducerId, Poisoning>)

  // One step of one run: open the layer, resolve the read path, read a cell, commit, or give up.
  // The read-set reaches the index before the layer commits.
  function Step(prog: Program, base: Store, before: seq<RunLayer>, w: WaveState, i: Invocation): WaveState
    requires i in w.tasks
  {
    match w.tasks[i]
    case Waiting =>
      w.(tasks := w.tasks[i := Opened(w.next)], owners := w.owners[w.next := i], next := w.next + 1)
    case Opened(layer) =>
      w.(tasks := w.tasks[i := Reading(layer, Head(before + w.wave), [])])
    case Reading(layer, bound, seen) =>
      match prog(i, seen)
      case Read(at) =>
        var value := Shown(before + w.wave, bound, base, at);
        w.(tasks := w.tasks[i := Reading(layer, bound, seen + [Seen(at, value)])])
      case Finish(writes) =>
        w.(readSets := w.readSets[i := ReadSet(seen)],
           wave := w.wave + [RunLayer(layer, i, seen, writes)],
           tasks := w.tasks - {i})
      case Fail =>
        w.(poisoned := w.poisoned[i.producer := RunFailed], tasks := w.tasks - {i})
  }

  // What a run of the wave was shown: the world before the wave, or a record a peer has committed.
  ghost predicate Honest(world: Store, touched: set<CellAt>, seen: History) {
    forall s | s in seen :: s.value == Get(world, s.at) || s.at in touched
  }

  ghost predicate TaskOk(prog: Program, world: Store, floor: LayerId, touched: set<CellAt>, i: Invocation, task: Task) {
    task.Reading? ==> floor <= task.bound && Follows(prog, i, task.seen) && Honest(world, touched, task.seen)
  }

  ghost predicate LayerOk(prog: Program, world: Store, touched: set<CellAt>, l: RunLayer) {
    Complete(prog, l.inv, l.seen) && prog(l.inv, l.seen).writes == l.writes && Honest(world, touched, l.seen)
  }

  ghost predicate TasksOk(prog: Program, world: Store, floor: LayerId, touched: set<CellAt>, tasks: map<Invocation, Task>) {
    forall i :: i in tasks ==> TaskOk(prog, world, floor, touched, i, tasks[i])
  }

  ghost predicate LayersOk(prog: Program, world: Store, touched: set<CellAt>, wave: seq<RunLayer>) {
    forall l :: l in wave ==> LayerOk(prog, world, touched, l)
  }

  // Layer ids are handed out once each, and only one layer of the wave belongs to each invocation.
  ghost predicate IdsOk(first: LayerId, w: WaveState) {
    && first <= w.next
    && (forall id :: id in w.owners ==> first <= id < w.next)
    && (forall i :: i in w.tasks && !w.tasks[i].Waiting? ==> w.tasks[i].layer in w.owners && w.owners[w.tasks[i].layer] == i)
    && (forall l :: l in w.wave ==> l.inv !in w.tasks && l.id in w.owners && w.owners[l.id] == l.inv)
    && OncePerInvocation(w.wave)
  }

  ghost predicate OncePerInvocation(wave: seq<RunLayer>) {
    forall a, b :: 0 <= a < b < |wave| ==> wave[a].inv != wave[b].inv
  }

  ghost predicate WaveOk(prog: Program, base: Store, before: seq<RunLayer>, first: LayerId, w: WaveState) {
    && TasksOk(prog, World(before, base), Head(before), Touched(w.wave), w.tasks)
    && LayersOk(prog, World(before, base), Touched(w.wave), w.wave)
    && IdsOk(first, w)
  }

  // Every scheduled invocation is in flight, has committed, or has broken its producer; and the index
  // holds each committed run's own read-set.
  ghost predicate Accounted(work: set<Invocation>, start: WaveState, w: WaveState) {
    && w.tasks.Keys + Ran(w.wave) <= work
    && (w.tasks.Keys + Ran(w.wave) == work || exists i :: i in work && i.producer in w.poisoned)
    && Recorded(start.readSets, w.readSets, w.wave)
    && start.poisoned.Keys <= w.poisoned.Keys
    && (forall p :: p in w.poisoned ==>
          (p in start.poisoned && w.poisoned[p] == start.poisoned[p]) || w.poisoned[p] == RunFailed)
  }

  ghost predicate Recorded(readSets0: map<Invocation, set<CellAt>>, readSets: map<Invocation, set<CellAt>>, wave: seq<RunLayer>) {
    && readSets.Keys == readSets0.Keys + Ran(wave)
    && (forall i :: i in readSets0 && i !in Ran(wave) ==> readSets[i] == readSets0[i])
    && (forall l :: l in wave ==> readSets[l.inv] == ReadSet(l.seen))
  }

  lemma {:induction false} HeadGrows(before: seq<RunLayer>, wave: seq<RunLayer>)
    ensures Head(before) <= Head(before + wave)
  {
    if wave == [] {
      assert before + wave == before;
    } else {
      var shorter := wave[..|wave| - 1];
      HeadGrows(before, shorter);
      assert (before + wave)[..|before + wave| - 1] == before + shorter;
    }
  }

  // A record no later layer touches reads the same whatever else has landed.
  lemma {:induction false} NewestBelow(before: seq<RunLayer>, wave: seq<RunLayer>, bound: LayerId, at: CellAt)
    requires Head(before) <= bound
    ensures at !in Touched(wave) ==> Newest(before + wave, bound, at) == Newest(before, Head(before), at)
  {
    if wave == [] {
      assert before + wave == before;
      forall l | l in before
        ensures l.id <= Head(before)
      {
        HeadIsHighest(before, l);
      }
      SameNewest(before, bound, Head(before), at);
    } else {
      var shorter := wave[..|wave| - 1];
      NewestBelow(before, shorter, bound, at);
      assert (before + wave)[..|before + wave| - 1] == before + shorter;
      assert (before + wave)[|before + wave| - 1] == wave[|wave| - 1];
    }
  }

  lemma {:induction false} SameNewest(layers: seq<RunLayer>, b: LayerId, c: LayerId, at: CellAt)
    requires forall l | l in layers :: l.id <= b && l.id <= c
    ensures Newest(layers, b, at) == Newest(layers, c, at)
  {
    if layers != [] {
      SameNewest(layers[..|layers| - 1], b, c, at);
    }
  }

  // Whatever a run reads mid-wave is the world before the wave or something a peer has committed.
  lemma ReadInWave(base: Store, before: seq<RunLayer>, wave: seq<RunLayer>, bound: LayerId, at: CellAt)
    requires Head(before) <= bound
    ensures Shown(before + wave, bound, base, at) == Get(World(before, base), at) || at in Touched(wave)
  {
    NewestBelow(before, wave, bound, at);
    WorldIsShown(before, base, at);
  }

  // What a peer had committed when a run resolved its path, the run sees: its bound is the head of that moment, and
  // a read answers with that layer or a higher one, whatever is committed afterwards.
  lemma ResolvedSees(prog: Program, base: Store, before: seq<RunLayer>, w: WaveState, i: Invocation, l: RunLayer,
                     later: seq<RunLayer>, at: CellAt)
    requires i in w.tasks && w.tasks[i].Opened? && l in before + w.wave && at in WriteMap(l.writes)
    requires w.wave <= later
    ensures var task := Step(prog, base, before, w, i).tasks[i];
            && task.Reading? && task.seen == []
            && var newest := Newest(before + later, task.bound, at);
               newest.Some? && newest.value.id >= l.id
               && Shown(before + later, task.bound, base, at) == Some(WriteMap(newest.value.writes)[at])
  {
    hide WriteMap;
    var bound := Head(before + w.wave);
    HeadIsHighest(before + w.wave, l);
    NewestIsHighest(before + later, bound, at);
    assert l in before + later;
  }

  lemma OnceMore(wave: seq<RunLayer>, l: RunLayer)
    requires OncePerInvocation(wave) && forall k :: k in wave ==> k.inv != l.inv
    ensures OncePerInvocation(wave + [l])
  {
  }

  lemma StepIds(prog: Program, base: Store, before: seq<RunLayer>, first: LayerId, w: WaveState, i: Invocation)
    requires i in w.tasks && IdsOk(first, w)
    ensures IdsOk(first, Step(prog, base, before, w, i))
  {
    hide Shown, ReadSet, Head, OncePerInvocation;
    var w' := Step(prog, base, before, w, i);
    if w.tasks[i].Reading? && prog(i, w.tasks[i].seen).Finish? {
      var l := RunLayer(w.tasks[i].layer, i, w.tasks[i].seen, prog(i, w.tasks[i].seen).writes);
      assert w'.wave == w.wave + [l];
      OnceMore(w.wave, l);
    } else {
      assert w'.wave == w.wave;
    }
  }

  lemma StepTask(prog: Program, world: Store, base: Store, before: seq<RunLayer>, w: WaveState, i: Invocation)
    requires i in w.tasks && world == World(before, base)
    requires TasksOk(prog, world, Head(before), Touched(w.wave), w.tasks)
    requires w.tasks[i].Reading? ==> !prog(i, w.tasks[i].seen).Finish?
    ensures TasksOk(prog, world, Head(before), Touched(w.wave), Step(prog, base, before, w, i).tasks)
  {
    hide World, Shown, Head, Touched;
    var tasks' := Step(prog, base, before, w, i).tasks;
    assert TaskOk(prog, world, Head(before), Touched(w.wave), i, w.tasks[i]);
    if i in tasks' {
      assert TaskOk(prog, world, Head(before), Touched(w.wave), i, tasks'[i]) by {
        match w.tasks[i] {
          case Waiting =>
          case Opened(_) => HeadGrows(before, w.wave);
          case Reading(layer, bound, seen) =>
            var at := prog(i, seen).at;
            ReadInWave(base, before, w.wave, bound, at);
            NextRead(prog, i, seen, Seen(at, Shown(before + w.wave, bound, base, at)));
        }
      }
    }
  }

  lemma NextRead(prog: Program, i: Invocation, seen: History, s: Seen)
    requires Follows(prog, i, seen) && prog(i, seen) == Read(s.at)
    ensures Follows(prog, i, seen + [s])
  {
    forall k | 0 <= k < |seen| + 1
      ensures prog(i, (seen + [s])[..k]) == Read((seen + [s])[k].at)
    {
      assert (seen + [s])[..k] == seen[..k];
      assert seen[..|seen|] == seen;
    }
  }

  lemma StepCommit(prog: Program, world: Store, base: Store, before: seq<RunLayer>, w: WaveState, i: Invocation)
    requires i in w.tasks && w.tasks[i].Reading? && prog(i, w.tasks[i].seen).Finish?
    requires TasksOk(prog, world, Head(before), Touched(w.wave), w.tasks)
    requires LayersOk(prog, world, Touched(w.wave), w.wave)
    ensures var w' := Step(prog, base, before, w, i);
            && TasksOk(prog, world, Head(before), Touched(w'.wave), w'.tasks)
            && LayersOk(prog, world, Touched(w'.wave), w'.wave)
  {
    var w' := Step(prog, base, before, w, i);
    var l := RunLayer(w.tasks[i].layer, i, w.tasks[i].seen, prog(i, w.tasks[i].seen).writes);
    assert w'.wave == w.wave + [l] && w'.wave[..|w'.wave| - 1] == w.wave;
    assert Touched(w.wave) <= Touched(w'.wave);
    assert TaskOk(prog, world, Head(before), Touched(w.wave), i, w.tasks[i]);
    forall k | k in w'.wave
      ensures LayerOk(prog, world, Touched(w'.wave), k)
    {
      assert k == l || LayerOk(prog, world, Touched(w.wave), k);
    }
    forall j | j in w'.tasks
      ensures TaskOk(prog, world, Head(before), Touched(w'.wave), j, w'.tasks[j])
    {
      assert TaskOk(prog, world, Head(before), Touched(w.wave), j, w.tasks[j]);
    }
  }

  lemma StepWave(prog: Program, base: Store, before: seq<RunLayer>, first: LayerId, w: WaveState, i: Invocation)
    requires i in w.tasks && WaveOk(prog, base, before, first, w)
    ensures WaveOk(prog, base, before, first, Step(prog, base, before, w, i))
  {
    StepIds(prog, base, before, first, w, i);
    hide Step, TasksOk, LayersOk, IdsOk, World, Head, Touched;
    if w.tasks[i].Reading? && prog(i, w.tasks[i].seen).Finish? {
      StepCommit(prog, World(before, base), base, before, w, i);
    } else {
      StepTask(prog, World(before, base), base, before, w, i);
    }
  }

  lemma RecordCommit(readSets0: map<Invocation, set<CellAt>>, readSets: map<Invocation, set<CellAt>>,
                     wave: seq<RunLayer>, l: RunLayer)
    requires Recorded(readSets0, readSets, wave) && l.inv !in Ran(wave)
    ensures Ran(wave + [l]) == Ran(wave) + {l.inv}
    ensures Recorded(readSets0, readSets[l.inv := ReadSet(l.seen)], wave + [l])
  {
    assert forall k :: k in wave + [l] <==> k == l || k in wave;
    assert forall k :: k in wave ==> k.inv in Ran(wave);
    assert l in wave + [l];
  }

  lemma FinishAccounted(work: set<Invocation>, start: WaveState, w: WaveState, w': WaveState, i: Invocation, l: RunLayer)
    requires i in w.tasks && Accounted(work, start, w) && i !in Ran(w.wave) && l.inv == i
    requires w' == w.(readSets := w.readSets[i := ReadSet(l.seen)], wave := w.wave + [l], tasks := w.tasks - {i})
    ensures Accounted(work, start, w')
  {
    hide Recorded, ReadSet;
    RecordCommit(start.readSets, w.readSets, w.wave, l);
    assert w'.tasks.Keys + Ran(w'.wave) == w.tasks.Keys + Ran(w.wave);
  }

  lemma FailAccounted(work: set<Invocation>, start: WaveState, w: WaveState, w': WaveState, i: Invocation)
    requires i in w.tasks && Accounted(work, start, w)
    requires w' == w.(poisoned := w.poisoned[i.producer := RunFailed], tasks := w.tasks - {i})
    ensures Accounted(work, start, w')
  {
    hide Recorded;
    assert i in work && i.producer in w'.poisoned;
  }

  lemma StepAccounted(prog: Program, base: Store, before: seq<RunLayer>, work: set<Invocation>, start: WaveState,
                      w: WaveState, i: Invocation)
    requires i in w.tasks && Accounted(work, start, w) && i !in Ran(w.wave)
    ensures Accounted(work, start, Step(prog, base, before, w, i))
  {
    hide Shown, Head, Recorded, ReadSet, Ran;
    var w' := Step(prog, base, before, w, i);
    if w.tasks[i].Reading? && prog(i, w.tasks[i].seen).Finish? {
      FinishAccounted(work, start, w, w', i,
                      RunLayer(w.tasks[i].layer, i, w.tasks[i].seen, prog(i, w.tasks[i].seen).writes));
    } else if w.tasks[i].Reading? && prog(i, w.tasks[i].seen).Fail? {
      FailAccounted(work, start, w, w', i);
    } else {
      assert w'.tasks.Keys == w.tasks.Keys;
    }
  }

  // --- A wave ends: each step uses up one of finitely many tickets ---

  ghost function StepsLeft(tasks: map<Invocation, Task>, budget: nat): set<(Invocation, nat)> {
    set i, n | i in tasks && n in Below(Stage(tasks[i], budget)) :: (i, n)
  }

  ghost function Below(k: nat): (r: set<nat>)
    ensures forall n: nat :: n in r <==> n < k
  {
    if k == 0 then {} else Below(k - 1) + {k - 1}
  }

  ghost function Stage(task: Task, budget: nat): nat {
    match task
    case Waiting => budget + 3
    case Opened(_) => budget + 2
    case Reading(_, _, seen) => if |seen| <= budget then budget + 1 - |seen| else 0
  }

  lemma Shrinks(tasks: map<Invocation, Task>, i: Invocation, task: Option<Task>, budget: nat)
    requires i in tasks
    requires Stage(tasks[i], budget) > if task.Some? then Stage(task.value, budget) else 0
    ensures StepsLeft(if task.Some? then tasks[i := task.value] else tasks - {i}, budget) < StepsLeft(tasks, budget)
  {
    var tasks' := if task.Some? then tasks[i := task.value] else tasks - {i};
    var n := if task.Some? then Stage(task.value, budget) else 0;
    assert (i, n) in StepsLeft(tasks, budget) && (i, n) !in StepsLeft(tasks', budget);
    assert forall j, k :: (j, k) in StepsLeft(tasks', budget) ==> (j, k) in StepsLeft(tasks, budget);
  }

  ghost predicate InBudget(tasks: map<Invocation, Task>, budget: nat) {
    forall i :: i in tasks && tasks[i].Reading? ==> |tasks[i].seen| <= budget
  }

  lemma StepTaken(prog: Program, base: Store, before: seq<RunLayer>, w: WaveState, i: Invocation, budget: nat)
    requires i in w.tasks && InBudget(w.tasks, budget)
    requires forall h: History :: |h| >= budget ==> !prog(i, h).Read?
    ensures StepsLeft(Step(prog, base, before, w, i).tasks, budget) < StepsLeft(w.tasks, budget)
    ensures InBudget(Step(prog, base, before, w, i).tasks, budget)
  {
    hide Shown, ReadSet, Head, Touched, StepsLeft;
    var tasks' := Step(prog, base, before, w, i).tasks;
    Shrinks(w.tasks, i, if i in tasks' then Some(tasks'[i]) else None, budget);
  }

  lemma AllWaiting(prog: Program, base: Store, before: seq<RunLayer>, work: set<Invocation>, start: WaveState)
    requires start.wave == [] && start.tasks == map[] && start.owners == map[]
    ensures var w := start.(tasks := map i | i in work :: Waiting);
            WaveOk(prog, base, before, start.next, w) && Accounted(work, start, w)
  {
    hide World, Head, Touched;
    assert (map i | i in work :: Waiting).Keys == work;
  }

  // Runs every scheduled invocation. Each iteration lets an arbitrary run take one step, so every
  // interleaving of opening, resolving the path, reading and committing is covered.
  method RunWave(prog: Program, base: Store, before: seq<RunLayer>, work: set<Invocation>, start: WaveState,
                 ghost budget: nat)
    returns (w: WaveState)
    requires Head(before) < start.next
    requires start.wave == [] && start.tasks == map[] && start.owners == map[]
    requires forall i, h: History :: i in work && |h| >= budget ==> !prog(i, h).Read?
    ensures WaveOk(prog, base, before, start.next, w) && w.tasks == map[]
    ensures Accounted(work, start, w)
    ensures w.poisoned.Keys == start.poisoned.Keys && (forall i :: i in work ==> i.producer !in start.poisoned) ==> Ran(w.wave) == work
  {
    hide Step, World, Head, Touched, StepsLeft, LayersOk, Recorded;
    w := start.(tasks := map i | i in work :: Waiting);
    AllWaiting(prog, base, before, work, start);
    while w.tasks != map[]
      invariant WaveOk(prog, base, before, start.next, w)
      invariant Accounted(work, start, w)
      invariant InBudget(w.tasks, budget)
      decreases StepsLeft(w.tasks, budget)
    {
      var i :| i in w.tasks;
      StepWave(prog, base, before, start.next, w, i);
      StepAccounted(prog, base, before, work, start, w, i);
      StepTaken(prog, base, before, w, i, budget);
      w := Step(prog, base, before, w, i);
    }
  }
}
