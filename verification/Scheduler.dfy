/** What a round's branch shows, and which invocations a wave of committed layers puts in front of the
    producers (crates/borg-engine/src/derive.rs, `schedule`, `invalidated_by`, `backfill`). */
module Scheduler {
  import opened Core
  import opened Producers

  const CYCLE_RERUN_LIMIT: nat := 8

  datatype ProducerDef = ProducerDef(source: BufferId, version: LayerId)

  datatype Poisoning = RunFailed | ProducerCycle

  // A committed layer's changeset: its position in the source stream, and each record it wrote with
  // the producer that wrote it (None for source data).
  datatype Changeset = Changeset(position: LayerId, cells: seq<(CellAt, Option<ProducerId>)>)

  // One run's committed layer on the round's own branch, with what the run was shown.
  datatype RunLayer = RunLayer(id: LayerId, inv: Invocation, seen: History, writes: seq<Write>)

  // --- What the round's branch shows ---

  function Head(layers: seq<RunLayer>): LayerId {
    if layers == [] then 0 else Max(Head(layers[..|layers| - 1]), layers[|layers| - 1].id)
  }

  // The highest layer at or below the bound holding the record.
  function Newest(layers: seq<RunLayer>, bound: LayerId, at: CellAt): (r: Option<RunLayer>)
    ensures r.Some? ==> at in WriteMap(r.value.writes)
  {
    if layers == [] then None
    else
      var older := Newest(layers[..|layers| - 1], bound, at);
      var last := layers[|layers| - 1];
      if last.id <= bound && at in WriteMap(last.writes) && (older.None? || older.value.id < last.id)
      then Some(last) else older
  }

  // The round's own branch first, then the trunk as of the fork point.
  function Shown(layers: seq<RunLayer>, bound: LayerId, base: Store, at: CellAt): Option<Value> {
    var newest := Newest(layers, bound, at);
    if newest.Some? then Some(WriteMap(newest.value.writes)[at]) else Get(base, at)
  }

  function Touched(layers: seq<RunLayer>): set<CellAt> {
    if layers == [] then {} else Touched(layers[..|layers| - 1]) + WriteMap(layers[|layers| - 1].writes).Keys
  }

  function Ran(layers: seq<RunLayer>): set<Invocation> {
    set l | l in layers :: l.inv
  }

  // Everything readable at the round's head.
  function World(layers: seq<RunLayer>, base: Store): Store {
    map at | at in base.Keys + Touched(layers) && Shown(layers, Head(layers), base, at).Some?
      :: Shown(layers, Head(layers), base, at).value
  }

  lemma {:induction false} HeadIsHighest(layers: seq<RunLayer>, l: RunLayer)
    requires l in layers
    ensures l.id <= Head(layers)
  {
    if l != layers[|layers| - 1] {
      HeadIsHighest(layers[..|layers| - 1], l);
    }
  }

  // The read rule: the answer is a layer at or below the bound that holds the record, and none of those is higher.
  lemma {:induction false} NewestIsHighest(layers: seq<RunLayer>, bound: LayerId, at: CellAt)
    ensures var r := Newest(layers, bound, at);
            && (r.Some? ==> r.value in layers && r.value.id <= bound)
            && (forall l | l in layers && l.id <= bound && at in WriteMap(l.writes) :: r.Some? && l.id <= r.value.id)
  {
    if layers != [] {
      NewestIsHighest(layers[..|layers| - 1], bound, at);
      assert layers == layers[..|layers| - 1] + [layers[|layers| - 1]];
    }
  }

  lemma {:induction false} TouchedByLayer(layers: seq<RunLayer>, at: CellAt)
    ensures at in Touched(layers) <==> exists l :: l in layers && at in WriteMap(l.writes)
  {
    if layers != [] {
      TouchedByLayer(layers[..|layers| - 1], at);
      assert layers == layers[..|layers| - 1] + [layers[|layers| - 1]];
    }
  }

  lemma WorldIsShown(layers: seq<RunLayer>, base: Store, at: CellAt)
    ensures Get(World(layers, base), at) == Shown(layers, Head(layers), base, at)
  {
    NewestIsHighest(layers, Head(layers), at);
    TouchedByLayer(layers, at);
  }

  // --- What a changeset dirties ---

  // An invocation whose source entity is this cell.
  predicate Entity(producers: map<ProducerId, ProducerDef>, i: Invocation, at: CellAt) {
    i.producer in producers && at.cell.buffer == producers[i.producer].source && at.cell.Pid() == i.input
  }

  // A producer is not set off by its own output.
  predicate Enters(producers: map<ProducerId, ProducerDef>, i: Invocation, at: CellAt, author: Option<ProducerId>) {
    Entity(producers, i, at) && author != Some(i.producer)
  }

  predicate Subscribed(readSets: map<Invocation, set<CellAt>>, i: Invocation, at: CellAt) {
    i in readSets && at in readSets[i]
  }

  predicate Dirties(producers: map<ProducerId, ProducerDef>, readSets: map<Invocation, set<CellAt>>,
                    cells: seq<(CellAt, Option<ProducerId>)>, i: Invocation) {
    i.producer in producers &&
    exists k :: 0 <= k < |cells| &&
                (Subscribed(readSets, i, cells[k].0) || Enters(producers, i, cells[k].0, cells[k].1))
  }

  function RunsOf(reruns: map<Invocation, nat>, i: Invocation): nat {
    if i in reruns then reruns[i] else 0
  }

  // --- Scheduling ---

  // What one call of the scheduler holds fixed: the producers, how far each has caught up, the
  // dependency index's latest read-sets, and the cells the round's branch can see.
  datatype Scene = Scene(producers: map<ProducerId, ProducerDef>, watermarks: map<ProducerId, LayerId>,
                         readSets: map<Invocation, set<CellAt>>, visible: set<CellAt>)
  {
    function Watermark(p: ProducerId): LayerId {
      if p in watermarks then watermarks[p] else 0
    }

    // Neither broken nor already past this layer's position in the source stream.
    predicate Due(broken: set<ProducerId>, p: ProducerId, cs: Changeset) {
      p in producers && p !in broken && Watermark(p) < cs.position
    }

    // A producer that has incorporated nothing, or nothing since it was last pushed.
    predicate NewHere(p: ProducerId) {
      p in producers && (Watermark(p) == 0 || Watermark(p) < producers[p].version)
    }

    // An entity of the producer's source buffer, whoever wrote it.
    predicate InBuffer(i: Invocation) {
      i.producer in producers
      && exists at :: at in visible && at.cell.buffer == producers[i.producer].source && at.cell.Pid() == i.input
    }

    predicate Candidate(cs: Changeset, seeded: set<ProducerId>, i: Invocation) {
      || Dirties(producers, readSets, cs.cells, i)
      || (i.producer !in seeded && NewHere(i.producer) && InBuffer(i))
    }

    ghost predicate Wanted(broken: set<ProducerId>, wave: seq<Changeset>, seeded: set<ProducerId>, i: Invocation) {
      exists k :: 0 <= k < |wave| && Due(broken, i.producer, wave[k]) && Candidate(wave[k], seeded, i)
    }
  }

  // The scheduler's running state within one wave.
  datatype Plan = Plan(scheduled: set<Invocation>, work: set<Invocation>, reruns: map<Invocation, nat>,
                       seeded: set<ProducerId>, poisoned: map<ProducerId, Poisoning>)

  // The invocations of one producer that one changeset dirties.
  method InvalidatedBy(scene: Scene, p: ProducerId, cells: seq<(CellAt, Option<ProducerId>)>)
    returns (found: set<Invocation>)
    requires p in scene.producers
    ensures forall i :: i in found <==> i.producer == p && Dirties(scene.producers, scene.readSets, cells, i)
  {
    var readSets := scene.readSets;
    var written := set k | 0 <= k < |cells| :: cells[k].0;
    found := set i | i in readSets && i.producer == p && readSets[i] * written != {};
    assert forall i :: i in found <==>
      i.producer == p && exists k :: 0 <= k < |cells| && Subscribed(readSets, i, cells[k].0) by {
      forall i | i in readSets && i.producer == p && readSets[i] * written != {}
        ensures exists k :: 0 <= k < |cells| && Subscribed(readSets, i, cells[k].0)
      {
        var at :| at in readSets[i] * written;
        var k :| 0 <= k < |cells| && cells[k].0 == at;
        assert Subscribed(readSets, i, cells[k].0);
      }
      forall i: Invocation, k | i.producer == p && 0 <= k < |cells| && Subscribed(readSets, i, cells[k].0)
        ensures readSets[i] * written != {}
      {
        assert cells[k].0 in readSets[i] * written;
      }
    }
    ghost var subscribed := found;
    for n := 0 to |cells|
      invariant forall i :: i in found <==> (i in subscribed ||
        (i.producer == p && exists k :: 0 <= k < n && Enters(scene.producers, i, cells[k].0, cells[k].1)))
    {
      var (at, author) := cells[n];
      if author == Some(p) {
        continue;
      }
      if at.cell.buffer != scene.producers[p].source {
        continue;
      }
      found := found + {Invocation(p, at.cell.Pid())};
    }
  }

  // A new producer's whole source buffer, as work.
  method Backfill(scene: Scene, p: ProducerId) returns (found: set<Invocation>)
    requires p in scene.producers
    ensures forall i :: i in found <==> i.producer == p && scene.NewHere(p) && scene.InBuffer(i)
  {
    if scene.Watermark(p) != 0 && scene.Watermark(p) >= scene.producers[p].version {
      return {};
    }
    found := set at | at in scene.visible && at.cell.buffer == scene.producers[p].source :: Invocation(p, at.cell.Pid());
  }

  method CandidatesOf(scene: Scene, p: ProducerId, cs: Changeset, seeded: set<ProducerId>)
    returns (candidates: set<Invocation>)
    requires p in scene.producers
    ensures forall i :: i in candidates <==> i.producer == p && scene.Candidate(cs, seeded, i)
  {
    candidates := InvalidatedBy(scene, p, cs.cells);
    if p !in seeded {
      var seeds := Backfill(scene, p);
      candidates := candidates + seeds;
    }
  }

  // What one layer adds to the plan for one producer: `picked` is counted, `added` is run. They differ
  // only where an invocation went over the limit, which breaks the producer.
  ghost predicate Adds(p: ProducerId, before: Plan, after: Plan, picked: set<Invocation>, added: set<Invocation>) {
    && picked !! before.scheduled && added <= picked
    && (forall i :: i in picked ==> i.producer == p)
    && after.scheduled == before.scheduled + picked
    && after.work == before.work + added
    && (forall i :: RunsOf(after.reruns, i) == RunsOf(before.reruns, i) + (if i in picked then 1 else 0))
    && (forall i :: i in added ==> RunsOf(after.reruns, i) <= CYCLE_RERUN_LIMIT)
    && (forall i :: i in picked - added ==> RunsOf(after.reruns, i) > CYCLE_RERUN_LIMIT)
    && (if added == picked then after.poisoned == before.poisoned
        else p !in before.poisoned && after.poisoned == before.poisoned[p := ProducerCycle])
  }

  lemma NothingAdded(p: ProducerId, plan: Plan)
    ensures Adds(p, plan, plan, {}, {}) && Adds(p, plan, plan.(seeded := plan.seeded + {p}), {}, {})
  {
  }

  // One more invocation picked: run, or over the limit.
  lemma AddsStep(p: ProducerId, before: Plan, plan: Plan, picked: set<Invocation>, i: Invocation)
    requires Adds(p, before, plan, picked, picked) && i.producer == p && i !in plan.scheduled && p !in before.poisoned
    ensures var runs := RunsOf(plan.reruns, i) + 1;
            var after := plan.(scheduled := plan.scheduled + {i}, reruns := plan.reruns[i := runs]);
            if runs > CYCLE_RERUN_LIMIT
            then Adds(p, before, after.(poisoned := after.poisoned[p := ProducerCycle]), picked + {i}, picked)
            else Adds(p, before, after.(work := after.work + {i}), picked + {i}, picked + {i})
  {
    assert i !in picked && i !in before.scheduled;
    assert i in (picked + {i}) - picked;
  }

  // One layer against one producer.
  method ScheduleOne(scene: Scene, p: ProducerId, cs: Changeset, before: Plan)
    returns (plan: Plan, ghost picked: set<Invocation>, ghost added: set<Invocation>)
    requires p in scene.producers
    ensures Adds(p, before, plan, picked, added)
    ensures plan.seeded == if scene.Due(before.poisoned.Keys, p, cs) then before.seeded + {p} else before.seeded
    ensures forall i :: i in picked ==> scene.Due(before.poisoned.Keys, p, cs) && scene.Candidate(cs, before.seeded, i)
    ensures plan.poisoned == before.poisoned && scene.Due(before.poisoned.Keys, p, cs) ==>
              forall i: Invocation :: i.producer == p && scene.Candidate(cs, before.seeded, i) ==> i in plan.scheduled
  {
    hide Adds, RunsOf;
    plan, picked, added := before, {}, {};
    NothingAdded(p, before);
    if p in plan.poisoned {
      return;
    }
    if scene.Watermark(p) >= cs.position {
      return;
    }
    var candidates := CandidatesOf(scene, p, cs, plan.seeded);
    plan := plan.(seeded := plan.seeded + {p});
    ghost var all := candidates;
    while candidates != {}
      invariant candidates <= all && picked <= all
      invariant all <= candidates + plan.scheduled && added == picked
      invariant Adds(p, before, plan, picked, added)
      invariant plan.seeded == before.seeded + {p} && plan.poisoned == before.poisoned
      decreases candidates
    {
      var i :| i in candidates;
      candidates := candidates - {i};
      if i in plan.scheduled {
        continue;
      }
      var runs := RunsOf(plan.reruns, i) + 1;
      AddsStep(p, before, plan, picked, i);
      plan := plan.(scheduled := plan.scheduled + {i}, reruns := plan.reruns[i := runs]);
      picked := picked + {i};
      if runs > CYCLE_RERUN_LIMIT {
        plan := plan.(poisoned := plan.poisoned[p := ProducerCycle]);
        break;
      }
      plan := plan.(work := plan.work + {i});
      added := added + {i};
    }
  }

  // Each scheduled invocation is counted once, what was not run is over the limit, and a producer is
  // newly broken only because of such an invocation.
  ghost predicate Tally(start: Plan, plan: Plan) {
    && plan.work <= plan.scheduled
    && start.seeded <= plan.seeded
    && start.poisoned.Keys <= plan.poisoned.Keys
    && (forall p :: p in plan.poisoned && p in start.poisoned ==> plan.poisoned[p] == start.poisoned[p])
    && (forall p :: p in plan.poisoned && p !in start.poisoned ==>
          plan.poisoned[p] == ProducerCycle && TooOften(plan, p))
    && (forall i :: RunsOf(plan.reruns, i) == RunsOf(start.reruns, i) + (if i in plan.scheduled then 1 else 0))
    && (forall i :: i in plan.work ==> RunsOf(plan.reruns, i) <= CYCLE_RERUN_LIMIT)
    && (forall i :: i in plan.scheduled - plan.work ==> RunsOf(plan.reruns, i) > CYCLE_RERUN_LIMIT)
  }

  ghost predicate TooOften(plan: Plan, p: ProducerId) {
    exists i :: i in plan.scheduled && i.producer == p && RunsOf(plan.reruns, i) > CYCLE_RERUN_LIMIT
  }

  // Nothing has been passed over in the first `n` layers, the last still owed to the producers in `rest`.
  ghost predicate Covered(scene: Scene, wave: seq<Changeset>, n: nat, rest: set<ProducerId>, start: Plan, plan: Plan)
    requires n <= |wave|
  {
    && plan.work == plan.scheduled
    && (forall p, k :: 0 <= k < n && (k < n - 1 || p !in rest) && scene.Due(start.poisoned.Keys, p, wave[k]) ==> p in plan.seeded)
    && (forall i: Invocation :: i.producer in plan.seeded - start.seeded && scene.NewHere(i.producer) && scene.InBuffer(i)
          ==> i in plan.scheduled)
    && (forall i: Invocation, k :: (0 <= k < n && (k < n - 1 || i.producer !in rest)
          && scene.Due(start.poisoned.Keys, i.producer, wave[k]) && scene.Candidate(wave[k], start.seeded, i)) ==> i in plan.scheduled)
  }

  lemma TallyStep(p: ProducerId, start: Plan, before: Plan, after: Plan, picked: set<Invocation>, added: set<Invocation>)
    requires Tally(start, before) && Adds(p, before, after, picked, added) && before.seeded <= after.seeded
    ensures Tally(start, after)
    ensures before.poisoned != start.poisoned ==> after.poisoned != start.poisoned
  {
    hide RunsOf;
    forall q | q in after.poisoned && q !in start.poisoned
      ensures after.poisoned[q] == ProducerCycle && TooOften(after, q)
    {
      if q in before.poisoned {
        var i :| i in before.scheduled && i.producer == q && RunsOf(before.reruns, i) > CYCLE_RERUN_LIMIT;
        assert RunsOf(after.reruns, i) == RunsOf(before.reruns, i);
      } else {
        assert added != picked;
        var i :| i in picked && i !in added;
        assert i in picked - added;
        assert RunsOf(after.reruns, i) > CYCLE_RERUN_LIMIT;
      }
    }
  }

  lemma CoveredStep(scene: Scene, wave: seq<Changeset>, n: nat, rest: set<ProducerId>, p: ProducerId,
                    start: Plan, before: Plan, after: Plan, picked: set<Invocation>, added: set<Invocation>)
    requires 0 < n <= |wave| && p in rest && start.seeded <= before.seeded
    requires Covered(scene, wave, n, rest, start, before)
    requires Adds(p, before, after, picked, added)
    requires before.poisoned == after.poisoned == start.poisoned
    requires after.seeded == if scene.Due(start.poisoned.Keys, p, wave[n - 1]) then before.seeded + {p} else before.seeded
    requires scene.Due(start.poisoned.Keys, p, wave[n - 1]) ==>
               forall i: Invocation :: i.producer == p && scene.Candidate(wave[n - 1], before.seeded, i) ==> i in after.scheduled
    ensures Covered(scene, wave, n, rest - {p}, start, after)
  {
    assert added == picked;
    forall i: Invocation | i.producer in after.seeded - start.seeded && scene.NewHere(i.producer) && scene.InBuffer(i)
      ensures i in after.scheduled
    {
      if i.producer !in before.seeded {
        assert scene.Candidate(wave[n - 1], before.seeded, i);
      }
    }
    forall i: Invocation, k | 0 <= k < n && (k < n - 1 || i.producer !in rest - {p}) &&
                              scene.Due(start.poisoned.Keys, i.producer, wave[k]) && scene.Candidate(wave[k], start.seeded, i)
      ensures i in after.scheduled
    {
      if k == n - 1 && i.producer == p && !scene.Candidate(wave[k], before.seeded, i) {
        assert p in before.seeded - start.seeded;
      }
    }
  }

  ghost predicate AllWanted(scene: Scene, wave: seq<Changeset>, start: Plan, plan: Plan) {
    forall i :: i in plan.scheduled ==> scene.Wanted(start.poisoned.Keys, wave, start.seeded, i)
  }

  // One layer against every producer, in whatever order the producers come.
  method SchedulePass(scene: Scene, wave: seq<Changeset>, n: nat, ghost start: Plan, before: Plan) returns (plan: Plan)
    requires n < |wave| && start.scheduled == {}
    requires Tally(start, before) && AllWanted(scene, wave, start, before)
    requires before.poisoned == start.poisoned ==> Covered(scene, wave, n, {}, start, before)
    ensures Tally(start, plan) && AllWanted(scene, wave, start, plan)
    ensures plan.poisoned == start.poisoned ==> Covered(scene, wave, n + 1, {}, start, plan)
  {
    plan := before;
    var rest := scene.producers.Keys;
    while rest != {}
      invariant rest <= scene.producers.Keys
      invariant Tally(start, plan) && AllWanted(scene, wave, start, plan)
      invariant plan.poisoned == start.poisoned ==> Covered(scene, wave, n + 1, rest, start, plan)
      decreases rest
    {
      var p :| p in rest;
      ghost var previous := plan;
      ghost var picked, added;
      plan, picked, added := ScheduleOne(scene, p, wave[n], plan);
      TallyStep(p, start, previous, plan, picked, added);
      PickedWanted(scene, wave, n, p, start, previous, plan, picked);
      if plan.poisoned == start.poisoned {
        CoveredStep(scene, wave, n + 1, rest, p, start, previous, plan, picked, added);
      }
      rest := rest - {p};
    }
  }

  lemma PickedWanted(scene: Scene, wave: seq<Changeset>, n: nat, p: ProducerId, start: Plan, before: Plan, after: Plan,
                     picked: set<Invocation>)
    requires n < |wave| && AllWanted(scene, wave, start, before) && after.scheduled == before.scheduled + picked
    requires start.seeded <= before.seeded && start.poisoned.Keys <= before.poisoned.Keys
    requires forall i :: i in picked ==>
               i.producer == p && scene.Due(before.poisoned.Keys, p, wave[n]) && scene.Candidate(wave[n], before.seeded, i)
    ensures AllWanted(scene, wave, start, after)
  {
    forall i | i in picked
      ensures scene.Wanted(start.poisoned.Keys, wave, start.seeded, i)
    {
      assert scene.Due(start.poisoned.Keys, i.producer, wave[n]) && scene.Candidate(wave[n], start.seeded, i);
    }
  }

  // What the scheduler promises about a wave: nothing unwanted is picked, every pick is counted, and
  // unless a producer newly broke, everything wanted is run and every producer it concerns is seeded.
  ghost predicate Planned(scene: Scene, wave: seq<Changeset>, start: Plan, plan: Plan) {
    && Tally(start, plan) && AllWanted(scene, wave, start, plan)
    && (plan.poisoned == start.poisoned ==>
          && plan.work == plan.scheduled
          && (forall i :: scene.Wanted(start.poisoned.Keys, wave, start.seeded, i) ==> i in plan.work)
          && (forall p, k :: 0 <= k < |wave| && scene.Due(start.poisoned.Keys, p, wave[k]) ==> p in plan.seeded))
  }

  // One wave of committed layers against every producer: the invocations to run next.
  method Schedule(scene: Scene, wave: seq<Changeset>, start: Plan) returns (plan: Plan)
    requires start.scheduled == {} && start.work == {}
    ensures Planned(scene, wave, start, plan)
  {
    plan := start;
    for n := 0 to |wave|
      invariant Tally(start, plan) && AllWanted(scene, wave, start, plan)
      invariant plan.poisoned == start.poisoned ==> Covered(scene, wave, n, {}, start, plan)
    {
      plan := SchedulePass(scene, wave, n, start, plan);
    }
  }
}
