/** A pipeline that is scheduled a ninth time with no cycle in it. */
module Ladder {
  // crates/borg-engine/src/derive.rs, `CYCLE_RERUN_LIMIT`, `schedule`.
  import opened Core
  import opened Producers
  import opened Scheduler
  import opened Settle
  import opened Confluence
  import opened Fronts

  // One invocation per level, each reading something every lower level writes, all dirty at the start.
  ghost predicate Rungs(s: Start, f: Footprint, rungs: seq<Invocation>) {
    && Exact(s.prog, f)
    && (forall k :: 0 <= k < |rungs| ==> rungs[k].producer !in s.poisoned && WantedFirst(s, rungs[k]))
    && (forall j, k :: 0 <= j < k < |rungs| ==> f.outputs(rungs[j]) * f.inputs(rungs[k]) != {})
  }

  // Each rung is in as many fronts as there are rungs below it, and one.
  lemma {:induction false} RungInFronts(s: Start, f: Footprint, rungs: seq<Invocation>, n: nat, k: nat)
    requires Rungs(s, f, rungs) && n <= k < |rungs|
    ensures InFront(s, f, n, rungs[k])
  {
    hide Exact;
    assert WantedFirst(s, rungs[k]);
    if n > 0 {
      RungInFronts(s, f, rungs, n - 1, n - 1);
      FirstIsEarlier(s, f, n, rungs[k]);
      var at :| at in f.outputs(rungs[n - 1]) * f.inputs(rungs[k]);
      assert Concerns(s, f, rungs[n - 1], rungs[k], at, true);
      assert Reaches(s, f, rungs[n - 1], rungs[k], InEarlier(s, f, n, rungs[k]));
    }
  }

  lemma {:induction false} RungCounts(s: Start, f: Footprint, rungs: seq<Invocation>, n: nat, k: nat)
    requires Rungs(s, f, rungs) && k < |rungs| && n <= k + 1
    ensures FrontsWith(s, f, n, rungs[k]) == n
  {
    hide Rungs, InFront;
    if n > 0 {
      RungCounts(s, f, rungs, n - 1, k);
      RungInFronts(s, f, rungs, n - 1, k);
    }
  }

  // A ladder of nine rungs never settles: whatever the interleaving, the round ends with a producer broken.
  lemma NineRungsBreak(s: Start, f: Footprint, rungs: seq<Invocation>, trace: seq<Mark>)
    requires s.Behind() && Rungs(s, f, rungs) && |rungs| == 9
    requires Trace(s, trace) && WaveOf(s, trace[|trace| - 1].b) == []
    ensures trace[|trace| - 1].b.poisoned.Keys != s.poisoned.Keys
  {
    hide Recurs, FrontsWith;
    RungCounts(s, f, rungs, CYCLE_RERUN_LIMIT + 1, CYCLE_RERUN_LIMIT);
    assert Recurs(s, f, rungs[CYCLE_RERUN_LIMIT]) by {
      Recurring(s, f, CYCLE_RERUN_LIMIT + 1, rungs[CYCLE_RERUN_LIMIT]);
    }
    if NoneFailed(s, trace[|trace| - 1].b.poisoned) {
      CyclesWhen(s, f, trace);
    }
  }

  lemma Recurring(s: Start, f: Footprint, n: nat, i: Invocation)
    requires FrontsWith(s, f, n, i) > CYCLE_RERUN_LIMIT
    ensures Recurs(s, f, i)
  {
  }

  // --- Such a ladder, built ---

  const RUNGS: nat := CYCLE_RERUN_LIMIT + 1

  const SOURCE: BufferId := ObjectBuffer("Ladder")

  const ENTITY: Pid := Allocated(Object, 0, 0, 0)

  // The entity itself at level 0, then what each rung writes.
  function Level(pid: Pid, n: nat): CellAt
    requires n <= RUNGS
  {
    CellAt(CellRef(if n == 0 then SOURCE else ListElem("Ladder"), if n == 0 then Whole(pid) else Elem(pid, n)), 0)
  }

  // Producer p reads every level up to p, then writes the next.
  function Rung(i: Invocation, h: History): Step {
    if i.producer >= RUNGS then Finish([])
    else if |h| <= i.producer then Read(Level(i.input, |h|))
    else Finish([Write(Level(i.input, i.producer + 1), Int(0))])
  }

  function Inputs(i: Invocation): set<CellAt> {
    set n | 0 <= n < RUNGS && n <= i.producer && i.producer < RUNGS :: Level(i.input, n)
  }

  function Outputs(i: Invocation): set<CellAt> {
    if i.producer >= RUNGS then {} else {Level(i.input, i.producer + 1)}
  }

  const LADDER: Start :=
    Start(Rung, map p: ProducerId | 0 <= p < RUNGS :: ProducerDef(SOURCE, 1), map[], map[Level(ENTITY, 0) := Bool(true)],
          [Changeset(1, [(Level(ENTITY, 0), None)])], 1, map[], map[])

  const FEET: Footprint := Footprint(Inputs, Outputs, (i: Invocation) => i.producer)

  const CLIMBERS: seq<Invocation> := seq(RUNGS, k requires 0 <= k < RUNGS => Invocation(k, ENTITY))

  lemma RungFinishes(i: Invocation, h: History)
    requires Complete(Rung, i, h)
    ensures ReadSet(h) == Inputs(i) && WriteMap(Rung(i, h).writes).Keys == Outputs(i)
  {
    assert h != [] ==> Rung(i, h[..0]) == Read(h[0].at);
    if i.producer >= RUNGS {
      assert h == [];
      return;
    }
    forall k | 0 <= k < |h|
      ensures k <= i.producer && h[k].at == Level(i.input, k)
    {
      assert Rung(i, h[..k]) == Read(h[k].at);
    }
    forall at | at in Inputs(i)
      ensures at in ReadSet(h)
    {
      var n :| 0 <= n < RUNGS && n <= i.producer && at == Level(i.input, n);
      assert h[n] in h && h[n].at == at;
    }
    var w := Write(Level(i.input, i.producer + 1), Int(0));
    assert [w][..0] == [] && WriteMap([w]) == map[w.at := w.value];
  }

  lemma LadderStands()
    ensures LADDER.Behind() && Rungs(LADDER, FEET, CLIMBERS)
  {
    assert LADDER.span[0].position == LADDER.reflects;
    forall i, h | Complete(LADDER.prog, i, h)
      ensures ReadSet(h) == FEET.inputs(i) && WriteMap(LADDER.prog(i, h).writes).Keys == FEET.outputs(i)
    {
      RungFinishes(i, h);
    }
    forall k | 0 <= k < |CLIMBERS|
      ensures CLIMBERS[k].producer !in LADDER.poisoned && WantedFirst(LADDER, CLIMBERS[k])
    {
      var cells := LADDER.span[0].cells;
      assert Enters(LADDER.producers, CLIMBERS[k], cells[0].0, cells[0].1);
      assert LADDER.FirstScene().Candidate(LADDER.span[0], {}, CLIMBERS[k]);
    }
    forall j, k | 0 <= j < k < |CLIMBERS|
      ensures FEET.outputs(CLIMBERS[j]) * FEET.inputs(CLIMBERS[k]) != {}
    {
      assert Level(ENTITY, j + 1) in FEET.outputs(CLIMBERS[j]) * FEET.inputs(CLIMBERS[k]);
    }
  }

  const SHAPE: Graph := Graph((i: Invocation) => iset at | at in Inputs(i), (i: Invocation) => iset at | at in Outputs(i),
                              (i: Invocation) => i.producer)

  const CAST: set<Invocation> := set k | 0 <= k < RUNGS :: Invocation(k, ENTITY)

  // Nothing in it depends on itself, however far round.
  lemma LadderIsLayered()
    ensures Layered(LADDER, SHAPE) && Finite(LADDER, SHAPE, CAST)
    ensures forall i, h: History :: i in CAST && |h| >= RUNGS ==> !LADDER.prog(i, h).Read?
  {
    forall i, h | Complete(LADDER.prog, i, h)
      ensures (forall at :: at in ReadSet(h) ==> at in SHAPE.mayRead(i))
      ensures (forall at :: at in WriteMap(LADDER.prog(i, h).writes) ==> at in SHAPE.mayWrite(i))
    {
      RungFinishes(i, h);
    }
    assert forall at :: at in SpanCells(LADDER.span) ==> at == Level(ENTITY, 0);
    forall i, at | at in LADDER.base.Keys + SpanCells(LADDER.span) && Entity(LADDER.producers, i, at)
      ensures i in CAST
    {
      assert i == Invocation(i.producer, ENTITY);
    }
  }

  // So a pipeline with no cycle in it, only deep, is judged to be cycling, whatever the interleaving.
  method ClimbTheLadder() returns (b: Between)
    ensures b.poisoned != map[] && Layered(LADDER, SHAPE)
  {
    LadderStands();
    LadderIsLayered();
    ghost var trace;
    b, trace := RunRound(LADDER, 1, SHAPE, CAST, RUNGS);
    NineRungsBreak(LADDER, FEET, CLIMBERS, trace);
  }
}
