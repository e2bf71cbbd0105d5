/** The world a set of source records determines: one solution to every producer's equation. */
module Equations {
  // The independent meaning a watermark is compared with (crates/borg-engine/src/derive.rs, `settle_span`).
  import opened Core
  import opened Producers
  import opened Scheduler
  import opened Settle
  import opened Confluence

  // One def-version is in force throughout, so a cell is only ever read and written at one version.
  datatype System = System(prog: Program, producers: map<ProducerId, ProducerDef>, f: Footprint,
                           versionOf: CellRef -> DefVersion)

  ghost predicate Writer(sys: System, i: Invocation, at: CellAt) {
    i.producer in sys.producers && at in sys.f.outputs(i)
  }

  // A record no producer writes: source data.
  ghost predicate SourceCell(sys: System, at: CellAt) {
    forall i :: !Writer(sys, i, at)
  }

  ghost predicate LayeredSystem(sys: System) {
    forall i, j, at | Writer(sys, j, at) && (at in sys.f.inputs(i) || Entity(sys.producers, i, at)) ::
      sys.f.depth(j) < sys.f.depth(i) && (Entity(sys.producers, i, at) ==> j.producer != i.producer)
  }

  ghost predicate Disciplined(sys: System) {
    Exact(sys.prog, sys.f) && SingleWriter(sys.f) && LayeredSystem(sys)
  }

  // An invocation exists where an entity of its source buffer does.
  ghost predicate Active(sys: System, store: Store, i: Invocation) {
    exists at :: at in store && Entity(sys.producers, i, at)
  }

  // The invocation, run against this very store, writes what the store holds.
  ghost predicate Fulfilled(sys: System, store: Store, i: Invocation, h: History) {
    && Complete(sys.prog, i, h) && Agrees(h, store)
    && (forall at :: at in sys.f.outputs(i) ==>
          at in WriteMap(sys.prog(i, h).writes) && Get(store, at) == Some(WriteMap(sys.prog(i, h).writes)[at]))
  }

  ghost predicate Holds(sys: System, store: Store, i: Invocation) {
    if Active(sys, store, i) then exists h :: Fulfilled(sys, store, i, h)
    else forall at :: at in sys.f.outputs(i) ==> at !in store
  }

  // `store` is the source data, and what every producer makes of it.
  ghost predicate Solves(sys: System, source: Store, store: Store) {
    && (forall at :: SourceCell(sys, at) ==> Get(store, at) == Get(source, at))
    && (forall i: Invocation :: i.producer in sys.producers ==> Holds(sys, store, i))
  }

  ghost predicate AgreeAt(a: Store, b: Store, at: CellAt) {
    Get(a, at) == Get(b, at)
  }

  // --- One solution ---

  lemma {:induction false} SameActivity(sys: System, source: Store, a: Store, b: Store, i: Invocation)
    requires Disciplined(sys) && Solves(sys, source, a) && Solves(sys, source, b)
    requires i.producer in sys.producers && Active(sys, a, i)
    ensures Active(sys, b, i)
    decreases sys.f.depth(i), 0
  {
    var at :| at in a && Entity(sys.producers, i, at);
    SameRecord(sys, source, a, b, i, at);
    assert at in b;
  }

  // A record an invocation depends on, as input or as entity.
  lemma {:induction false} SameRecord(sys: System, source: Store, a: Store, b: Store, i: Invocation, at: CellAt)
    requires Disciplined(sys) && Solves(sys, source, a) && Solves(sys, source, b)
    requires at in sys.f.inputs(i) || Entity(sys.producers, i, at)
    ensures AgreeAt(a, b, at)
    decreases sys.f.depth(i), 0, 0
  {
    if j :| Writer(sys, j, at) {
      SameOutputs(sys, source, a, b, j, at);
    } else {
      assert SourceCell(sys, at);
    }
  }

  lemma {:induction false} SameOutputs(sys: System, source: Store, a: Store, b: Store, i: Invocation, at: CellAt)
    requires Disciplined(sys) && Solves(sys, source, a) && Solves(sys, source, b)
    requires Writer(sys, i, at)
    ensures AgreeAt(a, b, at)
    decreases sys.f.depth(i), 1
  {
    assert Holds(sys, a, i) && Holds(sys, b, i);
    if Active(sys, a, i) {
      SameActivity(sys, source, a, b, i);
      forall r | r in sys.f.inputs(i)
        ensures AgreeAt(a, b, r)
      {
        SameRecord(sys, source, a, b, i, r);
      }
      SameFulfilment(sys, a, b, i, at);
    } else if Active(sys, b, i) {
      SameActivity(sys, source, b, a, i);
    }
  }

  lemma SameFulfilment(sys: System, a: Store, b: Store, i: Invocation, at: CellAt)
    requires Exact(sys.prog, sys.f) && at in sys.f.outputs(i)
    requires (exists h :: Fulfilled(sys, a, i, h)) && (exists h :: Fulfilled(sys, b, i, h))
    requires forall r | r in sys.f.inputs(i) :: AgreeAt(a, b, r)
    ensures AgreeAt(a, b, at)
  {
    var h :| Fulfilled(sys, a, i, h);
    var k :| Fulfilled(sys, b, i, k);
    assert ReadSet(h) == sys.f.inputs(i);
    forall r | r in ReadSet(h)
      ensures Get(a, r) == Get(b, r)
    {
      assert AgreeAt(a, b, r);
    }
    Deterministic(sys.prog, i, h, k, a, b);
  }

  // The source data determines everything.
  lemma OneSolution(sys: System, source: Store, a: Store, b: Store, at: CellAt)
    requires Disciplined(sys) && Solves(sys, source, a) && Solves(sys, source, b)
    ensures Get(a, at) == Get(b, at)
  {
    if i :| Writer(sys, i, at) {
      SameOutputs(sys, source, a, b, i, at);
    } else {
      assert SourceCell(sys, at);
    }
  }
}
