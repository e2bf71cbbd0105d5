/** A settled round is the same round whatever order its runs happened in. */
module Confluence {
  // crates/borg-engine/src/derive.rs, `settle_span`.
  import opened Core
  import opened Producers
  import opened Scheduler
  import opened Settle

  // The records each invocation reads and writes, whenever it finishes, and its depth in the graph.
  datatype Footprint = Footprint(inputs: Invocation -> set<CellAt>, outputs: Invocation -> set<CellAt>, depth: Invocation -> nat)

  ghost predicate Exact(prog: Program, f: Footprint) {
    forall i, h | Complete(prog, i, h) :: ReadSet(h) == f.inputs(i) && WriteMap(prog(i, h).writes).Keys == f.outputs(i)
  }

  // One invocation per output record.
  ghost predicate SingleWriter(f: Footprint) {
    forall i, j, at | at in f.outputs(i) && at in f.outputs(j) :: i == j
  }

  ghost predicate LayeredFootprint(s: Start, f: Footprint) {
    && (forall i, j, at | at in f.outputs(j) && (at in f.inputs(i) || Enters(s.producers, i, at, Some(j.producer))) ::
          f.depth(j) < f.depth(i))
    && (forall i, at :: i in s.readSets && at in s.readSets[i] ==> at in f.inputs(i))
  }

  ghost predicate Pipelines(s: Start, f: Footprint) {
    Exact(s.prog, f) && SingleWriter(f) && LayeredFootprint(s, f)
  }

  lemma WritesOf(s: Start, f: Footprint, layers: seq<RunLayer>, l: RunLayer)
    requires Exact(s.prog, f) && Genuine(s.prog, layers) && l in layers
    ensures WriteMap(l.writes).Keys == f.outputs(l.inv) && ReadSet(l.seen) == f.inputs(l.inv)
  {
    assert Complete(s.prog, l.inv, l.seen);
  }

  // --- Which invocations run ---

  lemma {:induction false} RanInBoth(s: Start, f: Footprint, one: seq<RunLayer>, two: seq<RunLayer>,
                                     r1: map<Invocation, set<CellAt>>, r2: map<Invocation, set<CellAt>>, i: Invocation)
    requires Pipelines(s, f) && Settled(s, one, r1) && Settled(s, two, r2) && i in Ran(one)
    ensures i in Ran(two)
    decreases f.depth(i)
  {
    hide Exact, SingleWriter, WriteMap, Indexed, Ordered;
    assert HasReason(s, one, i);
    if !WantedFirst(s, i) {
      var l :| l in one && WantedBy(s, l, i);
      var at :| at in WriteMap(l.writes) && Triggers(s, i, at, Some(l.inv.producer));
      WritesOf(s, f, one, l);
      assert f.depth(l.inv) < f.depth(i);
      assert l.inv in Ran(one);
      RanInBoth(s, f, one, two, r1, r2, l.inv);
      var k :| k in two && k.inv == l.inv;
      WritesOf(s, f, two, k);
      assert WantedBy(s, k, i);
    }
  }

  // --- What a record finally holds ---

  lemma {:induction false} LastRunIsHighest(layers: seq<RunLayer>, i: Invocation, l: RunLayer)
    requires Ordered(layers) && l in layers && l.inv == i
    ensures LastRun(layers, i).Some? && l.id <= LastRun(layers, i).value.id
    ensures l.id == LastRun(layers, i).value.id ==> l == LastRun(layers, i).value
  {
    var a :| 0 <= a < |layers| && layers[a] == l;
    var last := |layers| - 1;
    if layers[last].inv != i {
      var shorter := layers[..last];
      assert forall x :: 0 <= x < |shorter| ==> shorter[x] == layers[x];
      assert Ordered(shorter);
      assert shorter[a] == l;
      LastRunIsHighest(shorter, i, l);
    } else if a < last {
      assert layers[a].id < layers[last].id;
    }
  }

  // The branch shows an invocation's outputs as its last run left them.
  lemma OutputShown(s: Start, f: Footprint, layers: seq<RunLayer>, i: Invocation, at: CellAt)
    requires Exact(s.prog, f) && SingleWriter(f) && Genuine(s.prog, layers) && Ordered(layers)
    requires i in Ran(layers) && at in f.outputs(i)
    ensures LastRun(layers, i).Some? && at in WriteMap(LastRun(layers, i).value.writes)
    ensures Get(World(layers, s.base), at) == Some(WriteMap(LastRun(layers, i).value.writes)[at])
  {
    LastRunIs(layers, i);
    var last := LastRun(layers, i).value;
    WritesOf(s, f, layers, last);
    WorldIsShown(layers, s.base, at);
    HeadIsHighest(layers, last);
    NewestIsHighest(layers, Head(layers), at);
    var newest := Newest(layers, Head(layers), at).value;
    WritesOf(s, f, layers, newest);
    LastRunIsHighest(layers, i, newest);
  }

  lemma Untouched(s: Start, f: Footprint, layers: seq<RunLayer>, at: CellAt)
    requires Exact(s.prog, f) && Genuine(s.prog, layers)
    requires forall i :: i in Ran(layers) ==> at !in f.outputs(i)
    ensures Get(World(layers, s.base), at) == Get(s.base, at)
  {
    WorldIsShown(layers, s.base, at);
    NewestIsHighest(layers, Head(layers), at);
    var newest := Newest(layers, Head(layers), at);
    if newest.Some? {
      WritesOf(s, f, layers, newest.value);
    }
  }

  // --- The same runs end the same way ---

  ghost predicate SameEnd(one: seq<RunLayer>, two: seq<RunLayer>, i: Invocation) {
    && LastRun(one, i).Some? && LastRun(two, i).Some?
    && LastRun(one, i).value.seen == LastRun(two, i).value.seen
    && LastRun(one, i).value.writes == LastRun(two, i).value.writes
  }

  ghost predicate Fixpoint(s: Start, layers: seq<RunLayer>) {
    Genuine(s.prog, layers) && Ordered(layers) && ReadsHold(layers, World(layers, s.base), {})
  }

  ghost predicate SameWorldAt(s: Start, one: seq<RunLayer>, two: seq<RunLayer>, at: CellAt) {
    Get(World(one, s.base), at) == Get(World(two, s.base), at)
  }

  lemma {:induction false} LastRunsAgree(s: Start, f: Footprint, one: seq<RunLayer>, two: seq<RunLayer>, i: Invocation)
    requires Pipelines(s, f) && Fixpoint(s, one) && Fixpoint(s, two)
    requires Ran(one) == Ran(two) && i in Ran(one)
    ensures SameEnd(one, two, i)
    decreases f.depth(i), 1
  {
    forall at | at in f.inputs(i)
      ensures SameWorldAt(s, one, two, at)
    {
      InputsAgree(s, f, one, two, i, at);
    }
    SameInputsSameEnd(s, f, one, two, i);
  }

  lemma SameInputsSameEnd(s: Start, f: Footprint, one: seq<RunLayer>, two: seq<RunLayer>, i: Invocation)
    requires Exact(s.prog, f) && Fixpoint(s, one) && Fixpoint(s, two)
    requires i in Ran(one) && i in Ran(two)
    requires forall at | at in f.inputs(i) :: SameWorldAt(s, one, two, at)
    ensures SameEnd(one, two, i)
  {
    LastRunIs(one, i);
    LastRunIs(two, i);
    var a, b := LastRun(one, i).value, LastRun(two, i).value;
    WritesOf(s, f, one, a);
    assert Agrees(a.seen, World(one, s.base)) && Agrees(b.seen, World(two, s.base));
    forall at | at in ReadSet(a.seen)
      ensures Get(World(one, s.base), at) == Get(World(two, s.base), at)
    {
      assert SameWorldAt(s, one, two, at);
    }
    Deterministic(s.prog, i, a.seen, b.seen, World(one, s.base), World(two, s.base));
  }

  lemma {:induction false} InputsAgree(s: Start, f: Footprint, one: seq<RunLayer>, two: seq<RunLayer>, i: Invocation, at: CellAt)
    requires Pipelines(s, f) && Fixpoint(s, one) && Fixpoint(s, two)
    requires Ran(one) == Ran(two) && at in f.inputs(i)
    ensures SameWorldAt(s, one, two, at)
    decreases f.depth(i), 0
  {
    if j :| j in Ran(one) && at in f.outputs(j) {
      assert f.depth(j) < f.depth(i);
      LastRunsAgree(s, f, one, two, j);
      SameOutput(s, f, one, two, j, at);
    } else {
      Untouched(s, f, one, at);
      Untouched(s, f, two, at);
    }
  }

  lemma SameOutput(s: Start, f: Footprint, one: seq<RunLayer>, two: seq<RunLayer>, j: Invocation, at: CellAt)
    requires Exact(s.prog, f) && SingleWriter(f) && Fixpoint(s, one) && Fixpoint(s, two)
    requires j in Ran(one) && j in Ran(two) && at in f.outputs(j) && SameEnd(one, two, j)
    ensures SameWorldAt(s, one, two, at)
  {
    OutputShown(s, f, one, j, at);
    OutputShown(s, f, two, j, at);
  }

  lemma RecordAgrees(s: Start, f: Footprint, one: seq<RunLayer>, two: seq<RunLayer>, at: CellAt)
    requires Pipelines(s, f) && Fixpoint(s, one) && Fixpoint(s, two) && Ran(one) == Ran(two)
    ensures SameWorldAt(s, one, two, at)
  {
    hide Exact, SingleWriter, LayeredFootprint, ReadsHold, World, SameEnd;
    if j :| j in Ran(one) && at in f.outputs(j) {
      LastRunsAgree(s, f, one, two, j);
      SameOutput(s, f, one, two, j, at);
    } else {
      Untouched(s, f, one, at);
      Untouched(s, f, two, at);
    }
  }

  // Two rounds from the same start, however their runs interleaved, run the same invocations, show the
  // same records and leave the same read-sets in the index.
  lemma Confluent(s: Start, f: Footprint, one: seq<RunLayer>, two: seq<RunLayer>,
                  r1: map<Invocation, set<CellAt>>, r2: map<Invocation, set<CellAt>>)
    requires Pipelines(s, f) && Settled(s, one, r1) && Settled(s, two, r2)
    ensures Ran(one) == Ran(two)
    ensures forall at :: SameWorldAt(s, one, two, at)
    ensures r1 == r2
  {
    hide Exact, SingleWriter, LayeredFootprint, Genuine, Ordered, ReadsHold, Indexed, Closed, Justified, World, SameWorldAt;
    assert Ran(one) <= Ran(two) && Ran(two) <= Ran(one) by {
      hide Ran;
      forall i | i in Ran(one)
        ensures i in Ran(two)
      {
        RanInBoth(s, f, one, two, r1, r2, i);
      }
      forall i | i in Ran(two)
        ensures i in Ran(one)
      {
        RanInBoth(s, f, two, one, r2, r1, i);
      }
    }
    forall at
      ensures SameWorldAt(s, one, two, at)
    {
      RecordAgrees(s, f, one, two, at);
    }
    SameIndex(s, f, one, two, r1, r2);
  }

  lemma SameIndex(s: Start, f: Footprint, one: seq<RunLayer>, two: seq<RunLayer>,
                  r1: map<Invocation, set<CellAt>>, r2: map<Invocation, set<CellAt>>)
    requires Exact(s.prog, f) && Ran(one) == Ran(two)
    requires Genuine(s.prog, one) && Genuine(s.prog, two) && Indexed(s.readSets, r1, one) && Indexed(s.readSets, r2, two)
    ensures r1 == r2
  {
    forall i | i in r1
      ensures r1[i] == r2[i]
    {
      if i in Ran(one) {
        LastRunIs(one, i);
        LastRunIs(two, i);
        WritesOf(s, f, one, LastRun(one, i).value);
        WritesOf(s, f, two, LastRun(two, i).value);
      }
    }
  }
}
