/** Who read what, kept both ways (crates/borg-engine/src/index.rs), and rebuilt from the log
    (crates/borg-engine/src/projection.rs, `DependencyProjection`). */
module DependencyIndex {
  import opened Core
  import opened Producers

  // One successful run, as the index is told of it.
  datatype Call = Call(branch: BranchId, inv: Invocation, inputs: seq<CellAt>, outputs: seq<CellAt>)

  // What the invocation's latest run on the branch read.
  function LatestReads(calls: seq<Call>, b: BranchId, i: Invocation): Option<seq<CellAt>> {
    if calls == [] then None
    else
      var last := calls[|calls| - 1];
      if last.branch == b && last.inv == i then Some(last.inputs) else LatestReads(calls[..|calls| - 1], b, i)
  }

  // What the latest run that wrote the cell on the branch read.
  function LatestWriter(calls: seq<Call>, b: BranchId, cell: CellAt): Option<seq<CellAt>> {
    if calls == [] then None
    else
      var last := calls[|calls| - 1];
      if last.branch == b && cell in last.outputs then Some(last.inputs) else LatestWriter(calls[..|calls| - 1], b, cell)
  }

  ghost predicate IsLatest(calls: seq<Call>, b: BranchId, i: Invocation, k: nat) {
    && k < |calls| && calls[k].branch == b && calls[k].inv == i
    && (forall j :: k < j < |calls| ==> calls[j].branch != b || calls[j].inv != i)
  }

  ghost predicate IsLatestWrite(calls: seq<Call>, b: BranchId, cell: CellAt, k: nat) {
    && k < |calls| && calls[k].branch == b && cell in calls[k].outputs
    && (forall j :: k < j < |calls| ==> calls[j].branch != b || cell !in calls[j].outputs)
  }

  lemma {:induction false} LatestReadsAre(calls: seq<Call>, b: BranchId, i: Invocation, k: nat)
    requires IsLatest(calls, b, i, k)
    ensures LatestReads(calls, b, i) == Some(calls[k].inputs)
  {
    if k < |calls| - 1 {
      LatestReadsAre(calls[..|calls| - 1], b, i, k);
    }
  }

  lemma {:induction false} LatestWriterIs(calls: seq<Call>, b: BranchId, cell: CellAt, k: nat)
    requires IsLatestWrite(calls, b, cell, k)
    ensures LatestWriter(calls, b, cell) == Some(calls[k].inputs)
  {
    if k < |calls| - 1 {
      LatestWriterIs(calls[..|calls| - 1], b, cell, k);
    }
  }

  // And there is none only where there was never such a call.
  lemma {:induction false} NoneLatest(calls: seq<Call>, b: BranchId, i: Invocation, cell: CellAt)
    ensures LatestReads(calls, b, i).None? <==> forall c :: c in calls ==> c.branch != b || c.inv != i
    ensures LatestWriter(calls, b, cell).None? <==> forall c :: c in calls ==> c.branch != b || cell !in c.outputs
  {
    if calls != [] {
      NoneLatest(calls[..|calls| - 1], b, i, cell);
      assert calls == calls[..|calls| - 1] + [calls[|calls| - 1]];
    }
  }

  type Forward = map<(BranchId, CellAt), set<Invocation>>

  function Edges(forward: Forward, b: BranchId, cell: CellAt): set<Invocation> {
    if (b, cell) in forward then forward[(b, cell)] else {}
  }

  // --- What each table owes the calls made ---

  ghost predicate ReadSetsAgree(calls: seq<Call>, readSets: map<(BranchId, Invocation), seq<CellAt>>) {
    forall b: BranchId, i: Invocation ::
      LatestReads(calls, b, i) == if (b, i) in readSets then Some(readSets[(b, i)]) else None
  }

  ghost predicate ForwardAgrees(calls: seq<Call>, forward: Forward) {
    forall b: BranchId, cell: CellAt, i: Invocation :: i in Edges(forward, b, cell) <==> Subscribes(calls, b, i, cell)
  }

  predicate Subscribes(calls: seq<Call>, b: BranchId, i: Invocation, cell: CellAt) {
    LatestReads(calls, b, i).Some? && cell in LatestReads(calls, b, i).value
  }

  ghost predicate BackwardAgrees(calls: seq<Call>, backward: map<(BranchId, CellAt), seq<CellAt>>) {
    forall b: BranchId, cell: CellAt ::
      LatestWriter(calls, b, cell) == if (b, cell) in backward then Some(backward[(b, cell)]) else None
  }

  // --- The three loops of `record` ---

  // Drops one invocation's edges from the cells it read before.
  method Retract(forward: Forward, b: BranchId, i: Invocation, previous: seq<CellAt>) returns (after: Forward)
    ensures forall c: BranchId, cell: CellAt, j: Invocation :: j in Edges(after, c, cell) <==>
              j in Edges(forward, c, cell) && !(c == b && j == i && cell in previous)
  {
    after := forward;
    for n := 0 to |previous|
      invariant forall c: BranchId, cell: CellAt, j: Invocation :: j in Edges(after, c, cell) <==>
                  j in Edges(forward, c, cell) && !(c == b && j == i && cell in previous[..n])
    {
      assert previous[..n + 1] == previous[..n] + [previous[n]];
      if (b, previous[n]) in after {
        after := after[(b, previous[n]) := after[(b, previous[n])] - {i}];
      }
    }
    assert previous[..|previous|] == previous;
  }

  method Insert(forward: Forward, b: BranchId, i: Invocation, inputs: seq<CellAt>) returns (after: Forward)
    ensures forall c: BranchId, cell: CellAt, j: Invocation :: j in Edges(after, c, cell) <==>
              j in Edges(forward, c, cell) || (c == b && j == i && cell in inputs)
  {
    after := forward;
    for n := 0 to |inputs|
      invariant forall c: BranchId, cell: CellAt, j: Invocation :: j in Edges(after, c, cell) <==>
                  j in Edges(forward, c, cell) || (c == b && j == i && cell in inputs[..n])
    {
      assert inputs[..n + 1] == inputs[..n] + [inputs[n]];
      after := after[(b, inputs[n]) := Edges(after, b, inputs[n]) + {i}];
    }
    assert inputs[..|inputs|] == inputs;
  }

  method Explain(backward: map<(BranchId, CellAt), seq<CellAt>>, call: Call) returns (after: map<(BranchId, CellAt), seq<CellAt>>)
    ensures forall c: BranchId, cell: CellAt ::
              if c == call.branch && cell in call.outputs then (c, cell) in after && after[(c, cell)] == call.inputs
              else ((c, cell) in after <==> (c, cell) in backward) && ((c, cell) in after ==> after[(c, cell)] == backward[(c, cell)])
  {
    after := backward;
    for n := 0 to |call.outputs|
      invariant forall c: BranchId, cell: CellAt ::
                  if c == call.branch && cell in call.outputs[..n] then (c, cell) in after && after[(c, cell)] == call.inputs
                  else ((c, cell) in after <==> (c, cell) in backward) && ((c, cell) in after ==> after[(c, cell)] == backward[(c, cell)])
    {
      assert call.outputs[..n + 1] == call.outputs[..n] + [call.outputs[n]];
      after := after[(call.branch, call.outputs[n]) := call.inputs];
    }
    assert call.outputs[..|call.outputs|] == call.outputs;
  }

  lemma NextCall(calls: seq<Call>, call: Call)
    ensures forall b: BranchId, i: Invocation :: LatestReads(calls + [call], b, i) ==
              if call.branch == b && call.inv == i then Some(call.inputs) else LatestReads(calls, b, i)
    ensures forall b: BranchId, cell: CellAt :: LatestWriter(calls + [call], b, cell) ==
              if call.branch == b && cell in call.outputs then Some(call.inputs) else LatestWriter(calls, b, cell)
  {
    assert (calls + [call])[..|calls|] == calls;
  }

  lemma ForwardNext(calls: seq<Call>, call: Call, forward: Forward, cleared: Forward, after: Forward, previous: seq<CellAt>)
    requires ForwardAgrees(calls, forward)
    requires LatestReads(calls, call.branch, call.inv) == if previous == [] then LatestReads(calls, call.branch, call.inv) else Some(previous)
    requires LatestReads(calls, call.branch, call.inv).Some? ==> LatestReads(calls, call.branch, call.inv).value == previous
    requires forall c: BranchId, cell: CellAt, j: Invocation :: j in Edges(cleared, c, cell) <==>
               j in Edges(forward, c, cell) && !(c == call.branch && j == call.inv && cell in previous)
    requires forall c: BranchId, cell: CellAt, j: Invocation :: j in Edges(after, c, cell) <==>
               j in Edges(cleared, c, cell) || (c == call.branch && j == call.inv && cell in call.inputs)
    ensures ForwardAgrees(calls + [call], after)
  {
    NextCall(calls, call);
    forall b: BranchId, cell: CellAt, i: Invocation
      ensures i in Edges(after, b, cell) <==> Subscribes(calls + [call], b, i, cell)
    {
      assert i in Edges(forward, b, cell) <==> Subscribes(calls, b, i, cell);
    }
  }

  class MemoryDependencyIndex {
    var forward: Forward
    var backward: map<(BranchId, CellAt), seq<CellAt>>
    var readSets: map<(BranchId, Invocation), seq<CellAt>>
    ghost var calls: seq<Call>

    ghost predicate Valid()
      reads this
    {
      ReadSetsAgree(calls, readSets) && ForwardAgrees(calls, forward) && BackwardAgrees(calls, backward)
    }

    constructor ()
      ensures Valid() && calls == []
    {
      forward, backward, readSets, calls := map[], map[], map[], [];
    }

    // The previous run's edges go first, or an invocation that reads less would stay subscribed.
    method Record(call: Call)
      requires Valid()
      modifies this
      ensures Valid() && calls == old(calls) + [call]
    {
      var key := (call.branch, call.inv);
      var previous := if key in readSets then readSets[key] else [];
      assert LatestReads(calls, call.branch, call.inv) == if key in readSets then Some(readSets[key]) else None;
      var cleared := Retract(forward, call.branch, call.inv, previous);
      var after := Insert(cleared, call.branch, call.inv, call.inputs);
      ForwardNext(calls, call, forward, cleared, after, previous);
      NextCall(calls, call);
      forward := after;
      readSets := readSets[key := call.inputs];
      backward := Explain(backward, call);
      calls := calls + [call];
    }

    // Exactly the invocations whose latest run read one of these cells.
    method Dependents(b: BranchId, cells: seq<CellAt>) returns (found: set<Invocation>)
      requires Valid()
      ensures forall i :: i in found <==>
                exists k :: 0 <= k < |cells| && LatestReads(calls, b, i).Some? && cells[k] in LatestReads(calls, b, i).value
    {
      found := {};
      for n := 0 to |cells|
        invariant forall i :: i in found <==> exists k :: 0 <= k < n && Subscribes(calls, b, i, cells[k])
      {
        found := found + Edges(forward, b, cells[n]);
      }
      assert forall i, k :: 0 <= k < |cells| && Subscribes(calls, b, i, cells[k]) ==>
        LatestReads(calls, b, i).Some? && cells[k] in LatestReads(calls, b, i).value;
    }

    // What the latest run to write this cell had read.
    method Dependencies(b: BranchId, cell: CellAt) returns (inputs: seq<CellAt>)
      requires Valid()
      ensures LatestWriter(calls, b, cell) == Some(inputs) || (LatestWriter(calls, b, cell).None? && inputs == [])
    {
      inputs := if (b, cell) in backward then backward[(b, cell)] else [];
    }
  }

  // --- Rebuilding from the log ---

  // A derived event as it landed: which producer wrote it, and what that run had read by then.
  datatype DerivedEvent = DerivedEvent(producer: ProducerId, at: CellAt, readSet: seq<CellAt>)

  // The projection takes the event's own entity for the run's input.
  function CallOf(b: BranchId, e: DerivedEvent): Call {
    Call(b, Invocation(e.producer, e.at.cell.Pid()), e.readSet, [e.at])
  }

  function Rebuilt(b: BranchId, events: seq<DerivedEvent>): seq<Call> {
    seq(|events|, k requires 0 <= k < |events| => CallOf(b, events[k]))
  }

  function EventsFor(events: seq<DerivedEvent>, i: Invocation): seq<DerivedEvent> {
    if events == [] then []
    else
      var last := events[|events| - 1];
      EventsFor(events[..|events| - 1], i)
      + (if last.producer == i.producer && last.at.cell.Pid() == i.input then [last] else [])
  }

  lemma {:induction false} LatestIsLastEvent(b: BranchId, events: seq<DerivedEvent>, i: Invocation)
    ensures var mine := EventsFor(events, i);
            LatestReads(Rebuilt(b, events), b, i) == (if mine == [] then None else Some(mine[|mine| - 1].readSet))
  {
    if events != [] {
      var n := |events| - 1;
      LatestIsLastEvent(b, events[..n], i);
      assert Rebuilt(b, events)[..n] == Rebuilt(b, events[..n]);
    }
  }

  // The cells two answers subscribe an invocation to.
  ghost predicate SameCells(x: Option<seq<CellAt>>, y: Option<seq<CellAt>>) {
    forall cell: CellAt :: (x.Some? && cell in x.value) <==> (y.Some? && cell in y.value)
  }

  // What the last landed event that speaks for the invocation carries.
  function LastSpoken(events: seq<DerivedEvent>, i: Invocation): Option<seq<CellAt>> {
    var mine := EventsFor(events, i);
    if mine == [] then None else Some(mine[|mine| - 1].readSet)
  }

  ghost predicate RebuildAgrees(calls: seq<Call>, b: BranchId, events: seq<DerivedEvent>, i: Invocation) {
    forall cell: CellAt :: Subscribes(Rebuilt(b, events), b, i, cell) <==> Subscribes(calls, b, i, cell)
  }

  // Folding the landed events from nothing subscribes an invocation as the live index does exactly where the
  // last landed event that speaks for it carries the cells of its latest run.
  lemma RebuildAgreesWhen(calls: seq<Call>, b: BranchId, events: seq<DerivedEvent>, i: Invocation)
    ensures RebuildAgrees(calls, b, events, i) <==> SameCells(LastSpoken(events, i), LatestReads(calls, b, i))
  {
    LatestIsLastEvent(b, events, i);
    var rebuilt := LatestReads(Rebuilt(b, events), b, i);
    assert rebuilt == LastSpoken(events, i);
    hide LastSpoken, LatestReads, Rebuilt;
    if RebuildAgrees(calls, b, events, i) {
      forall cell: CellAt
        ensures (rebuilt.Some? && cell in rebuilt.value) <==>
                (LatestReads(calls, b, i).Some? && cell in LatestReads(calls, b, i).value)
      {
        assert Subscribes(Rebuilt(b, events), b, i, cell) <==> Subscribes(calls, b, i, cell);
      }
    }
  }

  function EventsAt(events: seq<DerivedEvent>, cell: CellAt): seq<DerivedEvent> {
    if events == [] then []
    else EventsAt(events[..|events| - 1], cell) + (if events[|events| - 1].at == cell then [events[|events| - 1]] else [])
  }

  // What a rebuild says a cell was computed from is what its last landed event carries.
  lemma {:induction false} RebuiltExplains(b: BranchId, events: seq<DerivedEvent>, cell: CellAt)
    ensures var mine := EventsAt(events, cell);
            LatestWriter(Rebuilt(b, events), b, cell) == (if mine == [] then None else Some(mine[|mine| - 1].readSet))
  {
    if events != [] {
      var n := |events| - 1;
      RebuiltExplains(b, events[..n], cell);
      assert Rebuilt(b, events)[..n] == Rebuilt(b, events[..n]);
    }
  }

  // --- In terms of the runs themselves ---

  datatype Act = Reads(cell: CellAt) | Writes(cell: CellAt)

  // A successful run: what it did, in order, and whether its layer landed.
  datatype Run = Run(branch: BranchId, inv: Invocation, acts: seq<Act>, landed: bool)

  // Each cell once, in the order first read.
  function ReadBy(acts: seq<Act>): seq<CellAt> {
    if acts == [] then []
    else
      var earlier, last := ReadBy(acts[..|acts| - 1]), acts[|acts| - 1];
      if last.Reads? && last.cell !in earlier then earlier + [last.cell] else earlier
  }

  function WrittenBy(acts: seq<Act>): seq<CellAt> {
    if acts == [] then []
    else
      var earlier, last := WrittenBy(acts[..|acts| - 1]), acts[|acts| - 1];
      if last.Writes? && last.cell !in earlier then earlier + [last.cell] else earlier
  }

  // The index is told of a run when it ends, landed or not.
  function CallsOf(runs: seq<Run>): seq<Call> {
    seq(|runs|, k requires 0 <= k < |runs| =>
      Call(runs[k].branch, runs[k].inv, ReadBy(runs[k].acts), WrittenBy(runs[k].acts)))
  }

  predicate OwnWrite(i: Invocation, a: Act) {
    a.Writes? && a.cell.cell.Pid() == i.input
  }

  // The events a run of `i` writes of its own entity, each with what it had read by then.
  function OwnEvents(i: Invocation, acts: seq<Act>): seq<DerivedEvent> {
    if acts == [] then []
    else
      var shorter, last := acts[..|acts| - 1], acts[|acts| - 1];
      OwnEvents(i, shorter) + (if OwnWrite(i, last) then [DerivedEvent(i.producer, last.cell, ReadBy(shorter))] else [])
  }

  // What landed of the invocation's runs on its own entity, in run order.
  function Spoken(runs: seq<Run>, b: BranchId, i: Invocation): seq<DerivedEvent> {
    if runs == [] then []
    else
      var last := runs[|runs| - 1];
      Spoken(runs[..|runs| - 1], b, i)
      + (if last.branch == b && last.inv == i && last.landed then OwnEvents(i, last.acts) else [])
  }

  // Nobody else writes the invocation's entity, and its runs land in the order they ran. Between invocations
  // the merge may order events as it likes.
  ghost predicate LandsInOrder(runs: seq<Run>, b: BranchId, events: seq<DerivedEvent>, i: Invocation) {
    EventsFor(events, i) == Spoken(runs, b, i)
  }

  // What a run wrote, whatever it wrote, each event with what the run had read by then.
  function WroteEvents(producer: ProducerId, acts: seq<Act>): seq<DerivedEvent> {
    if acts == [] then []
    else
      var shorter, last := acts[..|acts| - 1], acts[|acts| - 1];
      WroteEvents(producer, shorter) + (if last.Writes? then [DerivedEvent(producer, last.cell, ReadBy(shorter))] else [])
  }

  // Everything the branch's landed runs wrote, run after run.
  function Landed(runs: seq<Run>, b: BranchId): seq<DerivedEvent> {
    if runs == [] then []
    else
      var last := runs[|runs| - 1];
      Landed(runs[..|runs| - 1], b) + (if last.branch == b && last.landed then WroteEvents(last.inv.producer, last.acts) else [])
  }

  // No other invocation of the producer writes this one's entity.
  ghost predicate OthersKeepOff(runs: seq<Run>, b: BranchId, i: Invocation) {
    forall r, a :: r in runs && r.branch == b && r.landed && r.inv != i && r.inv.producer == i.producer && a in r.acts ==>
      !OwnWrite(i, a)
  }

  lemma {:induction false} EventsAppend(events: seq<DerivedEvent>, more: seq<DerivedEvent>, i: Invocation)
    ensures EventsFor(events + more, i) == EventsFor(events, i) + EventsFor(more, i)
  {
    if more == [] {
      assert events + more == events;
    } else {
      EventsAppend(events, more[..|more| - 1], i);
      assert (events + more)[..|events + more| - 1] == events + more[..|more| - 1];
    }
  }

  // Of what its own run wrote, an invocation's events are those of its entity.
  lemma {:induction false} OwnAreThose(i: Invocation, acts: seq<Act>)
    ensures EventsFor(WroteEvents(i.producer, acts), i) == OwnEvents(i, acts)
  {
    if acts != [] {
      var shorter, last := acts[..|acts| - 1], acts[|acts| - 1];
      OwnAreThose(i, shorter);
      if last.Writes? {
        EventsAppend(WroteEvents(i.producer, shorter), [DerivedEvent(i.producer, last.cell, ReadBy(shorter))], i);
        OneEvent(DerivedEvent(i.producer, last.cell, ReadBy(shorter)), i);
      } else {
        assert WroteEvents(i.producer, acts) == WroteEvents(i.producer, shorter);
      }
    }
  }

  lemma OneEvent(e: DerivedEvent, i: Invocation)
    ensures EventsFor([e], i) == if e.producer == i.producer && e.at.cell.Pid() == i.input then [e] else []
  {
    assert [e][..0] == [];
    assert EventsFor([e][..0], i) == [];
  }

  lemma {:induction false} NoneAreThose(i: Invocation, producer: ProducerId, acts: seq<Act>)
    requires producer != i.producer || forall a :: a in acts ==> !OwnWrite(i, a)
    ensures EventsFor(WroteEvents(producer, acts), i) == []
  {
    if acts != [] {
      var shorter, last := acts[..|acts| - 1], acts[|acts| - 1];
      NoneAreThose(i, producer, shorter);
      if last.Writes? {
        EventsAppend(WroteEvents(producer, shorter), [DerivedEvent(producer, last.cell, ReadBy(shorter))], i);
        OneEvent(DerivedEvent(producer, last.cell, ReadBy(shorter)), i);
        assert last in acts;
      } else {
        assert WroteEvents(producer, acts) == WroteEvents(producer, shorter);
      }
    }
  }

  // So what a branch's runs land speaks for each of them, where no other invocation writes its entity.
  lemma {:induction false} RunsLandInOrder(runs: seq<Run>, b: BranchId, i: Invocation)
    requires OthersKeepOff(runs, b, i)
    ensures LandsInOrder(runs, b, Landed(runs, b), i)
  {
    if runs != [] {
      var shorter, last := runs[..|runs| - 1], runs[|runs| - 1];
      RunsLandInOrder(shorter, b, i);
      if last.branch == b && last.landed {
        EventsAppend(Landed(shorter, b), WroteEvents(last.inv.producer, last.acts), i);
        if last.inv == i {
          OwnAreThose(i, last.acts);
        } else {
          assert last in runs;
          NoneAreThose(i, last.inv.producer, last.acts);
        }
      } else {
        assert Landed(runs, b) == Landed(shorter, b);
      }
    }
  }

  // A read-set names each cell once, in the order of first reads.
  lemma {:induction false} ReadByOnce(acts: seq<Act>)
    ensures forall j, k :: 0 <= j < k < |ReadBy(acts)| ==> ReadBy(acts)[j] != ReadBy(acts)[k]
    ensures forall n :: 0 <= n <= |acts| ==> ReadBy(acts[..n]) <= ReadBy(acts)
  {
    if acts != [] {
      var shorter := acts[..|acts| - 1];
      ReadByOnce(shorter);
      forall n | 0 <= n <= |acts|
        ensures ReadBy(acts[..n]) <= ReadBy(acts)
      {
        if n < |acts| {
          assert acts[..n] == shorter[..n];
        } else {
          assert acts[..n] == acts;
        }
      }
    }
  }

  // So does what it wrote.
  lemma {:induction false} WrittenByOnce(acts: seq<Act>)
    ensures forall j, k :: 0 <= j < k < |WrittenBy(acts)| ==> WrittenBy(acts)[j] != WrittenBy(acts)[k]
    ensures forall cell :: cell in WrittenBy(acts) <==> Writes(cell) in acts
  {
    if acts != [] {
      WrittenByOnce(acts[..|acts| - 1]);
      assert acts == acts[..|acts| - 1] + [acts[|acts| - 1]];
    }
  }

  function LatestRun(runs: seq<Run>, b: BranchId, i: Invocation): Option<Run> {
    if runs == [] then None
    else
      var last := runs[|runs| - 1];
      if last.branch == b && last.inv == i then Some(last) else LatestRun(runs[..|runs| - 1], b, i)
  }

  lemma {:induction false} LatestRunIs(runs: seq<Run>, b: BranchId, i: Invocation)
    ensures LatestReads(CallsOf(runs), b, i) ==
            if LatestRun(runs, b, i).Some? then Some(ReadBy(LatestRun(runs, b, i).value.acts)) else None
  {
    if runs != [] {
      var n := |runs| - 1;
      LatestRunIs(runs[..n], b, i);
      assert CallsOf(runs)[..n] == CallsOf(runs[..n]);
    }
  }

  lemma {:induction false} LatestSpeaksLast(runs: seq<Run>, b: BranchId, i: Invocation)
    requires LatestRun(runs, b, i).Some? && LatestRun(runs, b, i).value.landed
    requires OwnEvents(i, LatestRun(runs, b, i).value.acts) != []
    ensures var own := OwnEvents(i, LatestRun(runs, b, i).value.acts);
            Spoken(runs, b, i) != [] && Spoken(runs, b, i)[|Spoken(runs, b, i)| - 1] == own[|own| - 1]
  {
    var last := runs[|runs| - 1];
    if !(last.branch == b && last.inv == i) {
      LatestSpeaksLast(runs[..|runs| - 1], b, i);
    }
  }

  ghost predicate LastOwnWrite(i: Invocation, acts: seq<Act>, n: nat) {
    && n < |acts| && OwnWrite(i, acts[n])
    && forall k :: n < k < |acts| ==> !OwnWrite(i, acts[k])
  }

  lemma {:induction false} LastOwnEvent(i: Invocation, acts: seq<Act>, n: nat)
    requires LastOwnWrite(i, acts, n)
    ensures var own := OwnEvents(i, acts); own != [] && own[|own| - 1].readSet == ReadBy(acts[..n])
    decreases |acts|
  {
    var last := |acts| - 1;
    if n < last {
      LastOwnEvent(i, acts[..last], n);
      assert acts[..last][..n] == acts[..n];
    }
  }

  lemma {:induction false} ReadByIs(acts: seq<Act>, cell: CellAt)
    ensures cell in ReadBy(acts) <==> Reads(cell) in acts
  {
    if acts != [] {
      ReadByIs(acts[..|acts| - 1], cell);
      assert acts == acts[..|acts| - 1] + [acts[|acts| - 1]];
    }
  }

  // After its last write to its own entity a run reads nothing it had not read before.
  ghost predicate NothingNewAfter(acts: seq<Act>, n: nat)
    requires n < |acts|
  {
    forall k :: n < k < |acts| && acts[k].Reads? ==> acts[k] in acts[..n]
  }

  // Where the invocation's latest run landed, the rebuild agrees exactly if that run read nothing new after its
  // last write to its own entity. Where it did not land, or wrote nothing of its own, an earlier run speaks for
  // it, and the rebuild agrees exactly if that one had read the same cells by its last own write.
  lemma RunsRebuildWhen(runs: seq<Run>, b: BranchId, events: seq<DerivedEvent>, i: Invocation)
    requires LandsInOrder(runs, b, events, i)
    ensures RebuildAgrees(CallsOf(runs), b, events, i) <==>
            SameCells(if Spoken(runs, b, i) == [] then None else Some(Spoken(runs, b, i)[|Spoken(runs, b, i)| - 1].readSet),
                      if LatestRun(runs, b, i).None? then None else Some(ReadBy(LatestRun(runs, b, i).value.acts)))
    ensures forall n :: LatestRun(runs, b, i).Some? && LatestRun(runs, b, i).value.landed
                        && LastOwnWrite(i, LatestRun(runs, b, i).value.acts, n) ==>
              (RebuildAgrees(CallsOf(runs), b, events, i) <==> NothingNewAfter(LatestRun(runs, b, i).value.acts, n))
  {
    hide RebuildAgrees, Spoken, EventsFor, LatestReads, CallsOf, LatestRun, OwnEvents, NothingNewAfter;
    RebuildAgreesWhen(CallsOf(runs), b, events, i);
    LatestRunIs(runs, b, i);
    forall n | LatestRun(runs, b, i).Some? && LatestRun(runs, b, i).value.landed
               && LastOwnWrite(i, LatestRun(runs, b, i).value.acts, n)
      ensures RebuildAgrees(CallsOf(runs), b, events, i) <==> NothingNewAfter(LatestRun(runs, b, i).value.acts, n)
    {
      var acts := LatestRun(runs, b, i).value.acts;
      LastOwnEvent(i, acts, n);
      LatestSpeaksLast(runs, b, i);
      NothingNewIs(acts, n);
    }
  }

  lemma NothingNewIs(acts: seq<Act>, n: nat)
    requires n < |acts| && acts[n].Writes?
    ensures SameCells(Some(ReadBy(acts[..n])), Some(ReadBy(acts))) <==> NothingNewAfter(acts, n)
  {
    hide ReadBy;
    forall cell: CellAt
      ensures cell in ReadBy(acts[..n]) <==> Reads(cell) in acts[..n]
      ensures cell in ReadBy(acts) <==> Reads(cell) in acts
    {
      ReadByIs(acts[..n], cell);
      ReadByIs(acts, cell);
    }
    if SameCells(Some(ReadBy(acts[..n])), Some(ReadBy(acts))) {
      forall k | n < k < |acts| && acts[k].Reads?
        ensures acts[k] in acts[..n]
      {
        assert acts[k] in acts && acts[k] == Reads(acts[k].cell);
        assert acts[k].cell in ReadBy(acts);
      }
    }
    if NothingNewAfter(acts, n) {
      forall cell: CellAt
        ensures cell in ReadBy(acts[..n]) <==> cell in ReadBy(acts)
      {
        if Reads(cell) in acts {
          var k :| 0 <= k < |acts| && acts[k] == Reads(cell);
          if k < n {
            assert acts[..n][k] == acts[k];
          }
        }
        if Reads(cell) in acts[..n] {
          var k :| 0 <= k < n && acts[..n][k] == Reads(cell);
          assert acts[k] == Reads(cell);
        }
      }
    }
  }

  // So a run that writes its entity and then reads on is forgotten: the live index has the later read and the
  // rebuilt one has not.
  lemma EarlyWriteForgets(b: BranchId, i: Invocation, own: CellAt, late: CellAt)
    requires own.cell.Pid() == i.input
    ensures var runs := [Run(b, i, [Writes(own), Reads(late)], true)];
            var events := [DerivedEvent(i.producer, own, [])];
            && LandsInOrder(runs, b, events, i) && !RebuildAgrees(CallsOf(runs), b, events, i)
            && Subscribes(CallsOf(runs), b, i, late) && !Subscribes(Rebuilt(b, events), b, i, late)
  {
    var acts := [Writes(own), Reads(late)];
    var runs, events := [Run(b, i, acts, true)], [DerivedEvent(i.producer, own, [])];
    assert runs[..0] == [] && events[..0] == [] && acts[..1] == [Writes(own)] && acts[..0] == [] && [Writes(own)][..0] == [];
    assert OwnEvents(i, [Writes(own)]) == events;
    assert OwnEvents(i, acts) == events;
    assert Spoken(runs, b, i) == Spoken(runs[..0], b, i) + OwnEvents(i, acts);
    assert EventsFor(events, i) == EventsFor(events[..0], i) + events;
    assert ReadBy([Writes(own)]) == [];
    assert ReadBy(acts) == [late];
    assert LatestReads(CallsOf(runs), b, i) == Some([late]);
    assert Rebuilt(b, events) == [Call(b, i, [], [own])];
    assert LatestReads(Rebuilt(b, events), b, i) == Some([]);
    assert LandsInOrder(runs, b, events, i);
    assert Subscribes(CallsOf(runs), b, i, late) && !Subscribes(Rebuilt(b, events), b, i, late);
    assert !RebuildAgrees(CallsOf(runs), b, events, i);
  }
}
