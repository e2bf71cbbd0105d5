/** What every run keeps about which layer names which event, so one forward pass exports it. */
module Lineage {
  // crates/borg-engine/src/{log,branch}.rs, crates/borg-host/src/stream.rs.
  import opened Core
  import Log
  import P = PidText
  import Schema
  import S = Stream

  // A layer and what it holds so far. The layer at index k has id k + 1: ids are handed out in order.
  datatype Draft = Draft(meta: S.LayerMeta, state: Log.LayerState, defs: seq<Schema.DefEvent>, members: seq<EventId>)

  datatype Registry = Registry(side: S.Sidecars, branches: seq<S.BranchRow>, layers: seq<Draft>,
                               events: S.Events, interned: S.Interned, nextEvent: EventId)

  const EMPTY: Registry := Registry(S.Sidecars(0, 0, [], [], []), [], [], map[], map[], 1)

  datatype Step =
    // Branch ids only grow.
    | Fork(id: BranchId, name: Option<string>, origin: Option<LayerId>)
    | OpenLayer(branch: BranchId, kind: Log.LayerKind, author: Author, parent: Option<LayerId>, guards: seq<S.Guard>)
    | Write(layer: LayerId, at: CellAt, value: Value, derivation: Option<Derivation>)
    | Define(layer: LayerId, def: Schema.DefEvent)
    | Commit(layer: LayerId)
    | Abort(layer: LayerId)
    // A merge: one new layer naming what the given committed layers name, committed in the same step.
    | Land(branch: BranchId, kind: Log.LayerKind, author: Author, parent: Option<LayerId>, sources: seq<LayerId>)
    | Intern(contentKind: PidKind, bytes: seq<Byte>)
    | Configure(side: S.Sidecars)

  predicate IsOpen(r: Registry, id: LayerId, kind: Log.LayerKind) {
    0 < id <= |r.layers| && r.layers[id - 1].state == Log.Open && r.layers[id - 1].meta.kind == kind
  }

  predicate IsCommitted(r: Registry, id: LayerId) {
    0 < id <= |r.layers| && r.layers[id - 1].state == Log.Committed
  }

  // Content addressing keeps the kind and gives a 32-byte name.
  ghost predicate Addresses(hash: S.Hash, kind: PidKind, bytes: seq<Byte>) {
    P.WellFormed(hash(kind, bytes)) && hash(kind, bytes).kind == kind
  }

  ghost predicate Enabled(hash: S.Hash, r: Registry, step: Step) {
    match step
    case Fork(id, _, _) => forall k :: 0 <= k < |r.branches| ==> r.branches[k].id < id
    case OpenLayer(_, _, _, _, _) => true
    case Write(layer, _, value, _) => IsOpen(r, layer, Log.ValueLayer) && (value.Ref? ==> P.WellFormed(value.pid))
    case Define(layer, _) => IsOpen(r, layer, Log.DefLayer)
    case Commit(layer) => IsOpen(r, layer, Log.ValueLayer) || IsOpen(r, layer, Log.DefLayer)
    case Abort(layer) => IsOpen(r, layer, Log.ValueLayer) || IsOpen(r, layer, Log.DefLayer)
    case Land(_, kind, _, _, sources) =>
      forall id :: id in sources ==> IsCommitted(r, id) && r.layers[id - 1].meta.kind == kind
    case Intern(kind, bytes) => Addresses(hash, kind, bytes)
    case Configure(_) => true
  }

  function GatherMembers(layers: seq<Draft>, sources: seq<LayerId>): seq<EventId>
    requires forall id :: id in sources ==> 0 < id <= |layers|
  {
    if sources == [] then []
    else
      var earlier, last := sources[..|sources| - 1], sources[|sources| - 1];
      assert last in sources && forall id :: id in earlier ==> id in sources;
      GatherMembers(layers, earlier) + layers[last - 1].members
  }

  function GatherDefs(layers: seq<Draft>, sources: seq<LayerId>): seq<Schema.DefEvent>
    requires forall id :: id in sources ==> 0 < id <= |layers|
  {
    if sources == [] then []
    else
      var earlier, last := sources[..|sources| - 1], sources[|sources| - 1];
      assert last in sources && forall id :: id in earlier ==> id in sources;
      GatherDefs(layers, earlier) + layers[last - 1].defs
  }

  // Aborting drops the layer's own events and its membership; events it merely named stay.
  function WithoutAuthored(events: S.Events, layer: LayerId): S.Events {
    map m | m in events && events[m].authored != layer :: events[m]
  }

  ghost function Apply(hash: S.Hash, r: Registry, step: Step): Registry
    requires Enabled(hash, r, step)
  {
    match step
    case Fork(id, name, origin) => r.(branches := r.branches + [S.BranchRow(id, name, origin)])
    case OpenLayer(branch, kind, author, parent, guards) =>
      r.(layers := r.layers + [Draft(S.LayerMeta(|r.layers| + 1, branch, kind, author, parent, guards), Log.Open, [], [])])
    case Write(layer, at, value, derivation) =>
      var d := r.layers[layer - 1];
      r.(layers := r.layers[layer - 1 := d.(members := d.members + [r.nextEvent])],
         events := r.events[r.nextEvent := Event(r.nextEvent, at, value, derivation, layer)],
         nextEvent := r.nextEvent + 1)
    case Define(layer, def) =>
      var d := r.layers[layer - 1];
      r.(layers := r.layers[layer - 1 := d.(defs := d.defs + [def])])
    case Commit(layer) =>
      r.(layers := r.layers[layer - 1 := r.layers[layer - 1].(state := Log.Committed)])
    case Abort(layer) =>
      r.(layers := r.layers[layer - 1 := r.layers[layer - 1].(state := Log.Aborted, defs := [], members := [])],
         events := WithoutAuthored(r.events, layer))
    case Land(branch, kind, author, parent, sources) =>
      r.(layers := r.layers + [Draft(S.LayerMeta(|r.layers| + 1, branch, kind, author, parent, []), Log.Committed,
                                     GatherDefs(r.layers, sources), GatherMembers(r.layers, sources))])
    case Intern(kind, bytes) => r.(interned := r.interned[hash(kind, bytes) := bytes])
    case Configure(side) => r.(side := side)
  }

  ghost predicate Follows(hash: S.Hash, before: Registry, step: Step, after: Registry) {
    Enabled(hash, before, step) && Apply(hash, before, step) == after
  }

  // A run of the engine from an empty registry, and every registry it passes through.
  ghost predicate Run(hash: S.Hash, trace: seq<Registry>, steps: seq<Step>) {
    && |trace| == |steps| + 1 && trace[0] == EMPTY
    && forall k :: 0 <= k < |steps| ==> Follows(hash, trace[k], steps[k], trace[k + 1])
  }

  // --- The invariant ---

  // A layer names its own events, and events of committed layers below it that name them too.
  ghost predicate Names(layers: seq<Draft>, events: S.Events, id: LayerId, m: EventId) {
    && m in events && events[m].id == m && S.EventOk(events[m])
    && var home := events[m].authored;
       home == id || (0 < home < id && home <= |layers| && layers[home - 1].state == Log.Committed && m in layers[home - 1].members)
  }

  // Its own events it names once.
  ghost predicate Once(events: S.Events, id: LayerId, members: seq<EventId>) {
    forall a, b :: 0 <= a < b < |members| && members[a] in events && events[members[a]].authored == id ==> members[a] != members[b]
  }

  ghost predicate DraftOk(layers: seq<Draft>, events: S.Events, k: nat)
    requires k < |layers|
  {
    && layers[k].meta.id == k + 1
    && (if layers[k].meta.kind == Log.DefLayer then layers[k].members == [] else layers[k].defs == [])
    && (forall m :: m in layers[k].members ==> Names(layers, events, k + 1, m))
    && Once(events, k + 1, layers[k].members)
  }

  ghost predicate DraftsOk(layers: seq<Draft>, events: S.Events, next: EventId) {
    && (forall k :: 0 <= k < |layers| ==> DraftOk(layers, events, k))
    && (forall m :: m in events ==> m < next && 0 < events[m].authored <= |layers|)
  }

  ghost predicate Kept(hash: S.Hash, r: Registry) {
    && DraftsOk(r.layers, r.events, r.nextEvent)
    && S.ById(r.branches)
    && (forall pid :: pid in r.interned ==> P.WellFormed(pid) && hash(pid.kind, r.interned[pid]) == pid)
  }

  lemma WriteKeeps(layers: seq<Draft>, events: S.Events, next: EventId, id: LayerId, e: Event)
    requires DraftsOk(layers, events, next) && e.id == next && e.authored == id && S.EventOk(e)
    requires 0 < id <= |layers| && layers[id - 1].state == Log.Open && layers[id - 1].meta.kind == Log.ValueLayer
    ensures DraftsOk(layers[id - 1 := layers[id - 1].(members := layers[id - 1].members + [next])], events[next := e], next + 1)
  {
    var layers' := layers[id - 1 := layers[id - 1].(members := layers[id - 1].members + [next])];
    var events' := events[next := e];
    hide S.EventOk;
    forall k | 0 <= k < |layers'|
      ensures DraftOk(layers', events', k)
    {
      assert DraftOk(layers, events, k);
      assert next !in layers[k].members by {
        assert forall m :: m in layers[k].members ==> Names(layers, events, k + 1, m);
      }
      forall m | m in layers'[k].members
        ensures Names(layers', events', k + 1, m)
      {
        assert m in layers[k].members ==> Names(layers, events, k + 1, m);
      }
      assert Once(events', k + 1, layers'[k].members) by {
        assert forall m :: m in layers[k].members ==> Names(layers, events, k + 1, m);
      }
    }
  }

  lemma AbortKeeps(layers: seq<Draft>, events: S.Events, next: EventId, id: LayerId)
    requires DraftsOk(layers, events, next) && 0 < id <= |layers| && layers[id - 1].state == Log.Open
    ensures DraftsOk(layers[id - 1 := layers[id - 1].(state := Log.Aborted, defs := [], members := [])], WithoutAuthored(events, id), next)
  {
    var layers' := layers[id - 1 := layers[id - 1].(state := Log.Aborted, defs := [], members := [])];
    var events' := WithoutAuthored(events, id);
    hide S.EventOk;
    forall k | 0 <= k < |layers'|
      ensures DraftOk(layers', events', k)
    {
      assert DraftOk(layers, events, k);
      forall m | m in layers'[k].members
        ensures Names(layers', events', k + 1, m)
      {
        assert Names(layers, events, k + 1, m);
      }
    }
  }

  // Committing, or a def event more, changes no membership and un-commits nothing.
  lemma RelabelKeeps(layers: seq<Draft>, events: S.Events, next: EventId, id: LayerId, d: Draft)
    requires DraftsOk(layers, events, next) && 0 < id <= |layers| && layers[id - 1].state == Log.Open
    requires d.meta == layers[id - 1].meta && d.members == layers[id - 1].members
    requires d.meta.kind == Log.ValueLayer ==> d.defs == layers[id - 1].defs
    ensures DraftsOk(layers[id - 1 := d], events, next)
  {
    var layers' := layers[id - 1 := d];
    hide S.EventOk;
    forall k | 0 <= k < |layers'|
      ensures DraftOk(layers', events, k)
    {
      assert DraftOk(layers, events, k);
      forall m | m in layers'[k].members
        ensures Names(layers', events, k + 1, m)
      {
        assert Names(layers, events, k + 1, m);
      }
    }
  }

  // A new layer above every other may name whatever committed layers name.
  lemma AppendKeeps(layers: seq<Draft>, events: S.Events, next: EventId, d: Draft)
    requires DraftsOk(layers, events, next) && d.meta.id == |layers| + 1
    requires if d.meta.kind == Log.DefLayer then d.members == [] else d.defs == []
    requires forall m :: m in d.members ==> exists k :: 0 <= k < |layers| && layers[k].state == Log.Committed && m in layers[k].members
    ensures DraftsOk(layers + [d], events, next)
  {
    var layers' := layers + [d];
    hide S.EventOk;
    forall k | 0 <= k < |layers'|
      ensures DraftOk(layers', events, k)
    {
      if k < |layers| {
        assert DraftOk(layers, events, k) && layers'[k] == layers[k];
        forall m | m in layers'[k].members
          ensures Names(layers', events, k + 1, m)
        {
          assert Names(layers, events, k + 1, m);
        }
      } else {
        forall m | m in d.members
          ensures Names(layers', events, k + 1, m)
        {
          var j :| 0 <= j < |layers| && layers[j].state == Log.Committed && m in layers[j].members;
          assert DraftOk(layers, events, j) && Names(layers, events, j + 1, m);
          assert layers'[j] == layers[j];
        }
      }
    }
  }

  lemma {:induction false} Gathered(layers: seq<Draft>, sources: seq<LayerId>, kind: Log.LayerKind)
    requires forall id :: id in sources ==> 0 < id <= |layers| && layers[id - 1].state == Log.Committed && layers[id - 1].meta.kind == kind
    requires forall k :: 0 <= k < |layers| ==>
               if layers[k].meta.kind == Log.DefLayer then layers[k].members == [] else layers[k].defs == []
    ensures forall m :: m in GatherMembers(layers, sources) ==>
              exists k :: 0 <= k < |layers| && layers[k].state == Log.Committed && m in layers[k].members
    ensures if kind == Log.DefLayer then GatherMembers(layers, sources) == [] else GatherDefs(layers, sources) == []
  {
    if sources != [] {
      var last := sources[|sources| - 1];
      var earlier := sources[..|sources| - 1];
      assert last in sources && forall id :: id in earlier ==> id in sources;
      Gathered(layers, earlier, kind);
    }
  }

  lemma StepKeeps(hash: S.Hash, r: Registry, step: Step)
    requires Kept(hash, r) && Enabled(hash, r, step)
    ensures Kept(hash, Apply(hash, r, step))
  {
    hide DraftsOk, S.EventOk, GatherMembers, GatherDefs;
    match step
    case Fork(id, name, origin) =>
    case OpenLayer(branch, kind, author, parent, guards) =>
      AppendKeeps(r.layers, r.events, r.nextEvent,
                  Draft(S.LayerMeta(|r.layers| + 1, branch, kind, author, parent, guards), Log.Open, [], []));
    case Write(layer, at, value, derivation) =>
      var e := Event(r.nextEvent, at, value, derivation, layer);
      ValueOk(e);
      WriteKeeps(r.layers, r.events, r.nextEvent, layer, e);
    case Define(layer, def) =>
      var d := r.layers[layer - 1];
      RelabelKeeps(r.layers, r.events, r.nextEvent, layer, d.(defs := d.defs + [def]));
    case Commit(layer) =>
      RelabelKeeps(r.layers, r.events, r.nextEvent, layer, r.layers[layer - 1].(state := Log.Committed));
    case Abort(layer) =>
      AbortKeeps(r.layers, r.events, r.nextEvent, layer);
    case Land(branch, kind, author, parent, sources) =>
      KindsApart(r.layers, r.events, r.nextEvent);
      Gathered(r.layers, sources, kind);
      AppendKeeps(r.layers, r.events, r.nextEvent,
                  Draft(S.LayerMeta(|r.layers| + 1, branch, kind, author, parent, []), Log.Committed,
                        GatherDefs(r.layers, sources), GatherMembers(r.layers, sources)));
    case Intern(kind, bytes) =>
    case Configure(side) =>
  }

  lemma ValueOk(e: Event)
    requires e.value.Ref? ==> P.WellFormed(e.value.pid)
    ensures S.EventOk(e)
  {
  }

  lemma KindsApart(layers: seq<Draft>, events: S.Events, next: EventId)
    requires DraftsOk(layers, events, next)
    ensures forall k :: 0 <= k < |layers| ==> if layers[k].meta.kind == Log.DefLayer then layers[k].members == [] else layers[k].defs == []
  {
    hide Names, Once;
    forall k | 0 <= k < |layers|
      ensures if layers[k].meta.kind == Log.DefLayer then layers[k].members == [] else layers[k].defs == []
    {
      assert DraftOk(layers, events, k);
    }
  }

  lemma {:induction false} EveryRunKeeps(hash: S.Hash, trace: seq<Registry>, steps: seq<Step>, k: nat)
    requires Run(hash, trace, steps) && k < |trace|
    ensures Kept(hash, trace[k])
  {
    hide Apply, Enabled;
    if k > 0 {
      EveryRunKeeps(hash, trace, steps, k - 1);
      assert Follows(hash, trace[k - 1], steps[k - 1], trace[k - 1 + 1]);
      StepKeeps(hash, trace[k - 1], steps[k - 1]);
    }
  }

  // What a merge's layer names, source after source.
  lemma GatherNext(layers: seq<Draft>, sources: seq<LayerId>, last: LayerId)
    requires (forall id :: id in sources ==> 0 < id <= |layers|) && 0 < last <= |layers|
    ensures forall id :: id in sources + [last] ==> 0 < id <= |layers|
    ensures GatherMembers(layers, sources + [last]) == GatherMembers(layers, sources) + layers[last - 1].members
    ensures GatherDefs(layers, sources + [last]) == GatherDefs(layers, sources) + layers[last - 1].defs
  {
    assert (sources + [last])[..|sources|] == sources;
  }

  // Every event stored is in the membership of the layer that authored it, and that layer was not aborted.
  ghost predicate Homed(layers: seq<Draft>, events: S.Events) {
    forall m :: m in events ==> IsHome(layers, events[m].authored, m)
  }

  predicate IsHome(layers: seq<Draft>, home: LayerId, m: EventId) {
    0 < home <= |layers| && layers[home - 1].state != Log.Aborted && m in layers[home - 1].members
  }

  lemma StepHomes(hash: S.Hash, r: Registry, step: Step)
    requires Homed(r.layers, r.events) && Enabled(hash, r, step)
    ensures Homed(Apply(hash, r, step).layers, Apply(hash, r, step).events)
  {
    hide GatherMembers, GatherDefs, Addresses;
    var r' := Apply(hash, r, step);
    forall m | m in r'.events
      ensures IsHome(r'.layers, r'.events[m].authored, m)
    {
      assert m in r.events ==> IsHome(r.layers, r.events[m].authored, m);
    }
  }

  // In every state of every run, so an abort leaves none of its events behind.
  lemma {:induction false} EveryEventIsHome(hash: S.Hash, trace: seq<Registry>, steps: seq<Step>, k: nat)
    requires Run(hash, trace, steps) && k < |trace|
    ensures Homed(trace[k].layers, trace[k].events)
  {
    hide Apply, Enabled;
    if k > 0 {
      EveryEventIsHome(hash, trace, steps, k - 1);
      assert Follows(hash, trace[k - 1], steps[k - 1], trace[k - 1 + 1]);
      StepHomes(hash, trace[k - 1], steps[k - 1]);
    }
  }

  // --- What an export walks ---

  function StoredOf(d: Draft): S.StoredLayer {
    S.StoredLayer(d.meta, d.defs, d.members)
  }

  // The committed layers, in ascending id.
  function CommittedOf(layers: seq<Draft>): seq<S.StoredLayer> {
    if layers == [] then []
    else
      var last := layers[|layers| - 1];
      CommittedOf(layers[..|layers| - 1]) + (if last.state == Log.Committed then [StoredOf(last)] else [])
  }

  function Snapshot(r: Registry): S.Store {
    S.Store(r.side, r.branches, CommittedOf(r.layers), r.events, r.interned)
  }

  // Where the walk finds the k-th layer.
  lemma {:induction false} FoundAt(layers: seq<Draft>, k: nat)
    requires k < |layers| && layers[k].state == Log.Committed
    ensures |CommittedOf(layers[..k])| < |CommittedOf(layers)|
    ensures CommittedOf(layers)[|CommittedOf(layers[..k])|] == StoredOf(layers[k])
  {
    if k < |layers| - 1 {
      var shorter := layers[..|layers| - 1];
      assert shorter[..k] == layers[..k];
      FoundAt(shorter, k);
    }
  }

  lemma {:induction false} FoundFrom(layers: seq<Draft>, a: nat) returns (k: nat)
    requires a < |CommittedOf(layers)|
    ensures k < |layers| && layers[k].state == Log.Committed && |CommittedOf(layers[..k])| == a
  {
    var shorter := layers[..|layers| - 1];
    if a < |CommittedOf(shorter)| {
      k := FoundFrom(shorter, a);
      assert shorter[..k] == layers[..k];
    } else {
      k := |layers| - 1;
    }
  }

  lemma {:induction false} WalksInOrder(layers: seq<Draft>)
    requires forall k :: 0 <= k < |layers| ==> layers[k].meta.id == k + 1
    ensures forall a :: 0 <= a < |CommittedOf(layers)| ==> CommittedOf(layers)[a].meta.id <= |layers|
    ensures forall a, b :: 0 <= a < b < |CommittedOf(layers)| ==> CommittedOf(layers)[a].meta.id < CommittedOf(layers)[b].meta.id
  {
    if layers != [] {
      WalksInOrder(layers[..|layers| - 1]);
    }
  }

  lemma AheadOf(layers: seq<Draft>, j: nat, k: nat)
    requires j < k <= |layers| && layers[j].state == Log.Committed
    ensures |CommittedOf(layers[..j])| < |CommittedOf(layers[..k])|
  {
    assert layers[..k][..j] == layers[..j];
    FoundAt(layers[..k], j);
  }

  // An event authored in an earlier committed layer has been met by the time another names it.
  lemma MetBefore(r: Registry, j: nat, a: nat, m: EventId)
    requires j < |r.layers| && r.layers[j].state == Log.Committed && r.layers[j].meta.id == j + 1
    requires m in r.layers[j].members && m in r.events && r.events[m].authored == j + 1
    requires |CommittedOf(r.layers[..j])| < a <= |CommittedOf(r.layers)|
    ensures m in S.OwnBefore(Snapshot(r), a)
  {
    hide CommittedOf, S.OwnBefore, S.ContentBefore;
    var s, p := Snapshot(r), |CommittedOf(r.layers[..j])|;
    FoundAt(r.layers, j);
    assert s.layers[p] == StoredOf(r.layers[j]);
    assert m in S.Own(s, s.layers[p].meta.id, s.layers[p].members);
    S.OwnIsGathered(s, p, m);
    S.GatheredStays(s, p + 1, a);
  }

  lemma WalkIsBackwards(r: Registry, a: nat)
    requires DraftsOk(r.layers, r.events, r.nextEvent) && a < |CommittedOf(r.layers)|
    ensures var l := CommittedOf(r.layers)[a];
            && S.Backwards(Snapshot(r), a) && S.Unmet(Snapshot(r), l.meta.id, map[], l.members)
            && (if l.meta.kind == Log.DefLayer then l.members == [] else l.defs == [])
  {
    hide CommittedOf, S.EventOk, S.OwnBefore;
    var k := FoundFrom(r.layers, a);
    FoundAt(r.layers, k);
    assert DraftOk(r.layers, r.events, k);
    forall m | m in r.layers[k].members && r.events[m].authored != k + 1
      ensures m in S.OwnBefore(Snapshot(r), a)
    {
      assert Names(r.layers, r.events, k + 1, m);
      var home := r.events[m].authored;
      assert DraftOk(r.layers, r.events, home - 1);
      AheadOf(r.layers, home - 1, k);
      MetBefore(r, home - 1, a, m);
    }
  }

  // Whatever a run did, its committed layers name only events authored at or below them: a store an
  // export can walk forwards once.
  lemma EveryRunIsWellKept(hash: S.Hash, trace: seq<Registry>, steps: seq<Step>, k: nat)
    requires Run(hash, trace, steps) && k < |trace|
    ensures S.StoreOk(hash, Snapshot(trace[k]))
  {
    EveryRunKeeps(hash, trace, steps, k);
    var r := trace[k];
    hide Run, CommittedOf, DraftOk, S.Backwards, S.Unmet;
    IdsInOrder(r.layers, r.events, r.nextEvent);
    WalksInOrder(r.layers);
    forall a | 0 <= a < |CommittedOf(r.layers)|
      ensures var l := CommittedOf(r.layers)[a];
              && S.Backwards(Snapshot(r), a) && S.Unmet(Snapshot(r), l.meta.id, map[], l.members)
              && (if l.meta.kind == Log.DefLayer then l.members == [] else l.defs == [])
    {
      WalkIsBackwards(r, a);
    }
  }

  lemma IdsInOrder(layers: seq<Draft>, events: S.Events, next: EventId)
    requires DraftsOk(layers, events, next)
    ensures forall k :: 0 <= k < |layers| ==> layers[k].meta.id == k + 1
  {
    hide Names, Once;
    forall k | 0 <= k < |layers|
      ensures layers[k].meta.id == k + 1
    {
      assert DraftOk(layers, events, k);
    }
  }

  // So every registry a run reaches, whose addresses the constructors built, exports; restoring gives its
  // log back; and exporting again gives the identical records.
  lemma EveryRunReturns(hash: S.Hash, trace: seq<Registry>, steps: seq<Step>, k: nat)
    requires Run(hash, trace, steps) && k < |trace| && S.Speakable(Snapshot(trace[k]))
    ensures var s := Snapshot(trace[k]);
            && S.Export(s).Some? && S.Restore(hash, S.Export(s).value) == Some(S.Carried(s))
            && S.Export(S.Carried(s)) == S.Export(s)
  {
    EveryRunIsWellKept(hash, trace, steps, k);
    S.ExportsAndReturns(hash, Snapshot(trace[k]));
    hide *;
  }
}
