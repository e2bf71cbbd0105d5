/** The trunk's committed layers as the derivation rounds see them, and what its source layers show at a
    watermark (crates/borg-engine/src/derive.rs, `span`; crates/borg-engine/src/log.rs). */
module Trunk {
  import opened Core
  import opened Producers
  import opened Scheduler
  import opened Settle
  import opened Confluence
  import opened Equations

  datatype TrunkLayer = TrunkLayer(id: LayerId, author: Author, writes: seq<Write>) {
    function Records(): Store {
      WriteMap(writes)
    }
  }

  // What the trunk shows at its head: the highest layer holding a record wins.
  function Shows(layers: seq<TrunkLayer>): Store {
    if layers == [] then map[] else Shows(layers[..|layers| - 1]) + layers[|layers| - 1].Records()
  }

  // The source records visible at `w`.
  function SourceAt(layers: seq<TrunkLayer>, w: LayerId): Store {
    if layers == [] then map[]
    else
      var last := layers[|layers| - 1];
      if last.author.Source? && last.id <= w then SourceAt(layers[..|layers| - 1], w) + last.Records()
      else SourceAt(layers[..|layers| - 1], w)
  }

  // The newest layer holding the record, and the newest source layer at or below `w` that does.
  ghost predicate HoldsLast(layers: seq<TrunkLayer>, at: CellAt, k: nat) {
    k < |layers| && at in layers[k].Records() && forall j :: k < j < |layers| ==> at !in layers[j].Records()
  }

  ghost predicate SourceHoldsLast(layers: seq<TrunkLayer>, w: LayerId, at: CellAt, k: nat) {
    && k < |layers| && layers[k].author.Source? && layers[k].id <= w && at in layers[k].Records()
    && (forall j :: k < j < |layers| && layers[j].author.Source? && layers[j].id <= w ==> at !in layers[j].Records())
  }

  lemma {:induction false} ShowsTheLast(layers: seq<TrunkLayer>, at: CellAt, k: nat)
    requires HoldsLast(layers, at, k)
    ensures Get(Shows(layers), at) == Get(layers[k].Records(), at)
  {
    hide WriteMap;
    if k < |layers| - 1 {
      ShowsTheLast(layers[..|layers| - 1], at, k);
    }
  }

  lemma {:induction false} SourceIsTheLast(layers: seq<TrunkLayer>, w: LayerId, at: CellAt, k: nat)
    requires SourceHoldsLast(layers, w, at, k)
    ensures Get(SourceAt(layers, w), at) == Get(layers[k].Records(), at)
  {
    hide WriteMap;
    if k < |layers| - 1 {
      SourceIsTheLast(layers[..|layers| - 1], w, at, k);
    }
  }

  // And a record nothing holds shows nowhere.
  lemma {:induction false} ShowsWhatIsHeld(layers: seq<TrunkLayer>, w: LayerId, at: CellAt)
    ensures at in Shows(layers) <==> exists l :: l in layers && at in l.Records()
    ensures at in SourceAt(layers, w) <==> exists l :: l in layers && l.author.Source? && l.id <= w && at in l.Records()
  {
    hide WriteMap;
    if layers != [] {
      ShowsWhatIsHeld(layers[..|layers| - 1], w, at);
      assert layers == layers[..|layers| - 1] + [layers[|layers| - 1]];
    }
  }

  function Top(layers: seq<TrunkLayer>): LayerId {
    if layers == [] then 0 else Max(Top(layers[..|layers| - 1]), layers[|layers| - 1].id)
  }

  // The highest source layer, or 0.
  function TopSource(layers: seq<TrunkLayer>): LayerId {
    if layers == [] then 0
    else
      var last := layers[|layers| - 1];
      if last.author.Source? then Max(TopSource(layers[..|layers| - 1]), last.id) else TopSource(layers[..|layers| - 1])
  }

  // A source layer above `w` wrote the record.
  ghost predicate Moved(layers: seq<TrunkLayer>, w: LayerId, at: CellAt) {
    exists l :: l in layers && l.author.Source? && l.id > w && at in l.Records()
  }

  // Clients write source records and producers write derived ones; ids only grow.
  ghost predicate LayerFits(sys: System, l: TrunkLayer) {
    forall at :: at in l.Records() ==> (l.author.Source? <==> SourceCell(sys, at))
  }

  ghost predicate WellFormed(sys: System, layers: seq<TrunkLayer>) {
    && (forall a, b :: 0 <= a < b < |layers| ==> layers[a].id < layers[b].id)
    && (forall l :: l in layers ==> l.id > 0 && LayerFits(sys, l))
  }

  lemma {:induction false} TopIsHighest(layers: seq<TrunkLayer>, l: TrunkLayer)
    requires l in layers
    ensures l.id <= Top(layers)
    ensures l.author.Source? ==> l.id <= TopSource(layers)
  {
    if l != layers[|layers| - 1] {
      TopIsHighest(layers[..|layers| - 1], l);
    }
  }

  lemma {:induction false} TopSourceIsThere(layers: seq<TrunkLayer>)
    requires TopSource(layers) > 0
    ensures exists l :: l in layers && l.author.Source? && l.id == TopSource(layers)
  {
    var shorter, last := layers[..|layers| - 1], layers[|layers| - 1];
    if last.author.Source? && last.id >= TopSource(shorter) {
      assert last in layers && last.id == TopSource(layers);
    } else {
      TopSourceIsThere(shorter);
      var l :| l in shorter && l.author.Source? && l.id == TopSource(shorter);
      assert l in layers;
    }
  }

  lemma WellFormedPrefix(sys: System, layers: seq<TrunkLayer>)
    requires WellFormed(sys, layers) && layers != []
    ensures WellFormed(sys, layers[..|layers| - 1])
    ensures forall l :: l in layers[..|layers| - 1] ==> l.id < layers[|layers| - 1].id
  {
    var shorter := layers[..|layers| - 1];
    forall l | l in shorter
      ensures l in layers && l.id < layers[|layers| - 1].id
    {
      var k :| 0 <= k < |shorter| && shorter[k] == l;
      assert layers[k] == l;
    }
  }

  // Source records are shown as the source layers left them.
  lemma {:induction false} SourceShown(sys: System, layers: seq<TrunkLayer>, w: LayerId, at: CellAt)
    requires WellFormed(sys, layers) && Top(layers) <= w && SourceCell(sys, at)
    ensures Get(Shows(layers), at) == Get(SourceAt(layers, w), at)
  {
    if layers != [] {
      WellFormedPrefix(sys, layers);
      SourceShown(sys, layers[..|layers| - 1], w, at);
      assert LayerFits(sys, layers[|layers| - 1]);
    }
  }

  // What no source layer above `w` wrote reads the same at any later watermark.
  lemma {:induction false} Unmoved(layers: seq<TrunkLayer>, w: LayerId, v: LayerId, at: CellAt)
    requires w <= v && !Moved(layers, w, at)
    ensures Get(SourceAt(layers, v), at) == Get(SourceAt(layers, w), at)
  {
    if layers != [] {
      var shorter, last := layers[..|layers| - 1], layers[|layers| - 1];
      assert forall l :: l in shorter ==> l in layers;
      assert !Moved(shorter, w, at);
      Unmoved(shorter, w, v, at);
      assert last in layers;
    }
  }

  // A record shown at one watermark is never absent at a later one.
  lemma {:induction false} SourceGrows(layers: seq<TrunkLayer>, w: LayerId, v: LayerId)
    requires w <= v
    ensures SourceAt(layers, w).Keys <= SourceAt(layers, v).Keys
  {
    if layers != [] {
      SourceGrows(layers[..|layers| - 1], w, v);
    }
  }

  // Layers above a watermark do not change what it shows.
  lemma {:induction false} LaterLayers(layers: seq<TrunkLayer>, more: seq<TrunkLayer>, w: LayerId)
    requires forall l :: l in more ==> w < l.id || !l.author.Source?
    ensures SourceAt(layers + more, w) == SourceAt(layers, w)
  {
    if more == [] {
      assert layers + more == layers;
    } else {
      LaterLayers(layers, more[..|more| - 1], w);
      assert (layers + more)[..|layers + more| - 1] == layers + more[..|more| - 1];
      assert more[|more| - 1] in more;
    }
  }

  // A record the later layers do not hold is shown as before.
  lemma {:induction false} ShowsAppend(layers: seq<TrunkLayer>, more: seq<TrunkLayer>, at: CellAt)
    ensures Get(Shows(layers + more), at) == if at in Shows(more) then Get(Shows(more), at) else Get(Shows(layers), at)
  {
    if more == [] {
      assert layers + more == layers;
    } else {
      ShowsAppend(layers, more[..|more| - 1], at);
      assert (layers + more)[..|layers + more| - 1] == layers + more[..|more| - 1];
    }
  }

  lemma {:induction false} ShownSomewhere(layers: seq<TrunkLayer>, at: CellAt)
    ensures at in Shows(layers) <==> exists l :: l in layers && at in l.Records()
  {
    if layers != [] {
      var shorter, last := layers[..|layers| - 1], layers[|layers| - 1];
      ShownSomewhere(shorter, at);
      assert layers == shorter + [last];
    }
  }

  lemma {:induction false} SourceSomewhere(layers: seq<TrunkLayer>, w: LayerId, at: CellAt)
    ensures at in SourceAt(layers, w) ==> exists l :: l in layers && l.author.Source? && l.id <= w && at in l.Records()
  {
    if layers != [] {
      var shorter, last := layers[..|layers| - 1], layers[|layers| - 1];
      SourceSomewhere(shorter, w, at);
      assert layers == shorter + [last];
    }
  }

  // --- The range a round settles ---

  // A layer's place in the source stream, and what it wrote.
  function TrunkChangeset(l: TrunkLayer): Changeset {
    Changeset(if l.author.Source? then l.id else l.author.reflects,
              seq(|l.writes|, k requires 0 <= k < |l.writes| =>
                (l.writes[k].at, if l.author.Source? then None else Some(l.author.producer))))
  }

  // Everything above the watermark.
  function SpanOf(layers: seq<TrunkLayer>, w: LayerId): seq<Changeset> {
    if layers == [] then []
    else
      var last := layers[|layers| - 1];
      SpanOf(layers[..|layers| - 1], w) + (if last.id > w then [TrunkChangeset(last)] else [])
  }

  lemma {:induction false} SpanMembers(layers: seq<TrunkLayer>, w: LayerId, cs: Changeset)
    ensures cs in SpanOf(layers, w) <==> exists l :: l in layers && l.id > w && cs == TrunkChangeset(l)
  {
    if layers != [] {
      var shorter, last := layers[..|layers| - 1], layers[|layers| - 1];
      SpanMembers(shorter, w, cs);
      assert layers == shorter + [last];
      assert last in layers;
    }
  }

  lemma SpanNext(layers: seq<TrunkLayer>, last: TrunkLayer, w: LayerId)
    ensures SpanOf(layers + [last], w) == SpanOf(layers, w) + (if last.id > w then [TrunkChangeset(last)] else [])
  {
    assert (layers + [last])[..|layers|] == layers;
  }

  // In the order they landed.
  lemma {:induction false} SpanAppends(layers: seq<TrunkLayer>, more: seq<TrunkLayer>, w: LayerId)
    ensures SpanOf(layers + more, w) == SpanOf(layers, w) + SpanOf(more, w)
  {
    hide SpanOf, TrunkChangeset;
    if more == [] {
      SpanNone(w);
      assert layers + more == layers && SpanOf(layers, w) + [] == SpanOf(layers, w);
    } else {
      var shorter, last := more[..|more| - 1], more[|more| - 1];
      SpanAppends(layers, shorter, w);
      SpanNext(layers + shorter, last, w);
      SpanNext(shorter, last, w);
      assert more == shorter + [last] && layers + more == layers + shorter + [last];
    }
  }

  lemma SpanNone(w: LayerId)
    ensures SpanOf([], w) == []
  {
  }

  // An invocation read this record, or it is of the entity this record belongs to and another than its own
  // producer wrote it.
  predicate Stirs(producers: map<ProducerId, ProducerDef>, readSets: map<Invocation, set<CellAt>>, author: Author, i: Invocation, at: CellAt)
    requires i.producer in producers
  {
    || (i in readSets && at in readSets[i])
    || (at.cell.buffer == producers[i.producer].source && at.cell.Pid() == i.input
        && (author.Derived? ==> author.producer != i.producer))
  }

  // What landing a layer puts in front of the producers.
  lemma LandedDirties(producers: map<ProducerId, ProducerDef>, readSets: map<Invocation, set<CellAt>>, l: TrunkLayer, i: Invocation)
    ensures Dirties(producers, readSets, TrunkChangeset(l).cells, i) <==>
            i.producer in producers && exists k :: 0 <= k < |l.writes| && Stirs(producers, readSets, l.author, i, l.writes[k].at)
  {
    var cells := TrunkChangeset(l).cells;
    assert forall k :: 0 <= k < |l.writes| ==> cells[k].0 == l.writes[k].at;
    if i.producer in producers {
      if k :| 0 <= k < |l.writes| && Stirs(producers, readSets, l.author, i, l.writes[k].at) {
        assert Subscribed(readSets, i, cells[k].0) || Enters(producers, i, cells[k].0, cells[k].1);
      }
    }
  }
}
