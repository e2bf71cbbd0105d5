/** What merging a settled round means for the branch's records: the per-layer rules of the merge, read as
    statements about invocations (crates/borg-engine/src/branch.rs, `merge_round`). */
module RoundMerge {
  import opened Core
  import opened Producers
  import opened Scheduler
  import opened Settle
  import opened Confluence
  import opened Equations
  import opened Trunk
  import opened Truth
  import T = Transactions
  import M = Merge

  // --- A round's layers as the merge takes them ---

  function Inputs(seen: History): seq<CellAt> {
    seq(|seen|, k requires 0 <= k < |seen| => seen[k].at)
  }

  function Outputs(writes: seq<Write>): seq<CellAt> {
    seq(|writes|, k requires 0 <= k < |writes| => writes[k].at)
  }

  // `ids` names the events a layer authored.
  function EventsOf(l: RunLayer, reflects: LayerId, ids: (LayerId, nat) -> EventId): seq<Event> {
    seq(|l.writes|, k requires 0 <= k < |l.writes| =>
      Event(ids(l.id, k), l.writes[k].at, l.writes[k].value,
            Some(Derivation(l.inv.producer, reflects, Inputs(l.seen))), l.id))
  }

  function EntryOf(l: RunLayer, reflects: LayerId, ids: (LayerId, nat) -> EventId): M.Entry {
    M.Entry(l.id, Derived(l.inv.producer, reflects), Inputs(l.seen), Outputs(l.writes), EventsOf(l, reflects, ids))
  }

  function Entries(order: seq<RunLayer>, reflects: LayerId, ids: (LayerId, nat) -> EventId): seq<M.Entry> {
    seq(|order|, k requires 0 <= k < |order| => EntryOf(order[k], reflects, ids))
  }

  function SourceEvents(l: TrunkLayer, ids: (LayerId, nat) -> EventId): seq<Event> {
    seq(|l.writes|, k requires 0 <= k < |l.writes| => Event(ids(l.id, k), l.writes[k].at, l.writes[k].value, None, l.id))
  }

  function Visible(layers: seq<TrunkLayer>, ids: (LayerId, nat) -> EventId): seq<M.ParentLayer> {
    seq(|layers|, k requires 0 <= k < |layers| =>
      M.ParentLayer(layers[k].id, 0, layers[k].author, SourceEvents(layers[k], ids)))
  }

  // A landed layer holds the events of the entries it names, in their order.
  function Written(entries: seq<M.Entry>): seq<Write> {
    if entries == [] then []
    else
      var last := entries[|entries| - 1];
      Written(entries[..|entries| - 1]) + WritesOfEvents(last.events)
  }

  function Carried(kept: seq<M.Entry>, landings: seq<M.Landing>): seq<TrunkLayer> {
    seq(|landings|, k requires 0 <= k < |landings| =>
      TrunkLayer(landings[k].id, landings[k].author, Written(M.By(landings[k].author, kept))))
  }

  // The round's layers, oldest first.
  ghost predicate InOrder(order: seq<RunLayer>, layers: seq<RunLayer>) {
    && (forall l :: l in order <==> l in layers)
    && (forall a, b :: 0 <= a < b < |order| ==> order[a].id < order[b].id)
  }

  // The merge of a round forked at `fork`, as `MergeRound` performs it with every guard looked at.
  ghost predicate Lands(now: Branch, fork: LayerId, reflects: LayerId, layers: seq<RunLayer>, order: seq<RunLayer>,
                        ids: (LayerId, nat) -> EventId, failed: set<LayerId>, dropped: set<LayerId>, first: LayerId,
                        next: LayerId, landings: seq<M.Landing>, landed: seq<TrunkLayer>)
  {
    var entries := Entries(order, reflects, ids);
    && InOrder(order, layers) && first > Top(now.layers)
    && M.Judged(entries, Visible(now.layers, ids), 0, fork, true, failed)
    && T.LeastClosed(M.AccessesOf(entries), failed, dropped)
    && M.Lands(M.Kept(entries, dropped), landings, first, next)
    && landed == Carried(M.Kept(entries, dropped), landings)
  }

  // --- What that means ---

  // Why the merge drops an invocation: an input moved on the branch since the fork, or comes from one dropped.
  ghost predicate DropReason(sys: System, now: Branch, fork: LayerId, gone: set<Invocation>, i: Invocation) {
    || (exists at :: at in sys.f.inputs(i) && Moved(now.layers, fork, at))
    || (exists j, at :: j in gone && Writer(sys, j, at) && at in sys.f.inputs(i))
  }

  // The record as its invocation's last run in this round wrote it.
  ghost predicate LastWritten(sys: System, layers: seq<RunLayer>, gone: set<Invocation>, records: Store, at: CellAt) {
    exists i :: i in Ran(layers) && i !in gone && Writer(sys, i, at) && LastRun(layers, i).Some?
                && at in WriteMap(LastRun(layers, i).value.writes)
                && Get(records, at) == Some(WriteMap(LastRun(layers, i).value.writes)[at])
  }

  // What a merge leaves on the branch: derived layers above all there is, holding what each invocation
  // that was not dropped wrote last, and nothing else.
  ghost predicate Merged(sys: System, now: Branch, fork: LayerId, reflects: LayerId, layers: seq<RunLayer>,
                         gone: set<Invocation>, landed: seq<TrunkLayer>)
  {
    && gone <= Ran(layers)
    && (forall i :: i in gone ==> DropReason(sys, now, fork, gone, i))
    && (forall a, b :: 0 <= a < b < |landed| ==> landed[a].id < landed[b].id)
    && (forall l :: l in landed ==> l.id > Top(now.layers) && l.author.Derived? && l.author.reflects == reflects)
    && (forall l, at :: l in landed && at in l.Records() ==> LastWritten(sys, layers, gone, l.Records(), at))
    && (forall i, at :: i in Ran(layers) && i !in gone && Writer(sys, i, at) ==> exists l :: l in landed && at in l.Records())
  }

  // Cells are read and written at one version, and nothing is deleted.
  ghost predicate OneVersion(sys: System) {
    forall i, at :: at in sys.f.inputs(i) || at in sys.f.outputs(i) ==> at.version == sys.versionOf(at.cell)
  }

  ghost predicate PlainWrites(sys: System, writes: seq<Write>) {
    forall k :: 0 <= k < |writes| ==> writes[k].at.version == sys.versionOf(writes[k].at.cell) && !writes[k].value.Tombstone?
  }

  ghost predicate PlainSources(sys: System, layers: seq<TrunkLayer>) {
    forall l :: l in layers && l.author.Source? ==> PlainWrites(sys, l.writes)
  }

  lemma EntriesAscend(order: seq<RunLayer>, layers: seq<RunLayer>, reflects: LayerId, ids: (LayerId, nat) -> EventId)
    requires InOrder(order, layers)
    ensures M.Ascending(Entries(order, reflects, ids))
  {
  }

  // A layer's accesses are what its run read and wrote.
  lemma AccessesOfLayer(order: seq<RunLayer>, layers: seq<RunLayer>, reflects: LayerId, ids: (LayerId, nat) -> EventId, l: RunLayer)
    requires InOrder(order, layers) && l in order
    ensures l.id in M.AccessesOf(Entries(order, reflects, ids))
    ensures M.AccessesOf(Entries(order, reflects, ids))[l.id] == T.Accesses(Inputs(l.seen), Outputs(l.writes))
    ensures EntryOf(l, reflects, ids) in Entries(order, reflects, ids)
  {
    EntriesAscend(order, layers, reflects, ids);
    var k :| 0 <= k < |order| && order[k] == l;
    M.AccessesAt(Entries(order, reflects, ids), k);
    assert Entries(order, reflects, ids)[k] == EntryOf(l, reflects, ids);
  }

  lemma LayerOfId(order: seq<RunLayer>, layers: seq<RunLayer>, reflects: LayerId, ids: (LayerId, nat) -> EventId, id: LayerId)
    returns (l: RunLayer)
    requires InOrder(order, layers) && id in M.AccessesOf(Entries(order, reflects, ids))
    ensures l in order && l.id == id
  {
    var entries := Entries(order, reflects, ids);
    EntriesAscend(order, layers, reflects, ids);
    M.AccessesOfKeys(entries);
    var e :| e in entries && e.id == id;
    var k :| 0 <= k < |entries| && entries[k] == e;
    l := order[k];
  }

  lemma InputsAre(seen: History, at: CellAt)
    ensures at in Inputs(seen) <==> at in ReadSet(seen)
  {
    if at in ReadSet(seen) {
      var s :| s in seen && s.at == at;
      var k :| 0 <= k < |seen| && seen[k] == s;
      assert Inputs(seen)[k] == at;
    }
    if at in Inputs(seen) {
      var k :| 0 <= k < |seen| && Inputs(seen)[k] == at;
      assert seen[k] in seen;
    }
  }

  lemma OutputsAre(writes: seq<Write>, at: CellAt)
    ensures at in Outputs(writes) <==> at in WriteMap(writes)
  {
    WriteMapKeys(writes, at);
    if at in WriteMap(writes) {
      var k :| 0 <= k < |writes| && writes[k].at == at;
      assert Outputs(writes)[k] == at;
    }
    if at in Outputs(writes) {
      var k :| 0 <= k < |writes| && Outputs(writes)[k] == at;
      assert writes[k].at == at;
    }
  }

  // The accesses of one layer, by its invocation's footprint.
  lemma AccessesByFootprint(sys: System, layers: seq<RunLayer>, l: RunLayer, at: CellAt)
    requires Exact(sys.prog, sys.f) && Genuine(sys.prog, layers) && l in layers
    ensures at in Inputs(l.seen) <==> at in sys.f.inputs(l.inv)
    ensures at in Outputs(l.writes) <==> at in sys.f.outputs(l.inv)
  {
    assert Complete(sys.prog, l.inv, l.seen);
    InputsAre(l.seen, at);
    OutputsAre(l.writes, at);
  }

  lemma NothingDeleted(sys: System, layers: seq<TrunkLayer>, ids: (LayerId, nat) -> EventId, fork: LayerId)
    requires PlainSources(sys, layers)
    ensures M.DeletedSince(Visible(layers, ids), 0, fork) == {}
  {
    forall p, e | p in Visible(layers, ids) && p.author.Source? && e in p.events
      ensures !e.value.Tombstone?
    {
      var k :| 0 <= k < |layers| && Visible(layers, ids)[k] == p;
      assert layers[k] in layers;
      var n :| 0 <= n < |p.events| && p.events[n] == e;
      assert e.value == layers[k].writes[n].value;
    }
  }

  // A guard that trips names a record that moved.
  lemma TouchedIsMoved(sys: System, layers: seq<TrunkLayer>, ids: (LayerId, nat) -> EventId, fork: LayerId, at: CellAt)
    requires PlainSources(sys, layers) && at.version == sys.versionOf(at.cell)
    requires M.TouchedSince(Visible(layers, ids), fork, at.cell)
    ensures Moved(layers, fork, at)
  {
    var p, e :| p in Visible(layers, ids) && p.author.Source? && p.id > fork && e in p.events && e.at.cell == at.cell;
    var k :| 0 <= k < |layers| && Visible(layers, ids)[k] == p;
    assert layers[k] in layers;
    var n :| 0 <= n < |p.events| && p.events[n] == e;
    assert layers[k].writes[n].at == at;
    WriteMapKeys(layers[k].writes, at);
  }

  ghost predicate Merging(sys: System, now: Branch, fork: LayerId, reflects: LayerId, layers: seq<RunLayer>, order: seq<RunLayer>,
                          ids: (LayerId, nat) -> EventId, failed: set<LayerId>, dropped: set<LayerId>)
  {
    var entries := Entries(order, reflects, ids);
    && Exact(sys.prog, sys.f) && OneVersion(sys) && PlainSources(sys, now.layers)
    && Genuine(sys.prog, layers) && InOrder(order, layers)
    && M.Judged(entries, Visible(now.layers, ids), 0, fork, true, failed)
    && T.LeastClosed(M.AccessesOf(entries), failed, dropped)
  }

  // A guard of this layer that moved: read here, not produced by the round, written by a client since.
  ghost predicate Trips(now: Branch, fork: LayerId, order: seq<RunLayer>, reflects: LayerId, ids: (LayerId, nat) -> EventId,
                        l: RunLayer, at: CellAt)
  {
    && at in Inputs(l.seen)
    && at !in T.Produced(M.AccessesOf(Entries(order, reflects, ids)))
    && M.TouchedSince(Visible(now.layers, ids), fork, at.cell)
  }

  lemma FailedTrips(sys: System, now: Branch, fork: LayerId, reflects: LayerId, layers: seq<RunLayer>, order: seq<RunLayer>,
                    ids: (LayerId, nat) -> EventId, failed: set<LayerId>, dropped: set<LayerId>, l: RunLayer)
    requires Merging(sys, now, fork, reflects, layers, order, ids, failed, dropped) && l in order
    ensures l.id in failed <==> exists at :: Trips(now, fork, order, reflects, ids, l, at)
  {
    var entries, e := Entries(order, reflects, ids), EntryOf(l, reflects, ids);
    var visible, acc := Visible(now.layers, ids), M.AccessesOf(Entries(order, reflects, ids));
    AccessesOfLayer(order, layers, reflects, ids, l);
    NothingDeleted(sys, now.layers, ids, fork);
    if at :| Trips(now, fork, order, reflects, ids, l, at) {
      assert at.cell in T.GuardsOf(acc, l.id);
      assert M.GuardFails(entries, visible, fork, e);
    }
    if l.id in failed {
      var f :| f in entries && f.id == l.id && M.Fails(entries, visible, 0, fork, true, f);
      OneEntry(order, layers, reflects, ids, l, f);
      var c :| c in T.GuardsOf(acc, l.id) && M.TouchedSince(visible, fork, c);
      var at :| at in acc[l.id].inputs && at !in T.Produced(acc) && at.cell == c;
      assert Trips(now, fork, order, reflects, ids, l, at);
    }
  }

  lemma OneEntry(order: seq<RunLayer>, layers: seq<RunLayer>, reflects: LayerId, ids: (LayerId, nat) -> EventId,
                 l: RunLayer, f: M.Entry)
    requires InOrder(order, layers) && l in order && f in Entries(order, reflects, ids) && f.id == l.id
    ensures f == EntryOf(l, reflects, ids)
  {
    var entries := Entries(order, reflects, ids);
    var a :| 0 <= a < |order| && order[a] == l;
    var b :| 0 <= b < |entries| && entries[b] == f;
    assert a == b;
  }

  // One invocation's layers fall or stand together: the same records read, the same records written.
  lemma SameFate(sys: System, now: Branch, fork: LayerId, reflects: LayerId, layers: seq<RunLayer>, order: seq<RunLayer>,
                 ids: (LayerId, nat) -> EventId, failed: set<LayerId>, dropped: set<LayerId>, l: RunLayer, m: RunLayer)
    requires Merging(sys, now, fork, reflects, layers, order, ids, failed, dropped)
    requires l in order && m in order && l.inv == m.inv && l.id in dropped
    ensures m.id in dropped
  {
    var acc := M.AccessesOf(Entries(order, reflects, ids));
    if l.id in failed {
      FailedTrips(sys, now, fork, reflects, layers, order, ids, failed, dropped, l);
      var at :| Trips(now, fork, order, reflects, ids, l, at);
      AccessesByFootprint(sys, layers, l, at);
      AccessesByFootprint(sys, layers, m, at);
      assert Trips(now, fork, order, reflects, ids, m, at);
      FailedTrips(sys, now, fork, reflects, layers, order, ids, failed, dropped, m);
    } else {
      T.DroppedForAReason(acc, failed, dropped, l.id);
      var d :| d in dropped && T.Consumes(acc, l.id, d);
      AccessesOfLayer(order, layers, reflects, ids, l);
      AccessesOfLayer(order, layers, reflects, ids, m);
      var r, w :| r in acc[l.id].inputs && w in acc[d].outputs && r.cell == w.cell;
      AccessesByFootprint(sys, layers, l, r);
      AccessesByFootprint(sys, layers, m, r);
      assert T.Consumes(acc, m.id, d);
    }
  }

  ghost function Gone(order: seq<RunLayer>, dropped: set<LayerId>): set<Invocation> {
    set l | l in order && l.id in dropped :: l.inv
  }

  lemma WhyGone(sys: System, now: Branch, fork: LayerId, reflects: LayerId, layers: seq<RunLayer>, order: seq<RunLayer>,
                ids: (LayerId, nat) -> EventId, failed: set<LayerId>, dropped: set<LayerId>, l: RunLayer)
    requires Merging(sys, now, fork, reflects, layers, order, ids, failed, dropped) && KnownRan(sys, layers)
    requires l in order && l.id in dropped
    ensures DropReason(sys, now, fork, Gone(order, dropped), l.inv)
  {
    var acc := M.AccessesOf(Entries(order, reflects, ids));
    if l.id in failed {
      FailedTrips(sys, now, fork, reflects, layers, order, ids, failed, dropped, l);
      var at :| Trips(now, fork, order, reflects, ids, l, at);
      AccessesByFootprint(sys, layers, l, at);
      TouchedIsMoved(sys, now.layers, ids, fork, at);
    } else {
      T.DroppedForAReason(acc, failed, dropped, l.id);
      var d :| d in dropped && T.Consumes(acc, l.id, d);
      var m := LayerOfId(order, layers, reflects, ids, d);
      AccessesOfLayer(order, layers, reflects, ids, l);
      AccessesOfLayer(order, layers, reflects, ids, m);
      var r, w :| r in acc[l.id].inputs && w in acc[d].outputs && r.cell == w.cell;
      AccessesByFootprint(sys, layers, l, r);
      AccessesByFootprint(sys, layers, m, w);
      assert r == w;
      assert m.inv in Ran(layers) && Writer(sys, m.inv, w);
    }
  }

  // --- What the landed layers hold ---

  lemma {:induction false} WriteMapAppend(a: seq<Write>, b: seq<Write>, at: CellAt)
    ensures Get(WriteMap(a + b), at) == if at in WriteMap(b) then Get(WriteMap(b), at) else Get(WriteMap(a), at)
  {
    if b == [] {
      assert a + b == a;
    } else {
      WriteMapAppend(a, b[..|b| - 1], at);
      assert (a + b)[..|a + b| - 1] == a + b[..|b| - 1];
    }
  }

  function WritesOfEvents(events: seq<Event>): seq<Write> {
    seq(|events|, k requires 0 <= k < |events| => Write(events[k].at, events[k].value))
  }

  lemma EventsRoundTrip(l: RunLayer, reflects: LayerId, ids: (LayerId, nat) -> EventId)
    ensures WritesOfEvents(EventsOf(l, reflects, ids)) == l.writes
  {
    forall k | 0 <= k < |l.writes|
      ensures WritesOfEvents(EventsOf(l, reflects, ids))[k] == l.writes[k]
    {
      assert EventsOf(l, reflects, ids)[k].at == l.writes[k].at;
    }
  }

  // The record a run of entries leaves behind is the newest entry's that holds it.
  lemma {:induction false} WrittenFrom(entries: seq<M.Entry>, at: CellAt) returns (k: nat)
    requires at in WriteMap(Written(entries))
    ensures k < |entries| && at in WriteMap(WritesOfEvents(entries[k].events))
    ensures Get(WriteMap(Written(entries)), at) == Get(WriteMap(WritesOfEvents(entries[k].events)), at)
    ensures forall j :: k < j < |entries| ==> at !in WriteMap(WritesOfEvents(entries[j].events))
  {
    var n := |entries| - 1;
    var last := WritesOfEvents(entries[n].events);
    WriteMapAppend(Written(entries[..n]), last, at);
    if at in WriteMap(last) {
      k := n;
    } else {
      k := WrittenFrom(entries[..n], at);
      forall j | k < j < |entries|
        ensures at !in WriteMap(WritesOfEvents(entries[j].events))
      {
        if j < n {
          assert entries[..n][j] == entries[j];
        }
      }
    }
  }

  lemma {:induction false} WrittenHas(entries: seq<M.Entry>, e: M.Entry, at: CellAt)
    requires e in entries && at in WriteMap(WritesOfEvents(e.events))
    ensures at in WriteMap(Written(entries))
  {
    hide WriteMap, WritesOfEvents;
    var n := |entries| - 1;
    WriteMapAppend(Written(entries[..n]), WritesOfEvents(entries[n].events), at);
    if e != entries[n] {
      WrittenHas(entries[..n], e, at);
    }
  }

  // One producer's kept layers, in order.
  function GroupOf(order: seq<RunLayer>, reflects: LayerId, ids: (LayerId, nat) -> EventId, dropped: set<LayerId>,
                   author: Author): seq<M.Entry>
  {
    M.By(author, M.Kept(Entries(order, reflects, ids), dropped))
  }

  lemma GroupAscends(order: seq<RunLayer>, layers: seq<RunLayer>, reflects: LayerId, ids: (LayerId, nat) -> EventId,
                     dropped: set<LayerId>, author: Author)
    requires InOrder(order, layers)
    ensures M.Ascending(GroupOf(order, reflects, ids, dropped, author))
  {
    EntriesAscend(order, layers, reflects, ids);
    M.KeptAscends(Entries(order, reflects, ids), dropped);
    M.ByAscends(author, M.Kept(Entries(order, reflects, ids), dropped));
  }

  lemma InGroup(order: seq<RunLayer>, layers: seq<RunLayer>, reflects: LayerId, ids: (LayerId, nat) -> EventId,
                dropped: set<LayerId>, l: RunLayer)
    requires InOrder(order, layers) && l in order && l.id !in dropped
    ensures EntryOf(l, reflects, ids) in M.Kept(Entries(order, reflects, ids), dropped)
    ensures EntryOf(l, reflects, ids) in GroupOf(order, reflects, ids, dropped, Derived(l.inv.producer, reflects))
  {
    AccessesOfLayer(order, layers, reflects, ids, l);
    M.KeptAll(Entries(order, reflects, ids), dropped, EntryOf(l, reflects, ids));
    M.ByHas(Derived(l.inv.producer, reflects), M.Kept(Entries(order, reflects, ids), dropped), EntryOf(l, reflects, ids));
  }

  lemma FromGroup(order: seq<RunLayer>, layers: seq<RunLayer>, reflects: LayerId, ids: (LayerId, nat) -> EventId,
                  dropped: set<LayerId>, author: Author, e: M.Entry) returns (l: RunLayer)
    requires InOrder(order, layers) && e in GroupOf(order, reflects, ids, dropped, author)
    ensures l in order && l.id !in dropped && e == EntryOf(l, reflects, ids) && e.author == author
  {
    var entries := Entries(order, reflects, ids);
    M.ByMembers(author, M.Kept(entries, dropped), e);
    M.KeptMembers(entries, dropped, e);
    var k :| 0 <= k < |entries| && entries[k] == e;
    l := order[k];
  }

  // Within one landed layer the record is what its invocation's last run wrote, because later runs sit
  // in higher layers and land or fall with the earlier ones.
  lemma GroupRecord(sys: System, now: Branch, fork: LayerId, reflects: LayerId, layers: seq<RunLayer>, order: seq<RunLayer>,
                    ids: (LayerId, nat) -> EventId, failed: set<LayerId>, dropped: set<LayerId>, author: Author, at: CellAt)
    requires Merging(sys, now, fork, reflects, layers, order, ids, failed, dropped)
    requires SingleWriter(sys.f) && KnownRan(sys, layers) && Ordered(layers)
    requires at in WriteMap(Written(GroupOf(order, reflects, ids, dropped, author)))
    ensures LastWritten(sys, layers, Gone(order, dropped), WriteMap(Written(GroupOf(order, reflects, ids, dropped, author))), at)
    ensures author.Derived? && author.reflects == reflects
  {
    var group := GroupOf(order, reflects, ids, dropped, author);
    var k := WrittenFrom(group, at);
    var r := FromGroup(order, layers, reflects, ids, dropped, author, group[k]);
    EventsRoundTrip(r, reflects, ids);
    OutputsAre(r.writes, at);
    AccessesByFootprint(sys, layers, r, at);
    LastRunIsHighest(layers, r.inv, r);
    var last := LastRun(layers, r.inv).value;
    LastRunIs(layers, r.inv);
    if last.id in dropped {
      SameFate(sys, now, fork, reflects, layers, order, ids, failed, dropped, last, r);
    }
    NewestInGroup(sys, layers, order, reflects, ids, dropped, group, k, r, last, at);
    if r.inv in Gone(order, dropped) {
      var l :| l in order && l.id in dropped && l.inv == r.inv;
      SameFate(sys, now, fork, reflects, layers, order, ids, failed, dropped, l, r);
    }
    assert r.inv in Ran(layers) && Writer(sys, r.inv, at);
  }

  lemma NewestInGroup(sys: System, layers: seq<RunLayer>, order: seq<RunLayer>, reflects: LayerId,
                      ids: (LayerId, nat) -> EventId, dropped: set<LayerId>, group: seq<M.Entry>, k: nat,
                      r: RunLayer, last: RunLayer, at: CellAt)
    requires Exact(sys.prog, sys.f) && Genuine(sys.prog, layers) && InOrder(order, layers)
    requires group == GroupOf(order, reflects, ids, dropped, Derived(r.inv.producer, reflects))
    requires k < |group| && group[k] == EntryOf(r, reflects, ids) && at in sys.f.outputs(r.inv)
    requires forall j :: k < j < |group| ==> at !in WriteMap(WritesOfEvents(group[j].events))
    requires r in order && last in order && last.id !in dropped && last.inv == r.inv && r.id <= last.id
    ensures r.id == last.id
  {
    InGroup(order, layers, reflects, ids, dropped, last);
    GroupAscends(order, layers, reflects, ids, dropped, Derived(r.inv.producer, reflects));
    var j :| 0 <= j < |group| && group[j] == EntryOf(last, reflects, ids);
    EventsRoundTrip(last, reflects, ids);
    OutputsAre(last.writes, at);
    AccessesByFootprint(sys, layers, last, at);
    M.IdOrder(group, k, j);
  }

  lemma RecordLands(sys: System, layers: seq<RunLayer>, order: seq<RunLayer>, reflects: LayerId, ids: (LayerId, nat) -> EventId,
                    dropped: set<LayerId>, landings: seq<M.Landing>, i: Invocation, at: CellAt)
    requires Exact(sys.prog, sys.f) && Genuine(sys.prog, layers) && InOrder(order, layers)
    requires M.EveryAuthorLands(M.Kept(Entries(order, reflects, ids), dropped), landings)
    requires i in Ran(layers) && i !in Gone(order, dropped) && at in sys.f.outputs(i)
    ensures exists l :: l in Carried(M.Kept(Entries(order, reflects, ids), dropped), landings) && at in l.Records()
  {
    hide Exact, Genuine, M.Kept, M.By, Entries, Written, WriteMap;
    var kept := M.Kept(Entries(order, reflects, ids), dropped);
    var m :| m in layers && m.inv == i;
    var e := EntryOf(m, reflects, ids);
    assert m in order;
    InGroup(order, layers, reflects, ids, dropped, m);
    EventsRoundTrip(m, reflects, ids);
    AccessesByFootprint(sys, layers, m, at);
    OutputsAre(m.writes, at);
    WrittenHas(M.By(e.author, kept), e, at);
    assert e.events != [];
    assert M.HasLanding(landings, e.author);
    var k :| 0 <= k < |landings| && landings[k].author == e.author;
    assert at in Carried(kept, landings)[k].Records();
  }

  // The merge as `MergeRound` performs it, told as what it leaves on the branch.
  lemma LandsIsMerged(sys: System, now: Branch, fork: LayerId, reflects: LayerId, layers: seq<RunLayer>, order: seq<RunLayer>,
                      ids: (LayerId, nat) -> EventId, failed: set<LayerId>, dropped: set<LayerId>, first: LayerId, next: LayerId,
                      landings: seq<M.Landing>, landed: seq<TrunkLayer>)
    requires Exact(sys.prog, sys.f) && SingleWriter(sys.f) && OneVersion(sys) && PlainSources(sys, now.layers)
    requires Genuine(sys.prog, layers) && Ordered(layers) && KnownRan(sys, layers)
    requires Lands(now, fork, reflects, layers, order, ids, failed, dropped, first, next, landings, landed)
    ensures Merged(sys, now, fork, reflects, layers, Gone(order, dropped), landed)
  {
    var gone, kept := Gone(order, dropped), M.Kept(Entries(order, reflects, ids), dropped);
    assert Merging(sys, now, fork, reflects, layers, order, ids, failed, dropped);
    forall i | i in gone
      ensures DropReason(sys, now, fork, gone, i) && i in Ran(layers)
    {
      var l :| l in order && l.id in dropped && l.inv == i;
      WhyGone(sys, now, fork, reflects, layers, order, ids, failed, dropped, l);
    }
    forall k | 0 <= k < |landings|
      ensures landed[k].author.Derived? && landed[k].author.reflects == reflects && landed[k].id > Top(now.layers)
    {
      LandingAuthor(order, layers, reflects, ids, dropped, landings[k], first, next);
    }
    forall l, at | l in landed && at in l.Records()
      ensures LastWritten(sys, layers, gone, l.Records(), at)
    {
      GroupRecord(sys, now, fork, reflects, layers, order, ids, failed, dropped, l.author, at);
    }
    forall i, at | i in Ran(layers) && i !in gone && Writer(sys, i, at)
      ensures exists l :: l in landed && at in l.Records()
    {
      RecordLands(sys, layers, order, reflects, ids, dropped, landings, i, at);
    }
  }

  lemma LandingAuthor(order: seq<RunLayer>, layers: seq<RunLayer>, reflects: LayerId, ids: (LayerId, nat) -> EventId,
                      dropped: set<LayerId>, l: M.Landing, first: LayerId, next: LayerId)
    requires InOrder(order, layers) && M.LandsOne(M.Kept(Entries(order, reflects, ids), dropped), l, first, next)
    ensures l.author.Derived? && l.author.reflects == reflects
  {
    var group := GroupOf(order, reflects, ids, dropped, l.author);
    assert group != [];
    var r := FromGroup(order, layers, reflects, ids, dropped, l.author, group[0]);
  }

  // Every event a merge lands says who made it, how far that is good for and everything its run was shown, and
  // says so as the layer it lands in does.
  lemma EventsClaim(order: seq<RunLayer>, reflects: LayerId, ids: (LayerId, nat) -> EventId, dropped: set<LayerId>, author: Author,
                    l: M.Entry, e: Event) returns (run: RunLayer)
    requires l in GroupOf(order, reflects, ids, dropped, author) && e in l.events
    ensures run in order && run.id == l.id == e.authored && l.id !in dropped
    ensures author == Derived(run.inv.producer, reflects)
    ensures e.derivation.Some? && e.derivation.value.producer == author.producer && e.derivation.value.freshAsOf == author.reflects
    ensures forall at :: at in e.derivation.value.readSet <==> exists c :: c in run.seen && c.at == at
  {
    M.ByMembers(author, M.Kept(Entries(order, reflects, ids), dropped), l);
    M.KeptMembers(Entries(order, reflects, ids), dropped, l);
    var k :| 0 <= k < |order| && Entries(order, reflects, ids)[k] == l;
    run := order[k];
    forall at
      ensures at in Inputs(run.seen) <==> exists c :: c in run.seen && c.at == at
    {
      if c :| c in run.seen && c.at == at {
        var n :| 0 <= n < |run.seen| && run.seen[n] == c;
        assert Inputs(run.seen)[n] == at;
      }
    }
  }
}
