/** Landing a round: which of its layers are applied, and as what. */
module Merge {
  // crates/borg-engine/src/branch.rs, `merge_round`.
  import opened Core
  import opened Transactions

  // One layer of a round, with who wrote it, what it read and wrote, and its events in order.
  datatype Entry = Entry(id: LayerId, author: Author, inputs: seq<CellAt>, outputs: seq<CellAt>, events: seq<Event>)

  // A committed layer on the parent's read path.
  datatype ParentLayer = ParentLayer(id: LayerId, branch: BranchId, author: Author, events: seq<Event>)

  datatype Group = Group(author: Author, layers: seq<Entry>)

  // A layer the merge leaves on the parent: it names events, it does not rewrite them.
  datatype Landing = Landing(id: LayerId, author: Author, members: seq<EventId>)

  datatype Outcome = Outcome(rejected: seq<(LayerId, CellRef)>, cascaded: int, applied: nat, landed: seq<Landing>)

  predicate Ascending(round: seq<Entry>) {
    forall a, b :: 0 <= a < b < |round| ==> round[a].id < round[b].id
  }

  lemma IdOrder(round: seq<Entry>, a: nat, b: nat)
    requires Ascending(round) && a < |round| && b < |round| && round[a].id <= round[b].id
    ensures a <= b
  {
  }

  function AccessesOf(round: seq<Entry>): Invocations {
    if round == [] then map[]
    else
      var last := round[|round| - 1];
      AccessesOf(round[..|round| - 1])[last.id := Accesses(last.inputs, last.outputs)]
  }

  // --- What a layer can fail on ---

  ghost predicate TouchedSince(visible: seq<ParentLayer>, since: LayerId, cell: CellRef) {
    exists l, e :: l in visible && l.author.Source? && l.id > since && e in l.events && e.at.cell == cell
  }

  function DeletedSince(visible: seq<ParentLayer>, parent: BranchId, since: LayerId): set<CellRef> {
    set l, e | l in visible && l.branch == parent && l.author.Source? && l.id > since && e in l.events
               && e.value.Tombstone? && ExistenceOf(e.at.cell) == e.at.cell :: e.at.cell
  }

  ghost predicate GuardFails(round: seq<Entry>, visible: seq<ParentLayer>, since: LayerId, l: Entry) {
    && l.id in AccessesOf(round)
    && exists c :: c in GuardsOf(AccessesOf(round), l.id) && TouchedSince(visible, since, c)
  }

  predicate Dangles(deleted: set<CellRef>, l: Entry) {
    exists e :: e in l.events && ExistenceOf(e.at.cell) in deleted
  }

  // `moved` is the touch index's quick answer: where it says nothing moved, no guard is looked at.
  ghost predicate Fails(round: seq<Entry>, visible: seq<ParentLayer>, parent: BranchId, since: LayerId, moved: bool, l: Entry) {
    (moved && GuardFails(round, visible, since, l)) || Dangles(DeletedSince(visible, parent, since), l)
  }

  // --- What makes a layer stale, read off the round and the parent alone ---

  // A record it read that no layer of the round wrote, on a cell a client has written since.
  ghost predicate ReadMoved(round: seq<Entry>, visible: seq<ParentLayer>, since: LayerId, l: Entry) {
    exists r, p, e :: r in l.inputs && IsWrittenSince(visible, since, r.cell, p, e) && (forall m :: m in round ==> r !in m.outputs)
  }

  ghost predicate IsWrittenSince(visible: seq<ParentLayer>, since: LayerId, cell: CellRef, p: ParentLayer, e: Event) {
    p in visible && p.author.Source? && p.id > since && e in p.events && e.at.cell == cell
  }

  // An event on an object a client has deleted on the parent since.
  ghost predicate ObjectGone(visible: seq<ParentLayer>, parent: BranchId, since: LayerId, l: Entry) {
    exists e, p, t :: e in l.events && IsDeletion(visible, parent, since, p, t) && IsObjectOf(t.at.cell, e.at.cell)
  }

  ghost predicate IsDeletion(visible: seq<ParentLayer>, parent: BranchId, since: LayerId, p: ParentLayer, t: Event) {
    p in visible && p.branch == parent && p.author.Source? && p.id > since && t in p.events && t.value == Tombstone
  }

  ghost predicate Stale(round: seq<Entry>, visible: seq<ParentLayer>, parent: BranchId, since: LayerId, moved: bool, l: Entry) {
    (moved && ReadMoved(round, visible, since, l)) || ObjectGone(visible, parent, since, l)
  }

  lemma EntryAccesses(round: seq<Entry>, l: Entry)
    requires Ascending(round) && l in round
    ensures l.id in AccessesOf(round) && AccessesOf(round)[l.id] == Accesses(l.inputs, l.outputs)
  {
    var k :| 0 <= k < |round| && round[k] == l;
    AccessesAt(round, k);
  }

  lemma EntryOfId(round: seq<Entry>, id: LayerId) returns (l: Entry)
    requires Ascending(round) && id in AccessesOf(round)
    ensures l in round && l.id == id && AccessesOf(round)[id] == Accesses(l.inputs, l.outputs)
  {
    hide AccessesOf, Ascending;
    AccessesOfKeys(round);
    l :| l in round && l.id == id;
    EntryAccesses(round, l);
  }

  lemma GuardIsRead(round: seq<Entry>, l: Entry, cell: CellRef)
    requires Ascending(round) && l in round
    ensures l.id in AccessesOf(round)
    ensures cell in GuardsOf(AccessesOf(round), l.id) <==>
            exists r :: r in l.inputs && r.cell == cell && forall m :: m in round ==> r !in m.outputs
  {
    hide AccessesOf, Ascending;
    EntryAccesses(round, l);
    forall r | r in l.inputs
      ensures r in Produced(AccessesOf(round)) <==> exists m :: m in round && r in m.outputs
    {
      ProducedBy(round, r);
    }
  }

  lemma ProducedBy(round: seq<Entry>, at: CellAt)
    requires Ascending(round)
    ensures at in Produced(AccessesOf(round)) <==> exists m :: m in round && at in m.outputs
  {
    hide AccessesOf, Ascending;
    if m :| m in round && at in m.outputs {
      EntryAccesses(round, m);
    }
    if at in Produced(AccessesOf(round)) {
      var id :| id in AccessesOf(round) && at in AccessesOf(round)[id].outputs;
      var m := EntryOfId(round, id);
    }
  }

  lemma GuardFailsMeans(round: seq<Entry>, visible: seq<ParentLayer>, since: LayerId, l: Entry)
    requires Ascending(round) && l in round
    ensures GuardFails(round, visible, since, l) <==> ReadMoved(round, visible, since, l)
  {
    hide AccessesOf, Ascending, GuardsOf;
    EntryAccesses(round, l);
    forall c
      ensures c in GuardsOf(AccessesOf(round), l.id) <==>
              exists r :: r in l.inputs && r.cell == c && forall m :: m in round ==> r !in m.outputs
    {
      GuardIsRead(round, l, c);
    }
    if GuardFails(round, visible, since, l) {
      var c :| c in GuardsOf(AccessesOf(round), l.id) && TouchedSince(visible, since, c);
      var r :| r in l.inputs && r.cell == c && forall m :: m in round ==> r !in m.outputs;
      var p, e :| p in visible && p.author.Source? && p.id > since && e in p.events && e.at.cell == c;
      assert IsWrittenSince(visible, since, r.cell, p, e);
    }
    if r, p, e :| r in l.inputs && IsWrittenSince(visible, since, r.cell, p, e) && (forall m :: m in round ==> r !in m.outputs) {
      assert r.cell in GuardsOf(AccessesOf(round), l.id) && TouchedSince(visible, since, r.cell);
    }
  }

  lemma DanglesMeans(visible: seq<ParentLayer>, parent: BranchId, since: LayerId, l: Entry)
    ensures Dangles(DeletedSince(visible, parent, since), l) <==> ObjectGone(visible, parent, since, l)
  {
    forall e: Event, t: Event
      ensures IsObjectOf(t.at.cell, e.at.cell) <==> t.at.cell == ExistenceOf(e.at.cell) && ExistenceOf(t.at.cell) == t.at.cell
    {
    }
    if e :| e in l.events && ExistenceOf(e.at.cell) in DeletedSince(visible, parent, since) {
      var p, t :| p in visible && p.branch == parent && p.author.Source? && p.id > since && t in p.events
                  && t.value.Tombstone? && ExistenceOf(t.at.cell) == t.at.cell && t.at.cell == ExistenceOf(e.at.cell);
      assert IsDeletion(visible, parent, since, p, t);
    }
  }

  // A layer is judged failed exactly where it is stale.
  lemma FailedIsStale(round: seq<Entry>, visible: seq<ParentLayer>, parent: BranchId, since: LayerId, moved: bool,
                      failed: set<LayerId>)
    requires Ascending(round) && Judged(round, visible, parent, since, moved, failed)
    ensures forall l :: l in round ==> (l.id in failed <==> Stale(round, visible, parent, since, moved, l))
  {
    hide GuardFails, Dangles, DeletedSince, ReadMoved, ObjectGone;
    forall l | l in round
      ensures l.id in failed <==> Stale(round, visible, parent, since, moved, l)
    {
      GuardFailsMeans(round, visible, since, l);
      DanglesMeans(visible, parent, since, l);
      if l.id in failed {
        var m :| m in round && Fails(round, visible, parent, since, moved, m) && m.id == l.id;
        SameEntry(round, l, m);
      }
    }
  }

  // --- What lands ---

  function Kept(round: seq<Entry>, dropped: set<LayerId>): seq<Entry> {
    if round == [] then []
    else Kept(round[..|round| - 1], dropped) + (if round[|round| - 1].id in dropped then [] else [round[|round| - 1]])
  }

  function By(author: Author, layers: seq<Entry>): seq<Entry> {
    if layers == [] then []
    else By(author, layers[..|layers| - 1]) + (if layers[|layers| - 1].author == author then [layers[|layers| - 1]] else [])
  }

  function Ids(events: seq<Event>): seq<EventId> {
    seq(|events|, k requires 0 <= k < |events| => events[k].id)
  }

  function MembersOf(layers: seq<Entry>): seq<EventId> {
    if layers == [] then [] else MembersOf(layers[..|layers| - 1]) + Ids(layers[|layers| - 1].events)
  }

  function AllMembers(landed: seq<Landing>): seq<EventId> {
    if landed == [] then [] else AllMembers(landed[..|landed| - 1]) + landed[|landed| - 1].members
  }

  function AllGrouped(groups: seq<Group>): seq<EventId> {
    if groups == [] then [] else AllGrouped(groups[..|groups| - 1]) + MembersOf(groups[|groups| - 1].layers)
  }

  // --- Lemmas about the folds ---

  function IdsOf(round: seq<Entry>): set<LayerId> {
    set l | l in round :: l.id
  }

  lemma IdsNext(shorter: seq<Entry>, last: Entry)
    ensures IdsOf(shorter + [last]) == IdsOf(shorter) + {last.id}
  {
  }

  lemma LastIsNew(shorter: seq<Entry>, last: Entry)
    requires Ascending(shorter + [last])
    ensures last.id !in IdsOf(shorter) && Ascending(shorter)
    ensures forall l :: l in shorter ==> l.id != last.id
  {
    var round := shorter + [last];
    forall l | l in shorter
      ensures l.id != last.id
    {
      var k :| 0 <= k < |shorter| && shorter[k] == l;
      assert round[k] == l && round[|shorter|] == last;
    }
    forall a, b | 0 <= a < b < |shorter|
      ensures shorter[a].id < shorter[b].id
    {
      assert round[a].id < round[b].id;
    }
  }

  lemma {:induction false} AccessesOfKeys(round: seq<Entry>)
    requires Ascending(round)
    ensures AccessesOf(round).Keys == IdsOf(round) && |IdsOf(round)| == |round|
  {
    hide AccessesOf, IdsOf, Ascending;
    if round == [] {
      NoAccesses();
    } else {
      var shorter, last := round[..|round| - 1], round[|round| - 1];
      assert round == shorter + [last];
      LastIsNew(shorter, last);
      AccessesOfKeys(shorter);
      IdsNext(shorter, last);
      AccessesNext(shorter, last);
    }
  }

  lemma NoAccesses()
    ensures AccessesOf([]) == map[] && IdsOf([]) == {}
  {
  }

  lemma AccessesNext(shorter: seq<Entry>, last: Entry)
    ensures AccessesOf(shorter + [last]) == AccessesOf(shorter)[last.id := Accesses(last.inputs, last.outputs)]
  {
    assert (shorter + [last])[..|shorter|] == shorter;
  }

  lemma {:induction false} AccessesAt(round: seq<Entry>, k: nat)
    requires Ascending(round) && k < |round|
    ensures round[k].id in AccessesOf(round)
    ensures AccessesOf(round)[round[k].id] == Accesses(round[k].inputs, round[k].outputs)
  {
    var last := |round| - 1;
    if k < last {
      assert round[k].id < round[last].id;
      AccessesAt(round[..last], k);
    }
  }

  lemma {:induction false} AuthorGroup(author: Author, layers: seq<Entry>, l: Entry)
    ensures By(author, layers + [l]) == By(author, layers) + (if l.author == author then [l] else [])
  {
    assert (layers + [l])[..|layers + [l]| - 1] == layers;
  }

  function EventCount(layers: seq<Entry>): nat {
    if layers == [] then 0 else EventCount(layers[..|layers| - 1]) + |layers[|layers| - 1].events|
  }

  // Every event of every layer is named, in layer order and within a layer in its own.
  lemma {:induction false} MemberAt(layers: seq<Entry>, k: nat, j: nat)
    requires k < |layers| && j < |layers[k].events|
    ensures |MembersOf(layers)| == EventCount(layers) && EventCount(layers[..k]) + j < |MembersOf(layers)|
    ensures MembersOf(layers)[EventCount(layers[..k]) + j] == layers[k].events[j].id
  {
    var last := |layers| - 1;
    MemberCount(layers);
    MemberCount(layers[..last]);
    if k < last {
      assert layers[..last][..k] == layers[..k];
      MemberAt(layers[..last], k, j);
    }
  }

  lemma {:induction false} MemberCount(layers: seq<Entry>)
    ensures |MembersOf(layers)| == EventCount(layers)
  {
    if layers != [] {
      MemberCount(layers[..|layers| - 1]);
    }
  }

  lemma MembersAppend(layers: seq<Entry>, l: Entry)
    ensures MembersOf(layers + [l]) == MembersOf(layers) + Ids(l.events)
  {
    assert (layers + [l])[..|layers + [l]| - 1] == layers;
  }

  lemma {:induction false} GroupedAppend(groups: seq<Group>, k: nat, l: Entry)
    requires k < |groups|
    ensures multiset(AllGrouped(groups[k := groups[k].(layers := groups[k].layers + [l])]))
            == multiset(AllGrouped(groups)) + multiset(Ids(l.events))
  {
    hide MembersOf, Ids;
    var after := groups[k := groups[k].(layers := groups[k].layers + [l])];
    var last := |groups| - 1;
    if k == last {
      assert after[..last] == groups[..last];
      MembersAppend(groups[k].layers, l);
    } else {
      GroupedAppend(groups[..last], k, l);
      assert after[..last] == groups[..last][k := groups[k].(layers := groups[k].layers + [l])];
    }
  }

  lemma GroupedNew(groups: seq<Group>, g: Group)
    ensures AllGrouped(groups + [g]) == AllGrouped(groups) + MembersOf(g.layers)
  {
    assert (groups + [g])[..|groups + [g]| - 1] == groups;
  }

  lemma {:induction false} KeptMembers(round: seq<Entry>, dropped: set<LayerId>, l: Entry)
    requires l in Kept(round, dropped)
    ensures l in round && l.id !in dropped
  {
    if l !in Kept(round[..|round| - 1], dropped) {
    } else {
      KeptMembers(round[..|round| - 1], dropped, l);
    }
  }

  lemma {:induction false} ByMembers(author: Author, layers: seq<Entry>, l: Entry)
    requires l in By(author, layers)
    ensures l in layers && l.author == author
  {
    if l in By(author, layers[..|layers| - 1]) {
      ByMembers(author, layers[..|layers| - 1], l);
    }
  }

  lemma {:induction false} KeptAscends(round: seq<Entry>, dropped: set<LayerId>)
    requires Ascending(round)
    ensures Ascending(Kept(round, dropped))
  {
    if round != [] {
      var shorter, last := round[..|round| - 1], round[|round| - 1];
      assert round == shorter + [last];
      LastIsNew(shorter, last);
      KeptAscends(shorter, dropped);
      forall l | l in Kept(shorter, dropped)
        ensures l.id < last.id
      {
        KeptMembers(shorter, dropped, l);
        Below(shorter, last, l);
      }
    }
  }

  lemma Below(shorter: seq<Entry>, last: Entry, l: Entry)
    requires Ascending(shorter + [last]) && l in shorter
    ensures l.id < last.id
  {
    var k :| 0 <= k < |shorter| && shorter[k] == l;
    assert (shorter + [last])[k].id < (shorter + [last])[|shorter|].id;
  }

  lemma {:induction false} ByAscends(author: Author, layers: seq<Entry>)
    requires Ascending(layers)
    ensures Ascending(By(author, layers))
  {
    if layers != [] {
      var shorter, last := layers[..|layers| - 1], layers[|layers| - 1];
      assert layers == shorter + [last];
      LastIsNew(shorter, last);
      ByAscends(author, shorter);
      forall l | l in By(author, shorter)
        ensures l.id < last.id
      {
        ByMembers(author, shorter, l);
        Below(shorter, last, l);
      }
    }
  }

  lemma {:induction false} KeptAll(round: seq<Entry>, dropped: set<LayerId>, l: Entry)
    requires l in round && l.id !in dropped
    ensures l in Kept(round, dropped)
  {
    if l != round[|round| - 1] {
      KeptAll(round[..|round| - 1], dropped, l);
    }
  }

  lemma {:induction false} KeptCount(round: seq<Entry>, dropped: set<LayerId>)
    requires Ascending(round) && dropped <= IdsOf(round)
    ensures |Kept(round, dropped)| + |dropped| == |round|
  {
    hide Ascending, IdsOf, Kept;
    if round == [] {
      KeptNone(round, dropped);
    } else {
      var shorter, last := round[..|round| - 1], round[|round| - 1];
      assert round == shorter + [last];
      LastIsNew(shorter, last);
      IdsNext(shorter, last);
      var rest := dropped - {last.id};
      KeptCount(shorter, rest);
      SameKept(shorter, dropped, rest);
      KeptNext(round, dropped, |round| - 1);
      assert round[..|round|] == round;
      assert last.id in dropped ==> dropped == rest + {last.id};
      assert last.id !in dropped ==> dropped == rest;
    }
  }

  lemma KeptNone(round: seq<Entry>, dropped: set<LayerId>)
    requires round == [] && dropped <= IdsOf(round)
    ensures Kept(round, dropped) == [] && dropped == {}
  {
  }

  lemma {:induction false} SameKept(round: seq<Entry>, one: set<LayerId>, two: set<LayerId>)
    requires forall l :: l in round ==> (l.id in one <==> l.id in two)
    ensures Kept(round, one) == Kept(round, two)
  {
    if round != [] {
      SameKept(round[..|round| - 1], one, two);
    }
  }

  // --- The merge ---

  ghost function GuardFailures(round: seq<Entry>, visible: seq<ParentLayer>, since: LayerId, n: nat): set<LayerId>
    requires n <= |round|
  {
    set k | 0 <= k < n && GuardFails(round, visible, since, round[k]) :: round[k].id
  }

  function Danglers(round: seq<Entry>, deleted: set<CellRef>, n: nat): set<LayerId>
    requires n <= |round|
  {
    set k | 0 <= k < n && Dangles(deleted, round[k]) :: round[k].id
  }

  // Exactly the layers whose guards, where they are looked at, or objects moved on the parent.
  ghost predicate Judged(round: seq<Entry>, visible: seq<ParentLayer>, parent: BranchId, since: LayerId, moved: bool,
                         failed: set<LayerId>)
  {
    failed == set l | l in round && Fails(round, visible, parent, since, moved, l) :: l.id
  }

  // Skipping the guards is sound exactly where no layer would have failed on its guards alone.
  lemma SkippingIsSoundWhen(round: seq<Entry>, visible: seq<ParentLayer>, parent: BranchId, since: LayerId, moved: bool,
                            failed: set<LayerId>)
    requires Ascending(round) && Judged(round, visible, parent, since, moved, failed)
    ensures Judged(round, visible, parent, since, true, failed) <==>
            moved || forall l :: l in round && GuardFails(round, visible, since, l) ==> Dangles(DeletedSince(visible, parent, since), l)
  {
    hide GuardFails, Dangles, DeletedSince;
    if !moved && Judged(round, visible, parent, since, true, failed) {
      forall l | l in round && GuardFails(round, visible, since, l)
        ensures Dangles(DeletedSince(visible, parent, since), l)
      {
        assert Fails(round, visible, parent, since, true, l);
        assert l.id in failed;
        var m :| m in round && Fails(round, visible, parent, since, false, m) && m.id == l.id;
        SameEntry(round, l, m);
      }
    }
  }

  ghost predicate DanglesFirst(l: Entry, deleted: set<CellRef>, cell: CellRef) {
    cell in deleted && exists k :: 0 <= k < |l.events| && ExistenceOf(l.events[k].at.cell) == cell
                                   && forall j :: 0 <= j < k ==> ExistenceOf(l.events[j].at.cell) !in deleted
  }

  ghost predicate GuardMoved(round: seq<Entry>, visible: seq<ParentLayer>, since: LayerId, l: Entry, cell: CellRef) {
    l.id in AccessesOf(round) && cell in GuardsOf(AccessesOf(round), l.id) && TouchedSince(visible, since, cell)
  }

  ghost predicate GuardsBlamed(round: seq<Entry>, visible: seq<ParentLayer>, since: LayerId, rejected: seq<(LayerId, CellRef)>) {
    forall k :: 0 <= k < |rejected| ==> ForGuard(round, visible, since, rejected[k])
  }

  ghost predicate ForGuard(round: seq<Entry>, visible: seq<ParentLayer>, since: LayerId, r: (LayerId, CellRef)) {
    exists l :: l in round && l.id == r.0 && GuardMoved(round, visible, since, l, r.1)
  }

  ghost predicate ForReason(round: seq<Entry>, visible: seq<ParentLayer>, deleted: set<CellRef>, since: LayerId, r: (LayerId, CellRef)) {
    exists l :: l in round && l.id == r.0 && Blames(round, visible, deleted, since, l, r.1)
  }

  lemma GuardsBlame(round: seq<Entry>, visible: seq<ParentLayer>, deleted: set<CellRef>, since: LayerId, rejected: seq<(LayerId, CellRef)>)
    requires GuardsBlamed(round, visible, since, rejected)
    ensures Blamed(round, visible, deleted, since, rejected)
  {
    forall k | 0 <= k < |rejected|
      ensures ForReason(round, visible, deleted, since, rejected[k])
    {
      assert ForGuard(round, visible, since, rejected[k]);
      var l :| l in round && l.id == rejected[k].0 && GuardMoved(round, visible, since, l, rejected[k].1);
      assert Blames(round, visible, deleted, since, l, rejected[k].1);
    }
  }

  // The cell a rejection blames: a guard the parent touched, or the first object written to that it deleted.
  ghost predicate Blames(round: seq<Entry>, visible: seq<ParentLayer>, deleted: set<CellRef>, since: LayerId, l: Entry, cell: CellRef) {
    || GuardMoved(round, visible, since, l, cell)
    || DanglesFirst(l, deleted, cell)
  }

  ghost predicate Blamed(round: seq<Entry>, visible: seq<ParentLayer>, deleted: set<CellRef>, since: LayerId,
                         rejected: seq<(LayerId, CellRef)>)
  {
    forall k :: 0 <= k < |rejected| ==> ForReason(round, visible, deleted, since, rejected[k])
  }

  lemma BlameOne(round: seq<Entry>, visible: seq<ParentLayer>, deleted: set<CellRef>, since: LayerId,
                 rejected: seq<(LayerId, CellRef)>, l: Entry, cell: CellRef)
    requires Blamed(round, visible, deleted, since, rejected) && l in round && Blames(round, visible, deleted, since, l, cell)
    ensures Blamed(round, visible, deleted, since, rejected + [(l.id, cell)])
  {
    hide Blames;
    assert ForReason(round, visible, deleted, since, (l.id, cell));
  }

  // Each failed layer is named once.
  ghost predicate Named(failed: set<LayerId>, rejected: seq<(LayerId, CellRef)>) {
    && |rejected| == |failed|
    && (forall id :: id in failed <==> exists k :: 0 <= k < |rejected| && rejected[k].0 == id)
  }

  lemma NameOne(failed: set<LayerId>, rejected: seq<(LayerId, CellRef)>, id: LayerId, cell: CellRef)
    requires Named(failed, rejected) && id !in failed
    ensures Named(failed + {id}, rejected + [(id, cell)])
  {
    var after := rejected + [(id, cell)];
    assert after[|rejected|] == (id, cell);
    forall x | x in failed
      ensures exists k :: 0 <= k < |after| && after[k].0 == x
    {
      var k :| 0 <= k < |rejected| && rejected[k].0 == x;
      assert after[k].0 == x;
    }
  }

  // All guards, against the parent as it stood before any of this lands.
  method CheckGuards(round: seq<Entry>, visible: seq<ParentLayer>, since: LayerId, moved: bool)
    returns (failed: set<LayerId>, rejected: seq<(LayerId, CellRef)>)
    requires Ascending(round)
    ensures failed == (if moved then GuardFailures(round, visible, since, |round|) else {}) && Named(failed, rejected)
    ensures GuardsBlamed(round, visible, since, rejected)
  {
    hide GuardMoved, GuardsBlamed, Named, GuardFailures;
    failed, rejected := {}, [];
    NoneBlamed(round, visible, since);
    AccessesOfKeys(round);
    if !moved {
      return;
    }
    for n := 0 to |round|
      invariant failed == GuardFailures(round, visible, since, n) && Named(failed, rejected)
      invariant GuardsBlamed(round, visible, since, rejected)
    {
      var l := round[n];
      var cell := FirstTouched(visible, since, GuardsOf(AccessesOf(round), l.id));
      GuardsNext(round, visible, since, n);
      if cell.Some? {
        NameOne(failed, rejected, l.id, cell.value);
        GuardBlamed(round, visible, since, rejected, n, cell.value);
        failed, rejected := failed + {l.id}, rejected + [(l.id, cell.value)];
      }
    }
  }

  lemma NoneBlamed(round: seq<Entry>, visible: seq<ParentLayer>, since: LayerId)
    ensures GuardsBlamed(round, visible, since, []) && Named({}, []) && GuardFailures(round, visible, since, 0) == {}
  {
  }

  lemma GuardBlamed(round: seq<Entry>, visible: seq<ParentLayer>, since: LayerId, rejected: seq<(LayerId, CellRef)>, n: nat, cell: CellRef)
    requires Ascending(round) && n < |round| && round[n].id in AccessesOf(round) && GuardsBlamed(round, visible, since, rejected)
    requires cell in GuardsOf(AccessesOf(round), round[n].id) && TouchedSince(visible, since, cell)
    ensures GuardsBlamed(round, visible, since, rejected + [(round[n].id, cell)])
  {
    hide TouchedSince, AccessesOf, GuardsOf;
    assert GuardMoved(round, visible, since, round[n], cell);
    assert ForGuard(round, visible, since, (round[n].id, cell));
  }

  lemma GuardsNext(round: seq<Entry>, visible: seq<ParentLayer>, since: LayerId, n: nat)
    requires Ascending(round) && n < |round|
    ensures round[n].id !in GuardFailures(round, visible, since, n)
    ensures GuardFailures(round, visible, since, n + 1) ==
            GuardFailures(round, visible, since, n) + (if GuardFails(round, visible, since, round[n]) then {round[n].id} else {})
  {
  }

  // The guard check itself: a guard cell some source layer above `since` wrote, if there is one.
  method FirstTouched(visible: seq<ParentLayer>, since: LayerId, cells: set<CellRef>) returns (r: Option<CellRef>)
    ensures r.Some? ==> r.value in cells && TouchedSince(visible, since, r.value)
    ensures r.None? ==> forall c :: c in cells ==> !TouchedSince(visible, since, c)
  {
    var hit := set l, e | l in visible && l.author.Source? && l.id > since && e in l.events && e.at.cell in cells :: e.at.cell;
    assert forall l, e :: l in visible && l.author.Source? && l.id > since && e in l.events && e.at.cell in cells ==> e.at.cell in hit;
    if hit == {} {
      return None;
    }
    var c :| c in hit;
    r := Some(c);
  }

  // Whatever passed its guards but wrote to an object the parent deleted meanwhile.
  method CheckDangling(round: seq<Entry>, ghost visible: seq<ParentLayer>, ghost since: LayerId, deleted: set<CellRef>,
                       failed0: set<LayerId>, rejected0: seq<(LayerId, CellRef)>)
    returns (failed: set<LayerId>, rejected: seq<(LayerId, CellRef)>)
    requires Named(failed0, rejected0) && Blamed(round, visible, deleted, since, rejected0)
    ensures failed == failed0 + Danglers(round, deleted, |round|) && Named(failed, rejected)
    ensures Blamed(round, visible, deleted, since, rejected)
  {
    hide Blames, DanglesFirst, Dangles, Blamed;
    failed, rejected := failed0, rejected0;
    for n := 0 to |round|
      invariant failed == failed0 + Danglers(round, deleted, n) && Named(failed, rejected)
      invariant Blamed(round, visible, deleted, since, rejected)
    {
      ghost var before := failed;
      var l := round[n];
      if l.id !in failed {
        var cell := FirstDangling(l, deleted);
        if cell.Some? {
          NameOne(failed, rejected, l.id, cell.value);
          DanglingBlames(round, visible, deleted, since, l, cell.value);
          BlameOne(round, visible, deleted, since, rejected, l, cell.value);
          failed, rejected := failed + {l.id}, rejected + [(l.id, cell.value)];
        }
      }
      DanglersNext(round, deleted, n, failed0, before, failed);
    }
  }

  lemma DanglingBlames(round: seq<Entry>, visible: seq<ParentLayer>, deleted: set<CellRef>, since: LayerId, l: Entry, cell: CellRef)
    requires DanglesFirst(l, deleted, cell)
    ensures Blames(round, visible, deleted, since, l, cell)
  {
  }

  // The first event whose object is gone.
  method FirstDangling(l: Entry, deleted: set<CellRef>) returns (r: Option<CellRef>)
    ensures r.Some? <==> Dangles(deleted, l)
    ensures r.Some? ==> DanglesFirst(l, deleted, r.value)
  {
    for k := 0 to |l.events|
      invariant forall j :: 0 <= j < k ==> ExistenceOf(l.events[j].at.cell) !in deleted
    {
      var cell := ExistenceOf(l.events[k].at.cell);
      if cell in deleted {
        assert l.events[k] in l.events;
        return Some(cell);
      }
    }
    r := None;
  }

  lemma DanglersNext(round: seq<Entry>, deleted: set<CellRef>, n: nat, failed0: set<LayerId>,
                     before: set<LayerId>, after: set<LayerId>)
    requires n < |round| && before == failed0 + Danglers(round, deleted, n)
    requires after == if Dangles(deleted, round[n]) then before + {round[n].id} else before
    ensures after == failed0 + Danglers(round, deleted, n + 1)
  {
    assert Danglers(round, deleted, n + 1) ==
           if Dangles(deleted, round[n]) then Danglers(round, deleted, n) + {round[n].id} else Danglers(round, deleted, n);
  }

  lemma AllJudged(round: seq<Entry>, visible: seq<ParentLayer>, parent: BranchId, since: LayerId, moved: bool)
    ensures Judged(round, visible, parent, since, moved, (if moved then GuardFailures(round, visible, since, |round|) else {})
                   + Danglers(round, DeletedSince(visible, parent, since), |round|))
  {
    hide GuardFails, Dangles, DeletedSince;
    forall l | l in round && Fails(round, visible, parent, since, moved, l)
      ensures l.id in (if moved then GuardFailures(round, visible, since, |round|) else {})
                      + Danglers(round, DeletedSince(visible, parent, since), |round|)
    {
      var k :| 0 <= k < |round| && round[k] == l;
    }
  }

  // One group per author, holding that author's kept layers in order.
  ghost predicate Grouped(kept: seq<Entry>, groups: seq<Group>) {
    && (forall a, b :: 0 <= a < b < |groups| ==> groups[a].author != groups[b].author)
    && (forall k :: 0 <= k < |groups| ==> groups[k].layers == By(groups[k].author, kept))
    && (forall l :: l in kept ==> HasGroup(groups, l.author))
  }

  ghost predicate HasGroup(groups: seq<Group>, author: Author) {
    exists k :: 0 <= k < |groups| && groups[k].author == author
  }

  // Nothing is lost or doubled between the groups.
  ghost predicate Conserved(kept: seq<Entry>, groups: seq<Group>) {
    multiset(AllGrouped(groups)) == multiset(MembersOf(kept))
  }

  lemma {:induction false} NoneBy(author: Author, layers: seq<Entry>)
    requires forall l :: l in layers ==> l.author != author
    ensures By(author, layers) == []
  {
    if layers != [] {
      NoneBy(author, layers[..|layers| - 1]);
    }
  }

  function Joined(groups: seq<Group>, k: nat, l: Entry): seq<Group>
    requires k < |groups|
  {
    groups[k := groups[k].(layers := groups[k].layers + [l])]
  }

  lemma JoinGroup(kept: seq<Entry>, groups: seq<Group>, l: Entry, k: nat)
    requires Grouped(kept, groups) && k < |groups| && groups[k].author == l.author
    ensures Grouped(kept + [l], Joined(groups, k, l))
  {
    var after := Joined(groups, k, l);
    assert forall j :: 0 <= j < |after| ==> after[j].author == groups[j].author;
    forall j | 0 <= j < |after|
      ensures after[j].layers == By(after[j].author, kept + [l])
    {
      AuthorGroup(groups[j].author, kept, l);
    }
    forall m | m in kept + [l]
      ensures HasGroup(after, m.author)
    {
      assert HasGroup(groups, m.author);
      var j :| 0 <= j < |groups| && groups[j].author == m.author;
      assert after[j].author == m.author;
    }
  }

  lemma NewGroup(kept: seq<Entry>, groups: seq<Group>, l: Entry)
    requires Grouped(kept, groups) && !HasGroup(groups, l.author)
    ensures Grouped(kept + [l], groups + [Group(l.author, [l])])
  {
    hide By;
    var after := groups + [Group(l.author, [l])];
    forall m | m in kept
      ensures m.author != l.author
    {
      assert HasGroup(groups, m.author);
    }
    NoneBy(l.author, kept);
    forall j | 0 <= j < |after|
      ensures after[j].layers == By(after[j].author, kept + [l])
    {
      AuthorGroup(after[j].author, kept, l);
      assert By(l.author, kept) + [l] == [l];
    }
    assert after[|groups|].author == l.author;
    forall m | m in kept
      ensures HasGroup(after, m.author)
    {
      assert HasGroup(groups, m.author);
      var j :| 0 <= j < |groups| && groups[j].author == m.author;
      assert after[j].author == m.author;
    }
  }

  lemma JoinConserves(kept: seq<Entry>, groups: seq<Group>, l: Entry, k: nat)
    requires Conserved(kept, groups) && k < |groups|
    ensures Conserved(kept + [l], Joined(groups, k, l))
  {
    GroupedAppend(groups, k, l);
    MembersAppend(kept, l);
  }

  lemma NewConserves(kept: seq<Entry>, groups: seq<Group>, l: Entry)
    requires Conserved(kept, groups)
    ensures Conserved(kept + [l], groups + [Group(l.author, [l])])
  {
    GroupedNew(groups, Group(l.author, [l]));
    MembersAppend([], l);
    MembersAppend(kept, l);
    assert [] + [l] == [l];
  }

  method FindGroup(groups: seq<Group>, author: Author) returns (k: nat)
    ensures k < |groups| ==> groups[k].author == author
    ensures k >= |groups| ==> !HasGroup(groups, author)
  {
    k := 0;
    while k < |groups| && groups[k].author != author
      invariant 0 <= k <= |groups| && forall j :: 0 <= j < k ==> groups[j].author != author
    {
      k := k + 1;
    }
  }

  method GroupByAuthor(round: seq<Entry>, dropped: set<LayerId>) returns (groups: seq<Group>, applied: nat)
    ensures Grouped(Kept(round, dropped), groups) && Conserved(Kept(round, dropped), groups)
    ensures applied == |Kept(round, dropped)|
  {
    hide Grouped, Conserved, Kept;
    groups, applied := [], 0;
    NothingKept(dropped);
    assert round[..0] == [];
    for n := 0 to |round|
      invariant Grouped(Kept(round[..n], dropped), groups)
      invariant Conserved(Kept(round[..n], dropped), groups)
      invariant applied == |Kept(round[..n], dropped)|
    {
      KeptNext(round, dropped, n);
      if round[n].id in dropped {
        continue;
      }
      applied := applied + 1;
      groups := AddToGroup(Kept(round[..n], dropped), groups, round[n]);
    }
    assert round[..|round|] == round;
  }

  lemma NothingKept(dropped: set<LayerId>)
    ensures Kept([], dropped) == [] && Grouped([], []) && Conserved([], [])
  {
  }

  lemma KeptNext(round: seq<Entry>, dropped: set<LayerId>, n: nat)
    requires n < |round|
    ensures Kept(round[..n + 1], dropped) ==
            if round[n].id in dropped then Kept(round[..n], dropped) else Kept(round[..n], dropped) + [round[n]]
  {
    assert round[..n + 1][..n] == round[..n];
  }

  method AddToGroup(ghost kept: seq<Entry>, groups: seq<Group>, l: Entry) returns (after: seq<Group>)
    requires Grouped(kept, groups) && Conserved(kept, groups)
    ensures Grouped(kept + [l], after) && Conserved(kept + [l], after)
  {
    var k := FindGroup(groups, l.author);
    if k < |groups| {
      JoinGroup(kept, groups, l, k);
      JoinConserves(kept, groups, l, k);
      after := Joined(groups, k, l);
    } else {
      NewGroup(kept, groups, l);
      NewConserves(kept, groups, l);
      after := groups + [Group(l.author, [l])];
    }
  }

  // What the landed layers owe the kept ones: one layer per author that wrote anything, in fresh ids,
  // naming exactly that author's events in layer order.
  ghost predicate LandedBy(kept: seq<Entry>, landed: seq<Landing>, first: LayerId, next: LayerId) {
    && (forall a, b :: 0 <= a < b < |landed| ==> landed[a].id < landed[b].id && landed[a].author != landed[b].author)
    && (forall k :: 0 <= k < |landed| ==> LandsOne(kept, landed[k], first, next))
  }

  ghost predicate LandsOne(kept: seq<Entry>, l: Landing, first: LayerId, next: LayerId) {
    first <= l.id < next && l.members != [] && l.members == MembersOf(By(l.author, kept))
  }

  ghost predicate EveryAuthorLands(kept: seq<Entry>, landed: seq<Landing>) {
    forall l :: l in kept && l.events != [] ==> HasLanding(landed, l.author)
  }

  ghost predicate HasLanding(landed: seq<Landing>, author: Author) {
    exists k :: 0 <= k < |landed| && landed[k].author == author
  }

  // And nothing is lost or doubled across them.
  ghost predicate Lands(kept: seq<Entry>, landed: seq<Landing>, first: LayerId, next: LayerId) {
    && LandedBy(kept, landed, first, next) && EveryAuthorLands(kept, landed)
    && multiset(AllMembers(landed)) == multiset(MembersOf(kept))
  }

  ghost predicate LandedUpTo(groups: seq<Group>, n: nat, landed: seq<Landing>) {
    forall k :: 0 <= k < n && k < |groups| && MembersOf(groups[k].layers) != [] ==> HasLanding(landed, groups[k].author)
  }

  lemma LandedUpToNext(groups: seq<Group>, n: nat, landed: seq<Landing>, more: seq<Landing>)
    requires LandedUpTo(groups, n, landed) && n < |groups|
    requires more == [] || exists id, members :: more == [Landing(id, groups[n].author, members)]
    requires more == [] ==> MembersOf(groups[n].layers) == []
    ensures LandedUpTo(groups, n + 1, landed + more)
  {
    forall k | 0 <= k < n + 1 && MembersOf(groups[k].layers) != []
      ensures HasLanding(landed + more, groups[k].author)
    {
      if k < n {
        var j :| 0 <= j < |landed| && landed[j].author == groups[k].author;
        assert (landed + more)[j].author == groups[k].author;
      } else {
        assert (landed + more)[|landed|].author == groups[n].author;
      }
    }
  }

  lemma {:induction false} ByHas(author: Author, kept: seq<Entry>, l: Entry)
    requires l in kept && l.author == author
    ensures l in By(author, kept)
  {
    if l != kept[|kept| - 1] {
      ByHas(author, kept[..|kept| - 1], l);
    }
  }

  lemma {:induction false} MembersThere(layers: seq<Entry>, l: Entry)
    requires l in layers && l.events != []
    ensures MembersOf(layers) != []
  {
    if l == layers[|layers| - 1] {
      assert |Ids(l.events)| > 0;
    } else {
      MembersThere(layers[..|layers| - 1], l);
    }
  }

  lemma AllLanded(kept: seq<Entry>, groups: seq<Group>, landed: seq<Landing>)
    requires Grouped(kept, groups) && LandedUpTo(groups, |groups|, landed)
    ensures EveryAuthorLands(kept, landed)
  {
    forall l | l in kept && l.events != []
      ensures HasLanding(landed, l.author)
    {
      assert HasGroup(groups, l.author);
      ByHas(l.author, kept, l);
      MembersThere(By(l.author, kept), l);
    }
  }

  ghost predicate NotYet(landed: seq<Landing>, groups: seq<Group>, n: nat) {
    forall a, k :: 0 <= a < |landed| && n <= k < |groups| ==> landed[a].author != groups[k].author
  }

  lemma LandStep(kept: seq<Entry>, groups: seq<Group>, n: nat, landed: seq<Landing>, first: LayerId, next: LayerId)
    requires Grouped(kept, groups) && n < |groups| && first <= next
    requires LandedBy(kept, landed, first, next) && NotYet(landed, groups, n)
    requires MembersOf(groups[n].layers) != []
    ensures var after := landed + [Landing(next, groups[n].author, MembersOf(groups[n].layers))];
            LandedBy(kept, after, first, next + 1) && NotYet(after, groups, n + 1)
  {
  }

  lemma LandedNext(groups: seq<Group>, n: nat, landed: seq<Landing>, l: Landing)
    requires n < |groups| && AllMembers(landed) == AllGrouped(groups[..n]) && l.members == MembersOf(groups[n].layers)
    ensures AllMembers(landed + [l]) == AllGrouped(groups[..n + 1])
    ensures l.members == [] ==> AllMembers(landed) == AllGrouped(groups[..n + 1])
  {
    assert groups[..n + 1][..n] == groups[..n];
    assert (landed + [l])[..|landed + [l]| - 1] == landed;
  }

  ghost predicate LandedFor(kept: seq<Entry>, groups: seq<Group>, n: nat, landed: seq<Landing>, first: LayerId, next: LayerId)
    requires n <= |groups|
  {
    && first <= next
    && LandedBy(kept, landed, first, next) && NotYet(landed, groups, n)
    && AllMembers(landed) == AllGrouped(groups[..n]) && LandedUpTo(groups, n, landed)
  }

  // One group into one parent layer. A layer nothing went into is abandoned: its id is spent and nothing lands.
  method LandGroup(ghost kept: seq<Entry>, groups: seq<Group>, n: nat, before: seq<Landing>, ghost first: LayerId, id: LayerId)
    returns (landed: seq<Landing>)
    requires Grouped(kept, groups) && n < |groups| && LandedFor(kept, groups, n, before, first, id)
    ensures LandedFor(kept, groups, n + 1, landed, first, id + 1)
  {
    var layer := Landing(id, groups[n].author, MembersOf(groups[n].layers));
    LandedNext(groups, n, before, layer);
    if layer.members == [] {
      LandedUpToNext(groups, n, before, []);
      assert before + [] == before;
      landed := before;
    } else {
      LandedUpToNext(groups, n, before, [layer]);
      LandStep(kept, groups, n, before, first, id);
      landed := before + [layer];
    }
  }

  method LandGroups(ghost kept: seq<Entry>, groups: seq<Group>, first: LayerId) returns (landed: seq<Landing>, next: LayerId)
    requires Grouped(kept, groups) && Conserved(kept, groups)
    ensures Lands(kept, landed, first, next) && first <= next
  {
    landed, next := [], first;
    for n := 0 to |groups|
      invariant LandedFor(kept, groups, n, landed, first, next)
    {
      landed := LandGroup(kept, groups, n, landed, first, next);
      next := next + 1;
    }
    assert groups[..|groups|] == groups;
    AllLanded(kept, groups, landed);
  }

  // What an applied layer can rely on: the parent still shows what it read outside its own round, its
  // objects are still there, and nothing it read came from a layer that did not land.
  ghost predicate Consistent(round: seq<Entry>, visible: seq<ParentLayer>, parent: BranchId, since: LayerId, moved: bool,
                             dropped: set<LayerId>)
  {
    forall l :: l in Kept(round, dropped) ==>
      && !Fails(round, visible, parent, since, moved, l)
      && (forall d :: d in dropped ==> !Consumes(AccessesOf(round), l.id, d))
  }

  lemma KeptIsConsistent(round: seq<Entry>, visible: seq<ParentLayer>, parent: BranchId, since: LayerId, moved: bool,
                         failed: set<LayerId>, dropped: set<LayerId>)
    requires Judged(round, visible, parent, since, moved, failed) && LeastClosed(AccessesOf(round), failed, dropped)
    ensures Consistent(round, visible, parent, since, moved, dropped)
  {
    forall l | l in Kept(round, dropped)
      ensures !Fails(round, visible, parent, since, moved, l)
      ensures forall d :: d in dropped ==> !Consumes(AccessesOf(round), l.id, d)
    {
      KeptMembers(round, dropped, l);
    }
  }

  // --- Which layers go with a failed one, read off the round alone ---

  // `l` read a cell that `m` wrote, at whatever version of either.
  predicate ReadsFrom(l: Entry, m: Entry) {
    exists r, w :: r in l.inputs && w in m.outputs && r.cell == w.cell
  }

  // From a failed layer, each reading from the one before it.
  ghost predicate IsChain(round: seq<Entry>, failed: set<LayerId>, chain: seq<Entry>, l: Entry) {
    && chain != [] && chain[0].id in failed && chain[|chain| - 1] == l
    && (forall k :: 0 <= k < |chain| ==> chain[k] in round)
    && (forall k :: 0 < k < |chain| ==> ReadsFrom(chain[k], chain[k - 1]))
  }

  ghost predicate Descends(round: seq<Entry>, failed: set<LayerId>, l: Entry) {
    exists chain :: IsChain(round, failed, chain, l)
  }

  lemma ConsumesIs(round: seq<Entry>, l: Entry, m: Entry)
    requires Ascending(round) && l in round && m in round
    ensures Consumes(AccessesOf(round), l.id, m.id) <==> ReadsFrom(l, m)
  {
    hide AccessesOf, Ascending;
    EntryAccesses(round, l);
    EntryAccesses(round, m);
  }

  lemma DescendsOn(round: seq<Entry>, failed: set<LayerId>, m: Entry, l: Entry)
    requires Descends(round, failed, m) && l in round && ReadsFrom(l, m)
    ensures Descends(round, failed, l)
  {
    hide ReadsFrom;
    var chain :| IsChain(round, failed, chain, m);
    assert IsChain(round, failed, chain + [l], l);
  }

  lemma {:induction false} ChainIsDropped(round: seq<Entry>, failed: set<LayerId>, dropped: set<LayerId>, chain: seq<Entry>, l: Entry)
    requires Ascending(round) && LeastClosed(AccessesOf(round), failed, dropped) && IsChain(round, failed, chain, l)
    ensures l.id in dropped
  {
    hide AccessesOf, Ascending, ReadsFrom, Consumes;
    var last := |chain| - 1;
    if last > 0 {
      assert IsChain(round, failed, chain[..last], chain[last - 1]);
      ChainIsDropped(round, failed, dropped, chain[..last], chain[last - 1]);
      ConsumesIs(round, l, chain[last - 1]);
    }
  }

  // What goes is exactly what descends from a failed layer.
  lemma DroppedDescends(round: seq<Entry>, failed: set<LayerId>, dropped: set<LayerId>)
    requires Ascending(round) && failed <= IdsOf(round) && LeastClosed(AccessesOf(round), failed, dropped)
    ensures dropped <= IdsOf(round) && forall l :: l in round ==> (l.id in dropped <==> Descends(round, failed, l))
  {
    hide AccessesOf, Ascending, ReadsFrom, Consumes;
    var descendants := set l | l in round && Descends(round, failed, l) :: l.id;
    forall id | id in failed
      ensures id in descendants
    {
      var l :| l in round && l.id == id;
      assert IsChain(round, failed, [l], l);
    }
    forall d, m | d in descendants && Consumes(AccessesOf(round), m, d)
      ensures m in descendants
    {
      var from :| from in round && Descends(round, failed, from) && from.id == d;
      var to := Consumer(round, m, d);
      ConsumesIs(round, to, from);
      DescendsOn(round, failed, from, to);
    }
    assert dropped <= descendants;
    forall l | l in round
      ensures l.id in dropped <==> Descends(round, failed, l)
    {
      if l.id in dropped {
        var m :| m in round && Descends(round, failed, m) && m.id == l.id;
        SameEntry(round, l, m);
      }
      if chain :| IsChain(round, failed, chain, l) {
        ChainIsDropped(round, failed, dropped, chain, l);
      }
    }
  }

  lemma Consumer(round: seq<Entry>, m: LayerId, d: LayerId) returns (l: Entry)
    requires Ascending(round) && Consumes(AccessesOf(round), m, d)
    ensures l in round && l.id == m
  {
    l := EntryOfId(round, m);
  }

  lemma SameEntry(round: seq<Entry>, l: Entry, m: Entry)
    requires Ascending(round) && l in round && m in round && l.id == m.id
    ensures l == m
  {
    var a, b :| 0 <= a < |round| && round[a] == l && 0 <= b < |round| && round[b] == m;
    IdOrder(round, a, b);
    IdOrder(round, b, a);
  }

  // The layers dropped are exactly those that had to go: each failed itself, or read what another
  // dropped layer wrote. Every layer is rejected, cascaded or applied. Where the guards are skipped the
  // parent must show what a layer read for the subset to be consistent: `SkippingIsSoundWhen`.
  method MergeRound(round: seq<Entry>, visible: seq<ParentLayer>, parent: BranchId, since: LayerId, moved: bool, first: LayerId)
    returns (o: Outcome, ghost failed: set<LayerId>, ghost dropped: set<LayerId>, next: LayerId)
    requires Ascending(round)
    ensures Judged(round, visible, parent, since, moved, failed) && Named(failed, o.rejected)
    ensures Blamed(round, visible, DeletedSince(visible, parent, since), since, o.rejected)
    ensures forall l :: l in round ==> (l.id in failed <==> Stale(round, visible, parent, since, moved, l))
    ensures LeastClosed(AccessesOf(round), failed, dropped)
    ensures forall l :: l in round ==> (l.id in dropped <==> Descends(round, failed, l))
    ensures Consistent(round, visible, parent, since, moved, dropped)
    ensures |o.rejected| + o.cascaded + o.applied == |round| && o.cascaded >= 0 && o.applied == |Kept(round, dropped)|
    ensures Lands(Kept(round, dropped), o.landed, first, next)
  {
    hide Blames, Blamed, Stale, Descends;
    var failed0, rejected0 := CheckGuards(round, visible, since, moved);
    GuardsBlame(round, visible, DeletedSince(visible, parent, since), since, rejected0);
    var failed1, rejected := CheckDangling(round, visible, since, DeletedSince(visible, parent, since), failed0, rejected0);
    AllJudged(round, visible, parent, since, moved);
    AccessesOfKeys(round);
    assert failed1 <= IdsOf(round);
    var gone := Cascade(AccessesOf(round), failed1);
    failed, dropped := failed1, gone;
    FailedIsStale(round, visible, parent, since, moved, failed);
    DroppedDescends(round, failed, dropped);
    KeptIsConsistent(round, visible, parent, since, moved, failed, dropped);
    KeptCount(round, dropped);
    Fewer(failed, dropped);
    var groups, applied := GroupByAuthor(round, gone);
    var landed;
    landed, next := LandGroups(Kept(round, gone), groups, first);
    o := Outcome(rejected, |gone| - |failed1|, applied, landed);
  }
}
