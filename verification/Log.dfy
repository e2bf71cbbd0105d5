/** The layer log: layer states, branch heads, def-layer lists, and the read-path bounds derived from them,
    as every open, commit, abort and restore leaves them (crates/borg-engine/src/log.rs, `LayerManager`). */
module Log {
  import opened Core

  datatype LayerState = Open | Sealed | Committed | Aborted

  datatype LayerKind = ValueLayer | DefLayer

  datatype Layer = Layer(id: LayerId, branch: BranchId, kind: LayerKind, author: Author, state: LayerState,
                         parent: Option<LayerId>)

  datatype LogError =
    | UnknownLayer
    | StateViolation(actual: LayerState)
    | GuardViolated
    | NotOnBranch
    | UnknownBranch

  type Layers = map<LayerId, Layer>

  // A branch's origin is the layer it was forked at; the root has none.
  type Branches = map<BranchId, Option<LayerId>>

  datatype Segment = Segment(branch: BranchId, bound: LayerId)

  predicate CommittedOn(layers: Layers, b: BranchId, id: LayerId) {
    id in layers && layers[id].branch == b && layers[id].state == Committed
  }

  predicate SourceOn(layers: Layers, b: BranchId, id: LayerId) {
    CommittedOn(layers, b, id) && layers[id].author.Source?
  }

  // --- What every state of the log satisfies ---

  ghost predicate LayersOk(layers: Layers, next: LayerId) {
    next > 0 && forall id :: id in layers ==> 0 < id < next && layers[id].id == id
  }

  // A branch forks at a layer that exists, and everything on a branch comes after its origin.
  ghost predicate BranchesOk(layers: Layers, branches: Branches) {
    && (forall b :: b in branches && branches[b].Some? ==> branches[b].value in layers)
    && (forall id :: id in layers ==> layers[id].branch in branches)
    && (forall id :: id in layers && branches[layers[id].branch].Some? ==> branches[layers[id].branch].value < id)
  }

  // A head is the highest committed layer, however late a lower one commits.
  ghost predicate HeadOk(layers: Layers, heads: map<BranchId, LayerId>, b: BranchId) {
    && (b in heads ==> CommittedOn(layers, b, heads[b]))
    && (forall id :: CommittedOn(layers, b, id) ==> b in heads && id <= heads[b])
  }

  ghost predicate HeadsOk(layers: Layers, heads: map<BranchId, LayerId>) {
    forall b :: HeadOk(layers, heads, b)
  }

  function DefsOf(defLayers: map<BranchId, seq<LayerId>>, b: BranchId): seq<LayerId> {
    if b in defLayers then defLayers[b] else []
  }

  predicate Distinct(s: seq<LayerId>) {
    forall a, b :: 0 <= a < b < |s| ==> s[a] != s[b]
  }

  // The def-layer lists hold each committed def layer once.
  ghost predicate DefOk(layers: Layers, defLayers: map<BranchId, seq<LayerId>>, b: BranchId) {
    && Distinct(DefsOf(defLayers, b))
    && (forall id :: id in DefsOf(defLayers, b) <==> CommittedOn(layers, b, id) && layers[id].kind == DefLayer)
  }

  ghost predicate DefsOk(layers: Layers, defLayers: map<BranchId, seq<LayerId>>) {
    forall b :: DefOk(layers, defLayers, b)
  }

  ghost predicate AllOk(layers: Layers, heads: map<BranchId, LayerId>, branches: Branches,
                        defLayers: map<BranchId, seq<LayerId>>, next: LayerId)
  {
    LayersOk(layers, next) && BranchesOk(layers, branches) && HeadsOk(layers, heads) && DefsOk(layers, defLayers)
  }

  // --- The ancestry a read resolves through ---

  function OriginOf(branches: Branches, b: BranchId): Option<LayerId> {
    if b in branches then branches[b] else None
  }

  // Ancestors strictly predate what forked from them, so the walk ends.
  lemma OriginsFall(layers: Layers, branches: Branches, b: BranchId)
    requires BranchesOk(layers, branches) && OriginOf(branches, b).Some?
    ensures OriginOf(branches, b).value in layers
    ensures var up := layers[OriginOf(branches, b).value].branch;
            OriginOf(branches, up).Some? ==> OriginOf(branches, up).value < OriginOf(branches, b).value
  {
  }

  function Rank(origin: Option<LayerId>): nat {
    if origin.Some? then origin.value + 1 else 0
  }

  // Each segment is bounded where the one before it forked, and clamped by an explicitly asked layer.
  function PathFrom(layers: Layers, branches: Branches, b: BranchId, bound: LayerId, asked: Option<LayerId>): seq<Segment>
    requires BranchesOk(layers, branches)
    decreases Rank(OriginOf(branches, b))
  {
    var origin := OriginOf(branches, b);
    if origin.None? then [Segment(b, bound)]
    else
      OriginsFall(layers, branches, b);
      var above := if asked.Some? && asked.value < origin.value then asked.value else origin.value;
      [Segment(b, bound)] + PathFrom(layers, branches, layers[origin.value].branch, above, asked)
  }

  lemma PathNext(layers: Layers, branches: Branches, b: BranchId, bound: LayerId, asked: Option<LayerId>)
    requires BranchesOk(layers, branches)
    ensures var origin := OriginOf(branches, b);
            && (origin.Some? ==> origin.value in layers)
            && PathFrom(layers, branches, b, bound, asked) == [Segment(b, bound)] +
               (if origin.None? then []
                else PathFrom(layers, branches, layers[origin.value].branch,
                              if asked.Some? && asked.value < origin.value then asked.value else origin.value, asked))
  {
  }

  // A path starts at the branch where it is asked, passes from each segment to the branch its own was forked from,
  // bounded there by the fork and by whatever layer was asked for, and ends at a root.
  lemma {:induction false} PathIs(layers: Layers, branches: Branches, b: BranchId, bound: LayerId, asked: Option<LayerId>)
    requires BranchesOk(layers, branches)
    ensures var path := PathFrom(layers, branches, b, bound, asked);
            && path[0] == Segment(b, bound) && OriginOf(branches, path[|path| - 1].branch).None?
            && (forall k :: 0 < k < |path| ==> FollowsOn(layers, branches, asked, path[k - 1], path[k]))
    decreases Rank(OriginOf(branches, b))
  {
    var origin := OriginOf(branches, b);
    PathNext(layers, branches, b, bound, asked);
    if origin.Some? {
      OriginsFall(layers, branches, b);
      var above := if asked.Some? && asked.value < origin.value then asked.value else origin.value;
      PathIs(layers, branches, layers[origin.value].branch, above, asked);
    }
  }

  ghost predicate FollowsOn(layers: Layers, branches: Branches, asked: Option<LayerId>, s: Segment, t: Segment) {
    && OriginOf(branches, s.branch).Some?
    && var origin := OriginOf(branches, s.branch).value;
       && origin in layers && t.branch == layers[origin].branch
       && t.bound <= origin && (asked.Some? ==> t.bound <= asked.value) && (t.bound == origin || asked == Some(t.bound))
  }

  // Beyond the first segment every bound is at or below the branch's own origin.
  lemma {:induction false} AncestorBounds(layers: Layers, branches: Branches, b: BranchId, bound: LayerId, asked: Option<LayerId>, k: nat)
    requires BranchesOk(layers, branches)
    requires 0 < k < |PathFrom(layers, branches, b, bound, asked)|
    ensures OriginOf(branches, b).Some? && PathFrom(layers, branches, b, bound, asked)[k].bound <= OriginOf(branches, b).value
    decreases Rank(OriginOf(branches, b))
  {
    var origin := OriginOf(branches, b);
    OriginsFall(layers, branches, b);
    var up := layers[origin.value].branch;
    if k > 1 {
      var above := if asked.Some? && asked.value < origin.value then asked.value else origin.value;
      AncestorBounds(layers, branches, up, above, asked, k - 1);
    }
  }

  // Ancestor branches are all different from one another and from the branch itself.
  lemma {:induction false} AncestorsDiffer(layers: Layers, branches: Branches, b: BranchId, bound: LayerId, asked: Option<LayerId>, k: nat)
    requires BranchesOk(layers, branches)
    requires 0 < k < |PathFrom(layers, branches, b, bound, asked)|
    ensures Rank(OriginOf(branches, PathFrom(layers, branches, b, bound, asked)[k].branch)) < Rank(OriginOf(branches, b))
    decreases Rank(OriginOf(branches, b))
  {
    var origin := OriginOf(branches, b);
    OriginsFall(layers, branches, b);
    var up := layers[origin.value].branch;
    if k > 1 {
      var above := if asked.Some? && asked.value < origin.value then asked.value else origin.value;
      AncestorsDiffer(layers, branches, up, above, asked, k - 1);
    }
  }

  // --- Transitions ---

  lemma CommitKeepsHeads(layers: Layers, heads: map<BranchId, LayerId>, id: LayerId)
    requires HeadsOk(layers, heads) && id in layers && layers[id].state != Committed
    ensures var b := layers[id].branch;
            HeadsOk(layers[id := layers[id].(state := Committed)],
                    heads[b := if b in heads && heads[b] > id then heads[b] else id])
  {
    var b := layers[id].branch;
    var layers' := layers[id := layers[id].(state := Committed)];
    var heads' := heads[b := if b in heads && heads[b] > id then heads[b] else id];
    forall c: BranchId
      ensures HeadOk(layers', heads', c)
    {
      assert HeadOk(layers, heads, c);
      assert forall x :: CommittedOn(layers', c, x) <==> CommittedOn(layers, c, x) || (c == b && x == id);
    }
  }

  lemma CommitKeepsDefs(layers: Layers, defLayers: map<BranchId, seq<LayerId>>, id: LayerId)
    requires DefsOk(layers, defLayers) && id in layers && layers[id].state != Committed
    ensures var b := layers[id].branch;
            DefsOk(layers[id := layers[id].(state := Committed)],
                   if layers[id].kind == DefLayer then defLayers[b := DefsOf(defLayers, b) + [id]] else defLayers)
  {
    var b := layers[id].branch;
    var layers' := layers[id := layers[id].(state := Committed)];
    var defs' := if layers[id].kind == DefLayer then defLayers[b := DefsOf(defLayers, b) + [id]] else defLayers;
    assert forall c: BranchId, x :: CommittedOn(layers', c, x) <==> CommittedOn(layers, c, x) || (c == b && x == id);
    forall c: BranchId
      ensures DefOk(layers', defs', c)
    {
      assert DefOk(layers, defLayers, c);
      if c == b && layers[id].kind == DefLayer {
        assert id !in DefsOf(defLayers, b);
        assert DefsOf(defs', c) == DefsOf(defLayers, b) + [id];
      } else {
        assert DefsOf(defs', c) == DefsOf(defLayers, c);
      }
    }
  }

  lemma CommitKeeps(layers: Layers, heads: map<BranchId, LayerId>, branches: Branches,
                    defLayers: map<BranchId, seq<LayerId>>, next: LayerId, id: LayerId)
    requires AllOk(layers, heads, branches, defLayers, next) && id in layers && layers[id].state != Committed
    ensures var b := layers[id].branch;
            AllOk(layers[id := layers[id].(state := Committed)],
                  heads[b := if b in heads && heads[b] > id then heads[b] else id], branches,
                  if layers[id].kind == DefLayer then defLayers[b := DefsOf(defLayers, b) + [id]] else defLayers, next)
  {
    CommitKeepsHeads(layers, heads, id);
    CommitKeepsDefs(layers, defLayers, id);
  }

  lemma UncommittedKeeps(layers: Layers, heads: map<BranchId, LayerId>, branches: Branches,
                         defLayers: map<BranchId, seq<LayerId>>, next: LayerId, next': LayerId, l: Layer)
    requires AllOk(layers, heads, branches, defLayers, next) && next <= next' && 0 < l.id < next'
    requires l.branch in branches && (branches[l.branch].Some? ==> branches[l.branch].value < l.id)
    requires (l.id in layers ==> layers[l.id].state != Committed) && l.state != Committed
    ensures AllOk(layers[l.id := l], heads, branches, defLayers, next')
  {
    StillUncommitted(layers, heads, defLayers, l.id, l);
  }

  lemma StillUncommitted(layers: Layers, heads: map<BranchId, LayerId>, defLayers: map<BranchId, seq<LayerId>>, id: LayerId, l: Layer)
    requires HeadsOk(layers, heads) && DefsOk(layers, defLayers)
    requires (id in layers ==> layers[id].state != Committed) && l.state != Committed
    ensures HeadsOk(layers[id := l], heads) && DefsOk(layers[id := l], defLayers)
  {
    var layers' := layers[id := l];
    assert forall c: BranchId, x :: CommittedOn(layers', c, x) <==> CommittedOn(layers, c, x);
    forall c: BranchId
      ensures HeadOk(layers', heads, c)
    {
      assert HeadOk(layers, heads, c);
    }
    forall c: BranchId
      ensures DefOk(layers', defLayers, c)
    {
      assert DefOk(layers, defLayers, c);
    }
  }

  lemma NextIsFree(layers: Layers, heads: map<BranchId, LayerId>, branches: Branches,
                   defLayers: map<BranchId, seq<LayerId>>, next: LayerId, b: BranchId)
    requires AllOk(layers, heads, branches, defLayers, next) && b in branches
    ensures next > 0 && next !in layers && (branches[b].Some? ==> branches[b].value < next)
  {
  }

  lemma LayerFacts(layers: Layers, heads: map<BranchId, LayerId>, branches: Branches,
                   defLayers: map<BranchId, seq<LayerId>>, next: LayerId, id: LayerId)
    requires AllOk(layers, heads, branches, defLayers, next) && id in layers
    ensures layers[id].id == id && 0 < id < next && layers[id].branch in branches
    ensures branches[layers[id].branch].Some? ==> branches[layers[id].branch].value < id
  {
  }

  class LayerManager {
    var layers: Layers
    var heads: map<BranchId, LayerId>
    var branches: Branches
    var defLayers: map<BranchId, seq<LayerId>>
    // The sequencer: ids are registry-unique and only grow.
    var next: LayerId

    ghost predicate Valid()
      reads this
    {
      AllOk(layers, heads, branches, defLayers, next)
    }

    constructor ()
      ensures Valid() && layers == map[] && branches == map[]
    {
      layers, heads, branches, defLayers, next := map[], map[], map[], map[], 1;
    }

    // Fork at a layer of the named branch, or start a root.
    method Fork(id: BranchId, at: Option<(BranchId, LayerId)>) returns (r: Result<(), LogError>)
      requires Valid() && id !in branches && forall l :: l in layers ==> layers[l].branch != id
      modifies this
      ensures Valid() && layers == old(layers) && heads == old(heads) && next == old(next)
      ensures r.Ok? <==> at.None? || (at.value.1 in layers && layers[at.value.1].branch == at.value.0)
      ensures branches == if r.Ok? then old(branches)[id := if at.None? then None else Some(at.value.1)] else old(branches)
    {
      if at.Some? {
        if at.value.1 !in layers {
          return Err(UnknownLayer);
        }
        if layers[at.value.1].branch != at.value.0 {
          return Err(NotOnBranch);
        }
      }
      branches := branches[id := if at.None? then None else Some(at.value.1)];
      r := Ok(());
    }

    // Ids are assigned here; order on the branch is established at commit.
    method OpenLayer(b: BranchId, kind: LayerKind, author: Author) returns (id: LayerId)
      requires Valid() && b in branches
      modifies this
      ensures Valid() && id == old(next) && next == id + 1 && id !in old(layers)
      ensures layers == old(layers)[id := Layer(id, b, kind, author, Open, if b in old(heads) then Some(old(heads)[b]) else None)]
      ensures heads == old(heads) && branches == old(branches) && defLayers == old(defLayers)
    {
      id := next;
      var l := Layer(id, b, kind, author, Open, if b in heads then Some(heads[b]) else None);
      NextIsFree(layers, heads, branches, defLayers, next, b);
      UncommittedKeeps(layers, heads, branches, defLayers, next, next + 1, l);
      next := next + 1;
      layers := layers[id := l];
    }

    // The one way a layer changes state.
    method Transition(id: LayerId, expected: LayerState, target: LayerState) returns (r: Result<(), LogError>)
      modifies this`layers
      ensures r.Ok? <==> id in old(layers) && old(layers)[id].state == expected
      ensures r.Err? ==> !r.error.GuardViolated?
      ensures layers == if r.Ok? then old(layers)[id := old(layers)[id].(state := target)] else old(layers)
    {
      if id !in layers {
        return Err(UnknownLayer);
      }
      if layers[id].state != expected {
        return Err(StateViolation(layers[id].state));
      }
      layers := layers[id := layers[id].(state := target)];
      r := Ok(());
    }

    // Seal, check guards, commit. The head only ever moves up, because layers commit out of order.
    method Commit(id: LayerId, guardsHold: bool) returns (r: Result<LayerId, LogError>)
      requires Valid()
      modifies this
      ensures Valid() && branches == old(branches) && next == old(next)
      ensures r.Ok? <==> id in old(layers) && old(layers)[id].state == Open && guardsHold
      ensures r.Ok? ==> r.value == id && layers == old(layers)[id := old(layers)[id].(state := Committed)]
      ensures r.Err? && r.error.GuardViolated? ==>
                id in old(layers) && layers == old(layers)[id := old(layers)[id].(state := Aborted)]
      ensures r.Err? && !r.error.GuardViolated? ==> layers == old(layers)
      ensures r.Err? ==> heads == old(heads) && defLayers == old(defLayers)
      ensures r.Ok? ==> heads == old(heads)[layers[id].branch := Max(old(Head(layers[id].branch)), id)]
    {
      hide AllOk;
      ghost var before := layers;
      var sealed := Transition(id, Open, Sealed);
      if sealed.Err? {
        return Err(sealed.error);
      }
      var b := layers[id].branch;
      if !guardsHold {
        var aborted := Transition(id, Sealed, Aborted);
        LayerFacts(before, heads, branches, defLayers, next, id);
        UncommittedKeeps(before, heads, branches, defLayers, next, next, layers[id]);
        assert layers == before[id := layers[id]];
        return Err(GuardViolated);
      }
      var committed := Transition(id, Sealed, Committed);
      CommitKeeps(before, heads, branches, defLayers, next, id);
      assert layers == before[id := before[id].(state := Committed)];
      heads := heads[b := if b in heads && heads[b] > id then heads[b] else id];
      if layers[id].kind == DefLayer {
        defLayers := defLayers[b := DefsOf(defLayers, b) + [id]];
      }
      r := Ok(id);
    }

    method Abort(id: LayerId) returns (r: Result<(), LogError>)
      requires Valid()
      modifies this`layers
      ensures Valid()
      ensures r.Ok? <==> id in old(layers) && old(layers)[id].state == Open
      ensures layers == if r.Ok? then old(layers)[id := old(layers)[id].(state := Aborted)] else old(layers)
    {
      ghost var before := layers;
      r := Transition(id, Open, Aborted);
      if r.Ok? {
        UncommittedKeeps(before, heads, branches, defLayers, next, next, layers[id]);
      }
    }

    // A layer read back from storage. One that is neither committed nor aborted lost its owner with the
    // process that held it, and comes back aborted.
    method Restore(l: Layer)
      requires Valid() && l.id > 0 && l.id !in layers && l.branch in branches
      requires branches[l.branch].Some? ==> branches[l.branch].value < l.id
      modifies this
      ensures Valid() && branches == old(branches)
      ensures layers == old(layers)[l.id := if l.state == Committed then l else l.(state := Aborted)]
    {
      hide AllOk;
      var restored := if l.state == Committed || l.state == Aborted then l else l.(state := Aborted);
      ghost var lost := restored.(state := Aborted);
      ghost var staged := layers[l.id := lost];
      UncommittedKeeps(layers, heads, branches, defLayers, next, Max(next, l.id + 1), lost);
      next := Max(next, l.id + 1);
      if restored.state == Committed {
        CommitKeeps(staged, heads, branches, defLayers, next, l.id);
        assert layers[l.id := restored] == staged[l.id := staged[l.id].(state := Committed)];
        heads := heads[l.branch := if l.branch in heads && heads[l.branch] > l.id then heads[l.branch] else l.id];
        if restored.kind == DefLayer {
          defLayers := defLayers[l.branch := DefsOf(defLayers, l.branch) + [l.id]];
        }
      }
      layers := layers[l.id := restored];
    }

    function Head(b: BranchId): LayerId
      reads this
    {
      if b in heads then heads[b] else 0
    }

    // The ancestry of a branch at head, or as of an asked layer.
    method ReadPath(b: BranchId, asked: Option<LayerId>) returns (path: seq<Segment>)
      requires Valid()
      ensures path == PathFrom(layers, branches, b, if asked.Some? then asked.value else Head(b), asked)
    {
      hide PathFrom, BranchesOk, LayersOk, HeadsOk, DefsOk;
      var current: BranchId := b;
      var bound: LayerId := if asked.Some? then asked.value else Head(b);
      path := [];
      ghost var whole := PathFrom(layers, branches, b, bound, asked);
      while true
        invariant path + PathFrom(layers, branches, current, bound, asked) == whole
        decreases Rank(OriginOf(branches, current))
      {
        PathNext(layers, branches, current, bound, asked);
        path := path + [Segment(current, bound)];
        var origin := OriginOf(branches, current);
        if origin.None? {
          return;
        }
        OriginsFall(layers, branches, current);
        var up := layers[origin.value].branch;
        var above := if asked.Some? && asked.value < origin.value then asked.value else origin.value;
        current, bound := up, above;
      }
    }
  }
}
