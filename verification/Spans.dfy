/** The range a round settles, and why its watermark passes nothing that may still commit. */
module Spans {
  // crates/borg-engine/src/derive.rs, `span`, `catch_up`, `recompute`; crates/borg-engine/src/log.rs.
  import opened Core
  import opened Log

  predicate Pending(layers: Layers, b: BranchId, id: LayerId) {
    id in layers && layers[id].branch == b && layers[id].author.Source? && (layers[id].state == Open || layers[id].state == Sealed)
  }

  predicate Ascends(s: seq<LayerId>) {
    forall a, b :: 0 <= a < b < |s| ==> s[a] < s[b]
  }

  lemma Appended(s: seq<LayerId>, id: LayerId)
    requires Ascends(s) && forall x: LayerId :: x in s ==> x < id
    ensures Ascends(s + [id]) && forall x: LayerId :: x in s + [id] <==> x in s || x == id
  {
    var longer := s + [id];
    forall a, b | 0 <= a < b < |longer|
      ensures longer[a] < longer[b]
    {
      assert s[a] in s;
    }
  }

  // --- Bounds read off the log ---

  // At or below the watermark, or derived from what is.
  predicate SettledLayer(layers: Layers, id: LayerId, w: LayerId) {
    id in layers &&
    match layers[id].author
    case Source => id <= w
    case Derived(_, reflects) => reflects <= w
  }

  method Smallest(ids: set<LayerId>) returns (least: LayerId)
    requires ids != {}
    ensures least in ids && forall id: LayerId :: id in ids ==> least <= id
  {
    least :| least in ids;
    var rest := ids - {least};
    while rest != {}
      invariant least in ids && forall id: LayerId :: id in ids ==> least <= id || id in rest
      decreases rest
    {
      var id :| id in rest;
      rest := rest - {id};
      if id < least {
        least := id;
      }
    }
  }

  method Sorted(ids: set<LayerId>) returns (s: seq<LayerId>)
    ensures Ascends(s) && forall id: LayerId :: id in s <==> id in ids
  {
    s := [];
    var rest := ids;
    while rest != {}
      invariant rest <= ids && Ascends(s)
      invariant forall id: LayerId :: id in s <==> id in ids && id !in rest
      invariant forall x: LayerId, y: LayerId :: x in s && y in rest ==> x < y
      decreases rest
    {
      var least := Smallest(rest);
      rest := rest - {least};
      Appended(s, least);
      s := s + [least];
    }
  }

  // A branch's committed def layers at or below a bound, oldest first.
  method DefLayersOf(layers: Layers, defLayers: map<BranchId, seq<LayerId>>, b: BranchId, bound: LayerId)
    returns (found: seq<LayerId>)
    requires DefsOk(layers, defLayers)
    ensures Ascends(found)
    ensures forall id: LayerId :: id in found <==> CommittedOn(layers, b, id) && layers[id].kind == DefLayer && id <= bound
  {
    assert DefOk(layers, defLayers, b);
    found := Sorted(set id | id in DefsOf(defLayers, b) && id <= bound);
  }

  // The longest prefix of the branch's layers in which nothing is unsettled.
  method SettledCeiling(layers: Layers, b: BranchId, w: LayerId) returns (ceiling: LayerId)
    requires 0 !in layers
    ensures ceiling == 0 || CommittedOn(layers, b, ceiling)
    ensures forall id: LayerId :: CommittedOn(layers, b, id) && id <= ceiling ==>
              (layers[id].author.Source? ==> id <= w) && (layers[id].author.Derived? ==> layers[id].author.reflects <= w)
    ensures forall id: LayerId :: CommittedOn(layers, b, id) && id > ceiling ==>
              exists m: LayerId :: CommittedOn(layers, b, m) && ceiling < m <= id
                && (layers[m].author.Source? ==> m > w) && (layers[m].author.Derived? ==> layers[m].author.reflects > w)
  {
    var all := Sorted(set id | id in layers && CommittedOn(layers, b, id));
    assert forall id: LayerId :: CommittedOn(layers, b, id) <==> id in all;
    ceiling := 0;
    for n := 0 to |all|
      invariant ceiling == if n == 0 then 0 else all[n - 1]
      invariant forall k :: 0 <= k < n ==> SettledLayer(layers, all[k], w)
    {
      if !SettledLayer(layers, all[n], w) {
        forall id: LayerId | CommittedOn(layers, b, id) && id <= ceiling
          ensures SettledLayer(layers, id, w)
        {
          var k :| 0 <= k < |all| && all[k] == id;
          assert k < n;
        }
        assert CommittedOn(layers, b, all[n]) && ceiling < all[n];
        forall id: LayerId | CommittedOn(layers, b, id) && id > ceiling
          ensures all[n] <= id
        {
          var k :| 0 <= k < |all| && all[k] == id;
        }
        return;
      }
      ceiling := all[n];
    }
    forall id: LayerId | CommittedOn(layers, b, id)
      ensures SettledLayer(layers, id, w) && id <= ceiling
    {
      var k :| 0 <= k < |all| && all[k] == id;
    }
  }

  predicate SourceOnPath(layers: Layers, path: seq<Segment>, id: LayerId) {
    exists k :: 0 <= k < |path| && SourceOn(layers, path[k].branch, id) && id <= path[k].bound
  }

  ghost predicate IsHighestSource(layers: Layers, path: seq<Segment>, r: Option<LayerId>) {
    && (r.Some? ==> SourceOnPath(layers, path, r.value))
    && (forall id: LayerId :: SourceOnPath(layers, path, id) ==> r.Some? && id <= r.value)
  }

  method HighestSourceLayer(layers: Layers, path: seq<Segment>) returns (r: Option<LayerId>)
    ensures IsHighestSource(layers, path, r)
  {
    var rest := set id | id in layers && SourceOnPath(layers, path, id);
    assert forall id: LayerId :: SourceOnPath(layers, path, id) <==> id in rest;
    r := None;
    while rest != {}
      invariant forall id: LayerId :: id in rest ==> SourceOnPath(layers, path, id)
      invariant r.Some? ==> SourceOnPath(layers, path, r.value)
      invariant forall id: LayerId :: SourceOnPath(layers, path, id) ==> id in rest || (r.Some? && id <= r.value)
      decreases rest
    {
      var id :| id in rest;
      rest := rest - {id};
      if r.None? || id > r.value {
        r := Some(id);
      }
    }
  }

  // --- The range ---

  datatype Span = Span(forkAt: LayerId, reflects: LayerId, layers: seq<LayerId>)

  // A layer that is work for a producer standing at `from`.
  predicate IsWork(layers: Layers, id: LayerId, from: LayerId) {
    id in layers && (layers[id].author.Source? || layers[id].author.reflects > from)
  }

  predicate IsSource(layers: Layers, id: LayerId) {
    id in layers && layers[id].author.Source?
  }

  // What the scan has gathered from the layers above `from` and below `stop`.
  ghost predicate Gathering(layers: Layers, b: BranchId, from: LayerId, stop: LayerId, found: seq<LayerId>) {
    && Ascends(found)
    && (forall id: LayerId :: id in found <==> CommittedOn(layers, b, id) && from < id < stop)
    && (forall id: LayerId :: Pending(layers, b, id) && id > from ==> id >= stop)
  }

  // It ends at the first source layer that may still commit, or past everything that has.
  ghost predicate Gathered(layers: Layers, b: BranchId, from: LayerId, stop: LayerId, found: seq<LayerId>) {
    && from < stop && Gathering(layers, b, from, stop, found)
    && (Pending(layers, b, stop) || forall id: LayerId :: CommittedOn(layers, b, id) ==> id < stop)
  }

  ghost predicate TopSource(layers: Layers, found: seq<LayerId>, top: Option<LayerId>) {
    && (top.Some? ==> top.value in found && IsSource(layers, top.value))
    && (forall id: LayerId :: id in found && IsSource(layers, id) ==> top.Some? && id <= top.value)
  }

  // The range `span` answers with: everything committed up to the first source layer still open, the top
  // of it as the fork point, and the source position it stands at.
  ghost predicate IsSpan(layers: Layers, branches: Branches, b: BranchId, from: LayerId, s: Span)
    requires BranchesOk(layers, branches)
  {
    exists stop, top :: SpanTo(layers, branches, b, from, s, stop, top)
  }

  ghost predicate SpanTo(layers: Layers, branches: Branches, b: BranchId, from: LayerId, s: Span, stop: LayerId, top: Option<LayerId>)
    requires BranchesOk(layers, branches)
  {
    && Gathered(layers, b, from, stop, s.layers) && s.layers != []
    && TopSource(layers, s.layers, top)
    && s.forkAt == s.layers[|s.layers| - 1]
    && (exists id: LayerId :: id in s.layers && IsWork(layers, id, from))
    && (if top.Some? then s.reflects == top.value
        else IsHighestSource(layers, PathFrom(layers, branches, b, s.forkAt, Some(s.forkAt)), Some(s.reflects)))
  }

  // Nothing in reach is work.
  ghost predicate NoSpan(layers: Layers, branches: Branches, b: BranchId, from: LayerId)
    requires BranchesOk(layers, branches)
  {
    exists stop, found :: Gathered(layers, b, from, stop, found) &&
      ((forall id: LayerId :: id in found ==> !IsWork(layers, id, from))
       || (found != [] && TopSource(layers, found, None)
           && IsHighestSource(layers, PathFrom(layers, branches, b, found[|found| - 1], Some(found[|found| - 1])), None)))
  }

  method FindSpan(layers: Layers, branches: Branches, heads: map<BranchId, LayerId>, b: BranchId, from: LayerId)
    returns (r: Option<Span>)
    requires BranchesOk(layers, branches) && HeadsOk(layers, heads)
    ensures r.Some? ==> IsSpan(layers, branches, b, from, r.value)
    ensures r.None? ==> b !in heads || NoSpan(layers, branches, b, from)
  {
    if b !in heads {
      return None;
    }
    assert HeadOk(layers, heads, b);
    var found, top, hasWork, stop := Scan(layers, b, from, heads[b]);
    if found == [] || !hasWork {
      assert NoSpan(layers, branches, b, from);
      return None;
    }
    var forkAt := found[|found| - 1];
    if top.Some? {
      r := Some(Span(forkAt, top.value, found));
    } else {
      var highest := HighestSourceLayer(layers, PathFrom(layers, branches, b, forkAt, Some(forkAt)));
      if highest.None? {
        assert NoSpan(layers, branches, b, from);
        return None;
      }
      r := Some(Span(forkAt, highest.value, found));
    }
    assert SpanTo(layers, branches, b, from, r.value, stop, top);
  }

  // Every id above the watermark up to head, stopping at the first source layer still open.
  method Scan(layers: Layers, b: BranchId, from: LayerId, head: LayerId)
    returns (found: seq<LayerId>, top: Option<LayerId>, hasWork: bool, ghost stop: LayerId)
    requires forall id: LayerId :: CommittedOn(layers, b, id) ==> id <= head
    ensures Gathered(layers, b, from, stop, found) && TopSource(layers, found, top)
    ensures hasWork <==> exists id: LayerId :: id in found && IsWork(layers, id, from)
  {
    found, top, hasWork := [], None, false;
    var id: LayerId := from + 1;
    while id <= head
      invariant from < id
      invariant Gathering(layers, b, from, id, found) && TopSource(layers, found, top)
      invariant hasWork <==> exists x: LayerId :: x in found && IsWork(layers, x, from)
    {
      if Pending(layers, b, id) {
        break;
      }
      if CommittedOn(layers, b, id) {
        ghost var before := found;
        found := found + [id];
        if layers[id].author.Source? {
          top := Some(id);
        }
        hasWork := hasWork || IsWork(layers, id, from);
        Appended(before, id);
      }
      id := id + 1;
    }
    stop := id;
  }

  // --- What a range is, layer by layer ---

  // A layer no open source layer stands in front of.
  ghost predicate InReach(layers: Layers, b: BranchId, from: LayerId, id: LayerId) {
    CommittedOn(layers, b, id) && id > from && forall p: LayerId :: from < p < id ==> !Pending(layers, b, p)
  }

  lemma GatheredIsReach(layers: Layers, b: BranchId, from: LayerId, stop: LayerId, found: seq<LayerId>, id: LayerId)
    requires Gathered(layers, b, from, stop, found)
    ensures id in found <==> InReach(layers, b, from, id)
  {
    if id in found {
      assert forall p: LayerId :: from < p < id && Pending(layers, b, p) ==> p >= stop;
    }
    if InReach(layers, b, from, id) && id >= stop {
      assert false;
    }
  }

  // A range is every layer in reach, forks at the highest, and stands at the highest source layer among them or,
  // where there is none, at the highest the path shows below the fork.
  lemma SpanIs(layers: Layers, branches: Branches, b: BranchId, from: LayerId, s: Span)
    requires BranchesOk(layers, branches) && IsSpan(layers, branches, b, from, s)
    ensures forall id: LayerId :: id in s.layers <==> InReach(layers, b, from, id)
    ensures InReach(layers, b, from, s.forkAt) && forall id: LayerId :: InReach(layers, b, from, id) ==> id <= s.forkAt
    ensures if exists id: LayerId :: InReach(layers, b, from, id) && layers[id].author.Source?
            then InReach(layers, b, from, s.reflects) && layers[s.reflects].author.Source?
                 && forall id: LayerId :: InReach(layers, b, from, id) && layers[id].author.Source? ==> id <= s.reflects
            else IsHighestSource(layers, PathFrom(layers, branches, b, s.forkAt, Some(s.forkAt)), Some(s.reflects))
    ensures exists id: LayerId :: InReach(layers, b, from, id) && (layers[id].author.Source? || layers[id].author.reflects > from)
  {
    hide BranchesOk, PathFrom, IsHighestSource;
    var stop: LayerId, top :| SpanTo(layers, branches, b, from, s, stop, top);
    forall id: LayerId
      ensures id in s.layers <==> InReach(layers, b, from, id)
    {
      GatheredIsReach(layers, b, from, stop, s.layers, id);
    }
    hide InReach, Gathered;
    assert s.forkAt in s.layers;
  }

  // There is none only where everything in reach is already incorporated, or where it is all derived and the path
  // shows no source layer for it to stand at.
  lemma NoSpanMeans(layers: Layers, branches: Branches, b: BranchId, from: LayerId)
    requires BranchesOk(layers, branches) && NoSpan(layers, branches, b, from)
    ensures || (forall id: LayerId :: InReach(layers, b, from, id) ==> layers[id].author.Derived? && layers[id].author.reflects <= from)
            || (exists top: LayerId :: InReach(layers, b, from, top)
                 && (forall id: LayerId :: InReach(layers, b, from, id) ==> id <= top && layers[id].author.Derived?)
                 && IsHighestSource(layers, PathFrom(layers, branches, b, top, Some(top)), None))
  {
    hide BranchesOk, PathFrom, IsHighestSource;
    var stop: LayerId, found :| Gathered(layers, b, from, stop, found) &&
      ((forall id: LayerId :: id in found ==> !IsWork(layers, id, from))
       || (found != [] && TopSource(layers, found, None)
           && IsHighestSource(layers, PathFrom(layers, branches, b, found[|found| - 1], Some(found[|found| - 1])), None)));
    forall id: LayerId
      ensures id in found <==> InReach(layers, b, from, id)
    {
      GatheredIsReach(layers, b, from, stop, found, id);
    }
    if found != [] {
      var top := found[|found| - 1];
      assert top in found;
      forall id: LayerId | id in found
        ensures id <= top
      {
        LastIsTop(found, id);
      }
    }
  }

  lemma LastIsTop(s: seq<LayerId>, id: LayerId)
    requires Ascends(s) && id in s
    ensures id <= s[|s| - 1]
  {
    var k :| 0 <= k < |s| && s[k] == id;
  }

  // --- A watermark only names what is finished ---

  // Nothing at or below `w` on this branch can still commit source data.
  ghost predicate Finished(layers: Layers, b: BranchId, w: LayerId) {
    forall id: LayerId :: Pending(layers, b, id) ==> w < id
  }

  // A source layer some reader of the branch can see.
  ghost predicate Sees(layers: Layers, branches: Branches, b: BranchId, r: LayerId)
    requires BranchesOk(layers, branches)
  {
    SourceOn(layers, b, r) || exists bound: LayerId, k: nat :: InheritedSource(layers, branches, b, bound, r, k)
  }

  ghost predicate InheritedSource(layers: Layers, branches: Branches, b: BranchId, bound: LayerId, r: LayerId, k: nat)
    requires BranchesOk(layers, branches)
  {
    var path := PathFrom(layers, branches, b, bound, None);
    0 < k < |path| && SourceOn(layers, path[k].branch, r) && r <= path[k].bound
  }

  // Every derived layer landed on a branch names a source layer the branch sees, older than itself.
  ghost predicate DerivedNames(layers: Layers, branches: Branches, b: BranchId)
    requires BranchesOk(layers, branches)
  {
    forall d: LayerId :: CommittedOn(layers, b, d) && layers[d].author.Derived? ==>
      layers[d].author.reflects < d && Sees(layers, branches, b, layers[d].author.reflects)
  }

  // An inherited source layer sits at or below the origin, so below everything of the branch's own.
  lemma InheritedIsOlder(layers: Layers, branches: Branches, b: BranchId, r: LayerId, own: LayerId)
    requires BranchesOk(layers, branches) && own in layers && layers[own].branch == b
    requires Sees(layers, branches, b, r) && !SourceOn(layers, b, r)
    ensures r < own
  {
    var bound: LayerId, k: nat :| InheritedSource(layers, branches, b, bound, r, k);
    AncestorBounds(layers, branches, b, bound, None, k);
  }

  lemma {:induction false} SamePath(layers: Layers, branches: Branches, b: BranchId, c: LayerId, d: LayerId, asked: LayerId)
    requires BranchesOk(layers, branches) && (OriginOf(branches, b).Some? ==> OriginOf(branches, b).value <= asked)
    ensures var p, q := PathFrom(layers, branches, b, c, Some(asked)), PathFrom(layers, branches, b, d, None);
            |p| == |q| && p[0].branch == q[0].branch == b && forall k :: 0 < k < |p| ==> p[k] == q[k]
    decreases Rank(OriginOf(branches, b))
  {
    var origin := OriginOf(branches, b);
    if origin.Some? {
      OriginsFall(layers, branches, b);
      var up := layers[origin.value].branch;
      SamePath(layers, branches, up, origin.value, origin.value, asked);
    }
  }

  // What the path of a branch's own layer shows is what the branch sees up to it.
  lemma PathSees(layers: Layers, branches: Branches, b: BranchId, at: LayerId, r: LayerId)
    requires BranchesOk(layers, branches) && at in layers && layers[at].branch == b
    ensures SourceOnPath(layers, PathFrom(layers, branches, b, at, Some(at)), r) ==> Sees(layers, branches, b, r)
    ensures Sees(layers, branches, b, r) && (SourceOn(layers, b, r) ==> r <= at) ==>
              SourceOnPath(layers, PathFrom(layers, branches, b, at, Some(at)), r)
  {
    var path := PathFrom(layers, branches, b, at, Some(at));
    SamePath(layers, branches, b, at, at, at);
    if k: nat :| k < |path| && SourceOn(layers, path[k].branch, r) && r <= path[k].bound {
      if k > 0 {
        assert InheritedSource(layers, branches, b, at, r, k);
      }
    }
    if SourceOn(layers, b, r) && r <= at {
      assert path[0] == Segment(b, at);
    } else if bound: LayerId, k: nat :| InheritedSource(layers, branches, b, bound, r, k) {
      SamePath(layers, branches, b, at, bound, at);
      assert SourceOn(layers, path[k].branch, r) && r <= path[k].bound;
    }
  }

  // The watermark a span leaves behind is past nothing that may still commit.
  lemma SpanIsFinished(layers: Layers, branches: Branches, b: BranchId, from: LayerId, s: Span)
    requires BranchesOk(layers, branches) && DerivedNames(layers, branches, b)
    requires Finished(layers, b, from) && IsSpan(layers, branches, b, from, s)
    ensures Finished(layers, b, s.reflects)
  {
    var stop: LayerId, top :| SpanTo(layers, branches, b, from, s, stop, top);
    assert s.forkAt in s.layers;
    forall id: LayerId | Pending(layers, b, id)
      ensures s.reflects < id
    {
      if top.None? {
        PathSees(layers, branches, b, s.forkAt, s.reflects);
        if !SourceOn(layers, b, s.reflects) {
          InheritedIsOlder(layers, branches, b, s.reflects, id);
        } else if s.reflects > from {
          PathOwn(layers, branches, b, s.forkAt, s.reflects);
          assert s.reflects in s.layers;
        }
      }
    }
  }

  lemma PathOwn(layers: Layers, branches: Branches, b: BranchId, at: LayerId, r: LayerId)
    requires BranchesOk(layers, branches) && at in layers && layers[at].branch == b && SourceOn(layers, b, r)
    requires SourceOnPath(layers, PathFrom(layers, branches, b, at, Some(at)), r)
    ensures r <= at
  {
    var path := PathFrom(layers, branches, b, at, Some(at));
    var k: nat :| k < |path| && SourceOn(layers, path[k].branch, r) && r <= path[k].bound;
    if k > 0 {
      AncestorsDiffer(layers, branches, b, at, Some(at), k);
    }
  }

  lemma TopIsCoherent(layers: Layers, branches: Branches, b: BranchId, at: LayerId, top: LayerId, d: LayerId)
    requires BranchesOk(layers, branches) && DerivedNames(layers, branches, b) && CommittedOn(layers, b, at)
    requires IsHighestSource(layers, PathFrom(layers, branches, b, at, Some(at)), Some(top))
    requires CommittedOn(layers, b, d) && d <= at
    ensures top <= at
    ensures top < d ==> layers[d].author.Derived?
    ensures layers[d].author.Derived? ==> layers[d].author.reflects <= top
  {
    hide BranchesOk, PathFrom, Sees, SourceOnPath;
    PathSees(layers, branches, b, at, top);
    if SourceOn(layers, b, top) {
      PathOwn(layers, branches, b, at, top);
    } else {
      InheritedIsOlder(layers, branches, b, top, at);
    }
    PathSees(layers, branches, b, at, if layers[d].author.Source? then d else layers[d].author.reflects);
    if layers[d].author.Source? {
      OwnIsSeen(layers, branches, b, d);
    }
  }

  lemma OwnIsSeen(layers: Layers, branches: Branches, b: BranchId, d: LayerId)
    requires BranchesOk(layers, branches) && SourceOn(layers, b, d)
    ensures Sees(layers, branches, b, d)
  {
  }

  // Between what a round reflects and where it forks there is only derived data, and none of it speaks
  // for anything newer.
  lemma SpanIsCoherent(layers: Layers, branches: Branches, b: BranchId, from: LayerId, s: Span, d: LayerId)
    requires BranchesOk(layers, branches) && DerivedNames(layers, branches, b) && IsSpan(layers, branches, b, from, s)
    requires CommittedOn(layers, b, d) && d <= s.forkAt
    ensures s.reflects <= s.forkAt
    ensures s.reflects < d ==> layers[d].author.Derived?
    ensures layers[d].author.Derived? ==> layers[d].author.reflects <= s.reflects
  {
    hide BranchesOk, PathFrom, Sees, SourceOnPath, IsHighestSource;
    var stop: LayerId, top :| SpanTo(layers, branches, b, from, s, stop, top);
    assert s.forkAt in s.layers;
    assert forall id: LayerId :: id in s.layers ==> id <= s.forkAt;
    if top.None? {
      TopIsCoherent(layers, branches, b, s.forkAt, s.reflects, d);
    } else if layers[d].author.Derived? {
      var r := layers[d].author.reflects;
      if !SourceOn(layers, b, r) {
        InheritedIsOlder(layers, branches, b, r, top.value);
      } else if r > from {
        assert r in s.layers;
      }
    }
  }

  // Once a round has settled, and until a newer source layer commits, there is no further round.
  lemma SettledHasNoSpan(layers: Layers, branches: Branches, b: BranchId, reflects: LayerId, from: LayerId, s: Span)
    requires BranchesOk(layers, branches) && from >= reflects
    requires forall id: LayerId :: SourceOn(layers, b, id) ==> id <= reflects
    requires forall d: LayerId :: CommittedOn(layers, b, d) && layers[d].author.Derived? ==> layers[d].author.reflects <= reflects
    ensures !IsSpan(layers, branches, b, from, s)
  {
    if IsSpan(layers, branches, b, from, s) {
      var stop: LayerId, top :| SpanTo(layers, branches, b, from, s, stop, top);
      var id: LayerId :| id in s.layers && IsWork(layers, id, from);
      assert CommittedOn(layers, b, id) && from < id;
      assert layers[id].author.Source? ==> SourceOn(layers, b, id);
      assert false;
    }
  }

  // --- The branch at its head ---

  ghost predicate IsHead(layers: Layers, b: BranchId, head: LayerId) {
    && (head == 0 || CommittedOn(layers, b, head))
    && (forall id: LayerId :: CommittedOn(layers, b, id) ==> id <= head)
  }

  // What the path at head shows is all the branch sees.
  lemma HeadPathSees(layers: Layers, branches: Branches, b: BranchId, head: LayerId, r: LayerId)
    requires BranchesOk(layers, branches) && IsHead(layers, b, head)
    ensures SourceOnPath(layers, PathFrom(layers, branches, b, head, None), r) <==> Sees(layers, branches, b, r)
  {
    var path := PathFrom(layers, branches, b, head, None);
    if k: nat :| k < |path| && SourceOn(layers, path[k].branch, r) && r <= path[k].bound {
      if k > 0 {
        assert InheritedSource(layers, branches, b, head, r, k);
      }
    }
    if SourceOn(layers, b, r) {
      assert path[0] == Segment(b, head);
    } else if bound: LayerId, k: nat :| InheritedSource(layers, branches, b, bound, r, k) {
      assert PathFrom(layers, branches, b, bound, None)[k] == path[k];
    }
  }
}
