/** Def pushes, forks and merges over a tree of branches: every branch folds, at every ceiling, for ever
    (crates/borg-engine/src/defs.rs, `DefRegistry`; crates/borg-engine/src/branch.rs, `replay`). */
module Definitions {
  import opened Core
  import opened Schema
  import FieldHistory

  // A branch's own def layers, and the layer of another branch it was forked at.
  datatype DefBranch = DefBranch(origin: Option<(BranchId, LayerId)>, own: seq<DefLayer>)

  type DefBranches = map<BranchId, DefBranch>

  function Rank(branches: DefBranches, b: BranchId): nat {
    if b in branches && branches[b].origin.Some? then branches[b].origin.value.1 + 1 else 0
  }

  // Every origin is on a branch that exists, above that branch's own origin.
  ghost predicate Rooted(branches: DefBranches) {
    forall b :: b in branches && branches[b].origin.Some? ==>
      branches[b].origin.value.0 in branches && Rank(branches, branches[b].origin.value.0) < Rank(branches, b)
  }

  // The def layers along a branch's read path, oldest first.
  function Path(branches: DefBranches, b: BranchId): seq<DefLayer>
    requires Rooted(branches) && b in branches
    decreases Rank(branches, b)
  {
    var branch := branches[b];
    if branch.origin.None? then branch.own
    else UpTo(Path(branches, branch.origin.value.0), branch.origin.value.1) + branch.own
  }

  ghost predicate OwnOk(branches: DefBranches, next: LayerId, b: BranchId)
    requires b in branches
  {
    && Ascend(branches[b].own) && Rank(branches, b) <= next
    && (forall l :: l in branches[b].own ==> Rank(branches, b) <= l.id < next)
  }

  ghost predicate OwnsOk(branches: DefBranches, next: LayerId) {
    forall b :: b in branches ==> OwnOk(branches, next, b)
  }

  ghost predicate AllTotal(branches: DefBranches)
    requires Rooted(branches)
  {
    forall b :: b in branches ==> Total(Path(branches, b))
  }

  // --- Paths ---

  lemma {:induction false} UpToAscends(layers: seq<DefLayer>, ceiling: LayerId)
    requires Ascend(layers)
    ensures Ascend(UpTo(layers, ceiling))
    ensures forall l :: l in UpTo(layers, ceiling) <==> l in layers && l.id <= ceiling
  {
    if layers != [] && layers[|layers| - 1].id > ceiling {
      UpToAscends(layers[..|layers| - 1], ceiling);
      assert forall l :: l in layers <==> l in layers[..|layers| - 1] || l == layers[|layers| - 1];
    } else if layers != [] {
      forall l | l in layers
        ensures l.id <= ceiling
      {
        var k :| 0 <= k < |layers| && layers[k] == l;
      }
    }
  }

  lemma {:induction false} PathAscends(branches: DefBranches, next: LayerId, b: BranchId)
    requires Rooted(branches) && OwnsOk(branches, next) && b in branches
    ensures Ascend(Path(branches, b)) && forall l :: l in Path(branches, b) ==> l.id < next
    decreases Rank(branches, b)
  {
    assert OwnOk(branches, next, b);
    var branch := branches[b];
    if branch.origin.Some? {
      var (parent, at) := branch.origin.value;
      PathAscends(branches, next, parent);
      UpToAscends(Path(branches, parent), at);
    }
  }

  lemma {:induction false} UpToAppend(layers: seq<DefLayer>, more: seq<DefLayer>, ceiling: LayerId)
    requires forall l :: l in more ==> l.id > ceiling
    ensures UpTo(layers + more, ceiling) == UpTo(layers, ceiling)
  {
    if more == [] {
      assert layers + more == layers;
    } else {
      assert (layers + more)[..|layers + more| - 1] == layers + more[..|more| - 1];
      assert more[|more| - 1] in more;
      UpToAppend(layers, more[..|more| - 1], ceiling);
    }
  }

  // A branch grows at its end; every other branch's path is what it was.
  lemma {:induction false} OthersUnmoved(branches: DefBranches, next: LayerId, p: BranchId, more: seq<DefLayer>, b: BranchId)
    requires Rooted(branches) && OwnsOk(branches, next) && p in branches && b in branches
    requires forall l :: l in more ==> l.id >= next
    ensures var after := branches[p := branches[p].(own := branches[p].own + more)];
            Rooted(after) && Path(after, b) == if b == p then Path(branches, b) + more else Path(branches, b)
    decreases Rank(branches, b)
  {
    var after := branches[p := branches[p].(own := branches[p].own + more)];
    SameRanks(branches, p, more);
    assert OwnOk(branches, next, b);
    var branch := branches[b];
    if branch.origin.Some? {
      var (parent, at) := branch.origin.value;
      OthersUnmoved(branches, next, p, more, parent);
      if parent == p {
        UpToAppend(Path(branches, p), more, at);
      }
      var inherited := UpTo(Path(branches, parent), at);
      assert (inherited + branch.own) + more == inherited + (branch.own + more);
    }
  }

  lemma SameRanks(branches: DefBranches, p: BranchId, more: seq<DefLayer>)
    requires Rooted(branches) && p in branches
    ensures var after := branches[p := branches[p].(own := branches[p].own + more)];
            Rooted(after) && forall b :: Rank(after, b) == Rank(branches, b)
  {
    var after := branches[p := branches[p].(own := branches[p].own + more)];
    assert forall b :: Rank(after, b) == Rank(branches, b);
  }

  // Appending to one branch keeps everything, as long as that branch still folds.
  lemma AppendKeeps(branches: DefBranches, next: LayerId, p: BranchId, more: seq<DefLayer>, next': LayerId)
    requires Rooted(branches) && OwnsOk(branches, next) && AllTotal(branches) && p in branches
    requires Ascend(more) && next <= next' && forall l :: l in more ==> next <= l.id < next'
    requires Fold(Path(branches, p) + more).Ok?
    ensures var after := branches[p := branches[p].(own := branches[p].own + more)];
            Rooted(after) && OwnsOk(after, next') && AllTotal(after)
  {
    var after := branches[p := branches[p].(own := branches[p].own + more)];
    SameRanks(branches, p, more);
    forall b | b in after
      ensures OwnOk(after, next', b) && Total(Path(after, b))
    {
      assert OwnOk(branches, next, b) && OwnOk(branches, next, p);
      OthersUnmoved(branches, next, p, more, b);
      TotalIsWhole(Path(after, b));
    }
  }

  // --- Merging ---

  // What the parent has moved since the fork point, of its own.
  function MovedSince(own: seq<DefLayer>, at: LayerId): set<Field> {
    set l, e | l in own && l.id > at && e in l.events && Touches(e).Some? :: Touches(e).value
  }

  predicate Diverges(layers: seq<DefLayer>, moved: set<Field>) {
    exists l, e :: l in layers && e in l.events && Touches(e).Some? && Touches(e).value in moved
  }

  predicate Concerns(e: DefEvent, f: Field) {
    Declares(e, f) || Mutates(e, f) || Deletes(e, f)
  }

  // Both sides moved one field since the fork: an event of the child's, and one of the parent's own above it.
  ghost predicate BothMoved(own: seq<DefLayer>, parent: seq<DefLayer>, at: LayerId) {
    exists f, l, e, m, g :: l in own && e in l.events && Concerns(e, f) && m in parent && m.id > at && g in m.events && Concerns(g, f)
  }

  lemma ConcernsIs(e: DefEvent, f: Field)
    ensures Concerns(e, f) <==> Touches(e) == Some(f)
  {
  }

  lemma MovedIs(parent: seq<DefLayer>, at: LayerId, f: Field)
    ensures f in MovedSince(parent, at) <==> exists m, g :: m in parent && m.id > at && g in m.events && Concerns(g, f)
  {
    hide Concerns, Touches;
    forall e: DefEvent
      ensures Concerns(e, f) <==> Touches(e) == Some(f)
    {
      ConcernsIs(e, f);
    }
  }

  lemma DivergesMeans(own: seq<DefLayer>, parent: seq<DefLayer>, at: LayerId)
    ensures Diverges(own, MovedSince(parent, at)) <==> BothMoved(own, parent, at)
  {
    hide Concerns, Touches, MovedSince;
    if Diverges(own, MovedSince(parent, at)) {
      var l, e :| l in own && e in l.events && Touches(e).Some? && Touches(e).value in MovedSince(parent, at);
      var f := Touches(e).value;
      ConcernsIs(e, f);
      MovedIs(parent, at, f);
      var m, g :| m in parent && m.id > at && g in m.events && Concerns(g, f);
      assert Concerns(e, f) && Concerns(g, f);
    }
    if f, l, e, m, g :| l in own && e in l.events && Concerns(e, f) && m in parent && m.id > at && g in m.events && Concerns(g, f) {
      ConcernsIs(e, f);
      MovedIs(parent, at, f);
    }
  }

  // A path is what its origin's path shows up to the fork, and then the branch's own.
  lemma PathHolds(branches: DefBranches, next: LayerId, b: BranchId, l: DefLayer)
    requires Rooted(branches) && OwnsOk(branches, next) && b in branches
    ensures l in Path(branches, b) <==>
            l in branches[b].own || (branches[b].origin.Some? && l in Path(branches, branches[b].origin.value.0) && l.id <= branches[b].origin.value.1)
  {
    if branches[b].origin.Some? {
      PathAscends(branches, next, branches[b].origin.value.0);
      UpToAscends(Path(branches, branches[b].origin.value.0), branches[b].origin.value.1);
    }
  }

  function Renumber(layers: seq<DefLayer>, first: LayerId): seq<DefLayer> {
    seq(|layers|, k requires 0 <= k < |layers| => DefLayer(first + k, layers[k].events))
  }

  lemma {:induction false} SplitAt(layers: seq<DefLayer>, at: LayerId) returns (since: seq<DefLayer>)
    requires Ascend(layers)
    ensures layers == UpTo(layers, at) + since
    ensures forall l :: l in since ==> l in layers && l.id > at
  {
    if layers == [] || layers[|layers| - 1].id <= at {
      since := [];
    } else {
      since := SplitAt(layers[..|layers| - 1], at);
      since := since + [layers[|layers| - 1]];
    }
  }

  // A layer of the path above the branch's own origin is the branch's own.
  lemma RecentIsOwn(branches: DefBranches, next: LayerId, b: BranchId, l: DefLayer)
    requires Rooted(branches) && OwnsOk(branches, next) && b in branches
    requires l in Path(branches, b) && l.id >= Rank(branches, b)
    ensures l in branches[b].own
  {
    var branch := branches[b];
    if branch.origin.Some? {
      PathAscends(branches, next, branch.origin.value.0);
      UpToAscends(Path(branches, branch.origin.value.0), branch.origin.value.1);
    }
  }

  // The fork point the child's definitions were written against is part of the parent's history: it sits
  // at or above the parent's own origin, and both branches show the same definitions up to it.
  ghost predicate ForkedFrom(branches: DefBranches, child: BranchId, parent: BranchId)
    requires Rooted(branches)
  {
    && child in branches && parent in branches && branches[child].origin.Some?
    && Rank(branches, parent) <= branches[child].origin.value.1 + 1
    && UpTo(Path(branches, parent), branches[child].origin.value.1)
       == UpTo(Path(branches, branches[child].origin.value.0), branches[child].origin.value.1)
  }

  // The ordinary case: a child merged back into the branch it was forked from.
  lemma OwnParentForked(branches: DefBranches, child: BranchId)
    requires Rooted(branches) && child in branches && branches[child].origin.Some?
    ensures ForkedFrom(branches, child, branches[child].origin.value.0)
  {
  }

  lemma MergeFolds(branches: DefBranches, next: LayerId, child: BranchId, parent: BranchId)
    requires Rooted(branches) && OwnsOk(branches, next) && AllTotal(branches) && ForkedFrom(branches, child, parent)
    requires !Diverges(branches[child].own, MovedSince(branches[parent].own, branches[child].origin.value.1))
    ensures Fold(Path(branches, parent) + Renumber(branches[child].own, next)).Ok?
  {
    var at := branches[child].origin.value.1;
    var moved := MovedSince(branches[parent].own, at);
    PathAscends(branches, next, parent);
    var since := SplitAt(Path(branches, parent), at);
    var base, own := UpTo(Path(branches, parent), at), branches[child].own;
    assert Path(branches, child) == base + own;
    FoldsThere(branches, parent, child, at);
    forall l, e | l in since && e in l.events && Touches(e).Some?
      ensures e.field in moved
    {
      RecentIsOwn(branches, next, parent, l);
      assert Touches(e).value in moved;
    }
    assert LayersMove(since, moved);
    assert LayersAvoid(own, moved);
    ReplayFolds(base, since, own, Renumber(own, next), moved);
  }

  lemma FoldsThere(branches: DefBranches, parent: BranchId, child: BranchId, at: LayerId)
    requires Rooted(branches) && AllTotal(branches) && parent in branches && child in branches
    ensures Fold(UpTo(Path(branches, parent), at)).Ok? && Fold(Path(branches, parent)).Ok? && Fold(Path(branches, child)).Ok?
  {
    TotalIsWhole(Path(branches, parent));
    TotalIsWhole(Path(branches, child));
    assert Total(Path(branches, parent)) && Total(Path(branches, child));
  }

  datatype Refusal = Invalid(error: DefError) | DefDiverged

  // Folds events one by one, stopping at the first that is refused.
  method ApplyAll(v: DefView, events: seq<DefEvent>, at: LayerId) returns (r: Result<DefView, DefError>)
    ensures r == FoldEvents(v, events, at)
  {
    var view := v;
    for m := 0 to |events|
      invariant FoldEvents(v, events[..m], at) == Ok(view)
    {
      assert events[..m + 1][..m] == events[..m];
      var after := Apply(view, events[m], at);
      if after.Err? {
        RefusedThroughout(v, events, m + 1, at);
        return after;
      }
      view := after.value;
    }
    assert events[..|events|] == events;
    r := Ok(view);
  }

  lemma BeforePush(branches: DefBranches, next: LayerId, b: BranchId, l: DefLayer)
    requires Rooted(branches) && OwnsOk(branches, next) && AllTotal(branches) && b in branches
    ensures Fold(Path(branches, b)).Ok?
    ensures Fold(Path(branches, b) + [l]) == FoldEvents(Fold(Path(branches, b)).value, l.events, l.id)
    ensures OwnsOk(branches, next + 1)
  {
    FoldsThere(branches, b, b, 0);
    FoldNext(Path(branches, b), l);
    forall c | c in branches
      ensures OwnOk(branches, next + 1, c)
    {
      assert OwnOk(branches, next, c);
    }
  }

  lemma FoldsToNothing()
    ensures Fold([]) == Ok(EMPTY_VIEW)
  {
  }

  method FoldPath(path: seq<DefLayer>, ceiling: LayerId) returns (view: DefView)
    requires Ascend(path) && Total(path)
    ensures Fold(UpTo(path, ceiling)) == Ok(view)
  {
    hide Total, Apply, FoldEvents, Fold, UpTo, Ascend;
    view := EMPTY_VIEW;
    var n := 0;
    FoldsToNothing();
    assert path[..0] == [];
    while n < |path| && path[n].id <= ceiling
      invariant 0 <= n <= |path|
      invariant forall k :: 0 <= k < n ==> path[k].id <= ceiling
      invariant Fold(path[..n]) == Ok(view)
    {
      PrefixFolds(path, ceiling, n + 1);
      FoldNext(path[..n], path[n]);
      assert path[..n + 1] == path[..n] + [path[n]];
      var folded := ApplyAll(view, path[n].events, path[n].id);
      view := folded.value;
      n := n + 1;
    }
    UpToIsPrefix(path, ceiling, n);
  }

  class DefRegistry {
    var branches: DefBranches
    var next: LayerId

    ghost predicate Valid()
      reads this
    {
      Rooted(branches) && OwnsOk(branches, next) && AllTotal(branches)
    }

    constructor ()
      ensures Valid() && branches == map[]
    {
      branches, next := map[], 1;
    }

    method CreateRoot(b: BranchId)
      requires Valid() && b !in branches
      modifies this
      ensures Valid() && branches == old(branches)[b := DefBranch(None, [])] && next == old(next)
    {
      AddBranch(branches, next, b, DefBranch(None, []));
      branches := branches[b := DefBranch(None, [])];
    }

    // Fork at any layer of the parent, def layer or not.
    method Fork(b: BranchId, parent: BranchId, at: LayerId)
      requires Valid() && b !in branches && parent in branches
      requires Rank(branches, parent) <= at < next
      modifies this
      ensures Valid() && branches == old(branches)[b := DefBranch(Some((parent, at)), [])] && next == old(next)
    {
      AddBranch(branches, next, b, DefBranch(Some((parent, at)), []));
      branches := branches[b := DefBranch(Some((parent, at)), [])];
    }

    // A value layer takes an id too.
    method ValueLayer()
      requires Valid()
      modifies this
      ensures Valid() && branches == old(branches) && next == old(next) + 1
    {
      forall b | b in branches
        ensures OwnOk(branches, next + 1, b)
      {
        assert OwnOk(branches, next, b);
      }
      next := next + 1;
    }

    // The definitions in force on a branch, as of a def-version: never an error.
    method ViewAt(b: BranchId, ceiling: LayerId) returns (view: DefView)
      requires Valid() && b in branches
      ensures Fold(UpTo(Path(branches, b), ceiling)) == Ok(view)
      ensures FieldHistory.Told(FieldHistory.History(UpTo(Path(branches, b), ceiling)), view)
    {
      PathAscends(branches, next, b);
      view := FoldPath(Path(branches, b), ceiling);
      FieldHistory.FoldTold(UpTo(Path(branches, b), ceiling));
    }

    // Validated against the whole path before anything is kept. A refused push spends its layer id.
    method Push(b: BranchId, events: seq<DefEvent>) returns (r: Result<LayerId, Refusal>)
      requires Valid() && b in branches
      modifies this
      ensures Valid() && next == old(next) + 1
      ensures r.Ok? <==> Fold(Path(old(branches), b) + [DefLayer(old(next), events)]).Ok?
      ensures branches == if r.Ok? then old(branches)[b := old(branches)[b].(own := old(branches)[b].own + [DefLayer(old(next), events)])]
                          else old(branches)
    {
      hide Rooted, OwnsOk, AllTotal, Path, Fold, FoldEvents, Apply;
      var l := DefLayer(next, events);
      BeforePush(branches, next, b, l);
      var folded := ApplyAll(Fold(Path(branches, b)).value, events, l.id);
      if folded.Err? {
        r := Err(Invalid(folded.error));
      } else {
        AppendKeeps(branches, next, b, [l], next + 1);
        branches := branches[b := branches[b].(own := branches[b].own + [l])];
        r := Ok(l.id);
      }
      next := next + 1;
    }

    // The child's def layers land on the parent as they are. Nothing is folded to check them: it is
    // enough that the parent has moved none of the definitions they touch.
    method Merge(child: BranchId, parent: BranchId) returns (r: Result<(), Refusal>)
      requires Valid() && ForkedFrom(branches, child, parent)
      modifies this
      ensures Valid()
      ensures r.Err? <==> Diverges(old(branches)[child].own, MovedSince(old(branches)[parent].own, old(branches)[child].origin.value.1))
      ensures r.Err? <==> BothMoved(old(branches)[child].own, old(branches)[parent].own, old(branches)[child].origin.value.1)
      ensures r.Err? ==> branches == old(branches) && next == old(next)
      ensures r.Ok? ==> branches == old(branches)[parent := old(branches)[parent].(own :=
                          old(branches)[parent].own + Renumber(old(branches)[child].own, old(next)))]
    {
      var at := branches[child].origin.value.1;
      var moved := MovedSince(branches[parent].own, at);
      DivergesMeans(branches[child].own, branches[parent].own, at);
      if Diverges(branches[child].own, moved) {
        return Err(DefDiverged);
      }
      var replayed := Renumber(branches[child].own, next);
      MergeFolds(branches, next, child, parent);
      RenumberedIds(branches[child].own, next);
      AppendKeeps(branches, next, parent, replayed, next + |replayed|);
      branches := branches[parent := branches[parent].(own := branches[parent].own + replayed)];
      next := next + |replayed|;
      r := Ok(());
    }
  }

  lemma RenumberedIds(layers: seq<DefLayer>, first: LayerId)
    ensures Ascend(Renumber(layers, first)) && Renumbered(layers, Renumber(layers, first))
    ensures forall l :: l in Renumber(layers, first) ==> first <= l.id < first + |layers|
  {
  }

  lemma AddBranch(branches: DefBranches, next: LayerId, b: BranchId, branch: DefBranch)
    requires Rooted(branches) && OwnsOk(branches, next) && AllTotal(branches) && b !in branches && branch.own == []
    requires branch.origin.Some? ==> branch.origin.value.0 in branches
                                     && Rank(branches, branch.origin.value.0) <= branch.origin.value.1 < next
    ensures var after := branches[b := branch]; Rooted(after) && OwnsOk(after, next) && AllTotal(after)
  {
    hide Path, UpTo, Total;
    AddBranchOwns(branches, next, b, branch);
    var after := branches[b := branch];
    forall c | c in after
      ensures Total(Path(after, c))
    {
      if c == b {
        NewPath(branches, b, branch);
      } else {
        SamePath(branches, b, branch, c);
      }
    }
  }

  lemma AddBranchOwns(branches: DefBranches, next: LayerId, b: BranchId, branch: DefBranch)
    requires Rooted(branches) && OwnsOk(branches, next) && b !in branches && branch.own == []
    requires branch.origin.Some? ==> branch.origin.value.0 in branches
                                     && Rank(branches, branch.origin.value.0) <= branch.origin.value.1 < next
    ensures Rooted(branches[b := branch]) && OwnsOk(branches[b := branch], next)
  {
    hide Ascend;
    var after := branches[b := branch];
    assert forall c :: c != b ==> Rank(after, c) == Rank(branches, c);
    forall c | c in after
      ensures OwnOk(after, next, c)
    {
      if c == b {
        NothingAscends();
      } else {
        assert OwnOk(branches, next, c);
      }
    }
  }

  lemma NothingAscends()
    ensures Ascend([])
  {
  }

  // A new branch sees what its parent showed at the fork point, or nothing.
  lemma NewPath(branches: DefBranches, b: BranchId, branch: DefBranch)
    requires Rooted(branches) && AllTotal(branches) && b !in branches && branch.own == [] && Rooted(branches[b := branch])
    requires branch.origin.Some? ==> branch.origin.value.0 in branches
    ensures Total(Path(branches[b := branch], b))
  {
    hide Total, UpTo;
    var after := branches[b := branch];
    if branch.origin.Some? {
      var (parent, at) := branch.origin.value;
      SamePath(branches, b, branch, parent);
      assert Path(after, b) == UpTo(Path(branches, parent), at);
      FoldsThere(branches, parent, parent, at);
    } else {
      assert Path(after, b) == [];
      FoldsToNothing();
    }
    TotalIsWhole(Path(after, b));
  }

  lemma {:induction false} SamePath(branches: DefBranches, b: BranchId, branch: DefBranch, c: BranchId)
    requires Rooted(branches) && b !in branches && c in branches && Rooted(branches[b := branch])
    ensures Path(branches[b := branch], c) == Path(branches, c)
    decreases Rank(branches, c)
  {
    if branches[c].origin.Some? {
      SamePath(branches, b, branch, branches[c].origin.value.0);
    }
  }

  lemma {:induction false} PrefixFolds(path: seq<DefLayer>, ceiling: LayerId, n: nat)
    requires Total(path) && n <= |path|
    ensures Fold(path[..n]).Ok?
    decreases |path| - n
  {
    TotalIsWhole(path);
    if n == |path| {
      assert path[..n] == path;
    } else {
      PrefixFolds(path, ceiling, n + 1);
      assert path[..n + 1][..n] == path[..n];
    }
  }

  lemma {:induction false} RefusedThroughout(v: DefView, events: seq<DefEvent>, m: nat, at: LayerId)
    requires m <= |events| && FoldEvents(v, events[..m], at).Err?
    ensures FoldEvents(v, events, at) == FoldEvents(v, events[..m], at)
    decreases |events| - m
  {
    if m == |events| {
      assert events[..m] == events;
    } else {
      assert events[..m + 1][..m] == events[..m];
      RefusedThroughout(v, events, m + 1, at);
    }
  }

  lemma UpToIsPrefix(path: seq<DefLayer>, ceiling: LayerId, n: nat)
    requires Ascend(path) && n <= |path|
    requires forall k :: 0 <= k < n ==> path[k].id <= ceiling
    requires n < |path| ==> path[n].id > ceiling
    ensures UpTo(path, ceiling) == path[..n]
    decreases |path|
  {
    if n == |path| {
      assert path[..n] == path;
    } else {
      var shorter := path[..|path| - 1];
      assert path[|path| - 1].id >= path[n].id;
      UpToIsPrefix(shorter, ceiling, n);
      assert shorter[..n] == path[..n];
    }
  }
}
