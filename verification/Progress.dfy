/** Every run of one branch: layers commit in any order while rounds start and finish. */
module Progress {
  // crates/borg-engine/src/derive.rs, `catch_up`, `settle_span`; the rest of the registry moves underneath.
  import opened Core
  import opened Log
  import opened Spans

  // The log, how far each producer stands on this branch, and the range of the round in flight.
  datatype State = State(layers: Layers, branches: Branches, next: LayerId, marks: map<ProducerId, LayerId>, flight: Option<Span>)

  predicate IsClosed(state: LayerState) {
    state == Committed || state == Aborted
  }

  // Layers keep their place, a closed layer stays as it closed, and ids are only handed out upwards; branches keep
  // their origin.
  ghost predicate Grows(st: State, st': State) {
    && (forall id :: id in st.layers ==> id in st'.layers && st'.layers[id].branch == st.layers[id].branch
                                         && st'.layers[id].author == st.layers[id].author)
    && (forall id :: id in st.layers && IsClosed(st.layers[id].state) ==> st'.layers[id].state == st.layers[id].state)
    && (forall id :: id in st'.layers && id !in st.layers ==> id >= st.next)
    && (forall b :: b in st.branches ==> b in st'.branches && st'.branches[b] == st.branches[b])
    && BranchesOk(st'.layers, st'.branches) && LayersOk(st'.layers, st'.next) && st.next <= st'.next
  }

  // This branch's own layers are as they were.
  ghost predicate SameHere(b: BranchId, st: State, st': State) {
    forall id :: (CommittedOn(st'.layers, b, id) <==> CommittedOn(st.layers, b, id))
                 && (Pending(st'.layers, b, id) <==> Pending(st.layers, b, id))
  }

  // --- Steps ---

  ghost predicate Opens(b: BranchId, st: State, st': State) {
    && b in st.branches
    && st' == st.(layers := st.layers[st.next := Layer(st.next, b, ValueLayer, Source, Open, None)], next := st.next + 1)
  }

  ghost predicate Closes(b: BranchId, st: State, id: LayerId, outcome: LayerState, st': State) {
    && Pending(st.layers, b, id) && outcome != Open
    && st' == st.(layers := st.layers[id := st.layers[id].(state := outcome)])
  }

  // Anything that happens on other branches.
  ghost predicate Elsewhere(b: BranchId, st: State, st': State) {
    Grows(st, st') && SameHere(b, st, st') && st'.marks == st.marks && st'.flight == st.flight
  }

  predicate LowestMark(st: State, from: LayerId) {
    && (forall p :: p in st.marks ==> from <= st.marks[p])
    && (if st.marks == map[] then from == 0 else exists p :: p in st.marks && st.marks[p] == from)
  }

  // `catch_up` measures from the producer furthest behind.
  ghost predicate Begins(b: BranchId, st: State, st': State) {
    && BranchesOk(st.layers, st.branches) && st.flight.None?
    && exists from, s :: LowestMark(st, from) && IsSpan(st.layers, st.branches, b, from, s) && st' == st.(flight := Some(s))
  }

  // One producer's part of the round lands.
  ghost predicate Lands(b: BranchId, st: State, p: ProducerId, st': State) {
    && b in st.branches && st.flight.Some?
    && st' == st.(layers := st.layers[st.next := Layer(st.next, b, ValueLayer, Derived(p, st.flight.value.reflects), Committed, None)],
                  next := st.next + 1)
  }

  // Every watermark advances, never backwards.
  ghost predicate Finishes(st: State, st': State) {
    && st.flight.Some?
    && st' == st.(marks := map p | p in st.marks :: Max(st.marks[p], st.flight.value.reflects), flight := None)
  }

  // `recompute`: every producer is taken back to nothing, and one round settles at the highest source layer
  // the branch's path shows.
  ghost predicate Recomputes(b: BranchId, st: State, at: LayerId, st': State) {
    && BranchesOk(st.layers, st.branches) && st.flight.None? && ShownHighest(b, st, at)
    && st' == st.(marks := map p | p in st.marks :: 0, flight := Some(Span(at, at, [at])))
  }

  ghost predicate ShownHighest(b: BranchId, st: State, at: LayerId)
    requires BranchesOk(st.layers, st.branches)
  {
    exists head: LayerId :: IsHead(st.layers, b, head)
                            && IsHighestSource(st.layers, PathFrom(st.layers, st.branches, b, head, None), Some(at))
  }

  // A recompute called with no source layer of the branch open or sealed beneath where it settles.
  ghost predicate RecomputesClear(b: BranchId, st: State, at: LayerId, st': State) {
    Recomputes(b, st, at, st') && Finished(st.layers, b, at)
  }

  // A step of any kind; what becomes of a recompute that is not clear is `RecomputeIsSafeWhen`.
  ghost predicate Next(b: BranchId, st: State, st': State) {
    || Opens(b, st, st')
    || (exists id, outcome :: Closes(b, st, id, outcome, st'))
    || Elsewhere(b, st, st')
    || Begins(b, st, st')
    || (exists p :: Lands(b, st, p, st'))
    || Finishes(st, st')
    || (exists at: LayerId :: RecomputesClear(b, st, at, st'))
  }

  // --- The invariant ---

  ghost predicate BranchSound(b: BranchId, st: State) {
    && LayersOk(st.layers, st.next) && BranchesOk(st.layers, st.branches)
    && DerivedNames(st.layers, st.branches, b)
    && (forall p :: p in st.marks ==> st.marks[p] < st.next && Finished(st.layers, b, st.marks[p]))
    && (st.flight.Some? ==> Reflecting(b, st, st.flight.value.reflects))
  }

  // What a round in flight stands for: a source layer the branch sees, with nothing pending beneath it.
  ghost predicate Reflecting(b: BranchId, st: State, r: LayerId)
    requires BranchesOk(st.layers, st.branches)
  {
    r < st.next && Finished(st.layers, b, r) && Sees(st.layers, st.branches, b, r)
  }

  lemma {:induction false} PathGrows(st: State, st': State, b: BranchId, bound: LayerId)
    requires BranchesOk(st.layers, st.branches) && Grows(st, st') && b in st.branches
    ensures PathFrom(st'.layers, st'.branches, b, bound, None) == PathFrom(st.layers, st.branches, b, bound, None)
    decreases Rank(OriginOf(st.branches, b))
  {
    var origin := OriginOf(st.branches, b);
    if origin.Some? {
      OriginsFall(st.layers, st.branches, b);
      PathGrows(st, st', st.layers[origin.value].branch, origin.value);
    }
  }

  lemma SeesGrows(st: State, st': State, b: BranchId, r: LayerId)
    requires BranchesOk(st.layers, st.branches) && Grows(st, st') && b in st.branches
    requires Sees(st.layers, st.branches, b, r)
    ensures Sees(st'.layers, st'.branches, b, r)
  {
    if !SourceOn(st.layers, b, r) {
      var bound: LayerId, k: nat :| InheritedSource(st.layers, st.branches, b, bound, r, k);
      PathGrows(st, st', b, bound);
      assert InheritedSource(st'.layers, st'.branches, b, bound, r, k);
    }
  }

  // Nothing pending appears at or below a layer id already handed out.
  ghost predicate PendingShrinks(b: BranchId, st: State, st': State) {
    forall id: LayerId :: Pending(st'.layers, b, id) ==> Pending(st.layers, b, id) || id >= st.next
  }

  ghost predicate NoNewDerived(b: BranchId, st: State, st': State) {
    forall d :: CommittedOn(st'.layers, b, d) && st'.layers[d].author.Derived? ==> CommittedOn(st.layers, b, d)
  }

  lemma GrowingKeeps(b: BranchId, st: State, st': State)
    requires BranchSound(b, st) && Grows(st, st') && b in st.branches
    requires PendingShrinks(b, st, st') && NoNewDerived(b, st, st')
    requires st'.marks == st.marks && st'.flight == st.flight
    ensures BranchSound(b, st')
  {
    forall d: LayerId | CommittedOn(st'.layers, b, d) && st'.layers[d].author.Derived?
      ensures st'.layers[d].author.reflects < d && Sees(st'.layers, st'.branches, b, st'.layers[d].author.reflects)
    {
      SeesGrows(st, st', b, st.layers[d].author.reflects);
    }
    if st.flight.Some? {
      SeesGrows(st, st', b, st.flight.value.reflects);
    }
  }

  // A layer that keeps its place, or a new one above every other, leaves the log in order.
  lemma PutKeeps(layers: Layers, branches: Branches, next: LayerId, next': LayerId, l: Layer)
    requires LayersOk(layers, next) && BranchesOk(layers, branches) && 0 < l.id < next' && next <= next'
    requires l.branch in branches && (branches[l.branch].Some? ==> branches[l.branch].value < l.id)
    ensures LayersOk(layers[l.id := l], next') && BranchesOk(layers[l.id := l], branches)
  {
    var layers' := layers[l.id := l];
    assert forall id: LayerId | id in layers' :: id == l.id || id in layers;
  }

  // What the log says of any one layer of a branch.
  lemma Placed(layers: Layers, branches: Branches, next: LayerId, id: LayerId)
    requires LayersOk(layers, next) && BranchesOk(layers, branches) && id in layers
    ensures layers[id].id == id && 0 < id < next && layers[id].branch in branches
    ensures branches[layers[id].branch].Some? ==> branches[layers[id].branch].value < id
  {
  }

  lemma NextIsAbove(layers: Layers, branches: Branches, next: LayerId, b: BranchId)
    requires LayersOk(layers, next) && BranchesOk(layers, branches) && b in branches
    ensures next > 0 && next !in layers && (branches[b].Some? ==> branches[b].value < next)
  {
  }

  lemma OpensGrows(b: BranchId, st: State, st': State)
    requires LayersOk(st.layers, st.next) && BranchesOk(st.layers, st.branches) && Opens(b, st, st')
    ensures Grows(st, st') && PendingShrinks(b, st, st') && NoNewDerived(b, st, st')
  {
    hide LayersOk, BranchesOk;
    NextIsAbove(st.layers, st.branches, st.next, b);
    PutKeeps(st.layers, st.branches, st.next, st.next + 1, Layer(st.next, b, ValueLayer, Source, Open, None));
  }

  lemma ClosesGrows(b: BranchId, st: State, id: LayerId, outcome: LayerState, st': State)
    requires LayersOk(st.layers, st.next) && BranchesOk(st.layers, st.branches) && Closes(b, st, id, outcome, st')
    ensures Grows(st, st') && PendingShrinks(b, st, st') && NoNewDerived(b, st, st')
  {
    hide LayersOk, BranchesOk;
    Placed(st.layers, st.branches, st.next, id);
    PutKeeps(st.layers, st.branches, st.next, st.next, st.layers[id].(state := outcome));
  }

  lemma OpensKeeps(b: BranchId, st: State, st': State)
    requires BranchSound(b, st) && Opens(b, st, st')
    ensures BranchSound(b, st')
  {
    OpensGrows(b, st, st');
    hide BranchSound, Grows, PendingShrinks, NoNewDerived;
    GrowingKeeps(b, st, st');
  }

  lemma ClosesKeeps(b: BranchId, st: State, id: LayerId, outcome: LayerState, st': State)
    requires BranchSound(b, st) && b in st.branches && Closes(b, st, id, outcome, st')
    ensures BranchSound(b, st')
  {
    ClosesGrows(b, st, id, outcome, st');
    hide BranchSound, Grows, PendingShrinks, NoNewDerived;
    GrowingKeeps(b, st, st');
  }

  lemma BeginsKeeps(b: BranchId, st: State, st': State)
    requires BranchSound(b, st) && Begins(b, st, st')
    ensures BranchSound(b, st')
  {
    var from, s :| LowestMark(st, from) && IsSpan(st.layers, st.branches, b, from, s) && st' == st.(flight := Some(s));
    SpanIsFinished(st.layers, st.branches, b, from, s);
    var stop: LayerId, top :| SpanTo(st.layers, st.branches, b, from, s, stop, top);
    assert s.forkAt in s.layers;
    SpanIsCoherent(st.layers, st.branches, b, from, s, s.forkAt);
    if top.None? {
      PathSees(st.layers, st.branches, b, s.forkAt, s.reflects);
    }
  }

  lemma ShownIsSeen(b: BranchId, st: State, at: LayerId)
    requires BranchesOk(st.layers, st.branches) && ShownHighest(b, st, at)
    ensures Sees(st.layers, st.branches, b, at) && at in st.layers
    ensures forall r: LayerId :: Sees(st.layers, st.branches, b, r) ==> r <= at
  {
    var head: LayerId :| IsHead(st.layers, b, head)
                         && IsHighestSource(st.layers, PathFrom(st.layers, st.branches, b, head, None), Some(at));
    hide PathFrom, Sees;
    HeadPathSees(st.layers, st.branches, b, head, at);
    forall r: LayerId | Sees(st.layers, st.branches, b, r)
      ensures r <= at
    {
      HeadPathSees(st.layers, st.branches, b, head, r);
    }
  }

  lemma RecomputeKeeps(b: BranchId, st: State, at: LayerId, st': State)
    requires BranchSound(b, st) && RecomputesClear(b, st, at, st')
    ensures BranchSound(b, st')
  {
    hide Sees, ShownHighest;
    ShownIsSeen(b, st, at);
  }

  lemma LandsGrows(b: BranchId, st: State, p: ProducerId, st': State)
    requires LayersOk(st.layers, st.next) && BranchesOk(st.layers, st.branches) && Lands(b, st, p, st')
    ensures Grows(st, st') && PendingShrinks(b, st, st')
    ensures forall d: LayerId :: CommittedOn(st'.layers, b, d) && d != st.next ==> CommittedOn(st.layers, b, d)
  {
    hide LayersOk, BranchesOk;
    NextIsAbove(st.layers, st.branches, st.next, b);
    PutKeeps(st.layers, st.branches, st.next, st.next + 1,
             Layer(st.next, b, ValueLayer, Derived(p, st.flight.value.reflects), Committed, None));
  }

  lemma LandsKeeps(b: BranchId, st: State, p: ProducerId, st': State)
    requires BranchSound(b, st) && Lands(b, st, p, st')
    ensures BranchSound(b, st')
  {
    var r := st.flight.value.reflects;
    LandsGrows(b, st, p, st');
    assert Sees(st'.layers, st'.branches, b, r) by {
      SeesGrows(st, st', b, r);
    }
    LandsNames(b, st, p, st');
  }

  lemma LandsNames(b: BranchId, st: State, p: ProducerId, st': State)
    requires LayersOk(st.layers, st.next) && BranchesOk(st.layers, st.branches) && DerivedNames(st.layers, st.branches, b)
    requires Lands(b, st, p, st') && Grows(st, st') && st.flight.value.reflects < st.next
    requires Sees(st'.layers, st'.branches, b, st.flight.value.reflects)
    requires forall d: LayerId :: CommittedOn(st'.layers, b, d) && d != st.next ==> CommittedOn(st.layers, b, d)
    ensures DerivedNames(st'.layers, st'.branches, b)
  {
    forall d: LayerId | CommittedOn(st'.layers, b, d) && st'.layers[d].author.Derived?
      ensures st'.layers[d].author.reflects < d && Sees(st'.layers, st'.branches, b, st'.layers[d].author.reflects)
    {
      if d != st.next {
        SeesGrows(st, st', b, st.layers[d].author.reflects);
      }
    }
  }

  lemma NextKeeps(b: BranchId, st: State, st': State)
    requires BranchSound(b, st) && b in st.branches && Next(b, st, st')
    ensures BranchSound(b, st') && b in st'.branches
  {
    if Opens(b, st, st') {
      OpensKeeps(b, st, st');
    } else if id, outcome :| Closes(b, st, id, outcome, st') {
      ClosesKeeps(b, st, id, outcome, st');
    } else if Elsewhere(b, st, st') {
      GrowingKeeps(b, st, st');
    } else if Begins(b, st, st') {
      BeginsKeeps(b, st, st');
    } else if p :| Lands(b, st, p, st') {
      LandsKeeps(b, st, p, st');
    } else if at: LayerId :| RecomputesClear(b, st, at, st') {
      RecomputeKeeps(b, st, at, st');
    }
  }

  // A new branch: nothing of its own yet, and no producer has run here.
  ghost predicate Initial(b: BranchId, st: State) {
    && LayersOk(st.layers, st.next) && BranchesOk(st.layers, st.branches) && b in st.branches
    && (forall id :: id in st.layers ==> st.layers[id].branch != b)
    && (forall p :: p in st.marks ==> st.marks[p] == 0) && st.flight.None?
  }

  ghost predicate Reached(b: BranchId, run: seq<State>) {
    && run != [] && Initial(b, run[0])
    && forall n :: 0 <= n < |run| - 1 ==> Next(b, run[n], run[n + 1])
  }

  lemma {:induction false} ReachedIsSound(b: BranchId, run: seq<State>)
    requires Reached(b, run)
    ensures BranchSound(b, run[|run| - 1]) && b in run[|run| - 1].branches
  {
    hide BranchSound, Next, Initial;
    var n := |run| - 1;
    if n == 0 {
      InitialIsSound(b, run[0]);
    } else {
      assert forall k :: 0 <= k < n ==> run[..n][k] == run[k];
      ReachedIsSound(b, run[..n]);
      NextKeeps(b, run[n - 1], run[n]);
    }
  }

  lemma InitialIsSound(b: BranchId, st: State)
    requires Initial(b, st)
    ensures BranchSound(b, st) && CaughtUp(b, st) && b in st.branches
  {
  }

  // In every run, no watermark has passed a source layer that may still commit here.
  lemma MarksNeverPassPending(b: BranchId, run: seq<State>, p: ProducerId, id: LayerId)
    requires Reached(b, run)
    requires p in run[|run| - 1].marks && Pending(run[|run| - 1].layers, b, id)
    ensures run[|run| - 1].marks[p] < id
  {
    ReachedIsSound(b, run);
  }

  // Of what an ancestor still has open within the branch's reach that cannot be said: whatever mark has come
  // to a source layer of the branch's own stands above all of it.
  lemma MarksPassInherited(b: BranchId, run: seq<State>, p: ProducerId, own: LayerId, bound: LayerId, k: nat, id: LayerId)
    requires Reached(b, run)
    requires var st := run[|run| - 1]; p in st.marks && SourceOn(st.layers, b, own) && own <= st.marks[p]
    requires BranchesOk(run[|run| - 1].layers, run[|run| - 1].branches)
    requires var path := PathFrom(run[|run| - 1].layers, run[|run| - 1].branches, b, bound, None);
             0 < k < |path| && Pending(run[|run| - 1].layers, path[k].branch, id) && id <= path[k].bound
    ensures id < run[|run| - 1].marks[p]
  {
    AncestorBounds(run[|run| - 1].layers, run[|run| - 1].branches, b, bound, None, k);
  }

  // In every run, a round's snapshot is exactly the world it names: up to its fork point there is the
  // source data it reflects, and derived data speaking for nothing newer.
  lemma EverySpanIsCoherent(b: BranchId, run: seq<State>, from: LayerId, s: Span, d: LayerId)
    requires Reached(b, run)
    requires BranchesOk(run[|run| - 1].layers, run[|run| - 1].branches)
    requires IsSpan(run[|run| - 1].layers, run[|run| - 1].branches, b, from, s)
    requires CommittedOn(run[|run| - 1].layers, b, d) && d <= s.forkAt
    ensures s.reflects <= s.forkAt
    ensures run[|run| - 1].layers[d].author.Source? ==> d <= s.reflects
    ensures run[|run| - 1].layers[d].author.Derived? ==> run[|run| - 1].layers[d].author.reflects <= s.reflects
  {
    ReachedIsSound(b, run);
    SpanIsCoherent(run[|run| - 1].layers, run[|run| - 1].branches, b, from, s, d);
  }

  // --- A round, and then nothing ---

  // Whatever is derived here, every producer has caught up with, or will have once the round in flight ends.
  ghost predicate CaughtUp(b: BranchId, st: State) {
    forall d, p :: CommittedOn(st.layers, b, d) && st.layers[d].author.Derived? && p in st.marks ==>
      || st.layers[d].author.reflects <= st.marks[p]
      || (st.flight.Some? && st.layers[d].author.reflects <= st.flight.value.reflects)
  }

  // A recompute takes the marks back, but settles at or above everything derived here.
  lemma RecomputeCatchesUp(b: BranchId, st: State, at: LayerId, st': State)
    requires BranchSound(b, st) && Recomputes(b, st, at, st')
    ensures CaughtUp(b, st')
  {
    hide Sees, ShownHighest;
    ShownIsSeen(b, st, at);
  }

  lemma NextCatchesUp(b: BranchId, st: State, st': State)
    requires BranchSound(b, st) && CaughtUp(b, st) && Next(b, st, st')
    ensures CaughtUp(b, st')
  {
    hide BranchSound, Recomputes, IsSpan, LowestMark;
    if id, outcome :| Closes(b, st, id, outcome, st') {
      assert forall d :: CommittedOn(st'.layers, b, d) && st'.layers[d].author.Derived? ==> CommittedOn(st.layers, b, d);
    } else if p :| Lands(b, st, p, st') {
      assert forall d :: CommittedOn(st'.layers, b, d) && d != st.next ==> CommittedOn(st.layers, b, d);
    } else if at: LayerId :| RecomputesClear(b, st, at, st') {
      RecomputeCatchesUp(b, st, at, st');
    }
  }

  lemma {:induction false} ReachedIsCaughtUp(b: BranchId, run: seq<State>)
    requires Reached(b, run)
    ensures CaughtUp(b, run[|run| - 1])
  {
    hide CaughtUp, Next, Initial, BranchSound;
    var n := |run| - 1;
    if n == 0 {
      InitialIsSound(b, run[0]);
    } else {
      assert forall k :: 0 <= k < n ==> run[..n][k] == run[k];
      ReachedIsSound(b, run[..n]);
      ReachedIsCaughtUp(b, run[..n]);
      NextCatchesUp(b, run[n - 1], run[n]);
    }
  }

  ghost predicate NoSourceAbove(layers: Layers, b: BranchId, w: LayerId) {
    forall id: LayerId :: SourceOn(layers, b, id) ==> id <= w
  }

  // After a round, while no source layer above what it reflects has committed, there is nothing to settle.
  lemma RoundThenNothing(b: BranchId, run: seq<State>, from: LayerId, s: Span)
    requires Reached(b, run) && |run| > 1 && Finishes(run[|run| - 2], run[|run| - 1])
    requires run[|run| - 1].marks != map[] && LowestMark(run[|run| - 1], from)
    requires NoSourceAbove(run[|run| - 1].layers, b, run[|run| - 2].flight.value.reflects)
    requires BranchesOk(run[|run| - 1].layers, run[|run| - 1].branches)
    ensures !IsSpan(run[|run| - 1].layers, run[|run| - 1].branches, b, from, s)
  {
    var st := run[|run| - 1];
    ReachedIsCaughtUp(b, run);
    var p :| p in st.marks && st.marks[p] == from;
    SettledHasNoSpan(st.layers, st.branches, b, from, from, s);
  }

  // --- What `recompute` costs ---

  // No watermark has reached a source layer that may still commit here.
  ghost predicate NoMarkPasses(b: BranchId, st: State) {
    forall p, id: LayerId :: p in st.marks && Pending(st.layers, b, id) ==> st.marks[p] < id
  }

  ghost predicate Continues(b: BranchId, first: State, run: seq<State>) {
    && run != [] && run[0] == first
    && forall n :: 0 <= n < |run| - 1 ==> Next(b, run[n], run[n + 1])
  }

  lemma {:induction false} ContinuesSound(b: BranchId, first: State, run: seq<State>)
    requires BranchSound(b, first) && b in first.branches && Continues(b, first, run)
    ensures BranchSound(b, run[|run| - 1]) && b in run[|run| - 1].branches
  {
    hide BranchSound, Next;
    var n := |run| - 1;
    if n > 0 {
      assert forall k :: 0 <= k < n ==> run[..n][k] == run[k];
      ContinuesSound(b, first, run[..n]);
      NextKeeps(b, run[n - 1], run[n]);
    }
  }

  // A recompute is safe, whatever happens afterwards, exactly when no source layer of the branch was open or
  // sealed beneath the path's highest committed one as it was called.
  lemma RecomputeIsSafeWhen(b: BranchId, call: State, at: LayerId, called: State)
    requires BranchSound(b, call) && b in call.branches && call.marks != map[] && Recomputes(b, call, at, called)
    ensures (forall run :: Continues(b, called, run) ==> NoMarkPasses(b, run[|run| - 1])) <==> Finished(call.layers, b, at)
  {
    if Finished(call.layers, b, at) {
      RecomputeKeeps(b, call, at, called);
      hide Recomputes, Finished;
      forall run | Continues(b, called, run)
        ensures NoMarkPasses(b, run[|run| - 1])
      {
        ContinuesSound(b, called, run);
        SoundMarks(b, run[|run| - 1]);
      }
    } else {
      var run, p, id := RecomputePasses(b, call, at, called);
      assert Continues(b, called, run) && !NoMarkPasses(b, run[|run| - 1]);
    }
  }

  lemma SoundMarks(b: BranchId, st: State)
    requires BranchSound(b, st)
    ensures NoMarkPasses(b, st)
  {
  }

  // Otherwise the round has only to end before that layer closes.
  lemma RecomputePasses(b: BranchId, call: State, at: LayerId, called: State)
    returns (run: seq<State>, p: ProducerId, id: LayerId)
    requires call.marks != map[] && Recomputes(b, call, at, called) && !Finished(call.layers, b, at)
    ensures Continues(b, called, run) && p in run[|run| - 1].marks
    ensures Pending(run[|run| - 1].layers, b, id) && id <= run[|run| - 1].marks[p]
  {
    id :| Pending(call.layers, b, id) && id <= at;
    p :| p in call.marks;
    var done := called.(marks := map q | q in called.marks :: Max(called.marks[q], at), flight := None);
    run := [called, done];
    assert Finishes(called, done);
    assert Next(b, called, done);
  }

  // Two layers opened, the later committed first, and a recompute called: it settles at the second while the
  // first is still open.
  lemma RecomputeCanPass(b: BranchId, p: ProducerId)
    ensures var call := State(map[1 := Layer(1, b, ValueLayer, Source, Open, None), 2 := Layer(2, b, ValueLayer, Source, Committed, None)],
                              map[b := None], 3, map[p := 0], None);
            var called := call.(flight := Some(Span(2, 2, [2])));
            var done := call.(marks := map[p := 2]);
            && BranchSound(b, call) && Recomputes(b, call, 2, called) && Finishes(called, done) && Pending(done.layers, b, 1)
  {
    var layers := map[1 := Layer(1, b, ValueLayer, Source, Open, None), 2 := Layer(2, b, ValueLayer, Source, Committed, None)];
    var branches: Branches := map[b := None];
    var call := State(layers, branches, 3, map[p := 0], None);
    var path := PathFrom(layers, branches, b, 2, None);
    assert path == [Segment(b, 2)];
    assert SourceOn(layers, path[0].branch, 2) && IsHead(layers, b, 2);
    assert IsHighestSource(layers, path, Some(2));
    assert ShownHighest(b, call, 2);
    assert (map q | q in call.marks :: 0) == call.marks;
    assert (map q | q in call.marks :: Max(0, 2)) == map[p := 2];
  }
}
