/** What a watermark is worth over the whole of a forked branch's path, ancestors included. */
module Inherited {
  // crates/borg-engine/src/derive.rs, `span`, `catch_up`; crates/borg-engine/src/log.rs, `read_path`.
  import opened Core
  import opened Log
  import opened Spans
  import opened Progress

  // A source layer of an ancestor, within the branch's reach, that may still commit.
  ghost predicate PendingAbove(b: BranchId, st: State, id: LayerId) {
    BranchesOk(st.layers, st.branches) && exists k :: IsAbove(b, st, id, k)
  }

  ghost predicate IsAbove(b: BranchId, st: State, id: LayerId, k: nat)
    requires BranchesOk(st.layers, st.branches)
  {
    var path := PathFrom(st.layers, st.branches, b, 0, None);
    0 < k < |path| && Pending(st.layers, path[k].branch, id) && id <= path[k].bound
  }

  // No watermark has reached one.
  ghost predicate NoMarkPassesAbove(b: BranchId, st: State) {
    forall p, id: LayerId :: p in st.marks && PendingAbove(b, st, id) ==> st.marks[p] < id
  }

  ghost predicate NoneAbove(b: BranchId, st: State) {
    forall id: LayerId :: !PendingAbove(b, st, id)
  }

  // --- Nothing new comes up in reach ---

  lemma NextGrows(b: BranchId, st: State, st': State)
    requires BranchSound(b, st) && b in st.branches && Next(b, st, st')
    ensures Grows(st, st')
  {
    if Opens(b, st, st') {
      OpensGrows(b, st, st');
    } else if id, outcome :| Closes(b, st, id, outcome, st') {
      ClosesGrows(b, st, id, outcome, st');
    } else if p :| Lands(b, st, p, st') {
      LandsGrows(b, st, p, st');
    }
  }

  lemma AboveShrinks(b: BranchId, st: State, st': State, id: LayerId)
    requires BranchSound(b, st) && b in st.branches && Grows(st, st') && PendingAbove(b, st', id)
    ensures PendingAbove(b, st, id)
  {
    PathGrows(st, st', b, 0);
    var k :| IsAbove(b, st', id, k);
    AncestorBounds(st.layers, st.branches, b, 0, None, k);
    assert IsAbove(b, st, id, k);
  }

  lemma {:induction false} NoneAboveStays(b: BranchId, first: State, run: seq<State>)
    requires BranchSound(b, first) && b in first.branches && Continues(b, first, run)
    requires NoneAbove(b, first)
    ensures BranchSound(b, run[|run| - 1]) && b in run[|run| - 1].branches && NoneAbove(b, run[|run| - 1])
  {
    hide BranchSound, Next, PendingAbove, Grows;
    var n := |run| - 1;
    if n > 0 {
      assert forall k :: 0 <= k < n ==> run[..n][k] == run[k];
      NoneAboveStays(b, first, run[..n]);
      NextKeeps(b, run[n - 1], run[n]);
      NextGrows(b, run[n - 1], run[n]);
      forall id: LayerId
        ensures !PendingAbove(b, run[n], id)
      {
        if PendingAbove(b, run[n], id) {
          AboveShrinks(b, run[n - 1], run[n], id);
        }
      }
    }
  }

  // --- And what is there stays while the branch goes on by itself ---

  // Reached from `first` with the same layers on every other branch and the same producers.
  ghost predicate Alone(b: BranchId, first: State, st: State) {
    && (exists run :: Continues(b, first, run) && run[|run| - 1] == st)
    && BranchSound(b, st) && b in st.branches && Grows(first, st)
    && (forall id :: id in first.layers && first.layers[id].branch != b ==> st.layers[id] == first.layers[id])
    && st.marks.Keys == first.marks.Keys
  }

  lemma AloneAtFirst(b: BranchId, first: State)
    requires BranchSound(b, first) && b in first.branches
    ensures Alone(b, first, first)
  {
    assert Continues(b, first, [first]) && [first][|[first]| - 1] == first;
  }

  lemma AloneStep(b: BranchId, first: State, st: State, st': State)
    requires Alone(b, first, st) && Next(b, st, st')
    requires forall id :: id in st.layers && st.layers[id].branch != b ==> id in st'.layers && st'.layers[id] == st.layers[id]
    requires st'.marks.Keys == st.marks.Keys
    ensures Alone(b, first, st')
  {
    hide BranchSound, Next;
    var run :| Continues(b, first, run) && run[|run| - 1] == st;
    var longer := run + [st'];
    assert Continues(b, first, longer) && longer[|longer| - 1] == st';
    NextKeeps(b, st, st');
    NextGrows(b, st, st');
    GrowsFurther(first, st, st');
  }

  lemma GrowsFurther(one: State, two: State, three: State)
    requires Grows(one, two) && Grows(two, three)
    ensures Grows(one, three)
  {
    hide BranchesOk, LayersOk;
  }

  lemma AboveStays(b: BranchId, first: State, st: State, id: LayerId)
    requires BranchSound(b, first) && b in first.branches && Alone(b, first, st) && PendingAbove(b, first, id)
    ensures PendingAbove(b, st, id)
  {
    PathGrows(first, st, b, 0);
    var k :| IsAbove(b, first, id, k);
    AncestorsDiffer(first.layers, first.branches, b, 0, None, k);
    assert IsAbove(b, st, id, k);
  }

  function PendingHere(b: BranchId, st: State): set<LayerId> {
    set id | id in st.layers && Pending(st.layers, b, id)
  }

  // Everything the branch itself has open is given up.
  lemma {:induction false} CloseAll(b: BranchId, first: State, st: State) returns (st': State)
    requires Alone(b, first, st)
    ensures Alone(b, first, st') && PendingHere(b, st') == {}
    ensures st'.flight == st.flight && st'.next == st.next && st'.marks == st.marks
    decreases |PendingHere(b, st)|
  {
    st' := st;
    if PendingHere(b, st) != {} {
      var id :| id in PendingHere(b, st);
      var fewer := st.(layers := st.layers[id := st.layers[id].(state := Aborted)]);
      assert Closes(b, st, id, Aborted, fewer);
      assert PendingHere(b, fewer) == PendingHere(b, st) - {id};
      hide Alone;
      AloneCloses(b, first, st, id, Aborted, fewer);
      st' := CloseAll(b, first, fewer);
    }
  }

  lemma AloneCloses(b: BranchId, first: State, st: State, id: LayerId, outcome: LayerState, st': State)
    requires Alone(b, first, st) && Closes(b, st, id, outcome, st')
    ensures Alone(b, first, st')
  {
    hide Alone;
    assert Next(b, st, st');
    AloneStep(b, first, st, st');
  }

  lemma AloneOpens(b: BranchId, first: State, st: State, st': State)
    requires Alone(b, first, st) && Opens(b, st, st')
    ensures Alone(b, first, st') && st.next !in st.layers
  {
    NextIsAbove(st.layers, st.branches, st.next, b);
    hide Alone;
    assert Next(b, st, st');
    AloneStep(b, first, st, st');
  }

  lemma AloneSame(b: BranchId, first: State, st: State, st': State)
    requires Alone(b, first, st) && (Begins(b, st, st') || Finishes(st, st'))
    ensures Alone(b, first, st')
  {
    hide Alone;
    assert Next(b, st, st');
    assert st'.layers == st.layers && st'.marks.Keys == st.marks.Keys;
    AloneStep(b, first, st, st');
  }

  // --- A range that ends at a committed source layer of the branch's own ---

  function Gather(layers: Layers, b: BranchId, from: LayerId, to: LayerId): seq<LayerId>
    decreases to
  {
    if to <= from then []
    else Gather(layers, b, from, to - 1) + (if CommittedOn(layers, b, to) then [to] else [])
  }

  lemma {:induction false} GatherIs(layers: Layers, b: BranchId, from: LayerId, to: LayerId)
    ensures Ascends(Gather(layers, b, from, to))
    ensures forall id: LayerId :: id in Gather(layers, b, from, to) <==> CommittedOn(layers, b, id) && from < id <= to
  {
    if to > from {
      GatherIs(layers, b, from, to - 1);
      if CommittedOn(layers, b, to) {
        Appended(Gather(layers, b, from, to - 1), to);
      }
    }
  }

  lemma {:induction false} LowestOf(marks: map<ProducerId, LayerId>) returns (p: ProducerId)
    requires marks != map[]
    ensures p in marks && forall q :: q in marks ==> marks[p] <= marks[q]
    decreases |marks|
  {
    p :| p in marks;
    var rest := marks - {p};
    if rest != map[] {
      assert p !in rest && marks.Keys == rest.Keys + {p};
      assert |rest| < |marks| by {
        assert |marks.Keys| == |rest.Keys| + 1;
      }
      var q := LowestOf(rest);
      if marks[q] < marks[p] {
        p := q;
      }
    } else {
      assert forall q :: q in marks ==> q == p || q in rest;
    }
  }

  lemma SettlesAt(b: BranchId, st: State, n: LayerId) returns (st': State)
    requires BranchesOk(st.layers, st.branches) && st.flight.None? && st.marks != map[]
    requires PendingHere(b, st) == {} && SourceOn(st.layers, b, n)
    requires forall id: LayerId :: CommittedOn(st.layers, b, id) ==> id <= n
    requires forall p :: p in st.marks ==> st.marks[p] < n
    ensures Begins(b, st, st') && st'.flight.value.reflects == n
  {
    var p := LowestOf(st.marks);
    var from := st.marks[p];
    GatherIs(st.layers, b, from, n);
    var found := Gather(st.layers, b, from, n);
    assert n in found && IsWork(st.layers, n, from);
    assert forall id: LayerId :: Pending(st.layers, b, id) ==> id in PendingHere(b, st);
    var s := Span(n, n, found);
    LastIsTop(found, n);
    assert found[|found| - 1] in found;
    assert SpanTo(st.layers, st.branches, b, from, s, n + 1, Some(n));
    assert LowestMark(st, from) && IsSpan(st.layers, st.branches, b, from, s);
    st' := st.(flight := Some(s));
  }

  // Give up what is open here, commit one source layer, and settle it.
  lemma PassesAbove(b: BranchId, first: State, id: LayerId) returns (st: State)
    requires BranchSound(b, first) && b in first.branches && first.marks != map[] && PendingAbove(b, first, id)
    ensures Alone(b, first, st) && PendingAbove(b, st, id) && !NoMarkPassesAbove(b, st)
  {
    hide BranchSound, PendingAbove, PendingHere, Alone, SourceOn, CommittedOn;
    BelowNext(b, first, id);
    var landed := Idle(b, first);
    var quiet := CloseAll(b, first, landed);
    var ready, n := CommitsOne(b, first, quiet);
    st := Settled(b, first, ready, n);
    AboveStays(b, first, st, id);
    var p :| p in st.marks;
    assert st.marks[p] >= n > id;
  }

  lemma Settled(b: BranchId, first: State, st: State, n: LayerId) returns (st': State)
    requires Alone(b, first, st) && first.marks != map[] && PendingHere(b, st) == {} && st.flight.None? && SourceOn(st.layers, b, n)
    requires forall id: LayerId :: CommittedOn(st.layers, b, id) ==> id <= n
    requires forall p :: p in st.marks ==> st.marks[p] < n
    ensures Alone(b, first, st') && st'.marks != map[] && forall p :: p in st'.marks ==> st'.marks[p] >= n
  {
    hide PendingHere, SourceOn, CommittedOn, BranchesOk;
    AloneIsSound(b, first, st);
    hide Alone;
    var begun := SettlesAt(b, st, n);
    AloneSame(b, first, st, begun);
    st' := begun.(marks := map p | p in begun.marks :: Max(begun.marks[p], n), flight := None);
    assert Finishes(begun, st');
    AloneSame(b, first, begun, st');
    var p :| p in st.marks;
    assert p in st'.marks;
  }

  lemma AloneIsSound(b: BranchId, first: State, st: State)
    requires Alone(b, first, st)
    ensures BranchesOk(st.layers, st.branches) && st.marks.Keys == first.marks.Keys
  {
  }

  lemma BelowNext(b: BranchId, st: State, id: LayerId)
    requires BranchSound(b, st) && PendingAbove(b, st, id)
    ensures id < st.next
  {
    var k :| IsAbove(b, st, id, k);
    assert id in st.layers;
  }

  lemma Idle(b: BranchId, first: State) returns (st: State)
    requires BranchSound(b, first) && b in first.branches
    ensures Alone(b, first, st) && st.flight.None? && st.next == first.next
  {
    AloneAtFirst(b, first);
    st := first;
    if first.flight.Some? {
      st := first.(marks := map p | p in first.marks :: Max(first.marks[p], first.flight.value.reflects), flight := None);
      assert Finishes(first, st);
      AloneSame(b, first, first, st);
    }
  }

  lemma CommitsOne(b: BranchId, first: State, st: State) returns (st': State, n: LayerId)
    requires Alone(b, first, st) && PendingHere(b, st) == {} && st.flight.None?
    ensures Alone(b, first, st') && PendingHere(b, st') == {} && st'.flight.None? && SourceOn(st'.layers, b, n)
    ensures forall id: LayerId :: CommittedOn(st'.layers, b, id) ==> id <= n
    ensures n == st.next && forall p :: p in st'.marks ==> st'.marks[p] < n
  {
    n := st.next;
    var opened_ := st.(layers := st.layers[n := Layer(n, b, ValueLayer, Source, Open, None)], next := n + 1);
    AloneOpens(b, first, st, opened_);
    st' := opened_.(layers := opened_.layers[n := opened_.layers[n].(state := Committed)]);
    assert Closes(b, opened_, n, Committed, st');
    AloneCloses(b, first, opened_, n, Committed, st');
    assert forall id: LayerId :: Pending(st'.layers, b, id) ==> id in PendingHere(b, st);
    forall id: LayerId | CommittedOn(st'.layers, b, id)
      ensures id <= n
    {
      assert id == n || id in st.layers;
    }
  }

  // Over the whole path a watermark is safe, whatever happens afterwards, exactly when no ancestor has a source
  // layer open or sealed within the branch's reach.
  lemma PathIsSafeWhen(b: BranchId, first: State)
    requires BranchSound(b, first) && b in first.branches && first.marks != map[]
    ensures (forall run :: Continues(b, first, run) ==> NoMarkPassesAbove(b, run[|run| - 1])) <==> NoneAbove(b, first)
  {
    hide BranchSound, PendingAbove, Alone;
    if id: LayerId :| PendingAbove(b, first, id) {
      var st := PassesAbove(b, first, id);
      var run := RunOf(b, first, st);
    } else {
      forall run | Continues(b, first, run)
        ensures NoMarkPassesAbove(b, run[|run| - 1])
      {
        NoneAboveStays(b, first, run);
      }
    }
  }

  lemma RunOf(b: BranchId, first: State, st: State) returns (run: seq<State>)
    requires Alone(b, first, st)
    ensures Continues(b, first, run) && run[|run| - 1] == st
  {
    run :| Continues(b, first, run) && run[|run| - 1] == st;
  }

  // A branch forked at its parent's second layer while the first was still open, as its own first layer, if it
  // has one yet, and its watermark and round stand.
  function Forked(parent: BranchId, b: BranchId, p: ProducerId, own: Option<LayerState>, mark: LayerId, flight: Option<Span>): State {
    var layers: Layers := map[1 := Layer(1, parent, ValueLayer, Source, Open, None),
                              2 := Layer(2, parent, ValueLayer, Source, Committed, None)];
    State(if own.None? then layers else layers[3 := Layer(3, b, ValueLayer, Source, own.value, None)],
          map[parent := None, b := Some(2)], if own.None? then 3 else 4, map[p := mark], flight)
  }

  lemma ForkedIsInOrder(parent: BranchId, b: BranchId, p: ProducerId, own: Option<LayerState>, mark: LayerId, flight: Option<Span>)
    requires parent != b
    ensures var st := Forked(parent, b, p, own, mark, flight);
            LayersOk(st.layers, st.next) && BranchesOk(st.layers, st.branches) && b in st.branches
    ensures own.None? ==> Initial(b, Forked(parent, b, p, own, 0, None))
  {
  }

  lemma ForkedCommits(parent: BranchId, b: BranchId, p: ProducerId)
    requires parent != b
    ensures Next(b, Forked(parent, b, p, None, 0, None), Forked(parent, b, p, Some(Open), 0, None))
    ensures Next(b, Forked(parent, b, p, Some(Open), 0, None), Forked(parent, b, p, Some(Committed), 0, None))
  {
    var forked, opens := Forked(parent, b, p, None, 0, None), Forked(parent, b, p, Some(Open), 0, None);
    var commits := Forked(parent, b, p, Some(Committed), 0, None);
    assert Opens(b, forked, opens);
    assert opens.layers[3 := opens.layers[3].(state := Committed)] == commits.layers;
    assert Closes(b, opens, 3, Committed, commits);
  }

  lemma ForkedSettles(parent: BranchId, b: BranchId, p: ProducerId)
    requires parent != b
    ensures var s := Span(3, 3, [3]);
            && Next(b, Forked(parent, b, p, Some(Committed), 0, None), Forked(parent, b, p, Some(Committed), 0, Some(s)))
            && Next(b, Forked(parent, b, p, Some(Committed), 0, Some(s)), Forked(parent, b, p, Some(Committed), 3, None))
  {
    var commits := Forked(parent, b, p, Some(Committed), 0, None);
    var begins, ends := commits.(flight := Some(Span(3, 3, [3]))), Forked(parent, b, p, Some(Committed), 3, None);
    ForkedIsInOrder(parent, b, p, Some(Committed), 0, None);
    assert p in commits.marks;
    FirstSpan(b, commits);
    assert Begins(b, commits, begins);
    assert (map q | q in begins.marks :: Max(begins.marks[q], 3)) == ends.marks;
    assert Finishes(begins, ends);
  }

  lemma ForkedBeneath(parent: BranchId, b: BranchId, p: ProducerId)
    requires parent != b
    ensures var st := Forked(parent, b, p, Some(Committed), 3, None);
            PendingAbove(b, st, 1) && st.marks == map[p := 3]
  {
    hide BranchesOk;
    var st := Forked(parent, b, p, Some(Committed), 3, None);
    ForkedIsInOrder(parent, b, p, Some(Committed), 3, None);
    ForkPath(parent, b, st.layers, st.branches);
    assert IsAbove(b, st, 1, 1);
  }

  // It commits that layer and settles it, and its watermark stands above the parent's, which may still commit.
  lemma ParentCanCommitBeneath(parent: BranchId, b: BranchId, p: ProducerId)
    requires parent != b
    ensures var run := [Forked(parent, b, p, None, 0, None), Forked(parent, b, p, Some(Open), 0, None),
                        Forked(parent, b, p, Some(Committed), 0, None), Forked(parent, b, p, Some(Committed), 0, Some(Span(3, 3, [3]))),
                        Forked(parent, b, p, Some(Committed), 3, None)];
            Reached(b, run) && PendingAbove(b, run[4], 1) && run[4].marks == map[p := 3]
  {
    hide Forked, Next, Initial, PendingAbove, BranchesOk, LayersOk;
    ForkedIsInOrder(parent, b, p, None, 0, None);
    ForkedCommits(parent, b, p);
    ForkedSettles(parent, b, p);
    ForkedBeneath(parent, b, p);
  }

  lemma ForkPath(parent: BranchId, b: BranchId, layers: Layers, branches: Branches)
    requires BranchesOk(layers, branches) && parent != b && branches == map[parent := None, b := Some(2)]
    requires 2 in layers && layers[2].branch == parent
    ensures PathFrom(layers, branches, b, 0, None) == [Segment(b, 0), Segment(parent, 2)]
  {
    assert PathFrom(layers, branches, parent, 2, None) == [Segment(parent, 2)];
  }

  lemma FirstSpan(b: BranchId, st: State)
    requires BranchesOk(st.layers, st.branches) && st.marks != map[] && forall p :: p in st.marks ==> st.marks[p] == 0
    requires SourceOn(st.layers, b, 3) && forall id: LayerId :: CommittedOn(st.layers, b, id) || Pending(st.layers, b, id) ==> id == 3
    ensures LowestMark(st, 0) && IsSpan(st.layers, st.branches, b, 0, Span(3, 3, [3]))
  {
    var p :| p in st.marks;
    assert 3 in [3] && IsWork(st.layers, 3, 0);
    assert SpanTo(st.layers, st.branches, b, 0, Span(3, 3, [3]), 4, Some(3));
  }
}
