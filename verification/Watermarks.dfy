/** What every record's watermark is worth, in every state a run reaches. */
module Watermarks {
  // Client commits interleaved with derivation rounds, for ever (crates/borg-engine/src/derive.rs, `catch_up`;
  // crates/borg-engine/src/branch.rs, `merge_round`).
  import opened Core
  import opened Producers
  import opened Scheduler
  import opened Settle
  import opened Confluence
  import opened Equations
  import opened Trunk
  import opened Truth
  import opened RoundMerge
  import M = Merge

  // A branch, and the round in flight if there is one: the branch as it stood where the round forked.
  datatype State = State(branch: Branch, flight: Option<Branch>)

  // --- Steps ---

  // A client's layer lands whole, above everything there is, and touches source records only.
  ghost predicate Commits(sys: System, st: State, l: TrunkLayer, st': State) {
    && l.author.Source? && l.id > Top(st.branch.layers) && LayerFits(sys, l) && PlainWrites(sys, l.writes)
    && st' == st.(branch := st.branch.(layers := st.branch.layers + [l]))
  }

  ghost predicate Begins(st: State, st': State) {
    st.flight.None? && HasWork(st.branch) && st' == st.(flight := Some(st.branch))
  }

  // One way a round can have gone and its merge with it: its layers and read-sets, their ids' order, the
  // layers that failed and those dropped with them, and what landed in which fresh ids.
  datatype Ending = Ending(layers: seq<RunLayer>, readSets: map<Invocation, set<CellAt>>, order: seq<RunLayer>,
                           ids: (LayerId, nat) -> EventId, failed: set<LayerId>, dropped: set<LayerId>,
                           first: LayerId, next: LayerId, landings: seq<M.Landing>, landed: seq<TrunkLayer>)

  // A settled round merges, and every watermark advances to what the round reflects.
  ghost predicate Finishes(sys: System, st: State, e: Ending, st': State) {
    && st.flight.Some?
    && var start := st.flight.value;
    && Settled(RoundFrom(sys, start), e.layers, e.readSets)
    && Lands(st.branch, Top(start.layers), TopSource(start.layers), e.layers, e.order, e.ids, e.failed, e.dropped,
             e.first, e.next, e.landings, e.landed)
    && st' == State(Branch(st.branch.layers + e.landed, TopSource(start.layers), e.readSets), None)
  }

  ghost predicate Next(sys: System, st: State, st': State) {
    || (exists l :: Commits(sys, st, l, st'))
    || Begins(st, st')
    || (exists e :: Finishes(sys, st, e, st'))
  }

  ghost predicate Initial(st: State) {
    st == State(Branch([], 0, map[]), None)
  }

  ghost predicate Reached(sys: System, run: seq<State>) {
    && run != [] && Initial(run[0])
    && forall n :: 0 <= n < |run| - 1 ==> Next(sys, run[n], run[n + 1])
  }

  // --- The invariant ---

  // Since the round forked, only clients have written to the branch.
  ghost predicate InFlight(sys: System, b: Branch, start: Branch, truths: map<LayerId, Store>) {
    && Truthful(sys, start, truths) && HasWork(start)
    && b.watermark == start.watermark && b.readSets == start.readSets
    && start.layers <= b.layers
    && (forall l :: l in b.layers[|start.layers|..] ==> l.author.Source? && l.id > Top(start.layers))
  }

  // A label is the id of a source layer on this branch.
  ghost predicate LabelsNamed(layers: seq<TrunkLayer>) {
    forall l :: l in layers && l.author.Derived? ==> Named(layers, l.author.reflects)
  }

  ghost predicate Named(layers: seq<TrunkLayer>, w: LayerId) {
    exists m :: m in layers && m.author.Source? && m.id == w
  }

  lemma NamedStill(layers: seq<TrunkLayer>, more: seq<TrunkLayer>)
    requires LabelsNamed(layers)
    requires forall l :: l in more && l.author.Derived? ==> Named(layers, l.author.reflects)
    ensures LabelsNamed(layers + more)
  {
    forall l | l in layers + more && l.author.Derived?
      ensures Named(layers + more, l.author.reflects)
    {
      assert Named(layers, l.author.reflects);
      var m :| m in layers && m.author.Source? && m.id == l.author.reflects;
      assert m in layers + more;
    }
  }

  ghost predicate StateSound(sys: System, st: State, truths: map<LayerId, Store>) {
    && PlainSources(sys, st.branch.layers) && LabelsNamed(st.branch.layers) && Truthful(sys, st.branch, truths)
    && (st.flight.Some? ==> InFlight(sys, st.branch, st.flight.value, truths))
  }

  // --- Commit ---

  lemma {:induction false} MoreOwed(sys: System, b: Branch, l: TrunkLayer, i: Invocation)
    requires Owed(sys, b, i)
    ensures Owed(sys, b.(layers := b.layers + [l]), i)
    decreases sys.f.depth(i)
  {
    var b' := b.(layers := b.layers + [l]);
    if at :| at in sys.f.inputs(i) && Moved(b.layers, b.watermark, at) {
      var m :| m in b.layers && m.author.Source? && m.id > b.watermark && at in m.Records();
      assert m in b'.layers;
      assert Moved(b'.layers, b'.watermark, at);
    } else {
      var j, at :| Feeds(sys, j, at, i) && Owed(sys, b, j);
      MoreOwed(sys, b, l, j);
      assert Feeds(sys, j, at, i) && Owed(sys, b', j);
    }
  }

  lemma AppendFits(sys: System, layers: seq<TrunkLayer>, l: TrunkLayer)
    requires WellFormed(sys, layers) && l.id > Top(layers) && LayerFits(sys, l)
    ensures WellFormed(sys, layers + [l]) && Top(layers + [l]) == l.id
  {
    forall m | m in layers
      ensures m.id < l.id
    {
      TopIsHighest(layers, m);
    }
    assert (layers + [l])[..|layers|] == layers;
  }

  lemma CommitShows(sys: System, layers: seq<TrunkLayer>, l: TrunkLayer, i: Invocation, at: CellAt)
    requires LayerFits(sys, l) && l.author.Source? && Writer(sys, i, at)
    ensures AgreeAt(Shows(layers + [l]), Shows(layers), at)
  {
    assert (layers + [l])[..|layers|] == layers;
    assert !SourceCell(sys, at);
  }

  lemma CommitTruths(sys: System, b: Branch, l: TrunkLayer, truths: map<LayerId, Store>)
    requires TruthsSolve(sys, b.layers, truths) && forall w :: w in truths ==> w < l.id
    ensures TruthsSolve(sys, b.layers + [l], truths)
  {
    forall w | w in truths
      ensures Solves(sys, SourceAt(b.layers + [l], w), truths[w])
    {
      LaterLayers(b.layers, [l], w);
    }
  }

  lemma CommitCurrent(sys: System, b: Branch, l: TrunkLayer, truth: Store)
    requires CurrentTrue(sys, b, truth) && NothingStray(sys, b) && LayerFits(sys, l) && l.author.Source?
    ensures var b' := b.(layers := b.layers + [l]); CurrentTrue(sys, b', truth) && NothingStray(sys, b')
  {
    var b' := b.(layers := b.layers + [l]);
    forall i, at | i in b'.readSets && Writer(sys, i, at) && !Owed(sys, b', i)
      ensures AgreeAt(Shows(b'.layers), truth, at)
    {
      if Owed(sys, b, i) {
        MoreOwed(sys, b, l, i);
      }
      CommitShows(sys, b.layers, l, i, at);
    }
    forall i, at | Writer(sys, i, at) && i !in b'.readSets
      ensures at !in Shows(b'.layers)
    {
      CommitShows(sys, b.layers, l, i, at);
    }
  }

  lemma CommitIsTruthful(sys: System, b: Branch, l: TrunkLayer, truths: map<LayerId, Store>)
    requires Truthful(sys, b, truths) && l.author.Source? && l.id > Top(b.layers) && LayerFits(sys, l)
    ensures Truthful(sys, b.(layers := b.layers + [l]), truths)
  {
    AppendFits(sys, b.layers, l);
    CommitTruths(sys, b, l, truths);
    CommitCurrent(sys, b, l, truths[b.watermark]);
  }

  lemma CommitKeeps(sys: System, st: State, l: TrunkLayer, st': State, truths: map<LayerId, Store>)
    requires StateSound(sys, st, truths) && Commits(sys, st, l, st')
    ensures StateSound(sys, st', truths)
  {
    hide Truthful, LabelsNamed, Named, LayerFits, PlainWrites, HasWork, InFlight, Top;
    CommitIsTruthful(sys, st.branch, l, truths);
    NamedStill(st.branch.layers, [l]);
    if st.flight.Some? {
      FlightCommits(sys, st.branch, st.flight.value, l, truths);
    }
  }

  lemma FlightCommits(sys: System, b: Branch, start: Branch, l: TrunkLayer, truths: map<LayerId, Store>)
    requires InFlight(sys, b, start, truths) && l.author.Source? && l.id > Top(b.layers)
    ensures InFlight(sys, b.(layers := b.layers + [l]), start, truths)
  {
    hide Truthful, HasWork, Top;
    var n := |start.layers|;
    assert (b.layers + [l])[n..] == b.layers[n..] + [l];
    PrefixTop(start.layers, b.layers);
  }

  lemma {:induction false} PrefixTop(a: seq<TrunkLayer>, b: seq<TrunkLayer>)
    requires a <= b
    ensures Top(a) <= Top(b)
  {
    if |a| < |b| {
      PrefixTop(a, b[..|b| - 1]);
    } else {
      assert a == b;
    }
  }

  // --- Finish ---

  // Whatever the merge dropped is owed a run against the new watermark.
  lemma {:induction false} GoneIsOwed(sys: System, now: Branch, after: Branch, fork: LayerId, gone: set<Invocation>, i: Invocation)
    requires Disciplined(sys)
    requires forall j :: j in gone ==> DropReason(sys, now, fork, gone, j) && j in after.readSets
    requires after.watermark <= fork && now.layers <= after.layers
    requires i in gone && i.producer in sys.producers
    ensures Owed(sys, after, i)
    decreases sys.f.depth(i)
  {
    assert DropReason(sys, now, fork, gone, i);
    if at :| at in sys.f.inputs(i) && Moved(now.layers, fork, at) {
      var m :| m in now.layers && m.author.Source? && m.id > fork && at in m.Records();
      assert m in after.layers;
      assert Moved(after.layers, after.watermark, at);
    } else {
      var j, at :| j in gone && Writer(sys, j, at) && at in sys.f.inputs(i);
      GoneIsOwed(sys, now, after, fork, gone, j);
      assert Feeds(sys, j, at, i);
    }
  }

  lemma {:induction false} ShownFrom(layers: seq<TrunkLayer>, at: CellAt) returns (l: TrunkLayer)
    requires at in Shows(layers)
    ensures l in layers && at in l.Records() && AgreeAt(Shows(layers), l.Records(), at)
  {
    var last := layers[|layers| - 1];
    if at in last.Records() {
      l := last;
    } else {
      l := ShownFrom(layers[..|layers| - 1], at);
    }
  }

  // A landed record is the world's record.
  lemma LandedIsFinal(sys: System, start: Branch, layers: seq<RunLayer>, gone: set<Invocation>, records: Store, at: CellAt)
    requires Disciplined(sys) && Fixpoint(RoundFrom(sys, start), layers)
    requires LastWritten(sys, layers, gone, records, at)
    ensures AgreeAt(records, Final(sys, start, layers), at)
  {
    var i :| i in Ran(layers) && i !in gone && Writer(sys, i, at) && LastRun(layers, i).Some?
             && at in WriteMap(LastRun(layers, i).value.writes)
             && Get(records, at) == Some(WriteMap(LastRun(layers, i).value.writes)[at]);
    OutputShown(RoundFrom(sys, start), sys.f, layers, i, at);
  }

  // Producer records between the fork and the merge are as the round found them.
  lemma {:induction false} OnlySourcesSince(sys: System, older: seq<TrunkLayer>, now: seq<TrunkLayer>, i: Invocation, at: CellAt)
    requires older <= now && WellFormed(sys, now) && Writer(sys, i, at)
    requires forall l :: l in now[|older|..] ==> l.author.Source?
    ensures AgreeAt(Shows(now), Shows(older), at)
    decreases |now|
  {
    if older == now {
    } else {
      var shorter, last := now[..|now| - 1], now[|now| - 1];
      WellFormedPrefix(sys, now);
      assert now[|older|..][|now| - |older| - 1] == last;
      assert forall l :: l in shorter[|older|..] ==> l in now[|older|..];
      OnlySourcesSince(sys, older, shorter, i, at);
      assert last in now && !SourceCell(sys, at);
      assert LayerFits(sys, last);
    }
  }

  // What the branch shows of an invocation's output once the round has landed.
  lemma AfterMerge(sys: System, now: Branch, start: Branch, truth: Store, layers: seq<RunLayer>, gone: set<Invocation>,
                   landed: seq<TrunkLayer>, i: Invocation, at: CellAt)
    requires Disciplined(sys) && Base(sys, start, truth) && Over(sys, start, layers)
    requires WellFormed(sys, now.layers) && start.layers <= now.layers
    requires forall l :: l in now.layers[|start.layers|..] ==> l.author.Source?
    requires Merged(sys, now, Top(start.layers), TopSource(start.layers), layers, gone, landed)
    requires Writer(sys, i, at) && i !in gone
    ensures AgreeAt(Shows(now.layers + landed), Final(sys, start, layers), at)
  {
    ShowsAppend(now.layers, landed, at);
    if at in Shows(landed) {
      var l := ShownFrom(landed, at);
      LandedIsFinal(sys, start, layers, gone, l.Records(), at);
    } else {
      ShownSomewhere(landed, at);
      OnlySourcesSince(sys, start.layers, now.layers, i, at);
      assert i !in Ran(layers);
      QuietFinal(sys, start, truth, layers, i, at);
    }
  }

  lemma MergedFits(sys: System, now: Branch, fork: LayerId, reflects: LayerId, layers: seq<RunLayer>,
                   gone: set<Invocation>, landed: seq<TrunkLayer>)
    requires WellFormed(sys, now.layers) && Merged(sys, now, fork, reflects, layers, gone, landed)
    ensures WellFormed(sys, now.layers + landed)
  {
    forall l | l in now.layers
      ensures l.id <= Top(now.layers)
    {
      TopIsHighest(now.layers, l);
    }
    forall l | l in landed
      ensures LayerFits(sys, l)
    {
      forall at | at in l.Records()
        ensures !SourceCell(sys, at)
      {
        assert LastWritten(sys, layers, gone, l.Records(), at);
      }
    }
  }

  lemma FinishIndex(sys: System, start: Branch, truth: Store, layers: seq<RunLayer>, readSets: map<Invocation, set<CellAt>>, after: Branch)
    requires Disciplined(sys) && Base(sys, start, truth) && Over(sys, start, layers)
    requires Indexed(start.readSets, readSets, layers) && after.readSets == readSets
    ensures IndexTrue(sys, after, Final(sys, start, layers))
  {
    forall i: Invocation
      ensures i in readSets <==> i.producer in sys.producers && Active(sys, Final(sys, start, layers), i)
      ensures i in readSets ==> readSets[i] == sys.f.inputs(i)
    {
      if i.producer in sys.producers {
        NewActivity(sys, start, truth, layers, i);
      }
      LastRunIs(layers, i);
      if i in Ran(layers) {
        WritesOf(RoundFrom(sys, start), sys.f, layers, LastRun(layers, i).value);
      }
    }
  }

  lemma FinishCurrent(sys: System, now: Branch, start: Branch, truth: Store, layers: seq<RunLayer>,
                      readSets: map<Invocation, set<CellAt>>, gone: set<Invocation>, landed: seq<TrunkLayer>)
    requires Disciplined(sys) && Base(sys, start, truth) && Over(sys, start, layers)
    requires Indexed(start.readSets, readSets, layers)
    requires WellFormed(sys, now.layers) && start.layers <= now.layers
    requires forall l :: l in now.layers[|start.layers|..] ==> l.author.Source?
    requires Merged(sys, now, Top(start.layers), TopSource(start.layers), layers, gone, landed)
    ensures var after := Branch(now.layers + landed, TopSource(start.layers), readSets);
            CurrentTrue(sys, after, Final(sys, start, layers)) && NothingStray(sys, after)
  {
    var after := Branch(now.layers + landed, TopSource(start.layers), readSets);
    SourceBelowTop(start.layers);
    forall i | i in gone
      ensures Owed(sys, after, i)
    {
      GoneIsOwed(sys, now, after, Top(start.layers), gone, i);
    }
    forall i, at | i in readSets && Writer(sys, i, at) && !Owed(sys, after, i)
      ensures AgreeAt(Shows(after.layers), Final(sys, start, layers), at)
    {
      AfterMerge(sys, now, start, truth, layers, gone, landed, i, at);
    }
    forall i, at | Writer(sys, i, at) && i !in readSets
      ensures at !in Shows(after.layers)
    {
      AfterMerge(sys, now, start, truth, layers, gone, landed, i, at);
      QuietFinal(sys, start, truth, layers, i, at);
    }
  }

  lemma {:induction false} SourceBelowTop(layers: seq<TrunkLayer>)
    ensures TopSource(layers) <= Top(layers)
  {
    if layers != [] {
      SourceBelowTop(layers[..|layers| - 1]);
    }
  }

  lemma FinishTruths(sys: System, now: Branch, start: Branch, truth: Store, layers: seq<RunLayer>, landed: seq<TrunkLayer>,
                     truths: map<LayerId, Store>)
    requires Disciplined(sys) && Base(sys, start, truth) && Over(sys, start, layers)
    requires TruthsSolve(sys, now.layers, truths) && start.layers <= now.layers
    requires forall l :: l in now.layers[|start.layers|..] ==> l.id > Top(start.layers)
    requires forall l :: l in landed ==> l.author.Derived?
    ensures TruthsSolve(sys, now.layers + landed, truths[TopSource(start.layers) := Final(sys, start, layers)])
  {
    hide Disciplined, Over, Base, Solves, SourceAt, Final, TopSource, Top;
    var reflects := TopSource(start.layers);
    var truths' := truths[reflects := Final(sys, start, layers)];
    forall w | w in truths'
      ensures Solves(sys, SourceAt(now.layers + landed, w), truths'[w])
    {
      LaterLayers(now.layers, landed, w);
      if w == reflects {
        SourceBelowTop(start.layers);
        assert now.layers == start.layers + now.layers[|start.layers|..];
        LaterLayers(start.layers, now.layers[|start.layers|..], w);
        RoundSolves(sys, start, truth, layers);
      }
    }
  }

  lemma FinishLabels(sys: System, start: Branch, layers: seq<RunLayer>, now: Branch, gone: set<Invocation>,
                     landed: seq<TrunkLayer>, truths: map<LayerId, Store>)
    requires Disciplined(sys) && Fixpoint(RoundFrom(sys, start), layers)
    requires Merged(sys, now, Top(start.layers), TopSource(start.layers), layers, gone, landed)
    requires LabelsTrue(now.layers, truths) && TopSource(start.layers) !in truths
    ensures LabelsTrue(now.layers + landed, truths[TopSource(start.layers) := Final(sys, start, layers)])
  {
    var truths' := truths[TopSource(start.layers) := Final(sys, start, layers)];
    forall l, at | l in now.layers + landed && l.author.Derived? && at in l.Records()
      ensures l.author.reflects in truths' && AgreeAt(l.Records(), truths'[l.author.reflects], at)
    {
      if l in landed {
        LandedIsFinal(sys, start, layers, gone, l.Records(), at);
      }
    }
  }

  lemma FinishKeeps(sys: System, st: State, e: Ending, st': State, truths: map<LayerId, Store>)
    requires Disciplined(sys) && OneVersion(sys) && StateSound(sys, st, truths)
    requires Finishes(sys, st, e, st')
    ensures StateSound(sys, st', truths[TopSource(st.flight.value.layers) := Final(sys, st.flight.value, e.layers)])
  {
    var now, start := st.branch, st.flight.value;
    SettledIsOver(sys, start, e.layers, e.readSets);
    LandsIsMerged(sys, now, Top(start.layers), TopSource(start.layers), e.layers, e.order, e.ids, e.failed, e.dropped,
                  e.first, e.next, e.landings, e.landed);
    MergedKeeps(sys, now, start, e.layers, e.readSets, Gone(e.order, e.dropped), e.landed, truths);
    TopSourceIsThere(start.layers);
    NamedStill(now.layers, e.landed);
  }

  // A round takes the watermark forward, to the highest source layer there was when it forked.
  lemma FinishAdvances(sys: System, st: State, e: Ending, st': State, truths: map<LayerId, Store>)
    requires StateSound(sys, st, truths) && Finishes(sys, st, e, st')
    ensures st.branch.watermark < st'.branch.watermark
    ensures exists l :: l in st.flight.value.layers && l.author.Source? && l.id == st'.branch.watermark
    ensures forall l :: l in st.flight.value.layers && l.author.Source? ==> l.id <= st'.branch.watermark
  {
    hide Truthful, Settled, Lands;
    var start := st.flight.value;
    TopSourceIsThere(start.layers);
    forall l | l in start.layers && l.author.Source?
      ensures l.id <= TopSource(start.layers)
    {
      TopIsHighest(start.layers, l);
    }
  }

  lemma TruthfulBase(sys: System, start: Branch, truths: map<LayerId, Store>)
    requires Truthful(sys, start, truths)
    ensures Base(sys, start, truths[start.watermark])
  {
    hide WellFormed, IndexTrue, CurrentTrue, NothingStray, LabelsTrue, Top, TopSource, Shows, Solves;
  }

  lemma MergedKeeps(sys: System, now: Branch, start: Branch, layers: seq<RunLayer>, readSets: map<Invocation, set<CellAt>>,
                    gone: set<Invocation>, landed: seq<TrunkLayer>, truths: map<LayerId, Store>)
    requires Disciplined(sys) && Truthful(sys, now, truths) && InFlight(sys, now, start, truths)
    requires Over(sys, start, layers) && Indexed(start.readSets, readSets, layers)
    requires Merged(sys, now, Top(start.layers), TopSource(start.layers), layers, gone, landed)
    ensures Truthful(sys, Branch(now.layers + landed, TopSource(start.layers), readSets),
                     truths[TopSource(start.layers) := Final(sys, start, layers)])
  {
    hide Shows, SourceAt, Final, Top, TopSource, WellFormed, TruthsSolve, IndexTrue, CurrentTrue, NothingStray, LabelsTrue, Base;
    TruthfulBase(sys, start, truths);
    var truth, after := truths[start.watermark], Branch(now.layers + landed, TopSource(start.layers), readSets);
    var truths' := truths[TopSource(start.layers) := Final(sys, start, layers)];
    assert WellFormed(sys, after.layers) by {
      MergedFits(sys, now, Top(start.layers), TopSource(start.layers), layers, gone, landed);
    }
    assert TruthsSolve(sys, after.layers, truths') by {
      FinishTruths(sys, now, start, truth, layers, landed, truths);
    }
    assert IndexTrue(sys, after, Final(sys, start, layers)) by {
      FinishIndex(sys, start, truth, layers, readSets, after);
    }
    assert CurrentTrue(sys, after, Final(sys, start, layers)) && NothingStray(sys, after) by {
      FinishCurrent(sys, now, start, truth, layers, readSets, gone, landed);
    }
    assert LabelsTrue(after.layers, truths') by {
      FinishLabels(sys, start, layers, now, gone, landed, truths);
    }
    assert after.watermark <= Top(after.layers) by {
      SourceBelowTop(start.layers);
      PrefixTop(start.layers, after.layers);
    }
  }

  // --- Every run ---

  lemma NextKeeps(sys: System, st: State, st': State, truths: map<LayerId, Store>) returns (truths': map<LayerId, Store>)
    requires Disciplined(sys) && OneVersion(sys) && StateSound(sys, st, truths) && Next(sys, st, st')
    ensures StateSound(sys, st', truths')
  {
    truths' := truths;
    if l :| Commits(sys, st, l, st') {
      CommitKeeps(sys, st, l, st', truths);
    } else if Begins(st, st') {
    } else {
      var e :| Finishes(sys, st, e, st');
      FinishKeeps(sys, st, e, st', truths);
      truths' := truths[TopSource(st.flight.value.layers) := Final(sys, st.flight.value, e.layers)];
    }
  }

  lemma NothingSolvesNothing(sys: System)
    ensures Solves(sys, map[], map[])
  {
  }

  lemma InitialIsSound(sys: System, st: State) returns (truths: map<LayerId, Store>)
    requires Disciplined(sys) && Initial(st)
    ensures StateSound(sys, st, truths)
  {
    NothingSolvesNothing(sys);
    truths := map[0 := map[]];
  }

  lemma ReachedBefore(sys: System, run: seq<State>)
    requires Reached(sys, run) && |run| > 1
    ensures Reached(sys, run[..|run| - 1]) && Next(sys, run[|run| - 2], run[|run| - 1])
  {
    hide Next, Initial;
    var n, earlier := |run| - 1, run[..|run| - 1];
    assert Next(sys, run[n - 1], run[n - 1 + 1]);
    assert earlier[0] == run[0];
    forall k | 0 <= k < |earlier| - 1
      ensures Next(sys, earlier[k], earlier[k + 1])
    {
      assert earlier[k] == run[k] && earlier[k + 1] == run[k + 1];
    }
  }

  lemma {:induction false} ReachedIsSound(sys: System, run: seq<State>) returns (truths: map<LayerId, Store>)
    requires Disciplined(sys) && OneVersion(sys) && Reached(sys, run)
    ensures StateSound(sys, run[|run| - 1], truths)
  {
    hide Next, StateSound, Disciplined, OneVersion;
    var n := |run| - 1;
    if n == 0 {
      truths := InitialIsSound(sys, run[0]);
    } else {
      ReachedBefore(sys, run);
      var before := ReachedIsSound(sys, run[..n]);
      truths := NextKeeps(sys, run[n - 1], run[n], before);
    }
  }

  // --- What the label names ---

  lemma {:induction false} ScratchSources(layers: seq<TrunkLayer>, w: LayerId)
    ensures forall l :: l in SourcesUpTo(layers, w) <==> l in layers && l.author.Source? && l.id <= w
  {
    if layers != [] {
      var shorter, last := layers[..|layers| - 1], layers[|layers| - 1];
      ScratchSources(shorter, w);
      assert layers == shorter + [last];
    }
  }

  lemma {:induction false} ScratchAscends(sys: System, layers: seq<TrunkLayer>, w: LayerId)
    requires WellFormed(sys, layers)
    ensures WellFormed(sys, SourcesUpTo(layers, w))
  {
    ScratchSources(layers, w);
    if layers != [] {
      WellFormedPrefix(sys, layers);
      ScratchAscends(sys, layers[..|layers| - 1], w);
      ScratchSources(layers[..|layers| - 1], w);
    }
  }

  lemma {:induction false} ScratchShows(sys: System, layers: seq<TrunkLayer>, w: LayerId, v: LayerId)
    requires forall l :: l in SourcesUpTo(layers, w) ==> l.id <= v
    ensures SourceAt(SourcesUpTo(layers, w), v) == SourceAt(layers, w)
  {
    if layers != [] {
      var shorter, last := layers[..|layers| - 1], layers[|layers| - 1];
      ScratchShows(sys, shorter, w, v);
      if last.author.Source? && last.id <= w {
        var sources := SourcesUpTo(layers, w);
        assert sources[|sources| - 1] == last;
        assert sources[..|sources| - 1] == SourcesUpTo(shorter, w);
      } else {
        assert SourcesUpTo(layers, w) == SourcesUpTo(shorter, w);
      }
    }
  }

  lemma ScratchSource(sys: System, b: Branch, w: LayerId)
    ensures var scratch := FromScratch(b, w); SourceAt(scratch.layers, TopSource(scratch.layers)) == SourceAt(b.layers, w)
  {
    var scratch := FromScratch(b, w);
    ScratchSources(b.layers, w);
    forall l | l in scratch.layers
      ensures l.id <= TopSource(scratch.layers)
    {
      TopIsHighest(scratch.layers, l);
    }
    ScratchShows(sys, b.layers, w, TopSource(scratch.layers));
  }

  // A branch holding only the sources, on which no producer has run, meets the round's premises.
  lemma ScratchIsBase(sys: System, b: Branch, w: LayerId)
    requires WellFormed(sys, b.layers)
    ensures Base(sys, FromScratch(b, w), map[])
  {
    var scratch := FromScratch(b, w);
    ScratchSources(b.layers, w);
    ScratchAscends(sys, b.layers, w);
    NothingSolvesNothing(sys);
    forall at
      ensures at !in SourceAt(scratch.layers, 0)
    {
      SourceSomewhere(scratch.layers, 0, at);
    }
    assert SourceAt(scratch.layers, 0) == map[];
    forall i, at | Writer(sys, i, at)
      ensures at !in Shows(scratch.layers)
    {
      ShownSomewhere(scratch.layers, at);
      assert !SourceCell(sys, at);
    }
  }

  lemma ScratchHasWork(b: Branch, w: LayerId)
    requires Named(b.layers, w) && w > 0
    ensures HasWork(FromScratch(b, w))
  {
    ScratchSources(b.layers, w);
    var m :| m in b.layers && m.author.Source? && m.id == w;
    TopIsHighest(FromScratch(b, w).layers, m);
  }

  // Watermark truth. However commits and rounds interleaved, and whatever their merges dropped, every
  // derived record on the branch labelled `w` holds what the source records visible at `w` determine: what it
  // holds in the one world in which each producer's output is what it makes of that world.
  lemma LabelledByTheSources(sys: System, run: seq<State>, l: TrunkLayer, at: CellAt) returns (truth: Store)
    requires Disciplined(sys) && OneVersion(sys) && Reached(sys, run)
    requires l in run[|run| - 1].branch.layers && l.author.Derived? && at in l.Records()
    ensures Solves(sys, SourceAt(run[|run| - 1].branch.layers, l.author.reflects), truth)
    ensures Get(truth, at) == Some(l.Records()[at])
    ensures forall other: Store, x: CellAt :: Solves(sys, SourceAt(run[|run| - 1].branch.layers, l.author.reflects), other) ==>
              AgreeAt(other, truth, x)
  {
    var layers, w := run[|run| - 1].branch.layers, l.author.reflects;
    var truths := ReachedIsSound(sys, run);
    truth := truths[w];
    assert AgreeAt(l.Records(), truth, at);
    forall other: Store, x: CellAt | Solves(sys, SourceAt(layers, w), other)
      ensures AgreeAt(other, truth, x)
    {
      OneSolution(sys, SourceAt(layers, w), other, truth, x);
    }
  }

  // And where a round over those sources alone, on a branch no producer has ever seen, settles, it is what
  // that round shows.
  lemma WatermarkTruth(sys: System, run: seq<State>, l: TrunkLayer, at: CellAt,
                       replay: seq<RunLayer>, readSets: map<Invocation, set<CellAt>>)
    requires Disciplined(sys) && OneVersion(sys) && Reached(sys, run)
    requires l in run[|run| - 1].branch.layers && l.author.Derived? && at in l.Records()
    requires Settled(RoundFrom(sys, FromScratch(run[|run| - 1].branch, l.author.reflects)), replay, readSets)
    ensures Get(Final(sys, FromScratch(run[|run| - 1].branch, l.author.reflects), replay), at) == Some(l.Records()[at])
  {
    var b, w := run[|run| - 1].branch, l.author.reflects;
    var truth := LabelledByTheSources(sys, run, l, at);
    var truths := ReachedIsSound(sys, run);
    var scratch := FromScratch(b, w);
    ScratchIsBase(sys, b, w);
    ScratchHasWork(b, w);
    SettledIsOver(sys, scratch, replay, readSets);
    RoundSolves(sys, scratch, map[], replay);
    ScratchSource(sys, b, w);
    assert AgreeAt(Final(sys, scratch, replay), truth, at);
  }
}
