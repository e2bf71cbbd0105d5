/** What a watermark means: replay the source records it names and get these values. */
module Truth {
  // crates/borg-engine/src/derive.rs, `span`, `settle_span`; crates/borg-engine/src/branch.rs, `merge_round`.
  import opened Core
  import opened Producers
  import opened Scheduler
  import opened Settle
  import opened Confluence
  import opened Equations
  import opened Trunk

  // A branch as derivation sees it: its layers, how far every producer has caught up, and the
  // dependency index's latest read-sets.
  datatype Branch = Branch(layers: seq<TrunkLayer>, watermark: LayerId, readSets: map<Invocation, set<CellAt>>)

  // Source data has arrived that no watermark covers.
  ghost predicate HasWork(b: Branch) {
    TopSource(b.layers) > b.watermark
  }

  // The round `catch_up` starts here: forked at head, settling everything above the watermark.
  function RoundFrom(sys: System, b: Branch): Start {
    Start(sys.prog, sys.producers, map p | p in sys.producers :: b.watermark, Shows(b.layers),
          SpanOf(b.layers, b.watermark), TopSource(b.layers), b.readSets, map[])
  }

  // What a round stands for is the branch's highest source layer.
  lemma RoundStandsFor(sys: System, b: Branch)
    ensures var r := RoundFrom(sys, b).reflects;
            && (forall l :: l in b.layers && l.author.Source? ==> l.id <= r)
            && (r > 0 ==> exists l :: l in b.layers && l.author.Source? && l.id == r)
  {
    forall l | l in b.layers && l.author.Source?
      ensures l.id <= TopSource(b.layers)
    {
      TopIsHighest(b.layers, l);
    }
    if TopSource(b.layers) > 0 {
      TopSourceIsThere(b.layers);
    }
  }

  // The same source records on a branch no producer has ever run on.
  function SourcesUpTo(layers: seq<TrunkLayer>, w: LayerId): seq<TrunkLayer> {
    if layers == [] then []
    else
      var last := layers[|layers| - 1];
      SourcesUpTo(layers[..|layers| - 1], w) + (if last.author.Source? && last.id <= w then [last] else [])
  }

  function FromScratch(b: Branch, w: LayerId): Branch {
    Branch(SourcesUpTo(b.layers, w), 0, map[])
  }

  // Some input moved after the watermark, or comes from an invocation that is itself owed a run.
  ghost predicate Owed(sys: System, b: Branch, i: Invocation)
    decreases sys.f.depth(i)
  {
    && i in b.readSets
    && ((exists at :: at in sys.f.inputs(i) && Moved(b.layers, b.watermark, at))
        || exists j, at :: Feeds(sys, j, at, i) && Owed(sys, b, j))
  }

  ghost predicate Feeds(sys: System, j: Invocation, at: CellAt, i: Invocation) {
    Writer(sys, j, at) && at in sys.f.inputs(i) && sys.f.depth(j) < sys.f.depth(i)
  }

  // --- The invariant of every run ---

  // The index knows exactly the invocations that exist in the watermark's world.
  ghost predicate IndexTrue(sys: System, b: Branch, truth: Store) {
    && (forall i: Invocation :: i in b.readSets <==> i.producer in sys.producers && Active(sys, truth, i))
    && (forall i :: i in b.readSets ==> b.readSets[i] == sys.f.inputs(i))
  }

  // An invocation that is not owed a run has left the watermark's values on the branch.
  ghost predicate CurrentTrue(sys: System, b: Branch, truth: Store) {
    forall i, at :: i in b.readSets && Writer(sys, i, at) && !Owed(sys, b, i) ==> AgreeAt(Shows(b.layers), truth, at)
  }

  ghost predicate NothingStray(sys: System, b: Branch) {
    forall i, at :: Writer(sys, i, at) && i !in b.readSets ==> at !in Shows(b.layers)
  }

  // Every derived record ever landed holds what its label names.
  ghost predicate LabelsTrue(layers: seq<TrunkLayer>, truths: map<LayerId, Store>) {
    forall l, at :: l in layers && l.author.Derived? && at in l.Records() ==>
      l.author.reflects in truths && AgreeAt(l.Records(), truths[l.author.reflects], at)
  }

  ghost predicate TruthsSolve(sys: System, layers: seq<TrunkLayer>, truths: map<LayerId, Store>) {
    forall w :: w in truths ==> Solves(sys, SourceAt(layers, w), truths[w])
  }

  ghost predicate Truthful(sys: System, b: Branch, truths: map<LayerId, Store>) {
    && WellFormed(sys, b.layers)
    && b.watermark in truths && (forall w :: w in truths ==> w <= b.watermark)
    && b.watermark <= Top(b.layers)
    && TruthsSolve(sys, b.layers, truths)
    && IndexTrue(sys, b, truths[b.watermark])
    && CurrentTrue(sys, b, truths[b.watermark])
    && NothingStray(sys, b)
    && LabelsTrue(b.layers, truths)
  }

  // What the round needs of the branch it forked from.
  ghost predicate Base(sys: System, b: Branch, truth: Store) {
    && WellFormed(sys, b.layers)
    && Solves(sys, SourceAt(b.layers, b.watermark), truth)
    && IndexTrue(sys, b, truth)
    && CurrentTrue(sys, b, truth)
    && NothingStray(sys, b)
  }

  // --- What must run ---

  ghost predicate Ended(sys: System, b: Branch, layers: seq<RunLayer>) {
    var s := RoundFrom(sys, b);
    Genuine(s.prog, layers) && Closed(s, layers, Ran(layers))
  }

  // A changeset in the range puts whoever it concerns in front of the producers.
  lemma WantedByRange(sys: System, b: Branch, l: TrunkLayer, i: Invocation, at: CellAt)
    requires l in b.layers && l.author.Source? && l.id > b.watermark && at in l.Records()
    requires i.producer in sys.producers
    requires Subscribed(b.readSets, i, at) || Entity(sys.producers, i, at)
    ensures WantedFirst(RoundFrom(sys, b), i)
  {
    var s, cs := RoundFrom(sys, b), TrunkChangeset(l);
    SpanMembers(b.layers, b.watermark, cs);
    var k :| 0 <= k < |s.span| && s.span[k] == cs;
    WriteMapKeys(l.writes, at);
    var n :| 0 <= n < |l.writes| && l.writes[n].at == at;
    assert cs.cells[n] == (at, None);
    assert Dirties(s.producers, s.readSets, cs.cells, i);
    assert s.FirstScene().Due(s.poisoned.Keys, i.producer, s.span[k]);
    assert s.FirstScene().Candidate(s.span[k], {}, i);
  }

  lemma MovedRuns(sys: System, b: Branch, truth: Store, layers: seq<RunLayer>, i: Invocation, at: CellAt)
    requires Base(sys, b, truth) && Ended(sys, b, layers)
    requires i.producer in sys.producers && Moved(b.layers, b.watermark, at)
    requires (i in b.readSets && at in sys.f.inputs(i)) || Entity(sys.producers, i, at)
    ensures i in Ran(layers)
  {
    var l :| l in b.layers && l.author.Source? && l.id > b.watermark && at in l.Records();
    WantedByRange(sys, b, l, i, at);
  }

  // What a run writes reruns whoever read it and starts whoever it is an entity of.
  lemma WrittenRuns(sys: System, b: Branch, truth: Store, layers: seq<RunLayer>, j: Invocation, i: Invocation, at: CellAt)
    requires Disciplined(sys) && Base(sys, b, truth) && Ended(sys, b, layers)
    requires j in Ran(layers) && Writer(sys, j, at) && i.producer in sys.producers
    requires (i in b.readSets && at in sys.f.inputs(i)) || Entity(sys.producers, i, at)
    ensures i in Ran(layers)
  {
    var s := RoundFrom(sys, b);
    var l :| l in layers && l.inv == j;
    WritesOf(s, sys.f, layers, l);
    assert Triggers(s, i, at, Some(j.producer));
    assert WantedBy(s, l, i);
  }

  // Only clients set a round off: whatever derived layers have landed since speak for what the watermark covers
  // already, so a settled branch does not derive itself again from its own output.
  lemma OnlySourcesSetOff(sys: System, b: Branch, truths: map<LayerId, Store>, i: Invocation)
    requires Truthful(sys, b, truths) && i.producer in sys.producers && b.watermark > 0
    requires sys.producers[i.producer].version <= b.watermark && WantedFirst(RoundFrom(sys, b), i)
    ensures exists l, at :: l in b.layers && l.author.Source? && l.id > b.watermark && at in l.Records()
                            && (Subscribed(b.readSets, i, at) || Entity(sys.producers, i, at))
  {
    hide Truthful, Shows, SpanOf, WriteMap;
    var l, at := SetOffBy(sys, b, i);
    if l.author.Derived? {
      LabelIsCovered(sys, b, truths, l, at);
    }
  }

  lemma FirstDirtied(sys: System, b: Branch, i: Invocation) returns (k: nat)
    requires i.producer in sys.producers && b.watermark > 0
    requires sys.producers[i.producer].version <= b.watermark && WantedFirst(RoundFrom(sys, b), i)
    ensures var span := SpanOf(b.layers, b.watermark);
            k < |span| && b.watermark < span[k].position && Dirties(sys.producers, b.readSets, span[k].cells, i)
  {
    hide Shows, SpanOf, Dirties;
    var s := RoundFrom(sys, b);
    k :| 0 <= k < |s.span| && s.FirstScene().Due(s.poisoned.Keys, i.producer, s.span[k])
         && s.FirstScene().Candidate(s.span[k], {}, i);
  }

  lemma SetOffBy(sys: System, b: Branch, i: Invocation) returns (l: TrunkLayer, at: CellAt)
    requires i.producer in sys.producers && b.watermark > 0
    requires sys.producers[i.producer].version <= b.watermark && WantedFirst(RoundFrom(sys, b), i)
    ensures l in b.layers && l.id > b.watermark && at in l.Records()
    ensures l.author.Derived? ==> l.author.reflects > b.watermark
    ensures Subscribed(b.readSets, i, at) || Entity(sys.producers, i, at)
  {
    hide Shows, SpanOf, WriteMap, Dirties, WantedFirst;
    var k := FirstDirtied(sys, b, i);
    var cs := SpanOf(b.layers, b.watermark)[k];
    SpanMembers(b.layers, b.watermark, cs);
    l :| l in b.layers && l.id > b.watermark && cs == TrunkChangeset(l);
    LandedDirties(sys.producers, b.readSets, l, i);
    var n :| 0 <= n < |l.writes| && Stirs(sys.producers, b.readSets, l.author, i, l.writes[n].at);
    at := l.writes[n].at;
    WriteMapKeys(l.writes, at);
  }

  lemma LabelIsCovered(sys: System, b: Branch, truths: map<LayerId, Store>, l: TrunkLayer, at: CellAt)
    requires Truthful(sys, b, truths) && l in b.layers && l.author.Derived? && at in l.Records()
    ensures l.author.reflects <= b.watermark
  {
    hide WellFormed, TruthsSolve, IndexTrue, CurrentTrue, NothingStray, Shows, WriteMap, Top;
  }

  lemma {:induction false} OwedRuns(sys: System, b: Branch, truth: Store, layers: seq<RunLayer>, i: Invocation)
    requires Disciplined(sys) && Base(sys, b, truth) && Ended(sys, b, layers)
    requires Owed(sys, b, i)
    ensures i in Ran(layers)
    decreases sys.f.depth(i)
  {
    if at :| at in sys.f.inputs(i) && Moved(b.layers, b.watermark, at) {
      MovedRuns(sys, b, truth, layers, i, at);
    } else {
      var j, at :| Feeds(sys, j, at, i) && Owed(sys, b, j);
      OwedRuns(sys, b, truth, layers, j);
      WrittenRuns(sys, b, truth, layers, j, i, at);
    }
  }

  // --- What the round's branch finally shows ---

  ghost function Final(sys: System, b: Branch, layers: seq<RunLayer>): Store {
    World(layers, Shows(b.layers))
  }

  ghost predicate KnownRan(sys: System, layers: seq<RunLayer>) {
    forall i :: i in Ran(layers) ==> i.producer in sys.producers
  }

  lemma SourceFinal(sys: System, b: Branch, layers: seq<RunLayer>, at: CellAt)
    requires Disciplined(sys) && WellFormed(sys, b.layers) && Genuine(sys.prog, layers) && KnownRan(sys, layers)
    requires SourceCell(sys, at)
    ensures AgreeAt(Final(sys, b, layers), SourceAt(b.layers, TopSource(b.layers)), at)
  {
    assert forall i :: i in Ran(layers) ==> !Writer(sys, i, at);
    Untouched(RoundFrom(sys, b), sys.f, layers, at);
    var top := Max(Top(b.layers), TopSource(b.layers));
    SourceShown(sys, b.layers, top, at);
    forall l | l in b.layers && l.author.Source?
      ensures l.id <= TopSource(b.layers)
    {
      TopIsHighest(b.layers, l);
    }
    Unmoved(b.layers, TopSource(b.layers), top, at);
  }

  lemma SourceUnmoved(sys: System, b: Branch, truth: Store, layers: seq<RunLayer>, at: CellAt)
    requires Disciplined(sys) && Base(sys, b, truth) && Genuine(sys.prog, layers) && KnownRan(sys, layers) && HasWork(b)
    requires SourceCell(sys, at) && !Moved(b.layers, b.watermark, at)
    ensures AgreeAt(Final(sys, b, layers), truth, at)
  {
    SourceFinal(sys, b, layers, at);
    Unmoved(b.layers, b.watermark, TopSource(b.layers), at);
  }

  // What did not run is as the branch and the watermark's world have it.
  lemma QuietFinal(sys: System, b: Branch, truth: Store, layers: seq<RunLayer>, j: Invocation, at: CellAt)
    requires Disciplined(sys) && Base(sys, b, truth) && Ended(sys, b, layers)
    requires Writer(sys, j, at) && j !in Ran(layers)
    ensures AgreeAt(Final(sys, b, layers), Shows(b.layers), at) && AgreeAt(Final(sys, b, layers), truth, at)
  {
    assert forall i :: i in Ran(layers) ==> at !in sys.f.outputs(i);
    Untouched(RoundFrom(sys, b), sys.f, layers, at);
    if j in b.readSets {
      if Owed(sys, b, j) {
        OwedRuns(sys, b, truth, layers, j);
      }
    } else {
      assert Holds(sys, truth, j);
    }
  }

  lemma KeysStay(base: Store, layers: seq<RunLayer>, at: CellAt)
    requires at in base || exists l :: l in layers && at in WriteMap(l.writes)
    ensures at in World(layers, base)
  {
    WorldIsShown(layers, base, at);
    if l :| l in layers && at in WriteMap(l.writes) {
      HeadIsHighest(layers, l);
      NewestIsHighest(layers, Head(layers), at);
    }
  }

  // --- Which invocations the new world has ---

  lemma ActiveIsKnown(sys: System, b: Branch, truth: Store, layers: seq<RunLayer>, i: Invocation)
    requires Disciplined(sys) && HasWork(b) && Base(sys, b, truth) && Ended(sys, b, layers) && KnownRan(sys, layers)
    requires i.producer in sys.producers && Active(sys, Final(sys, b, layers), i)
    ensures i in Ran(layers) || i in b.readSets
  {
    var at :| at in Final(sys, b, layers) && Entity(sys.producers, i, at);
    if j :| Writer(sys, j, at) {
      if j in Ran(layers) {
        WrittenRuns(sys, b, truth, layers, j, i, at);
      } else {
        QuietFinal(sys, b, truth, layers, j, at);
        assert at in truth;
      }
    } else if Moved(b.layers, b.watermark, at) {
      MovedRuns(sys, b, truth, layers, i, at);
    } else {
      SourceUnmoved(sys, b, truth, layers, at);
      assert at in truth;
    }
  }

  lemma KnownIsActive(sys: System, b: Branch, truth: Store, layers: seq<RunLayer>, i: Invocation)
    requires Disciplined(sys) && HasWork(b) && Base(sys, b, truth) && Ended(sys, b, layers) && KnownRan(sys, layers)
    requires Fixpoint(RoundFrom(sys, b), layers) && i in b.readSets
    ensures Active(sys, Final(sys, b, layers), i)
  {
    var at :| at in truth && Entity(sys.producers, i, at);
    if j :| Writer(sys, j, at) {
      if j in Ran(layers) {
        OutputShown(RoundFrom(sys, b), sys.f, layers, j, at);
      } else {
        QuietFinal(sys, b, truth, layers, j, at);
      }
    } else {
      SourceGrows(b.layers, b.watermark, TopSource(b.layers));
      SourceFinal(sys, b, layers, at);
    }
    assert at in Final(sys, b, layers);
  }

  lemma RanIsActive(sys: System, b: Branch, truth: Store, layers: seq<RunLayer>, i: Invocation)
    requires Disciplined(sys) && HasWork(b) && Base(sys, b, truth) && Ended(sys, b, layers) && KnownRan(sys, layers)
    requires Fixpoint(RoundFrom(sys, b), layers) && HasReason(RoundFrom(sys, b), layers, i)
    ensures Active(sys, Final(sys, b, layers), i)
  {
    if i in b.readSets {
      KnownIsActive(sys, b, truth, layers, i);
    } else if WantedFirst(RoundFrom(sys, b), i) {
      var at := EntityInRange(sys, b, i);
      KeysStay(Shows(b.layers), layers, at);
    } else {
      var l :| l in layers && WantedBy(RoundFrom(sys, b), l, i);
      WrittenIsActive(RoundFrom(sys, b), layers, l, i);
    }
  }

  lemma WrittenIsActive(s: Start, layers: seq<RunLayer>, l: RunLayer, i: Invocation)
    requires l in layers && WantedBy(s, l, i) && i !in s.readSets
    ensures exists at :: at in World(layers, s.base) && Entity(s.producers, i, at)
  {
    var at :| at in WriteMap(l.writes) && Triggers(s, i, at, Some(l.inv.producer));
    KeysStay(s.base, layers, at);
  }

  // What the range puts in front of an invocation no one has run before is an entity of its own.
  lemma FirstEntity(s: Start, i: Invocation) returns (at: CellAt)
    requires i !in s.readSets && WantedFirst(s, i)
    ensures Entity(s.producers, i, at)
    ensures at in s.base || exists k, c :: 0 <= k < |s.span| && 0 <= c < |s.span[k].cells| && s.span[k].cells[c].0 == at
  {
    var scene := s.FirstScene();
    var k :| 0 <= k < |s.span| && scene.Due(s.poisoned.Keys, i.producer, s.span[k]) && scene.Candidate(s.span[k], {}, i);
    var cells := s.span[k].cells;
    if Dirties(s.producers, s.readSets, cells, i) {
      var c :| 0 <= c < |cells| && (Subscribed(s.readSets, i, cells[c].0) || Enters(s.producers, i, cells[c].0, cells[c].1));
      at := cells[c].0;
    } else {
      assert scene.InBuffer(i);
      at :| at in scene.visible && at.cell.buffer == s.producers[i.producer].source && at.cell.Pid() == i.input;
    }
  }

  lemma RangeIsShown(layers: seq<TrunkLayer>, w: LayerId, cs: Changeset, c: int)
    requires cs in SpanOf(layers, w) && 0 <= c < |cs.cells|
    ensures cs.cells[c].0 in Shows(layers)
  {
    SpanMembers(layers, w, cs);
    var l :| l in layers && cs == TrunkChangeset(l);
    assert cs.cells == TrunkChangeset(l).cells && |TrunkChangeset(l).cells| == |l.writes|;
    assert cs.cells[c].0 == l.writes[c].at;
    WriteMapKeys(l.writes, l.writes[c].at);
    ShownSomewhere(layers, l.writes[c].at);
  }

  lemma EntityInRange(sys: System, b: Branch, i: Invocation) returns (at: CellAt)
    requires i !in b.readSets && WantedFirst(RoundFrom(sys, b), i)
    ensures at in Shows(b.layers) && Entity(sys.producers, i, at)
  {
    var s := RoundFrom(sys, b);
    at := FirstEntity(s, i);
    if k, c :| 0 <= k < |s.span| && 0 <= c < |s.span[k].cells| && s.span[k].cells[c].0 == at {
      RangeIsShown(b.layers, b.watermark, s.span[k], c);
    }
  }

  // --- The new world solves the equations ---

  ghost predicate Over(sys: System, b: Branch, layers: seq<RunLayer>) {
    var s := RoundFrom(sys, b);
    && HasWork(b) && Ended(sys, b, layers) && KnownRan(sys, layers) && Fixpoint(s, layers) && Justified(s, layers, Ran(layers))
  }

  lemma SettledIsOver(sys: System, b: Branch, layers: seq<RunLayer>, readSets: map<Invocation, set<CellAt>>)
    requires HasWork(b) && Settled(RoundFrom(sys, b), layers, readSets)
    ensures Over(sys, b, layers)
  {
    forall i | i in Ran(layers)
      ensures i.producer in sys.producers
    {
      assert HasReason(RoundFrom(sys, b), layers, i);
    }
  }

  lemma RanHolds(sys: System, b: Branch, layers: seq<RunLayer>, i: Invocation)
    requires Disciplined(sys) && Genuine(sys.prog, layers) && Fixpoint(RoundFrom(sys, b), layers) && i in Ran(layers)
    ensures exists h :: Fulfilled(sys, Final(sys, b, layers), i, h)
  {
    LastRunIs(layers, i);
    var l := LastRun(layers, i).value;
    forall at | at in sys.f.outputs(i)
      ensures at in WriteMap(l.writes) && Get(Final(sys, b, layers), at) == Some(WriteMap(l.writes)[at])
    {
      OutputShown(RoundFrom(sys, b), sys.f, layers, i, at);
    }
    assert Fulfilled(sys, Final(sys, b, layers), i, l.seen);
  }

  // What did not run reads what it read before.
  lemma QuietInput(sys: System, b: Branch, truth: Store, layers: seq<RunLayer>, i: Invocation, at: CellAt)
    requires Disciplined(sys) && Base(sys, b, truth) && Over(sys, b, layers)
    requires i in b.readSets && i !in Ran(layers) && at in sys.f.inputs(i)
    ensures AgreeAt(Final(sys, b, layers), truth, at)
  {
    if j :| Writer(sys, j, at) {
      if j in Ran(layers) {
        WrittenRuns(sys, b, truth, layers, j, i, at);
      }
      QuietFinal(sys, b, truth, layers, j, at);
    } else {
      if Moved(b.layers, b.watermark, at) {
        MovedRuns(sys, b, truth, layers, i, at);
      }
      SourceUnmoved(sys, b, truth, layers, at);
    }
  }

  lemma QuietHolds(sys: System, b: Branch, truth: Store, layers: seq<RunLayer>, i: Invocation)
    requires Disciplined(sys) && Base(sys, b, truth) && Over(sys, b, layers)
    requires i in b.readSets && i !in Ran(layers)
    ensures exists h :: Fulfilled(sys, Final(sys, b, layers), i, h)
  {
    assert Holds(sys, truth, i);
    var h :| Fulfilled(sys, truth, i, h);
    assert ReadSet(h) == sys.f.inputs(i);
    forall s: Seen | s in h
      ensures s.value == Get(Final(sys, b, layers), s.at)
    {
      assert s.at in ReadSet(h);
      QuietInput(sys, b, truth, layers, i, s.at);
    }
    forall at | at in sys.f.outputs(i)
      ensures AgreeAt(Final(sys, b, layers), truth, at)
    {
      QuietFinal(sys, b, truth, layers, i, at);
    }
    assert Fulfilled(sys, Final(sys, b, layers), i, h);
  }

  // The new world's invocations are those that ran or were already known.
  lemma NewActivity(sys: System, b: Branch, truth: Store, layers: seq<RunLayer>, i: Invocation)
    requires Disciplined(sys) && Base(sys, b, truth) && Over(sys, b, layers) && i.producer in sys.producers
    ensures Active(sys, Final(sys, b, layers), i) <==> i in Ran(layers) || i in b.readSets
  {
    if Active(sys, Final(sys, b, layers), i) {
      ActiveIsKnown(sys, b, truth, layers, i);
    } else if i in Ran(layers) {
      assert HasReason(RoundFrom(sys, b), layers, i);
      RanIsActive(sys, b, truth, layers, i);
    } else if i in b.readSets {
      KnownIsActive(sys, b, truth, layers, i);
    }
  }

  lemma NewHolds(sys: System, b: Branch, truth: Store, layers: seq<RunLayer>, i: Invocation)
    requires Disciplined(sys) && Base(sys, b, truth) && Over(sys, b, layers) && i.producer in sys.producers
    ensures Holds(sys, Final(sys, b, layers), i)
  {
    NewActivity(sys, b, truth, layers, i);
    if i in Ran(layers) {
      RanHolds(sys, b, layers, i);
    } else if i in b.readSets {
      QuietHolds(sys, b, truth, layers, i);
    } else {
      forall at | at in sys.f.outputs(i)
        ensures at !in Final(sys, b, layers)
      {
        QuietFinal(sys, b, truth, layers, i, at);
        assert Writer(sys, i, at);
      }
    }
  }

  // A settled round's branch shows exactly what the source records at its watermark determine, although
  // it only ran what was dirty.
  lemma RoundSolves(sys: System, b: Branch, truth: Store, layers: seq<RunLayer>)
    requires Disciplined(sys) && Base(sys, b, truth) && Over(sys, b, layers)
    ensures Solves(sys, SourceAt(b.layers, TopSource(b.layers)), Final(sys, b, layers))
  {
    forall at | SourceCell(sys, at)
      ensures Get(Final(sys, b, layers), at) == Get(SourceAt(b.layers, TopSource(b.layers)), at)
    {
      SourceFinal(sys, b, layers, at);
    }
    forall i: Invocation | i.producer in sys.producers
      ensures Holds(sys, Final(sys, b, layers), i)
    {
      NewHolds(sys, b, truth, layers, i);
    }
  }
}
