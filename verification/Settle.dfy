/** A whole round: waves until nothing is dirty, its fixpoint and how often anything runs. */
module Settle {
  // crates/borg-engine/src/derive.rs, `settle_span`.
  import opened Core
  import opened Producers
  import opened Scheduler
  import opened Waves

  // What each invocation may read and write, and how deep it sits in the dependency graph.
  datatype Graph = Graph(mayRead: Invocation -> iset<CellAt>, mayWrite: Invocation -> iset<CellAt>, depth: Invocation -> nat)

  ghost predicate Within(prog: Program, g: Graph) {
    forall i, h | Complete(prog, i, h) ::
      && (forall at :: at in ReadSet(h) ==> at in g.mayRead(i))
      && (forall at :: at in WriteMap(prog(i, h).writes) ==> at in g.mayWrite(i))
  }

  // What one invocation may write never dirties an invocation at its own depth or above.
  ghost predicate Acyclic(producers: map<ProducerId, ProducerDef>, g: Graph) {
    forall i, j, at | at in g.mayWrite(j) && (at in g.mayRead(i) || Enters(producers, i, at, Some(j.producer))) ::
      g.depth(j) < g.depth(i)
  }

  // A finite set of invocations that nothing in the round can step outside of.
  ghost predicate Bounded(producers: map<ProducerId, ProducerDef>, g: Graph, universe: set<Invocation>,
                          readSets: map<Invocation, set<CellAt>>, cells: set<CellAt>) {
    && readSets.Keys <= universe
    && (forall i, at :: at in cells && Entity(producers, i, at) ==> i in universe)
    && (forall i, j, at :: j in universe && at in g.mayWrite(j) && Entity(producers, i, at) ==> i in universe)
  }

  // What a round starts from: the producers and their watermarks, the world at the fork point, the range
  // it settles and the source position that range stands at.
  datatype Start = Start(prog: Program, producers: map<ProducerId, ProducerDef>, watermarks: map<ProducerId, LayerId>,
                         base: Store, span: seq<Changeset>, reflects: LayerId,
                         readSets: map<Invocation, set<CellAt>>, poisoned: map<ProducerId, Poisoning>)
  {
    function FirstScene(): Scene {
      Scene(producers, watermarks, readSets, base.Keys)
    }

    // No producer has incorporated what the range reflects, and one that is new here has a layer of the range
    // in front of it. The others need none: a range of derived layers only may stop short of `reflects`.
    ghost predicate Behind() {
      && (forall p :: p in producers ==> FirstScene().Watermark(p) < reflects)
      && (forall p :: FirstScene().NewHere(p) ==> exists k :: 0 <= k < |span| && FirstScene().Watermark(p) < span[k].position)
    }
  }

  function ChangesetOf(l: RunLayer, reflects: LayerId): Changeset {
    Changeset(reflects, seq(|l.writes|, k requires 0 <= k < |l.writes| => (l.writes[k].at, Some(l.inv.producer))))
  }

  function Changesets(wave: seq<RunLayer>, reflects: LayerId): seq<Changeset> {
    seq(|wave|, k requires 0 <= k < |wave| => ChangesetOf(wave[k], reflects))
  }

  function LastRun(layers: seq<RunLayer>, i: Invocation): Option<RunLayer> {
    if layers == [] then None
    else if layers[|layers| - 1].inv == i then Some(layers[|layers| - 1])
    else LastRun(layers[..|layers| - 1], i)
  }

  function RunCount(layers: seq<RunLayer>, i: Invocation): nat {
    if layers == [] then 0
    else RunCount(layers[..|layers| - 1], i) + (if layers[|layers| - 1].inv == i then 1 else 0)
  }

  // --- The properties of a settled round ---

  // Each run really was a run of its program.
  ghost predicate Genuine(prog: Program, layers: seq<RunLayer>) {
    forall l :: l in layers ==> Complete(prog, l.inv, l.seen) && prog(l.inv, l.seen).writes == l.writes
  }

  // Each invocation's last run read what `world` shows, except for records in `stale`.
  ghost predicate ReadsHold(layers: seq<RunLayer>, world: Store, stale: set<CellAt>) {
    forall i, s :: LastRun(layers, i).Some? && s in LastRun(layers, i).value.seen ==>
      s.value == Get(world, s.at) || s.at in stale
  }

  // A later run of one invocation sits in a higher layer.
  ghost predicate Ordered(layers: seq<RunLayer>) {
    forall a, b :: 0 <= a < b < |layers| && layers[a].inv == layers[b].inv ==> layers[a].id < layers[b].id
  }

  // The dependency index holds each invocation's latest read-set.
  ghost predicate Indexed(readSets0: map<Invocation, set<CellAt>>, readSets: map<Invocation, set<CellAt>>, layers: seq<RunLayer>) {
    && readSets.Keys == readSets0.Keys + Ran(layers)
    && (forall i :: i in readSets0 && i !in Ran(layers) ==> readSets[i] == readSets0[i])
    && (forall i :: LastRun(layers, i).Some? ==> i in readSets && readSets[i] == ReadSet(LastRun(layers, i).value.seen))
  }

  // What a record's write puts in front of an invocation, going by the index as the round found it.
  predicate Triggers(s: Start, i: Invocation, at: CellAt, author: Option<ProducerId>) {
    i.producer in s.producers && (Subscribed(s.readSets, i, at) || Enters(s.producers, i, at, author))
  }

  ghost predicate WantedFirst(s: Start, i: Invocation) {
    s.FirstScene().Wanted(s.poisoned.Keys, s.span, {}, i)
  }

  ghost predicate WantedBy(s: Start, l: RunLayer, i: Invocation) {
    exists at :: at in WriteMap(l.writes) && Triggers(s, i, at, Some(l.inv.producer))
  }

  // Everything the range or one of these layers puts in front of a producer has run.
  ghost predicate Closed(s: Start, layers: seq<RunLayer>, ran: set<Invocation>) {
    && (forall i :: WantedFirst(s, i) ==> i in ran)
    && (forall l, i :: l in layers && WantedBy(s, l, i) && i.producer !in s.poisoned ==> i in ran)
  }

  ghost predicate HasReason(s: Start, layers: seq<RunLayer>, i: Invocation) {
    i.producer in s.producers && i.producer !in s.poisoned &&
    (WantedFirst(s, i) || exists l :: l in layers && WantedBy(s, l, i))
  }

  // Nothing runs without a reason.
  ghost predicate Justified(s: Start, layers: seq<RunLayer>, ran: set<Invocation>) {
    forall i :: i in ran ==> HasReason(s, layers, i)
  }

  // What holds of a round that ended with no new failure: the fixpoint, and exactly the right runs.
  ghost predicate Settled(s: Start, layers: seq<RunLayer>, readSets: map<Invocation, set<CellAt>>) {
    && Genuine(s.prog, layers)
    && Ordered(layers)
    && ReadsHold(layers, World(layers, s.base), {})
    && Indexed(s.readSets, readSets, layers)
    && Closed(s, layers, Ran(layers))
    && Justified(s, layers, Ran(layers))
  }

  // --- Which buffers a settled round has gone over, by the watermarks alone ---

  function MarkOf(s: Start, p: ProducerId): LayerId {
    if p in s.watermarks then s.watermarks[p] else 0
  }

  // A producer that has incorporated nothing, or nothing since it was pushed at its present version, has run on
  // every entity of its source buffer, whatever its old code left behind.
  lemma NewCodeRunsEverywhere(s: Start, layers: seq<RunLayer>, readSets: map<Invocation, set<CellAt>>, p: ProducerId, at: CellAt)
    requires Settled(s, layers, readSets) && p in s.producers && p !in s.poisoned
    requires MarkOf(s, p) == 0 || MarkOf(s, p) < s.producers[p].version
    requires exists k :: 0 <= k < |s.span| && MarkOf(s, p) < s.span[k].position
    requires at in s.base && at.cell.buffer == s.producers[p].source
    ensures Invocation(p, at.cell.Pid()) in Ran(layers)
  {
    var i := Invocation(p, at.cell.Pid());
    var k :| 0 <= k < |s.span| && MarkOf(s, p) < s.span[k].position;
    assert s.FirstScene().Due(s.poisoned.Keys, p, s.span[k]) && s.FirstScene().Candidate(s.span[k], {}, i);
    assert WantedFirst(s, i);
  }

  // A record the round has to look at: of a layer of the range in front of the producer, or of its own.
  ghost predicate Brought(s: Start, layers: seq<RunLayer>, p: ProducerId, at: CellAt, author: Option<ProducerId>) {
    || (exists k, n :: 0 <= k < |s.span| && 0 <= n < |s.span[k].cells| && MarkOf(s, p) < s.span[k].position
                       && s.span[k].cells[n] == (at, author))
    || (exists l :: l in layers && at in WriteMap(l.writes) && author == Some(l.inv.producer))
  }

  ghost predicate SetOff(s: Start, i: Invocation, at: CellAt, author: Option<ProducerId>) {
    || (i in s.readSets && at in s.readSets[i])
    || (i.producer in s.producers && at.cell.buffer == s.producers[i.producer].source && at.cell.Pid() == i.input
        && author != Some(i.producer))
  }

  // Whatever such a record sets off has run, if its producer is healthy.
  lemma SetOffRuns(s: Start, layers: seq<RunLayer>, readSets: map<Invocation, set<CellAt>>, i: Invocation, at: CellAt,
                   author: Option<ProducerId>)
    requires Settled(s, layers, readSets) && i.producer in s.producers && i.producer !in s.poisoned
    requires Brought(s, layers, i.producer, at, author) && SetOff(s, i, at, author)
    ensures i in Ran(layers)
  {
    hide Genuine, Ordered, ReadsHold, Indexed, Justified;
    if k, n :| 0 <= k < |s.span| && 0 <= n < |s.span[k].cells| && MarkOf(s, i.producer) < s.span[k].position
               && s.span[k].cells[n] == (at, author) {
      assert Subscribed(s.readSets, i, s.span[k].cells[n].0) || Enters(s.producers, i, s.span[k].cells[n].0, s.span[k].cells[n].1);
      assert s.FirstScene().Due(s.poisoned.Keys, i.producer, s.span[k]) && s.FirstScene().Candidate(s.span[k], {}, i);
      assert WantedFirst(s, i);
    } else {
      var l :| l in layers && at in WriteMap(l.writes) && author == Some(l.inv.producer);
      assert Triggers(s, i, at, Some(l.inv.producer));
      assert WantedBy(s, l, i);
    }
  }

  // And one that had not been pushed since runs only where a record sets it off.
  lemma OldCodeRunsWhereSetOff(s: Start, layers: seq<RunLayer>, readSets: map<Invocation, set<CellAt>>, i: Invocation)
    requires Settled(s, layers, readSets) && i in Ran(layers) && i.producer in s.producers
    requires MarkOf(s, i.producer) > 0 && MarkOf(s, i.producer) >= s.producers[i.producer].version
    ensures exists at, author :: Brought(s, layers, i.producer, at, author) && SetOff(s, i, at, author)
  {
    hide Genuine, Ordered, ReadsHold, Indexed, Closed;
    assert HasReason(s, layers, i);
    if WantedFirst(s, i) {
      var k :| 0 <= k < |s.span| && s.FirstScene().Due(s.poisoned.Keys, i.producer, s.span[k])
               && s.FirstScene().Candidate(s.span[k], {}, i);
      var cells := s.span[k].cells;
      var n :| 0 <= n < |cells| && (Subscribed(s.readSets, i, cells[n].0) || Enters(s.producers, i, cells[n].0, cells[n].1));
      assert Brought(s, layers, i.producer, cells[n].0, cells[n].1) && SetOff(s, i, cells[n].0, cells[n].1);
    } else {
      var l :| l in layers && WantedBy(s, l, i);
      var at :| at in WriteMap(l.writes) && Triggers(s, i, at, Some(l.inv.producer));
      assert Brought(s, layers, i.producer, at, Some(l.inv.producer)) && SetOff(s, i, at, Some(l.inv.producer));
    }
  }

  // --- Appending one wave ---

  lemma {:induction false} LastRunIs(layers: seq<RunLayer>, i: Invocation)
    ensures LastRun(layers, i).Some? <==> i in Ran(layers)
    ensures LastRun(layers, i).Some? ==> LastRun(layers, i).value in layers && LastRun(layers, i).value.inv == i
  {
    if layers != [] {
      LastRunIs(layers[..|layers| - 1], i);
      assert layers == layers[..|layers| - 1] + [layers[|layers| - 1]];
    }
  }

  lemma {:induction false} LastRunAppend(before: seq<RunLayer>, wave: seq<RunLayer>, i: Invocation)
    ensures LastRun(before + wave, i) == if LastRun(wave, i).Some? then LastRun(wave, i) else LastRun(before, i)
  {
    if wave == [] {
      assert before + wave == before;
    } else {
      LastRunAppend(before, wave[..|wave| - 1], i);
      assert (before + wave)[..|before + wave| - 1] == before + wave[..|wave| - 1];
    }
  }

  lemma {:induction false} RunCountAppend(before: seq<RunLayer>, wave: seq<RunLayer>, i: Invocation)
    requires OncePerInvocation(wave)
    ensures RunCount(before + wave, i) == RunCount(before, i) + (if i in Ran(wave) then 1 else 0)
  {
    if wave == [] {
      assert before + wave == before;
    } else {
      hide Ran;
      var shorter, last := wave[..|wave| - 1], wave[|wave| - 1];
      RunCountAppend(before, shorter, i);
      assert (before + wave)[..|before + wave| - 1] == before + shorter;
      assert wave == shorter + [last];
      RanOnce(shorter, last);
    }
  }

  lemma RanOnce(shorter: seq<RunLayer>, last: RunLayer)
    requires OncePerInvocation(shorter + [last])
    ensures Ran(shorter + [last]) == Ran(shorter) + {last.inv} && last.inv !in Ran(shorter)
  {
    forall l | l in shorter
      ensures l.inv != last.inv
    {
      var k :| 0 <= k < |shorter| && shorter[k] == l;
      assert (shorter + [last])[k].inv != (shorter + [last])[|shorter|].inv;
    }
  }

  lemma {:induction false} TouchedAppend(before: seq<RunLayer>, wave: seq<RunLayer>)
    ensures Touched(before + wave) == Touched(before) + Touched(wave)
  {
    if wave == [] {
      assert before + wave == before;
    } else {
      TouchedAppend(before, wave[..|wave| - 1]);
      assert (before + wave)[..|before + wave| - 1] == before + wave[..|wave| - 1];
    }
  }

  lemma RanAppend(before: seq<RunLayer>, wave: seq<RunLayer>)
    ensures Ran(before + wave) == Ran(before) + Ran(wave)
  {
  }

  lemma WorldAppend(before: seq<RunLayer>, wave: seq<RunLayer>, base: Store, at: CellAt)
    requires at !in Touched(wave)
    ensures Get(World(before + wave, base), at) == Get(World(before, base), at)
  {
    HeadGrows(before, wave);
    NewestBelow(before, wave, Head(before + wave), at);
    WorldIsShown(before, base, at);
    WorldIsShown(before + wave, base, at);
  }

  // The state between two waves: `last` is the wave whose output has not been scheduled from yet.
  datatype Between = Between(layers: seq<RunLayer>, last: seq<RunLayer>, count: nat,
                             readSets: map<Invocation, set<CellAt>>, poisoned: map<ProducerId, Poisoning>, next: LayerId)

  ghost predicate Sound(s: Start, b: Between) {
    && Head(b.layers) < b.next
    && Genuine(s.prog, b.layers)
    && Ordered(b.layers)
    && Indexed(s.readSets, b.readSets, b.layers)
    && Justified(s, b.layers, Ran(b.layers))
    && (forall l :: l in b.last ==> l in b.layers)
  }

  // What also holds while no producer has newly broken: every read is current or owed to the last wave,
  // and everything owed to an earlier one has run.
  ghost predicate Clean(s: Start, b: Between) {
    && b.poisoned.Keys == s.poisoned.Keys
    && ReadsHold(b.layers, World(b.layers, s.base), Touched(b.last))
    && (b.count > 0 ==> forall i :: WantedFirst(s, i) ==> i in Ran(b.layers))
    && (forall l, i :: l in b.layers && l !in b.last && WantedBy(s, l, i) && i.producer !in s.poisoned ==> i in Ran(b.layers))
  }

  ghost predicate WaveAfter(s: Start, b: Between, work: set<Invocation>, w: WaveState) {
    && WaveOk(s.prog, s.base, b.layers, b.next, w)
    && w.tasks == map[]
    && Ran(w.wave) <= work
    && Recorded(b.readSets, w.readSets, w.wave)
  }

  function After(b: Between, w: WaveState): Between {
    Between(b.layers + w.wave, w.wave, b.count + 1, w.readSets, w.poisoned, w.next)
  }

  lemma ReadsHoldStep(s: Start, b: Between, w: WaveState, work: set<Invocation>)
    requires WaveAfter(s, b, work, w) && Ran(w.wave) == work
    requires ReadsHold(b.layers, World(b.layers, s.base), Touched(b.last))
    // whoever read what the last wave wrote has been scheduled
    requires forall i, c :: LastRun(b.layers, i).Some? && c in LastRun(b.layers, i).value.seen && c.at in Touched(b.last) ==> i in work
    ensures ReadsHold(b.layers + w.wave, World(b.layers + w.wave, s.base), Touched(w.wave))
  {
    var layers, world := b.layers + w.wave, World(b.layers + w.wave, s.base);
    forall i, c | LastRun(layers, i).Some? && c in LastRun(layers, i).value.seen
      ensures c.value == Get(world, c.at) || c.at in Touched(w.wave)
    {
      LastRunAppend(b.layers, w.wave, i);
      LastRunIs(w.wave, i);
      if c.at !in Touched(w.wave) {
        WorldAppend(b.layers, w.wave, s.base, c.at);
        if i in work {
          assert LayerOk(s.prog, World(b.layers, s.base), Touched(w.wave), LastRun(w.wave, i).value);
        }
      }
    }
  }

  lemma JustifiedStep(s: Start, before: seq<RunLayer>, wave: seq<RunLayer>)
    requires Justified(s, before, Ran(before))
    requires forall i :: i in Ran(wave) ==> HasReason(s, before, i)
    ensures Justified(s, before + wave, Ran(before + wave))
  {
    forall i | i in Ran(before + wave)
      ensures HasReason(s, before + wave, i)
    {
      assert i in Ran(before) || i in Ran(wave);
      assert HasReason(s, before, i);
      if !WantedFirst(s, i) {
        var l :| l in before && WantedBy(s, l, i);
        assert l in before + wave;
      }
    }
  }

  lemma IndexedStep(s: Start, b: Between, w: WaveState)
    requires Indexed(s.readSets, b.readSets, b.layers) && Recorded(b.readSets, w.readSets, w.wave)
    ensures Indexed(s.readSets, w.readSets, b.layers + w.wave)
  {
    RanAppend(b.layers, w.wave);
    forall i | LastRun(b.layers + w.wave, i).Some?
      ensures i in w.readSets && w.readSets[i] == ReadSet(LastRun(b.layers + w.wave, i).value.seen)
    {
      LastRunAppend(b.layers, w.wave, i);
      LastRunIs(w.wave, i);
      LastRunIs(b.layers, i);
    }
  }

  lemma GenuineStep(s: Start, before: seq<RunLayer>, wave: seq<RunLayer>)
    requires Genuine(s.prog, before) && LayersOk(s.prog, World(before, s.base), Touched(wave), wave)
    ensures Genuine(s.prog, before + wave)
  {
    forall l | l in before + wave
      ensures Complete(s.prog, l.inv, l.seen) && s.prog(l.inv, l.seen).writes == l.writes
    {
      assert l in before || LayerOk(s.prog, World(before, s.base), Touched(wave), l);
    }
  }

  lemma SoundStep(s: Start, b: Between, w: WaveState, work: set<Invocation>)
    requires Sound(s, b) && WaveAfter(s, b, work, w)
    requires forall i :: i in work ==> HasReason(s, b.layers, i)
    ensures Sound(s, After(b, w))
  {
    HeadBelow(b.layers, w.wave, w.next);
    GenuineStep(s, b.layers, w.wave);
    OrderedStep(b.layers, w.wave, b.next);
    IndexedStep(s, b, w);
    JustifiedStep(s, b.layers, w.wave);
  }

  lemma {:induction false} HeadBelow(before: seq<RunLayer>, wave: seq<RunLayer>, next: LayerId)
    requires Head(before) < next && forall l :: l in wave ==> l.id < next
    ensures Head(before + wave) < next
  {
    if wave == [] {
      assert before + wave == before;
    } else {
      HeadBelow(before, wave[..|wave| - 1], next);
      assert (before + wave)[..|before + wave| - 1] == before + wave[..|wave| - 1];
    }
  }

  lemma OrderedStep(before: seq<RunLayer>, wave: seq<RunLayer>, next: LayerId)
    requires Ordered(before) && Head(before) < next && OncePerInvocation(wave)
    requires forall l :: l in wave ==> next <= l.id
    ensures Ordered(before + wave)
  {
    var layers := before + wave;
    forall a, b | 0 <= a < b < |layers| && layers[a].inv == layers[b].inv
      ensures layers[a].id < layers[b].id
    {
      if b >= |before| {
        if a < |before| {
          HeadIsHighest(before, layers[a]);
          assert layers[b] in wave;
        }
      }
    }
  }

  // --- What the scheduler makes of the last wave ---

  function SceneOf(s: Start, b: Between): Scene {
    Scene(s.producers, s.watermarks, b.readSets, s.base.Keys + Touched(b.layers))
  }

  // What a wave is scheduled over is what the round's branch shows, whoever wrote it.
  lemma SceneIsWhatShows(s: Start, b: Between, at: CellAt)
    ensures at in SceneOf(s, b).visible <==> Shown(b.layers, Head(b.layers), s.base, at).Some?
  {
    NewestIsHighest(b.layers, Head(b.layers), at);
    TouchedByLayer(b.layers, at);
    if l :| l in b.layers && at in WriteMap(l.writes) {
      HeadIsHighest(b.layers, l);
    }
  }

  function WaveOf(s: Start, b: Between): seq<Changeset> {
    if b.count == 0 then s.span else Changesets(b.last, s.reflects)
  }

  // Every healthy producer that is new here has been given its source buffer by the end of the first wave.
  ghost predicate Seeded(s: Start, b: Between, seeded: set<ProducerId>) {
    if b.count == 0 then seeded == {}
    else forall p :: s.FirstScene().NewHere(p) && p !in s.poisoned ==> p in seeded
  }

  ghost predicate Fresh(s: Start, b: Between) {
    && s.poisoned.Keys <= b.poisoned.Keys
    && (b.count == 0 ==> b.layers == [] && b.last == [] && b.readSets == s.readSets && b.poisoned.Keys == s.poisoned.Keys)
  }

  // A cell in a round layer's changeset is a record that layer holds.
  lemma DirtiedByLayer(s: Start, b: Between, l: RunLayer, i: Invocation)
    requires Indexed(s.readSets, b.readSets, b.layers)
    requires Dirties(s.producers, b.readSets, ChangesetOf(l, s.reflects).cells, i) && i !in Ran(b.layers)
    ensures WantedBy(s, l, i)
  {
    var cells := ChangesetOf(l, s.reflects).cells;
    var k :| 0 <= k < |cells| && (Subscribed(b.readSets, i, cells[k].0) || Enters(s.producers, i, cells[k].0, cells[k].1));
    WriteMapKeys(l.writes, l.writes[k].at);
    assert Triggers(s, i, l.writes[k].at, Some(l.inv.producer));
  }

  lemma LayerDirties(s: Start, b: Between, l: RunLayer, i: Invocation, at: CellAt)
    requires at in WriteMap(l.writes) && i.producer in s.producers
    requires Subscribed(b.readSets, i, at) || Enters(s.producers, i, at, Some(l.inv.producer))
    ensures Dirties(s.producers, b.readSets, ChangesetOf(l, s.reflects).cells, i)
  {
    WriteMapKeys(l.writes, at);
    var k :| 0 <= k < |l.writes| && l.writes[k].at == at;
    assert ChangesetOf(l, s.reflects).cells[k] == (at, Some(l.inv.producer));
  }

  lemma WantedHasReason(s: Start, b: Between, seeded: set<ProducerId>, i: Invocation)
    requires Sound(s, b) && Fresh(s, b) && Seeded(s, b, seeded)
    requires SceneOf(s, b).Wanted(b.poisoned.Keys, WaveOf(s, b), seeded, i)
    ensures HasReason(s, b.layers, i)
  {
    if b.count == 0 {
      assert SceneOf(s, b) == s.FirstScene();
    } else if i in Ran(b.layers) {
    } else {
      var k :| 0 <= k < |b.last| && SceneOf(s, b).Due(b.poisoned.Keys, i.producer, WaveOf(s, b)[k])
               && SceneOf(s, b).Candidate(WaveOf(s, b)[k], seeded, i);
      DirtiedByLayer(s, b, b.last[k], i);
    }
  }

  lemma OwedIsWanted(s: Start, b: Between, seeded: set<ProducerId>, l: RunLayer, i: Invocation, at: CellAt)
    requires s.Behind() && b.count > 0 && l in b.last
    requires i.producer in s.producers && i.producer !in b.poisoned && at in WriteMap(l.writes)
    requires Subscribed(b.readSets, i, at) || Enters(s.producers, i, at, Some(l.inv.producer))
    ensures SceneOf(s, b).Wanted(b.poisoned.Keys, WaveOf(s, b), seeded, i)
  {
    var k :| 0 <= k < |b.last| && b.last[k] == l;
    LayerDirties(s, b, l, i, at);
    assert SceneOf(s, b).Due(b.poisoned.Keys, i.producer, WaveOf(s, b)[k]);
    assert SceneOf(s, b).Candidate(WaveOf(s, b)[k], seeded, i);
  }

  // The wave's output is picked up in full: whoever read a record it replaced, and whoever it newly concerns.
  lemma OwedIsScheduled(s: Start, b: Between, seeded: set<ProducerId>, work: set<Invocation>)
    requires s.Behind() && Sound(s, b) && Fresh(s, b) && Clean(s, b)
    requires forall i :: SceneOf(s, b).Wanted(b.poisoned.Keys, WaveOf(s, b), seeded, i) ==> i in work
    ensures forall i, c :: LastRun(b.layers, i).Some? && c in LastRun(b.layers, i).value.seen && c.at in Touched(b.last) ==> i in work
    ensures forall l, i :: l in b.last && WantedBy(s, l, i) && i.producer !in s.poisoned ==> i in work + Ran(b.layers)
  {
    forall i, c | LastRun(b.layers, i).Some? && c in LastRun(b.layers, i).value.seen && c.at in Touched(b.last)
      ensures i in work
    {
      LastRunIs(b.layers, i);
      TouchedByLayer(b.last, c.at);
      var l :| l in b.last && c.at in WriteMap(l.writes);
      assert c.at in b.readSets[i];
      assert HasReason(s, b.layers, i);
      OwedIsWanted(s, b, seeded, l, i, c.at);
    }
    forall l, i | l in b.last && WantedBy(s, l, i) && i.producer !in s.poisoned
      ensures i in work + Ran(b.layers)
    {
      var at :| at in WriteMap(l.writes) && Triggers(s, i, at, Some(l.inv.producer));
      if i !in Ran(b.layers) {
        OwedIsWanted(s, b, seeded, l, i, at);
      }
    }
  }

  lemma CleanStep(s: Start, b: Between, seeded: set<ProducerId>, work: set<Invocation>, w: WaveState)
    requires s.Behind() && Sound(s, b) && Fresh(s, b) && Clean(s, b) && Seeded(s, b, seeded)
    requires WaveAfter(s, b, work, w) && Ran(w.wave) == work && w.poisoned.Keys == s.poisoned.Keys
    requires forall i :: SceneOf(s, b).Wanted(b.poisoned.Keys, WaveOf(s, b), seeded, i) ==> i in work
    ensures Clean(s, After(b, w))
  {
    OwedIsScheduled(s, b, seeded, work);
    ReadsHoldStep(s, b, w, work);
    RanAppend(b.layers, w.wave);
    if b.count == 0 {
      assert SceneOf(s, b) == s.FirstScene();
    }
  }

  // --- How often one invocation runs ---

  ghost predicate IndexWithin(g: Graph, readSets: map<Invocation, set<CellAt>>) {
    forall i, at :: i in readSets && at in readSets[i] ==> at in g.mayRead(i)
  }

  // The k-th wave holds only invocations of depth k or more, so nothing has been scheduled more often
  // than its depth allows.
  ghost predicate DepthHolds(g: Graph, b: Between, reruns: map<Invocation, nat>) {
    && (forall i :: RunsOf(reruns, i) <= b.count && RunsOf(reruns, i) <= g.depth(i) + 1)
    && (forall l :: l in b.last ==> b.count <= g.depth(l.inv) + 1)
  }

  ghost predicate CountsHold(b: Between, reruns: map<Invocation, nat>) {
    forall i :: RunCount(b.layers, i) <= CYCLE_RERUN_LIMIT && RunCount(b.layers, i) <= RunsOf(reruns, i)
  }

  lemma IndexStaysWithin(s: Start, g: Graph, b: Between)
    requires Within(s.prog, g) && IndexWithin(g, s.readSets) && Sound(s, b)
    ensures IndexWithin(g, b.readSets)
  {
    forall i, at | i in b.readSets && at in b.readSets[i]
      ensures at in g.mayRead(i)
    {
      LastRunIs(b.layers, i);
      if i in Ran(b.layers) {
        var l := LastRun(b.layers, i).value;
        assert Complete(s.prog, l.inv, l.seen);
      }
    }
  }

  // After the first wave, the only way to be wanted is through a record the last wave wrote.
  lemma WantedVia(s: Start, b: Between, seeded: set<ProducerId>, i: Invocation) returns (l: RunLayer, at: CellAt)
    requires Sound(s, b) && Fresh(s, b) && Seeded(s, b, seeded) && b.count > 0
    requires SceneOf(s, b).Wanted(b.poisoned.Keys, WaveOf(s, b), seeded, i)
    ensures l in b.last && at in WriteMap(l.writes)
    ensures Subscribed(b.readSets, i, at) || Enters(s.producers, i, at, Some(l.inv.producer))
  {
    hide Sound, Dirties, Subscribed, Enters, World, ChangesetOf, Touched;
    var k :| 0 <= k < |b.last| && SceneOf(s, b).Due(b.poisoned.Keys, i.producer, WaveOf(s, b)[k])
             && SceneOf(s, b).Candidate(WaveOf(s, b)[k], seeded, i);
    l := b.last[k];
    at := DirtiedVia(s, b.readSets, l, i);
  }

  lemma DirtiedVia(s: Start, readSets: map<Invocation, set<CellAt>>, l: RunLayer, i: Invocation) returns (at: CellAt)
    requires Dirties(s.producers, readSets, ChangesetOf(l, s.reflects).cells, i)
    ensures at in WriteMap(l.writes)
    ensures Subscribed(readSets, i, at) || Enters(s.producers, i, at, Some(l.inv.producer))
  {
    hide Subscribed, Enters, WriteMap;
    var cells := ChangesetOf(l, s.reflects).cells;
    var c :| 0 <= c < |cells| && (Subscribed(readSets, i, cells[c].0) || Enters(s.producers, i, cells[c].0, cells[c].1));
    at := cells[c].0;
    WriteMapKeys(l.writes, at);
  }

  lemma WrittenWithin(s: Start, g: Graph, b: Between, l: RunLayer, at: CellAt)
    requires Within(s.prog, g) && Sound(s, b) && l in b.layers && at in WriteMap(l.writes)
    ensures at in g.mayWrite(l.inv)
  {
    assert Complete(s.prog, l.inv, l.seen);
  }

  lemma ScheduledIsDeep(s: Start, g: Graph, b: Between, seeded: set<ProducerId>, i: Invocation)
    requires Within(s.prog, g) && Acyclic(s.producers, g) && IndexWithin(g, s.readSets)
    requires Sound(s, b) && Fresh(s, b) && Seeded(s, b, seeded)
    requires forall l :: l in b.last ==> b.count <= g.depth(l.inv) + 1
    requires SceneOf(s, b).Wanted(b.poisoned.Keys, WaveOf(s, b), seeded, i)
    ensures b.count <= g.depth(i)
  {
    if b.count > 0 {
      var l, at := WantedVia(s, b, seeded, i);
      IndexStaysWithin(s, g, b);
      WrittenWithin(s, g, b, l, at);
    }
  }

  lemma DepthStep(s: Start, g: Graph, b: Between, seeded: set<ProducerId>, start: Plan, plan: Plan, work: set<Invocation>, w: WaveState)
    requires Within(s.prog, g) && Acyclic(s.producers, g) && IndexWithin(g, s.readSets)
    requires Sound(s, b) && Fresh(s, b) && Seeded(s, b, seeded)
    requires DepthHolds(g, b, start.reruns)
    requires start.poisoned == b.poisoned && start.seeded == seeded
    requires Tally(start, plan) && AllWanted(SceneOf(s, b), WaveOf(s, b), start, plan)
    requires Ran(w.wave) <= work <= plan.scheduled
    ensures DepthHolds(g, After(b, w), plan.reruns)
  {
    forall i | i in plan.scheduled
      ensures b.count <= g.depth(i)
    {
      ScheduledIsDeep(s, g, b, seeded, i);
    }
    forall l | l in w.wave
      ensures b.count + 1 <= g.depth(l.inv) + 1
    {
      assert l.inv in Ran(w.wave);
    }
  }

  lemma CountStep(b: Between, start: Plan, plan: Plan, w: WaveState)
    requires CountsHold(b, start.reruns) && Tally(start, plan)
    requires Ran(w.wave) <= plan.work && OncePerInvocation(w.wave)
    ensures CountsHold(After(b, w), plan.reruns)
  {
    forall i
      ensures RunCount(b.layers + w.wave, i) <= CYCLE_RERUN_LIMIT
      ensures RunCount(b.layers + w.wave, i) <= RunsOf(plan.reruns, i)
    {
      RunCountAppend(b.layers, w.wave, i);
    }
  }

  // --- Staying inside a finite universe, and stopping ---

  function SpanCells(span: seq<Changeset>): set<CellAt> {
    set k, n | 0 <= k < |span| && 0 <= n < |span[k].cells| :: span[k].cells[n].0
  }

  ghost predicate Finite(s: Start, g: Graph, universe: set<Invocation>) {
    Within(s.prog, g) && Bounded(s.producers, g, universe, s.readSets, s.base.Keys + SpanCells(s.span))
  }

  lemma FirstWantedInUniverse(s: Start, g: Graph, universe: set<Invocation>, i: Invocation)
    requires Finite(s, g, universe) && WantedFirst(s, i)
    ensures i in universe
  {
    var scene := s.FirstScene();
    var k :| 0 <= k < |s.span| && scene.Due(s.poisoned.Keys, i.producer, s.span[k]) && scene.Candidate(s.span[k], {}, i);
    var cells := s.span[k].cells;
    if Dirties(s.producers, s.readSets, cells, i) {
      var c :| 0 <= c < |cells| && (Subscribed(s.readSets, i, cells[c].0) || Enters(s.producers, i, cells[c].0, cells[c].1));
      assert cells[c].0 in SpanCells(s.span);
      assert i in s.readSets || Entity(s.producers, i, cells[c].0);
    } else {
      assert scene.InBuffer(i);
      var at :| at in scene.visible && at.cell.buffer == s.producers[i.producer].source && at.cell.Pid() == i.input;
      assert Entity(s.producers, i, at);
    }
  }

  lemma WantedInUniverse(s: Start, g: Graph, b: Between, universe: set<Invocation>, seeded: set<ProducerId>, i: Invocation)
    requires Finite(s, g, universe) && Sound(s, b) && Fresh(s, b) && Seeded(s, b, seeded) && Ran(b.layers) <= universe
    requires SceneOf(s, b).Wanted(b.poisoned.Keys, WaveOf(s, b), seeded, i)
    ensures i in universe
  {
    if b.count == 0 {
      assert SceneOf(s, b) == s.FirstScene();
      FirstWantedInUniverse(s, g, universe, i);
    } else {
      var l, at := WantedVia(s, b, seeded, i);
      WrittenWithin(s, g, b, l, at);
      assert l.inv in Ran(b.layers);
      assert i in b.readSets || Entity(s.producers, i, at);
    }
  }

  ghost function Tickets(universe: set<Invocation>, reruns: map<Invocation, nat>): set<(Invocation, nat)> {
    set i, n | i in universe && n in Below(CYCLE_RERUN_LIMIT) && RunsOf(reruns, i) <= n :: (i, n)
  }

  lemma TicketsSpent(universe: set<Invocation>, start: Plan, plan: Plan)
    requires Tally(start, plan) && plan.scheduled <= universe
    ensures plan.work != {} ==> Tickets(universe, plan.reruns) < Tickets(universe, start.reruns)
    ensures plan.work == {} ==> Tickets(universe, plan.reruns) == Tickets(universe, start.reruns)
  {
    if plan.work != {} {
      var i :| i in plan.work;
      var n := RunsOf(start.reruns, i);
      assert (i, n) in Tickets(universe, start.reruns) && (i, n) !in Tickets(universe, plan.reruns);
    }
  }

  // --- The round ---

  // Every round-level fact the wave loop keeps.
  ghost predicate Kept(s: Start, g: Graph, universe: set<Invocation>, b: Between, reruns: map<Invocation, nat>,
                       seeded: set<ProducerId>)
  {
    && Sound(s, b) && Fresh(s, b) && Seeded(s, b, seeded)
    && Ran(b.layers) <= universe
    && CountsHold(b, reruns)
    && (b.count == 0 ==> reruns == map[])
    && (Acyclic(s.producers, g) && IndexWithin(g, s.readSets) ==> DepthHolds(g, b, reruns))
  }

  lemma FirstWaveSeedsEveryone(s: Start, b: Between, start: Plan, plan: Plan)
    requires s.Behind() && Fresh(s, b) && b.count == 0
    requires start.reruns == map[] && start.poisoned.Keys == s.poisoned.Keys && Tally(start, plan)
    requires plan.poisoned == start.poisoned ==>
               forall p, k :: 0 <= k < |s.span| && SceneOf(s, b).Due(start.poisoned.Keys, p, s.span[k]) ==> p in plan.seeded
    ensures forall p :: s.FirstScene().NewHere(p) && p !in s.poisoned ==> p in plan.seeded
  {
    assert plan.poisoned == start.poisoned by {
      assert forall p :: !TooOften(plan, p);
      assert plan.poisoned.Keys == start.poisoned.Keys;
    }
    forall p | s.FirstScene().NewHere(p) && p !in s.poisoned
      ensures p in plan.seeded
    {
      var k :| 0 <= k < |s.span| && s.FirstScene().Watermark(p) < s.span[k].position;
      assert SceneOf(s, b).Due(start.poisoned.Keys, p, s.span[k]);
    }
  }

  lemma KeptStep(s: Start, g: Graph, universe: set<Invocation>, b: Between, start: Plan, plan: Plan, w: WaveState)
    requires s.Behind() && Finite(s, g, universe)
    requires Kept(s, g, universe, b, start.reruns, start.seeded)
    requires start.scheduled == {} && start.poisoned == b.poisoned
    requires Tally(start, plan) && AllWanted(SceneOf(s, b), WaveOf(s, b), start, plan)
    requires b.count == 0 && plan.poisoned == start.poisoned ==>
               forall p, k :: 0 <= k < |s.span| && SceneOf(s, b).Due(start.poisoned.Keys, p, s.span[k]) ==> p in plan.seeded
    requires WaveAfter(s, b, plan.work, w) && plan.poisoned.Keys <= w.poisoned.Keys
    ensures Kept(s, g, universe, After(b, w), plan.reruns, plan.seeded)
    ensures plan.scheduled <= universe
  {
    forall i | i in plan.scheduled
      ensures HasReason(s, b.layers, i) && i in universe
    {
      WantedHasReason(s, b, start.seeded, i);
      WantedInUniverse(s, g, b, universe, start.seeded, i);
    }
    SoundStep(s, b, w, plan.work);
    RanAppend(b.layers, w.wave);
    CountStep(b, start, plan, w);
    if b.count == 0 {
      FirstWaveSeedsEveryone(s, b, start, plan);
    }
    if Acyclic(s.producers, g) && IndexWithin(g, s.readSets) {
      DepthStep(s, g, b, start.seeded, start, plan, plan.work, w);
    }
  }

  // The graph is layered and nothing in it is as deep as the limit.
  ghost predicate Layered(s: Start, g: Graph) {
    Acyclic(s.producers, g) && IndexWithin(g, s.readSets)
  }

  ghost predicate Shallow(s: Start, g: Graph, universe: set<Invocation>) {
    Layered(s, g) && forall i :: i in universe ==> g.depth(i) < CYCLE_RERUN_LIMIT
  }

  lemma PlannedInUniverse(s: Start, g: Graph, universe: set<Invocation>, b: Between, start: Plan, plan: Plan)
    requires Finite(s, g, universe) && Kept(s, g, universe, b, start.reruns, start.seeded) && start.poisoned == b.poisoned
    requires AllWanted(SceneOf(s, b), WaveOf(s, b), start, plan)
    ensures plan.scheduled <= universe
  {
    forall i | i in plan.scheduled
      ensures i in universe
    {
      WantedInUniverse(s, g, b, universe, start.seeded, i);
    }
  }

  // No producer has been broken for running too often.
  ghost predicate NoneCycled(s: Start, poisoned: map<ProducerId, Poisoning>) {
    forall p :: p in poisoned && p !in s.poisoned ==> poisoned[p] == RunFailed
  }

  lemma TooOftenIsDeep(s: Start, g: Graph, universe: set<Invocation>, b: Between, start: Plan, plan: Plan, i: Invocation)
    requires Finite(s, g, universe) && Layered(s, g) && Kept(s, g, universe, b, start.reruns, start.seeded)
    requires start.poisoned == b.poisoned
    requires Tally(start, plan) && AllWanted(SceneOf(s, b), WaveOf(s, b), start, plan)
    requires i in plan.scheduled && RunsOf(plan.reruns, i) > CYCLE_RERUN_LIMIT
    ensures i in universe && g.depth(i) >= CYCLE_RERUN_LIMIT
  {
    WantedInUniverse(s, g, b, universe, start.seeded, i);
    ScheduledIsDeep(s, g, b, start.seeded, i);
    assert RunsOf(start.reruns, i) <= b.count;
  }

  // Breaking a producer for cycling takes an invocation at least as deep as the limit.
  lemma NoCycleWhenShallow(s: Start, g: Graph, universe: set<Invocation>, b: Between, start: Plan, plan: Plan)
    requires Finite(s, g, universe) && Shallow(s, g, universe) && Kept(s, g, universe, b, start.reruns, start.seeded)
    requires start.poisoned == b.poisoned
    requires Tally(start, plan) && AllWanted(SceneOf(s, b), WaveOf(s, b), start, plan)
    ensures plan.poisoned == start.poisoned
  {
    forall p | p in plan.poisoned
      ensures p in start.poisoned && plan.poisoned[p] == start.poisoned[p]
    {
      if p !in start.poisoned {
        assert TooOften(plan, p);
        var i :| i in plan.scheduled && i.producer == p && RunsOf(plan.reruns, i) > CYCLE_RERUN_LIMIT;
        TooOftenIsDeep(s, g, universe, b, start, plan, i);
        assert false;
      }
    }
    assert plan.poisoned.Keys == start.poisoned.Keys;
  }

  ghost predicate RoundOk(s: Start, g: Graph, universe: set<Invocation>, b: Between, reruns: map<Invocation, nat>,
                          seeded: set<ProducerId>)
  {
    && Kept(s, g, universe, b, reruns, seeded)
    && (b.poisoned.Keys == s.poisoned.Keys ==> Clean(s, b))
    && (Shallow(s, g, universe) ==> NoneCycled(s, b.poisoned))
  }

  ghost predicate WaveDone(s: Start, b: Between, plan: Plan, w: WaveState) {
    && WaveAfter(s, b, plan.work, w)
    && plan.poisoned.Keys <= w.poisoned.Keys
    && (forall p :: p in w.poisoned ==> (p in plan.poisoned && w.poisoned[p] == plan.poisoned[p]) || w.poisoned[p] == RunFailed)
    && (w.poisoned.Keys == plan.poisoned.Keys && (forall i :: i in plan.work ==> i.producer !in plan.poisoned) ==> Ran(w.wave) == plan.work)
  }

  lemma CleanWave(s: Start, g: Graph, universe: set<Invocation>, b: Between, start: Plan, plan: Plan, w: WaveState)
    requires s.Behind() && Kept(s, g, universe, b, start.reruns, start.seeded)
    requires b.poisoned.Keys == s.poisoned.Keys ==> Clean(s, b)
    requires start.scheduled == {} && start.poisoned == b.poisoned
    requires Planned(SceneOf(s, b), WaveOf(s, b), start, plan) && WaveDone(s, b, plan, w)
    ensures w.poisoned.Keys == s.poisoned.Keys ==> Clean(s, After(b, w))
  {
    if w.poisoned.Keys == s.poisoned.Keys {
      UnbrokenThroughout(s, b, start, plan, w);
      forall i | i in plan.work
        ensures i.producer !in plan.poisoned
      {
        WantedHasReason(s, b, start.seeded, i);
      }
      CleanStep(s, b, start.seeded, plan.work, w);
    }
  }

  lemma UnbrokenThroughout(s: Start, b: Between, start: Plan, plan: Plan, w: WaveState)
    requires Fresh(s, b) && b.poisoned == start.poisoned && w.poisoned.Keys == s.poisoned.Keys
    requires Tally(start, plan) && plan.poisoned.Keys <= w.poisoned.Keys
    ensures b.poisoned.Keys == s.poisoned.Keys && plan.poisoned == b.poisoned
  {
    assert b.poisoned.Keys == s.poisoned.Keys == plan.poisoned.Keys;
  }

  lemma RoundStep(s: Start, g: Graph, universe: set<Invocation>, b: Between, start: Plan, plan: Plan, w: WaveState)
    requires s.Behind() && Finite(s, g, universe)
    requires RoundOk(s, g, universe, b, start.reruns, start.seeded)
    requires start.scheduled == {} && start.poisoned == b.poisoned
    requires Planned(SceneOf(s, b), WaveOf(s, b), start, plan) && WaveDone(s, b, plan, w)
    ensures RoundOk(s, g, universe, After(b, w), plan.reruns, plan.seeded)
    ensures plan.scheduled <= universe
  {
    KeptStep(s, g, universe, b, start, plan, w);
    CleanWave(s, g, universe, b, start, plan, w);
    if Shallow(s, g, universe) {
      NoCycleWhenShallow(s, g, universe, b, start, plan);
    }
  }

  lemma SettledAtTheEnd(s: Start, g: Graph, universe: set<Invocation>, b: Between, reruns: map<Invocation, nat>, seeded: set<ProducerId>)
    requires s.Behind() && RoundOk(s, g, universe, b, reruns, seeded) && WaveOf(s, b) == []
    ensures b.poisoned.Keys == s.poisoned.Keys ==> Settled(s, b.layers, b.readSets)
    ensures Layered(s, g) ==> forall i :: RunCount(b.layers, i) <= g.depth(i) + 1
  {
    assert b.last == [];
    if Layered(s, g) {
      forall i
        ensures RunCount(b.layers, i) <= g.depth(i) + 1
      {
        assert RunCount(b.layers, i) <= RunsOf(reruns, i);
      }
    }
  }

  lemma WaveIsDone(s: Start, b: Between, plan: Plan, start: WaveState, w: WaveState)
    requires start.readSets == b.readSets && start.poisoned == plan.poisoned
    requires WaveOk(s.prog, s.base, b.layers, b.next, w) && w.tasks == map[] && Accounted(plan.work, start, w)
    ensures WaveDone(s, b, plan, w)
  {
    assert w.tasks.Keys == {};
  }

  // One wave: schedule it all, then run it all.
  method NextWave(s: Start, b: Between, wave: seq<Changeset>, reruns: map<Invocation, nat>, seeded: set<ProducerId>,
                  ghost g: Graph, ghost universe: set<Invocation>, ghost budget: nat)
    returns (plan: Plan, after: Between)
    requires s.Behind() && Finite(s, g, universe) && wave == WaveOf(s, b)
    requires RoundOk(s, g, universe, b, reruns, seeded)
    requires forall i, h: History :: i in universe && |h| >= budget ==> !s.prog(i, h).Read?
    ensures RoundOk(s, g, universe, after, plan.reruns, plan.seeded) && after.count > 0
    ensures OneWave(s, Mark(b, reruns, seeded), Mark(after, plan.reruns, plan.seeded))
    ensures plan.work != {} ==> Tickets(universe, plan.reruns) < Tickets(universe, reruns)
    ensures plan.work == {} ==> Tickets(universe, plan.reruns) == Tickets(universe, reruns) && after.last == []
  {
    var start := Plan({}, {}, reruns, seeded, b.poisoned);
    plan := Schedule(SceneOf(s, b), wave, start);
    PlannedInUniverse(s, g, universe, b, start, plan);
    TicketsSpent(universe, start, plan);
    var opening := WaveState([], b.next, map[], map[], b.readSets, plan.poisoned);
    var w := RunWave(s.prog, s.base, b.layers, plan.work, opening, budget);
    WaveIsDone(s, b, plan, opening, w);
    RoundStep(s, g, universe, b, start, plan, w);
    NothingRan(w.wave);
    after := After(b, w);
  }

  // A round wave by wave, as far as it has got.
  datatype Mark = Mark(b: Between, reruns: map<Invocation, nat>, seeded: set<ProducerId>)

  ghost predicate OneWave(s: Start, m: Mark, m': Mark) {
    exists plan, w :: Planned(SceneOf(s, m.b), WaveOf(s, m.b), Plan({}, {}, m.reruns, m.seeded, m.b.poisoned), plan)
                      && WaveDone(s, m.b, plan, w) && m' == Mark(After(m.b, w), plan.reruns, plan.seeded)
  }

  // What holds at every wave boundary, whatever happens later.
  ghost predicate Boundary(s: Start, m: Mark) {
    Sound(s, m.b) && Fresh(s, m.b) && Seeded(s, m.b, m.seeded)
  }

  ghost predicate Trace(s: Start, trace: seq<Mark>) {
    && trace != [] && trace[0] == Mark(trace[0].b, map[], {}) && trace[0].b.count == 0
    && (forall n :: 0 <= n < |trace| ==> Boundary(s, trace[n]))
    && (forall n :: 0 < n < |trace| ==> OneWave(s, trace[n - 1], trace[n]))
  }

  lemma TraceStep(s: Start, trace: seq<Mark>, m: Mark)
    requires Trace(s, trace) && OneWave(s, trace[|trace| - 1], m) && Boundary(s, m)
    ensures Trace(s, trace + [m])
  {
    hide Boundary, OneWave;
  }

  lemma NothingRan(wave: seq<RunLayer>)
    ensures Ran(wave) == {} ==> wave == []
  {
    if wave != [] {
      assert wave[0].inv in Ran(wave);
    }
  }

  lemma Opening(s: Start, g: Graph, universe: set<Invocation>, b: Between)
    requires s.Behind() && Finite(s, g, universe)
    requires b == Between([], [], 0, s.readSets, s.poisoned, b.next) && b.next > 0
    ensures RoundOk(s, g, universe, b, map[], {}) && Trace(s, [Mark(b, map[], {})])
  {
  }

  lemma BoundaryOfRound(s: Start, g: Graph, universe: set<Invocation>, m: Mark)
    requires RoundOk(s, g, universe, m.b, m.reruns, m.seeded)
    ensures Boundary(s, m)
  {
  }

  // Waves until one commits nothing, with every interleaving inside each. The round stops whatever the
  // producers do, and where no producer newly broke it has settled.
  method RunRound(s: Start, first: LayerId, ghost g: Graph, ghost universe: set<Invocation>, ghost budget: nat)
    returns (b: Between, ghost trace: seq<Mark>)
    requires first > 0 && s.Behind() && Finite(s, g, universe)
    requires forall i, h: History :: i in universe && |h| >= budget ==> !s.prog(i, h).Read?
    ensures b.poisoned.Keys == s.poisoned.Keys ==> Settled(s, b.layers, b.readSets)
    ensures Genuine(s.prog, b.layers) && Indexed(s.readSets, b.readSets, b.layers)
    ensures forall i :: RunCount(b.layers, i) <= 8
    ensures Layered(s, g) ==> forall i :: RunCount(b.layers, i) <= g.depth(i) + 1
    ensures Shallow(s, g, universe) ==> NoneCycled(s, b.poisoned)
    ensures Trace(s, trace) && trace[|trace| - 1].b == b && WaveOf(s, b) == []
  {
    b := Between([], [], 0, s.readSets, s.poisoned, first);
    var wave := s.span;
    var reruns: map<Invocation, nat> := map[];
    var seeded: set<ProducerId> := {};
    Opening(s, g, universe, b);
    hide RoundOk, Trace, Finite, Settled, Tickets, OneWave;
    trace := [Mark(b, reruns, seeded)];
    while wave != []
      invariant wave == WaveOf(s, b)
      invariant RoundOk(s, g, universe, b, reruns, seeded)
      invariant Trace(s, trace) && trace[|trace| - 1] == Mark(b, reruns, seeded)
      decreases Tickets(universe, reruns), |wave|
    {
      var plan, after := NextWave(s, b, wave, reruns, seeded, g, universe, budget);
      BoundaryOfRound(s, g, universe, Mark(after, plan.reruns, plan.seeded));
      TraceStep(s, trace, Mark(after, plan.reruns, plan.seeded));
      trace := trace + [Mark(after, plan.reruns, plan.seeded)];
      b, reruns, seeded := after, plan.reruns, plan.seeded;
      wave := Changesets(b.last, s.reflects);
    }
    SettledAtTheEnd(s, g, universe, b, reruns, seeded);
  }
}
