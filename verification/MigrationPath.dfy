/** Walking a field's version chain: the hops between two versions, up through each step's migration or down
    where every step has a way back (crates/borg-engine/src/defs.rs, `path`, and the chains `apply` builds). */
module MigrationPath {
  import opened Core
  import opened Schema
  import H = FieldHistory

  datatype Direction = Up | Down

  datatype Hop = Hop(producer: ProducerId, direction: Direction, from: DefVersion, to: DefVersion)

  // --- Chains as pushes make them ---

  // Each step starts where the one before it ended, and versions rise.
  ghost predicate Linked(chain: seq<VersionStep>) {
    && (forall k :: 0 <= k < |chain| ==> chain[k].from < chain[k].to)
    && (forall k :: 0 < k < |chain| ==> chain[k - 1].to == chain[k].from)
  }

  // The field stands at the end of its chain.
  ghost predicate ChainOk(v: DefView, f: Field, ceiling: LayerId) {
    && Linked(ChainOf(v, f))
    && (f in v.fields ==> v.fields[f].version <= ceiling)
    && (ChainOf(v, f) != [] ==> f in v.fields && v.fields[f].version == ChainOf(v, f)[|ChainOf(v, f)| - 1].to)
  }

  // A layer that mutates the field moves it exactly once; a layer never declares and mutates it together.
  ghost predicate OneMutation(events: seq<DefEvent>, f: Field) {
    && (forall k :: 0 <= k < |events| ==> !Deletes(events[k], f))
    && (forall j, k :: 0 <= j < k < |events| && Mutates(events[k], f) ==> Touches(events[j]) != Some(f))
  }

  lemma EventKeepsChain(v: DefView, e: DefEvent, at: LayerId, f: Field)
    requires Apply(v, e, at).Ok? && ChainOk(v, f, at) && !Deletes(e, f)
    requires Mutates(e, f) ==> f in v.fields && v.fields[f].version < at
    ensures ChainOk(Apply(v, e, at).value, f, at)
    ensures Touches(e) != Some(f) ==> StillAt(v, Apply(v, e, at).value, f)
  {
    var w := Apply(v, e, at).value;
    if Mutates(e, f) {
      assert ChainOf(w, f) == ChainOf(v, f) + [VersionStep(v.fields[f].version, at, e.up, e.down)];
    } else {
      assert ChainOf(w, f) == ChainOf(v, f);
    }
  }

  lemma {:induction false} EventsKeepChain(v: DefView, events: seq<DefEvent>, at: LayerId, f: Field)
    requires ChainOk(v, f, at) && (f in v.fields ==> v.fields[f].version < at)
    requires OneMutation(events, f) && FoldEvents(v, events, at).Ok?
    ensures ChainOk(FoldEvents(v, events, at).value, f, at)
    ensures (forall k :: 0 <= k < |events| ==> Touches(events[k]) != Some(f)) ==>
              StillAt(v, FoldEvents(v, events, at).value, f)
  {
    if events != [] {
      var shorter, e := events[..|events| - 1], events[|events| - 1];
      assert forall k :: 0 <= k < |shorter| ==> shorter[k] == events[k];
      assert OneMutation(shorter, f);
      EventsKeepChain(v, shorter, at, f);
      var w := FoldEvents(v, shorter, at).value;
      hide ChainOk;
      if Mutates(e, f) {
        assert forall k :: 0 <= k < |shorter| ==> Touches(shorter[k]) != Some(f);
        assert f in w.fields;
      }
      EventKeepsChain(w, e, at, f);
    }
  }

  ghost predicate StillAt(v: DefView, w: DefView, f: Field) {
    ChainOf(w, f) == ChainOf(v, f) && (f in v.fields <==> f in w.fields) && (f in v.fields ==> w.fields[f] == v.fields[f])
  }

  // Every chain a branch folds to is linked.
  lemma {:induction false} FoldedChain(layers: seq<DefLayer>, f: Field)
    requires Ascend(layers) && Fold(layers).Ok?
    requires forall l :: l in layers ==> l.id > 0 && OneMutation(l.events, f)
    ensures ChainOk(Fold(layers).value, f, TopOf(layers))
  {
    if layers != [] {
      var shorter, l := layers[..|layers| - 1], layers[|layers| - 1];
      assert forall m :: m in shorter ==> m in layers;
      FoldedChain(shorter, f);
      if shorter != [] {
        assert shorter[|shorter| - 1] == layers[|layers| - 2];
      } else {
        assert f !in EMPTY_VIEW.fields;
      }
      EventsKeepChain(Fold(shorter).value, l.events, l.id, f);
    }
  }

  // --- The walk ---

  function UpHops(chain: seq<VersionStep>, from: DefVersion, to: DefVersion): seq<Hop> {
    if chain == [] then []
    else
      var s := chain[|chain| - 1];
      UpHops(chain[..|chain| - 1], from, to)
      + (if s.from >= from && s.to <= to then [Hop(s.up, Up, s.from, s.to)] else [])
  }

  // Newest step first; broken where a step in range has no way down.
  function DownHops(chain: seq<VersionStep>, from: DefVersion, to: DefVersion): Option<seq<Hop>> {
    if chain == [] then Some([])
    else
      var s := chain[|chain| - 1];
      var rest := DownHops(chain[..|chain| - 1], from, to);
      if !(s.to <= from && s.from >= to) then rest
      else if s.down.None? || rest.None? then None
      else Some([Hop(s.down.value, Down, s.to, s.from)] + rest.value)
  }

  // `chain` is None where the buffer is no field or the field has no chain.
  function PathOf(chain: Option<seq<VersionStep>>, from: DefVersion, to: DefVersion): Option<seq<Hop>> {
    if from == to then Some([])
    else if chain.None? then None
    else if from < to then Some(UpHops(chain.value, from, to))
    else DownHops(chain.value, from, to)
  }

  lemma {:induction false} UpHopsAppend(a: seq<VersionStep>, b: seq<VersionStep>, from: DefVersion, to: DefVersion)
    ensures UpHops(a + b, from, to) == UpHops(a, from, to) + UpHops(b, from, to)
  {
    if b == [] {
      assert a + b == a;
    } else {
      UpHopsAppend(a, b[..|b| - 1], from, to);
      assert (a + b)[..|a + b| - 1] == a + b[..|b| - 1];
    }
  }

  // What a walk has so far, and what is left of it.
  function Join(hops: seq<Hop>, rest: Option<seq<Hop>>): Option<seq<Hop>> {
    if rest.None? then None else Some(hops + rest.value)
  }

  lemma JoinEnds(hops: seq<Hop>, rest: Option<seq<Hop>>)
    ensures Join([], rest) == rest && Join(hops, Some([])) == Some(hops)
  {
    if rest.Some? {
      assert [] + rest.value == rest.value;
    }
    assert hops + [] == hops;
  }

  lemma DownNext(steps: seq<VersionStep>, k: nat, from: DefVersion, to: DefVersion, hops: seq<Hop>)
    requires k < |steps|
    ensures var s, rest := steps[k], DownHops(steps[..k], from, to);
            var here := Join(hops, DownHops(steps[..k + 1], from, to));
            if !(s.to <= from && s.from >= to) then here == Join(hops, rest)
            else if s.down.None? then here == None
            else here == Join(hops + [Hop(s.down.value, Down, s.to, s.from)], rest)
  {
    assert steps[..k + 1][..k] == steps[..k];
    var s, rest := steps[k], DownHops(steps[..k], from, to);
    if s.down.Some? && rest.Some? {
      var hop := Hop(s.down.value, Down, s.to, s.from);
      assert hops + ([hop] + rest.value) == (hops + [hop]) + rest.value;
    }
  }

  method Walk(chain: Option<seq<VersionStep>>, from: DefVersion, to: DefVersion) returns (r: Option<seq<Hop>>)
    ensures r == PathOf(chain, from, to)
  {
    if from == to {
      return Some([]);
    }
    if chain.None? {
      return None;
    }
    var steps, hops := chain.value, [];
    if from < to {
      for k := 0 to |steps|
        invariant hops == UpHops(steps[..k], from, to)
      {
        assert steps[..k + 1][..k] == steps[..k];
        if steps[k].from >= from && steps[k].to <= to {
          hops := hops + [Hop(steps[k].up, Up, steps[k].from, steps[k].to)];
        }
      }
      assert steps[..|steps|] == steps;
    } else {
      var k := |steps|;
      assert steps[..k] == steps;
      JoinEnds(hops, DownHops(steps, from, to));
      while k > 0
        invariant 0 <= k <= |steps|
        invariant DownHops(steps, from, to) == Join(hops, DownHops(steps[..k], from, to))
      {
        k := k - 1;
        DownNext(steps, k, from, to, hops);
        var s := steps[k];
        if s.to <= from && s.from >= to {
          if s.down.None? {
            return None;
          }
          hops := hops + [Hop(s.down.value, Down, s.to, s.from)];
        }
      }
      JoinEnds(hops, None);
    }
    r := Some(hops);
  }

  // --- What a walk between two versions on the chain is ---

  // The k-th version on a chain: where it starts, or where its k-th step ends.
  function VersionAt(chain: seq<VersionStep>, k: nat): DefVersion
    requires k <= |chain| && chain != []
  {
    if k == 0 then chain[0].from else chain[k - 1].to
  }

  lemma {:induction false} VersionsRise(chain: seq<VersionStep>, j: nat, k: nat)
    requires Linked(chain) && chain != [] && j < k <= |chain|
    ensures VersionAt(chain, j) < VersionAt(chain, k)
    decreases k
  {
    if j < k - 1 {
      VersionsRise(chain, j, k - 1);
    }
    assert chain[k - 1].from < chain[k - 1].to;
    assert VersionAt(chain, k - 1) == chain[k - 1].from;
  }

  lemma VersionOrder(chain: seq<VersionStep>, j: nat, k: nat)
    requires Linked(chain) && chain != [] && j <= |chain| && k <= |chain|
    ensures VersionAt(chain, j) <= VersionAt(chain, k) <==> j <= k
  {
    if j < k {
      VersionsRise(chain, j, k);
    } else if k < j {
      VersionsRise(chain, k, j);
    }
  }

  function UpHop(s: VersionStep): Hop {
    Hop(s.up, Up, s.from, s.to)
  }

  function AllUp(steps: seq<VersionStep>): seq<Hop> {
    seq(|steps|, k requires 0 <= k < |steps| => UpHop(steps[k]))
  }

  // The n-th step lies between versions a and b exactly when it is one of the steps from a to b.
  lemma StepBetween(chain: seq<VersionStep>, a: nat, b: nat, n: nat)
    requires Linked(chain) && a <= b <= |chain| && 0 < n <= |chain|
    ensures chain[n - 1].from >= VersionAt(chain, a) && chain[n - 1].to <= VersionAt(chain, b) <==> a < n <= b
  {
    assert chain[n - 1].from == VersionAt(chain, n - 1) && chain[n - 1].to == VersionAt(chain, n);
    VersionOrder(chain, a, n - 1);
    VersionOrder(chain, n, b);
  }

  // The part of the chain between versions a and b, among the first n steps.
  function Crossed(chain: seq<VersionStep>, a: nat, b: nat, n: nat): seq<VersionStep>
    requires a <= b <= |chain| && n <= |chain|
  {
    if n <= a then [] else chain[a..if n < b then n else b]
  }

  lemma CrossedNext(chain: seq<VersionStep>, a: nat, b: nat, n: nat)
    requires a <= b <= |chain| && 0 < n <= |chain|
    ensures Crossed(chain, a, b, n) ==
            if a < n <= b then Crossed(chain, a, b, n - 1) + [chain[n - 1]] else Crossed(chain, a, b, n - 1)
  {
  }

  lemma {:induction false} UpIsSlice(chain: seq<VersionStep>, a: nat, b: nat, n: nat)
    requires Linked(chain) && chain != [] && a <= b <= |chain| && n <= |chain|
    ensures UpHops(chain[..n], VersionAt(chain, a), VersionAt(chain, b)) == AllUp(Crossed(chain, a, b, n))
  {
    hide *;
    if n > 0 {
      UpIsSlice(chain, a, b, n - 1);
      assert chain[..n] == chain[..n - 1] + [chain[n - 1]];
      UpHopsNext(chain[..n - 1], chain[n - 1], VersionAt(chain, a), VersionAt(chain, b));
      StepBetween(chain, a, b, n);
      CrossedNext(chain, a, b, n);
      UpNext(Crossed(chain, a, b, n - 1), chain[n - 1]);
    } else {
      assert chain[..n] == [];
      NothingCrossed(chain, a, b);
    }
  }

  lemma UpHopsNext(chain: seq<VersionStep>, s: VersionStep, from: DefVersion, to: DefVersion)
    ensures UpHops(chain + [s], from, to) ==
            UpHops(chain, from, to) + (if s.from >= from && s.to <= to then [Hop(s.up, Up, s.from, s.to)] else [])
  {
    assert (chain + [s])[..|chain|] == chain;
  }

  lemma UpNext(steps: seq<VersionStep>, s: VersionStep)
    ensures AllUp(steps + [s]) == AllUp(steps) + [Hop(s.up, Up, s.from, s.to)]
  {
  }

  // A field no event has ever mutated has no path between two versions, and every field has the empty one from
  // a version to itself.
  lemma NeverMutatedHasNoPath(layers: seq<DefLayer>, f: Field, from: DefVersion, to: DefVersion)
    requires Fold(layers).Ok? && forall s :: s in H.History(layers) ==> !Mutates(s.event, f)
    ensures var v := Fold(layers).value;
            PathOf(if f in v.chains then Some(v.chains[f]) else None, from, to) == if from == to then Some([]) else None
  {
    hide Fold;
    H.FoldTold(layers);
    assert H.FieldTold(H.History(layers), Fold(layers).value, f);
  }

  // Going up never fails: it is the steps between the two versions, in order, so each hop starts where the
  // one before it ended.
  lemma UpIsContiguous(chain: seq<VersionStep>, a: nat, b: nat)
    requires Linked(chain) && a < b <= |chain|
    ensures PathOf(Some(chain), VersionAt(chain, a), VersionAt(chain, b)) == Some(AllUp(chain[a..b]))
    ensures var hops := AllUp(chain[a..b]);
            && |hops| == b - a && hops[0].from == VersionAt(chain, a) && hops[|hops| - 1].to == VersionAt(chain, b)
            && (forall k :: 0 <= k < |hops| ==> hops[k].producer == chain[a + k].up && hops[k].direction == Up)
            && forall k :: 0 < k < |hops| ==> hops[k - 1].to == hops[k].from
  {
    VersionsRise(chain, a, b);
    UpIsSlice(chain, a, b, |chain|);
    assert chain[..|chain|] == chain;
  }

  predicate AllReversible(steps: seq<VersionStep>) {
    forall k :: 0 <= k < |steps| ==> steps[k].down.Some?
  }

  function AllDown(steps: seq<VersionStep>): seq<Hop>
    requires AllReversible(steps)
  {
    seq(|steps|, k requires 0 <= k < |steps| =>
      Hop(steps[|steps| - 1 - k].down.value, Down, steps[|steps| - 1 - k].to, steps[|steps| - 1 - k].from))
  }

  lemma {:induction false} DownIsSlice(chain: seq<VersionStep>, a: nat, b: nat, n: nat)
    requires Linked(chain) && chain != [] && a <= b <= |chain| && n <= |chain|
    ensures var crossed := Crossed(chain, a, b, n);
            DownHops(chain[..n], VersionAt(chain, b), VersionAt(chain, a)) ==
            if AllReversible(crossed) then Some(AllDown(crossed)) else None
  {
    hide *;
    if n > 0 {
      DownIsSlice(chain, a, b, n - 1);
      assert chain[..n] == chain[..n - 1] + [chain[n - 1]];
      DownHopsNext(chain[..n - 1], chain[n - 1], VersionAt(chain, b), VersionAt(chain, a));
      StepBetween(chain, a, b, n);
      CrossedNext(chain, a, b, n);
      ReversibleNext(Crossed(chain, a, b, n - 1), chain[n - 1]);
    } else {
      assert chain[..n] == [];
      NothingCrossed(chain, a, b);
    }
  }

  lemma DownHopsNext(chain: seq<VersionStep>, s: VersionStep, from: DefVersion, to: DefVersion)
    ensures DownHops(chain + [s], from, to) ==
            var rest := DownHops(chain, from, to);
            if !(s.to <= from && s.from >= to) then rest
            else if s.down.None? || rest.None? then None
            else Some([Hop(s.down.value, Down, s.to, s.from)] + rest.value)
  {
    assert (chain + [s])[..|chain|] == chain;
  }

  lemma NothingCrossed(chain: seq<VersionStep>, a: nat, b: nat)
    requires a <= b <= |chain| && chain != []
    ensures Crossed(chain, a, b, 0) == []
    ensures AllReversible(Crossed(chain, a, b, 0)) && AllDown(Crossed(chain, a, b, 0)) == []
    ensures DownHops([], VersionAt(chain, b), VersionAt(chain, a)) == Some([])
    ensures UpHops([], VersionAt(chain, a), VersionAt(chain, b)) == [] == AllUp(Crossed(chain, a, b, 0))
  {
  }

  lemma ReversibleNext(steps: seq<VersionStep>, s: VersionStep)
    ensures AllReversible(steps + [s]) <==> AllReversible(steps) && s.down.Some?
    ensures AllReversible(steps + [s]) ==>
              AllDown(steps + [s]) == [Hop(s.down.value, Down, s.to, s.from)] + AllDown(steps)
  {
    var longer := steps + [s];
    assert longer[|steps|] == s;
    if AllReversible(steps) && s.down.Some? {
      assert AllReversible(longer);
    }
    if AllReversible(longer) {
      forall k | 0 <= k < |steps|
        ensures steps[k].down.Some?
      {
        assert longer[k].down.Some?;
      }
    }
  }

  lemma AllDownJoins(chain: seq<VersionStep>, a: nat, b: nat)
    requires Linked(chain) && a < b <= |chain| && AllReversible(chain[a..b])
    ensures var hops := AllDown(chain[a..b]);
            && |hops| == b - a && hops[0].from == VersionAt(chain, b) && hops[|hops| - 1].to == VersionAt(chain, a)
            && (forall k :: 0 <= k < |hops| ==> Some(hops[k].producer) == chain[b - 1 - k].down && hops[k].direction == Down)
            && forall k :: 0 < k < |hops| ==> hops[k - 1].to == hops[k].from
  {
    var hops := AllDown(chain[a..b]);
    forall k | 0 <= k < |hops|
      ensures hops[k] == Hop(chain[b - 1 - k].down.value, Down, chain[b - 1 - k].to, chain[b - 1 - k].from) && chain[b - 1 - k].down.Some?
    {
      assert chain[a..b][b - a - 1 - k] == chain[b - 1 - k];
    }
  }

  // Going down works exactly when every step crossed has a way down, and then it too is contiguous.
  lemma DownIsContiguous(chain: seq<VersionStep>, a: nat, b: nat)
    requires Linked(chain) && a < b <= |chain|
    ensures var r := PathOf(Some(chain), VersionAt(chain, b), VersionAt(chain, a));
            && (r.Some? <==> AllReversible(chain[a..b]))
            && (r.Some? ==> && |r.value| == b - a
                            && r.value[0].from == VersionAt(chain, b) && r.value[|r.value| - 1].to == VersionAt(chain, a)
                            && (forall k :: 0 <= k < |r.value| ==> Some(r.value[k].producer) == chain[b - 1 - k].down && r.value[k].direction == Down)
                            && forall k :: 0 < k < |r.value| ==> r.value[k - 1].to == r.value[k].from)
  {
    hide DownHops, AllDown, VersionAt, Linked;
    VersionsRise(chain, a, b);
    DownIsSlice(chain, a, b, |chain|);
    assert chain[..|chain|] == chain;
    if AllReversible(chain[a..b]) {
      AllDownJoins(chain, a, b);
    }
  }

  // Walks join through any version between.
  lemma UpConcatenates(chain: seq<VersionStep>, a: nat, m: nat, b: nat)
    requires Linked(chain) && a < m < b <= |chain|
    ensures var whole := PathOf(Some(chain), VersionAt(chain, a), VersionAt(chain, b));
            var lower := PathOf(Some(chain), VersionAt(chain, a), VersionAt(chain, m));
            var upper := PathOf(Some(chain), VersionAt(chain, m), VersionAt(chain, b));
            whole.Some? && lower.Some? && upper.Some? && whole.value == lower.value + upper.value
  {
    UpIsContiguous(chain, a, b);
    UpIsContiguous(chain, a, m);
    UpIsContiguous(chain, m, b);
    assert chain[a..b] == chain[a..m] + chain[m..b];
  }

  lemma DownConcatenates(chain: seq<VersionStep>, a: nat, m: nat, b: nat)
    requires Linked(chain) && a < m < b <= |chain|
    ensures var whole := PathOf(Some(chain), VersionAt(chain, b), VersionAt(chain, a));
            var upper := PathOf(Some(chain), VersionAt(chain, b), VersionAt(chain, m));
            var lower := PathOf(Some(chain), VersionAt(chain, m), VersionAt(chain, a));
            && (whole.Some? <==> upper.Some? && lower.Some?)
            && (whole.Some? ==> whole.value == upper.value + lower.value)
  {
    hide *;
    DownIs(chain, a, b);
    DownIs(chain, a, m);
    DownIs(chain, m, b);
    ReversibleJoin(chain[a..m], chain[m..b]);
    assert chain[a..b] == chain[a..m] + chain[m..b];
  }

  // The whole of what going down from one version to another answers.
  lemma DownIs(chain: seq<VersionStep>, a: nat, b: nat)
    requires Linked(chain) && a < b <= |chain|
    ensures PathOf(Some(chain), VersionAt(chain, b), VersionAt(chain, a)) ==
            if AllReversible(chain[a..b]) then Some(AllDown(chain[a..b])) else None
  {
    hide Linked, VersionAt, DownHops, AllDown, AllReversible;
    VersionsRise(chain, a, b);
    DownIsSlice(chain, a, b, |chain|);
    assert chain[..|chain|] == chain;
  }

  lemma ReversibleJoin(a: seq<VersionStep>, b: seq<VersionStep>)
    ensures AllReversible(a + b) <==> AllReversible(a) && AllReversible(b)
    ensures AllReversible(a + b) ==> AllDown(a + b) == AllDown(b) + AllDown(a)
  {
    if AllReversible(a + b) {
      assert forall k :: 0 <= k < |a| ==> (a + b)[k] == a[k];
      assert forall k :: 0 <= k < |b| ==> (a + b)[|a| + k] == b[k];
    }
  }

  // --- Which pairs of versions have a walk between them ---

  ghost predicate OnChain(chain: seq<VersionStep>, v: DefVersion) {
    chain != [] && exists k: nat :: k <= |chain| && VersionAt(chain, k) == v
  }

  // The hops start at one version, end at the other, and each starts where the one before it ended.
  predicate Joins(hops: seq<Hop>, from: DefVersion, to: DefVersion) {
    && hops != [] && hops[0].from == from && hops[|hops| - 1].to == to
    && forall k :: 0 < k < |hops| ==> hops[k - 1].to == hops[k].from
  }

  lemma {:induction false} UpHopsAreSteps(chain: seq<VersionStep>, from: DefVersion, to: DefVersion)
    ensures forall h :: h in UpHops(chain, from, to) ==> exists k :: 0 <= k < |chain| && h == UpHop(chain[k])
  {
    if chain != [] {
      var shorter := chain[..|chain| - 1];
      UpHopsAreSteps(shorter, from, to);
      forall h | h in UpHops(chain, from, to)
        ensures exists k :: 0 <= k < |chain| && h == UpHop(chain[k])
      {
        if h in UpHops(shorter, from, to) {
          var k :| 0 <= k < |shorter| && h == UpHop(shorter[k]);
          assert h == UpHop(chain[k]);
        } else {
          assert h == UpHop(chain[|chain| - 1]);
        }
      }
    }
  }

  predicate GoesDown(h: Hop, s: VersionStep) {
    h.direction == Down && h.from == s.to && h.to == s.from
  }

  lemma {:induction false} DownHopsAreSteps(chain: seq<VersionStep>, from: DefVersion, to: DefVersion)
    requires DownHops(chain, from, to).Some?
    ensures forall h :: h in DownHops(chain, from, to).value ==> exists k :: 0 <= k < |chain| && GoesDown(h, chain[k])
  {
    if chain != [] {
      var shorter := chain[..|chain| - 1];
      DownHopsAreSteps(shorter, from, to);
      forall h | h in DownHops(chain, from, to).value
        ensures exists k :: 0 <= k < |chain| && GoesDown(h, chain[k])
      {
        if h in DownHops(shorter, from, to).value {
          var k :| 0 <= k < |shorter| && GoesDown(h, shorter[k]);
          assert GoesDown(h, chain[k]);
        } else {
          assert GoesDown(h, chain[|chain| - 1]);
        }
      }
    }
  }

  lemma StepEnds(chain: seq<VersionStep>, k: nat)
    requires Linked(chain) && k < |chain|
    ensures OnChain(chain, chain[k].from) && OnChain(chain, chain[k].to)
  {
    assert VersionAt(chain, k) == chain[k].from;
    assert VersionAt(chain, k + 1) == chain[k].to;
  }

  // Going up joins the two versions exactly where both are on the chain.
  lemma UpJoinsWhen(chain: seq<VersionStep>, from: DefVersion, to: DefVersion)
    requires Linked(chain) && from < to
    ensures var r := PathOf(Some(chain), from, to);
            r.Some? && (Joins(r.value, from, to) <==> OnChain(chain, from) && OnChain(chain, to))
  {
    var hops := UpHops(chain, from, to);
    if Joins(hops, from, to) {
      UpHopsAreSteps(chain, from, to);
      assert hops[0] in hops && hops[|hops| - 1] in hops;
      var j :| 0 <= j < |chain| && hops[0] == UpHop(chain[j]);
      var k :| 0 <= k < |chain| && hops[|hops| - 1] == UpHop(chain[k]);
      StepEnds(chain, j);
      StepEnds(chain, k);
    }
    if OnChain(chain, from) && OnChain(chain, to) {
      var a: nat :| a <= |chain| && VersionAt(chain, a) == from;
      var b: nat :| b <= |chain| && VersionAt(chain, b) == to;
      VersionOrder(chain, b, a);
      UpIsContiguous(chain, a, b);
    }
  }

  // Every step between two versions has a way down.
  ghost predicate ReversibleBetween(chain: seq<VersionStep>, from: DefVersion, to: DefVersion) {
    forall k :: 0 <= k < |chain| && chain[k].to <= from && chain[k].from >= to ==> chain[k].down.Some?
  }

  // Going down joins them exactly where, besides, every step crossed has a way down.
  lemma DownJoinsWhen(chain: seq<VersionStep>, from: DefVersion, to: DefVersion)
    requires Linked(chain) && to < from
    ensures var r := PathOf(Some(chain), from, to);
            r.Some? && Joins(r.value, from, to) <==>
            OnChain(chain, from) && OnChain(chain, to) && ReversibleBetween(chain, from, to)
  {
    DownIsReversible(chain, from, to);
    var r := DownHops(chain, from, to);
    if r.Some? && Joins(r.value, from, to) {
      var hops := r.value;
      DownHopsAreSteps(chain, from, to);
      assert hops[0] in hops && hops[|hops| - 1] in hops;
      var j :| 0 <= j < |chain| && GoesDown(hops[0], chain[j]);
      var k :| 0 <= k < |chain| && GoesDown(hops[|hops| - 1], chain[k]);
      StepEnds(chain, j);
      StepEnds(chain, k);
    }
    if OnChain(chain, from) && OnChain(chain, to) && ReversibleBetween(chain, from, to) {
      var b: nat :| b <= |chain| && VersionAt(chain, b) == from;
      var a: nat :| a <= |chain| && VersionAt(chain, a) == to;
      VersionOrder(chain, b, a);
      DownIsContiguous(chain, a, b);
    }
  }

  lemma {:induction false} DownIsReversible(chain: seq<VersionStep>, from: DefVersion, to: DefVersion)
    ensures DownHops(chain, from, to).Some? <==> ReversibleBetween(chain, from, to)
  {
    if chain != [] {
      var shorter, s := chain[..|chain| - 1], chain[|chain| - 1];
      DownIsReversible(shorter, from, to);
      assert chain == shorter + [s];
      assert ReversibleBetween(chain, from, to) <==>
             ReversibleBetween(shorter, from, to) && (s.to <= from && s.from >= to ==> s.down.Some?) by {
        ReversibleLast(shorter, s, from, to);
      }
    }
  }

  lemma ReversibleLast(shorter: seq<VersionStep>, s: VersionStep, from: DefVersion, to: DefVersion)
    ensures ReversibleBetween(shorter + [s], from, to) <==>
            ReversibleBetween(shorter, from, to) && (s.to <= from && s.from >= to ==> s.down.Some?)
  {
    var longer := shorter + [s];
    assert longer[|shorter|] == s && forall k :: 0 <= k < |shorter| ==> longer[k] == shorter[k];
  }

  // A reader whose view is older than the field asks for the version of an undeclared one. From any version
  // whose steps back all have a way down it is given a path, which stops at the field's first version.
  lemma OlderReaderStops(chain: seq<VersionStep>, b: nat)
    requires Linked(chain) && chain != [] && b <= |chain| && VersionAt(chain, 0) > UNVERSIONED
    requires AllReversible(chain[..b])
    ensures PathOf(Some(chain), VersionAt(chain, b), UNVERSIONED) == Some(AllDown(chain[..b]))
    ensures !Joins(AllDown(chain[..b]), VersionAt(chain, b), UNVERSIONED) && !OnChain(chain, UNVERSIONED)
  {
    if b > 0 {
      VersionsRise(chain, 0, b);
    }
    forall k: nat | k <= |chain|
      ensures VersionAt(chain, k) > UNVERSIONED
    {
      VersionOrder(chain, 0, k);
    }
    DownToNothing(chain, VersionAt(chain, b), |chain|);
    assert chain[..|chain|] == chain;
    DownIsSlice(chain, 0, b, |chain|);
    assert Crossed(chain, 0, b, |chain|) == chain[..b];
    DownJoinsWhen(chain, VersionAt(chain, b), UNVERSIONED);
  }

  // Below the first version there is nothing to cross.
  lemma {:induction false} DownToNothing(chain: seq<VersionStep>, from: DefVersion, n: nat)
    requires Linked(chain) && chain != [] && n <= |chain| && VersionAt(chain, 0) > UNVERSIONED
    ensures DownHops(chain[..n], from, UNVERSIONED) == DownHops(chain[..n], from, VersionAt(chain, 0))
  {
    if n > 0 {
      DownToNothing(chain, from, n - 1);
      assert chain[..n][..n - 1] == chain[..n - 1] && chain[..n][n - 1] == chain[n - 1];
      assert chain[n - 1].from == VersionAt(chain, n - 1);
      VersionOrder(chain, 0, n - 1);
    }
  }

  // So a value stored at version 4 is said to be reachable at no version at all, by one hop that ends at 2.
  lemma OffChainSkips(up: ProducerId, down: ProducerId)
    ensures var chain := [VersionStep(2, 4, up, Some(down)), VersionStep(4, 6, up, None)];
            Linked(chain) && PathOf(Some(chain), 4, UNVERSIONED) == Some([Hop(down, Down, 4, 2)])
  {
    var chain := [VersionStep(2, 4, up, Some(down)), VersionStep(4, 6, up, None)];
    assert chain[..1] == [chain[0]] && AllReversible(chain[..1]);
    assert VersionAt(chain, 1) == 4 && VersionAt(chain, 0) == 2;
    OlderReaderStops(chain, 1);
    assert AllDown(chain[..1]) == [Hop(down, Down, 4, 2)];
  }
}
