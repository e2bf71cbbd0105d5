/** The schema as a fold over def events: who may follow whom, and what commutes (crates/borg-engine/src/defs.rs, crates/borg-core/src/def.rs). */
module Schema {
  import opened Core

  // A field of a struct.
  datatype Field = Field(struct_: string, name: string)

  datatype Ownership = OwnedBySource | OwnedBy(producer: ProducerId)

  datatype FieldDef = FieldDef(ty: string, repo: RepoId, ownership: Ownership, version: LayerId)

  datatype VersionStep = VersionStep(from: DefVersion, to: DefVersion, up: ProducerId, down: Option<ProducerId>)

  datatype DefEvent =
    | DeclareField(field: Field, ty: string, repo: RepoId, ownership: Ownership)
    | MutateField(field: Field, ty: string, repo: RepoId, up: ProducerId, down: Option<ProducerId>)
    | DeleteField(field: Field, repo: RepoId)
    | PushProducer(id: ProducerId, repo: RepoId)

  datatype DefError = FieldCollision | MissingMigration | NotDeclaringRepo | MigrationOnDerivedField

  datatype DefView = DefView(structs: set<string>, fields: map<Field, FieldDef>, chains: map<Field, seq<VersionStep>>,
                             producers: map<ProducerId, LayerId>)

  const EMPTY_VIEW: DefView := DefView({}, map[], map[], map[])

  function Touches(e: DefEvent): Option<Field> {
    if e.PushProducer? then None else Some(e.field)
  }

  predicate Declares(e: DefEvent, f: Field) {
    e.DeclareField? && e.field == f
  }

  predicate Mutates(e: DefEvent, f: Field) {
    e.MutateField? && e.field == f
  }

  predicate Deletes(e: DefEvent, f: Field) {
    e.DeleteField? && e.field == f
  }

  function ChainOf(v: DefView, f: Field): seq<VersionStep> {
    if f in v.chains then v.chains[f] else []
  }

  // One event folded in, at the layer that carries it.
  function Apply(v: DefView, e: DefEvent, at: LayerId): Result<DefView, DefError> {
    match e
    case DeclareField(f, ty, repo, ownership) =>
      var v' := v.(structs := v.structs + {f.struct_});
      if f !in v.fields then Ok(v'.(fields := v.fields[f := FieldDef(ty, repo, ownership, at)]))
      else if v.fields[f].repo == repo && v.fields[f].ty == ty && v.fields[f].ownership == ownership then Ok(v')
      else Err(FieldCollision)
    case MutateField(f, ty, repo, up, down) =>
      if f !in v.fields then Err(MissingMigration)
      else if v.fields[f].repo != repo then Err(NotDeclaringRepo)
      else if v.fields[f].ownership.OwnedBy? then Err(MigrationOnDerivedField)
      else Ok(v.(fields := v.fields[f := v.fields[f].(ty := ty, version := at)],
                 chains := v.chains[f := ChainOf(v, f) + [VersionStep(v.fields[f].version, at, up, down)]]))
    case DeleteField(f, repo) =>
      if f in v.fields && v.fields[f].repo != repo then Err(NotDeclaringRepo)
      else Ok(v.(fields := v.fields - {f}))
    case PushProducer(id, _) => Ok(v.(producers := v.producers[id := at]))
  }

  // --- What acceptance depends on ---

  // Who declared the field, its shape and its owner; nothing about versions or other fields.
  datatype Status = Status(repo: RepoId, ty: string, ownership: Ownership)

  function StatusOf(v: DefView, f: Field): Option<Status> {
    if f in v.fields then Some(Status(v.fields[f].repo, v.fields[f].ty, v.fields[f].ownership)) else None
  }

  predicate Accepts(s: Option<Status>, e: DefEvent) {
    match e
    case DeclareField(_, ty, repo, ownership) => s.None? || s == Some(Status(repo, ty, ownership))
    case MutateField(_, _, repo, _, _) => s.Some? && s.value.repo == repo && s.value.ownership.OwnedBySource?
    case DeleteField(_, repo) => s.Some? ==> s.value.repo == repo
    case PushProducer(_, _) => true
  }

  // An event is judged by its own field alone, whatever layer carries it, and changes no other.
  lemma JudgedByItsField(v: DefView, w: DefView, e: DefEvent, a: LayerId, b: LayerId, other: Field)
    requires Touches(e).Some? ==> StatusOf(v, e.field) == StatusOf(w, e.field)
    ensures Touches(e).Some? ==> (Apply(v, e, a).Ok? <==> Accepts(StatusOf(v, e.field), e))
    ensures Apply(v, e, a).Ok? <==> Apply(w, e, b).Ok?
    ensures Apply(v, e, a).Ok? ==>
              && (Touches(e) != Some(other) ==> StatusOf(Apply(v, e, a).value, other) == StatusOf(v, other))
              && (Touches(e) == Some(other) ==> StatusOf(Apply(v, e, a).value, other) == StatusOf(Apply(w, e, b).value, other))
  {
  }

  // What an event leaves alone.
  lemma LeftAlone(v: DefView, e: DefEvent, a: LayerId, f: Field)
    requires Apply(v, e, a).Ok? && Touches(e) != Some(f)
    ensures var w := Apply(v, e, a).value;
            && (f in w.fields <==> f in v.fields) && (f in v.fields ==> w.fields[f] == v.fields[f])
            && (f in w.chains <==> f in v.chains) && (f in v.chains ==> w.chains[f] == v.chains[f])
  {
  }

  // What an event does to its own field depends on that field alone.
  ghost predicate SameAt(v: DefView, w: DefView, f: Field) {
    && (f in v.fields <==> f in w.fields) && (f in v.fields ==> v.fields[f] == w.fields[f])
    && (f in v.chains <==> f in w.chains) && (f in v.chains ==> v.chains[f] == w.chains[f])
  }

  lemma SameEffect(v: DefView, w: DefView, e: DefEvent, a: LayerId)
    requires Touches(e).Some? && SameAt(v, w, e.field)
    ensures Apply(v, e, a).Ok? <==> Apply(w, e, a).Ok?
    ensures Apply(v, e, a).Ok? ==> SameAt(Apply(v, e, a).value, Apply(w, e, a).value, e.field)
  {
  }

  // Events on different fields commute, refusals included.
  lemma DisjointCommute(v: DefView, e: DefEvent, a: LayerId, f: DefEvent, b: LayerId)
    requires Touches(e).Some? && Touches(f).Some? && Touches(e) != Touches(f)
    ensures Apply(v, e, a).Ok? && Apply(Apply(v, e, a).value, f, b).Ok? <==>
            Apply(v, f, b).Ok? && Apply(Apply(v, f, b).value, e, a).Ok?
    ensures Apply(v, e, a).Ok? && Apply(Apply(v, e, a).value, f, b).Ok? ==>
              forall g :: SameAt(Apply(Apply(v, e, a).value, f, b).value, Apply(Apply(v, f, b).value, e, a).value, g)
  {
    if Apply(v, e, a).Ok? {
      LeftAlone(v, e, a, f.field);
      SameEffect(v, Apply(v, e, a).value, f, b);
    }
    if Apply(v, f, b).Ok? {
      LeftAlone(v, f, b, e.field);
      SameEffect(v, Apply(v, f, b).value, e, a);
    }
    if Apply(v, e, a).Ok? && Apply(Apply(v, e, a).value, f, b).Ok? {
      var ve, vf := Apply(v, e, a).value, Apply(v, f, b).value;
      forall g
        ensures SameAt(Apply(ve, f, b).value, Apply(vf, e, a).value, g)
      {
        CommuteAt(v, e, a, f, b, ve, vf, g);
      }
    }
  }

  lemma CommuteAt(v: DefView, e: DefEvent, a: LayerId, f: DefEvent, b: LayerId, ve: DefView, vf: DefView, g: Field)
    requires Touches(e).Some? && Touches(f).Some? && Touches(e) != Touches(f)
    requires Apply(v, e, a) == Ok(ve) && Apply(v, f, b) == Ok(vf)
    requires Apply(ve, f, b).Ok? && Apply(vf, e, a).Ok?
    ensures SameAt(Apply(ve, f, b).value, Apply(vf, e, a).value, g)
  {
    hide Apply;
    LeftAlone(v, e, a, f.field);
    LeftAlone(v, f, b, e.field);
    SameEffect(v, vf, e, a);
    SameEffect(v, ve, f, b);
    if g != e.field {
      LeftAlone(v, e, a, g);
      LeftAlone(vf, e, a, g);
    }
    if g != f.field {
      LeftAlone(v, f, b, g);
      LeftAlone(ve, f, b, g);
    }
  }

  // --- Folding layers ---

  datatype DefLayer = DefLayer(id: LayerId, events: seq<DefEvent>)

  function FoldEvents(v: DefView, events: seq<DefEvent>, at: LayerId): Result<DefView, DefError> {
    if events == [] then Ok(v)
    else
      var earlier := FoldEvents(v, events[..|events| - 1], at);
      if earlier.Err? then earlier else Apply(earlier.value, events[|events| - 1], at)
  }

  function Fold(layers: seq<DefLayer>): Result<DefView, DefError> {
    if layers == [] then Ok(EMPTY_VIEW)
    else
      var earlier := Fold(layers[..|layers| - 1]);
      if earlier.Err? then earlier
      else FoldEvents(earlier.value, layers[|layers| - 1].events, layers[|layers| - 1].id)
  }

  ghost predicate Ascend(layers: seq<DefLayer>) {
    forall a, b :: 0 <= a < b < |layers| ==> layers[a].id < layers[b].id
  }

  // The layers at or below a ceiling, of a sequence in id order.
  function UpTo(layers: seq<DefLayer>, ceiling: LayerId): seq<DefLayer> {
    if layers == [] then []
    else if layers[|layers| - 1].id > ceiling then UpTo(layers[..|layers| - 1], ceiling)
    else layers
  }

  // Folds at every ceiling.
  ghost predicate Total(layers: seq<DefLayer>) {
    forall ceiling: LayerId :: Fold(UpTo(layers, ceiling)).Ok?
  }

  lemma {:induction false} TotalIsWhole(layers: seq<DefLayer>)
    ensures Fold(layers).Ok? ==> Total(layers)
    ensures Total(layers) ==> Fold(layers).Ok?
  {
    if Fold(layers).Ok? {
      forall ceiling: LayerId
        ensures Fold(UpTo(layers, ceiling)).Ok?
      {
        EarlierFolds(layers, ceiling);
      }
    }
    if Total(layers) {
      var top := TopOf(layers);
      UpToTop(layers, top);
      assert Fold(UpTo(layers, top)).Ok?;
    }
  }

  lemma {:induction false} EarlierFolds(layers: seq<DefLayer>, ceiling: LayerId)
    requires Fold(layers).Ok?
    ensures Fold(UpTo(layers, ceiling)).Ok?
  {
    if layers != [] && layers[|layers| - 1].id > ceiling {
      EarlierFolds(layers[..|layers| - 1], ceiling);
    }
  }

  function TopOf(layers: seq<DefLayer>): LayerId {
    if layers == [] then 0 else layers[|layers| - 1].id
  }

  lemma UpToTop(layers: seq<DefLayer>, top: LayerId)
    requires top >= TopOf(layers)
    ensures UpTo(layers, top) == layers
  {
  }

  // --- Replaying onto a branch that has moved other definitions ---

  ghost predicate SameStatus(v: DefView, w: DefView, moved: set<Field>) {
    forall f :: f !in moved ==> StatusOf(v, f) == StatusOf(w, f)
  }

  predicate Avoids(events: seq<DefEvent>, moved: set<Field>) {
    forall e :: e in events && Touches(e).Some? ==> e.field !in moved
  }

  predicate OnlyMoves(events: seq<DefEvent>, moved: set<Field>) {
    forall e :: e in events && Touches(e).Some? ==> e.field in moved
  }

  // Events that leave alone whatever one side moved fold alike on both sides, whichever layers carry them.
  lemma {:induction false} FoldAlike(v: DefView, w: DefView, events: seq<DefEvent>, a: LayerId, b: LayerId, moved: set<Field>)
    requires SameStatus(v, w, moved) && Avoids(events, moved)
    ensures FoldEvents(v, events, a).Ok? <==> FoldEvents(w, events, b).Ok?
    ensures FoldEvents(v, events, a).Ok? ==> SameStatus(FoldEvents(v, events, a).value, FoldEvents(w, events, b).value, moved)
  {
    if events != [] {
      var shorter, e := events[..|events| - 1], events[|events| - 1];
      FoldAlike(v, w, shorter, a, b, moved);
      if FoldEvents(v, shorter, a).Ok? {
        var v', w' := FoldEvents(v, shorter, a).value, FoldEvents(w, shorter, b).value;
        assert e in events;
        forall f
          ensures Apply(v', e, a).Ok? <==> Apply(w', e, b).Ok?
          ensures Apply(v', e, a).Ok? && f !in moved ==> StatusOf(Apply(v', e, a).value, f) == StatusOf(Apply(w', e, b).value, f)
        {
          JudgedByItsField(v', w', e, a, b, f);
          JudgedByItsField(w', v', e, b, a, f);
        }
      }
    }
  }

  lemma {:induction false} FoldMoves(v: DefView, events: seq<DefEvent>, a: LayerId, moved: set<Field>)
    requires OnlyMoves(events, moved) && FoldEvents(v, events, a).Ok?
    ensures SameStatus(FoldEvents(v, events, a).value, v, moved)
  {
    if events != [] {
      var shorter, e := events[..|events| - 1], events[|events| - 1];
      FoldMoves(v, shorter, a, moved);
      assert e in events;
    }
  }

  ghost predicate LayersAvoid(layers: seq<DefLayer>, moved: set<Field>) {
    forall l :: l in layers ==> Avoids(l.events, moved)
  }

  ghost predicate LayersMove(layers: seq<DefLayer>, moved: set<Field>) {
    forall l :: l in layers ==> OnlyMoves(l.events, moved)
  }

  lemma FoldNext(layers: seq<DefLayer>, l: DefLayer)
    ensures Fold(layers + [l]) ==
            if Fold(layers).Err? then Fold(layers) else FoldEvents(Fold(layers).value, l.events, l.id)
  {
    assert (layers + [l])[..|layers|] == layers;
  }

  lemma {:induction false} ParentMoved(base: seq<DefLayer>, since: seq<DefLayer>, moved: set<Field>)
    requires Fold(base).Ok? && Fold(base + since).Ok? && LayersMove(since, moved)
    ensures SameStatus(Fold(base + since).value, Fold(base).value, moved)
  {
    if since == [] {
      assert base + since == base;
    } else {
      var shorter, l := since[..|since| - 1], since[|since| - 1];
      assert base + since == (base + shorter) + [l];
      FoldNext(base + shorter, l);
      ParentMoved(base, shorter, moved);
      FoldMoves(Fold(base + shorter).value, l.events, l.id, moved);
    }
  }

  // The same layers under new ids.
  predicate Renumbered(child: seq<DefLayer>, replayed: seq<DefLayer>) {
    |child| == |replayed| && forall k :: 0 <= k < |child| ==> replayed[k].events == child[k].events
  }

  // What folded over the fork point still folds over what the parent has become, unvalidated, as long as
  // the parent has moved none of the same definitions.
  lemma {:induction false} ReplayFolds(base: seq<DefLayer>, since: seq<DefLayer>, child: seq<DefLayer>, replayed: seq<DefLayer>,
                                       moved: set<Field>)
    requires Fold(base).Ok? && Fold(base + since).Ok? && Fold(base + child).Ok?
    requires LayersMove(since, moved) && LayersAvoid(child, moved) && Renumbered(child, replayed)
    ensures Fold(base + since + replayed).Ok?
    ensures SameStatus(Fold(base + since + replayed).value, Fold(base + child).value, moved)
  {
    hide FoldEvents, Fold, SameStatus;
    if child == [] {
      assert base + since + replayed == base + since && base + child == base;
      ParentMoved(base, since, moved);
    } else {
      var shorter, l := child[..|child| - 1], child[|child| - 1];
      var replayed', l' := replayed[..|child| - 1], replayed[|child| - 1];
      assert base + child == (base + shorter) + [l];
      assert base + since + replayed == (base + since + replayed') + [l'];
      FoldNext(base + shorter, l);
      FoldNext(base + since + replayed', l');
      ReplayFolds(base, since, shorter, replayed', moved);
      FoldAlike(Fold(base + since + replayed').value, Fold(base + shorter).value, l.events, l'.id, l.id, moved);
    }
  }
}
