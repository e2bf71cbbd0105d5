/** What a folded history of def events says of one field, event by event, without folding anything. */
module FieldHistory {
  // crates/borg-engine/src/defs.rs, `apply`.
  import opened Core
  import opened Schema

  // An event and the layer that carries it.
  datatype Stamp = Stamp(event: DefEvent, at: LayerId)

  function StampsOf(l: DefLayer): seq<Stamp> {
    seq(|l.events|, k requires 0 <= k < |l.events| => Stamp(l.events[k], l.id))
  }

  function History(layers: seq<DefLayer>): seq<Stamp> {
    if layers == [] then [] else History(layers[..|layers| - 1]) + StampsOf(layers[|layers| - 1])
  }

  predicate Pushes(s: Stamp, id: ProducerId) {
    s.event.PushProducer? && s.event.id == id
  }

  // Declared, and not deleted since.
  predicate Live(h: seq<Stamp>, f: Field) {
    exists k :: 0 <= k < |h| && Declares(h[k].event, f) && forall j :: k < j < |h| ==> !Deletes(h[j].event, f)
  }

  // The latest event to shape it, and the latest to give it an owner.
  predicate ShapedAt(h: seq<Stamp>, f: Field, k: nat) {
    && k < |h| && (Declares(h[k].event, f) || Mutates(h[k].event, f))
    && (forall j :: k < j < |h| ==> !Declares(h[j].event, f) && !Mutates(h[j].event, f))
  }

  predicate DeclaredAt(h: seq<Stamp>, f: Field, k: nat) {
    k < |h| && Declares(h[k].event, f) && forall j :: k < j < |h| ==> !Declares(h[j].event, f)
  }

  predicate PushedAt(h: seq<Stamp>, id: ProducerId, k: nat) {
    k < |h| && Pushes(h[k], id) && forall j :: k < j < |h| ==> !Pushes(h[j], id)
  }

  // The layer that last moved its version: a mutation, or a declaration where there was no field.
  function VersionIn(h: seq<Stamp>, f: Field): LayerId {
    if h == [] then 0
    else
      var shorter, last := h[..|h| - 1], h[|h| - 1];
      if Mutates(last.event, f) || (Declares(last.event, f) && !Live(shorter, f)) then last.at else VersionIn(shorter, f)
  }

  // Its mutations in order, each from the version before it to its own layer, with its own two migrations.
  function StepsIn(h: seq<Stamp>, f: Field): seq<VersionStep> {
    if h == [] then []
    else
      var shorter, last := h[..|h| - 1], h[|h| - 1];
      StepsIn(shorter, f)
      + (if Mutates(last.event, f) then [VersionStep(VersionIn(shorter, f), last.at, last.event.up, last.event.down)] else [])
  }

  ghost predicate FieldTold(h: seq<Stamp>, v: DefView, f: Field) {
    && (f in v.fields <==> Live(h, f))
    && (f in v.fields ==> v.fields[f].version == VersionIn(h, f))
    && (f in v.fields ==> forall k: nat :: ShapedAt(h, f, k) ==> v.fields[f].ty == h[k].event.ty && v.fields[f].repo == h[k].event.repo)
    && (f in v.fields ==> forall k: nat :: DeclaredAt(h, f, k) ==> v.fields[f].ownership == h[k].event.ownership)
    && (f in v.chains <==> exists k :: 0 <= k < |h| && Mutates(h[k].event, f))
    && ChainOf(v, f) == StepsIn(h, f)
  }

  ghost predicate ProducerTold(h: seq<Stamp>, v: DefView, id: ProducerId) {
    && (id in v.producers <==> exists k :: 0 <= k < |h| && Pushes(h[k], id))
    && (id in v.producers ==> forall k: nat :: PushedAt(h, id, k) ==> v.producers[id] == h[k].at)
  }

  predicate DeclaresIn(s: Stamp, name: string) {
    s.event.DeclareField? && s.event.field.struct_ == name
  }

  // A view says of every field, producer and struct what the history tells.
  ghost predicate Told(h: seq<Stamp>, v: DefView) {
    && (forall f :: FieldTold(h, v, f))
    && (forall id :: ProducerTold(h, v, id))
    && (forall name :: name in v.structs <==> exists k :: 0 <= k < |h| && DeclaresIn(h[k], name))
  }

  // --- One event more ---

  lemma LiveNext(h: seq<Stamp>, s: Stamp, f: Field)
    ensures Live(h + [s], f) <==> Declares(s.event, f) || (Live(h, f) && !Deletes(s.event, f))
  {
    var longer := h + [s];
    assert longer[|h|] == s && forall k :: 0 <= k < |h| ==> longer[k] == h[k];
    if k :| 0 <= k < |h| && Declares(h[k].event, f) && forall j :: k < j < |h| ==> !Deletes(h[j].event, f) {
      if !Deletes(s.event, f) {
        assert Declares(longer[k].event, f) && forall j :: k < j < |longer| ==> !Deletes(longer[j].event, f);
      }
    }
    if Declares(s.event, f) {
      assert Declares(longer[|h|].event, f);
    }
    if k :| 0 <= k < |longer| && Declares(longer[k].event, f) && forall j :: k < j < |longer| ==> !Deletes(longer[j].event, f) {
      if k < |h| {
        assert Declares(h[k].event, f) && !Deletes(longer[|h|].event, f);
        assert forall j :: k < j < |h| ==> !Deletes(longer[j].event, f);
      }
    }
  }

  lemma NextSteps(h: seq<Stamp>, s: Stamp, f: Field)
    ensures VersionIn(h + [s], f) == if Mutates(s.event, f) || (Declares(s.event, f) && !Live(h, f)) then s.at else VersionIn(h, f)
    ensures StepsIn(h + [s], f) ==
            StepsIn(h, f) + (if Mutates(s.event, f) then [VersionStep(VersionIn(h, f), s.at, s.event.up, s.event.down)] else [])
  {
    assert (h + [s])[..|h|] == h;
  }

  lemma ShapedBefore(h: seq<Stamp>, s: Stamp, f: Field, k: nat)
    ensures ShapedAt(h + [s], f, k) ==>
              if k == |h| then Declares(s.event, f) || Mutates(s.event, f)
              else ShapedAt(h, f, k) && !Declares(s.event, f) && !Mutates(s.event, f)
    ensures DeclaredAt(h + [s], f, k) ==> if k == |h| then Declares(s.event, f) else DeclaredAt(h, f, k) && !Declares(s.event, f)
  {
    var longer := h + [s];
    assert longer[|h|] == s && forall j :: 0 <= j < |h| ==> longer[j] == h[j];
  }

  // A field that lives was shaped and given an owner by some event.
  lemma {:induction false} LiveIsShaped(h: seq<Stamp>, f: Field) returns (k: nat, d: nat)
    requires Live(h, f)
    ensures ShapedAt(h, f, k) && DeclaredAt(h, f, d)
  {
    var n := |h| - 1;
    var shorter, s := h[..n], h[n];
    assert h == shorter + [s];
    LiveNext(shorter, s, f);
    if Declares(s.event, f) {
      k, d := n, n;
    } else {
      k, d := LiveIsShaped(shorter, f);
      assert forall j :: 0 <= j < n ==> shorter[j] == h[j];
      if Mutates(s.event, f) {
        k := n;
      }
    }
  }

  lemma FieldToldNext(h: seq<Stamp>, v: DefView, s: Stamp, f: Field)
    requires FieldTold(h, v, f) && Apply(v, s.event, s.at).Ok?
    ensures FieldTold(h + [s], Apply(v, s.event, s.at).value, f)
  {
    hide Live, ShapedAt, DeclaredAt, VersionIn, StepsIn;
    var w := Apply(v, s.event, s.at).value;
    LiveNext(h, s, f);
    NextSteps(h, s, f);
    MutatedNext(h, s, f);
    assert (h + [s])[|h|] == s;
    forall k: nat | f in w.fields && ShapedAt(h + [s], f, k)
      ensures k < |h + [s]| && ((h + [s])[k].event.DeclareField? || (h + [s])[k].event.MutateField?)
      ensures w.fields[f].ty == (h + [s])[k].event.ty && w.fields[f].repo == (h + [s])[k].event.repo
    {
      ShapedBefore(h, s, f, k);
      ShapedInside(h + [s], f, k);
    }
    forall k: nat | f in w.fields && DeclaredAt(h + [s], f, k)
      ensures k < |h + [s]| && (h + [s])[k].event.DeclareField?
      ensures w.fields[f].ownership == (h + [s])[k].event.ownership
    {
      ShapedBefore(h, s, f, k);
      DeclaredInside(h + [s], f, k);
    }
  }

  lemma ShapedInside(h: seq<Stamp>, f: Field, k: nat)
    requires ShapedAt(h, f, k)
    ensures k < |h| && (h[k].event.DeclareField? || h[k].event.MutateField?)
  {
  }

  lemma DeclaredInside(h: seq<Stamp>, f: Field, k: nat)
    requires DeclaredAt(h, f, k)
    ensures k < |h| && h[k].event.DeclareField?
  {
  }

  lemma MutatedNext(h: seq<Stamp>, s: Stamp, f: Field)
    ensures (exists k :: 0 <= k < |h + [s]| && Mutates((h + [s])[k].event, f)) <==>
            Mutates(s.event, f) || exists k :: 0 <= k < |h| && Mutates(h[k].event, f)
  {
    var longer := h + [s];
    assert longer[|h|] == s;
    if k :| 0 <= k < |h| && Mutates(h[k].event, f) {
      assert Mutates(longer[k].event, f);
    }
  }

  lemma ProducerToldNext(h: seq<Stamp>, v: DefView, s: Stamp, id: ProducerId)
    requires ProducerTold(h, v, id) && Apply(v, s.event, s.at).Ok?
    ensures ProducerTold(h + [s], Apply(v, s.event, s.at).value, id)
  {
    var longer := h + [s];
    assert longer[|h|] == s && forall j :: 0 <= j < |h| ==> longer[j] == h[j];
    if k :| 0 <= k < |h| && Pushes(h[k], id) {
      assert Pushes(longer[k], id);
    }
    forall k: nat | PushedAt(longer, id, k) && k < |h|
      ensures PushedAt(h, id, k) && !Pushes(s, id)
    {
      assert !Pushes(longer[|h|], id);
    }
  }

  lemma StructToldNext(h: seq<Stamp>, v: DefView, s: Stamp, name: string)
    requires name in v.structs <==> exists k :: 0 <= k < |h| && DeclaresIn(h[k], name)
    requires Apply(v, s.event, s.at).Ok?
    ensures name in Apply(v, s.event, s.at).value.structs <==> exists k :: 0 <= k < |h + [s]| && DeclaresIn((h + [s])[k], name)
  {
    var longer := h + [s];
    assert longer[|h|] == s && forall j :: 0 <= j < |h| ==> longer[j] == h[j];
    if k :| 0 <= k < |h| && DeclaresIn(h[k], name) {
      assert DeclaresIn(longer[k], name);
    }
  }

  lemma ToldNext(h: seq<Stamp>, v: DefView, s: Stamp)
    requires Told(h, v) && Apply(v, s.event, s.at).Ok?
    ensures Told(h + [s], Apply(v, s.event, s.at).value)
  {
    hide Apply, FieldTold, ProducerTold, DeclaresIn;
    forall f
      ensures FieldTold(h + [s], Apply(v, s.event, s.at).value, f)
    {
      FieldToldNext(h, v, s, f);
    }
    forall id
      ensures ProducerTold(h + [s], Apply(v, s.event, s.at).value, id)
    {
      ProducerToldNext(h, v, s, id);
    }
    forall name
      ensures name in Apply(v, s.event, s.at).value.structs <==> exists k :: 0 <= k < |h + [s]| && DeclaresIn((h + [s])[k], name)
    {
      StructToldNext(h, v, s, name);
    }
  }

  lemma {:induction false} EventsTold(h: seq<Stamp>, v: DefView, l: DefLayer, n: nat)
    requires Told(h, v) && n <= |l.events| && FoldEvents(v, l.events[..n], l.id).Ok?
    ensures Told(h + StampsOf(l)[..n], FoldEvents(v, l.events[..n], l.id).value)
  {
    hide Told, Apply;
    if n == 0 {
      assert h + StampsOf(l)[..0] == h;
    } else {
      assert l.events[..n][..n - 1] == l.events[..n - 1] && l.events[..n][n - 1] == l.events[n - 1];
      EventsTold(h, v, l, n - 1);
      ToldNext(h + StampsOf(l)[..n - 1], FoldEvents(v, l.events[..n - 1], l.id).value, StampsOf(l)[n - 1]);
      assert h + StampsOf(l)[..n] == h + StampsOf(l)[..n - 1] + [StampsOf(l)[n - 1]];
    }
  }

  lemma NothingTold()
    ensures Told([], EMPTY_VIEW)
  {
  }

  // Whatever folds says what its history tells.
  lemma {:induction false} FoldTold(layers: seq<DefLayer>)
    requires Fold(layers).Ok?
    ensures Told(History(layers), Fold(layers).value)
  {
    hide Told, Apply, FoldEvents, StampsOf;
    if layers == [] {
      NothingTold();
    } else {
      var shorter, l := layers[..|layers| - 1], layers[|layers| - 1];
      FoldTold(shorter);
      assert l.events[..|l.events|] == l.events;
      StampCount(l);
      EventsTold(History(shorter), Fold(shorter).value, l, |l.events|);
    }
  }

  lemma StampCount(l: DefLayer)
    ensures StampsOf(l)[..|l.events|] == StampsOf(l)
  {
  }

  // So a field is as its latest declaring or mutating event shaped it, with the owner its latest declaration named.
  lemma FieldIs(layers: seq<DefLayer>, f: Field) returns (shaped: nat, declared: nat)
    requires Fold(layers).Ok? && f in Fold(layers).value.fields
    ensures var h := History(layers);
            && ShapedAt(h, f, shaped) && DeclaredAt(h, f, declared)
            && Fold(layers).value.fields[f] ==
               FieldDef(h[shaped].event.ty, h[shaped].event.repo, h[declared].event.ownership, VersionIn(h, f))
  {
    FoldTold(layers);
    assert FieldTold(History(layers), Fold(layers).value, f);
    shaped, declared := LiveIsShaped(History(layers), f);
  }

  // --- Refusals ---

  predicate OfRepo(h: seq<Stamp>, f: Field, repo: RepoId) {
    exists k :: 0 <= k < |h| && ShapedAt(h, f, k) && h[k].event.repo == repo
  }

  predicate OfType(h: seq<Stamp>, f: Field, ty: string) {
    exists k :: 0 <= k < |h| && ShapedAt(h, f, k) && h[k].event.ty == ty
  }

  predicate OwnedAs(h: seq<Stamp>, f: Field, ownership: Ownership) {
    exists k :: 0 <= k < |h| && DeclaredAt(h, f, k) && h[k].event.ownership == ownership
  }

  // A field that lives is of the repo, type and owner its history gives it, and of no other.
  lemma LivesAs(h: seq<Stamp>, v: DefView, f: Field)
    requires Told(h, v) && f in v.fields
    ensures Live(h, f)
    ensures forall repo :: OfRepo(h, f, repo) <==> v.fields[f].repo == repo
    ensures forall ty :: OfType(h, f, ty) <==> v.fields[f].ty == ty
    ensures forall ownership :: OwnedAs(h, f, ownership) <==> v.fields[f].ownership == ownership
  {
    assert FieldTold(h, v, f);
    var k, d := LiveIsShaped(h, f);
  }

  // What is refused, and for which one reason, by what the history tells of the event's field.
  ghost predicate Judged(h: seq<Stamp>, e: DefEvent, r: Result<DefView, DefError>) {
    match e
    case DeclareField(f, ty, repo, ownership) =>
      if Live(h, f) && !(OfRepo(h, f, repo) && OfType(h, f, ty) && OwnedAs(h, f, ownership)) then r == Err(FieldCollision) else r.Ok?
    case MutateField(f, _, repo, _, _) =>
      if !Live(h, f) then r == Err(MissingMigration)
      else if !OfRepo(h, f, repo) then r == Err(NotDeclaringRepo)
      else if !OwnedAs(h, f, OwnedBySource) then r == Err(MigrationOnDerivedField)
      else r.Ok?
    case DeleteField(f, repo) =>
      if Live(h, f) && !OfRepo(h, f, repo) then r == Err(NotDeclaringRepo) else r.Ok?
    case PushProducer(_, _) => r.Ok?
  }

  lemma JudgedByHistory(h: seq<Stamp>, v: DefView, e: DefEvent, at: LayerId)
    requires Told(h, v)
    ensures Judged(h, e, Apply(v, e, at))
  {
    if !e.PushProducer? {
      hide Told, Live, OfRepo, OfType, OwnedAs;
      LivesWhen(h, v, e.field);
      if e.field in v.fields {
        LivesAs(h, v, e.field);
      }
    }
  }

  lemma LivesWhen(h: seq<Stamp>, v: DefView, f: Field)
    requires Told(h, v)
    ensures f in v.fields <==> Live(h, f)
  {
    assert FieldTold(h, v, f);
  }
}
