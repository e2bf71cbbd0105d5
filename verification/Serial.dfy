/** Client transactions on one branch, interleaved at will, are worth a one-at-a-time order. */
module Serial {
  // crates/borg-host/src/ops.rs, `tx_*`; crates/borg-engine/src/branch.rs, `replay`.
  import opened Core
  import opened Producers
  import opened Trunk

  type TxId = nat

  datatype Op = Get_(at: CellAt) | Set_(at: CellAt, value: Value)

  // What a transaction's branch has accumulated: the records its layers hold, those layers oldest first,
  // and the two sets its guards come from.
  datatype Work = Work(own: Store, layers: seq<seq<Write>>, recorded: set<CellAt>, written: set<CellRef>) {
    function Guards(): set<CellRef> {
      set at | at in recorded :: at.cell
    }

    // Its own branch first, then the parent as of the fork.
    function Answer(parent: Store, at: CellAt): Option<Value> {
      if at in own then Some(own[at]) else Get(parent, at)
    }

    function Observe(at: CellAt): Work {
      if at.cell in written then this else this.(recorded := recorded + {at})
    }
  }

  function Existence(at: CellAt): CellAt {
    CellAt(ExistenceOf(at.cell), UNVERSIONED)
  }

  // The layer one `set` writes: the object first where nothing shows it, then the cell.
  function LayerFor(w: Work, parent: Store, at: CellAt, value: Value): seq<Write> {
    if ExistenceOf(at.cell) != at.cell && w.Answer(parent, Existence(at)).None?
    then [Write(Existence(at), Bool(true)), Write(at, value)]
    else [Write(at, value)]
  }

  function Land(w: Work, layer: seq<Write>): Work {
    Work(w.own + WriteMap(layer), w.layers + [layer], w.recorded,
         w.written + set k | 0 <= k < |layer| :: layer[k].at.cell)
  }

  function Perform(w: Work, parent: Store, op: Op): Work {
    match op
    case Get_(at) => w.Observe(at)
    case Set_(at, value) =>
      Land(if ExistenceOf(at.cell) == at.cell then w else w.Observe(Existence(at)), LayerFor(w, parent, at, value))
  }

  const NOTHING: Work := Work(map[], [], {}, {})

  // A transaction's whole life against one view of its parent.
  function Exec(ops: seq<Op>, parent: Store): Work {
    if ops == [] then NOTHING else Perform(Exec(ops[..|ops| - 1], parent), parent, ops[|ops| - 1])
  }

  // What the k-th operation, a read, returned.
  function AnswerAt(ops: seq<Op>, parent: Store, k: nat): Option<Value>
    requires k < |ops| && ops[k].Get_?
  {
    Exec(ops[..k], parent).Answer(parent, ops[k].at)
  }

  // Which records are source data, the only ones a client writes.
  datatype Client = Client(owned: CellAt -> bool)

  // A cell as a def-view names it: a property at the version that view puts its field at, anything else
  // unversioned. Each call brings its own view.
  function Named(cell: CellRef, declared: DefVersion): CellAt {
    CellAt(cell, if cell.buffer.ObjectProp? then declared else UNVERSIONED)
  }

  // Reads go anywhere; writes go to source cells, whose objects are source too.
  predicate OpFits(c: Client, op: Op) {
    && op.at == Named(op.at.cell, op.at.version)
    && (op.Set_? ==> c.owned(op.at) && c.owned(Existence(op.at)))
  }

  predicate Fits(c: Client, ops: seq<Op>) {
    forall k :: 0 <= k < |ops| ==> OpFits(c, ops[k])
  }

  // --- What a transaction did, read off its operations alone ---

  predicate Sets(ops: seq<Op>, cell: CellRef) {
    exists k :: 0 <= k < |ops| && ops[k].Set_? && ops[k].at.cell == cell
  }

  predicate SetsRecord(ops: seq<Op>, at: CellAt) {
    exists k :: 0 <= k < |ops| && ops[k].Set_? && ops[k].at == at
  }

  // Read, at whatever version, before it was first set.
  predicate GetsFirst(ops: seq<Op>, cell: CellRef) {
    exists k :: 0 <= k < |ops| && ops[k].Get_? && ops[k].at.cell == cell && !Sets(ops[..k], cell)
  }

  // The k-th operation reads a cell the transaction has already set, never having read it before, and
  // reads another of its records than those it set.
  predicate Escapes(ops: seq<Op>, k: nat) {
    && k < |ops| && ops[k].Get_?
    && Sets(ops[..k], ops[k].at.cell) && !GetsFirst(ops[..k], ops[k].at.cell) && !SetsRecord(ops[..k], ops[k].at)
  }

  lemma SetsNext(ops: seq<Op>, op: Op, at: CellAt)
    ensures Sets(ops + [op], at.cell) <==> Sets(ops, at.cell) || (op.Set_? && op.at.cell == at.cell)
    ensures SetsRecord(ops + [op], at) <==> SetsRecord(ops, at) || (op.Set_? && op.at == at)
    ensures GetsFirst(ops + [op], at.cell) <==>
              GetsFirst(ops, at.cell) || (op.Get_? && op.at.cell == at.cell && !Sets(ops, at.cell))
  {
    var longer := ops + [op];
    assert longer[|ops|] == op && longer[..|ops|] == ops;
    assert forall k :: 0 <= k < |ops| ==> longer[k] == ops[k] && longer[..k] == ops[..k];
    SetsLonger(ops, op, at);
  }

  lemma SetsLonger(ops: seq<Op>, op: Op, at: CellAt)
    ensures Sets(ops, at.cell) ==> Sets(ops + [op], at.cell)
    ensures SetsRecord(ops, at) ==> SetsRecord(ops + [op], at)
    ensures GetsFirst(ops, at.cell) ==> GetsFirst(ops + [op], at.cell)
  {
    var longer := ops + [op];
    if k :| 0 <= k < |ops| && ops[k].Set_? && ops[k].at.cell == at.cell {
      assert longer[k] == ops[k];
    }
    if k :| 0 <= k < |ops| && ops[k].Set_? && ops[k].at == at {
      assert longer[k] == ops[k];
    }
    if k :| 0 <= k < |ops| && ops[k].Get_? && ops[k].at.cell == at.cell && !Sets(ops[..k], at.cell) {
      assert longer[k] == ops[k] && longer[..k] == ops[..k];
    }
  }

  // Of a property, the branch holds exactly the records set, and the guards name it exactly where it was
  // read first. Whatever the parent shows makes no difference to either.
  ghost predicate PropAgrees(ops: seq<Op>, w: Work, at: CellAt) {
    && (at.cell in w.written <==> Sets(ops, at.cell))
    && (at in w.own <==> SetsRecord(ops, at))
    && (at.cell in w.Guards() <==> GetsFirst(ops, at.cell))
  }

  lemma {:induction false} PropFollows(ops: seq<Op>, parent: Store, at: CellAt)
    requires at.cell.buffer.ObjectProp?
    ensures PropAgrees(ops, Exec(ops, parent), at)
  {
    if ops != [] {
      var shorter, op := ops[..|ops| - 1], ops[|ops| - 1];
      assert ops == shorter + [op];
      PropFollows(shorter, parent, at);
      SetsNext(shorter, op, at);
      PropStep(shorter, Exec(shorter, parent), parent, op, at);
    }
  }

  lemma PropStep(ops: seq<Op>, w: Work, parent: Store, op: Op, at: CellAt)
    requires at.cell.buffer.ObjectProp? && PropAgrees(ops, w, at)
    ensures at.cell in Perform(w, parent, op).written <==> at.cell in w.written || (op.Set_? && op.at.cell == at.cell)
    ensures at in Perform(w, parent, op).own <==> at in w.own || (op.Set_? && op.at == at)
    ensures at.cell in Perform(w, parent, op).Guards() <==>
              at.cell in w.Guards() || (op.Get_? && op.at.cell == at.cell && at.cell !in w.written)
  {
    hide Sets, SetsRecord, GetsFirst;
    match op
    case Get_(_) =>
      ObservedGuards(w, op.at);
    case Set_(_, value) =>
      var layer := LayerFor(w, parent, op.at, value);
      ObservedGuards(w, Existence(op.at));
      WriteMapKeys(layer, at);
      assert layer[|layer| - 1].at == op.at;
  }

  lemma ObservedGuards(w: Work, at: CellAt)
    ensures w.Observe(at).Guards() == w.Guards() + (if at.cell in w.written then {} else {at.cell})
  {
  }

  // --- What a transaction shows, holds and guards, read off its operations alone ---

  function LastSet(ops: seq<Op>, at: CellAt): Option<Value> {
    if ops == [] then None
    else
      var op := ops[|ops| - 1];
      if op.Set_? && op.at == at then Some(op.value) else LastSet(ops[..|ops| - 1], at)
  }

  predicate SetsPropertyOf(op: Op, entity: CellRef) {
    op.Set_? && op.at.cell.buffer.ObjectProp? && IsObjectOf(entity, op.at.cell)
  }

  // An object the transaction creates by setting a property of it, the parent showing none.
  predicate Implied(ops: seq<Op>, parent: Store, at: CellAt) {
    at !in parent && at.version == UNVERSIONED && exists k :: 0 <= k < |ops| && SetsPropertyOf(ops[k], at.cell)
  }

  // What the transaction leaves: the last value set, and the objects it creates.
  function Left(ops: seq<Op>, parent: Store, at: CellAt): Option<Value> {
    if LastSet(ops, at).Some? then LastSet(ops, at)
    else if Implied(ops, parent, at) then Some(Bool(true))
    else None
  }

  lemma LastSetNext(ops: seq<Op>, op: Op, at: CellAt)
    ensures LastSet(ops + [op], at) == if op.Set_? && op.at == at then Some(op.value) else LastSet(ops, at)
  {
    assert (ops + [op])[..|ops|] == ops;
  }

  lemma ImpliedNext(ops: seq<Op>, op: Op, parent: Store, at: CellAt)
    ensures Implied(ops + [op], parent, at) <==>
            Implied(ops, parent, at) || (at !in parent && at.version == UNVERSIONED && SetsPropertyOf(op, at.cell))
  {
    var longer := ops + [op];
    assert longer[|ops|] == op && forall k :: 0 <= k < |ops| ==> longer[k] == ops[k];
  }

  lemma LayerHolds(w: Work, parent: Store, at: CellAt, value: Value, x: CellAt)
    ensures Get(WriteMap(LayerFor(w, parent, at, value)), x) ==
            if x == at then Some(value)
            else if at.cell.buffer.ObjectProp? && IsObjectOf(x.cell, at.cell) && x.version == UNVERSIONED && w.Answer(parent, x).None?
            then Some(Bool(true)) else None
  {
    var layer := LayerFor(w, parent, at, value);
    WriteMapKeys(layer, x);
    WriteMapLast(layer, |layer| - 1);
    WriteMapLast(layer, 0);
  }

  // The branch holds exactly that.
  lemma {:induction false} HoldsWhatIsLeft(ops: seq<Op>, parent: Store, at: CellAt)
    ensures Get(Exec(ops, parent).own, at) == Left(ops, parent, at)
  {
    if ops != [] {
      var shorter, op := ops[..|ops| - 1], ops[|ops| - 1];
      assert ops == shorter + [op];
      HoldsWhatIsLeft(shorter, parent, at);
      LastSetNext(shorter, op, at);
      ImpliedNext(shorter, op, parent, at);
      if op.Set_? {
        LayerHolds(Exec(shorter, parent), parent, op.at, op.value, at);
      }
    }
  }

  // A get is answered with the last value set, else what the parent shows, else an object the transaction created.
  lemma AnswersAre(ops: seq<Op>, parent: Store, at: CellAt)
    ensures Exec(ops, parent).Answer(parent, at) == if Left(ops, parent, at).Some? then Left(ops, parent, at) else Get(parent, at)
  {
    HoldsWhatIsLeft(ops, parent, at);
  }

  // A get looks at its cell; setting a property looks at its object.
  predicate LooksAt(op: Op, cell: CellRef) {
    (op.Get_? && op.at.cell == cell) || SetsPropertyOf(op, cell)
  }

  // Looked at before it was first set.
  predicate Guarded(ops: seq<Op>, cell: CellRef) {
    exists k :: 0 <= k < |ops| && LooksAt(ops[k], cell) && !Sets(ops[..k], cell)
  }

  lemma GuardedNext(ops: seq<Op>, op: Op, cell: CellRef)
    ensures Guarded(ops + [op], cell) <==> Guarded(ops, cell) || (LooksAt(op, cell) && !Sets(ops, cell))
    ensures Sets(ops + [op], cell) <==> Sets(ops, cell) || (op.Set_? && op.at.cell == cell)
  {
    var longer := ops + [op];
    assert longer[|ops|] == op && longer[..|ops|] == ops;
    assert forall k :: 0 <= k < |ops| ==> longer[k] == ops[k] && longer[..k] == ops[..k];
    SetsNext(ops, op, CellAt(cell, UNVERSIONED));
    if k :| 0 <= k < |ops| && LooksAt(ops[k], cell) && !Sets(ops[..k], cell) {
      assert LooksAt(longer[k], cell) && !Sets(longer[..k], cell);
    }
  }

  lemma {:induction false} GuardsFollow(ops: seq<Op>, parent: Store, cell: CellRef)
    ensures var w := Exec(ops, parent);
            && (cell in w.Guards() <==> Guarded(ops, cell))
            && (Sets(ops, cell) ==> cell in w.written) && (cell in w.written ==> Sets(ops, cell) || Guarded(ops, cell))
  {
    if ops != [] {
      var shorter, op := ops[..|ops| - 1], ops[|ops| - 1];
      assert ops == shorter + [op];
      GuardsFollow(shorter, parent, cell);
      GuardedNext(shorter, op, cell);
      GuardStep(Exec(shorter, parent), parent, op, cell);
    }
  }

  lemma GuardStep(w: Work, parent: Store, op: Op, cell: CellRef)
    ensures var w' := Perform(w, parent, op);
            && (cell in w'.Guards() <==> cell in w.Guards() || (LooksAt(op, cell) && cell !in w.written))
            && (op.Set_? && op.at.cell == cell ==> cell in w'.written) && (cell in w.written ==> cell in w'.written)
            && (cell in w'.written ==> cell in w.written || (op.Set_? && op.at.cell == cell) || LooksAt(op, cell))
  {
    match op
    case Get_(_) =>
      ObservedGuards(w, op.at);
    case Set_(_, value) =>
      var layer := LayerFor(w, parent, op.at, value);
      ObservedGuards(w, Existence(op.at));
      assert layer[|layer| - 1].at == op.at;
  }

  // Of its property the layer of a set holds the record set and no other.
  lemma LayerSets(w: Work, parent: Store, op: Op, at: CellAt)
    requires at.cell.buffer.ObjectProp? && op.Set_?
    ensures (exists n :: 0 <= n < |LayerFor(w, parent, op.at, op.value)| && LayerFor(w, parent, op.at, op.value)[n].at == at) <==> op.at == at
  {
    var layer := LayerFor(w, parent, op.at, op.value);
    assert layer[|layer| - 1].at == op.at;
  }

  lemma LayersNext(ops: seq<Op>, op: Op, parent: Store)
    ensures var w := Exec(ops, parent);
            Exec(ops + [op], parent).layers == if op.Set_? then w.layers + [LayerFor(w, parent, op.at, op.value)] else w.layers
  {
    hide LayerFor;
    assert (ops + [op])[..|ops|] == ops;
  }

  // Of a property, the layers hold exactly the records set.
  lemma {:induction false} LayersHoldSets(ops: seq<Op>, parent: Store, at: CellAt)
    requires at.cell.buffer.ObjectProp?
    ensures InLayers(Exec(ops, parent).layers, at) <==> SetsRecord(ops, at)
  {
    hide Exec, LayerFor, InLayers, SetsRecord;
    if ops == [] {
      NoLayers(parent, at);
    } else {
      var shorter, op := ops[..|ops| - 1], ops[|ops| - 1];
      assert ops == shorter + [op];
      LayersHoldSets(shorter, parent, at);
      SetsNext(shorter, op, at);
      LayersNext(shorter, op, parent);
      if op.Set_? {
        var w := Exec(shorter, parent);
        InLayersNext(w.layers, LayerFor(w, parent, op.at, op.value), at);
        LayerSets(w, parent, op, at);
      }
    }
  }

  lemma NoLayers(parent: Store, at: CellAt)
    ensures !InLayers(Exec([], parent).layers, at) && !SetsRecord([], at)
  {
  }

  predicate InLayers(layers: seq<seq<Write>>, at: CellAt) {
    exists k, n :: 0 <= k < |layers| && 0 <= n < |layers[k]| && layers[k][n].at == at
  }

  lemma InLayersNext(layers: seq<seq<Write>>, layer: seq<Write>, at: CellAt)
    ensures InLayers(layers + [layer], at) <==> InLayers(layers, at) || exists n :: 0 <= n < |layer| && layer[n].at == at
  {
    var longer := layers + [layer];
    assert longer[|layers|] == layer && forall k :: 0 <= k < |layers| ==> longer[k] == layers[k];
    if k, n :| 0 <= k < |layers| && 0 <= n < |layers[k]| && layers[k][n].at == at {
      assert longer[k][n].at == at;
    }
    if n :| 0 <= n < |layer| && layer[n].at == at {
      assert longer[|layers|][n].at == at;
    }
  }

  // --- One transaction against two views of its parent ---

  // What a written cell with no versions is read back as is the transaction's own record.
  ghost predicate OwnHolds(w: Work) {
    forall at: CellAt :: at.cell in w.written && !at.cell.buffer.ObjectProp? && at.version == UNVERSIONED ==> at in w.own
  }

  lemma {:induction false} OwnWork(c: Client, ops: seq<Op>, parent: Store)
    requires Fits(c, ops)
    ensures OwnHolds(Exec(ops, parent))
    ensures forall at :: at in Exec(ops, parent).own ==> c.owned(at)
  {
    if ops != [] {
      var shorter, op := ops[..|ops| - 1], ops[|ops| - 1];
      OwnWork(c, shorter, parent);
      var w := Exec(shorter, parent);
      if op.Set_? {
        var layer := LayerFor(w, parent, op.at, op.value);
        assert OpFits(c, op);
        OwnStep(c, w.Observe(Existence(op.at)), layer);
        OwnStep(c, w, layer);
      }
    }
  }

  lemma OwnStep(c: Client, w: Work, layer: seq<Write>)
    requires OwnHolds(w) && forall at :: at in w.own ==> c.owned(at)
    requires forall k :: 0 <= k < |layer| ==> c.owned(layer[k].at) && layer[k].at == Named(layer[k].at.cell, layer[k].at.version)
    ensures OwnHolds(Land(w, layer)) && forall at :: at in Land(w, layer).own ==> c.owned(at)
  {
    forall at
      ensures at in WriteMap(layer) <==> exists k :: 0 <= k < |layer| && layer[k].at == at
    {
      WriteMapKeys(layer, at);
    }
    forall at: CellAt | at.cell in Land(w, layer).written && !at.cell.buffer.ObjectProp? && at.version == UNVERSIONED
      ensures at in Land(w, layer).own
    {
      if at.cell !in w.written {
        var k :| 0 <= k < |layer| && layer[k].at.cell == at.cell;
        assert layer[k].at == at;
      }
    }
  }

  // Two views of the parent that agree wherever the guards look.
  ghost predicate SameOnGuards(c: Client, guards: set<CellRef>, p: Store, q: Store) {
    forall at :: c.owned(at) && at.cell in guards ==> Get(p, at) == Get(q, at)
  }

  lemma SameObject(c: Client, w: Work, p: Store, q: Store, at: CellAt)
    requires OwnHolds(w) && !at.cell.buffer.ObjectProp? && at.version == UNVERSIONED && c.owned(at)
    requires SameOnGuards(c, w.Observe(at).Guards(), p, q)
    ensures w.Answer(p, at) == w.Answer(q, at)
  {
    ObservedGuards(w, at);
  }

  lemma GuardsGrow(w: Work, parent: Store, op: Op)
    ensures w.Guards() <= Perform(w, parent, op).Guards()
    ensures op.Get_? ==> Perform(w, parent, op) == w.Observe(op.at)
    ensures op.Set_? && ExistenceOf(op.at.cell) != op.at.cell ==>
              Perform(w, parent, op).Guards() == w.Observe(Existence(op.at)).Guards()
  {
  }

  // The guards are the whole of a transaction's dependence on its parent.
  lemma {:induction false} SameWork(c: Client, ops: seq<Op>, p: Store, q: Store)
    requires Fits(c, ops) && SameOnGuards(c, Exec(ops, p).Guards(), p, q)
    ensures Exec(ops, p) == Exec(ops, q)
  {
    if ops != [] {
      var shorter, op := ops[..|ops| - 1], ops[|ops| - 1];
      var w := Exec(shorter, p);
      GuardsGrow(w, p, op);
      SameWork(c, shorter, p, q);
      OwnWork(c, shorter, p);
      if op.Set_? && ExistenceOf(op.at.cell) != op.at.cell {
        assert OpFits(c, op);
        SameObject(c, w, p, q, Existence(op.at));
      }
    }
  }

  lemma {:induction false} GuardsOfPrefix(ops: seq<Op>, parent: Store, k: nat)
    requires k <= |ops|
    ensures Exec(ops[..k], parent).Guards() <= Exec(ops, parent).Guards()
  {
    if k == |ops| {
      assert ops[..k] == ops;
    } else {
      var shorter := ops[..|ops| - 1];
      GuardsOfPrefix(shorter, parent, k);
      assert shorter[..k] == ops[..k];
      GuardsGrow(Exec(shorter, parent), parent, ops[|ops| - 1]);
    }
  }

  lemma ExecNext(ops: seq<Op>, parent: Store, k: nat)
    requires k < |ops|
    ensures Exec(ops[..k + 1], parent) == Perform(Exec(ops[..k], parent), parent, ops[k])
  {
    assert ops[..k + 1][..k] == ops[..k];
  }

  // Every read of source data that does not escape is answered alike.
  lemma SameAnswers(c: Client, ops: seq<Op>, p: Store, q: Store, k: nat)
    requires Fits(c, ops) && SameOnGuards(c, Exec(ops, p).Guards(), p, q)
    requires k < |ops| && ops[k].Get_? && c.owned(ops[k].at) && !Escapes(ops, k)
    ensures AnswerAt(ops, p, k) == AnswerAt(ops, q, k)
  {
    hide Exec, Sets, SetsRecord, GetsFirst;
    var w, at := Exec(ops[..k], p), ops[k].at;
    GuardsOfPrefix(ops, p, k);
    SameWork(c, ops[..k], p, q);
    OwnWork(c, ops[..k], p);
    GuardsOfPrefix(ops, p, k + 1);
    ExecNext(ops, p, k);
    GuardsGrow(w, p, ops[k]);
    ObservedGuards(w, at);
    if at.cell in w.written {
      assert OpFits(c, ops[k]);
      if at.cell.buffer.ObjectProp? {
        PropFollows(ops[..k], p, at);
      }
    }
  }

  lemma {:induction false} GetsFirstSettled(ops: seq<Op>, k: nat, cell: CellRef)
    requires k <= |ops| && Sets(ops[..k], cell)
    ensures GetsFirst(ops, cell) <==> GetsFirst(ops[..k], cell)
  {
    if k == |ops| {
      assert ops[..k] == ops;
    } else {
      var shorter, op := ops[..|ops| - 1], ops[|ops| - 1];
      assert ops == shorter + [op] && shorter[..k] == ops[..k];
      GetsFirstSettled(shorter, k, cell);
      SetsPrefix(shorter, k, cell);
      SetsNext(shorter, op, CellAt(cell, UNVERSIONED));
    }
  }

  lemma SetsPrefix(ops: seq<Op>, k: nat, cell: CellRef)
    requires k <= |ops| && Sets(ops[..k], cell)
    ensures Sets(ops, cell)
  {
    var j :| 0 <= j < k && ops[..k][j].Set_? && ops[..k][j].at.cell == cell;
    assert ops[j] == ops[..k][j];
  }

  // A read that escapes is answered by a record nothing guards: two parents that agree wherever the guards
  // look give two answers.
  lemma EscapesTells(c: Client, ops: seq<Op>, k: nat) returns (p: Store, q: Store)
    requires Fits(c, ops) && Escapes(ops, k)
    ensures SameOnGuards(c, Exec(ops, p).Guards(), p, q) && AnswerAt(ops, p, k) != AnswerAt(ops, q, k)
  {
    var at := ops[k].at;
    p, q := map[at := Int(0)], map[];
    EscapesAtProperty(c, ops, k);
    GetsFirstSettled(ops, k, at.cell);
    PropFollows(ops, p, at);
    PropFollows(ops[..k], p, at);
    PropFollows(ops[..k], q, at);
  }

  // Only a property has more than one record to read.
  lemma EscapesAtProperty(c: Client, ops: seq<Op>, k: nat)
    requires Fits(c, ops) && Escapes(ops, k)
    ensures ops[k].at.cell.buffer.ObjectProp?
  {
    var at := ops[k].at;
    var j :| 0 <= j < k && ops[..k][j].Set_? && ops[..k][j].at.cell == at.cell;
    assert OpFits(c, ops[k]) && OpFits(c, ops[j]) && ops[..k][j] == ops[j];
    assert !SetsRecord(ops[..k], at) ==> ops[j].at != at;
  }

  // What the guards promise: parents that agree on them cannot be told apart.
  ghost predicate GuardsDecide(c: Client, ops: seq<Op>) {
    forall p: Store, q: Store :: SameOnGuards(c, Exec(ops, p).Guards(), p, q) ==>
      Exec(ops, p) == Exec(ops, q) && SameAnswered(c, ops, p, q)
  }

  ghost predicate SameAnswered(c: Client, ops: seq<Op>, p: Store, q: Store) {
    forall k :: 0 <= k < |ops| && ops[k].Get_? && c.owned(ops[k].at) ==> AnswerAt(ops, p, k) == AnswerAt(ops, q, k)
  }

  // They keep it exactly for the transactions in which no read of source data escapes.
  lemma GuardsDecideWhen(c: Client, ops: seq<Op>)
    requires Fits(c, ops)
    ensures GuardsDecide(c, ops) <==> forall k :: 0 <= k < |ops| && ops[k].Get_? && c.owned(ops[k].at) ==> !Escapes(ops, k)
  {
    hide Exec, Escapes, Fits, SameOnGuards;
    if forall k :: 0 <= k < |ops| && ops[k].Get_? && c.owned(ops[k].at) ==> !Escapes(ops, k) {
      forall p: Store, q: Store | SameOnGuards(c, Exec(ops, p).Guards(), p, q)
        ensures Exec(ops, p) == Exec(ops, q) && SameAnswered(c, ops, p, q)
      {
        SameWork(c, ops, p, q);
        forall k | 0 <= k < |ops| && ops[k].Get_? && c.owned(ops[k].at)
          ensures AnswerAt(ops, p, k) == AnswerAt(ops, q, k)
        {
          SameAnswers(c, ops, p, q, k);
        }
      }
    } else {
      var k :| 0 <= k < |ops| && ops[k].Get_? && c.owned(ops[k].at) && Escapes(ops, k);
      var p, q := EscapesTells(c, ops, k);
      assert !SameAnswered(c, ops, p, q);
    }
  }

  // Set a property as one view has it, read it back as another does: both parents show the object, the
  // guards are the object alone, and the parents' different records are what is read.
  lemma CrossVersionReadEscapes(c: Client, cell: CellRef, p: Store, q: Store)
    requires cell.buffer.ObjectProp? && Get(p, CellAt(cell, 2)) != Get(q, CellAt(cell, 2))
    requires CellAt(ExistenceOf(cell), UNVERSIONED) in p
    requires forall at: CellAt :: at.cell == ExistenceOf(cell) ==> Get(p, at) == Get(q, at)
    ensures var ops := [Set_(Named(cell, 1), Int(0)), Get_(Named(cell, 2))];
            && Exec(ops, p).Guards() == {ExistenceOf(cell)} && SameOnGuards(c, Exec(ops, p).Guards(), p, q)
            && AnswerAt(ops, p, 1) != AnswerAt(ops, q, 1) && Escapes(ops, 1)
  {
    var set_, get_ := Set_(Named(cell, 1), Int(0)), Get_(Named(cell, 2));
    var ops := [set_, get_];
    assert ops[..1] == [set_] && [set_][..0] == [];
    PropFollows([set_], p, get_.at);
    PropFollows([set_], q, get_.at);
    assert Sets([set_], cell) by {
      assert [set_][0] == set_;
    }
    var entity := Existence(set_.at);
    var w := NOTHING.Observe(entity);
    assert Exec([], p) == NOTHING && LayerFor(NOTHING, p, set_.at, Int(0)) == [Write(set_.at, Int(0))];
    assert Exec([set_], p) == Land(w, [Write(set_.at, Int(0))]);
    ExecNext(ops, p, 1);
    assert ops[..2] == ops;
    ObservedGuards(NOTHING, entity);
    ObservedGuards(Exec([set_], p), get_.at);
    assert cell in Exec([set_], p).written;
    assert NOTHING.Guards() == {};
  }

  // --- The parent's log ---

  // What the branch shows at or below a layer.
  function ShowsUpTo(log: seq<TrunkLayer>, bound: LayerId): Store {
    if log == [] then map[]
    else
      var last := log[|log| - 1];
      if last.id <= bound then ShowsUpTo(log[..|log| - 1], bound) + last.Records() else ShowsUpTo(log[..|log| - 1], bound)
  }

  // The newest layer at or below the bound that holds the record.
  ghost predicate IsNewest(log: seq<TrunkLayer>, bound: LayerId, at: CellAt, k: nat) {
    && k < |log| && log[k].id <= bound && at in log[k].Records()
    && (forall j :: k < j < |log| && log[j].id <= bound ==> at !in log[j].Records())
  }

  lemma {:induction false} ShowsTheNewest(log: seq<TrunkLayer>, bound: LayerId, at: CellAt, k: nat)
    requires IsNewest(log, bound, at, k)
    ensures Get(ShowsUpTo(log, bound), at) == Get(log[k].Records(), at)
  {
    hide WriteMap;
    if k < |log| - 1 {
      assert IsNewest(log[..|log| - 1], bound, at, k);
      ShowsTheNewest(log[..|log| - 1], bound, at, k);
    }
  }

  lemma {:induction false} ShowsWhatIsHeld(log: seq<TrunkLayer>, bound: LayerId, at: CellAt)
    ensures at in ShowsUpTo(log, bound) <==> exists l :: l in log && l.id <= bound && at in l.Records()
  {
    hide WriteMap;
    if log != [] {
      ShowsWhatIsHeld(log[..|log| - 1], bound, at);
      assert log == log[..|log| - 1] + [log[|log| - 1]];
    }
  }

  // The branch as of a layer, over what it inherits.
  function ParentAt(base: Store, log: seq<TrunkLayer>, bound: LayerId): Store {
    base + ShowsUpTo(log, bound)
  }

  ghost predicate TouchedCell(log: seq<TrunkLayer>, since: LayerId, cell: CellRef) {
    exists l, at :: l in log && l.author.Source? && l.id > since && at in l.Records() && at.cell == cell
  }

  // Clients write source records, producers everything else; ids only grow.
  ghost predicate LayerOk(c: Client, l: TrunkLayer) {
    forall at :: at in l.Records() ==> (l.author.Source? <==> c.owned(at))
  }

  ghost predicate LogOk(c: Client, log: seq<TrunkLayer>, next: LayerId) {
    && (forall a, b :: 0 <= a < b < |log| ==> log[a].id < log[b].id)
    && (forall l :: l in log ==> 0 < l.id < next && LayerOk(c, l))
  }

  lemma {:induction false} UntouchedSince(c: Client, log: seq<TrunkLayer>, since: LayerId, now: LayerId, at: CellAt)
    requires forall l :: l in log ==> l.id <= now && LayerOk(c, l)
    requires since <= now && c.owned(at) && !TouchedCell(log, since, at.cell)
    ensures Get(ShowsUpTo(log, since), at) == Get(ShowsUpTo(log, now), at)
  {
    if log != [] {
      var shorter, last := log[..|log| - 1], log[|log| - 1];
      assert forall l :: l in shorter ==> l in log;
      UntouchedSince(c, shorter, since, now, at);
      assert last in log && LayerOk(c, last);
    }
  }

  lemma {:induction false} LaterUnseen(log: seq<TrunkLayer>, more: seq<TrunkLayer>, bound: LayerId)
    requires forall l :: l in more ==> bound < l.id
    ensures ShowsUpTo(log + more, bound) == ShowsUpTo(log, bound)
  {
    if more == [] {
      assert log + more == log;
    } else {
      LaterUnseen(log, more[..|more| - 1], bound);
      assert (log + more)[..|log + more| - 1] == log + more[..|more| - 1];
      assert more[|more| - 1] in more;
    }
  }

  function Union(layers: seq<seq<Write>>): Store {
    if layers == [] then map[] else Union(layers[..|layers| - 1]) + WriteMap(layers[|layers| - 1])
  }

  lemma UnionNext(layers: seq<seq<Write>>, layer: seq<Write>)
    ensures Union(layers + [layer]) == Union(layers) + WriteMap(layer)
  {
    assert (layers + [layer])[..|layers|] == layers;
  }

  lemma LandedUnion(w: Work, layer: seq<Write>)
    requires w.own == Union(w.layers)
    ensures Land(w, layer).own == Union(Land(w, layer).layers)
  {
    hide Union;
    UnionNext(w.layers, layer);
  }

  lemma {:induction false} OwnIsLayers(ops: seq<Op>, parent: Store)
    ensures Exec(ops, parent).own == Union(Exec(ops, parent).layers)
  {
    hide Union, LayerFor, Land;
    if ops == [] {
      NothingUnion();
    } else {
      var op := ops[|ops| - 1];
      OwnIsLayers(ops[..|ops| - 1], parent);
      var w := Exec(ops[..|ops| - 1], parent);
      if op.Set_? {
        LandedUnion(if ExistenceOf(op.at.cell) == op.at.cell then w else w.Observe(Existence(op.at)), LayerFor(w, parent, op.at, op.value));
      }
    }
  }

  lemma NothingUnion()
    ensures NOTHING.own == Union(NOTHING.layers)
  {
  }

  // The parent's layers name the transaction's events, in order, in fresh ids.
  function Replayed(layers: seq<seq<Write>>, first: LayerId): seq<TrunkLayer> {
    seq(|layers|, k requires 0 <= k < |layers| => TrunkLayer(first + k, Source, layers[k]))
  }

  lemma {:induction false} ReplayShows(log: seq<TrunkLayer>, layers: seq<seq<Write>>, first: LayerId, bound: LayerId, at: CellAt)
    requires first + |layers| <= bound + 1 && forall l :: l in log ==> l.id <= bound
    ensures Get(ShowsUpTo(log + Replayed(layers, first), bound), at) ==
            if at in Union(layers) then Get(Union(layers), at) else Get(ShowsUpTo(log, bound), at)
  {
    hide ShowsUpTo, WriteMap;
    if layers == [] {
      assert log + Replayed(layers, first) == log;
    } else {
      var shorter := layers[..|layers| - 1];
      var last := TrunkLayer(first + |shorter|, Source, layers[|shorter|]);
      ReplayShows(log, shorter, first, bound, at);
      assert log + Replayed(layers, first) == (log + Replayed(shorter, first)) + [last];
      ShowsNext(log + Replayed(shorter, first), last, bound, at);
    }
  }

  lemma ShowsNext(log: seq<TrunkLayer>, l: TrunkLayer, bound: LayerId, at: CellAt)
    requires l.id <= bound
    ensures Get(ShowsUpTo(log + [l], bound), at) ==
            if at in l.Records() then Get(l.Records(), at) else Get(ShowsUpTo(log, bound), at)
  {
    assert (log + [l])[..|log|] == log;
  }

  // --- What has been told to clients, and the serial order it is worth ---

  datatype Told = Told(ops: seq<Op>, answers: seq<Option<Value>>)

  // Every answer is the one `parent` gives; `sourceOnly` leaves reads of derived records out, and those that
  // escape the guards.
  ghost predicate ToldBy(c: Client, t: Told, parent: Store, sourceOnly: bool) {
    && Fits(c, t.ops) && |t.answers| == |t.ops|
    && forall k :: 0 <= k < |t.ops| && t.ops[k].Get_? && (sourceOnly ==> c.owned(t.ops[k].at) && !Escapes(t.ops, k)) ==>
         t.answers[k] == AnswerAt(t.ops, parent, k)
  }

  // One transaction at a time.
  function SerialStore(base: Store, landed: seq<Told>): Store {
    if landed == [] then base
    else
      var before := SerialStore(base, landed[..|landed| - 1]);
      before + Exec(landed[|landed| - 1].ops, before).own
  }

  ghost predicate SameSources(c: Client, p: Store, q: Store) {
    forall at :: c.owned(at) ==> Get(p, at) == Get(q, at)
  }

  // Each landed transaction was told what running it alone, after those that landed before it, tells.
  ghost predicate Serializable(c: Client, base: Store, landed: seq<Told>) {
    forall n :: 0 <= n < |landed| ==> ToldBy(c, landed[n], SerialStore(base, landed[..n]), true)
  }

  // --- Commit ---

  lemma ForkToNow(c: Client, base: Store, log: seq<TrunkLayer>, next: LayerId, fork: LayerId, now: LayerId, serial: Store, guards: set<CellRef>)
    requires LogOk(c, log, next) && fork <= now && (forall l :: l in log ==> l.id <= now)
    requires forall cell :: cell in guards ==> !TouchedCell(log, fork, cell)
    requires SameSources(c, ParentAt(base, log, now), serial)
    ensures SameOnGuards(c, guards, ParentAt(base, log, fork), serial)
  {
    forall at: CellAt | c.owned(at) && at.cell in guards
      ensures Get(ParentAt(base, log, fork), at) == Get(serial, at)
    {
      UntouchedSince(c, log, fork, now, at);
      assert Get(ParentAt(base, log, now), at) == Get(serial, at);
    }
  }

  lemma CommitSerial(c: Client, base: Store, landed: seq<Told>, t: Told, parent: Store)
    requires Serializable(c, base, landed) && ToldBy(c, t, parent, false)
    requires SameOnGuards(c, Exec(t.ops, parent).Guards(), parent, SerialStore(base, landed))
    ensures Serializable(c, base, landed + [t])
    ensures Exec(t.ops, parent) == Exec(t.ops, SerialStore(base, landed))
  {
    var serial := SerialStore(base, landed);
    SameWork(c, t.ops, parent, serial);
    forall k | 0 <= k < |t.ops| && t.ops[k].Get_? && c.owned(t.ops[k].at) && !Escapes(t.ops, k)
      ensures t.answers[k] == AnswerAt(t.ops, serial, k)
    {
      SameAnswers(c, t.ops, parent, serial, k);
    }
    forall n | 0 <= n < |landed + [t]|
      ensures ToldBy(c, (landed + [t])[n], SerialStore(base, (landed + [t])[..n]), true)
    {
      assert (landed + [t])[..n] == landed[..n];
      assert landed[..|landed|] == landed;
    }
  }

  lemma CommitShowsSerial(c: Client, base: Store, log: seq<TrunkLayer>, landed: seq<Told>, t: Told, first: LayerId, now: LayerId)
    requires forall l :: l in log ==> l.id <= now
    requires SameSources(c, ParentAt(base, log, now), SerialStore(base, landed))
    requires var w := Exec(t.ops, SerialStore(base, landed)); first + |w.layers| <= now + 1
    ensures var w := Exec(t.ops, SerialStore(base, landed));
            SameSources(c, ParentAt(base, log + Replayed(w.layers, first), now), SerialStore(base, landed + [t]))
  {
    var w := Exec(t.ops, SerialStore(base, landed));
    OwnIsLayers(t.ops, SerialStore(base, landed));
    assert (landed + [t])[..|landed|] == landed;
    forall at | c.owned(at)
      ensures Get(ParentAt(base, log + Replayed(w.layers, first), now), at) == Get(SerialStore(base, landed + [t]), at)
    {
      ReplayShows(log, w.layers, first, now, at);
      assert Get(ParentAt(base, log, now), at) == Get(SerialStore(base, landed), at);
    }
  }

  // After its layers land the parent shows what the transaction leaves and is otherwise as it was.
  lemma LandedShows(base: Store, log: seq<TrunkLayer>, ops: seq<Op>, parent: Store, next: LayerId, at: CellAt)
    requires forall l :: l in log ==> l.id < next
    ensures var layers := Exec(ops, parent).layers;
            Get(ParentAt(base, log + Replayed(layers, next), next + |layers|), at) ==
            if Left(ops, parent, at).Some? then Left(ops, parent, at) else Get(ParentAt(base, log, next), at)
  {
    hide Exec, Left, ShowsUpTo, Union;
    var w := Exec(ops, parent);
    HoldsWhatIsLeft(ops, parent, at);
    OwnIsLayers(ops, parent);
    ReplayShows(log, w.layers, next, next + |w.layers|, at);
    BoundIrrelevant(log, next, next + |w.layers|);
  }

  lemma ShownStays(base: Store, log: seq<TrunkLayer>, a: LayerId, b: LayerId, at: CellAt)
    requires a <= b && at in ParentAt(base, log, a)
    ensures at in ParentAt(base, log, b)
  {
    ShowsWhatIsHeld(log, a, at);
    ShowsWhatIsHeld(log, b, at);
  }

  // Every property set has its object on the parent then.
  lemma ObjectsArePresent(base: Store, log: seq<TrunkLayer>, ops: seq<Op>, fork: LayerId, next: LayerId, k: nat, entity: CellRef)
    requires (forall l :: l in log ==> l.id < next) && fork <= next && k < |ops| && SetsPropertyOf(ops[k], entity)
    ensures var layers := Exec(ops, ParentAt(base, log, fork)).layers;
            CellAt(entity, UNVERSIONED) in ParentAt(base, log + Replayed(layers, next), next + |layers|)
  {
    hide Exec, ParentAt, LastSet, SetsPropertyOf;
    var at, parent := CellAt(entity, UNVERSIONED), ParentAt(base, log, fork);
    LandedShows(base, log, ops, parent, next, at);
    if at in parent {
      ShownStays(base, log, fork, next, at);
    } else {
      assert Implied(ops, parent, at);
    }
  }

  // The bound only matters up to the log's own top.
  lemma {:induction false} BoundIrrelevant(log: seq<TrunkLayer>, a: LayerId, b: LayerId)
    requires forall l :: l in log ==> l.id <= a && l.id <= b
    ensures ShowsUpTo(log, a) == ShowsUpTo(log, b)
  {
    if log != [] {
      BoundIrrelevant(log[..|log| - 1], a, b);
    }
  }

  datatype OpenTx = OpenTx(fork: LayerId, work: Work)

  // --- Writes to what is gone ---

  // A write whose object the parent shows deleted, by a layer above the fork.
  predicate Dangles(log: seq<TrunkLayer>, tx: OpenTx) {
    exists k, n :: 0 <= k < |tx.work.layers| && 0 <= n < |tx.work.layers[k]|
                   && ExistenceOf(tx.work.layers[k][n].at.cell) != tx.work.layers[k][n].at.cell
                   && DeletedSince(log, tx.fork, Existence(tx.work.layers[k][n].at))
  }

  // The newest layer holding the record is above the fork and deletes it.
  predicate DeletedSince(log: seq<TrunkLayer>, fork: LayerId, at: CellAt) {
    log != [] &&
    var last := log[|log| - 1];
    if at in last.Records() then last.id > fork && last.Records()[at] == Tombstone
    else DeletedSince(log[..|log| - 1], fork, at)
  }

  // Read off the log's own layers: the newest holding the record is above the fork and deletes it.
  ghost predicate GoneSince(log: seq<TrunkLayer>, fork: LayerId, at: CellAt) {
    exists k :: IsGoneAt(log, fork, at, k)
  }

  ghost predicate IsGoneAt(log: seq<TrunkLayer>, fork: LayerId, at: CellAt, k: nat) {
    && k < |log| && log[k].id > fork && Get(log[k].Records(), at) == Some(Tombstone)
    && (forall j :: k < j < |log| ==> at !in log[j].Records())
  }

  lemma GoneNext(log: seq<TrunkLayer>, l: TrunkLayer, fork: LayerId, at: CellAt)
    ensures GoneSince(log + [l], fork, at) <==>
            if at in l.Records() then l.id > fork && l.Records()[at] == Tombstone else GoneSince(log, fork, at)
  {
    hide WriteMap;
    var longer := log + [l];
    assert longer[|log|] == l && forall j :: 0 <= j < |log| ==> longer[j] == log[j];
    if k: nat :| IsGoneAt(log, fork, at, k) {
      assert at !in l.Records() ==> IsGoneAt(longer, fork, at, k);
    }
    if k: nat :| IsGoneAt(longer, fork, at, k) {
      if k < |log| {
        assert at !in longer[|log|].Records();
        assert forall j :: k < j < |log| ==> at !in longer[j].Records();
        assert IsGoneAt(log, fork, at, k);
      }
    }
    if l.id > fork && Get(l.Records(), at) == Some(Tombstone) {
      assert IsGoneAt(longer, fork, at, |log|);
    }
  }

  lemma {:induction false} DeletedIsGone(log: seq<TrunkLayer>, fork: LayerId, at: CellAt)
    ensures DeletedSince(log, fork, at) <==> GoneSince(log, fork, at)
  {
    hide WriteMap, IsGoneAt;
    if log == [] {
      NothingGone(fork, at);
    } else {
      var shorter, l := log[..|log| - 1], log[|log| - 1];
      assert log == shorter + [l];
      DeletedIsGone(shorter, fork, at);
      GoneNext(shorter, l, fork, at);
    }
  }

  lemma NothingGone(fork: LayerId, at: CellAt)
    ensures !GoneSince([], fork, at)
  {
  }

  // A transaction that sets a property of an object a later layer has deleted.
  ghost predicate SetsOnGone(log: seq<TrunkLayer>, fork: LayerId, ops: seq<Op>) {
    exists k, entity :: 0 <= k < |ops| && SetsPropertyOf(ops[k], entity) && GoneSince(log, fork, CellAt(entity, UNVERSIONED))
  }

  lemma DanglesMeans(log: seq<TrunkLayer>, tx: OpenTx, ops: seq<Op>, parent: Store)
    requires tx.work == Exec(ops, parent)
    ensures Dangles(log, tx) <==> SetsOnGone(log, tx.fork, ops)
  {
    hide Exec, GoneSince, DeletedSince;
    forall at: CellAt
      ensures DeletedSince(log, tx.fork, at) <==> GoneSince(log, tx.fork, at)
      ensures at.cell.buffer.ObjectProp? ==> (InLayers(tx.work.layers, at) <==> SetsRecord(ops, at))
    {
      DeletedIsGone(log, tx.fork, at);
      if at.cell.buffer.ObjectProp? {
        LayersHoldSets(ops, parent, at);
      }
    }
    if Dangles(log, tx) {
      var k, n :| 0 <= k < |tx.work.layers| && 0 <= n < |tx.work.layers[k]|
                  && ExistenceOf(tx.work.layers[k][n].at.cell) != tx.work.layers[k][n].at.cell
                  && DeletedSince(log, tx.fork, Existence(tx.work.layers[k][n].at));
      var at := tx.work.layers[k][n].at;
      assert InLayers(tx.work.layers, at);
      var j :| 0 <= j < |ops| && ops[j].Set_? && ops[j].at == at;
      assert SetsPropertyOf(ops[j], ExistenceOf(at.cell));
    }
    if SetsOnGone(log, tx.fork, ops) {
      var j, entity :| 0 <= j < |ops| && SetsPropertyOf(ops[j], entity) && GoneSince(log, tx.fork, CellAt(entity, UNVERSIONED));
      var at := ops[j].at;
      assert SetsRecord(ops, at) && entity == ExistenceOf(at.cell);
      var k, n :| 0 <= k < |tx.work.layers| && 0 <= n < |tx.work.layers[k]| && tx.work.layers[k][n].at == at;
      assert Existence(tx.work.layers[k][n].at) == CellAt(entity, UNVERSIONED);
    }
  }

  // --- The transaction table ---

  datatype TxError = NothingToFork | UnknownTransaction | NotOwned | GuardConflict(cell: CellRef) | DanglingWrite

  // Whoever may write a property may create its object.
  ghost predicate ClientOk(c: Client) {
    forall at :: c.owned(at) ==> c.owned(Existence(at))
  }

  ghost predicate OpenOk(c: Client, base: Store, log: seq<TrunkLayer>, next: LayerId, tx: OpenTx, t: Told) {
    && tx.fork < next
    && tx.work == Exec(t.ops, ParentAt(base, log, tx.fork))
    && ToldBy(c, t, ParentAt(base, log, tx.fork), false)
  }

  ghost predicate TableOk(c: Client, base: Store, log: seq<TrunkLayer>, next: LayerId, open: map<TxId, OpenTx>, told: map<TxId, Told>) {
    open.Keys == told.Keys && forall id :: id in open ==> OpenOk(c, base, log, next, open[id], told[id])
  }

  ghost predicate OrderOk(c: Client, base: Store, log: seq<TrunkLayer>, next: LayerId, landed: seq<Told>) {
    && LogOk(c, log, next)
    && SameSources(c, ParentAt(base, log, next), SerialStore(base, landed))
    && Serializable(c, base, landed)
  }

  lemma TellOne(c: Client, base: Store, log: seq<TrunkLayer>, next: LayerId, tx: OpenTx, t: Told, op: Op, answer: Option<Value>)
    requires OpenOk(c, base, log, next, tx, t) && OpFits(c, op)
    requires op.Get_? ==> answer == tx.work.Answer(ParentAt(base, log, tx.fork), op.at)
    ensures OpenOk(c, base, log, next, tx.(work := Perform(tx.work, ParentAt(base, log, tx.fork), op)),
                   Told(t.ops + [op], t.answers + [answer]))
  {
    var parent, ops' := ParentAt(base, log, tx.fork), t.ops + [op];
    assert ops'[..|t.ops|] == t.ops;
    forall k | 0 <= k < |ops'| && ops'[k].Get_?
      ensures (t.answers + [answer])[k] == AnswerAt(ops', parent, k)
    {
      assert ops'[..k] == t.ops[..k];
      assert t.ops[..|t.ops|] == t.ops;
    }
  }

  lemma StillOpen(c: Client, base: Store, log: seq<TrunkLayer>, more: seq<TrunkLayer>, next: LayerId, next': LayerId,
                  open: map<TxId, OpenTx>, told: map<TxId, Told>)
    requires TableOk(c, base, log, next, open, told) && next <= next'
    requires forall l :: l in more ==> l.id >= next
    ensures TableOk(c, base, log + more, next', open, told)
  {
    forall id | id in open
      ensures OpenOk(c, base, log + more, next', open[id], told[id])
    {
      LaterUnseen(log, more, open[id].fork);
    }
  }

  lemma NextMoves(c: Client, base: Store, log: seq<TrunkLayer>, next: LayerId, next': LayerId, landed: seq<Told>)
    requires OrderOk(c, base, log, next, landed) && next <= next'
    ensures OrderOk(c, base, log, next', landed)
  {
    BoundIrrelevant(log, next, next');
  }

  ghost predicate Accepts(tx: OpenTx, log: seq<TrunkLayer>) {
    forall cell :: cell in tx.work.Guards() ==> !TouchedCell(log, tx.fork, cell)
  }

  lemma {:induction false} WorkIsOwned(c: Client, ops: seq<Op>, parent: Store)
    requires Fits(c, ops)
    ensures forall k, at :: 0 <= k < |Exec(ops, parent).layers| && at in WriteMap(Exec(ops, parent).layers[k]) ==> c.owned(at)
  {
    if ops != [] {
      WorkIsOwned(c, ops[..|ops| - 1], parent);
      var w, op := Exec(ops[..|ops| - 1], parent), ops[|ops| - 1];
      if op.Set_? {
        forall at | at in WriteMap(LayerFor(w, parent, op.at, op.value))
          ensures c.owned(at)
        {
          WriteMapKeys(LayerFor(w, parent, op.at, op.value), at);
        }
      }
    }
  }

  lemma ReplayFits(c: Client, log: seq<TrunkLayer>, layers: seq<seq<Write>>, next: LayerId)
    requires LogOk(c, log, next) && next > 0
    requires forall k, at :: 0 <= k < |layers| && at in WriteMap(layers[k]) ==> c.owned(at)
    ensures LogOk(c, log + Replayed(layers, next), next + |layers|)
  {
    var whole := log + Replayed(layers, next);
    forall a, b | 0 <= a < b < |whole|
      ensures whole[a].id < whole[b].id
    {
      if a < |log| <= b {
        assert log[a] in log;
      }
    }
  }

  lemma AcceptedOrder(c: Client, base: Store, log: seq<TrunkLayer>, next: LayerId, landed: seq<Told>, tx: OpenTx, t: Told)
    requires LogOk(c, log, next) && SameSources(c, ParentAt(base, log, next), SerialStore(base, landed))
    requires Serializable(c, base, landed) && OpenOk(c, base, log, next, tx, t) && Accepts(tx, log)
    ensures Serializable(c, base, landed + [t]) && tx.work == Exec(t.ops, SerialStore(base, landed))
  {
    ForkToNow(c, base, log, next, tx.fork, next, SerialStore(base, landed), tx.work.Guards());
    CommitSerial(c, base, landed, t, ParentAt(base, log, tx.fork));
  }

  lemma HigherBound(c: Client, base: Store, log: seq<TrunkLayer>, next: LayerId, next': LayerId, serial: Store)
    requires LogOk(c, log, next) && SameSources(c, ParentAt(base, log, next), serial) && next <= next'
    ensures SameSources(c, ParentAt(base, log, next'), serial)
    ensures forall l :: l in log ==> l.id <= next'
  {
    hide SameSources;
    BoundIrrelevant(log, next, next');
  }

  lemma AcceptedShows(c: Client, base: Store, log: seq<TrunkLayer>, next: LayerId, landed: seq<Told>, t: Told, w: Work)
    requires LogOk(c, log, next) && SameSources(c, ParentAt(base, log, next), SerialStore(base, landed))
    requires w == Exec(t.ops, SerialStore(base, landed))
    ensures SameSources(c, ParentAt(base, log + Replayed(w.layers, next), next + |w.layers|), SerialStore(base, landed + [t]))
  {
    hide *;
    HigherBound(c, base, log, next, next + |w.layers|, SerialStore(base, landed));
    CommitShowsSerial(c, base, log, landed, t, next, next + |w.layers|);
  }

  // Accepting a transaction extends the serial order by it.
  lemma Accepted(c: Client, base: Store, log: seq<TrunkLayer>, next: LayerId, landed: seq<Told>, tx: OpenTx, t: Told)
    requires OrderOk(c, base, log, next, landed) && next > 0 && OpenOk(c, base, log, next, tx, t) && Accepts(tx, log)
    ensures OrderOk(c, base, log + Replayed(tx.work.layers, next), next + |tx.work.layers|, landed + [t])
  {
    hide LogOk, SameSources, Serializable, SerialStore, ParentAt, Accepts;
    AcceptedOrder(c, base, log, next, landed, tx, t);
    AcceptedShows(c, base, log, next, landed, t, tx.work);
    WorkIsOwned(c, t.ops, ParentAt(base, log, tx.fork));
    ReplayFits(c, log, tx.work.layers, next);
  }

  ghost predicate Numbered(open: map<TxId, OpenTx>, nextTx: TxId) {
    forall id :: id in open ==> id < nextTx
  }

  lemma Forget(c: Client, base: Store, log: seq<TrunkLayer>, next: LayerId, nextTx: TxId, open: map<TxId, OpenTx>,
               told: map<TxId, Told>, id: TxId)
    requires TableOk(c, base, log, next, open, told) && Numbered(open, nextTx)
    ensures TableOk(c, base, log, next, open - {id}, told - {id}) && Numbered(open - {id}, nextTx)
  {
  }

  lemma {:induction false} DerivedUnseen(c: Client, log: seq<TrunkLayer>, l: TrunkLayer, bound: LayerId, at: CellAt)
    requires l.author.Derived? && LayerOk(c, l) && c.owned(at)
    ensures Get(ShowsUpTo(log + [l], bound), at) == Get(ShowsUpTo(log, bound), at)
  {
    assert (log + [l])[..|log|] == log;
  }

  lemma DerivedSame(c: Client, base: Store, log: seq<TrunkLayer>, next: LayerId, l: TrunkLayer)
    requires l.author.Derived? && LayerOk(c, l) && LogOk(c, log, next)
    ensures SameSources(c, ParentAt(base, log, next), ParentAt(base, log + [l], next + 1))
  {
    hide LayerOk, ShowsUpTo;
    BoundIrrelevant(log, next, next + 1);
    forall at | c.owned(at)
      ensures Get(ParentAt(base, log, next), at) == Get(ParentAt(base, log + [l], next + 1), at)
    {
      DerivedUnseen(c, log, l, next + 1, at);
    }
  }

  lemma DerivedLands(c: Client, base: Store, log: seq<TrunkLayer>, next: LayerId, landed: seq<Told>, l: TrunkLayer)
    requires OrderOk(c, base, log, next, landed) && l.author.Derived? && l.id == next > 0
    requires forall k :: 0 <= k < |l.writes| ==> !c.owned(l.writes[k].at)
    ensures OrderOk(c, base, log + [l], next + 1, landed)
  {
    hide ParentAt, SerialStore, Serializable, WriteMap;
    forall at | at in l.Records()
      ensures !c.owned(at)
    {
      WriteMapKeys(l.writes, at);
    }
    assert LayerOk(c, l);
    DerivedSame(c, base, log, next, l);
  }

  // No cell looked at before it was set has been written since.
  ghost predicate Undisturbed(log: seq<TrunkLayer>, fork: LayerId, ops: seq<Op>) {
    forall cell :: Guarded(ops, cell) ==> !TouchedCell(log, fork, cell)
  }

  // The last value set of each record, an object behind each property set, and nothing else.
  ghost predicate Leaves(ops: seq<Op>, parent: Store, before: Store, after: Store) {
    && (forall at :: Get(after, at) == if Left(ops, parent, at).Some? then Left(ops, parent, at) else Get(before, at))
    && (forall k, entity :: 0 <= k < |ops| && SetsPropertyOf(ops[k], entity) ==> CellAt(entity, UNVERSIONED) in after)
  }

  lemma AcceptsMeans(tx: OpenTx, log: seq<TrunkLayer>, ops: seq<Op>, parent: Store)
    requires tx.work == Exec(ops, parent)
    ensures Accepts(tx, log) <==> Undisturbed(log, tx.fork, ops)
  {
    hide Exec, TouchedCell, Guarded;
    forall cell
      ensures cell in tx.work.Guards() <==> Guarded(ops, cell)
    {
      GuardsFollow(ops, parent, cell);
    }
  }

  // Everything that holds between operations.
  ghost predicate TableSound(c: Client, base: Store, inherited: LayerId, log: seq<TrunkLayer>, next: LayerId, nextTx: TxId,
                        open: map<TxId, OpenTx>, told: map<TxId, Told>, landed: seq<Told>)
  {
    && ClientOk(c) && inherited < next
    && OrderOk(c, base, log, next, landed)
    && TableOk(c, base, log, next, open, told)
    && Numbered(open, nextTx)
  }

  lemma OpenedIsSound(c: Client, base: Store, inherited: LayerId, log: seq<TrunkLayer>, next: LayerId, nextTx: TxId,
                      open: map<TxId, OpenTx>, told: map<TxId, Told>, landed: seq<Told>, fork: LayerId)
    requires TableSound(c, base, inherited, log, next, nextTx, open, told, landed)
    requires fork == if log == [] then inherited else log[|log| - 1].id
    ensures TableSound(c, base, inherited, log, next, nextTx + 1, open[nextTx := OpenTx(fork, NOTHING)], told[nextTx := Told([], [])], landed)
  {
    hide SameSources, Serializable, ClientOk, TableOk, OpenOk, SerialStore, ParentAt;
    if log != [] {
      assert log[|log| - 1] in log;
    }
    NewIsOk(c, base, log, next, open, told, nextTx, fork);
  }

  lemma NewIsOk(c: Client, base: Store, log: seq<TrunkLayer>, next: LayerId, open: map<TxId, OpenTx>, told: map<TxId, Told>,
                id: TxId, fork: LayerId)
    requires TableOk(c, base, log, next, open, told) && fork < next
    ensures TableOk(c, base, log, next, open[id := OpenTx(fork, NOTHING)], told[id := Told([], [])])
  {
    hide ParentAt;
    assert OpenOk(c, base, log, next, OpenTx(fork, NOTHING), Told([], []));
  }

  lemma ToldIsSound(c: Client, base: Store, inherited: LayerId, log: seq<TrunkLayer>, next: LayerId, nextTx: TxId,
                    open: map<TxId, OpenTx>, told: map<TxId, Told>, landed: seq<Told>, id: TxId, op: Op, answer: Option<Value>, next': LayerId)
    requires TableSound(c, base, inherited, log, next, nextTx, open, told, landed) && next <= next'
    requires id in open && OpFits(c, op)
    requires op.Get_? ==> answer == open[id].work.Answer(ParentAt(base, log, open[id].fork), op.at)
    ensures TableSound(c, base, inherited, log, next', nextTx,
                  open[id := open[id].(work := Perform(open[id].work, ParentAt(base, log, open[id].fork), op))],
                  told[id := Told(told[id].ops + [op], told[id].answers + [answer])], landed)
  {
    var tx := open[id];
    var tx' := tx.(work := Perform(tx.work, ParentAt(base, log, tx.fork), op));
    var t' := Told(told[id].ops + [op], told[id].answers + [answer]);
    TellOne(c, base, log, next, tx, told[id], op, answer);
    assert TableOk(c, base, log, next, open[id := tx'], told[id := t']);
    StillOpen(c, base, log, [], next, next', open[id := tx'], told[id := t']);
    assert log + [] == log;
    NextMoves(c, base, log, next, next', landed);
  }

  lemma CommittedIsSound(c: Client, base: Store, inherited: LayerId, log: seq<TrunkLayer>, next: LayerId, nextTx: TxId,
                         open: map<TxId, OpenTx>, told: map<TxId, Told>, landed: seq<Told>, id: TxId)
    requires TableSound(c, base, inherited, log, next, nextTx, open, told, landed)
    requires id in open && Accepts(open[id], log)
    ensures TableSound(c, base, inherited, log + Replayed(open[id].work.layers, next), next + |open[id].work.layers|, nextTx,
                  open - {id}, told - {id}, landed + [told[id]])
  {
    hide *;
    Parts(c, base, inherited, log, next, nextTx, open, told, landed, id);
    var more, next' := Replayed(open[id].work.layers, next), next + |open[id].work.layers|;
    Accepted(c, base, log, next, landed, open[id], told[id]);
    ReplayIds(open[id].work.layers, next);
    StillOpen(c, base, log, more, next, next', open, told);
    Forget(c, base, log + more, next', nextTx, open, told, id);
    Whole(c, base, inherited, log + more, next', nextTx, open - {id}, told - {id}, landed + [told[id]]);
  }

  lemma Parts(c: Client, base: Store, inherited: LayerId, log: seq<TrunkLayer>, next: LayerId, nextTx: TxId,
              open: map<TxId, OpenTx>, told: map<TxId, Told>, landed: seq<Told>, id: TxId)
    requires TableSound(c, base, inherited, log, next, nextTx, open, told, landed) && id in open
    ensures ClientOk(c) && inherited < next && OrderOk(c, base, log, next, landed)
    ensures TableOk(c, base, log, next, open, told) && Numbered(open, nextTx)
    ensures id in told && OpenOk(c, base, log, next, open[id], told[id])
  {
  }

  lemma Whole(c: Client, base: Store, inherited: LayerId, log: seq<TrunkLayer>, next: LayerId, nextTx: TxId,
              open: map<TxId, OpenTx>, told: map<TxId, Told>, landed: seq<Told>)
    requires ClientOk(c) && inherited < next && OrderOk(c, base, log, next, landed)
    requires TableOk(c, base, log, next, open, told) && Numbered(open, nextTx)
    ensures TableSound(c, base, inherited, log, next, nextTx, open, told, landed)
  {
  }

  lemma ReplayIds(layers: seq<seq<Write>>, first: LayerId)
    ensures forall l :: l in Replayed(layers, first) ==> l.id >= first
  {
  }

  lemma AbortedIsSound(c: Client, base: Store, inherited: LayerId, log: seq<TrunkLayer>, next: LayerId, nextTx: TxId,
                       open: map<TxId, OpenTx>, told: map<TxId, Told>, landed: seq<Told>, id: TxId)
    requires TableSound(c, base, inherited, log, next, nextTx, open, told, landed)
    ensures TableSound(c, base, inherited, log, next, nextTx, open - {id}, told - {id}, landed)
  {
    Forget(c, base, log, next, nextTx, open, told, id);
  }

  lemma DerivedIsSound(c: Client, base: Store, inherited: LayerId, log: seq<TrunkLayer>, next: LayerId, nextTx: TxId,
                       open: map<TxId, OpenTx>, told: map<TxId, Told>, landed: seq<Told>, l: TrunkLayer)
    requires TableSound(c, base, inherited, log, next, nextTx, open, told, landed)
    requires l.author.Derived? && l.id == next && forall k :: 0 <= k < |l.writes| ==> !c.owned(l.writes[k].at)
    ensures TableSound(c, base, inherited, log + [l], next + 1, nextTx, open, told, landed)
  {
    assert OrderOk(c, base, log + [l], next + 1, landed) by {
      DerivedLands(c, base, log, next, landed, l);
    }
    StillOpen(c, base, log, [l], next, next + 1, open, told);
  }

  lemma SameKeys(c: Client, base: Store, inherited: LayerId, log: seq<TrunkLayer>, next: LayerId, nextTx: TxId,
                 open: map<TxId, OpenTx>, told: map<TxId, Told>, landed: seq<Told>)
    requires TableSound(c, base, inherited, log, next, nextTx, open, told, landed)
    ensures open.Keys == told.Keys
  {
  }

  lemma NewId(c: Client, base: Store, inherited: LayerId, log: seq<TrunkLayer>, next: LayerId, nextTx: TxId,
              open: map<TxId, OpenTx>, told: map<TxId, Told>, landed: seq<Told>)
    requires TableSound(c, base, inherited, log, next, nextTx, open, told, landed)
    ensures nextTx !in open
  {
  }

  lemma NamedFits(c: Client, base: Store, inherited: LayerId, log: seq<TrunkLayer>, next: LayerId, nextTx: TxId,
                  open: map<TxId, OpenTx>, told: map<TxId, Told>, landed: seq<Told>, at: CellAt, declared: DefVersion)
    requires TableSound(c, base, inherited, log, next, nextTx, open, told, landed) && at == Named(at.cell, declared)
    ensures OpFits(c, Get_(at)) && (c.owned(at) ==> c.owned(Existence(at)))
  {
  }

  // What shows at the head is all there is.
  lemma HeadIsNow(c: Client, base: Store, inherited: LayerId, log: seq<TrunkLayer>, next: LayerId, nextTx: TxId,
                  open: map<TxId, OpenTx>, told: map<TxId, Told>, landed: seq<Told>)
    requires TableSound(c, base, inherited, log, next, nextTx, open, told, landed)
    ensures ParentAt(base, log, if log == [] then inherited else log[|log| - 1].id) == ParentAt(base, log, next)
  {
    hide ShowsUpTo;
    if log == [] {
      BoundIrrelevant(log, inherited, next);
    } else {
      var top := log[|log| - 1].id;
      forall l | l in log
        ensures l.id <= top
      {
        var k :| 0 <= k < |log| && log[k] == l;
      }
      BoundIrrelevant(log, top, next);
    }
  }

  lemma CommitDecided(c: Client, base: Store, inherited: LayerId, log: seq<TrunkLayer>, next: LayerId, nextTx: TxId,
                      open: map<TxId, OpenTx>, told: map<TxId, Told>, landed: seq<Told>, id: TxId)
    requires TableSound(c, base, inherited, log, next, nextTx, open, told, landed) && id in open && id in told
    ensures Accepts(open[id], log) <==> Undisturbed(log, open[id].fork, told[id].ops)
    ensures Dangles(log, open[id]) <==> SetsOnGone(log, open[id].fork, told[id].ops)
  {
    hide Accepts, Dangles, Undisturbed, SetsOnGone, ParentAt;
    Parts(c, base, inherited, log, next, nextTx, open, told, landed, id);
    AcceptsMeans(open[id], log, told[id].ops, ParentAt(base, log, open[id].fork));
    DanglesMeans(log, open[id], told[id].ops, ParentAt(base, log, open[id].fork));
  }

  lemma CommitLeaves(c: Client, base: Store, inherited: LayerId, log: seq<TrunkLayer>, next: LayerId, nextTx: TxId,
                     open: map<TxId, OpenTx>, told: map<TxId, Told>, landed: seq<Told>, id: TxId)
    requires TableSound(c, base, inherited, log, next, nextTx, open, told, landed) && id in open && id in told
    ensures var layers, ops, parent := open[id].work.layers, told[id].ops, ParentAt(base, log, open[id].fork);
            Leaves(ops, parent, ParentAt(base, log, next), ParentAt(base, log + Replayed(layers, next), next + |layers|))
  {
    hide Left, Exec, SetsPropertyOf, ParentAt;
    var layers, ops, parent := open[id].work.layers, told[id].ops, ParentAt(base, log, open[id].fork);
    forall at
      ensures Get(ParentAt(base, log + Replayed(layers, next), next + |layers|), at) ==
              if Left(ops, parent, at).Some? then Left(ops, parent, at) else Get(ParentAt(base, log, next), at)
    {
      LandedShows(base, log, ops, parent, next, at);
    }
    forall k, entity | 0 <= k < |ops| && SetsPropertyOf(ops[k], entity)
      ensures CellAt(entity, UNVERSIONED) in ParentAt(base, log + Replayed(layers, next), next + |layers|)
    {
      ObjectsArePresent(base, log, ops, open[id].fork, next, k, entity);
    }
  }

  // One branch and its open transactions. `told` is what each open transaction has done and been told;
  // `landed` is the accepted ones, in the order they landed.
  class Table {
    const c: Client
    const base: Store
    const inherited: LayerId
    var log: seq<TrunkLayer>
    var next: LayerId
    var nextTx: TxId
    var open: map<TxId, OpenTx>
    ghost var told: map<TxId, Told>
    ghost var landed: seq<Told>

    ghost predicate Valid()
      reads this
    {
      TableSound(c, base, inherited, log, next, nextTx, open, told, landed)
    }

    // The highest layer the branch can see: its own head, or what it inherits.
    function Head(): LayerId
      reads this
    {
      if log == [] then inherited else log[|log| - 1].id
    }

    // What the branch shows.
    ghost function Now(): Store
      reads this
    {
      ParentAt(base, log, next)
    }

    // What it showed where an open transaction forked.
    ghost function Forked(id: TxId): Store
      requires id in open
      reads this
    {
      ParentAt(base, log, open[id].fork)
    }

    constructor (c: Client, base: Store, inherited: LayerId)
      requires ClientOk(c)
      ensures Valid() && log == [] && landed == [] && open == map[]
    {
      this.c, this.base, this.inherited := c, base, inherited;
      log, next, nextTx, open, told, landed := [], inherited + 1, 0, map[], map[], [];
    }

    method Begin() returns (r: Result<TxId, TxError>)
      requires Valid()
      modifies this
      ensures Valid() && log == old(log) && landed == old(landed) && next == old(next)
      ensures r == if Head() == 0 then Err(NothingToFork) else Ok(old(nextTx))
      ensures r.Err? ==> open == old(open) && told == old(told)
      ensures r.Ok? ==> r.value !in old(open) && open == old(open)[r.value := OpenTx(Head(), NOTHING)]
                        && told == old(told)[r.value := Told([], [])]
      ensures r.Ok? ==> Forked(r.value) == Now()
    {
      hide TableSound;
      NewId(c, base, inherited, log, next, nextTx, open, told, landed);
      if Head() == 0 {
        return Err(NothingToFork);
      }
      OpenedIsSound(c, base, inherited, log, next, nextTx, open, told, landed, Head());
      HeadIsNow(c, base, inherited, log, next, nextTx, open, told, landed);
      var id := nextTx;
      nextTx := nextTx + 1;
      open, told := open[id := OpenTx(Head(), NOTHING)], told[id := Told([], [])];
      r := Ok(id);
    }

    // `declared` is where the caller's own view puts the cell's field.
    method TxGet(id: TxId, cell: CellRef, declared: DefVersion) returns (r: Result<Option<Value>, TxError>)
      requires Valid()
      modifies this
      ensures Valid() && log == old(log) && landed == old(landed) && next == old(next)
      ensures r.Err? <==> id !in old(open)
      ensures r.Err? ==> r.error == UnknownTransaction && open == old(open) && told == old(told)
      ensures r.Ok? ==>
                told == old(told)[id := Told(old(told[id]).ops + [Get_(Named(cell, declared))], old(told[id]).answers + [r.value])]
      ensures r.Ok? ==> var left := Left(old(told[id]).ops, old(Forked(id)), Named(cell, declared));
                        r.value == if left.Some? then left else Get(old(Forked(id)), Named(cell, declared))
    {
      hide TableSound, Left;
      SameKeys(c, base, inherited, log, next, nextTx, open, told, landed);
      NamedFits(c, base, inherited, log, next, nextTx, open, told, landed, Named(cell, declared), declared);
      if id !in open {
        return Err(UnknownTransaction);
      }
      var tx, at := open[id], Named(cell, declared);
      var parent := ParentAt(base, log, tx.fork);
      var answer := tx.work.Answer(parent, at);
      Parts(c, base, inherited, log, next, nextTx, open, told, landed, id);
      AnswersAre(told[id].ops, parent, at);
      ToldIsSound(c, base, inherited, log, next, nextTx, open, told, landed, id, Get_(at), answer, next);
      open := open[id := tx.(work := Perform(tx.work, parent, Get_(at)))];
      told := told[id := Told(told[id].ops + [Get_(at)], told[id].answers + [answer])];
      r := Ok(answer);
    }

    // The layer goes on the transaction's own branch: the parent is untouched, but for the id it takes.
    method TxSet(id: TxId, cell: CellRef, declared: DefVersion, value: Value) returns (r: Result<LayerId, TxError>)
      requires Valid()
      modifies this
      ensures Valid() && log == old(log) && landed == old(landed)
      ensures r.Err? <==> id !in old(open) || !c.owned(Named(cell, declared))
      ensures r.Err? ==> open == old(open) && told == old(told)
      ensures r.Ok? ==> r.value == old(next) && next == old(next) + 1
                        && told == old(told)[id := Told(old(told[id]).ops + [Set_(Named(cell, declared), value)],
                                                        old(told[id]).answers + [None])]
    {
      hide TableSound;
      SameKeys(c, base, inherited, log, next, nextTx, open, told, landed);
      NamedFits(c, base, inherited, log, next, nextTx, open, told, landed, Named(cell, declared), declared);
      if id !in open {
        return Err(UnknownTransaction);
      }
      var tx, at := open[id], Named(cell, declared);
      if !c.owned(at) {
        return Err(NotOwned);
      }
      var parent := ParentAt(base, log, tx.fork);
      ToldIsSound(c, base, inherited, log, next, nextTx, open, told, landed, id, Set_(at, value), None, next + 1);
      open := open[id := tx.(work := Perform(tx.work, parent, Set_(at, value)))];
      told := told[id := Told(told[id].ops + [Set_(at, value)], told[id].answers + [None])];
      r := Ok(next);
      next := next + 1;
    }

    // All or nothing. A rejected transaction stays open, and nothing of it reaches the parent.
    method TxCommit(id: TxId) returns (r: Result<LayerId, TxError>)
      requires Valid()
      modifies this
      ensures Valid()
      ensures r.Err? ==> log == old(log) && landed == old(landed) && open == old(open) && told == old(told)
      ensures r.Ok? <==> id in old(open) && Accepts(old(open[id]), old(log)) && !Dangles(old(log), old(open[id]))
      ensures r == Err(DanglingWrite) <==> id in old(open) && Accepts(old(open[id]), old(log)) && Dangles(old(log), old(open[id]))
      ensures r == Err(UnknownTransaction) <==> id !in old(open)
      ensures id in old(open) ==>
                (r.Ok? <==> Undisturbed(old(log), old(open[id]).fork, old(told[id]).ops)
                            && !SetsOnGone(old(log), old(open[id]).fork, old(told[id]).ops))
      ensures r.Ok? ==> Leaves(old(told[id]).ops, old(Forked(id)), old(Now()), Now())
      ensures r.Ok? ==> r.value == Head()
      ensures r.Ok? ==> id in old(open) && Accepts(old(open[id]), old(log))
                        && log == old(log) + Replayed(old(open[id]).work.layers, old(next))
                        && landed == old(landed) + [old(told[id])] && open == old(open) - {id}
      ensures id in old(open) && !Accepts(old(open[id]), old(log)) ==>
                r.Err? && r.error.GuardConflict? && r.error.cell in old(open[id]).work.Guards()
    {
      hide TableSound, Leaves, Undisturbed, SetsOnGone, Accepts, Dangles, ParentAt, Replayed, TouchedCell;
      SameKeys(c, base, inherited, log, next, nextTx, open, told, landed);
      if id !in open {
        return Err(UnknownTransaction);
      }
      var tx := open[id];
      CommitDecided(c, base, inherited, log, next, nextTx, open, told, landed, id);
      var conflict := FirstConflict(log, tx);
      if conflict.Some? {
        return Err(GuardConflict(conflict.value));
      }
      if Dangles(log, tx) {
        return Err(DanglingWrite);
      }
      CommittedIsSound(c, base, inherited, log, next, nextTx, open, told, landed, id);
      CommitLeaves(c, base, inherited, log, next, nextTx, open, told, landed, id);
      open, told, landed := open - {id}, told - {id}, landed + [told[id]];
      log, next := log + Replayed(tx.work.layers, next), next + |tx.work.layers|;
      r := Ok(Head());
    }

    method TxAbort(id: TxId) returns (r: Result<(), TxError>)
      requires Valid()
      modifies this
      ensures Valid() && log == old(log) && landed == old(landed) && next == old(next)
      ensures r.Err? <==> id !in old(open)
      ensures open == old(open) - {id} && told == old(told) - {id}
    {
      hide TableSound;
      SameKeys(c, base, inherited, log, next, nextTx, open, told, landed);
      if id !in open {
        return Err(UnknownTransaction);
      }
      AbortedIsSound(c, base, inherited, log, next, nextTx, open, told, landed, id);
      open, told := open - {id}, told - {id};
      r := Ok(());
    }

    // A round lands derived records beside the transactions.
    method Derive(producer: ProducerId, reflects: LayerId, writes: seq<Write>)
      requires Valid() && forall k :: 0 <= k < |writes| ==> !c.owned(writes[k].at)
      modifies this
      ensures Valid() && landed == old(landed) && open == old(open)
      ensures log == old(log) + [TrunkLayer(old(next), Derived(producer, reflects), writes)]
    {
      hide TableSound;
      var l := TrunkLayer(next, Derived(producer, reflects), writes);
      DerivedIsSound(c, base, inherited, log, next, nextTx, open, told, landed, l);
      log, next := log + [l], next + 1;
    }
  }

  // A guard cell some client has written on the parent since the fork.
  method FirstConflict(log: seq<TrunkLayer>, tx: OpenTx) returns (r: Option<CellRef>)
    ensures r.Some? ==> r.value in tx.work.Guards() && TouchedCell(log, tx.fork, r.value)
    ensures r.None? <==> Accepts(tx, log)
  {
    var touched := set l, at | l in log && l.author.Source? && l.id > tx.fork && at in l.Records() :: at.cell;
    var conflicts := tx.work.Guards() * touched;
    assert forall cell :: TouchedCell(log, tx.fork, cell) <==> cell in touched;
    if conflicts == {} {
      assert forall cell :: cell in tx.work.Guards() && cell in touched ==> cell in conflicts;
      return None;
    }
    var cell :| cell in conflicts;
    r := Some(cell);
  }
}
