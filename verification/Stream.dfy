/** A registry as one forward-only stream of records, and back: sidecars first, then branches, then each
    committed layer with its events in full or by name (crates/borg-host/src/stream.rs, `export`, `restore`). */
module Stream {
  import opened Core
  import opened Log
  import Schema
  import C = CellText
  import P = PidText

  // --- What a store holds ---

  datatype Guard = Guard(cells: seq<CellRef>, since: LayerId)

  datatype LayerMeta = LayerMeta(id: LayerId, branch: BranchId, kind: LayerKind, author: Author,
                                 parent: Option<LayerId>, guards: seq<Guard>)

  // A committed layer: def events, or an ordered membership naming events by id.
  datatype StoredLayer = StoredLayer(meta: LayerMeta, defs: seq<Schema.DefEvent>, members: seq<EventId>)

  datatype BranchRow = BranchRow(id: BranchId, name: Option<string>, origin: Option<LayerId>)

  datatype Implementation = Implementation(id: ProducerId, name: string, source: string, command: string)

  datatype Broken = Broken(branch: BranchId, producer: ProducerId, version: nat, error: string, since: LayerId)

  // Operational state beside the store.
  datatype Sidecars = Sidecars(next: nat, txTimeout: nat, producers: seq<Implementation>, broken: seq<Broken>, paused: seq<BranchId>)

  type Events = map<EventId, Event>
  type Interned = map<Pid, seq<Byte>>

  datatype Store = Store(side: Sidecars, branches: seq<BranchRow>, layers: seq<StoredLayer>, events: Events, interned: Interned)

  // --- Records ---

  datatype GuardRow = GuardRow(cells: seq<string>, since: LayerId)

  datatype LayerRow = LayerRow(id: LayerId, branch: BranchId, kind: LayerKind, author: Author,
                               parent: Option<LayerId>, guards: seq<GuardRow>)

  datatype ValueRow = IntRow(n: int) | BoolRow(b: bool) | RefRow(pid: string) | TombstoneRow

  datatype ReadRow = ReadRow(cell: string, version: DefVersion)

  datatype DerivationRow = DerivationRow(producer: ProducerId, freshAsOf: LayerId, readSet: seq<ReadRow>)

  // No layer of its own: the block it stands in says where it was authored.
  datatype EventRow = EventRow(id: EventId, cell: string, value: ValueRow, version: DefVersion, derivation: Option<DerivationRow>)

  datatype Record =
    | Header(version: nat)
    | Allocations(next: nat)
    | TxTimeout(seconds: nat)
    | ProducerRecord(row: Implementation)
    | PoisonRecord(broken: Broken)
    | PausedRecord(paused: BranchId)
    | BranchRecord(branch: BranchRow)
    | LayerRecord(layer: LayerRow)
    | ContentRecord(pid: string, bytes: seq<Byte>)
    | DefRecord(def: Schema.DefEvent)
    | EventRecord(event: EventRow)
    | MemberRecord(member: EventId)

  const STREAM_VERSION: nat := 1

  // --- Conversions, one row each ---

  // A cell's canonical text, checked to read back as itself.
  function Spell(c: CellRef): Option<string> {
    if C.Read(C.Render(c), 0, 0) == Some(c) then Some(C.Render(c)) else None
  }

  function SpellAll(cells: seq<CellRef>): Option<seq<string>> {
    if cells == [] then Some([])
    else
      var earlier, last := SpellAll(cells[..|cells| - 1]), Spell(cells[|cells| - 1]);
      if earlier.None? || last.None? then None else Some(earlier.value + [last.value])
  }

  function ReadAll(texts: seq<string>): Option<seq<CellRef>> {
    if texts == [] then Some([])
    else
      var earlier, last := ReadAll(texts[..|texts| - 1]), C.Read(texts[|texts| - 1], 0, 0);
      if earlier.None? || last.None? then None else Some(earlier.value + [last.value])
  }

  lemma SpellReads(c: CellRef)
    requires Spell(c).Some?
    ensures C.Read(Spell(c).value, 0, 0) == Some(c)
  {
    hide C.Read, C.Render;
  }

  lemma ReadNext(texts: seq<string>, text: string)
    ensures ReadAll(texts + [text]) ==
            if ReadAll(texts).None? || C.Read(text, 0, 0).None? then None
            else Some(ReadAll(texts).value + [C.Read(text, 0, 0).value])
  {
    hide C.Read;
    assert (texts + [text])[..|texts|] == texts;
  }

  lemma SpellNext(cells: seq<CellRef>, c: CellRef)
    ensures SpellAll(cells + [c]) ==
            if SpellAll(cells).None? || Spell(c).None? then None else Some(SpellAll(cells).value + [Spell(c).value])
  {
    hide Spell;
    assert (cells + [c])[..|cells|] == cells;
  }

  lemma {:induction false} SpelledReadsBack(cells: seq<CellRef>)
    requires SpellAll(cells).Some?
    ensures ReadAll(SpellAll(cells).value) == Some(cells)
  {
    hide *;
    NothingToRead();
    if cells != [] {
      var shorter, last := cells[..|cells| - 1], cells[|cells| - 1];
      assert cells == shorter + [last];
      SpellNext(shorter, last);
      SpelledReadsBack(shorter);
      SpellReads(last);
      ReadNext(SpellAll(shorter).value, Spell(last).value);
    }
  }

  // Nothing spells as nothing.
  lemma NothingToRead()
    ensures SpellAll([]) == Some([]) && ReadAll([]) == Some([]) && ReadRows([]) == Some([]) && ReadSetOf([]) == Some([])
    ensures GuardRows([]) == Some([]) && GuardsOf([]) == Some([])
  {
  }

  function ReadRows(readSet: seq<CellAt>): Option<seq<ReadRow>> {
    if readSet == [] then Some([])
    else
      var last := readSet[|readSet| - 1];
      var earlier, text := ReadRows(readSet[..|readSet| - 1]), Spell(last.cell);
      if earlier.None? || text.None? then None else Some(earlier.value + [ReadRow(text.value, last.version)])
  }

  function ReadSetOf(rows: seq<ReadRow>): Option<seq<CellAt>> {
    if rows == [] then Some([])
    else
      var last := rows[|rows| - 1];
      var earlier, cell := ReadSetOf(rows[..|rows| - 1]), C.Read(last.cell, 0, 0);
      if earlier.None? || cell.None? then None else Some(earlier.value + [CellAt(cell.value, last.version)])
  }

  lemma ReadSetNext(rows: seq<ReadRow>, row: ReadRow)
    ensures ReadSetOf(rows + [row]) ==
            if ReadSetOf(rows).None? || C.Read(row.cell, 0, 0).None? then None
            else Some(ReadSetOf(rows).value + [CellAt(C.Read(row.cell, 0, 0).value, row.version)])
  {
    hide C.Read;
    assert (rows + [row])[..|rows|] == rows;
  }

  lemma ReadRowsNext(readSet: seq<CellAt>, at: CellAt)
    ensures ReadRows(readSet + [at]) ==
            if ReadRows(readSet).None? || Spell(at.cell).None? then None
            else Some(ReadRows(readSet).value + [ReadRow(Spell(at.cell).value, at.version)])
  {
    hide Spell;
    assert (readSet + [at])[..|readSet|] == readSet;
  }

  lemma {:induction false} ReadRowsReadBack(readSet: seq<CellAt>)
    requires ReadRows(readSet).Some?
    ensures ReadSetOf(ReadRows(readSet).value) == Some(readSet)
  {
    hide *;
    NothingToRead();
    if readSet != [] {
      var shorter, last := readSet[..|readSet| - 1], readSet[|readSet| - 1];
      assert readSet == shorter + [last];
      ReadRowsNext(shorter, last);
      ReadRowsReadBack(shorter);
      SpellReads(last.cell);
      ReadSetNext(ReadRows(shorter).value, ReadRow(Spell(last.cell).value, last.version));
    }
  }

  function GuardRows(guards: seq<Guard>): Option<seq<GuardRow>> {
    if guards == [] then Some([])
    else
      var last := guards[|guards| - 1];
      var earlier, cells := GuardRows(guards[..|guards| - 1]), SpellAll(last.cells);
      if earlier.None? || cells.None? then None else Some(earlier.value + [GuardRow(cells.value, last.since)])
  }

  function GuardsOf(rows: seq<GuardRow>): Option<seq<Guard>> {
    if rows == [] then Some([])
    else
      var last := rows[|rows| - 1];
      var earlier, cells := GuardsOf(rows[..|rows| - 1]), ReadAll(last.cells);
      if earlier.None? || cells.None? then None else Some(earlier.value + [Guard(cells.value, last.since)])
  }

  lemma GuardsNext(rows: seq<GuardRow>, row: GuardRow)
    ensures GuardsOf(rows + [row]) ==
            if GuardsOf(rows).None? || ReadAll(row.cells).None? then None
            else Some(GuardsOf(rows).value + [Guard(ReadAll(row.cells).value, row.since)])
  {
    hide ReadAll;
    assert (rows + [row])[..|rows|] == rows;
  }

  lemma GuardRowsNext(guards: seq<Guard>, g: Guard)
    ensures GuardRows(guards + [g]) ==
            if GuardRows(guards).None? || SpellAll(g.cells).None? then None
            else Some(GuardRows(guards).value + [GuardRow(SpellAll(g.cells).value, g.since)])
  {
    hide SpellAll;
    assert (guards + [g])[..|guards|] == guards;
  }

  lemma {:induction false} GuardRowsReadBack(guards: seq<Guard>)
    requires GuardRows(guards).Some?
    ensures GuardsOf(GuardRows(guards).value) == Some(guards)
  {
    hide *;
    NothingToRead();
    if guards != [] {
      var shorter, last := guards[..|guards| - 1], guards[|guards| - 1];
      assert guards == shorter + [last];
      GuardRowsNext(shorter, last);
      GuardRowsReadBack(shorter);
      SpelledReadsBack(last.cells);
      GuardsNext(GuardRows(shorter).value, GuardRow(SpellAll(last.cells).value, last.since));
    }
  }

  function ValueRowOf(v: Value): ValueRow {
    match v
    case Int(n) => IntRow(n)
    case Bool(b) => BoolRow(b)
    case Ref(pid) => RefRow(P.Render(pid))
    case Tombstone => TombstoneRow
  }

  function ValueOf(row: ValueRow): Option<Value> {
    match row
    case IntRow(n) => Some(Int(n))
    case BoolRow(b) => Some(Bool(b))
    case RefRow(text) => if P.Parse(text).None? then None else Some(Ref(P.Parse(text).value))
    case TombstoneRow => Some(Tombstone)
  }

  function RowOf(e: Event): Option<EventRow> {
    var cell := Spell(e.at.cell);
    if cell.None? then None
    else if e.derivation.None? then Some(EventRow(e.id, cell.value, ValueRowOf(e.value), e.at.version, None))
    else
      var d, rows := e.derivation.value, ReadRows(e.derivation.value.readSet);
      if rows.None? then None
      else Some(EventRow(e.id, cell.value, ValueRowOf(e.value), e.at.version,
                         Some(DerivationRow(d.producer, d.freshAsOf, rows.value))))
  }

  // `layer` is the block the row stands in.
  function EventOf(row: EventRow, layer: LayerId): Option<Event> {
    var cell, value := C.Read(row.cell, 0, 0), ValueOf(row.value);
    if cell.None? || value.None? then None
    else if row.derivation.None? then Some(Event(row.id, CellAt(cell.value, row.version), value.value, None, layer))
    else
      var d, readSet := row.derivation.value, ReadSetOf(row.derivation.value.readSet);
      if readSet.None? then None
      else Some(Event(row.id, CellAt(cell.value, row.version), value.value,
                      Some(Derivation(d.producer, d.freshAsOf, readSet.value)), layer))
  }

  predicate EventOk(e: Event) {
    e.value.Ref? ==> P.WellFormed(e.value.pid)
  }

  lemma EventReadsBack(e: Event)
    requires EventOk(e) && RowOf(e).Some?
    ensures EventOf(RowOf(e).value, e.authored) == Some(e)
  {
    hide P.Parse, P.Render, C.Read, C.Render, Spell, ReadRows, ReadSetOf;
    if e.value.Ref? {
      P.ReadsBack(e.value.pid);
    }
    SpellReads(e.at.cell);
    if e.derivation.Some? {
      ReadRowsReadBack(e.derivation.value.readSet);
    }
  }

  function LayerRowOf(m: LayerMeta): Option<LayerRow> {
    var guards := GuardRows(m.guards);
    if guards.None? then None else Some(LayerRow(m.id, m.branch, m.kind, m.author, m.parent, guards.value))
  }

  function MetaOf(row: LayerRow): Option<LayerMeta> {
    var guards := GuardsOf(row.guards);
    if guards.None? then None else Some(LayerMeta(row.id, row.branch, row.kind, row.author, row.parent, guards.value))
  }

  function ContentPid(v: Value): Option<Pid> {
    if v.Ref? && v.pid.kind in {String, Binary, BigInt} then Some(v.pid) else None
  }

  // --- Export ---

  // The membership as records: events authored here in full, each preceded by content this layer has not
  // yet carried; events authored elsewhere by name.
  function MemberRecords(s: Store, layer: LayerId, members: seq<EventId>, seen: set<Pid>): Option<seq<Record>> {
    if members == [] then Some([])
    else if members[0] !in s.events then None
    else
      var e := s.events[members[0]];
      if e.authored != layer then Prefixed([MemberRecord(e.id)], MemberRecords(s, layer, members[1..], seen))
      else if RowOf(e).None? then None
      else
        var pid := ContentPid(e.value);
        var content := if pid.Some? && pid.value !in seen && pid.value in s.interned
                       then [ContentRecord(P.Render(pid.value), s.interned[pid.value])] else [];
        Prefixed(content + [EventRecord(RowOf(e).value)],
                 MemberRecords(s, layer, members[1..], if pid.Some? then seen + {pid.value} else seen))
  }

  function Prefixed(first: seq<Record>, rest: Option<seq<Record>>): Option<seq<Record>> {
    if rest.None? then None else Some(first + rest.value)
  }

  function DefRecords(defs: seq<Schema.DefEvent>): seq<Record> {
    seq(|defs|, k requires 0 <= k < |defs| => DefRecord(defs[k]))
  }

  function LayerRecords(s: Store, l: StoredLayer): Option<seq<Record>> {
    var row := LayerRowOf(l.meta);
    if row.None? then None
    else Prefixed([LayerRecord(row.value)],
                  if l.meta.kind == DefLayer then Some(DefRecords(l.defs)) else MemberRecords(s, l.meta.id, l.members, {}))
  }

  // Committed layers in ascending id.
  function AllLayerRecords(s: Store, n: nat): Option<seq<Record>>
    requires n <= |s.layers|
  {
    if n == 0 then Some([])
    else
      var earlier, last := AllLayerRecords(s, n - 1), LayerRecords(s, s.layers[n - 1]);
      if earlier.None? || last.None? then None else Some(earlier.value + last.value)
  }

  function ProducerRecords(rows: seq<Implementation>): seq<Record> {
    seq(|rows|, k requires 0 <= k < |rows| => ProducerRecord(rows[k]))
  }

  function PoisonRecords(rows: seq<Broken>): seq<Record> {
    seq(|rows|, k requires 0 <= k < |rows| => PoisonRecord(rows[k]))
  }

  function PausedRecords(rows: seq<BranchId>): seq<Record> {
    seq(|rows|, k requires 0 <= k < |rows| => PausedRecord(rows[k]))
  }

  function BranchRecords(rows: seq<BranchRow>): seq<Record> {
    seq(|rows|, k requires 0 <= k < |rows| => BranchRecord(rows[k]))
  }

  // What the head of the stream carries: the sidecars, everything without a natural order sorted.
  function HeadRecords(side: Sidecars, branches: seq<BranchRow>): seq<Record> {
    [Allocations(side.next), TxTimeout(side.txTimeout)]
    + ProducerRecords(side.producers)
    + PoisonRecords(side.broken)
    + PausedRecords(side.paused)
    + BranchRecords(branches)
  }

  function Export(s: Store): Option<seq<Record>> {
    Prefixed([Header(STREAM_VERSION)] + HeadRecords(InOrder(s.side), s.branches), AllLayerRecords(s, |s.layers|))
  }

  // --- Sorting the sidecars ---

  function Insert<T>(row: T, rows: seq<T>, key: T -> nat): seq<T> {
    if rows == [] then [row]
    else if key(rows[|rows| - 1]) <= key(row) then rows + [row]
    else Insert(row, rows[..|rows| - 1], key) + [rows[|rows| - 1]]
  }

  // A stable sort.
  function Sorted<T>(rows: seq<T>, key: T -> nat): seq<T> {
    if rows == [] then [] else Insert(rows[|rows| - 1], Sorted(rows[..|rows| - 1], key), key)
  }

  ghost predicate Ordered<T>(rows: seq<T>, key: T -> nat) {
    forall a, b :: 0 <= a < b < |rows| ==> key(rows[a]) <= key(rows[b])
  }

  lemma {:induction false} InsertPermutes<T>(row: T, rows: seq<T>, key: T -> nat)
    ensures multiset(Insert(row, rows, key)) == multiset(rows) + multiset{row}
  {
    if rows != [] {
      var shorter, last := rows[..|rows| - 1], rows[|rows| - 1];
      assert rows == shorter + [last];
      if key(last) > key(row) {
        InsertPermutes(row, shorter, key);
      }
    }
  }

  lemma {:induction false} InsertBelow<T>(row: T, rows: seq<T>, key: T -> nat, top: nat)
    requires key(row) <= top && forall k :: 0 <= k < |rows| ==> key(rows[k]) <= top
    ensures forall k :: 0 <= k < |Insert(row, rows, key)| ==> key(Insert(row, rows, key)[k]) <= top
  {
    if rows != [] && key(rows[|rows| - 1]) > key(row) {
      InsertBelow(row, rows[..|rows| - 1], key, top);
    }
  }

  lemma {:induction false} InsertOrders<T>(row: T, rows: seq<T>, key: T -> nat)
    requires Ordered(rows, key)
    ensures Ordered(Insert(row, rows, key), key)
  {
    if rows != [] && key(rows[|rows| - 1]) > key(row) {
      var shorter, last := rows[..|rows| - 1], rows[|rows| - 1];
      InsertOrders(row, shorter, key);
      InsertBelow(row, shorter, key, key(last));
    }
  }

  lemma NothingIsOrdered<T>(key: T -> nat)
    ensures Ordered([], key)
  {
  }

  lemma {:induction false} SortedOrders<T>(rows: seq<T>, key: T -> nat)
    ensures Ordered(Sorted(rows, key), key) && multiset(Sorted(rows, key)) == multiset(rows)
  {
    hide Insert, Ordered;
    NothingIsOrdered(key);
    if rows != [] {
      SortedOrders(rows[..|rows| - 1], key);
      InsertOrders(rows[|rows| - 1], Sorted(rows[..|rows| - 1], key), key);
      InsertPermutes(rows[|rows| - 1], Sorted(rows[..|rows| - 1], key), key);
      assert rows == rows[..|rows| - 1] + [rows[|rows| - 1]];
    }
  }

  // Sorting what is in order changes nothing.
  lemma {:induction false} SortedAgain<T>(rows: seq<T>, key: T -> nat)
    requires Ordered(rows, key)
    ensures Sorted(rows, key) == rows
  {
    if rows != [] {
      var shorter := rows[..|rows| - 1];
      assert Ordered(shorter, key);
      SortedAgain(shorter, key);
      assert shorter == [] || key(shorter[|shorter| - 1]) <= key(rows[|rows| - 1]);
      assert rows == shorter + [rows[|rows| - 1]];
    }
  }

  // Adjacent repeats of a sorted list.
  function Dedup(rows: seq<BranchId>): seq<BranchId> {
    if |rows| <= 1 then rows
    else if rows[|rows| - 2] == rows[|rows| - 1] then Dedup(rows[..|rows| - 1])
    else Dedup(rows[..|rows| - 1]) + [rows[|rows| - 1]]
  }

  ghost predicate Rising(rows: seq<BranchId>) {
    forall a, b :: 0 <= a < b < |rows| ==> rows[a] < rows[b]
  }

  lemma {:induction false} DedupRises(rows: seq<BranchId>)
    requires Ordered(rows, (b: BranchId) => b)
    ensures Rising(Dedup(rows)) && forall b :: b in Dedup(rows) <==> b in rows
    ensures rows != [] ==> Dedup(rows) != [] && Dedup(rows)[|Dedup(rows)| - 1] == rows[|rows| - 1]
  {
    hide Dedup, Rising, Ordered;
    if |rows| <= 1 {
      DedupShort(rows);
    } else {
      var shorter, last := rows[..|rows| - 1], rows[|rows| - 1];
      assert rows == shorter + [last];
      OrderedBefore(shorter, last);
      DedupRises(shorter);
      DedupNext(shorter, last);
      if shorter[|shorter| - 1] != last {
        RisingNext(Dedup(shorter), last);
      }
    }
  }

  lemma DedupShort(rows: seq<BranchId>)
    requires |rows| <= 1
    ensures Dedup(rows) == rows && Rising(rows)
  {
  }

  lemma DedupNext(shorter: seq<BranchId>, last: BranchId)
    requires shorter != []
    ensures Dedup(shorter + [last]) == if shorter[|shorter| - 1] == last then Dedup(shorter) else Dedup(shorter) + [last]
  {
    assert (shorter + [last])[..|shorter|] == shorter;
  }

  lemma RisingNext(rows: seq<BranchId>, last: BranchId)
    requires Rising(rows) && rows != [] && rows[|rows| - 1] < last
    ensures Rising(rows + [last])
  {
  }

  lemma OrderedBefore(shorter: seq<BranchId>, last: BranchId)
    requires Ordered(shorter + [last], (b: BranchId) => b) && shorter != []
    ensures Ordered(shorter, (b: BranchId) => b) && shorter[|shorter| - 1] <= last
  {
    var rows, key := shorter + [last], (b: BranchId) => b;
    assert key(rows[|shorter| - 1]) <= key(rows[|shorter|]);
    forall a, b | 0 <= a < b < |shorter|
      ensures key(shorter[a]) <= key(shorter[b])
    {
      assert key(rows[a]) <= key(rows[b]);
    }
  }

  lemma {:induction false} DedupAgain(rows: seq<BranchId>)
    requires Rising(rows)
    ensures Dedup(rows) == rows
  {
    if |rows| > 1 {
      DedupAgain(rows[..|rows| - 1]);
      assert rows == rows[..|rows| - 1] + [rows[|rows| - 1]];
    }
  }

  const ID_LIMIT: nat := 0x1_0000_0000_0000_0000

  function ProducerKey(row: Implementation): nat {
    row.id
  }

  // Branch first, then producer: ids are below 2^64.
  function BrokenKey(row: Broken): nat {
    row.branch * ID_LIMIT + row.producer % ID_LIMIT
  }

  function InOrder(side: Sidecars): Sidecars {
    Sidecars(side.next, side.txTimeout, Sorted(side.producers, ProducerKey), Sorted(side.broken, BrokenKey),
             Dedup(Sorted(side.paused, (b: BranchId) => b)))
  }

  lemma InOrderAgain(side: Sidecars)
    ensures InOrder(InOrder(side)) == InOrder(side)
  {
    var key := (b: BranchId) => b;
    SortedOrders(side.producers, ProducerKey);
    SortedAgain(Sorted(side.producers, ProducerKey), ProducerKey);
    SortedOrders(side.broken, BrokenKey);
    SortedAgain(Sorted(side.broken, BrokenKey), BrokenKey);
    SortedOrders(side.paused, key);
    var paused := Dedup(Sorted(side.paused, key));
    DedupRises(Sorted(side.paused, key));
    assert Ordered(paused, key);
    SortedAgain(paused, key);
    DedupAgain(paused);
  }

  // --- Restore ---

  // The layer being filled, and the events authored in it so far; they are stored when it closes.
  datatype Block = Block(meta: LayerMeta, defs: seq<Schema.DefEvent>, members: seq<EventId>, authored: Events)

  datatype Restoring = Restoring(side: Sidecars, branches: seq<BranchRow>, layers: seq<StoredLayer>, events: Events,
                                 interned: Interned, open: Option<Block>)

  const FRESH: Restoring := Restoring(Sidecars(0, 0, [], [], []), [], [], map[], map[], None)

  function LayerKey(l: StoredLayer): nat {
    l.meta.id
  }

  // Seal and commit whatever is open. The store lists layers by id.
  function Close(st: Restoring): Restoring {
    if st.open.None? then st
    else
      var b := st.open.value;
      st.(layers := Insert(StoredLayer(b.meta, b.defs, b.members), st.layers, LayerKey), events := st.events + b.authored, open := None)
  }

  // The store lists branches by id; a second row for one replaces the first.
  function PutBranch(rows: seq<BranchRow>, row: BranchRow): seq<BranchRow> {
    if rows == [] then [row]
    else
      var earlier, last := rows[..|rows| - 1], rows[|rows| - 1];
      if last.id < row.id then rows + [row]
      else if last.id == row.id then earlier + [row]
      else PutBranch(earlier, row) + [last]
  }

  predicate HoldsLayer(layers: seq<StoredLayer>, id: LayerId) {
    exists k :: 0 <= k < |layers| && layers[k].meta.id == id
  }

  // `hash` is content addressing: the PID some bytes of a kind intern as.
  type Hash = (PidKind, seq<Byte>) -> Pid

  function Feed(hash: Hash, st: Restoring, r: Record): Option<Restoring> {
    match r
    case Header(_) => None
    case Allocations(next) => Some(st.(side := st.side.(next := next)))
    case TxTimeout(seconds) => Some(st.(side := st.side.(txTimeout := seconds)))
    case ProducerRecord(row) => Some(st.(side := st.side.(producers := st.side.producers + [row])))
    case PoisonRecord(row) => Some(st.(side := st.side.(broken := st.side.broken + [row])))
    case PausedRecord(branch) => Some(st.(side := st.side.(paused := st.side.paused + [branch])))
    case BranchRecord(row) => Some(st.(branches := PutBranch(st.branches, row)))
    case LayerRecord(row) =>
      var meta := MetaOf(row);
      if meta.None? || HoldsLayer(Close(st).layers, meta.value.id) then None
      else Some(Close(st).(open := Some(Block(meta.value, [], [], map[]))))
    case ContentRecord(text, bytes) =>
      var pid := P.Parse(text);
      if pid.None? || hash(pid.value.kind, bytes) != pid.value then None
      else Some(st.(interned := st.interned[pid.value := bytes]))
    case DefRecord(event) =>
      if st.open.None? || st.open.value.meta.kind != DefLayer then None
      else Some(st.(open := Some(st.open.value.(defs := st.open.value.defs + [event]))))
    case EventRecord(row) =>
      if st.open.None? || st.open.value.meta.kind != ValueLayer then None
      else
        var b := st.open.value;
        var e := EventOf(row, b.meta.id);
        if e.None? || e.value.id in st.events || e.value.id in b.authored then None
        else Some(st.(open := Some(b.(members := b.members + [e.value.id], authored := b.authored[e.value.id := e.value]))))
    case MemberRecord(id) =>
      if st.open.None? || st.open.value.meta.kind != ValueLayer then None
      else if id !in st.events && id !in st.open.value.authored then None
      else Some(st.(open := Some(st.open.value.(members := st.open.value.members + [id]))))
  }

  function FeedAll(hash: Hash, st: Restoring, records: seq<Record>): Option<Restoring>
    decreases |records|
  {
    if records == [] then Some(st)
    else
      var next := Feed(hash, st, records[0]);
      if next.None? then None else FeedAll(hash, next.value, records[1..])
  }

  function Restore(hash: Hash, records: seq<Record>): Option<Store> {
    if records == [] || records[0] != Header(STREAM_VERSION) then None
    else
      var st := FeedAll(hash, FRESH, records[1..]);
      if st.None? then None
      else var done := Close(st.value); Some(Store(done.side, done.branches, done.layers, done.events, done.interned))
  }

  lemma {:induction false} FeedAppend(hash: Hash, st: Restoring, a: seq<Record>, b: seq<Record>)
    ensures FeedAll(hash, st, a + b) ==
            if FeedAll(hash, st, a).None? then None else FeedAll(hash, FeedAll(hash, st, a).value, b)
    decreases |a|
  {
    if a == [] {
      assert a + b == b;
    } else {
      assert (a + b)[0] == a[0] && (a + b)[1..] == a[1..] + b;
      if Feed(hash, st, a[0]).Some? {
        FeedAppend(hash, Feed(hash, st, a[0]).value, a[1..], b);
      }
    }
  }

  lemma FeedOne(hash: Hash, st: Restoring, r: Record)
    ensures FeedAll(hash, st, [r]) == Feed(hash, st, r)
  {
    hide Feed;
    if Feed(hash, st, r).Some? {
      assert [r][1..] == [];
    }
  }

  // --- What a well-kept store satisfies ---

  // Every event a layer names was authored in it, or in an earlier committed layer that names it too.
  ghost predicate Backwards(s: Store, n: nat)
    requires n < |s.layers|
  {
    forall m :: m in s.layers[n].members ==>
      && m in s.events && s.events[m].id == m && EventOk(s.events[m])
      && (s.events[m].authored == s.layers[n].meta.id || m in OwnBefore(s, n))
  }

  // The events authored in the layer, among those it names.
  function Own(s: Store, layer: LayerId, members: seq<EventId>): Events {
    map m | m in members && m in s.events && s.events[m].authored == layer :: s.events[m]
  }

  function OwnBefore(s: Store, n: nat): Events
    requires n <= |s.layers|
  {
    if n == 0 then map[] else OwnBefore(s, n - 1) + Own(s, s.layers[n - 1].meta.id, s.layers[n - 1].members)
  }

  // The content those events refer to, where the store holds it.
  function Content(s: Store, layer: LayerId, members: seq<EventId>): Interned {
    map m | m in members && m in s.events && s.events[m].authored == layer && ContentPid(s.events[m].value).Some?
            && ContentPid(s.events[m].value).value in s.interned
      :: ContentPid(s.events[m].value).value := s.interned[ContentPid(s.events[m].value).value]
  }

  function ContentBefore(s: Store, n: nat): Interned
    requires n <= |s.layers|
  {
    if n == 0 then map[] else ContentBefore(s, n - 1) + Content(s, s.layers[n - 1].meta.id, s.layers[n - 1].members)
  }

  // A layer authors an event once.
  ghost predicate Unmet(s: Store, layer: LayerId, authored: Events, members: seq<EventId>) {
    forall k :: 0 <= k < |members| && members[k] in s.events && s.events[members[k]].authored == layer ==>
      members[k] !in authored && forall j :: k < j < |members| ==> members[j] != members[k]
  }

  ghost predicate Ascending(s: Store) {
    && (forall a, b :: 0 <= a < b < |s.layers| ==> s.layers[a].meta.id < s.layers[b].meta.id)
    && (forall a, b :: 0 <= a < b < |s.branches| ==> s.branches[a].id < s.branches[b].id)
  }

  ghost predicate StoreOk(hash: Hash, s: Store) {
    && Ascending(s)
    && (forall n :: 0 <= n < |s.layers| ==> Unmet(s, s.layers[n].meta.id, map[], s.layers[n].members))
    && (forall n :: 0 <= n < |s.layers| ==> Backwards(s, n))
    && (forall n :: 0 <= n < |s.layers| ==>
          if s.layers[n].meta.kind == DefLayer then s.layers[n].members == [] else s.layers[n].defs == [])
    && (forall pid :: pid in s.interned ==> P.WellFormed(pid) && hash(pid.kind, s.interned[pid]) == pid)
  }

  // What a stream of the store carries: the same log, and the content and sidecars it needs.
  function Carried(s: Store): Store {
    Store(InOrder(s.side), s.branches, s.layers, OwnBefore(s, |s.layers|), ContentBefore(s, |s.layers|))
  }

  // --- One layer's block, fed ---

  function WithMembers(s: Store, st: Restoring, members: seq<EventId>): Restoring
    requires st.open.Some?
  {
    var b := st.open.value;
    st.(open := Some(b.(members := b.members + members, authored := b.authored + Own(s, b.meta.id, members))),
        interned := st.interned + Content(s, b.meta.id, members))
  }

  // The content already carried in this block is already interned.
  ghost predicate SeenIsIn(s: Store, st: Restoring, seen: set<Pid>) {
    forall pid :: pid in seen && pid in s.interned ==> pid in st.interned && st.interned[pid] == s.interned[pid]
  }

  ghost predicate InBlock(s: Store, st: Restoring, n: nat)
    requires n < |s.layers|
  {
    && st.open.Some? && st.open.value.meta == s.layers[n].meta && st.open.value.meta.kind == ValueLayer
    && st.events == OwnBefore(s, n)
  }

  ghost predicate NamesBackwards(s: Store, n: nat, m: EventId)
    requires n < |s.layers|
  {
    m in s.events && s.events[m].id == m && EventOk(s.events[m])
    && (s.events[m].authored == s.layers[n].meta.id || m in OwnBefore(s, n))
  }

  // What one membership row turns the state into.
  function WithMember(s: Store, st: Restoring, m: EventId): Restoring
    requires st.open.Some? && m in s.events
  {
    var b, e := st.open.value, s.events[m];
    var mine := e.authored == b.meta.id;
    st.(open := Some(b.(members := b.members + [m], authored := if mine then b.authored[m := e] else b.authored)),
        interned := if mine && ContentPid(e.value).Some? && ContentPid(e.value).value in s.interned
                    then st.interned[ContentPid(e.value).value := s.interned[ContentPid(e.value).value]] else st.interned)
  }

  lemma OwnCons(s: Store, layer: LayerId, m: EventId, rest: seq<EventId>)
    requires m in s.events
    ensures Own(s, layer, [m] + rest) == (if s.events[m].authored == layer then map[m := s.events[m]] else map[]) + Own(s, layer, rest)
  {
  }

  lemma ContentCons(s: Store, layer: LayerId, m: EventId, rest: seq<EventId>)
    requires m in s.events
    ensures var e := s.events[m];
            Content(s, layer, [m] + rest) ==
            (if e.authored == layer && ContentPid(e.value).Some? && ContentPid(e.value).value in s.interned
             then map[ContentPid(e.value).value := s.interned[ContentPid(e.value).value]] else map[]) + Content(s, layer, rest)
  {
    var e, whole := s.events[m], [m] + rest;
    assert whole[0] == m && forall x :: x in whole <==> x == m || x in rest;
    if e.authored == layer && ContentPid(e.value).Some? && ContentPid(e.value).value in s.interned {
      assert m in whole;
    }
  }

  lemma UpdateThenAdd<K, V>(a: map<K, V>, k: K, v: V, rest: map<K, V>)
    ensures a[k := v] + rest == a + (map[k := v] + rest)
  {
  }

  lemma AddNothing<K, V>(a: map<K, V>)
    ensures a + map[] == a && map[] + a == a
  {
  }

  lemma OwnAdds(s: Store, layer: LayerId, authored: Events, m: EventId, rest: seq<EventId>)
    requires m in s.events
    ensures (if s.events[m].authored == layer then authored[m := s.events[m]] else authored) + Own(s, layer, rest)
            == authored + Own(s, layer, [m] + rest)
  {
    OwnCons(s, layer, m, rest);
    hide Own;
    UpdateThenAdd(authored, m, s.events[m], Own(s, layer, rest));
    AddNothing(Own(s, layer, rest));
  }

  lemma ContentAdds(s: Store, layer: LayerId, interned: Interned, m: EventId, rest: seq<EventId>)
    requires m in s.events
    ensures var e := s.events[m];
            (if e.authored == layer && ContentPid(e.value).Some? && ContentPid(e.value).value in s.interned
             then interned[ContentPid(e.value).value := s.interned[ContentPid(e.value).value]] else interned)
            + Content(s, layer, rest)
            == interned + Content(s, layer, [m] + rest)
  {
    var e := s.events[m];
    ContentCons(s, layer, m, rest);
    hide Content, ContentPid;
    if e.authored == layer && ContentPid(e.value).Some? && ContentPid(e.value).value in s.interned {
      UpdateThenAdd(interned, ContentPid(e.value).value, s.interned[ContentPid(e.value).value], Content(s, layer, rest));
    }
    AddNothing(Content(s, layer, rest));
  }

  lemma MembersCons(s: Store, st: Restoring, m: EventId, rest: seq<EventId>)
    requires st.open.Some? && m in s.events
    ensures WithMembers(s, WithMember(s, st, m), rest) == WithMembers(s, st, [m] + rest)
  {
    var b := st.open.value;
    OwnAdds(s, b.meta.id, b.authored, m, rest);
    ContentAdds(s, b.meta.id, st.interned, m, rest);
    hide Own, Content, ContentPid;
    assert b.members + ([m] + rest) == (b.members + [m]) + rest;
  }

  // The records one membership row becomes.
  function RowRecords(s: Store, layer: LayerId, m: EventId, seen: set<Pid>): seq<Record>
    requires m in s.events && (s.events[m].authored == layer ==> RowOf(s.events[m]).Some?)
  {
    var e := s.events[m];
    if e.authored != layer then [MemberRecord(e.id)]
    else
      var pid := ContentPid(e.value);
      (if pid.Some? && pid.value !in seen && pid.value in s.interned
       then [ContentRecord(P.Render(pid.value), s.interned[pid.value])] else [])
      + [EventRecord(RowOf(e).value)]
  }

  lemma FeedName(hash: Hash, s: Store, n: nat, st: Restoring, m: EventId)
    requires n < |s.layers| && InBlock(s, st, n) && NamesBackwards(s, n, m)
    requires s.events[m].authored != s.layers[n].meta.id
    ensures Feed(hash, st, MemberRecord(m)) == Some(WithMember(s, st, m))
  {
    hide ContentPid, OwnBefore, EventOk;
  }

  lemma FeedEvent(hash: Hash, s: Store, n: nat, st: Restoring, m: EventId)
    requires n < |s.layers| && InBlock(s, st, n) && NamesBackwards(s, n, m)
    requires s.events[m].authored == s.layers[n].meta.id && RowOf(s.events[m]).Some?
    requires m !in st.events && m !in st.open.value.authored
    ensures Feed(hash, st, EventRecord(RowOf(s.events[m]).value)) == Some(WithMember(s, st, m).(interned := st.interned))
  {
    hide RowOf, EventOf, ContentPid, OwnBefore, EventOk, MetaOf, Close, P.Parse;
    EventReadsBack(s.events[m]);
  }

  lemma FeedContent(hash: Hash, s: Store, st: Restoring, pid: Pid)
    requires StoreOk(hash, s) && pid in s.interned
    ensures Feed(hash, st, ContentRecord(P.Render(pid), s.interned[pid])) == Some(st.(interned := st.interned[pid := s.interned[pid]]))
  {
    hide P.Parse, P.Render, StoreOk, MetaOf, EventOf, Close, PutBranch, P.WellFormed;
    Filed(hash, s, pid);
    P.ReadsBack(pid);
  }

  lemma Filed(hash: Hash, s: Store, pid: Pid)
    requires StoreOk(hash, s) && pid in s.interned
    ensures P.WellFormed(pid) && hash(pid.kind, s.interned[pid]) == pid
  {
    hide Backwards, Unmet, Ascending, P.WellFormed;
  }

  lemma FeedRow(hash: Hash, s: Store, n: nat, st: Restoring, m: EventId, seen: set<Pid>)
    requires StoreOk(hash, s) && n < |s.layers| && InBlock(s, st, n) && SeenIsIn(s, st, seen)
    requires NamesBackwards(s, n, m)
    requires s.events[m].authored == s.layers[n].meta.id ==>
               RowOf(s.events[m]).Some? && m !in st.events && m !in st.open.value.authored
    ensures FeedAll(hash, st, RowRecords(s, s.layers[n].meta.id, m, seen)) == Some(WithMember(s, st, m))
  {
    hide RowOf, StoreOk, FeedAll, Feed, EventOk, OwnBefore;
    var e, layer := s.events[m], s.layers[n].meta.id;
    if e.authored != layer {
      FeedName(hash, s, n, st, m);
      FeedOne(hash, st, MemberRecord(m));
    } else {
      var pid, event := ContentPid(e.value), EventRecord(RowOf(e).value);
      FeedEvent(hash, s, n, st, m);
      if pid.Some? && pid.value !in seen && pid.value in s.interned {
        var content := ContentRecord(P.Render(pid.value), s.interned[pid.value]);
        var after := st.(interned := st.interned[pid.value := s.interned[pid.value]]);
        FeedContent(hash, s, st, pid.value);
        FeedOne(hash, st, content);
        FeedEvent(hash, s, n, after, m);
        FeedOne(hash, after, event);
        FeedAppend(hash, st, [content], [event]);
      } else {
        assert [] + [event] == [event];
        FeedOne(hash, st, event);
        if pid.Some? && pid.value in s.interned {
          assert st.interned[pid.value := s.interned[pid.value]] == st.interned;
        }
      }
    }
  }

  // Everything authored before this layer says so.
  lemma {:induction false} AuthoredEarlier(s: Store, n: nat)
    requires Ascending(s) && n < |s.layers|
    ensures forall m :: m in OwnBefore(s, n) ==> m in s.events && s.events[m].authored < s.layers[n].meta.id
  {
    if n > 0 {
      AuthoredEarlier(s, n - 1);
    }
  }

  // The next row's event, if the layer's own, is new to the store and to the block.
  lemma NewHere(hash: Hash, s: Store, n: nat, st: Restoring, members: seq<EventId>)
    requires StoreOk(hash, s) && n < |s.layers| && InBlock(s, st, n) && members != [] && members[0] in s.events
    requires Unmet(s, s.layers[n].meta.id, st.open.value.authored, members)
    ensures s.events[members[0]].authored == s.layers[n].meta.id ==>
              members[0] !in st.events && members[0] !in st.open.value.authored
    ensures Unmet(s, s.layers[n].meta.id, WithMember(s, st, members[0]).open.value.authored, members[1..])
  {
    hide ContentPid, OwnBefore, EventOk;
    AuthoredEarlier(s, n);
    var layer, rest, authored := s.layers[n].meta.id, members[1..], WithMember(s, st, members[0]).open.value.authored;
    forall k | 0 <= k < |rest| && rest[k] in s.events && s.events[rest[k]].authored == layer
      ensures rest[k] !in authored && forall j :: k < j < |rest| ==> rest[j] != rest[k]
    {
      assert rest[k] == members[k + 1];
      assert forall j :: k < j < |rest| ==> rest[j] == members[j + 1];
    }
  }

  lemma {:induction false} FeedMembers(hash: Hash, s: Store, n: nat, st: Restoring, members: seq<EventId>, seen: set<Pid>)
    requires StoreOk(hash, s) && n < |s.layers| && st.open.Some? && InBlock(s, st, n) && SeenIsIn(s, st, seen)
    requires forall m :: m in members ==> NamesBackwards(s, n, m)
    requires Unmet(s, s.layers[n].meta.id, st.open.value.authored, members)
    requires MemberRecords(s, s.layers[n].meta.id, members, seen).Some?
    ensures FeedAll(hash, st, MemberRecords(s, s.layers[n].meta.id, members, seen).value) == Some(WithMembers(s, st, members))
    decreases |members|
  {
    hide *;
    var layer := s.layers[n].meta.id;
    if members == [] {
      NothingMore(s, st);
      NoRecords(hash, s, layer, st, seen);
      assert members == [];
    } else {
      var m, rest := members[0], members[1..];
      assert members == [m] + rest && NamesBackwards(s, n, m);
      MemberRecordsCons(s, layer, members, seen);
      var after, seen' := WithMember(s, st, m), SeenAfter(s, layer, m, seen);
      NewHere(hash, s, n, st, members);
      FeedRow(hash, s, n, st, m, seen);
      AfterRow(s, n, st, m, seen);
      assert forall x :: x in rest ==> x in members;
      FeedMembers(hash, s, n, after, rest, seen');
      FeedAppend(hash, st, RowRecords(s, layer, m, seen), MemberRecords(s, layer, rest, seen').value);
      MembersCons(s, st, m, rest);
    }
  }

  function SeenAfter(s: Store, layer: LayerId, m: EventId, seen: set<Pid>): set<Pid>
    requires m in s.events
  {
    var e := s.events[m];
    if e.authored == layer && ContentPid(e.value).Some? then seen + {ContentPid(e.value).value} else seen
  }

  lemma AfterRow(s: Store, n: nat, st: Restoring, m: EventId, seen: set<Pid>)
    requires n < |s.layers| && InBlock(s, st, n) && SeenIsIn(s, st, seen) && m in s.events
    ensures WithMember(s, st, m).open.Some? && InBlock(s, WithMember(s, st, m), n)
    ensures SeenIsIn(s, WithMember(s, st, m), SeenAfter(s, s.layers[n].meta.id, m, seen))
  {
    hide ContentPid, OwnBefore;
  }

  lemma NoRecords(hash: Hash, s: Store, layer: LayerId, st: Restoring, seen: set<Pid>)
    ensures MemberRecords(s, layer, [], seen) == Some([]) && FeedAll(hash, st, []) == Some(st)
  {
  }

  lemma NothingOwn(s: Store, layer: LayerId)
    ensures Own(s, layer, []) == map[] && Content(s, layer, []) == map[]
  {
    hide ContentPid;
    assert Own(s, layer, []).Keys == {};
    assert Content(s, layer, []).Keys == {};
  }

  lemma NothingMore(s: Store, st: Restoring)
    requires st.open.Some?
    ensures WithMembers(s, st, []) == st
  {
    var b := st.open.value;
    NothingOwn(s, b.meta.id);
    hide Own, Content;
    AddNothing(b.authored);
    AddNothing(st.interned);
    assert b.members + [] == b.members;
  }

  lemma MemberRecordsCons(s: Store, layer: LayerId, members: seq<EventId>, seen: set<Pid>)
    requires members != [] && MemberRecords(s, layer, members, seen).Some?
    ensures members[0] in s.events && (s.events[members[0]].authored == layer ==> RowOf(s.events[members[0]]).Some?)
    ensures var seen' := SeenAfter(s, layer, members[0], seen);
            && MemberRecords(s, layer, members[1..], seen').Some?
            && MemberRecords(s, layer, members, seen).value ==
               RowRecords(s, layer, members[0], seen) + MemberRecords(s, layer, members[1..], seen').value
  {
    hide RowOf, ContentPid;
  }

  // --- Whole layers, and the whole stream ---

  // What restoring the first n layers comes to, once the open block is closed.
  function Loaded(s: Store, n: nat): Restoring
    requires n <= |s.layers|
  {
    Restoring(InOrder(s.side), s.branches, s.layers[..n], OwnBefore(s, n), ContentBefore(s, n), None)
  }

  lemma MetaReadsBack(m: LayerMeta)
    requires LayerRowOf(m).Some?
    ensures MetaOf(LayerRowOf(m).value) == Some(m)
  {
    hide GuardRows, GuardsOf;
    GuardRowsReadBack(m.guards);
  }

  lemma {:induction false} FeedDefs(hash: Hash, st: Restoring, defs: seq<Schema.DefEvent>)
    requires st.open.Some? && st.open.value.meta.kind == DefLayer
    ensures FeedAll(hash, st, DefRecords(defs)) == Some(st.(open := Some(st.open.value.(defs := st.open.value.defs + defs))))
    decreases |defs|
  {
    var b := st.open.value;
    if defs == [] {
      assert b.defs + defs == b.defs && DefRecords(defs) == [];
    } else {
      var st1 := st.(open := Some(b.(defs := b.defs + [defs[0]])));
      FeedDefs(hash, st1, defs[1..]);
      assert DefRecords(defs)[1..] == DefRecords(defs[1..]);
      assert b.defs + defs == (b.defs + [defs[0]]) + defs[1..];
    }
  }

  // The block that has just been fed, and the layer it closes into.
  lemma ClosesInto(s: Store, n: nat, st: Restoring, b: Block)
    requires n < |s.layers| && s.layers[n] == StoredLayer(b.meta, b.defs, b.members)
    requires Ascending(s) && b.authored == Own(s, b.meta.id, b.members)
    requires st == Loaded(s, n).(open := Some(b), interned := ContentBefore(s, n) + Content(s, b.meta.id, b.members))
    ensures Close(st) == Loaded(s, n + 1)
  {
    hide Own, Content, InOrder;
    assert s.layers[..n + 1] == s.layers[..n] + [s.layers[n]];
    assert n > 0 ==> s.layers[..n][n - 1] == s.layers[n - 1];
    assert Insert(s.layers[n], s.layers[..n], LayerKey) == s.layers[..n + 1];
    assert OwnBefore(s, n + 1) == OwnBefore(s, n) + b.authored;
  }

  lemma FeedDefLayer(hash: Hash, s: Store, n: nat, opened_: Restoring)
    requires StoreOk(hash, s) && n < |s.layers| && s.layers[n].meta.kind == DefLayer
    requires opened_ == Loaded(s, n).(open := Some(Block(s.layers[n].meta, [], [], map[])))
    ensures var fed := FeedAll(hash, opened_, DefRecords(s.layers[n].defs));
            fed.Some? && Close(fed.value) == Loaded(s, n + 1)
  {
    var l := s.layers[n];
    FeedDefs(hash, opened_, l.defs);
    assert l.members == [];
    NothingOwn(s, l.meta.id);
    hide Own, Content, StoreOk, FeedAll;
    AddNothing(ContentBefore(s, n));
    assert [] + l.defs == l.defs;
    ClosesInto(s, n, opened_.(open := Some(Block(l.meta, l.defs, [], map[]))), Block(l.meta, l.defs, [], map[]));
  }

  lemma NamesFromBackwards(hash: Hash, s: Store, n: nat)
    requires StoreOk(hash, s) && n < |s.layers|
    ensures forall m :: m in s.layers[n].members ==> NamesBackwards(s, n, m)
    ensures s.layers[n].meta.kind == ValueLayer ==> s.layers[n].defs == []
    ensures Ascending(s) && Unmet(s, s.layers[n].meta.id, map[], s.layers[n].members)
  {
    hide OwnBefore, EventOk;
    assert Backwards(s, n);
  }

  lemma FeedValueLayer(hash: Hash, s: Store, n: nat, opened_: Restoring)
    requires StoreOk(hash, s) && n < |s.layers| && s.layers[n].meta.kind == ValueLayer
    requires opened_ == Loaded(s, n).(open := Some(Block(s.layers[n].meta, [], [], map[])))
    requires MemberRecords(s, s.layers[n].meta.id, s.layers[n].members, {}).Some?
    ensures var fed := FeedAll(hash, opened_, MemberRecords(s, s.layers[n].meta.id, s.layers[n].members, {}).value);
            fed.Some? && Close(fed.value) == Loaded(s, n + 1)
  {
    hide Own, Content, StoreOk, FeedAll, MemberRecords, OwnBefore, ContentBefore, Close;
    var l := s.layers[n];
    NamesFromBackwards(hash, s, n);
    FeedMembers(hash, s, n, opened_, l.members, {});
    AddNothing(Own(s, l.meta.id, l.members));
    assert [] + l.members == l.members;
    ClosesInto(s, n, WithMembers(s, opened_, l.members), Block(l.meta, [], l.members, Own(s, l.meta.id, l.members)));
  }

  lemma FeedLayer(hash: Hash, s: Store, n: nat, st: Restoring)
    requires StoreOk(hash, s) && n < |s.layers| && Close(st) == Loaded(s, n) && LayerRecords(s, s.layers[n]).Some?
    ensures var fed := FeedAll(hash, st, LayerRecords(s, s.layers[n]).value);
            fed.Some? && Close(fed.value) == Loaded(s, n + 1)
  {
    var l := s.layers[n];
    var row := LayerRecord(LayerRowOf(l.meta).value);
    MetaReadsBack(l.meta);
    hide LayerRowOf, MetaOf, StoreOk, OwnBefore, ContentBefore, MemberRecords, InOrder;
    var opened_ := Loaded(s, n).(open := Some(Block(l.meta, [], [], map[])));
    NamesFromBackwards(hash, s, n);
    assert forall k :: 0 <= k < n ==> s.layers[..n][k].meta.id < l.meta.id;
    assert Feed(hash, st, row) == Some(opened_);
    FeedOne(hash, st, row);
    hide Feed, FeedAll, Close, Loaded;
    if l.meta.kind == DefLayer {
      FeedDefLayer(hash, s, n, opened_);
      FeedAppend(hash, st, [row], DefRecords(l.defs));
    } else {
      FeedValueLayer(hash, s, n, opened_);
      FeedAppend(hash, st, [row], MemberRecords(s, l.meta.id, l.members, {}).value);
    }
  }

  lemma {:induction false} FeedLayers(hash: Hash, s: Store, n: nat, st: Restoring)
    requires StoreOk(hash, s) && n <= |s.layers| && st == Loaded(s, 0) && AllLayerRecords(s, n).Some?
    ensures var fed := FeedAll(hash, st, AllLayerRecords(s, n).value);
            fed.Some? && Close(fed.value) == Loaded(s, n)
  {
    hide StoreOk, Loaded, LayerRecords;
    if n == 0 {
      LoadedIsClosed(s);
    } else {
      FeedLayers(hash, s, n - 1, st);
      FeedLayer(hash, s, n - 1, FeedAll(hash, st, AllLayerRecords(s, n - 1).value).value);
      FeedAppend(hash, st, AllLayerRecords(s, n - 1).value, LayerRecords(s, s.layers[n - 1]).value);
    }
  }

  lemma LoadedIsClosed(s: Store)
    ensures Close(Loaded(s, 0)) == Loaded(s, 0)
  {
  }

  // --- The head of the stream ---

  lemma {:induction false} FeedProducers(hash: Hash, st: Restoring, rows: seq<Implementation>)
    ensures FeedAll(hash, st, ProducerRecords(rows))
            == Some(st.(side := st.side.(producers := st.side.producers + rows)))
    decreases |rows|
  {
    var records := ProducerRecords(rows);
    if rows == [] {
      assert st.side.producers + rows == st.side.producers && records == [];
    } else {
      FeedProducers(hash, st.(side := st.side.(producers := st.side.producers + [rows[0]])), rows[1..]);
      assert records[1..] == ProducerRecords(rows[1..]);
      assert st.side.producers + rows == (st.side.producers + [rows[0]]) + rows[1..];
    }
  }

  lemma {:induction false} FeedBroken(hash: Hash, st: Restoring, rows: seq<Broken>)
    ensures FeedAll(hash, st, PoisonRecords(rows))
            == Some(st.(side := st.side.(broken := st.side.broken + rows)))
    decreases |rows|
  {
    var records := PoisonRecords(rows);
    if rows == [] {
      assert st.side.broken + rows == st.side.broken && records == [];
    } else {
      FeedBroken(hash, st.(side := st.side.(broken := st.side.broken + [rows[0]])), rows[1..]);
      assert records[1..] == PoisonRecords(rows[1..]);
      assert st.side.broken + rows == (st.side.broken + [rows[0]]) + rows[1..];
    }
  }

  lemma {:induction false} FeedPaused(hash: Hash, st: Restoring, rows: seq<BranchId>)
    ensures FeedAll(hash, st, PausedRecords(rows))
            == Some(st.(side := st.side.(paused := st.side.paused + rows)))
    decreases |rows|
  {
    var records := PausedRecords(rows);
    if rows == [] {
      assert st.side.paused + rows == st.side.paused && records == [];
    } else {
      FeedPaused(hash, st.(side := st.side.(paused := st.side.paused + [rows[0]])), rows[1..]);
      assert records[1..] == PausedRecords(rows[1..]);
      assert st.side.paused + rows == (st.side.paused + [rows[0]]) + rows[1..];
    }
  }

  ghost predicate ById(rows: seq<BranchRow>) {
    forall a, b :: 0 <= a < b < |rows| ==> rows[a].id < rows[b].id
  }

  lemma {:induction false} FeedBranches(hash: Hash, st: Restoring, rows: seq<BranchRow>)
    requires ById(st.branches + rows)
    ensures FeedAll(hash, st, BranchRecords(rows))
            == Some(st.(branches := st.branches + rows))
    decreases |rows|
  {
    var records := BranchRecords(rows);
    if rows == [] {
      assert st.branches + rows == st.branches && records == [];
    } else {
      var n := |st.branches|;
      assert n > 0 ==> (st.branches + rows)[n - 1].id < (st.branches + rows)[n].id;
      assert n > 0 ==> (st.branches + rows)[n - 1] == st.branches[n - 1];
      assert (st.branches + rows)[n] == rows[0];
      assert PutBranch(st.branches, rows[0]) == st.branches + [rows[0]];
      assert st.branches + rows == (st.branches + [rows[0]]) + rows[1..];
      FeedBranches(hash, st.(branches := st.branches + [rows[0]]), rows[1..]);
      assert records[1..] == BranchRecords(rows[1..]);
    }
  }

  lemma FeedNumbers(hash: Hash, side: Sidecars)
    ensures FeedAll(hash, FRESH, [Allocations(side.next), TxTimeout(side.txTimeout)])
            == Some(FRESH.(side := Sidecars(side.next, side.txTimeout, [], [], [])))
  {
    var a, b := Allocations(side.next), TxTimeout(side.txTimeout);
    FeedOne(hash, FRESH, a);
    FeedOne(hash, Feed(hash, FRESH, a).value, b);
    FeedAppend(hash, FRESH, [a], [b]);
    assert [a] + [b] == [a, b];
  }

  lemma FeedTwo(hash: Hash, a: Restoring, first: seq<Record>, b: Restoring, after: seq<Record>, c: Restoring)
    requires FeedAll(hash, a, first) == Some(b) && FeedAll(hash, b, after) == Some(c)
    ensures FeedAll(hash, a, first + after) == Some(c)
  {
    hide *;
    FeedAppend(hash, a, first, after);
  }

  lemma FeedHead(hash: Hash, side: Sidecars, branches: seq<BranchRow>)
    requires ById(branches)
    ensures FeedAll(hash, FRESH, HeadRecords(side, branches)) == Some(FRESH.(side := side, branches := branches))
  {
    hide Feed, FeedAll;
    var numbers := [Allocations(side.next), TxTimeout(side.txTimeout)];
    var producers := ProducerRecords(side.producers);
    var broken := PoisonRecords(side.broken);
    var paused := PausedRecords(side.paused);
    var rows := BranchRecords(branches);
    var st0 := FRESH.(side := Sidecars(side.next, side.txTimeout, [], [], []));
    var st1 := st0.(side := st0.side.(producers := [] + side.producers));
    var st2 := st1.(side := st1.side.(broken := [] + side.broken));
    var st3 := st2.(side := st2.side.(paused := [] + side.paused));
    var st4 := st3.(branches := [] + branches);
    FeedNumbers(hash, side);
    FeedProducers(hash, st0, side.producers);
    FeedTwo(hash, FRESH, numbers, st0, producers, st1);
    FeedBroken(hash, st1, side.broken);
    FeedTwo(hash, FRESH, numbers + producers, st1, broken, st2);
    FeedPaused(hash, st2, side.paused);
    FeedTwo(hash, FRESH, numbers + producers + broken, st2, paused, st3);
    assert [] + branches == branches;
    FeedBranches(hash, st3, branches);
    FeedTwo(hash, FRESH, numbers + producers + broken + paused, st3, rows, st4);
    assert [] + side.producers == side.producers && [] + side.broken == side.broken;
    assert [] + side.paused == side.paused && [] + branches == branches;
    assert st4 == FRESH.(side := side, branches := branches);
  }

  // --- Out and in again ---

  // Restoring an export gives the same branches, layers, memberships, def events and lineage, with the
  // sidecars in order and the content the log refers to.
  lemma RoundTrip(hash: Hash, s: Store)
    requires StoreOk(hash, s) && Export(s).Some?
    ensures Restore(hash, Export(s).value) == Some(Carried(s))
  {
    hide Feed, FeedAll, HeadRecords, AllLayerRecords, InOrder, MetaOf;
    var n, records := |s.layers|, Export(s).value;
    var head, body := HeadRecords(InOrder(s.side), s.branches), AllLayerRecords(s, n).value;
    var st := FRESH.(side := InOrder(s.side), branches := s.branches);
    assert records == [Header(STREAM_VERSION)] + head + body;
    assert records[0] == Header(STREAM_VERSION) && records[1..] == head + body;
    FeedHead(hash, InOrder(s.side), s.branches);
    assert s.layers[..0] == [] && s.layers[..n] == s.layers;
    assert st == Loaded(s, 0);
    FeedLayers(hash, s, n, st);
    FeedAppend(hash, FRESH, head, body);
  }

  // What was gathered came from the store unchanged, and nothing gathered is lost again.
  lemma {:induction false} GatheredFromTheStore(s: Store, n: nat)
    requires n <= |s.layers|
    ensures forall m :: m in OwnBefore(s, n) ==> m in s.events && OwnBefore(s, n)[m] == s.events[m]
    ensures forall pid :: pid in ContentBefore(s, n) ==> pid in s.interned && ContentBefore(s, n)[pid] == s.interned[pid]
  {
    hide Own, Content;
    if n > 0 {
      var l := s.layers[n - 1];
      GatheredFromTheStore(s, n - 1);
      OwnFromTheStore(s, l.meta.id, l.members);
      ContentFromTheStore(s, l.meta.id, l.members);
    }
  }

  lemma OwnFromTheStore(s: Store, layer: LayerId, members: seq<EventId>)
    ensures forall m :: m in Own(s, layer, members) ==> m in s.events && Own(s, layer, members)[m] == s.events[m]
  {
  }

  lemma ContentFromTheStore(s: Store, layer: LayerId, members: seq<EventId>)
    ensures forall pid :: pid in Content(s, layer, members) ==> pid in s.interned && Content(s, layer, members)[pid] == s.interned[pid]
  {
    hide ContentPid;
  }

  lemma OwnIsGathered(s: Store, n: nat, m: EventId)
    requires n < |s.layers| && m in Own(s, s.layers[n].meta.id, s.layers[n].members)
    ensures m in OwnBefore(s, n + 1)
  {
    hide Own;
  }

  lemma {:induction false} GatheredStays(s: Store, n: nat, later: nat)
    requires n <= later <= |s.layers|
    ensures OwnBefore(s, n).Keys <= OwnBefore(s, later).Keys && ContentBefore(s, n).Keys <= ContentBefore(s, later).Keys
    decreases later - n
  {
    hide Own, Content;
    if n < later {
      GatheredStays(s, n, later - 1);
    }
  }

  // A row comes out of both stores alike.
  ghost predicate SameRow(s: Store, c: Store, layer: LayerId, m: EventId) {
    && m in s.events && m in c.events && c.events[m] == s.events[m]
    && var pid := ContentPid(s.events[m].value);
       s.events[m].authored == layer && pid.Some? ==>
         (pid.value in s.interned <==> pid.value in c.interned)
         && (pid.value in s.interned ==> c.interned[pid.value] == s.interned[pid.value])
  }

  lemma SameMember(hash: Hash, s: Store, n: nat, m: EventId)
    requires StoreOk(hash, s) && n < |s.layers| && m in s.layers[n].members
    ensures SameRow(s, Carried(s), s.layers[n].meta.id, m)
  {
    hide InOrder, StoreOk, EventOk, ContentPid;
    var N, l := |s.layers|, s.layers[n];
    NamesFromBackwards(hash, s, n);
    var e := s.events[m];
    GatheredFromTheStore(s, N);
    GatheredStays(s, n, N);
    GatheredStays(s, n + 1, N);
    if e.authored == l.meta.id {
      assert m in Own(s, l.meta.id, l.members);
      assert m in OwnBefore(s, n + 1);
      var pid := ContentPid(e.value);
      if pid.Some? && pid.value in s.interned {
        assert pid.value in Content(s, l.meta.id, l.members);
        assert pid.value in ContentBefore(s, n + 1);
      }
    }
  }

  lemma {:induction false} SameMemberRecords(s: Store, c: Store, layer: LayerId, members: seq<EventId>, seen: set<Pid>)
    requires forall m :: m in members ==> SameRow(s, c, layer, m)
    ensures MemberRecords(c, layer, members, seen) == MemberRecords(s, layer, members, seen)
    decreases |members|
  {
    hide RowOf, ContentPid, P.Render;
    if members != [] {
      assert SameRow(s, c, layer, members[0]);
      var e := s.events[members[0]];
      assert forall m :: m in members[1..] ==> m in members;
      SameMemberRecords(s, c, layer, members[1..], seen);
      if ContentPid(e.value).Some? {
        SameMemberRecords(s, c, layer, members[1..], seen + {ContentPid(e.value).value});
      }
    }
  }

  lemma {:induction false} SameLayerRecords(hash: Hash, s: Store, n: nat)
    requires StoreOk(hash, s) && n <= |s.layers|
    ensures AllLayerRecords(Carried(s), n) == AllLayerRecords(s, n)
  {
    hide StoreOk, InOrder, OwnBefore, ContentBefore, SameRow, MemberRecords, LayerRowOf;
    if n > 0 {
      var l := s.layers[n - 1];
      SameLayerRecords(hash, s, n - 1);
      forall m | m in l.members
        ensures SameRow(s, Carried(s), l.meta.id, m)
      {
        SameMember(hash, s, n - 1, m);
      }
      SameMemberRecords(s, Carried(s), l.meta.id, l.members, {});
      assert LayerRecords(Carried(s), l) == LayerRecords(s, l);
    }
  }

  // Exporting what a restore built gives the identical records.
  lemma ExportAgain(hash: Hash, s: Store)
    requires StoreOk(hash, s) && Export(s).Some?
    ensures Restore(hash, Export(s).value).Some?
    ensures Export(Restore(hash, Export(s).value).value) == Export(s)
  {
    RoundTrip(hash, s);
    InOrderAgain(s.side);
    SameLayerRecords(hash, s, |s.layers|);
    hide Restore, StoreOk, InOrder, OwnBefore, ContentBefore, AllLayerRecords, HeadRecords;
    assert Carried(s).side == InOrder(s.side) && Carried(s).branches == s.branches && |Carried(s).layers| == |s.layers|;
  }

  // --- What a row says ---

  predicate SaysCells(texts: seq<string>, cells: seq<CellRef>) {
    |texts| == |cells| && forall k :: 0 <= k < |cells| ==> texts[k] == C.Render(cells[k])
  }

  predicate SaysReadSet(rows: seq<ReadRow>, readSet: seq<CellAt>) {
    |rows| == |readSet|
    && forall k :: 0 <= k < |readSet| ==> rows[k].cell == C.Render(readSet[k].cell) && rows[k].version == readSet[k].version
  }

  predicate SaysGuards(rows: seq<GuardRow>, guards: seq<Guard>) {
    |rows| == |guards| && forall k :: 0 <= k < |guards| ==> SaysCells(rows[k].cells, guards[k].cells) && rows[k].since == guards[k].since
  }

  predicate SaysValue(row: ValueRow, v: Value) {
    match v
    case Int(n) => row == IntRow(n)
    case Bool(b) => row == BoolRow(b)
    case Ref(pid) => row == RefRow(P.Render(pid))
    case Tombstone => row == TombstoneRow
  }

  predicate SaysDerivation(row: DerivationRow, d: Derivation) {
    row.producer == d.producer && row.freshAsOf == d.freshAsOf && SaysReadSet(row.readSet, d.readSet)
  }

  lemma {:induction false} CellsAreSaid(cells: seq<CellRef>)
    ensures SpellAll(cells).Some? ==> SaysCells(SpellAll(cells).value, cells)
  {
    hide C.Read, C.Render;
    if cells != [] {
      CellsAreSaid(cells[..|cells| - 1]);
    }
  }

  lemma {:induction false} ReadSetIsSaid(readSet: seq<CellAt>)
    ensures ReadRows(readSet).Some? ==> SaysReadSet(ReadRows(readSet).value, readSet)
  {
    hide C.Read, C.Render;
    if readSet != [] {
      ReadSetIsSaid(readSet[..|readSet| - 1]);
    }
  }

  lemma {:induction false} GuardsAreSaid(guards: seq<Guard>)
    ensures GuardRows(guards).Some? ==> SaysGuards(GuardRows(guards).value, guards)
  {
    hide SpellAll, SaysCells;
    if guards != [] {
      GuardsAreSaid(guards[..|guards| - 1]);
      CellsAreSaid(guards[|guards| - 1].cells);
    }
  }

  // An event's row says its id, its cell's address, its value and version, and whose run it came from and what
  // that run had read, in order.
  lemma RowSays(e: Event)
    requires RowOf(e).Some?
    ensures var row := RowOf(e).value;
            && row.id == e.id && row.cell == C.Render(e.at.cell) && row.version == e.at.version && SaysValue(row.value, e.value)
            && (row.derivation.Some? <==> e.derivation.Some?)
            && (e.derivation.Some? ==> SaysDerivation(row.derivation.value, e.derivation.value))
  {
    hide C.Read, C.Render, P.Render, ReadRows, SaysReadSet;
    if e.derivation.Some? {
      ReadSetIsSaid(e.derivation.value.readSet);
    }
  }

  // A layer's row says all its metadata.
  lemma LayerRowSays(m: LayerMeta)
    requires LayerRowOf(m).Some?
    ensures var row := LayerRowOf(m).value;
            && row.id == m.id && row.branch == m.branch && row.kind == m.kind && row.author == m.author && row.parent == m.parent
            && SaysGuards(row.guards, m.guards)
  {
    hide GuardRows, SaysGuards;
    GuardsAreSaid(m.guards);
  }

  // --- What a stream carries, by the store it is of ---

  // A stream says first which version it is.
  lemma ExportStarts(s: Store)
    requires Export(s).Some?
    ensures Export(s).value != [] && Export(s).value[0] == Header(1)
  {
    hide HeadRecords, AllLayerRecords, InOrder;
  }

  predicate NamesContent(v: Value, pid: Pid) {
    v == Ref(pid) && pid.kind in {String, Binary, BigInt}
  }

  ghost predicate RefersBelow(s: Store, n: nat, pid: Pid)
    requires n <= |s.layers|
  {
    exists k :: 0 <= k < n && RefersIn(s, s.layers[k].meta.id, s.layers[k].members, pid)
  }

  ghost predicate RefersIn(s: Store, layer: LayerId, members: seq<EventId>, pid: Pid) {
    exists m :: m in members && m in s.events && s.events[m].authored == layer && NamesContent(s.events[m].value, pid)
  }

  lemma {:induction false} GatheredContent(s: Store, n: nat, pid: Pid)
    requires n <= |s.layers|
    ensures pid in ContentBefore(s, n) <==> pid in s.interned && RefersBelow(s, n, pid)
  {
    hide Content, RefersIn;
    if n > 0 {
      GatheredContent(s, n - 1, pid);
      LayerContent(s, s.layers[n - 1].meta.id, s.layers[n - 1].members, pid);
    }
  }

  lemma LayerContent(s: Store, layer: LayerId, members: seq<EventId>, pid: Pid)
    ensures pid in Content(s, layer, members) <==>
            pid in s.interned && RefersIn(s, layer, members, pid)
  {
    if m :| m in members && m in s.events && s.events[m].authored == layer && NamesContent(s.events[m].value, pid) {
      assert ContentPid(s.events[m].value) == Some(pid);
    }
  }

  // Restored is the content some event of the log refers to, where there was any, byte for byte, and no other.
  lemma ContentIsReferredTo(hash: Hash, s: Store, pid: Pid)
    requires StoreOk(hash, s) && Export(s).Some?
    ensures var r := Restore(hash, Export(s).value);
            && r.Some? && (pid in r.value.interned <==> pid in s.interned && RefersBelow(s, |s.layers|, pid))
            && (pid in r.value.interned ==> r.value.interned[pid] == s.interned[pid])
  {
    hide StoreOk, Export, Restore, ContentBefore, OwnBefore, InOrder, RefersBelow;
    RoundTrip(hash, s);
    GatheredContent(s, |s.layers|, pid);
    GatheredFromTheStore(s, |s.layers|);
  }

  // Some content, and after it an event.
  ghost predicate ContentThen(rows: seq<Record>, content: Record, event: Record) {
    exists i, j :: 0 <= i < j < |rows| && rows[i] == content && rows[j] == event
  }

  lemma ContentThenLater(first: seq<Record>, rest: seq<Record>, content: Record, event: Record)
    requires ContentThen(rest, content, event) || (first != [] && first[0] == content && event in rest)
    ensures ContentThen(first + rest, content, event)
  {
    var rows := first + rest;
    if ContentThen(rest, content, event) {
      var i, j :| 0 <= i < j < |rest| && rest[i] == content && rest[j] == event;
      assert rows[|first| + i] == content && rows[|first| + j] == event;
    } else {
      var j :| 0 <= j < |rest| && rest[j] == event;
      assert rows[0] == content && rows[|first| + j] == event;
    }
  }

  // The rows of one own event: the content it names, if this layer has not carried it, then the event.
  lemma FirstRows(s: Store, layer: LayerId, members: seq<EventId>, seen: set<Pid>) returns (first: seq<Record>, seen': set<Pid>)
    requires members != [] && MemberRecords(s, layer, members, seen).Some?
    ensures MemberRecords(s, layer, members[1..], seen').Some?
    ensures MemberRecords(s, layer, members, seen).value == first + MemberRecords(s, layer, members[1..], seen').value
    ensures forall pid :: pid in seen' && pid !in seen && pid in s.interned ==>
              first != [] && first[0] == ContentRecord(P.Render(pid), s.interned[pid])
    ensures members[0] in s.events && s.events[members[0]].authored == layer ==>
              RowOf(s.events[members[0]]).Some? && first != [] && first[|first| - 1] == EventRecord(RowOf(s.events[members[0]]).value)
    ensures members[0] in s.events && s.events[members[0]].authored == layer ==>
              forall pid :: NamesContent(s.events[members[0]].value, pid) && pid !in seen && pid in s.interned ==>
                |first| == 2 && first[0] == ContentRecord(P.Render(pid), s.interned[pid])
  {
    hide RowOf, P.Render;
    var rows, e := MemberRecords(s, layer, members, seen).value, s.events[members[0]];
    var mine := ContentPid(e.value);
    seen' := if e.authored == layer && mine.Some? then seen + {mine.value} else seen;
    var rest := MemberRecords(s, layer, members[1..], seen').value;
    first := rows[..|rows| - |rest|];
    assert rows == first + rest;
  }

  // Before an event comes the content it names, unless this layer has carried it already.
  lemma {:induction false} ContentComesFirst(s: Store, layer: LayerId, members: seq<EventId>, seen: set<Pid>, k: nat, pid: Pid)
    requires k < |members| && MemberRecords(s, layer, members, seen).Some? && pid !in seen && pid in s.interned
    requires members[k] in s.events && s.events[members[k]].authored == layer && NamesContent(s.events[members[k]].value, pid)
    ensures var rows, e := MemberRecords(s, layer, members, seen).value, s.events[members[k]];
            RowOf(e).Some? && ContentThen(rows, ContentRecord(P.Render(pid), s.interned[pid]), EventRecord(RowOf(e).value))
    decreases |members|
  {
    hide RowOf, P.Render, MemberRecords, ContentThen, NamesContent;
    var first, seen' := FirstRows(s, layer, members, seen);
    var rest := MemberRecords(s, layer, members[1..], seen').value;
    var j := OwnEventIsWritten(s, layer, members, seen, k);
    var content, event := ContentRecord(P.Render(pid), s.interned[pid]), EventRecord(RowOf(s.events[members[k]]).value);
    if k == 0 {
      Both(first, rest, content, event);
    } else {
      if pid in seen' {
        j := OwnEventIsWritten(s, layer, members[1..], seen', k - 1);
        assert rest[j] == event;
      } else {
        ContentComesFirst(s, layer, members[1..], seen', k - 1, pid);
      }
      ContentThenLater(first, rest, content, event);
    }
  }

  lemma Both(first: seq<Record>, rest: seq<Record>, content: Record, event: Record)
    requires |first| == 2 && first[0] == content && first[1] == event
    ensures ContentThen(first + rest, content, event)
  {
    assert (first + rest)[0] == content && (first + rest)[1] == event;
  }

  lemma {:induction false} OwnEventIsWritten(s: Store, layer: LayerId, members: seq<EventId>, seen: set<Pid>, k: nat) returns (j: nat)
    requires k < |members| && MemberRecords(s, layer, members, seen).Some?
    requires members[k] in s.events && s.events[members[k]].authored == layer
    ensures var rows := MemberRecords(s, layer, members, seen).value;
            RowOf(s.events[members[k]]).Some? && j < |rows| && rows[j] == EventRecord(RowOf(s.events[members[k]]).value)
    decreases |members|
  {
    hide RowOf, P.Render, MemberRecords, NamesContent;
    var first, seen' := FirstRows(s, layer, members, seen);
    if k == 0 {
      j := |first| - 1;
    } else {
      var n := OwnEventIsWritten(s, layer, members[1..], seen', k - 1);
      j := |first| + n;
    }
  }

  ghost predicate CarriesNone(rows: seq<Record>, seen: set<Pid>) {
    forall i, pid :: 0 <= i < |rows| && rows[i].ContentRecord? && pid in seen && P.WellFormed(pid) ==> rows[i].pid != P.Render(pid)
  }

  ghost predicate CarriesOnce(rows: seq<Record>) {
    forall i, j :: 0 <= i < j < |rows| && rows[i].ContentRecord? && rows[j].ContentRecord? ==> rows[i].pid != rows[j].pid
  }

  // One membership row: an event, perhaps with new content before it, or a name.
  lemma RowStep(s: Store, layer: LayerId, members: seq<EventId>, seen: set<Pid>)
    returns (first: seq<Record>, seen': set<Pid>, carried: Option<Pid>)
    requires members != [] && MemberRecords(s, layer, members, seen).Some?
    ensures MemberRecords(s, layer, members[1..], seen').Some? && seen <= seen'
    ensures MemberRecords(s, layer, members, seen).value == first + MemberRecords(s, layer, members[1..], seen').value
    ensures carried.Some? ==> carried.value !in seen && carried.value in seen' && carried.value in s.interned
    ensures |first| <= 2 && (|first| == 2 ==> !first[1].ContentRecord?)
    ensures forall i :: 0 <= i < |first| && first[i].ContentRecord? ==> carried.Some? && first[i].pid == P.Render(carried.value)
    ensures |first| > 0 && (first[0].ContentRecord? ==> |first| == 2)
  {
    hide RowOf, P.Render;
    var e := s.events[members[0]];
    var mine := ContentPid(e.value);
    seen' := if e.authored == layer && mine.Some? then seen + {mine.value} else seen;
    carried := if e.authored == layer && mine.Some? && mine.value !in seen && mine.value in s.interned then mine else None;
    first := if e.authored != layer then [MemberRecord(e.id)]
             else if carried.Some? then [ContentRecord(P.Render(carried.value), s.interned[carried.value]), EventRecord(RowOf(e).value)]
             else [EventRecord(RowOf(e).value)];
  }

  // And a layer carries each content once.
  lemma {:induction false} ContentOnce(s: Store, layer: LayerId, members: seq<EventId>, seen: set<Pid>)
    requires MemberRecords(s, layer, members, seen).Some?
    requires forall pid :: pid in s.interned ==> P.WellFormed(pid)
    ensures CarriesNone(MemberRecords(s, layer, members, seen).value, seen)
    ensures CarriesOnce(MemberRecords(s, layer, members, seen).value)
    decreases |members|
  {
    hide MemberRecords, P.Render, P.WellFormed;
    if members == [] {
      NoMembers(s, layer, seen);
    } else {
      var first, seen', carried := RowStep(s, layer, members, seen);
      var rest := MemberRecords(s, layer, members[1..], seen').value;
      var rows := first + rest;
      ContentOnce(s, layer, members[1..], seen');
      forall i, pid | 0 <= i < |rows| && rows[i].ContentRecord? && pid in seen && P.WellFormed(pid)
        ensures rows[i].pid != P.Render(pid)
      {
        if i < |first| {
          TextsDiffer(carried.value, pid);
        } else {
          assert rows[i] == rest[i - |first|];
        }
      }
      forall i, j | 0 <= i < j < |rows| && rows[i].ContentRecord? && rows[j].ContentRecord?
        ensures rows[i].pid != rows[j].pid
      {
        if j >= |first| {
          assert rows[j] == rest[j - |first|];
        }
        if i >= |first| {
          assert rows[i] == rest[i - |first|];
        }
      }
    }
  }

  lemma TextsDiffer(p: Pid, q: Pid)
    requires P.WellFormed(p) && P.WellFormed(q) && p != q
    ensures P.Render(p) != P.Render(q)
  {
    hide P.Render, P.WellFormed;
    if P.Render(p) == P.Render(q) {
      P.Lossless(p, q);
    }
  }

  // What a stream says of the sidecars: everything, each list in the order of its ids, a paused branch once.
  lemma SidecarsAre(side: Sidecars)
    ensures var o := InOrder(side);
            && o.next == side.next && o.txTimeout == side.txTimeout
            && multiset(o.producers) == multiset(side.producers) && multiset(o.broken) == multiset(side.broken)
            && (forall a, b :: 0 <= a < b < |o.producers| ==> o.producers[a].id <= o.producers[b].id)
            && (forall a, b :: 0 <= a < b < |o.broken| && o.broken[a].producer < 0x1_0000_0000_0000_0000 && o.broken[b].producer < 0x1_0000_0000_0000_0000 ==>
                  o.broken[a].branch < o.broken[b].branch
                  || (o.broken[a].branch == o.broken[b].branch && o.broken[a].producer <= o.broken[b].producer))
            && (forall a, b :: 0 <= a < b < |o.paused| ==> o.paused[a] < o.paused[b])
            && (forall b :: b in o.paused <==> b in side.paused)
  {
    hide Insert, Sorted, Dedup;
    var o, key := InOrder(side), (b: BranchId) => b;
    SortedOrders(side.producers, ProducerKey);
    SortedOrders(side.broken, BrokenKey);
    SortedOrders(side.paused, key);
    DedupRises(Sorted(side.paused, key));
    forall a, b | 0 <= a < b < |o.producers|
      ensures o.producers[a].id <= o.producers[b].id
    {
      assert ProducerKey(o.producers[a]) <= ProducerKey(o.producers[b]);
    }
    forall a, b | 0 <= a < b < |o.broken| && o.broken[a].producer < ID_LIMIT && o.broken[b].producer < ID_LIMIT
      ensures o.broken[a].branch < o.broken[b].branch
              || (o.broken[a].branch == o.broken[b].branch && o.broken[a].producer <= o.broken[b].producer)
    {
      assert BrokenKey(o.broken[a]) <= BrokenKey(o.broken[b]);
      ByBranchFirst(o.broken[a], o.broken[b]);
    }
    forall b
      ensures b in o.paused <==> b in side.paused
    {
      assert b in Sorted(side.paused, key) <==> b in multiset(Sorted(side.paused, key));
      assert b in side.paused <==> b in multiset(side.paused);
    }
  }

  lemma ByBranchFirst(a: Broken, b: Broken)
    requires BrokenKey(a) <= BrokenKey(b) && a.producer < ID_LIMIT && b.producer < ID_LIMIT
    ensures a.branch < b.branch || (a.branch == b.branch && a.producer <= b.producer)
  {
    assert a.producer % ID_LIMIT == a.producer && b.producer % ID_LIMIT == b.producer;
  }

  // --- What any stream that restores has to be ---

  ghost predicate LayersKept(layers: seq<StoredLayer>, events: Events) {
    && (forall a, b :: 0 <= a < b < |layers| ==> layers[a].meta.id < layers[b].meta.id)
    && (forall l :: l in layers ==> if l.meta.kind == DefLayer then l.members == [] else l.defs == [])
    && (forall l, m :: l in layers && m in l.members ==> m in events)
  }

  ghost predicate EventsKept(layers: seq<StoredLayer>, events: Events) {
    forall id :: id in events ==> events[id].id == id && exists l :: l in layers && l.meta.id == events[id].authored && id in l.members
  }

  ghost predicate ContentKept(hash: Hash, interned: Interned) {
    forall pid :: pid in interned ==> hash(pid.kind, interned[pid]) == pid
  }

  ghost predicate BranchesKept(branches: seq<BranchRow>) {
    forall a, b :: 0 <= a < b < |branches| ==> branches[a].id < branches[b].id
  }

  ghost predicate BlockKept(layers: seq<StoredLayer>, events: Events, b: Block) {
    && !HoldsLayer(layers, b.meta.id)
    && (if b.meta.kind == DefLayer then b.members == [] && b.authored == map[] else b.defs == [])
    && (forall m :: m in b.members ==> m in events || m in b.authored)
    && (forall id :: id in b.authored ==> id in b.members && id !in events && b.authored[id].id == id && b.authored[id].authored == b.meta.id)
  }

  ghost predicate Keeps(hash: Hash, st: Restoring) {
    && LayersKept(st.layers, st.events) && EventsKept(st.layers, st.events) && ContentKept(hash, st.interned) && BranchesKept(st.branches)
    && (st.open.Some? ==> BlockKept(st.layers, st.events, st.open.value))
  }

  lemma {:induction false} InsertHolds(row: StoredLayer, rows: seq<StoredLayer>, x: StoredLayer)
    ensures x in Insert(row, rows, LayerKey) <==> x == row || x in rows
  {
    if rows != [] {
      assert rows == rows[..|rows| - 1] + [rows[|rows| - 1]];
      InsertHolds(row, rows[..|rows| - 1], x);
    }
  }

  lemma InsertNext(row: StoredLayer, rows: seq<StoredLayer>)
    ensures Insert(row, rows, LayerKey) ==
            if rows == [] || rows[|rows| - 1].meta.id <= row.meta.id then rows + [row]
            else Insert(row, rows[..|rows| - 1], LayerKey) + [rows[|rows| - 1]]
  {
  }

  lemma {:induction false} InsertRises(row: StoredLayer, rows: seq<StoredLayer>)
    requires forall a, b :: 0 <= a < b < |rows| ==> rows[a].meta.id < rows[b].meta.id
    requires !HoldsLayer(rows, row.meta.id)
    ensures var after := Insert(row, rows, LayerKey); forall a, b :: 0 <= a < b < |after| ==> after[a].meta.id < after[b].meta.id
  {
    hide Insert;
    InsertNext(row, rows);
    if rows != [] && rows[|rows| - 1].meta.id > row.meta.id {
      var shorter, last := rows[..|rows| - 1], rows[|rows| - 1];
      assert forall k :: 0 <= k < |shorter| ==> shorter[k] == rows[k];
      InsertRises(row, shorter);
      forall x | x in Insert(row, shorter, LayerKey)
        ensures x.meta.id < last.meta.id
      {
        InsertHolds(row, shorter, x);
      }
    }
  }

  lemma CloseKeeps(hash: Hash, st: Restoring)
    requires Keeps(hash, st)
    ensures Keeps(hash, Close(st)) && Close(st).open.None?
  {
    if st.open.Some? {
      var b := st.open.value;
      var l := StoredLayer(b.meta, b.defs, b.members);
      ClosedLayers(st.layers, st.events, b);
      ClosedEvents(st.layers, st.events, b);
    }
  }

  lemma ClosedLayers(layers: seq<StoredLayer>, events: Events, b: Block)
    requires LayersKept(layers, events) && BlockKept(layers, events, b)
    ensures LayersKept(Insert(StoredLayer(b.meta, b.defs, b.members), layers, LayerKey), events + b.authored)
  {
    hide Insert;
    var l := StoredLayer(b.meta, b.defs, b.members);
    InsertRises(l, layers);
    forall x
      ensures x in Insert(l, layers, LayerKey) <==> x == l || x in layers
    {
      InsertHolds(l, layers, x);
    }
  }

  lemma ClosedEvents(layers: seq<StoredLayer>, events: Events, b: Block)
    requires EventsKept(layers, events) && BlockKept(layers, events, b)
    ensures EventsKept(Insert(StoredLayer(b.meta, b.defs, b.members), layers, LayerKey), events + b.authored)
  {
    hide Insert;
    var l := StoredLayer(b.meta, b.defs, b.members);
    var after, more := Insert(l, layers, LayerKey), events + b.authored;
    forall x
      ensures x in after <==> x == l || x in layers
    {
      InsertHolds(l, layers, x);
    }
    forall id | id in more
      ensures more[id].id == id && exists m :: m in after && m.meta.id == more[id].authored && id in m.members
    {
      if id in b.authored {
        assert l in after && l.meta.id == more[id].authored && id in l.members;
      } else {
        var m :| m in layers && m.meta.id == events[id].authored && id in m.members;
        assert m in after;
      }
    }
  }

  lemma {:induction false} PutBranchRises(rows: seq<BranchRow>, row: BranchRow)
    requires BranchesKept(rows)
    ensures BranchesKept(PutBranch(rows, row))
    ensures forall x :: x in PutBranch(rows, row) ==> x == row || x in rows
  {
    hide BranchesKept;
    if rows == [] {
      OneBranch(row);
    } else {
      var earlier, last := rows[..|rows| - 1], rows[|rows| - 1];
      assert rows == earlier + [last];
      BranchesBefore(earlier, last);
      PutBranchRises(earlier, row);
      if last.id < row.id {
        OneBranchMore(rows, row);
      } else if last.id == row.id {
        OneBranchMore(earlier, row);
      } else {
        OneBranchMore(PutBranch(earlier, row), last);
      }
    }
  }

  lemma OneBranch(row: BranchRow)
    ensures BranchesKept([row])
  {
  }

  lemma BranchesBefore(earlier: seq<BranchRow>, last: BranchRow)
    requires BranchesKept(earlier + [last])
    ensures BranchesKept(earlier) && forall x :: x in earlier ==> x.id < last.id
  {
    var rows := earlier + [last];
    assert rows[|earlier|] == last && forall k :: 0 <= k < |earlier| ==> rows[k] == earlier[k];
    forall x | x in earlier
      ensures x.id < last.id
    {
      var k :| 0 <= k < |earlier| && earlier[k] == x;
      assert rows[k].id < rows[|earlier|].id;
    }
  }

  lemma OneBranchMore(rows: seq<BranchRow>, row: BranchRow)
    requires BranchesKept(rows) && forall x :: x in rows ==> x.id < row.id
    ensures BranchesKept(rows + [row])
  {
  }

  lemma FeedKeepsEvent(hash: Hash, st: Restoring, row: EventRow)
    requires Keeps(hash, st) && Feed(hash, st, EventRecord(row)).Some?
    ensures Keeps(hash, Feed(hash, st, EventRecord(row)).value)
  {
    hide EventOf, LayersKept, EventsKept, BranchesKept, ContentKept;
    EventIsItsRow(row, st.open.value.meta.id);
  }

  lemma FeedKeepsMember(hash: Hash, st: Restoring, id: EventId)
    requires Keeps(hash, st) && Feed(hash, st, MemberRecord(id)).Some?
    ensures Keeps(hash, Feed(hash, st, MemberRecord(id)).value)
  {
    hide LayersKept, EventsKept, BranchesKept, ContentKept;
  }

  lemma FeedKeepsLayer(hash: Hash, st: Restoring, row: LayerRow)
    requires Keeps(hash, st) && Feed(hash, st, LayerRecord(row)).Some?
    ensures Keeps(hash, Feed(hash, st, LayerRecord(row)).value)
  {
    hide MetaOf, LayersKept, EventsKept, BranchesKept, ContentKept;
    CloseKeeps(hash, st);
  }

  lemma FeedKeeps(hash: Hash, st: Restoring, r: Record)
    requires Keeps(hash, st) && Feed(hash, st, r).Some?
    ensures Keeps(hash, Feed(hash, st, r).value)
  {
    hide EventOf, MetaOf, P.Parse, LayersKept, EventsKept, BranchesKept;
    if r.EventRecord? {
      FeedKeepsEvent(hash, st, r.event);
    } else if r.MemberRecord? {
      FeedKeepsMember(hash, st, r.member);
    } else if r.LayerRecord? {
      FeedKeepsLayer(hash, st, r.layer);
    } else if r.BranchRecord? {
      PutBranchRises(st.branches, r.branch);
    }
  }

  lemma EventIsItsRow(row: EventRow, layer: LayerId)
    ensures EventOf(row, layer).Some? ==> EventOf(row, layer).value.authored == layer
  {
  }

  lemma {:induction false} FeedAllKeeps(hash: Hash, st: Restoring, records: seq<Record>)
    requires Keeps(hash, st) && FeedAll(hash, st, records).Some?
    ensures Keeps(hash, FeedAll(hash, st, records).value)
    decreases |records|
  {
    hide Keeps, Feed;
    if records != [] {
      FeedKeeps(hash, st, records[0]);
      FeedAllKeeps(hash, Feed(hash, st, records[0]).value, records[1..]);
    }
  }

  // Whatever the stream, a store restored from it has its layers and branches in order, each layer holding def
  // events or value events, every membership naming an event that is there and every event in the membership of
  // the layer that authored it, and content under the name its bytes have.
  lemma RestoredIsWellKept(hash: Hash, records: seq<Record>)
    requires Restore(hash, records).Some?
    ensures var s := Restore(hash, records).value;
            LayersKept(s.layers, s.events) && EventsKept(s.layers, s.events) && ContentKept(hash, s.interned) && BranchesKept(s.branches)
    ensures records != [] && records[0] == Header(1)
  {
    hide FeedAll, Close;
    FeedAllKeeps(hash, FRESH, records[1..]);
    CloseKeeps(hash, FeedAll(hash, FRESH, records[1..]).value);
  }

  // --- When an export succeeds ---

  ghost predicate SpeakableEvent(e: Event) {
    C.Addressable(e.at.cell) && (e.derivation.Some? ==> forall r :: r in e.derivation.value.readSet ==> C.Addressable(r.cell))
  }

  ghost predicate SpeakableMeta(m: LayerMeta) {
    forall g, c :: g in m.guards && c in g.cells ==> C.Addressable(c)
  }

  // Every address the stream has to spell is one the constructors build from separator-free names.
  ghost predicate Speakable(s: Store) {
    && (forall n :: 0 <= n < |s.layers| ==> SpeakableMeta(s.layers[n].meta))
    && (forall m :: m in s.events ==> SpeakableEvent(s.events[m]))
  }

  lemma AddressableSpells(c: CellRef)
    requires C.Addressable(c)
    ensures Spell(c) == Some(C.Render(c))
  {
    C.ReadsBack(c, 0, 0);
    hide C.Read, C.Render, C.Addressable;
  }

  lemma {:induction false} AddressesSpell(cells: seq<CellRef>)
    requires forall c :: c in cells ==> C.Addressable(c)
    ensures SpellAll(cells).Some?
  {
    hide Spell, C.Addressable;
    if cells != [] {
      AddressesSpell(cells[..|cells| - 1]);
      AddressableSpells(cells[|cells| - 1]);
    }
  }

  lemma {:induction false} GuardsSpell(guards: seq<Guard>)
    requires forall g, c :: g in guards && c in g.cells ==> C.Addressable(c)
    ensures GuardRows(guards).Some?
  {
    hide SpellAll, C.Addressable;
    if guards != [] {
      var last := guards[|guards| - 1];
      assert last in guards;
      GuardsSpell(guards[..|guards| - 1]);
      AddressesSpell(last.cells);
    }
  }

  lemma {:induction false} ReadSetSpells(readSet: seq<CellAt>)
    requires forall r :: r in readSet ==> C.Addressable(r.cell)
    ensures ReadRows(readSet).Some?
  {
    hide Spell, C.Addressable;
    if readSet != [] {
      ReadSetSpells(readSet[..|readSet| - 1]);
      AddressableSpells(readSet[|readSet| - 1].cell);
    }
  }

  lemma EventSpells(e: Event)
    requires SpeakableEvent(e)
    ensures RowOf(e).Some?
  {
    hide Spell, ReadRows, C.Addressable;
    AddressableSpells(e.at.cell);
    if e.derivation.Some? {
      ReadSetSpells(e.derivation.value.readSet);
    }
  }

  lemma {:induction false} MembersSpell(s: Store, layer: LayerId, members: seq<EventId>, seen: set<Pid>)
    requires forall m :: m in members ==> m in s.events && SpeakableEvent(s.events[m])
    ensures MemberRecords(s, layer, members, seen).Some?
    decreases |members|
  {
    hide RowOf, SpeakableEvent, ContentPid, P.Render;
    if members != [] {
      assert members[0] in members && forall m :: m in members[1..] ==> m in members;
      var e := s.events[members[0]];
      EventSpells(e);
      MembersSpell(s, layer, members[1..], seen);
      if ContentPid(e.value).Some? {
        MembersSpell(s, layer, members[1..], seen + {ContentPid(e.value).value});
      }
    }
  }

  lemma {:induction false} LayersSpell(hash: Hash, s: Store, n: nat)
    requires StoreOk(hash, s) && Speakable(s) && n <= |s.layers|
    ensures AllLayerRecords(s, n).Some?
  {
    hide StoreOk, SpeakableEvent, MemberRecords, GuardRows, C.Addressable, OwnBefore, EventOk;
    if n > 0 {
      var l := s.layers[n - 1];
      LayersSpell(hash, s, n - 1);
      GuardsSpell(l.meta.guards);
      NamesFromBackwards(hash, s, n - 1);
      assert forall m :: m in l.members ==> NamesBackwards(s, n - 1, m);
      MembersSpell(s, l.meta.id, l.members, {});
    }
  }

  // A well-kept store of constructor-built addresses always exports, restores to itself and exports alike.
  lemma ExportsAndReturns(hash: Hash, s: Store)
    requires StoreOk(hash, s) && Speakable(s)
    ensures Export(s).Some? && Restore(hash, Export(s).value) == Some(Carried(s))
    ensures Export(Carried(s)) == Export(s)
  {
    LayersSpell(hash, s, |s.layers|);
    assert Export(s).Some? by {
      hide StoreOk, Speakable, HeadRecords, InOrder;
    }
    RoundTrip(hash, s);
    ExportAgain(hash, s);
    hide *;
  }

  // --- The two loops ---

  lemma PrefixedTwice(out: seq<Record>, rows: seq<Record>, rest: Option<seq<Record>>)
    ensures Prefixed(out, Prefixed(rows, rest)) == Prefixed(out + rows, rest)
  {
    if rest.Some? {
      assert out + (rows + rest.value) == (out + rows) + rest.value;
    }
  }

  lemma MemberStep(s: Store, layer: LayerId, members: seq<EventId>, k: nat, seen: set<Pid>)
    requires k < |members|
    ensures var m := members[k];
            MemberRecords(s, layer, members[k..], seen) ==
            if m !in s.events || (s.events[m].authored == layer && RowOf(s.events[m]).None?) then None
            else Prefixed(RowRecords(s, layer, m, seen), MemberRecords(s, layer, members[k + 1..], SeenAfter(s, layer, m, seen)))
  {
    hide RowOf, ContentPid, P.Render;
    assert members[k..][0] == members[k] && members[k..][1..] == members[k + 1..];
  }

  // One layer's membership, row by row.
  method WriteMembers(s: Store, layer: LayerId, members: seq<EventId>) returns (r: Option<seq<Record>>)
    ensures r == MemberRecords(s, layer, members, {})
  {
    hide RowOf, ContentPid, P.Render, MemberRecords;
    var out: seq<Record>, seen: set<Pid>, k := [], {}, 0;
    ghost var whole := MemberRecords(s, layer, members, {});
    assert members[0..] == members;
    NoneBefore(whole);
    while k < |members|
      invariant 0 <= k <= |members|
      invariant whole == Prefixed(out, MemberRecords(s, layer, members[k..], seen))
    {
      var m := members[k];
      MemberStep(s, layer, members, k, seen);
      if m !in s.events {
        return None;
      }
      var e := s.events[m];
      if e.authored == layer && RowOf(e).None? {
        return None;
      }
      ghost var before := seen;
      var rows := [MemberRecord(e.id)];
      if e.authored == layer {
        var pid := ContentPid(e.value);
        rows := [EventRecord(RowOf(e).value)];
        if pid.Some? {
          if pid.value !in seen && pid.value in s.interned {
            rows := [ContentRecord(P.Render(pid.value), s.interned[pid.value])] + rows;
          }
          seen := seen + {pid.value};
        }
      }
      assert rows == RowRecords(s, layer, m, before) && seen == SeenAfter(s, layer, m, before);
      PrefixedTwice(out, rows, MemberRecords(s, layer, members[k + 1..], seen));
      out, k := out + rows, k + 1;
    }
    NoMembers(s, layer, seen);
    assert members[k..] == [] && out + [] == out;
    r := Some(out);
  }

  lemma NoneBefore(rest: Option<seq<Record>>)
    ensures Prefixed([], rest) == rest
  {
    if rest.Some? {
      assert [] + rest.value == rest.value;
    }
  }

  lemma NoMembers(s: Store, layer: LayerId, seen: set<Pid>)
    ensures MemberRecords(s, layer, [], seen) == Some([])
  {
  }

  method WriteLayer(s: Store, l: StoredLayer) returns (r: Option<seq<Record>>)
    ensures r == LayerRecords(s, l)
  {
    hide LayerRowOf, MemberRecords;
    var row := LayerRowOf(l.meta);
    if row.None? {
      return None;
    }
    if l.meta.kind == DefLayer {
      return Some([LayerRecord(row.value)] + DefRecords(l.defs));
    }
    var members := WriteMembers(s, l.meta.id, l.members);
    r := Prefixed([LayerRecord(row.value)], members);
  }

  lemma {:induction false} OneFailureIsAll(s: Store, n: nat, later: nat)
    requires n <= later <= |s.layers| && AllLayerRecords(s, n).None?
    ensures AllLayerRecords(s, later).None?
    decreases later - n
  {
    hide LayerRecords;
    if n < later {
      OneFailureIsAll(s, n, later - 1);
    }
  }

  method WriteStream(s: Store) returns (r: Option<seq<Record>>)
    ensures r == Export(s)
  {
    hide LayerRecords, HeadRecords, InOrder;
    var head := [Header(STREAM_VERSION)] + HeadRecords(InOrder(s.side), s.branches);
    var out: seq<Record>, n := [], 0;
    while n < |s.layers|
      invariant 0 <= n <= |s.layers|
      invariant AllLayerRecords(s, n) == Some(out)
    {
      var block := WriteLayer(s, s.layers[n]);
      if block.None? {
        OneFailureIsAll(s, n + 1, |s.layers|);
        return None;
      }
      out := out + block.value;
      n := n + 1;
    }
    r := Some(head + out);
  }

  method ReadStream(hash: Hash, records: seq<Record>) returns (r: Option<Store>)
    ensures r == Restore(hash, records)
  {
    hide Feed, Close;
    if records == [] || records[0] != Header(STREAM_VERSION) {
      return None;
    }
    var st, k := FRESH, 1;
    while k < |records|
      invariant 1 <= k <= |records|
      invariant FeedAll(hash, st, records[k..]) == FeedAll(hash, FRESH, records[1..])
    {
      assert records[k..][0] == records[k] && records[k..][1..] == records[k + 1..];
      var next := Feed(hash, st, records[k]);
      if next.None? {
        return None;
      }
      st := next.value;
      k := k + 1;
    }
    var done := Close(st);
    r := Some(Store(done.side, done.branches, done.layers, done.events, done.interned));
  }
}
