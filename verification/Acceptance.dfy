/** Which streams are restored: those of which each record fits what stands before it
    (crates/borg-host/src/stream.rs, `restore`). */
module Acceptance {
  import opened Core
  import opened Log
  import opened Stream
  import C = CellText
  import P = PidText

  // --- What fits where ---

  // The kind of the block a record after these would stand in: that of the last layer record.
  function KindOf(records: seq<Record>): Option<LayerKind> {
    if records == [] then None
    else
      var last := records[|records| - 1];
      if last.LayerRecord? then Some(last.layer.kind) else KindOf(records[..|records| - 1])
  }

  predicate NamesLayer(records: seq<Record>, id: LayerId) {
    exists n :: 0 <= n < |records| && records[n].LayerRecord? && records[n].layer.id == id
  }

  predicate HoldsEvent(records: seq<Record>, id: EventId) {
    exists n :: 0 <= n < |records| && records[n].EventRecord? && records[n].event.id == id
  }

  predicate IsAddress(text: string) {
    C.Read(text, 0, 0).Some?
  }

  predicate IsLayerRow(row: LayerRow) {
    forall g, t :: g in row.guards && t in g.cells ==> IsAddress(t)
  }

  predicate IsEventRow(row: EventRow) {
    && IsAddress(row.cell)
    && (row.value.RefRow? ==> P.Parse(row.value.pid).Some?)
    && (row.derivation.Some? ==> forall r :: r in row.derivation.value.readSet ==> IsAddress(r.cell))
  }

  // A layer not met before, addresses that can be read, content whose bytes have the name it goes by, and def or
  // value records in a block of that kind, each event once and each name of an event that has been.
  predicate Fits(hash: Hash, before: seq<Record>, r: Record) {
    match r
    case Header(_) => false
    case LayerRecord(row) => IsLayerRow(row) && !NamesLayer(before, row.id)
    case ContentRecord(text, bytes) => P.Parse(text).Some? && hash(P.Parse(text).value.kind, bytes) == P.Parse(text).value
    case DefRecord(_) => KindOf(before) == Some(DefLayer)
    case EventRecord(row) => KindOf(before) == Some(ValueLayer) && IsEventRow(row) && !HoldsEvent(before, row.id)
    case MemberRecord(id) => KindOf(before) == Some(ValueLayer) && HoldsEvent(before, id)
    case _ => true
  }

  // --- Rows ---

  lemma {:induction false} AllAddresses(texts: seq<string>)
    ensures ReadAll(texts).Some? <==> forall t :: t in texts ==> IsAddress(t)
  {
    hide C.Read;
    if texts != [] {
      var shorter, last := texts[..|texts| - 1], texts[|texts| - 1];
      AllAddresses(shorter);
      assert texts == shorter + [last];
      assert last in texts && forall t :: t in shorter ==> t in texts;
    }
  }

  lemma {:induction false} ReadSetAddresses(rows: seq<ReadRow>)
    ensures ReadSetOf(rows).Some? <==> forall r :: r in rows ==> IsAddress(r.cell)
  {
    hide C.Read;
    if rows != [] {
      var shorter, last := rows[..|rows| - 1], rows[|rows| - 1];
      ReadSetAddresses(shorter);
      assert rows == shorter + [last];
      assert last in rows && forall r :: r in shorter ==> r in rows;
    }
  }

  lemma {:induction false} GuardAddresses(rows: seq<GuardRow>)
    ensures GuardsOf(rows).Some? <==> forall g, t :: g in rows && t in g.cells ==> IsAddress(t)
  {
    hide ReadAll, IsAddress;
    if rows != [] {
      var shorter, last := rows[..|rows| - 1], rows[|rows| - 1];
      GuardAddresses(shorter);
      AllAddresses(last.cells);
      assert rows == shorter + [last];
      assert last in rows && forall g :: g in shorter ==> g in rows;
    }
  }

  lemma LayerRowReads(row: LayerRow)
    ensures MetaOf(row).Some? <==> IsLayerRow(row)
    ensures MetaOf(row).Some? ==> MetaOf(row).value.id == row.id && MetaOf(row).value.kind == row.kind
  {
    hide GuardsOf, IsAddress;
    GuardAddresses(row.guards);
  }

  lemma EventRowReads(row: EventRow, layer: LayerId)
    ensures EventOf(row, layer).Some? <==> IsEventRow(row)
    ensures EventOf(row, layer).Some? ==> EventOf(row, layer).value.id == row.id
  {
    hide C.Read, P.Parse, ReadSetOf;
    if row.derivation.Some? {
      ReadSetAddresses(row.derivation.value.readSet);
    }
  }

  // --- What a restore knows of what it has read ---

  ghost predicate Knows(st: Restoring, done: seq<Record>) {
    && (if st.open.Some? then KindOf(done) == Some(st.open.value.meta.kind) else KindOf(done) == None)
    && (forall id :: HoldsLayer(Close(st).layers, id) <==> NamesLayer(done, id))
    && (forall id :: (id in st.events || (st.open.Some? && id in st.open.value.authored)) <==> HoldsEvent(done, id))
  }

  lemma LayerNext(done: seq<Record>, r: Record, id: LayerId)
    ensures NamesLayer(done + [r], id) <==> NamesLayer(done, id) || (r.LayerRecord? && r.layer.id == id)
  {
    var longer := done + [r];
    assert longer[|done|] == r && forall n :: 0 <= n < |done| ==> longer[n] == done[n];
    if r.LayerRecord? && r.layer.id == id {
      assert longer[|done|].LayerRecord? && longer[|done|].layer.id == id;
    }
    if n :| 0 <= n < |done| && done[n].LayerRecord? && done[n].layer.id == id {
      assert longer[n].LayerRecord? && longer[n].layer.id == id;
    }
  }

  lemma EventNext(done: seq<Record>, r: Record, id: EventId)
    ensures HoldsEvent(done + [r], id) <==> HoldsEvent(done, id) || (r.EventRecord? && r.event.id == id)
  {
    var longer := done + [r];
    assert longer[|done|] == r && forall n :: 0 <= n < |done| ==> longer[n] == done[n];
    if r.EventRecord? && r.event.id == id {
      assert longer[|done|].EventRecord? && longer[|done|].event.id == id;
    }
    if n :| 0 <= n < |done| && done[n].EventRecord? && done[n].event.id == id {
      assert longer[n].EventRecord? && longer[n].event.id == id;
    }
  }

  lemma KindNext(done: seq<Record>, r: Record)
    ensures KindOf(done + [r]) == if r.LayerRecord? then Some(r.layer.kind) else KindOf(done)
  {
    assert (done + [r])[..|done|] == done;
  }

  // A block closed is among the layers, whatever it holds.
  lemma ClosedLayers(st: Restoring, id: LayerId)
    ensures HoldsLayer(Close(st).layers, id) <==>
            HoldsLayer(st.layers, id) || (st.open.Some? && st.open.value.meta.id == id)
  {
    hide Insert;
    if st.open.Some? {
      var b := st.open.value;
      var row := StoredLayer(b.meta, b.defs, b.members);
      var after := Insert(row, st.layers, LayerKey);
      InsertHolds(row, st.layers, row);
      if k :| 0 <= k < |st.layers| && st.layers[k].meta.id == id {
        InsertHolds(row, st.layers, st.layers[k]);
        var n :| 0 <= n < |after| && after[n] == st.layers[k];
      }
      if row.meta.id == id {
        var n :| 0 <= n < |after| && after[n] == row;
      }
      if k :| 0 <= k < |after| && after[k].meta.id == id {
        InsertHolds(row, st.layers, after[k]);
      }
    }
  }

  lemma SameLayers(st: Restoring, st': Restoring)
    requires st'.layers == st.layers
    requires st.open.Some? <==> st'.open.Some?
    requires st.open.Some? ==> st'.open.value.meta == st.open.value.meta
    ensures forall id :: HoldsLayer(Close(st').layers, id) <==> HoldsLayer(Close(st).layers, id)
  {
    hide Close, HoldsLayer;
    forall id
      ensures HoldsLayer(Close(st').layers, id) <==> HoldsLayer(Close(st).layers, id)
    {
      ClosedLayers(st, id);
      ClosedLayers(st', id);
    }
  }

  // --- One record more ---

  lemma DoneNext(done: seq<Record>, r: Record)
    ensures KindOf(done + [r]) == if r.LayerRecord? then Some(r.layer.kind) else KindOf(done)
    ensures forall id :: NamesLayer(done + [r], id) <==> NamesLayer(done, id) || (r.LayerRecord? && r.layer.id == id)
    ensures forall id :: HoldsEvent(done + [r], id) <==> HoldsEvent(done, id) || (r.EventRecord? && r.event.id == id)
  {
    hide NamesLayer, HoldsEvent;
    KindNext(done, r);
    forall id
      ensures NamesLayer(done + [r], id) <==> NamesLayer(done, id) || (r.LayerRecord? && r.layer.id == id)
    {
      LayerNext(done, r, id);
    }
    forall id
      ensures HoldsEvent(done + [r], id) <==> HoldsEvent(done, id) || (r.EventRecord? && r.event.id == id)
    {
      EventNext(done, r, id);
    }
  }

  lemma FeedFits(hash: Hash, st: Restoring, done: seq<Record>, r: Record)
    requires Knows(st, done)
    ensures Feed(hash, st, r).Some? <==> Fits(hash, done, r)
  {
    hide Close, HoldsLayer, NamesLayer, HoldsEvent, KindOf, MetaOf, EventOf, P.Parse, IsLayerRow, IsEventRow;
    match r
    case LayerRecord(row) =>
      LayerRowReads(row);
    case EventRecord(row) =>
      if st.open.Some? {
        EventRowReads(row, st.open.value.meta.id);
      }
    case _ =>
  }

  lemma LayerKnown(hash: Hash, st: Restoring, done: seq<Record>, row: LayerRow)
    requires Knows(st, done) && Feed(hash, st, LayerRecord(row)).Some?
    ensures Knows(Feed(hash, st, LayerRecord(row)).value, done + [LayerRecord(row)])
  {
    hide HoldsLayer, NamesLayer, HoldsEvent, KindOf, MetaOf, Insert;
    var st' := Feed(hash, st, LayerRecord(row)).value;
    LayerRowReads(row);
    DoneNext(done, LayerRecord(row));
    forall id
      ensures HoldsLayer(Close(st').layers, id) <==> NamesLayer(done + [LayerRecord(row)], id)
    {
      ClosedLayers(st', id);
    }
  }

  lemma RestKnown(hash: Hash, st: Restoring, done: seq<Record>, r: Record)
    requires Knows(st, done) && Feed(hash, st, r).Some? && !r.LayerRecord?
    ensures Knows(Feed(hash, st, r).value, done + [r])
  {
    hide Close, HoldsLayer, NamesLayer, HoldsEvent, KindOf, EventOf, P.Parse, PutBranch;
    DoneNext(done, r);
    SameLayers(st, Feed(hash, st, r).value);
    if r.EventRecord? {
      EventRowReads(r.event, st.open.value.meta.id);
    }
  }

  lemma {:induction false} FeedAllFits(hash: Hash, st: Restoring, done: seq<Record>, records: seq<Record>)
    requires Knows(st, done)
    ensures FeedAll(hash, st, records).Some? <==> forall k :: 0 <= k < |records| ==> Fits(hash, done + records[..k], records[k])
    decreases |records|
  {
    hide Knows, Feed, Fits;
    if records != [] {
      var r, rest := records[0], records[1..];
      FeedFits(hash, st, done, r);
      assert done + records[..0] == done;
      if Feed(hash, st, r).Some? {
        if r.LayerRecord? {
          LayerKnown(hash, st, done, r.layer);
        } else {
          RestKnown(hash, st, done, r);
        }
        FeedAllFits(hash, Feed(hash, st, r).value, done + [r], rest);
        forall k | 0 <= k < |rest|
          ensures Fits(hash, done + [r] + rest[..k], rest[k]) <==> Fits(hash, done + records[..k + 1], records[k + 1])
        {
          assert done + [r] + rest[..k] == done + records[..k + 1];
        }
        if forall k :: 0 <= k < |rest| ==> Fits(hash, done + [r] + rest[..k], rest[k]) {
          forall k | 0 <= k < |records|
            ensures Fits(hash, done + records[..k], records[k])
          {
            if k > 0 {
              assert Fits(hash, done + [r] + rest[..k - 1], rest[k - 1]);
            }
          }
        }
      }
    }
  }

  // A stream is restored exactly when it begins with the header of version 1 and every record after fits.
  lemma RestoredWhen(hash: Hash, records: seq<Record>)
    ensures Restore(hash, records).Some? <==>
            && records != [] && records[0] == Header(1)
            && forall k :: 0 < k < |records| ==> Fits(hash, records[1..k], records[k])
  {
    hide FeedAll, Fits, Close;
    if records != [] {
      var rest := records[1..];
      FreshKnows();
      FeedAllFits(hash, FRESH, [], rest);
      forall k | 0 <= k < |rest|
        ensures Fits(hash, [] + rest[..k], rest[k]) <==> Fits(hash, records[1..k + 1], records[k + 1])
      {
        assert [] + rest[..k] == records[1..k + 1];
      }
      if forall k :: 0 <= k < |rest| ==> Fits(hash, [] + rest[..k], rest[k]) {
        forall k | 0 < k < |records|
          ensures Fits(hash, records[1..k], records[k])
        {
          assert Fits(hash, [] + rest[..k - 1], rest[k - 1]);
        }
      }
    }
  }

  lemma FreshKnows()
    ensures Knows(FRESH, [])
  {
  }
}
