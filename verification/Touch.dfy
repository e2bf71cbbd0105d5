/** The cell-touch index: which layers wrote a cell, and the guard questions it answers. */
module Touch {
  // crates/borg-engine/src/touch.rs, crates/borg-engine/src/projection.rs.
  import opened Core
  import opened Log
  import Spans

  // A committed layer as a projection is handed it: its place, its author and the cells of its membership.
  datatype Folded = Folded(id: LayerId, branch: BranchId, author: Author, cells: seq<CellRef>)

  type History = map<CellRef, seq<LayerId>>

  // --- The log's own answer ---

  // A source layer on the path, above `since`, that wrote the cell.
  predicate Writes(l: Folded, path: seq<Segment>, cell: CellRef, since: LayerId) {
    l.author.Source? && cell in l.cells && since < l.id && Reaches(path, l.branch, l.id)
  }

  predicate Reaches(path: seq<Segment>, b: BranchId, id: LayerId) {
    exists k :: 0 <= k < |path| && path[k].branch == b && id <= path[k].bound
  }

  ghost predicate Touched(log: set<Folded>, path: seq<Segment>, cell: CellRef, since: LayerId) {
    exists l :: l in log && Writes(l, path, cell, since)
  }

  // The earliest layer that wrote the cell in range, if one did.
  ghost predicate Earliest(log: set<Folded>, path: seq<Segment>, cell: CellRef, since: LayerId, r: Option<LayerId>) {
    && (r.Some? ==> exists l :: l in log && Writes(l, path, cell, since) && l.id == r.value)
    && (forall l :: l in log && Writes(l, path, cell, since) ==> r.Some? && r.value <= l.id)
  }

  // --- The index ---

  function HistoryOf(cells: map<BranchId, History>, b: BranchId, cell: CellRef): seq<LayerId> {
    if b in cells && cell in cells[b] then cells[b][cell] else []
  }

  ghost predicate WroteHere(log: set<Folded>, b: BranchId, cell: CellRef, id: LayerId) {
    exists l :: l in log && l.author.Source? && l.branch == b && l.id == id && cell in l.cells
  }

  // Stored histories hold exactly the layers that wrote the cell, in no order, perhaps more than once.
  ghost predicate CellsAgree(log: set<Folded>, cells: map<BranchId, History>) {
    forall b: BranchId, cell: CellRef, id: LayerId :: id in HistoryOf(cells, b, cell) <==> WroteHere(log, b, cell, id)
  }

  ghost predicate SourceHere(log: set<Folded>, b: BranchId, id: LayerId) {
    exists l :: l in log && l.author.Source? && l.branch == b && l.id == id
  }

  ghost predicate HighestAgrees(log: set<Folded>, highest: map<BranchId, LayerId>) {
    forall b: BranchId, id: LayerId :: SourceHere(log, b, id) ==> b in highest && id <= highest[b]
  }

  ghost predicate HighestReal(log: set<Folded>, highest: map<BranchId, LayerId>) {
    forall b: BranchId :: b in highest ==> SourceHere(log, b, highest[b])
  }

  // One cell of one layer goes into its branch's history, unless it was the last thing to go there.
  function Noted(cells: map<BranchId, History>, b: BranchId, cell: CellRef, id: LayerId): map<BranchId, History> {
    var history := HistoryOf(cells, b, cell);
    var longer := if history != [] && history[|history| - 1] == id then history else history + [id];
    cells[b := (if b in cells then cells[b] else map[])[cell := longer]]
  }

  lemma NotedHistory(cells: map<BranchId, History>, b: BranchId, cell: CellRef, id: LayerId, c: BranchId, other: CellRef, x: LayerId)
    ensures x in HistoryOf(Noted(cells, b, cell, id), c, other) <==>
              x in HistoryOf(cells, c, other) || (c == b && other == cell && x == id)
  {
    var history := HistoryOf(cells, b, cell);
    if history != [] && history[|history| - 1] == id {
      assert id in history;
    }
  }

  class CellTouchIndex {
    var cells: map<BranchId, History>
    var highest: map<BranchId, LayerId>
    var position: LayerId
    // The committed layers folded in so far.
    ghost var folded: set<Folded>

    ghost predicate Valid()
      reads this
    {
      && CellsAgree(folded, cells) && HighestAgrees(folded, highest) && HighestReal(folded, highest)
      && (forall l :: l in folded ==> l.id <= position)
    }

    constructor ()
      ensures Valid() && folded == {} && position == 0
    {
      cells, highest, position, folded := map[], map[], 0, {};
    }

    // Fold one committed layer, in whatever order layers come, once or again.
    method Apply(l: Folded)
      requires Valid()
      modifies this
      ensures Valid() && folded == old(folded) + {l} && position == Max(old(position), l.id)
    {
      ghost var before := folded;
      if l.author.Source? {
        Record(l.branch, l.id, l.cells);
        RecordedAgrees(before, l, old(cells), cells, old(highest), highest);
      } else {
        SkippedAgrees(before, l, cells, highest);
      }
      position := Max(position, l.id);
      folded := folded + {l};
    }

    method Record(b: BranchId, id: LayerId, written: seq<CellRef>)
      modifies this`cells, this`highest
      ensures highest == old(highest)[b := if b in old(highest) then Max(old(highest)[b], id) else id]
      ensures forall c: BranchId, cell: CellRef, x: LayerId :: x in HistoryOf(cells, c, cell) <==>
                x in HistoryOf(old(cells), c, cell) || (c == b && cell in written && x == id)
    {
      highest := highest[b := if b in highest then Max(highest[b], id) else id];
      for n := 0 to |written|
        invariant highest == old(highest)[b := if b in old(highest) then Max(old(highest)[b], id) else id]
        invariant forall c: BranchId, cell: CellRef, x: LayerId :: x in HistoryOf(cells, c, cell) <==>
                    x in HistoryOf(old(cells), c, cell) || (c == b && cell in written[..n] && x == id)
      {
        NotedAll(cells, b, written[n], id);
        assert written[..n + 1] == written[..n] + [written[n]];
        cells := Noted(cells, b, written[n], id);
      }
      assert written[..|written|] == written;
    }

    // Has anything at all been written along this path since?
    method MovedSince(path: seq<Segment>, since: LayerId) returns (moved: bool)
      requires Valid()
      ensures moved <==> Moved(highest, path, since)
    {
      for k := 0 to |path|
        invariant forall j :: 0 <= j < k && path[j].branch in highest ==>
                    !(since < highest[path[j].branch] <= path[j].bound)
      {
        if path[k].branch in highest && since < highest[path[k].branch] <= path[k].bound {
          return true;
        }
      }
      moved := false;
    }

    // The first listed cell that has been touched since, with the earliest layer that did it.
    method FirstTouchedSince(path: seq<Segment>, guards: seq<CellRef>, since: LayerId) returns (r: Option<(nat, LayerId)>)
      requires Valid()
      ensures FirstTouched(folded, path, guards, since, r)
    {
      for k := 0 to |guards|
        invariant forall j :: 0 <= j < k ==> !Touched(folded, path, guards[j], since)
      {
        var layer := Lookup(path, guards[k], since);
        if layer.Some? {
          return Some((k, layer.value));
        }
      }
      r := None;
    }

    method Lookup(path: seq<Segment>, cell: CellRef, since: LayerId) returns (earliest: Option<LayerId>)
      requires Valid()
      ensures Earliest(folded, path, cell, since, earliest)
    {
      earliest := None;
      for k := 0 to |path|
        invariant EarliestIn(cells, path[..k], cell, since, earliest)
      {
        var history := HistoryOf(cells, path[k].branch, cell);
        for n := 0 to |history|
          invariant EarliestSoFar(cells, path[..k], cell, since, path[k].bound, history[..n], earliest)
        {
          assert history[..n + 1] == history[..n] + [history[n]];
          if since < history[n] <= path[k].bound && (earliest.None? || history[n] < earliest.value) {
            earliest := Some(history[n]);
          }
        }
        assert history[..|history|] == history;
        EarliestNext(cells, path, cell, since, k, earliest);
      }
      assert path[..|path|] == path;
      IndexIsLog(folded, cells, path, cell, since, earliest);
    }
  }

  lemma NotedAll(cells: map<BranchId, History>, b: BranchId, cell: CellRef, id: LayerId)
    ensures forall c: BranchId, other: CellRef, x: LayerId :: x in HistoryOf(Noted(cells, b, cell, id), c, other) <==>
              x in HistoryOf(cells, c, other) || (c == b && other == cell && x == id)
  {
    forall c: BranchId, other: CellRef, x: LayerId
      ensures x in HistoryOf(Noted(cells, b, cell, id), c, other) <==>
                x in HistoryOf(cells, c, other) || (c == b && other == cell && x == id)
    {
      NotedHistory(cells, b, cell, id, c, other, x);
    }
  }

  lemma RecordedAgrees(log: set<Folded>, l: Folded, cells: map<BranchId, History>, cells': map<BranchId, History>,
                       highest: map<BranchId, LayerId>, highest': map<BranchId, LayerId>)
    requires CellsAgree(log, cells) && HighestAgrees(log, highest) && HighestReal(log, highest) && l.author.Source?
    requires highest' == highest[l.branch := if l.branch in highest then Max(highest[l.branch], l.id) else l.id]
    requires forall c: BranchId, cell: CellRef, x: LayerId :: x in HistoryOf(cells', c, cell) <==>
               x in HistoryOf(cells, c, cell) || (c == l.branch && cell in l.cells && x == l.id)
    ensures CellsAgree(log + {l}, cells') && HighestAgrees(log + {l}, highest') && HighestReal(log + {l}, highest')
  {
    forall b: BranchId, cell: CellRef, id: LayerId
      ensures WroteHere(log + {l}, b, cell, id) <==> WroteHere(log, b, cell, id) || (b == l.branch && cell in l.cells && id == l.id)
    {
      if WroteHere(log, b, cell, id) {
        var m :| m in log && m.author.Source? && m.branch == b && m.id == id && cell in m.cells;
        assert m in log + {l};
      }
      assert l in log + {l};
    }
    forall b: BranchId, id: LayerId
      ensures SourceHere(log + {l}, b, id) <==> SourceHere(log, b, id) || (b == l.branch && id == l.id)
    {
      if SourceHere(log, b, id) {
        var m :| m in log && m.author.Source? && m.branch == b && m.id == id;
        assert m in log + {l};
      }
      assert l in log + {l};
    }
  }

  lemma SkippedAgrees(log: set<Folded>, l: Folded, cells: map<BranchId, History>, highest: map<BranchId, LayerId>)
    requires CellsAgree(log, cells) && HighestAgrees(log, highest) && HighestReal(log, highest) && !l.author.Source?
    ensures CellsAgree(log + {l}, cells) && HighestAgrees(log + {l}, highest) && HighestReal(log + {l}, highest)
  {
    forall b: BranchId, cell: CellRef, id: LayerId
      ensures WroteHere(log + {l}, b, cell, id) <==> WroteHere(log, b, cell, id)
    {
      if WroteHere(log, b, cell, id) {
        var m :| m in log && m.author.Source? && m.branch == b && m.id == id && cell in m.cells;
        assert m in log + {l};
      }
    }
    forall b: BranchId, id: LayerId
      ensures SourceHere(log + {l}, b, id) <==> SourceHere(log, b, id)
    {
      if SourceHere(log, b, id) {
        var m :| m in log && m.author.Source? && m.branch == b && m.id == id;
        assert m in log + {l};
      }
    }
  }

  // --- The lookup loop, over stored histories ---

  predicate InRange(cells: map<BranchId, History>, path: seq<Segment>, cell: CellRef, since: LayerId, id: LayerId) {
    exists k :: 0 <= k < |path| && id in HistoryOf(cells, path[k].branch, cell) && since < id <= path[k].bound
  }

  lemma RangeNext(cells: map<BranchId, History>, path: seq<Segment>, cell: CellRef, since: LayerId, k: nat)
    requires k < |path|
    ensures forall id: LayerId :: InRange(cells, path[..k + 1], cell, since, id) <==>
              InRange(cells, path[..k], cell, since, id)
              || (id in HistoryOf(cells, path[k].branch, cell) && since < id <= path[k].bound)
  {
    forall id: LayerId | id in HistoryOf(cells, path[k].branch, cell) && since < id <= path[k].bound
      ensures InRange(cells, path[..k + 1], cell, since, id)
    {
      assert path[..k + 1][k] == path[k];
    }
    forall id: LayerId | InRange(cells, path[..k], cell, since, id)
      ensures InRange(cells, path[..k + 1], cell, since, id)
    {
      var j :| 0 <= j < k && id in HistoryOf(cells, path[..k][j].branch, cell) && since < id <= path[..k][j].bound;
      assert path[..k + 1][j] == path[..k][j];
    }
  }

  ghost predicate EarliestIn(cells: map<BranchId, History>, path: seq<Segment>, cell: CellRef, since: LayerId, r: Option<LayerId>) {
    && (r.Some? ==> InRange(cells, path, cell, since, r.value))
    && (forall id: LayerId :: InRange(cells, path, cell, since, id) ==> r.Some? && r.value <= id)
  }

  ghost predicate EarliestSoFar(cells: map<BranchId, History>, path: seq<Segment>, cell: CellRef, since: LayerId,
                                bound: LayerId, history: seq<LayerId>, r: Option<LayerId>)
  {
    && (r.Some? ==> InRange(cells, path, cell, since, r.value) || (r.value in history && since < r.value <= bound))
    && (forall id: LayerId :: InRange(cells, path, cell, since, id) || (id in history && since < id <= bound) ==>
          r.Some? && r.value <= id)
  }

  lemma EarliestNext(cells: map<BranchId, History>, path: seq<Segment>, cell: CellRef, since: LayerId, k: nat, r: Option<LayerId>)
    requires k < |path|
    requires EarliestSoFar(cells, path[..k], cell, since, path[k].bound, HistoryOf(cells, path[k].branch, cell), r)
    ensures EarliestIn(cells, path[..k + 1], cell, since, r)
  {
    RangeNext(cells, path, cell, since, k);
    var longer := path[..k + 1];
    forall id: LayerId | InRange(cells, longer, cell, since, id)
      ensures r.Some? && r.value <= id
    {
      assert InRange(cells, path[..k], cell, since, id)
             || (id in HistoryOf(cells, path[k].branch, cell) && since < id <= path[k].bound);
    }
  }

  lemma IndexIsLog(log: set<Folded>, cells: map<BranchId, History>, path: seq<Segment>, cell: CellRef, since: LayerId, r: Option<LayerId>)
    requires CellsAgree(log, cells) && EarliestIn(cells, path, cell, since, r)
    ensures Earliest(log, path, cell, since, r)
  {
    if r.Some? {
      var k :| 0 <= k < |path| && r.value in HistoryOf(cells, path[k].branch, cell) && since < r.value <= path[k].bound;
      assert WroteHere(log, path[k].branch, cell, r.value);
    }
    forall l | l in log && Writes(l, path, cell, since)
      ensures r.Some? && r.value <= l.id
    {
      var k :| 0 <= k < |path| && path[k].branch == l.branch && l.id <= path[k].bound;
      assert WroteHere(log, l.branch, cell, l.id);
      assert InRange(cells, path, cell, since, l.id);
    }
  }

  // --- One answer, however the index came to be ---

  // The first listed cell touched in range, with its earliest layer, as the log itself has it.
  ghost predicate FirstTouched(log: set<Folded>, path: seq<Segment>, guards: seq<CellRef>, since: LayerId, r: Option<(nat, LayerId)>) {
    && (r.None? ==> forall k :: 0 <= k < |guards| ==> !Touched(log, path, guards[k], since))
    && (r.Some? ==>
          && r.value.0 < |guards| && Earliest(log, path, guards[r.value.0], since, Some(r.value.1))
          && forall k :: 0 <= k < r.value.0 ==> !Touched(log, path, guards[k], since))
  }

  // Two indexes that have folded the same layers answer alike, whatever order the layers came in and
  // however often: a live index, a rebuild from zero and a refold are the same index.
  lemma OneAnswer(log: set<Folded>, path: seq<Segment>, guards: seq<CellRef>, since: LayerId,
                  one: Option<(nat, LayerId)>, two: Option<(nat, LayerId)>)
    requires FirstTouched(log, path, guards, since, one) && FirstTouched(log, path, guards, since, two)
    ensures one == two
  {
    if one.Some? {
      EarliestTouches(log, path, guards[one.value.0], since, one.value.1);
    }
    if two.Some? {
      EarliestTouches(log, path, guards[two.value.0], since, two.value.1);
    }
  }

  lemma EarliestTouches(log: set<Folded>, path: seq<Segment>, cell: CellRef, since: LayerId, id: LayerId)
    requires Earliest(log, path, cell, since, Some(id))
    ensures Touched(log, path, cell, since)
  {
  }

  // --- The quick negative ---

  ghost predicate Moved(highest: map<BranchId, LayerId>, path: seq<Segment>, since: LayerId) {
    exists k :: 0 <= k < |path| && path[k].branch in highest && since < highest[path[k].branch] <= path[k].bound
  }

  ghost predicate AnyTouched(log: set<Folded>, path: seq<Segment>, since: LayerId) {
    exists l :: l in log && l.author.Source? && since < l.id && Reaches(path, l.branch, l.id)
  }

  // A branch that has moved past the bound it is read at, where that bound is past `since`.
  predicate Overshot(highest: map<BranchId, LayerId>, s: Segment, since: LayerId) {
    s.branch in highest && since < s.bound < highest[s.branch]
  }

  // "Nothing moved" is never wrong about movement, and is exact where no segment is overshot.
  lemma QuickAnswer(log: set<Folded>, highest: map<BranchId, LayerId>, path: seq<Segment>, since: LayerId)
    requires HighestAgrees(log, highest) && HighestReal(log, highest)
    ensures Moved(highest, path, since) ==> AnyTouched(log, path, since)
    ensures (forall k :: 0 <= k < |path| ==> !Overshot(highest, path[k], since)) ==>
              (AnyTouched(log, path, since) ==> Moved(highest, path, since))
  {
    if k :| 0 <= k < |path| && path[k].branch in highest && since < highest[path[k].branch] <= path[k].bound {
      assert SourceHere(log, path[k].branch, highest[path[k].branch]);
      var l :| l in log && l.author.Source? && l.branch == path[k].branch && l.id == highest[path[k].branch];
      assert Reaches(path, l.branch, l.id);
    }
    if AnyTouched(log, path, since) && forall k :: 0 <= k < |path| ==> !Overshot(highest, path[k], since) {
      var l :| l in log && l.author.Source? && since < l.id && Reaches(path, l.branch, l.id);
      var k :| 0 <= k < |path| && path[k].branch == l.branch && l.id <= path[k].bound;
      assert SourceHere(log, l.branch, l.id) && !Overshot(highest, path[k], since);
    }
  }

  // A source layer within a segment's reach, newer than `since`.
  ghost predicate TouchedOn(log: set<Folded>, s: Segment, since: LayerId) {
    exists l :: l in log && l.author.Source? && l.branch == s.branch && since < l.id <= s.bound
  }

  // The quick answer misses movement exactly when every segment that moved has also moved past its bound.
  lemma QuickIsWrong(log: set<Folded>, highest: map<BranchId, LayerId>, path: seq<Segment>, since: LayerId)
    requires HighestAgrees(log, highest) && HighestReal(log, highest)
    ensures AnyTouched(log, path, since) ==>
              (!Moved(highest, path, since) <==>
               forall k :: 0 <= k < |path| && TouchedOn(log, path[k], since) ==> Overshot(highest, path[k], since))
  {
    if AnyTouched(log, path, since) {
      var l :| l in log && l.author.Source? && since < l.id && Reaches(path, l.branch, l.id);
      var j :| 0 <= j < |path| && path[j].branch == l.branch && l.id <= path[j].bound;
      assert TouchedOn(log, path[j], since);
      forall k | 0 <= k < |path| && TouchedOn(log, path[k], since)
        ensures path[k].branch in highest && since < highest[path[k].branch] && since < path[k].bound
      {
        var m :| m in log && m.author.Source? && m.branch == path[k].branch && since < m.id <= path[k].bound;
        assert SourceHere(log, m.branch, m.id);
      }
      forall k | 0 <= k < |path| && path[k].branch in highest && since < highest[path[k].branch] <= path[k].bound
        ensures TouchedOn(log, path[k], since)
      {
        assert SourceHere(log, path[k].branch, highest[path[k].branch]);
      }
    }
  }

  lemma NothingTouched(log: set<Folded>, path: seq<Segment>, since: LayerId, cell: CellRef)
    requires !AnyTouched(log, path, since)
    ensures !Touched(log, path, cell, since)
  {
    if l :| l in log && Writes(l, path, cell, since) {
      assert AnyTouched(log, path, since);
    }
  }

  // The index has seen only layers this log has committed.
  ghost predicate FromLog(log: set<Folded>, layers: Layers) {
    forall l :: l in log && l.author.Source? ==> CommittedOn(layers, l.branch, l.id)
  }

  // For a round of `catch_up`, forked on the branch it settles, "nothing moved" means no guard can trip:
  // the branch is read at its head, and every ancestor below the branch's origin, which is below the fork.
  lemma CatchUpIsQuick(log: set<Folded>, highest: map<BranchId, LayerId>, layers: Layers, branches: Branches,
                       heads: map<BranchId, LayerId>, b: BranchId, fork: LayerId, cell: CellRef)
    requires HighestAgrees(log, highest) && HighestReal(log, highest) && FromLog(log, layers)
    requires BranchesOk(layers, branches) && HeadsOk(layers, heads)
    requires CommittedOn(layers, b, fork)
    ensures var path := PathFrom(layers, branches, b, if b in heads then heads[b] else 0, None);
            !Moved(highest, path, fork) ==> !Touched(log, path, cell, fork)
  {
    assert HeadOk(layers, heads, b);
    var path := PathFrom(layers, branches, b, heads[b], None);
    forall k | 0 <= k < |path|
      ensures !Overshot(highest, path[k], fork)
    {
      if k == 0 {
        if b in highest {
          assert SourceHere(log, b, highest[b]);
        }
      } else {
        AncestorBounds(layers, branches, b, heads[b], None, k);
      }
    }
    QuickAnswer(log, highest, path, fork);
    if !Moved(highest, path, fork) {
      NothingTouched(log, path, fork, cell);
    }
  }

  // For `recompute` the fork may be an ancestor's layer. There a source layer can since have landed beneath
  // an ancestor's bound, with one above the bound to hide it and nothing on the branch itself to tell.
  ghost predicate HiddenBeneath(log: set<Folded>, highest: map<BranchId, LayerId>, path: seq<Segment>, since: LayerId)
    requires path != []
  {
    && !TouchedOn(log, path[0], since)
    && (exists k :: 0 < k < |path| && TouchedOn(log, path[k], since))
    && (forall k :: 0 < k < |path| && TouchedOn(log, path[k], since) ==> Overshot(highest, path[k], since))
  }

  lemma OwnNeverOvershoots(log: set<Folded>, highest: map<BranchId, LayerId>, layers: Layers, heads: map<BranchId, LayerId>,
                           b: BranchId, since: LayerId)
    requires HighestReal(log, highest) && FromLog(log, layers) && HeadsOk(layers, heads)
    ensures !Overshot(highest, Segment(b, if b in heads then heads[b] else 0), since)
  {
    assert HeadOk(layers, heads, b);
    if b in highest {
      assert SourceHere(log, b, highest[b]);
    }
  }

  lemma AnySegment(log: set<Folded>, path: seq<Segment>, since: LayerId)
    ensures AnyTouched(log, path, since) <==> exists k :: 0 <= k < |path| && TouchedOn(log, path[k], since)
  {
    if l :| l in log && l.author.Source? && since < l.id && Reaches(path, l.branch, l.id) {
      var k :| 0 <= k < |path| && path[k].branch == l.branch && l.id <= path[k].bound;
      assert TouchedOn(log, path[k], since);
    }
    if k :| 0 <= k < |path| && TouchedOn(log, path[k], since) {
      var l :| l in log && l.author.Source? && l.branch == path[k].branch && since < l.id <= path[k].bound;
      assert Reaches(path, l.branch, l.id);
    }
  }

  // The quick negative is wrong exactly there, and where it is right no guard can trip.
  lemma RecomputeIsQuickWhen(log: set<Folded>, highest: map<BranchId, LayerId>, layers: Layers, branches: Branches,
                             heads: map<BranchId, LayerId>, b: BranchId, at: LayerId)
    requires HighestAgrees(log, highest) && HighestReal(log, highest) && FromLog(log, layers)
    requires BranchesOk(layers, branches) && HeadsOk(layers, heads)
    ensures var path := PathFrom(layers, branches, b, if b in heads then heads[b] else 0, None);
            && (AnyTouched(log, path, at) && !Moved(highest, path, at) <==> HiddenBeneath(log, highest, path, at))
            && (!Moved(highest, path, at) && !HiddenBeneath(log, highest, path, at) ==>
                  forall cell :: !Touched(log, path, cell, at))
  {
    hide TouchedOn, Overshot, Moved, Touched, AnyTouched, HighestAgrees, HighestReal, HeadsOk, FromLog;
    var path := PathFrom(layers, branches, b, if b in heads then heads[b] else 0, None);
    OwnNeverOvershoots(log, highest, layers, heads, b, at);
    AnySegment(log, path, at);
    QuickIsWrong(log, highest, path, at);
    if !AnyTouched(log, path, at) {
      forall cell
        ensures !Touched(log, path, cell, at)
      {
        NothingTouched(log, path, at, cell);
      }
    }
    if HiddenBeneath(log, highest, path, at) {
      forall k | 0 <= k < |path| && TouchedOn(log, path[k], at)
        ensures Overshot(highest, path[k], at)
      {
      }
    }
  }

  // An ancestor's log: 4 committed, 5 as it stands, 6 derived from 4 and what the branch forks at, 7 if it is there.
  function AncestorLog(ancestor: BranchId, five: LayerState, seven: bool): Layers {
    var layers: Layers := map[4 := Layer(4, ancestor, ValueLayer, Source, Committed, None),
                              5 := Layer(5, ancestor, ValueLayer, Source, five, None),
                              6 := Layer(6, ancestor, ValueLayer, Derived(1, 4), Committed, None)];
    if seven then layers[7 := Layer(7, ancestor, ValueLayer, Source, Committed, None)] else layers
  }

  lemma AncestorPath(own: BranchId, ancestor: BranchId, five: LayerState, seven: bool)
    requires own != ancestor
    ensures var layers, branches := AncestorLog(ancestor, five, seven), map[ancestor := None, own := Some(6)];
            BranchesOk(layers, branches) && PathFrom(layers, branches, own, 0, None) == [Segment(own, 0), Segment(ancestor, 6)]
  {
    var layers, branches := AncestorLog(ancestor, five, seven), map[ancestor := None, own := Some(6)];
    assert PathFrom(layers, branches, ancestor, 6, None) == [Segment(ancestor, 6)];
  }

  // Called while 5 is open, a recompute settles at 4, the highest source layer the path shows.
  lemma SettlesAtFour(own: BranchId, ancestor: BranchId)
    requires own != ancestor
    ensures var layers := AncestorLog(ancestor, Open, false);
            Spans.IsHighestSource(layers, [Segment(own, 0), Segment(ancestor, 6)], Some(4))
  {
    var layers, path := AncestorLog(ancestor, Open, false), [Segment(own, 0), Segment(ancestor, 6)];
    assert SourceOn(layers, path[1].branch, 4) && 4 <= path[1].bound;
  }

  // Before it merges, 5 commits within the branch's reach and 7 above it, which is all the index can tell.
  lemma NewerHidesOlder(own: BranchId, ancestor: BranchId, cell: CellRef)
    requires own != ancestor
    ensures var called, now := AncestorLog(ancestor, Open, false), AncestorLog(ancestor, Committed, true);
            var branches, heads := map[ancestor := None, own := Some(6)], map[ancestor := 7];
            var log := {Folded(4, ancestor, Source, []), Folded(5, ancestor, Source, [cell]), Folded(7, ancestor, Source, [])};
            && BranchesOk(called, branches) && BranchesOk(now, branches)
            && Spans.IsHighestSource(called, PathFrom(called, branches, own, 0, None), Some(4))
            && HighestAgrees(log, heads) && HighestReal(log, heads) && FromLog(log, now) && HeadsOk(now, heads)
            && var path := PathFrom(now, branches, own, 0, None);
               && HiddenBeneath(log, heads, path, 4) && !Moved(heads, path, 4) && Touched(log, path, cell, 4)
  {
    hide Spans.IsHighestSource, HiddenBeneath, Moved, Touched, BranchesOk, PathFrom;
    AncestorPath(own, ancestor, Open, false);
    AncestorPath(own, ancestor, Committed, true);
    SettlesAtFour(own, ancestor);
    FiveIsHidden(own, ancestor, cell);
  }

  lemma FiveIsHidden(own: BranchId, ancestor: BranchId, cell: CellRef)
    requires own != ancestor
    ensures var log := {Folded(4, ancestor, Source, []), Folded(5, ancestor, Source, [cell]), Folded(7, ancestor, Source, [])};
            var path, highest: map<BranchId, LayerId> := [Segment(own, 0), Segment(ancestor, 6)], map[ancestor := 7];
            && HighestAgrees(log, highest) && HighestReal(log, highest)
            && HiddenBeneath(log, highest, path, 4) && !Moved(highest, path, 4) && Touched(log, path, cell, 4)
  {
    var five, seven := Folded(5, ancestor, Source, [cell]), Folded(7, ancestor, Source, []);
    var log := {Folded(4, ancestor, Source, []), five, seven};
    var path := [Segment(own, 0), Segment(ancestor, 6)];
    assert five in log && seven in log && path[1] == Segment(ancestor, 6);
    assert Writes(five, path, cell, 4) && TouchedOn(log, path[1], 4);
    assert SourceHere(log, ancestor, 7);
  }

  // --- Rebuilding ---

  ghost predicate InIdOrder(known: seq<Folded>) {
    forall a, b :: 0 <= a < b < |known| ==> known[a].id < known[b].id
  }

  // The layers an index standing at `position` has not seen.
  function Unseen(known: seq<Folded>, position: LayerId): set<Folded> {
    set l | l in known && l.id > position
  }

  function Members(known: seq<Folded>): set<Folded> {
    set l | l in known
  }

  lemma NothingUnseen(position: LayerId)
    ensures Unseen([], position) == {} && Members([]) == {}
  {
  }

  lemma UnseenNext(known: seq<Folded>, l: Folded, position: LayerId)
    requires InIdOrder(known + [l])
    ensures |Unseen(known + [l], position)| == |Unseen(known, position)| + (if l.id > position then 1 else 0)
    ensures Members(known + [l]) == Members(known) + {l} && (known != [] ==> known[|known| - 1].id < l.id)
  {
    var longer := known + [l];
    forall m | m in known
      ensures m.id < l.id
    {
      var k :| 0 <= k < |known| && known[k] == m;
      assert longer[k].id < longer[|known|].id;
    }
    assert Unseen(longer, position) == Unseen(known, position) + (if l.id > position then {l} else {});
  }

  // Folds what the index has not seen, in id order, and says how much that was.
  method BringToHead(index: CellTouchIndex, known: seq<Folded>) returns (count: nat)
    requires index.Valid() && InIdOrder(known)
    requires forall l :: l in known && l.id <= index.position ==> l in index.folded
    modifies index
    ensures index.Valid() && index.folded == old(index.folded) + Members(known)
    ensures count == |Unseen(known, old(index.position))|
  {
    hide Unseen, Members, InIdOrder, CellsAgree, HighestAgrees, HighestReal;
    count := 0;
    NothingUnseen(index.position);
    assert known[..0] == [];
    for n := 0 to |known|
      invariant index.Valid()
      invariant index.folded == old(index.folded) + Members(known[..n])
      invariant index.position == old(index.position) || (n > 0 && index.position == known[n - 1].id)
      invariant index.position >= old(index.position)
      invariant count == |Unseen(known[..n], old(index.position))|
    {
      assert known[..n + 1] == known[..n] + [known[n]];
      PrefixInOrder(known, n + 1);
      UnseenNext(known[..n], known[n], old(index.position));
      if index.position >= known[n].id {
        assert known[n] in known;
        continue;
      }
      count := count + 1;
      index.Apply(known[n]);
    }
    assert known[..|known|] == known;
  }

  lemma PrefixInOrder(known: seq<Folded>, n: nat)
    requires n <= |known| && InIdOrder(known)
    ensures InIdOrder(known[..n])
  {
  }
}
