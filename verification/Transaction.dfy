/** What a transaction records about itself, and what a partly applied round owes. */
module Transactions {
  // crates/borg-core/src/transaction.rs, crates/borg-engine/src/write.rs, crates/borg-host/src/ops.rs.
  import opened Core

  // One access, in the order it happened: a read (of a cell that may be absent) or a write.
  datatype Access = Observed(at: CellAt) | Wrote(cell: CellRef)

  // The read that matters to the parent: the transaction had not written the cell yet.
  ghost predicate ReadFirst(history: seq<Access>, at: CellAt) {
    exists k :: 0 <= k < |history| && history[k] == Observed(at) && Wrote(at.cell) !in history[..k]
  }

  // A history in which nothing is read once it has been written.
  ghost predicate ProbesFirst(history: seq<Access>) {
    forall k :: 0 <= k < |history| && history[k].Observed? ==> Wrote(history[k].at.cell) !in history[..k]
  }

  ghost predicate Records(history: seq<Access>, recorded: set<CellAt>, written: set<CellRef>) {
    && (forall at :: at in recorded <==> ReadFirst(history, at))
    && (forall c :: c in written <==> Wrote(c) in history)
  }

  lemma AppendedRead(history: seq<Access>, x: Access, at: CellAt)
    ensures ReadFirst(history + [x], at) <==>
              ReadFirst(history, at) || (x == Observed(at) && Wrote(at.cell) !in history)
  {
    var longer := history + [x];
    assert forall k :: 0 <= k <= |history| ==> longer[..k] == history[..k];
    assert history[..|history|] == history;
    if ReadFirst(history, at) {
      var k :| 0 <= k < |history| && history[k] == Observed(at) && Wrote(at.cell) !in history[..k];
      assert longer[k] == Observed(at) && longer[..k] == history[..k];
    }
    if x == Observed(at) && Wrote(at.cell) !in history {
      assert longer[|history|] == x && longer[..|history|] == history;
    }
  }

  lemma Appended(history: seq<Access>, x: Access, recorded: set<CellAt>, written: set<CellRef>)
    requires Records(history, recorded, written)
    ensures x.Observed? ==>
              Records(history + [x], if x.at.cell in written then recorded else recorded + {x.at}, written)
    ensures x.Wrote? ==> Records(history + [x], recorded, written + {x.cell})
  {
    forall at
      ensures ReadFirst(history + [x], at) <==>
                ReadFirst(history, at) || (x == Observed(at) && Wrote(at.cell) !in history)
    {
      AppendedRead(history, x, at);
    }
  }

  function Reads(history: seq<Access>): seq<CellAt> {
    if history == [] then []
    else Reads(history[..|history| - 1]) + (if history[|history| - 1].Observed? then [history[|history| - 1].at] else [])
  }

  function Writes(history: seq<Access>): seq<CellRef> {
    if history == [] then []
    else Writes(history[..|history| - 1]) + (if history[|history| - 1].Wrote? then [history[|history| - 1].cell] else [])
  }

  lemma {:induction false} Projected(history: seq<Access>)
    ensures forall at :: at in Reads(history) <==> Observed(at) in history
    ensures forall c :: c in Writes(history) <==> Wrote(c) in history
  {
    if history != [] {
      Projected(history[..|history| - 1]);
      assert history == history[..|history| - 1] + [history[|history| - 1]];
    }
  }

  // Draining a session's reads before its writes leaves the same record as the order it made them in.
  lemma Batched(before: seq<Access>, session: seq<Access>, recorded: set<CellAt>, written: set<CellRef>,
                recorded': set<CellAt>, written': set<CellRef>)
    requires ProbesFirst(session) && Records(before, recorded, written)
    requires recorded' == recorded + set at | at in Reads(session) && at.cell !in written
    requires written' == written + set c | c in Writes(session)
    ensures Records(before + session, recorded', written')
  {
    Projected(session);
    forall at
      ensures at in recorded' <==> ReadFirst(before + session, at)
    {
      BatchedRead(before, session, at);
    }
  }

  lemma BatchedRead(before: seq<Access>, session: seq<Access>, at: CellAt)
    requires ProbesFirst(session)
    ensures ReadFirst(before + session, at) <==>
              ReadFirst(before, at) || (Observed(at) in session && Wrote(at.cell) !in before)
  {
    var whole, w := before + session, Wrote(at.cell);
    assert forall k :: 0 <= k <= |before| ==> whole[..k] == before[..k];
    assert forall k :: 0 <= k <= |session| ==> whole[..|before| + k] == before + session[..k];
    if ReadFirst(before, at) {
      var k :| 0 <= k < |before| && before[k] == Observed(at) && w !in before[..k];
      assert whole[k] == Observed(at) && w !in whole[..k];
    }
    if Observed(at) in session && w !in before {
      var k :| 0 <= k < |session| && session[k] == Observed(at);
      assert whole[|before| + k] == Observed(at) && w !in whole[..|before| + k];
    }
    if ReadFirst(whole, at) && !ReadFirst(before, at) {
      var k :| 0 <= k < |whole| && whole[k] == Observed(at) && w !in whole[..k];
      assert k >= |before|;
      assert session[k - |before|] == Observed(at);
      assert whole[..k] == before + session[..k - |before|];
    }
  }

  // What a session's two lists owe the order its accesses happened in.
  ghost predicate Faithful(touched: set<CellRef>, observed: seq<CellAt>, authored: seq<CellRef>, history: seq<Access>) {
    && observed == Reads(history) && authored == Writes(history)
    && ProbesFirst(history)
    && (forall c :: Wrote(c) in history && ExistenceOf(c) == c ==> c in touched)
  }

  lemma FaithfulStep(touched: set<CellRef>, observed: seq<CellAt>, authored: seq<CellRef>, history: seq<Access>, x: Access)
    requires Faithful(touched, observed, authored, history)
    requires x.Observed? ==> Wrote(x.at.cell) !in history
    requires x.Wrote? && ExistenceOf(x.cell) == x.cell ==> x.cell in touched
    ensures Faithful(touched, observed + (if x.Observed? then [x.at] else []),
                     authored + (if x.Wrote? then [x.cell] else []), history + [x])
  {
    var longer := history + [x];
    assert longer[..|longer| - 1] == history;
    assert forall k :: 0 <= k <= |history| ==> longer[..k] == history[..k];
    assert history[..|history|] == history;
  }

  lemma FaithfulTouch(touched: set<CellRef>, observed: seq<CellAt>, authored: seq<CellRef>, history: seq<Access>, cell: CellRef)
    requires Faithful(touched, observed, authored, history)
    ensures Faithful(touched + {ExistenceOf(cell)}, observed, authored, history)
    ensures ExistenceOf(cell) !in touched ==> Wrote(ExistenceOf(cell)) !in history
  {
    assert ExistenceOf(ExistenceOf(cell)) == ExistenceOf(cell);
  }

  // The probe and the implied write that come before a property write.
  function Implied(touched: set<CellRef>, cell: CellRef, present: bool): seq<Access> {
    var existence := ExistenceOf(cell);
    if existence in touched || existence == cell then []
    else if present then [Observed(CellAt(existence, UNVERSIONED))]
    else [Observed(CellAt(existence, UNVERSIONED)), Wrote(existence)]
  }

  // One client write session. `history` is the order its accesses really happened in.
  class WriteSession {
    var touched: set<CellRef>
    var observed: seq<CellAt>
    var authored: seq<CellRef>
    ghost var history: seq<Access>

    ghost predicate Valid()
      reads this
    {
      Faithful(touched, observed, authored, history)
    }

    constructor ()
      ensures Valid() && history == []
    {
      touched, observed, authored, history := {}, [], [], [];
    }

    // The single write. `present` is what the existence probe finds on the committed read path.
    method Put(cell: CellRef, present: bool)
      requires Valid()
      modifies this
      ensures Valid() && touched == old(touched) + {ExistenceOf(cell)}
      ensures history == old(history) + Implied(old(touched), cell, present) + [Wrote(cell)]
    {
      ImplyExistence(cell, present);
      FaithfulStep(touched, observed, authored, history, Wrote(cell));
      history := history + [Wrote(cell)];
      authored := authored + [cell];
    }

    // Writing a property creates its object where nothing did, at most once per object per session.
    method ImplyExistence(cell: CellRef, present: bool)
      requires Valid()
      modifies this
      ensures Valid() && touched == old(touched) + {ExistenceOf(cell)}
      ensures history == old(history) + Implied(old(touched), cell, present)
    {
      hide Faithful;
      var existence := ExistenceOf(cell);
      FaithfulTouch(touched, observed, authored, history, cell);
      if existence in touched {
        return;
      }
      touched := touched + {existence};
      if existence == cell {
        return;
      }
      var probe := CellAt(existence, UNVERSIONED);
      FaithfulStep(touched, observed, authored, history, Observed(probe));
      assert authored + [] == authored;
      observed := observed + [probe];
      history := history + [Observed(probe)];
      if present {
        return;
      }
      FaithfulStep(touched, observed, authored, history, Wrote(existence));
      assert observed + [] == observed;
      authored := authored + [existence];
      history := history + [Wrote(existence)];
    }
  }

  class Transaction {
    const branch: BranchId
    const parent: BranchId
    const forkPoint: LayerId
    var recorded: set<CellAt>
    var written: set<CellRef>
    ghost var history: seq<Access>

    ghost predicate Valid()
      reads this
    {
      Records(history, recorded, written)
    }

    constructor (branch: BranchId, parent: BranchId, forkPoint: LayerId)
      ensures Valid() && history == []
      ensures this.branch == branch && this.parent == parent && this.forkPoint == forkPoint
    {
      this.branch, this.parent, this.forkPoint := branch, parent, forkPoint;
      recorded, written, history := {}, {}, [];
    }

    method Observe(read: CellAt)
      requires Valid()
      modifies this
      ensures Valid() && history == old(history) + [Observed(read)]
    {
      Appended(history, Observed(read), recorded, written);
      if read.cell !in written {
        recorded := recorded + {read};
      }
      history := history + [Observed(read)];
    }

    method MarkWritten(cell: CellRef)
      requires Valid()
      modifies this
      ensures Valid() && history == old(history) + [Wrote(cell)]
    {
      Appended(history, Wrote(cell), recorded, written);
      written := written + {cell};
      history := history + [Wrote(cell)];
    }

    // Folds a finished session in: all its reads, then all its writes.
    method Absorb(session: WriteSession)
      requires Valid() && session.Valid()
      modifies this
      ensures Valid() && history == old(history) + session.history
    {
      ghost var before := history;
      ghost var recorded0, written0 := recorded, written;
      for n := 0 to |session.observed|
        invariant history == before && written == written0 && unchanged(session)
        invariant recorded == recorded0 + set at | at in session.observed[..n] && at.cell !in written0
      {
        var read := session.observed[n];
        assert session.observed[..n + 1] == session.observed[..n] + [read];
        if read.cell !in written {
          recorded := recorded + {read};
        }
      }
      assert session.observed[..|session.observed|] == session.observed;
      ghost var recorded1 := recorded;
      for n := 0 to |session.authored|
        invariant history == before && recorded == recorded1 && unchanged(session)
        invariant written == written0 + set c | c in session.authored[..n]
      {
        assert session.authored[..n + 1] == session.authored[..n] + [session.authored[n]];
        written := written + {session.authored[n]};
      }
      assert session.authored[..|session.authored|] == session.authored;
      Batched(before, session.history, recorded0, written0, recorded, written);
      history := history + session.history;
    }

    // The cells this commit is contingent on: each one read before the transaction first wrote it.
    method Guards() returns (cells: set<CellRef>)
      requires Valid()
      ensures forall c :: c in cells <==> exists at: CellAt :: at.cell == c && ReadFirst(history, at)
    {
      cells := set at | at in recorded :: at.cell;
    }
  }

  // --- A round ---

  datatype Accesses = Accesses(inputs: seq<CellAt>, outputs: seq<CellAt>)

  type Invocations = map<LayerId, Accesses>

  // Everything the round itself wrote.
  function Produced(round: Invocations): set<CellAt> {
    set l, at | l in round && at in round[l].outputs :: at
  }

  // The cells a layer is contingent on: what it read and no layer of this round wrote.
  function GuardsOf(round: Invocations, layer: LayerId): set<CellRef>
    requires layer in round
  {
    set at | at in round[layer].inputs && at !in Produced(round) :: at.cell
  }

  // `consumer` read a cell that `producer` wrote, at whatever version.
  predicate Consumes(round: Invocations, consumer: LayerId, producer: LayerId) {
    consumer in round && producer in round &&
    exists r, w :: r in round[consumer].inputs && w in round[producer].outputs && r.cell == w.cell
  }

  ghost predicate ClosedUnder(round: Invocations, dropped: set<LayerId>) {
    forall l, m :: l in dropped && Consumes(round, m, l) ==> m in dropped
  }

  // The least set holding the failed layers and closed under "read what a dropped layer wrote".
  ghost predicate LeastClosed(round: Invocations, failed: set<LayerId>, dropped: set<LayerId>) {
    && failed <= dropped && ClosedUnder(round, dropped)
    && (forall d: set<LayerId> :: failed <= d && ClosedUnder(round, d) ==> dropped <= d)
  }

  function Consumers(round: Invocations, cell: CellRef): set<LayerId> {
    set l, r | l in round && r in round[l].inputs && r.cell == cell :: l
  }

  // A layer is dropped only for a reason of its own.
  lemma DroppedForAReason(round: Invocations, failed: set<LayerId>, dropped: set<LayerId>, l: LayerId)
    requires LeastClosed(round, failed, dropped) && l in dropped && l !in failed
    ensures exists d :: d in dropped && Consumes(round, l, d)
  {
    var fewer := dropped - {l};
    assert !ClosedUnder(round, fewer);
    var d, m :| d in fewer && Consumes(round, m, d) && m !in fewer;
    assert m == l;
  }

  ghost predicate Swept(round: Invocations, dropped: set<LayerId>, frontier: set<LayerId>) {
    forall l, m :: l in dropped - frontier && Consumes(round, m, l) ==> m in dropped
  }

  ghost predicate Forced(round: Invocations, failed: set<LayerId>, dropped: set<LayerId>) {
    forall d: set<LayerId> :: failed <= d && ClosedUnder(round, d) ==> dropped <= d
  }

  lemma ForcedStep(round: Invocations, failed: set<LayerId>, dropped: set<LayerId>, l: LayerId, more: set<LayerId>)
    requires Forced(round, failed, dropped) && l in dropped
    requires forall m :: m in more ==> Consumes(round, m, l)
    ensures Forced(round, failed, dropped + more)
  {
  }

  lemma NothingSwept(round: Invocations, failed: set<LayerId>)
    ensures Swept(round, failed, failed) && Forced(round, failed, failed)
  {
  }

  // Everything that must go once these layers do: a worklist over what each dropped layer wrote.
  method Cascade(round: Invocations, failed: set<LayerId>) returns (dropped: set<LayerId>)
    requires failed <= round.Keys
    ensures LeastClosed(round, failed, dropped) && dropped <= round.Keys
  {
    hide Swept, Forced;
    NothingSwept(round, failed);
    dropped := failed;
    var frontier := failed;
    while frontier != {}
      invariant failed <= dropped <= round.Keys && frontier <= dropped
      invariant Swept(round, dropped, frontier) && Forced(round, failed, dropped)
      decreases round.Keys - dropped, frontier
    {
      var layer :| layer in frontier;
      assert frontier - {layer} < frontier && frontier == (frontier - {layer}) + {layer};
      frontier := frontier - {layer};
      ghost var dropped0, frontier0 := dropped, frontier;
      for n := 0 to |round[layer].outputs|
        invariant frontier == frontier0 + (dropped - dropped0) && dropped0 <= dropped
        invariant dropped <= round.Keys
        invariant forall m :: m in dropped - dropped0 ==> Consumes(round, m, layer)
        invariant forall k :: 0 <= k < n ==> Consumers(round, round[layer].outputs[k].cell) <= dropped
      {
        var consumers := Consumers(round, round[layer].outputs[n].cell);
        frontier := frontier + (consumers - dropped);
        dropped := dropped + consumers;
      }
      assert dropped == dropped0 + (dropped - dropped0);
      ForcedStep(round, failed, dropped0, layer, dropped - dropped0);
      SweptStep(round, layer, dropped0, frontier0, dropped, frontier);
      if dropped == dropped0 {
        assert frontier == frontier0;
      } else {
        var l :| l in dropped - dropped0;
        assert l in round.Keys - dropped0 && l !in round.Keys - dropped;
      }
    }
    AllSwept(round, failed, dropped);
  }

  lemma AllSwept(round: Invocations, failed: set<LayerId>, dropped: set<LayerId>)
    requires failed <= dropped && Swept(round, dropped, {}) && Forced(round, failed, dropped)
    ensures LeastClosed(round, failed, dropped)
  {
  }

  lemma SweptStep(round: Invocations, layer: LayerId, dropped0: set<LayerId>, frontier0: set<LayerId>,
                  dropped: set<LayerId>, frontier: set<LayerId>)
    requires layer in round && Swept(round, dropped0, frontier0 + {layer})
    requires frontier == frontier0 + (dropped - dropped0) && dropped0 <= dropped
    requires forall k :: 0 <= k < |round[layer].outputs| ==> Consumers(round, round[layer].outputs[k].cell) <= dropped
    ensures Swept(round, dropped, frontier)
  {
    forall l, m | l in dropped - frontier && Consumes(round, m, l)
      ensures m in dropped
    {
      if l == layer {
        var r, w :| r in round[m].inputs && w in round[layer].outputs && r.cell == w.cell;
        var k :| 0 <= k < |round[layer].outputs| && round[layer].outputs[k] == w;
        assert m in Consumers(round, round[layer].outputs[k].cell);
      }
    }
  }
}
