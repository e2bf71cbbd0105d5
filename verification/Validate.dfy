/** How far a stored value can honestly claim to be correct, without running any code. */
module Validate {
  // crates/borg-engine/src/resolve.rs, `validate`, `FrontierTracker`; crates/borg-core/src/cell.rs, `Landed::reflects`.
  import opened Core

  // A record as a read path shows it: source data where it landed, or derived data with its claim.
  datatype Record = SourceRecord(landedAt: LayerId) | DerivedRecord(freshAsOf: LayerId, readSet: seq<CellAt>) {
    function Reflects(): LayerId {
      if SourceRecord? then landedAt else freshAsOf
    }
  }

  type Visible = map<CellAt, Record>

  // An entry is None while the record is still being validated.
  type Memo = map<CellAt, Option<LayerId>>

  function Min(a: LayerId, b: LayerId): LayerId {
    if a < b then a else b
  }

  // The walk over one record's read-set. `acc` is the lowest bound met so far; a dependency found to have
  // moved ends the walk with the record's own watermark, whatever was met before it.
  function Walk(world: Visible, readSet: seq<CellAt>, claim: LayerId, target: LayerId, acc: LayerId, memo: Memo): (r: (LayerId, Memo))
    ensures memo.Keys <= r.1.Keys
    decreases world.Keys - memo.Keys, |readSet|
  {
    if readSet == [] then (acc, memo)
    else
      var d, rest := readSet[0], readSet[1..];
      if d !in world then Walk(world, rest, claim, target, acc, memo)
      else if world[d].Reflects() > claim then (claim, memo)
      else if world[d].SourceRecord? then Walk(world, rest, claim, target, acc, memo)
      else if d in memo then
        var bound := if memo[d].Some? then memo[d].value else world[d].freshAsOf;
        Walk(world, rest, claim, target, Min(acc, bound), memo)
      else
        assert d in world.Keys - memo.Keys;
        var (bound, inner) := Walk(world, world[d].readSet, world[d].freshAsOf, target, target, memo[d := None]);
        assert world.Keys - inner[d := Some(bound)].Keys < world.Keys - memo.Keys;
        Walk(world, rest, claim, target, Min(acc, bound), inner[d := Some(bound)])
  }

  // The walk ends on every store, cyclic ones included: each nested walk leaves one record fewer unmet.
  method Validate(world: Visible, readSet: seq<CellAt>, claim: LayerId, target: LayerId, memo: Memo)
    returns (watermark: LayerId, composed: Memo)
    ensures (watermark, composed) == Walk(world, readSet, claim, target, target, memo)
    decreases world.Keys - memo.Keys
  {
    watermark, composed := target, memo;
    ghost var whole := Walk(world, readSet, claim, target, target, memo);
    for n := 0 to |readSet|
      invariant memo.Keys <= composed.Keys
      invariant Walk(world, readSet[n..], claim, target, watermark, composed) == whole
    {
      var d := readSet[n];
      assert readSet[n..][0] == d && readSet[n..][1..] == readSet[n + 1..];
      if d !in world {
        continue;
      }
      if world[d].Reflects() > claim {
        watermark := claim;
        return;
      }
      if world[d].SourceRecord? {
        continue;
      }
      var bound: LayerId;
      if d in composed {
        bound := if composed[d].Some? then composed[d].value else world[d].freshAsOf;
      } else {
        assert d in world.Keys - memo.Keys && d !in world.Keys - composed[d := None].Keys;
        var inner;
        bound, inner := Validate(world, world[d].readSet, world[d].freshAsOf, target, composed[d := None]);
        composed := inner[d := Some(bound)];
      }
      watermark := Min(watermark, bound);
    }
  }

  // --- Against the plain recursion ---

  // Read-sets never lead back: every dependency ranks below its reader.
  ghost predicate Acyclic(world: Visible, rank: CellAt -> nat) {
    forall d, r :: d in world && world[d].DerivedRecord? && r in world[d].readSet && r in world && world[r].DerivedRecord? ==>
      rank(r) < rank(d)
  }

  ghost predicate RanksBelow(world: Visible, rank: CellAt -> nat, readSet: seq<CellAt>, ceiling: nat) {
    forall r :: r in readSet && r in world && world[r].DerivedRecord? ==> rank(r) < ceiling
  }

  // The same rule with no memo.
  function Plain(world: Visible, rank: CellAt -> nat, readSet: seq<CellAt>, claim: LayerId, target: LayerId, acc: LayerId, ceiling: nat): LayerId
    requires Acyclic(world, rank) && RanksBelow(world, rank, readSet, ceiling)
    decreases ceiling, |readSet|
  {
    if readSet == [] then acc
    else
      var d, rest := readSet[0], readSet[1..];
      if d !in world then Plain(world, rank, rest, claim, target, acc, ceiling)
      else if world[d].Reflects() > claim then claim
      else if world[d].SourceRecord? then Plain(world, rank, rest, claim, target, acc, ceiling)
      else Plain(world, rank, rest, claim, target, Min(acc, PlainOf(world, rank, d, target)), ceiling)
  }

  function PlainOf(world: Visible, rank: CellAt -> nat, d: CellAt, target: LayerId): LayerId
    requires Acyclic(world, rank) && d in world && world[d].DerivedRecord?
    decreases rank(d), |world[d].readSet| + 1
  {
    Plain(world, rank, world[d].readSet, world[d].freshAsOf, target, target, rank(d))
  }

  // Finished entries hold the plain answer; unfinished ones are all above the records still to come.
  ghost predicate MemoOk(world: Visible, rank: CellAt -> nat, target: LayerId, memo: Memo, ceiling: nat)
    requires Acyclic(world, rank)
  {
    forall d :: d in memo ==>
      && d in world && world[d].DerivedRecord?
      && (if memo[d].Some? then memo[d].value == PlainOf(world, rank, d, target) else rank(d) >= ceiling)
  }

  // Nothing already in the memo is touched again, and nothing is left unfinished.
  lemma {:induction false} MemoGrows(world: Visible, readSet: seq<CellAt>, claim: LayerId, target: LayerId, acc: LayerId, memo: Memo)
    ensures var after := Walk(world, readSet, claim, target, acc, memo).1;
            forall d :: (d in memo ==> d in after && after[d] == memo[d]) && (d in after && d !in memo ==> after[d].Some?)
    decreases world.Keys - memo.Keys, |readSet|
  {
    if readSet != [] {
      var d, rest := readSet[0], readSet[1..];
      if d !in world {
        MemoGrows(world, rest, claim, target, acc, memo);
      } else if world[d].Reflects() > claim {
      } else if world[d].SourceRecord? {
        MemoGrows(world, rest, claim, target, acc, memo);
      } else if d in memo {
        var bound := if memo[d].Some? then memo[d].value else world[d].freshAsOf;
        MemoGrows(world, rest, claim, target, Min(acc, bound), memo);
      } else {
        assert d in world.Keys - memo.Keys;
        var (bound, inner) := Walk(world, world[d].readSet, world[d].freshAsOf, target, target, memo[d := None]);
        MemoGrows(world, world[d].readSet, world[d].freshAsOf, target, target, memo[d := None]);
        assert world.Keys - inner[d := Some(bound)].Keys < world.Keys - memo.Keys;
        MemoGrows(world, rest, claim, target, Min(acc, bound), inner[d := Some(bound)]);
      }
    }
  }

  lemma {:induction false} WalkIsPlain(world: Visible, rank: CellAt -> nat, readSet: seq<CellAt>, claim: LayerId, target: LayerId,
                                       acc: LayerId, memo: Memo, ceiling: nat)
    requires Acyclic(world, rank) && RanksBelow(world, rank, readSet, ceiling) && MemoOk(world, rank, target, memo, ceiling)
    ensures var r := Walk(world, readSet, claim, target, acc, memo);
            r.0 == Plain(world, rank, readSet, claim, target, acc, ceiling) && MemoOk(world, rank, target, r.1, ceiling)
    decreases world.Keys - memo.Keys, |readSet|
  {
    if readSet != [] {
      var d, rest := readSet[0], readSet[1..];
      assert forall r :: r in rest ==> r in readSet;
      if d !in world {
        WalkIsPlain(world, rank, rest, claim, target, acc, memo, ceiling);
      } else if world[d].Reflects() > claim {
      } else if world[d].SourceRecord? {
        WalkIsPlain(world, rank, rest, claim, target, acc, memo, ceiling);
      } else if d in memo {
        WalkIsPlain(world, rank, rest, claim, target, Min(acc, PlainOf(world, rank, d, target)), memo, ceiling);
      } else {
        assert d in world.Keys - memo.Keys;
        var (bound, inner) := Walk(world, world[d].readSet, world[d].freshAsOf, target, target, memo[d := None]);
        WalkIsPlain(world, rank, world[d].readSet, world[d].freshAsOf, target, target, memo[d := None], rank(d));
        MemoGrows(world, world[d].readSet, world[d].freshAsOf, target, target, memo[d := None]);
        assert world.Keys - inner[d := Some(bound)].Keys < world.Keys - memo.Keys;
        FinishEntry(world, rank, target, memo, inner, d, bound, ceiling);
        WalkIsPlain(world, rank, rest, claim, target, Min(acc, bound), inner[d := Some(bound)], ceiling);
      }
    }
  }

  lemma FinishEntry(world: Visible, rank: CellAt -> nat, target: LayerId, memo: Memo, inner: Memo, d: CellAt, bound: LayerId, ceiling: nat)
    requires Acyclic(world, rank) && MemoOk(world, rank, target, memo, ceiling) && d !in memo
    requires d in world && world[d].DerivedRecord? && rank(d) < ceiling
    requires MemoOk(world, rank, target, inner, rank(d)) && bound == PlainOf(world, rank, d, target)
    requires forall e :: (e in memo[d := None] ==> e in inner && inner[e] == memo[d := None][e])
                         && (e in inner && e !in memo[d := None] ==> inner[e].Some?)
    ensures MemoOk(world, rank, target, inner[d := Some(bound)], ceiling)
  {
  }

  // On an acyclic store the memoised walk gives the plain recursion's answer.
  lemma MemoChangesNothing(world: Visible, rank: CellAt -> nat, readSet: seq<CellAt>, claim: LayerId, target: LayerId, ceiling: nat)
    requires Acyclic(world, rank) && RanksBelow(world, rank, readSet, ceiling)
    ensures Walk(world, readSet, claim, target, target, map[]).0 == Plain(world, rank, readSet, claim, target, target, ceiling)
  {
    WalkIsPlain(world, rank, readSet, claim, target, target, map[], ceiling);
  }

  // --- What an answer at the target means ---

  ghost predicate NothingBeyond(world: Visible, target: LayerId) {
    forall d :: d in world ==> world[d].Reflects() <= target
  }

  // Still being validated, or validated through the target.
  predicate Good(memo: Memo, target: LayerId, d: CellAt) {
    d in memo && (memo[d].None? || memo[d].value >= target)
  }

  // No dependency has moved past what its reader claims, and the derived ones are good.
  ghost predicate CleanReads(world: Visible, readSet: seq<CellAt>, claim: LayerId, target: LayerId, memo: Memo) {
    forall r :: r in readSet && r in world ==>
      world[r].Reflects() <= claim && (world[r].DerivedRecord? ==> Good(memo, target, r))
  }

  ghost predicate CleanMemo(world: Visible, target: LayerId, memo: Memo) {
    forall d :: d in memo && memo[d].Some? && memo[d].value >= target && d in world && world[d].DerivedRecord? ==>
      CleanReads(world, world[d].readSet, world[d].freshAsOf, target, memo)
  }

  lemma StaysClean(world: Visible, readSet: seq<CellAt>, claim: LayerId, target: LayerId, memo: Memo, after: Memo)
    requires CleanReads(world, readSet, claim, target, memo)
    requires forall d :: d in memo ==> d in after && after[d] == memo[d]
    ensures CleanReads(world, readSet, claim, target, after)
  {
  }

  lemma {:induction false} CleanWalk(world: Visible, readSet: seq<CellAt>, claim: LayerId, target: LayerId, acc: LayerId, memo: Memo)
    requires NothingBeyond(world, target) && CleanMemo(world, target, memo)
    ensures var r := Walk(world, readSet, claim, target, acc, memo);
            r.0 >= target ==> acc >= target && CleanMemo(world, target, r.1) && CleanReads(world, readSet, claim, target, r.1)
    decreases world.Keys - memo.Keys, |readSet|
  {
    if readSet != [] {
      var d, rest := readSet[0], readSet[1..];
      assert forall r :: r in readSet <==> r == d || r in rest;
      if d !in world {
        CleanWalk(world, rest, claim, target, acc, memo);
      } else if world[d].Reflects() > claim {
      } else if world[d].SourceRecord? {
        CleanWalk(world, rest, claim, target, acc, memo);
      } else if d in memo {
        var bound := if memo[d].Some? then memo[d].value else world[d].freshAsOf;
        CleanWalk(world, rest, claim, target, Min(acc, bound), memo);
        MemoGrows(world, rest, claim, target, Min(acc, bound), memo);
      } else {
        assert d in world.Keys - memo.Keys;
        var (bound, inner) := Walk(world, world[d].readSet, world[d].freshAsOf, target, target, memo[d := None]);
        assert world.Keys - inner[d := Some(bound)].Keys < world.Keys - memo.Keys;
        CleanDescent(world, d, target, memo, bound, inner);
        if bound >= target {
          CleanWalk(world, rest, claim, target, Min(acc, bound), inner[d := Some(bound)]);
          MemoGrows(world, rest, claim, target, Min(acc, bound), inner[d := Some(bound)]);
        } else {
          NeverRises(world, rest, claim, target, Min(acc, bound), inner[d := Some(bound)]);
        }
      }
    }
  }

  lemma {:induction false} CleanDescent(world: Visible, d: CellAt, target: LayerId, memo: Memo, bound: LayerId, inner: Memo)
    requires NothingBeyond(world, target) && CleanMemo(world, target, memo)
    requires d in world && world[d].DerivedRecord? && d !in memo
    requires (bound, inner) == Walk(world, world[d].readSet, world[d].freshAsOf, target, target, memo[d := None])
    ensures bound >= target ==> CleanMemo(world, target, inner[d := Some(bound)])
    decreases world.Keys - memo.Keys, 0
  {
    assert d in world.Keys - memo.Keys;
    var opening := memo[d := None];
    forall e | e in opening && opening[e].Some? && opening[e].value >= target && e in world && world[e].DerivedRecord?
      ensures CleanReads(world, world[e].readSet, world[e].freshAsOf, target, opening)
    {
      StaysClean(world, world[e].readSet, world[e].freshAsOf, target, memo, opening);
    }
    CleanWalk(world, world[d].readSet, world[d].freshAsOf, target, target, opening);
  }

  // Once below the target, the walk stays below it.
  lemma {:induction false} NeverRises(world: Visible, readSet: seq<CellAt>, claim: LayerId, target: LayerId, acc: LayerId, memo: Memo)
    requires NothingBeyond(world, target) && acc < target
    ensures Walk(world, readSet, claim, target, acc, memo).0 < target
    decreases world.Keys - memo.Keys, |readSet|
  {
    if readSet != [] {
      var d, rest := readSet[0], readSet[1..];
      if d !in world {
        NeverRises(world, rest, claim, target, acc, memo);
      } else if world[d].Reflects() > claim {
      } else if world[d].SourceRecord? {
        NeverRises(world, rest, claim, target, acc, memo);
      } else if d in memo {
        var bound := if memo[d].Some? then memo[d].value else world[d].freshAsOf;
        NeverRises(world, rest, claim, target, Min(acc, bound), memo);
      } else {
        assert d in world.Keys - memo.Keys;
        var (bound, inner) := Walk(world, world[d].readSet, world[d].freshAsOf, target, target, memo[d := None]);
        assert world.Keys - inner[d := Some(bound)].Keys < world.Keys - memo.Keys;
        NeverRises(world, rest, claim, target, Min(acc, bound), inner[d := Some(bound)]);
      }
    }
  }

  // A chain of reads: each record is in the read-set of the one before it.
  ghost predicate Chain(world: Visible, readSet: seq<CellAt>, chain: seq<CellAt>) {
    && chain != [] && chain[0] in readSet
    && (forall k :: 0 <= k < |chain| ==> chain[k] in world && (k > 0 ==> ReadBy(world, chain[k - 1], chain[k])))
  }

  predicate ReadBy(world: Visible, reader: CellAt, r: CellAt) {
    reader in world && world[reader].DerivedRecord? && r in world[reader].readSet
  }

  lemma {:induction false} ChainIsGood(world: Visible, readSet: seq<CellAt>, claim: LayerId, target: LayerId, memo: Memo, chain: seq<CellAt>)
    requires CleanMemo(world, target, memo) && CleanReads(world, readSet, claim, target, memo)
    requires forall d :: d in memo ==> memo[d].Some?
    requires Chain(world, readSet, chain)
    ensures var last := |chain| - 1;
            && (world[chain[last]].DerivedRecord? ==> Good(memo, target, chain[last]))
            && world[chain[last]].Reflects() <= if last == 0 then claim else world[chain[last - 1]].Reflects()
  {
    var last := |chain| - 1;
    if last > 0 {
      var shorter := chain[..last];
      assert shorter[|shorter| - 1] == chain[last - 1];
      ChainIsGood(world, readSet, claim, target, memo, shorter);
    }
  }

  // An answer that reaches the target is earned: nowhere in everything the value was computed from, however
  // deep and even around a cycle, does a record reflect anything past what its reader claims.
  lemma ReachingTheTarget(world: Visible, readSet: seq<CellAt>, claim: LayerId, target: LayerId, chain: seq<CellAt>)
    requires NothingBeyond(world, target) && Chain(world, readSet, chain)
    requires Walk(world, readSet, claim, target, target, map[]).0 >= target
    ensures world[chain[|chain| - 1]].Reflects() <= if |chain| == 1 then claim else world[chain[|chain| - 2]].Reflects()
  {
    CleanWalk(world, readSet, claim, target, target, map[]);
    MemoGrows(world, readSet, claim, target, target, map[]);
    ChainIsGood(world, readSet, claim, target, Walk(world, readSet, claim, target, target, map[]).1, chain);
  }

  // --- When the answer is the minimum over the chain ---

  // What the direct derived reads are good for, each on its own.
  ghost function Composed(world: Visible, rank: CellAt -> nat, readSet: seq<CellAt>, target: LayerId): set<LayerId>
    requires Acyclic(world, rank)
  {
    set d | d in readSet && d in world && world[d].DerivedRecord? :: PlainOf(world, rank, d, target)
  }

  predicate MovedPast(world: Visible, readSet: seq<CellAt>, claim: LayerId) {
    exists d :: d in readSet && d in world && world[d].Reflects() > claim
  }

  // The target, what every direct derived read is good for, and the claim where something moved past it.
  ghost function Bounds(world: Visible, rank: CellAt -> nat, readSet: seq<CellAt>, claim: LayerId, target: LayerId): set<LayerId>
    requires Acyclic(world, rank)
  {
    {target} + Composed(world, rank, readSet, target) + (if MovedPast(world, readSet, claim) then {claim} else {})
  }

  ghost predicate IsLeast(x: LayerId, bounds: set<LayerId>) {
    x in bounds && forall y :: y in bounds ==> x <= y
  }

  lemma {:induction false} MovedIsTheClaim(world: Visible, rank: CellAt -> nat, readSet: seq<CellAt>, claim: LayerId, target: LayerId,
                                           acc: LayerId, ceiling: nat)
    requires Acyclic(world, rank) && RanksBelow(world, rank, readSet, ceiling) && MovedPast(world, readSet, claim)
    ensures Plain(world, rank, readSet, claim, target, acc, ceiling) == claim
    decreases |readSet|
  {
    var d, rest := readSet[0], readSet[1..];
    assert forall r :: r in readSet <==> r == d || r in rest;
    if d !in world {
      MovedIsTheClaim(world, rank, rest, claim, target, acc, ceiling);
    } else if world[d].Reflects() <= claim {
      var bound := if world[d].SourceRecord? then acc else Min(acc, PlainOf(world, rank, d, target));
      MovedIsTheClaim(world, rank, rest, claim, target, bound, ceiling);
    }
  }

  lemma {:induction false} UnmovedIsLeast(world: Visible, rank: CellAt -> nat, readSet: seq<CellAt>, claim: LayerId, target: LayerId,
                                          acc: LayerId, ceiling: nat)
    requires Acyclic(world, rank) && RanksBelow(world, rank, readSet, ceiling) && !MovedPast(world, readSet, claim)
    ensures IsLeast(Plain(world, rank, readSet, claim, target, acc, ceiling), {acc} + Composed(world, rank, readSet, target))
    decreases |readSet|
  {
    if readSet != [] {
      var d, rest := readSet[0], readSet[1..];
      assert forall r :: r in readSet <==> r == d || r in rest;
      if d in world && world[d].DerivedRecord? {
        var bound := PlainOf(world, rank, d, target);
        UnmovedIsLeast(world, rank, rest, claim, target, Min(acc, bound), ceiling);
        assert Composed(world, rank, readSet, target) == Composed(world, rank, rest, target) + {bound};
      } else {
        UnmovedIsLeast(world, rank, rest, claim, target, acc, ceiling);
        assert Composed(world, rank, readSet, target) == Composed(world, rank, rest, target);
      }
    }
  }

  // On an acyclic store, and from any memo built on the way, the answer is the minimum of its bounds exactly
  // where nothing read directly has moved past the claim, or the claim is the lowest of them anyway.
  // The first is what a caller can check before the call, from the records it reads alone; the second takes
  // walking them.
  lemma AnswerIsLeastWhen(world: Visible, rank: CellAt -> nat, readSet: seq<CellAt>, claim: LayerId, target: LayerId, memo: Memo, ceiling: nat)
    requires Acyclic(world, rank) && RanksBelow(world, rank, readSet, ceiling) && MemoOk(world, rank, target, memo, ceiling)
    ensures IsLeast(Walk(world, readSet, claim, target, target, memo).0, Bounds(world, rank, readSet, claim, target)) <==>
            || !MovedPast(world, readSet, claim)
            || (claim <= target && forall x :: x in Composed(world, rank, readSet, target) ==> claim <= x)
  {
    hide Walk, Plain, Composed, MovedPast;
    WalkIsPlain(world, rank, readSet, claim, target, target, memo, ceiling);
    if MovedPast(world, readSet, claim) {
      MovedIsTheClaim(world, rank, readSet, claim, target, target, ceiling);
    } else {
      UnmovedIsLeast(world, rank, readSet, claim, target, target, ceiling);
    }
  }

  // --- The answer, by where records landed and what they claim ---

  // A source record landed above the claim, or a derived one claims more than it.
  predicate IsAbove(r: Record, claim: LayerId) {
    match r
    case SourceRecord(landedAt) => landedAt > claim
    case DerivedRecord(freshAsOf, _) => freshAsOf > claim
  }

  predicate Overtaken(world: Visible, readSet: seq<CellAt>, claim: LayerId) {
    exists d :: d in readSet && d in world && IsAbove(world[d], claim)
  }

  // What one record is good for, validated on its own.
  function GoodFor(world: Visible, r: Record, target: LayerId): LayerId
    requires r.DerivedRecord?
  {
    Walk(world, r.readSet, r.freshAsOf, target, target, map[]).0
  }

  ghost function GoodReads(world: Visible, readSet: seq<CellAt>, target: LayerId): set<LayerId> {
    set d | d in readSet && d in world && world[d].DerivedRecord? :: GoodFor(world, world[d], target)
  }

  lemma ComposedIsGoodFor(world: Visible, rank: CellAt -> nat, readSet: seq<CellAt>, target: LayerId)
    requires Acyclic(world, rank)
    ensures Composed(world, rank, readSet, target) == GoodReads(world, readSet, target)
  {
    hide Walk, Plain;
    forall d | d in world && world[d].DerivedRecord?
      ensures PlainOf(world, rank, d, target) == GoodFor(world, world[d], target)
    {
      WalkIsPlain(world, rank, world[d].readSet, world[d].freshAsOf, target, target, map[], rank(d));
    }
  }

  // The claim as soon as something read is above it; otherwise the least of the target and what each derived
  // read is good for.
  lemma AnswerIs(world: Visible, rank: CellAt -> nat, readSet: seq<CellAt>, claim: LayerId, target: LayerId, ceiling: nat)
    requires Acyclic(world, rank) && RanksBelow(world, rank, readSet, ceiling)
    ensures var answer := Walk(world, readSet, claim, target, target, map[]).0;
            if Overtaken(world, readSet, claim) then answer == claim
            else IsLeast(answer, {target} + GoodReads(world, readSet, target))
  {
    hide Walk, Plain, Composed, GoodReads;
    WalkIsPlain(world, rank, readSet, claim, target, target, map[], ceiling);
    ComposedIsGoodFor(world, rank, readSet, target);
    if Overtaken(world, readSet, claim) {
      MovedIsTheClaim(world, rank, readSet, claim, target, target, ceiling);
    } else {
      UnmovedIsLeast(world, rank, readSet, claim, target, target, ceiling);
    }
  }

  // What each derived read contributes on any store, cyclic ones included: what it is found good for, or its own
  // claim where it is still being validated.
  ghost function Contributed(world: Visible, readSet: seq<CellAt>, after: Memo): set<LayerId> {
    set d | d in readSet && d in world && world[d].DerivedRecord? && d in after
      :: if after[d].Some? then after[d].value else world[d].freshAsOf
  }

  lemma {:induction false} UnfinishedBoundsByItsClaim(world: Visible, readSet: seq<CellAt>, claim: LayerId, target: LayerId,
                                                      acc: LayerId, memo: Memo)
    requires !Overtaken(world, readSet, claim)
    ensures var r := Walk(world, readSet, claim, target, acc, memo);
            && (forall d :: d in readSet && d in world && world[d].DerivedRecord? ==> d in r.1)
            && IsLeast(r.0, {acc} + Contributed(world, readSet, r.1))
    decreases world.Keys - memo.Keys, |readSet|
  {
    if readSet != [] {
      var d, rest := readSet[0], readSet[1..];
      assert readSet == [d] + rest;
      var r := Walk(world, readSet, claim, target, acc, memo);
      if d !in world || world[d].SourceRecord? {
        UnfinishedBoundsByItsClaim(world, rest, claim, target, acc, memo);
        assert Contributed(world, readSet, r.1) == Contributed(world, rest, r.1);
      } else {
        assert !IsAbove(world[d], claim);
        var (bound, composed) := MeetRead(world, target, memo, d);
        assert world.Keys - composed.Keys <= world.Keys - memo.Keys;
        UnfinishedBoundsByItsClaim(world, rest, claim, target, Min(acc, bound), composed);
        MemoGrows(world, rest, claim, target, Min(acc, bound), composed);
        assert Contributed(world, readSet, r.1) == Contributed(world, rest, r.1) + {bound};
      }
    }
  }

  // What the walk makes of one derived read, and the memo it leaves.
  function MeetRead(world: Visible, target: LayerId, memo: Memo, d: CellAt): (r: (LayerId, Memo))
    requires d in world && world[d].DerivedRecord?
    ensures memo.Keys <= r.1.Keys && d in r.1
    ensures r.0 == if r.1[d].Some? then r.1[d].value else world[d].freshAsOf
  {
    if d in memo then (if memo[d].Some? then memo[d].value else world[d].freshAsOf, memo)
    else
      var (bound, inner) := Walk(world, world[d].readSet, world[d].freshAsOf, target, target, memo[d := None]);
      (bound, inner[d := Some(bound)])
  }

  // A record read back through itself while it is being validated is worth its own claim and no more.
  lemma SelfReadIsWorthItsClaim(a: CellAt, own: LayerId, claim: LayerId, target: LayerId)
    requires own <= claim
    ensures Walk(map[a := DerivedRecord(own, [a])], [a], claim, target, target, map[]).0 == Min(target, own)
  {
    var world: Visible := map[a := DerivedRecord(own, [a])];
    assert [a][1..] == [];
    assert Walk(world, [a], own, target, target, map[a := None]) == (Min(target, own), map[a := None]);
  }

  // Below the target the answer is not a minimum: something moved, found late, drops a lower bound met earlier.
  lemma MovedDropsBounds(a: CellAt, x: CellAt, y: CellAt)
    requires a != x && a != y && x != y
    ensures var world: Visible := map[a := DerivedRecord(3, [x]), x := SourceRecord(9), y := SourceRecord(9)];
            && Walk(world, [x], 3, 10, 10, map[]).0 == 3
            && Walk(world, [a, y], 5, 10, 10, map[]).0 == 5
  {
    var world: Visible := map[a := DerivedRecord(3, [x]), x := SourceRecord(9), y := SourceRecord(9)];
    assert [a, y][1..] == [y] && [x][1..] == [] && [y][1..] == [];
    assert Walk(world, [x], 3, 10, 10, map[a := None]) == (3, map[a := None]);
    assert Walk(world, [y], 5, 10, 3, map[a := Some(3)]).0 == 5;
  }

  // --- Watermarks ---

  class FrontierTracker {
    var marks: map<(BranchId, ProducerId), LayerId>

    function Watermark(b: BranchId, p: ProducerId): LayerId
      reads this
    {
      if (b, p) in marks then marks[(b, p)] else 0
    }

    constructor ()
      ensures forall b: BranchId, p: ProducerId :: Watermark(b, p) == 0
    {
      marks := map[];
    }

    // Monotonic: a late run cannot un-catch-up a producer.
    method Advance(b: BranchId, p: ProducerId, to: LayerId)
      modifies this
      ensures forall c: BranchId, q: ProducerId :: Watermark(c, q) == if (c, q) == (b, p) then Max(old(Watermark(b, p)), to) else old(Watermark(c, q))
    {
      if to > Watermark(b, p) {
        marks := marks[(b, p) := to];
      }
    }

    method Rewind(b: BranchId, p: ProducerId)
      modifies this
      ensures forall c: BranchId, q: ProducerId :: Watermark(c, q) == if (c, q) == (b, p) then 0 else old(Watermark(c, q))
    {
      marks := marks[(b, p) := 0];
    }

    // The layer through which everything derived here is caught up; None where nothing derives.
    method Settled(b: BranchId, producers: seq<ProducerId>) returns (r: Option<LayerId>)
      ensures r.None? <==> producers == []
      ensures r.Some? ==> exists k :: 0 <= k < |producers| && Watermark(b, producers[k]) == r.value
      ensures forall k :: 0 <= k < |producers| ==> r.Some? && r.value <= Watermark(b, producers[k])
    {
      r := None;
      for n := 0 to |producers|
        invariant r.None? <==> n == 0
        invariant r.Some? ==> exists k :: 0 <= k < n && Watermark(b, producers[k]) == r.value
        invariant forall k :: 0 <= k < n ==> r.Some? && r.value <= Watermark(b, producers[k])
      {
        var mark := Watermark(b, producers[n]);
        if r.None? || mark < r.value {
          r := Some(mark);
        }
      }
    }
  }
}
