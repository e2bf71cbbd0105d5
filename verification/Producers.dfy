/** Producer code as the engine sees it: a deterministic program that reads cells one at a time through
    a mediated context and finally writes or fails (crates/borg-engine/src/derive.rs, `RecordingCtx`). */
module Producers {
  import opened Core

  datatype Invocation = Invocation(producer: ProducerId, input: Pid)

  datatype Write = Write(at: CellAt, value: Value)

  // One mediated read. Absence is recorded like any other answer.
  datatype Seen = Seen(at: CellAt, value: Option<Value>)

  type History = seq<Seen>

  datatype Step = Read(at: CellAt) | Finish(writes: seq<Write>) | Fail

  // What the program does next, as a function of everything it has been shown so far.
  type Program = (Invocation, History) -> Step

  type Store = map<CellAt, Value>

  function Get(store: Store, at: CellAt): Option<Value> {
    if at in store then Some(store[at]) else None
  }

  function ReadSet(h: History): set<CellAt> {
    set s | s in h :: s.at
  }

  // The records a layer leaves behind: within one layer the later write wins.
  function WriteMap(writes: seq<Write>): Store {
    if writes == [] then map[]
    else
      var last := writes[|writes| - 1];
      WriteMap(writes[..|writes| - 1])[last.at := last.value]
  }

  lemma {:induction false} WriteMapKeys(writes: seq<Write>, at: CellAt)
    ensures at in WriteMap(writes) <==> exists k :: 0 <= k < |writes| && writes[k].at == at
  {
    if writes != [] {
      WriteMapKeys(writes[..|writes| - 1], at);
    }
  }

  // Of several writes of one record the last is what the layer leaves.
  lemma {:induction false} WriteMapLast(writes: seq<Write>, k: nat)
    requires k < |writes| && forall j :: k < j < |writes| ==> writes[j].at != writes[k].at
    ensures Get(WriteMap(writes), writes[k].at) == Some(writes[k].value)
  {
    if k < |writes| - 1 {
      WriteMapLast(writes[..|writes| - 1], k);
    }
  }

  // `h` is what the program was shown while asking for exactly these cells in this order.
  ghost predicate Follows(prog: Program, i: Invocation, h: History) {
    forall k | 0 <= k < |h| :: prog(i, h[..k]) == Read(h[k].at)
  }

  ghost predicate Complete(prog: Program, i: Invocation, h: History) {
    Follows(prog, i, h) && prog(i, h).Finish?
  }

  predicate Agrees(h: History, store: Store) {
    forall s | s in h :: s.value == Get(store, s.at)
  }

  // A program shown the same world twice asks the same questions and writes the same records.
  lemma {:induction false} Deterministic(prog: Program, i: Invocation, h: History, g: History, s: Store, t: Store)
    requires Complete(prog, i, h) && Agrees(h, s)
    requires Complete(prog, i, g) && Agrees(g, t)
    requires forall at | at in ReadSet(h) :: Get(s, at) == Get(t, at)
    ensures h == g
  {
    NoLonger(prog, i, h, g, s, t);
    assert h[..|h|] == h && g[..|g|] == g;
    SamePrefix(prog, i, h, g, s, t, |h|);
    if |h| < |g| {
      assert false;
    }
  }

  lemma {:induction false} NoLonger(prog: Program, i: Invocation, h: History, g: History, s: Store, t: Store)
    requires Complete(prog, i, h) && Agrees(h, s)
    requires Complete(prog, i, g) && Agrees(g, t)
    requires forall at | at in ReadSet(h) :: Get(s, at) == Get(t, at)
    ensures |h| <= |g|
  {
    assert g[..|g|] == g;
    if |g| < |h| {
      SamePrefix(prog, i, h, g, s, t, |g|);
      assert false;
    }
  }

  lemma {:induction false} SamePrefix(prog: Program, i: Invocation, h: History, g: History, s: Store, t: Store, n: nat)
    requires n <= |h| && n <= |g|
    requires Follows(prog, i, h) && Agrees(h, s)
    requires Follows(prog, i, g) && Agrees(g, t)
    requires forall at | at in ReadSet(h) :: Get(s, at) == Get(t, at)
    ensures h[..n] == g[..n]
  {
    if n > 0 {
      SamePrefix(prog, i, h, g, s, t, n - 1);
      assert prog(i, h[..n - 1]) == Read(h[n - 1].at);
      assert prog(i, g[..n - 1]) == Read(g[n - 1].at);
      assert h[n - 1] in h && g[n - 1] in g;
      assert h[n - 1].at in ReadSet(h);
      assert h[n - 1] == g[n - 1];
      assert h[..n] == h[..n - 1] + [h[n - 1]];
      assert g[..n] == g[..n - 1] + [g[n - 1]];
    }
  }
}
