/** Every run can be brought to its end from wherever it stands. */
module EngineFinish {
  import opened Common
  import opened Jobs
  import opened Engine
  import opened EngineSafety
  import opened EngineProgress

  ghost predicate IsWorker<C>(st: State<C>, p: (nat, string)) {
    p.0 in st.runs && p.1 in st.runs[p.0].workers && p.1 in st.runs[p.0].nodes
  }

  ghost function Goroutines<C>(st: State<C>): set<(nat, string)> {
    set r, s | r in st.runs && s in st.runs[r].workers && IsWorker(st, (r, s)) :: (r, s)
  }

  /** An upper bound on the steps one worker still takes. */
  ghost function Left<C>(st: State<C>, p: (nat, string)): nat {
    if !IsWorker(st, p) then 0
    else
      var x := StepsLeft(st.runs[p.0].workers[p.1], |st.runs[p.0].nodes[p.1].deps|);
      if x < 0 then 0 else x
  }

  /** An upper bound on the steps all workers together still take. */
  ghost function Total<C>(st: State<C>): nat {
    Sum(LeftOf(st))
  }

  ghost function LeftOf<C>(st: State<C>): map<(nat, string), nat> {
    map p | p in Goroutines(st) :: Left(st, p)
  }

  /** A worker's step lowers the steps left in all. */
  lemma StepLowersTotal<C>(build: Builder<C>, st: State<C>, st': State<C>, r: nat, s: string)
    requires Invariant(build, st) && WorkerStep(build, st, st', r, s)
    ensures Total(st') < Total(st)
  {
    hide Invariant, WorkerStep, Left, Goroutines, Sum;
    WorkersStay(build, st, st', r, s);
    SumLess(LeftOf(st), LeftOf(st'), (r, s));
  }

  lemma WorkersStay<C>(build: Builder<C>, st: State<C>, st': State<C>, r: nat, s: string)
    requires Invariant(build, st) && WorkerStep(build, st, st', r, s)
    ensures forall p :: IsWorker(st', p) <==> IsWorker(st, p)
    ensures forall p | p != (r, s) :: Left(st', p) == Left(st, p)
    ensures Left(st', (r, s)) < Left(st, (r, s))
    ensures Goroutines(st') == Goroutines(st) && (r, s) in Goroutines(st)
  {
    hide Invariant, Advance, Apply, StepsLeft, Ordered;
    var ch :| Advance(build, st, r, s, ch).Some? && st' == Apply(st, r, s, ch, Advance(build, st, r, s, ch).value);
    var m := Advance(build, st, r, s, ch).value;
    ApplyFrame(st, r, s, ch, m);
    OrderOf(build, st, r, s);
    StepUsesUp(build, st, r, s, ch, m);
  }

  /** Which runs are alive, and their goroutines. */
  ghost function Crew<C>(st: State<C>): map<nat, (bool, map<string, Node>, set<string>)> {
    map r | r in st.runs :: (st.runs[r].alive, st.runs[r].nodes, st.runs[r].workers.Keys)
  }

  lemma CrewStays<C>(build: Builder<C>, st: State<C>, st': State<C>, r: nat, s: string)
    requires WorkerStep(build, st, st', r, s)
    ensures Crew(st') == Crew(st)
  {
    hide Advance, Apply;
    var ch :| Advance(build, st, r, s, ch).Some? && st' == Apply(st, r, s, ch, Advance(build, st, r, s, ch).value);
    ApplyFrame(st, r, s, ch, Advance(build, st, r, s, ch).value);
    assert forall q | q in st.runs :: st'.runs[q].workers.Keys == st.runs[q].workers.Keys;
  }

  ghost predicate AllDone<C>(st: State<C>) {
    forall r, s | Live(st, r, s) :: st.runs[r].workers[s].pc.Done?
  }

  lemma HistoryGrows<C>(build: Builder<C>, states: seq<State<C>>, labels: seq<Label>, st': State<C>, l: Label)
    requires IsHistory(build, states, labels) && Step(build, states[|states|-1], st', l)
    ensures IsHistory(build, states + [st'], labels + [l])
  {
    hide Step, Start;
    var more, ls := states + [st'], labels + [l];
    forall i | 0 <= i < |ls| ensures Step(build, more[i], more[i+1], ls[i]) {
      if i < |labels| {
        assert Step(build, states[i], states[i+1], labels[i]);
      }
    }
  }

  lemma OneMore<C>(build: Builder<C>, states: seq<State<C>>, labels: seq<Label>, rank: map<string, nat>)
    returns (st': State<C>, l: Label)
    requires IsHistory(build, states, labels) && Ranked(states[|states|-1], rank) && !AllDone(states[|states|-1])
    ensures IsHistory(build, states + [st'], labels + [l]) && Ranked(st', rank) && l.ByWorker?
    ensures Total(st') < Total(states[|states|-1])
    ensures Crew(st') == Crew(states[|states|-1])
  {
    assert |states| == |labels| + 1;
    hide Invariant, CanGo, IsHistory, Ranked, Total, WorkerStep, Crew;
    var i, st := |states| - 1, states[|states|-1];
    var r0: nat, s0 :| Live(st, r0, s0) && !st.runs[r0].workers[s0].pc.Done?;
    assert Unfinished(st, r0, s0);
    DeadlockFree(build, states, labels, i, rank);
    HistoryInvariant(build, states, labels, i);
    var r: nat, s :| CanGo(build, st, r, s);
    st' := GoStep(build, st, r, s);
    l := ByWorker(r, s);
    RankStays(build, st, st', rank, r, s);
    HistoryGrows(build, states, labels, st', l);
    StepLowersTotal(build, st, st', r, s);
    CrewStays(build, st, st', r, s);
  }

  /** Completion: if the graphs embed in one acyclic relation, every history extends, by steps of
      live workers alone, to one in which every live worker is done. */
  lemma {:induction false} CanAlwaysFinish<C>(build: Builder<C>, states: seq<State<C>>, labels: seq<Label>, rank: map<string, nat>)
    returns (more: seq<State<C>>, ls: seq<Label>)
    requires IsHistory(build, states, labels) && Ranked(states[|states|-1], rank)
    ensures IsHistory(build, states + more, labels + ls)
    ensures AllDone((states + more)[|states + more|-1])
    ensures Crew((states + more)[|states + more|-1]) == Crew(states[|states|-1])
    ensures forall l | l in ls :: l.ByWorker?
    decreases Total(states[|states|-1])
  {
    assert |states| == |labels| + 1;
    hide IsHistory, Ranked, AllDone, Total, Crew;
    more, ls := [], [];
    assert states + more == states && labels + ls == labels;
    if !AllDone(states[|states|-1]) {
      var st', l := OneMore(build, states, labels, rank);
      more, ls := CanAlwaysFinish(build, states + [st'], labels + [l], rank);
      Regroup(states, [st'], more);
      Regroup(labels, [l], ls);
      more, ls := [st'] + more, [l] + ls;
    }
  }

  lemma GoStep<C>(build: Builder<C>, st: State<C>, r: nat, s: string) returns (st': State<C>)
    requires CanGo(build, st, r, s)
    ensures WorkerStep(build, st, st', r, s)
  {
    hide Advance, Apply;
    st' := Apply(st, r, s, Go, Advance(build, st, r, s, Go).value);
  }

  lemma RankStays<C>(build: Builder<C>, st: State<C>, st': State<C>, rank: map<string, nat>, r: nat, s: string)
    requires WorkerStep(build, st, st', r, s) && Ranked(st, rank)
    ensures Ranked(st', rank)
  {
    hide Advance, Apply;
    var ch :| Advance(build, st, r, s, ch).Some? && st' == Apply(st, r, s, ch, Advance(build, st, r, s, ch).value);
    ApplyFrame(st, r, s, ch, Advance(build, st, r, s, ch).value);
    SameNodesRanked(st, st', rank);
  }

  lemma SameNodesRanked<C>(st: State<C>, st': State<C>, rank: map<string, nat>)
    requires Ranked(st, rank) && forall q | q in st'.runs :: q in st.runs && st'.runs[q].nodes == st.runs[q].nodes
    ensures Ranked(st', rank)
  {
  }

  // ---------------------------------------------------------------- runs that want the same keys

  /** How deep a key's dep keys nest. */
  ghost function Height(k: Key): nat
    decreases k, |k.deps.Keys| + 1
  {
    1 + Highest(k, k.deps.Keys)
  }

  ghost function Highest(k: Key, ds: set<string>): nat
    requires ds <= k.deps.Keys
    decreases k, |ds|
  {
    if ds == {} then 0
    else
      var d :| d in ds;
      var h, rest := Height(k.deps[d]), Highest(k, ds - {d});
      if h > rest then h else rest
  }

  lemma {:induction false} HighestBounds(k: Key, ds: set<string>, d: string)
    requires ds <= k.deps.Keys && d in ds
    ensures Height(k.deps[d]) <= Highest(k, ds)
    decreases |ds|
  {
    hide Height;
    var e :| e in ds && Highest(k, ds) == (if Height(k.deps[e]) > Highest(k, ds - {e}) then Height(k.deps[e]) else Highest(k, ds - {e}));
    if e != d {
      HighestBounds(k, ds - {e}, d);
    }
  }

  /** All runs want the same key for a slug, whichever of them know it. */
  ghost predicate Agreeing<C>(st: State<C>, keys: map<string, Key>) {
    forall r | r in st.runs :: WantsFrom(st.runs[r].nodes, keys)
  }

  ghost predicate WantsFrom(nodes: map<string, Node>, keys: map<string, Key>) {
    forall s | s in nodes :: s in keys && nodes[s].key == keys[s] && Planned(nodes, s)
  }

  /** Then the dep edges are acyclic without further assumption: dep keys nest less deep. */
  lemma AgreeingIsRanked<C>(st: State<C>, keys: map<string, Key>) returns (rank: map<string, nat>)
    requires Agreeing(st, keys)
    ensures Ranked(st, rank)
  {
    rank := map s | s in keys :: Height(keys[s]);
    forall r | r in st.runs ensures RanksGraph(st.runs[r].nodes, rank) {
      WantedIsRanked(st.runs[r].nodes, keys, rank);
    }
  }

  lemma WantedIsRanked(nodes: map<string, Node>, keys: map<string, Key>, rank: map<string, nat>)
    requires WantsFrom(nodes, keys) && rank.Keys == keys.Keys && forall s | s in keys :: rank[s] == Height(keys[s])
    ensures RanksGraph(nodes, rank)
  {
    hide Height, Highest;
    forall s, d | s in nodes && d in nodes[s].deps ensures s in rank && d in rank && rank[d] < rank[s] {
      var k := nodes[s].key;
      assert Planned(nodes, s) && d in Elems(nodes[s].deps);
      DepIsLower(k, d);
      assert k.deps[d] == nodes[d].key == keys[d];
    }
  }

  lemma DepIsLower(k: Key, d: string)
    requires d in k.deps
    ensures Height(k.deps[d]) < Height(k)
  {
    HighestBounds(k, k.deps.Keys, d);
  }

  /** Runs that agree on the keys never deadlock: from any start, with any store they share, all of
      them can run to completion together. */
  lemma AgreeingRunsFinish<C>(build: Builder<C>, st: State<C>, keys: map<string, Key>)
    returns (states: seq<State<C>>, labels: seq<Label>)
    requires Start(build, st) && Agreeing(st, keys)
    ensures IsHistory(build, states, labels) && states[0] == st
    ensures forall r | r in st.runs :: r in states[|states|-1].runs && Finished(states[|states|-1].runs[r])
  {
    hide Start, Step, Ranked, Agreeing, AllDone, Crew, Finished;
    var rank := AgreeingIsRanked(st, keys);
    var more, ls := CanAlwaysFinish(build, [st], [], rank);
    states, labels := [st] + more, [] + ls;
    assert labels == ls;
    CrewFinished(build, st, states[|states|-1]);
  }

  lemma CrewFinished<C>(build: Builder<C>, st: State<C>, last: State<C>)
    requires Start(build, st) && Crew(last) == Crew(st) && AllDone(last)
    ensures forall r | r in st.runs :: r in last.runs && Finished(last.runs[r])
  {
    forall r | r in st.runs ensures r in last.runs && Finished(last.runs[r]) {
      assert r in Crew(st) && Crew(st)[r] == Crew(last)[r];
      assert StartRun(st.runs[r]);
      forall s | s in last.runs[r].workers ensures last.runs[r].workers[s].pc.Done? {
        assert Live(last, r, s);
      }
    }
  }
}
