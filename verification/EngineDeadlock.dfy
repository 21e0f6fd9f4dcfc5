/** When nobody gets stuck: exactly when the dep edges of all graphs together have no cycle. Runs whose
    graphs close a cycle between them, each agreeing with an acyclic plan of its own, can come to a
    state in which none of them can go on. */
module EngineDeadlock {
  import opened Common
  import opened Jobs
  import opened Engine
  import opened EngineSafety
  import opened EngineProgress
  import opened EngineFinish
  import opened EngineSteps

  // ---------------------------------------------------------------- one run of two nodes

  /** Run r has two nodes: `up`, whose artifact is not valid, depends on `down`, whose artifact is. */
  ghost predicate TwoNodes<C>(st: State<C>, r: nat, up: string, down: string) {
    && r in st.runs && up != down
    && st.runs[r].nodes.Keys == {up, down}
    && st.runs[r].nodes[up].deps == [down] && st.runs[r].nodes[down].deps == []
    && ValidAt(st.store, down, st.runs[r].nodes[down].key)
    && !ValidAt(st.store, up, st.runs[r].nodes[up].key)
  }

  /** The run holds its own slug and wants its dep's. */
  ghost predicate Stands<C>(st: State<C>, r: nat, up: string, down: string) {
    && TwoNodes(st, r, up, down)
    && st.runs[r].alive && st.runs[r].workers.Keys == {up, down}
    && st.runs[r].workers[up].pc == WantSh(0)
    && st.runs[r].workers[down].pc.Done?
  }

  /** A run of two nodes, with `up` where it starts and `down` at the given program point. */
  ghost predicate Ready<C>(st: State<C>, r: nat, up: string, down: string, w: Worker<C>) {
    && TwoNodes(st, r, up, down)
    && st.runs[r].alive && !Cancelled(st.runs[r]) && st.runs[r].slots >= 1
    && st.runs[r].workers == map[up := Worker(Waiting(0), 0), down := w]
  }

  /** The same, with `down` found valid. */
  ghost predicate Skipped<C>(st: State<C>, r: nat, up: string, down: string) {
    && r in st.runs && down in st.runs[r].workers
    && var w := st.runs[r].workers[down];
       Ready(st, r, up, down, w) && w.pc.Done? && w.pc.o.Succeeded?
  }

  lemma SkipDown<C>(build: Builder<C>, states: seq<State<C>>, labels: seq<Label>, st: State<C>, r: nat, up: string, down: string)
    returns (more: seq<State<C>>, ls: seq<Label>)
    requires IsHistory(build, states, labels) && states[|states|-1] == st && Ready(st, r, up, down, Worker(Waiting(0), 0))
    ensures IsHistory(build, more, ls) && states <= more && more != []
    ensures var now := more[|more|-1];
            && now.store == st.store && now.runs.Keys == st.runs.Keys && Skipped(now, r, up, down)
            && forall x | x in st.runs && x != r :: now.runs[x] == st.runs[x]
  {
    hide IsHistory;
    more, ls := Skip(build, states, labels, st, r, down);
    var w := more[|more|-1].runs[r].workers[down];
    WithElsewhere(st, r, down, w);
    assert Ready(more[|more|-1], r, up, down, w);
  }

  lemma WithElsewhere<C>(st: State<C>, r: nat, s: string, w: Worker<C>)
    requires r in st.runs && s in st.runs[r].workers
    ensures var now := With(st, r, s, w);
            && now.store == st.store && now.runs.Keys == st.runs.Keys
            && (forall x | x in st.runs && x != r :: now.runs[x] == st.runs[x])
            && now.runs[r] == st.runs[r].(workers := now.runs[r].workers)
            && now.runs[r].workers.Keys == st.runs[r].workers.Keys && now.runs[r].workers[s] == w
            && (forall t | t in st.runs[r].workers && t != s :: now.runs[r].workers[t] == st.runs[r].workers[t])
            && forall x, up, down :: TwoNodes(now, x, up, down) <==> TwoNodes(st, x, up, down)
  {
  }

  lemma TakeUp<C>(build: Builder<C>, states: seq<State<C>>, labels: seq<Label>, st: State<C>, r: nat, up: string, down: string)
    returns (more: seq<State<C>>, ls: seq<Label>)
    requires IsHistory(build, states, labels) && states[|states|-1] == st && Skipped(st, r, up, down)
    requires Quiet(st, r, up) && OwnFree(st, r, up)
    ensures IsHistory(build, more, ls) && states <= more && more != []
    ensures var now := more[|more|-1];
            && now.store == st.store && now.runs.Keys == st.runs.Keys && Stands(now, r, up, down)
            && forall x | x in st.runs && x != r :: now.runs[x] == st.runs[x]
  {
    hide IsHistory, OwnFree;
    more, ls := WantOwn(build, states, labels, st, r, up, down);
    more, ls := TakeOwn(build, more, ls, st, r, up);
    WithElsewhere(st, r, up, more[|more|-1].runs[r].workers[up]);
  }

  lemma TwoNodesStay<C>(st: State<C>, st': State<C>, r: nat, up: string, down: string)
    requires r in st.runs && r in st'.runs && st'.runs[r] == st.runs[r] && st'.store == st.store
    ensures TwoNodes(st', r, up, down) <==> TwoNodes(st, r, up, down)
    ensures Stands(st', r, up, down) <==> Stands(st, r, up, down)
    ensures Skipped(st', r, up, down) <==> Skipped(st, r, up, down)
    ensures var w := Worker(Waiting(0), 0); Ready(st', r, up, down, w) <==> Ready(st, r, up, down, w)
  {
  }

  // ---------------------------------------------------------------- a ring of runs

  /** A ring of slugs: distinct, at least two, each followed by the next and the last by the first. */
  ghost predicate IsRing(c: seq<string>) {
    |c| >= 2 && Distinct(c)
  }

  function Next(c: seq<string>, i: nat): string
    requires i < |c|
  {
    if i + 1 < |c| then c[i+1] else c[0]
  }

  /** One run per slug, each building its slug upon the next one's. */
  ghost predicate Rings<C>(st: State<C>, c: seq<string>) {
    && (forall r | r in st.runs :: r < |c|)
    && forall r: nat | r < |c| :: TwoNodes(st, r, c[r], Next(c, r))
  }

  /** The runs before m have found their dep valid, the others are where they start. */
  ghost predicate SkippedUpTo<C>(st: State<C>, c: seq<string>, m: nat) {
    && (forall r | r in st.runs :: r < |c|)
    && (forall r: nat | r < |c| && r < m :: Skipped(st, r, c[r], Next(c, r)))
    && forall r: nat | m <= r < |c| :: Ready(st, r, c[r], Next(c, r), Worker(Waiting(0), 0))
  }

  /** The runs before m hold their own slug and want the next, the others have found their dep valid. */
  ghost predicate TakenUpTo<C>(st: State<C>, c: seq<string>, m: nat) {
    && (forall r | r in st.runs :: r < |c|)
    && (forall r: nat | r < |c| && r < m :: Stands(st, r, c[r], Next(c, r)))
    && forall r: nat | m <= r < |c| :: Skipped(st, r, c[r], Next(c, r))
  }

  lemma StartReady<C>(build: Builder<C>, st: State<C>, r: nat, up: string, down: string)
    requires Start(build, st) && TwoNodes(st, r, up, down)
    ensures Ready(st, r, up, down, Worker(Waiting(0), 0))
  {
    assert StartRun(st.runs[r]);
  }

  lemma {:induction false} SkipAll<C>(build: Builder<C>, st: State<C>, c: seq<string>, m: nat)
    returns (states: seq<State<C>>, labels: seq<Label>)
    requires Start(build, st) && IsRing(c) && Rings(st, c) && m <= |c|
    ensures IsHistory(build, states, labels) && states != [] && states[0] == st
    ensures SkippedUpTo(states[|states|-1], c, m)
    decreases m
  {
    hide IsHistory, Start, Rings, Ready, Skipped, TwoNodes, Distinct, SkippedUpTo;
    if m == 0 {
      states, labels := [st], [];
      NothingSkipped(build, st, c);
    } else {
      states, labels := SkipAll(build, st, c, m - 1);
      var was, k := states[|states|-1], m - 1;
      NextToSkip(was, c, k);
      states, labels := SkipDown(build, states, labels, was, k, c[k], Next(c, k));
      SkippedMore(was, states[|states|-1], c, k);
    }
  }

  lemma NothingSkipped<C>(build: Builder<C>, st: State<C>, c: seq<string>)
    requires Start(build, st) && Rings(st, c)
    ensures SkippedUpTo(st, c, 0) && IsHistory(build, [st], [])
  {
    hide Ready, TwoNodes;
    forall r: nat | r < |c| ensures Ready(st, r, c[r], Next(c, r), Worker(Waiting(0), 0)) {
      StartReady(build, st, r, c[r], Next(c, r));
    }
  }

  lemma NextToSkip<C>(st: State<C>, c: seq<string>, k: nat)
    requires SkippedUpTo(st, c, k) && k < |c|
    ensures Ready(st, k, c[k], Next(c, k), Worker(Waiting(0), 0)) && k in st.runs
  {
  }

  lemma SkippedMore<C>(was: State<C>, now: State<C>, c: seq<string>, k: nat)
    requires SkippedUpTo(was, c, k) && k < |c| && Skipped(now, k, c[k], Next(c, k))
    requires now.store == was.store && now.runs.Keys == was.runs.Keys && forall x | x in was.runs && x != k :: now.runs[x] == was.runs[x]
    ensures SkippedUpTo(now, c, k + 1)
  {
    forall r: nat | r < |c| && r != k ensures r in was.runs {
      InRuns(was, c, k, r);
    }
    hide Ready, Skipped, TwoNodes;
    forall r: nat | r < |c| && r != k
      ensures Skipped(now, r, c[r], Next(c, r)) <==> Skipped(was, r, c[r], Next(c, r))
      ensures var w := Worker(Waiting(0), 0); Ready(now, r, c[r], Next(c, r), w) <==> Ready(was, r, c[r], Next(c, r), w) {
      TwoNodesStay(was, now, r, c[r], Next(c, r));
    }
  }

  lemma InRuns<C>(st: State<C>, c: seq<string>, m: nat, r: nat)
    requires (SkippedUpTo(st, c, m) || TakenUpTo(st, c, m)) && r < |c|
    ensures r in st.runs && TwoNodes(st, r, c[r], Next(c, r))
  {
    var up, down := c[r], Next(c, r);
    if SkippedUpTo(st, c, m) {
      assert r < m ==> Skipped(st, r, up, down);
      assert m <= r ==> Ready(st, r, up, down, Worker(Waiting(0), 0));
    } else {
      assert r < m ==> Stands(st, r, up, down);
      assert m <= r ==> Skipped(st, r, up, down);
    }
  }

  /** Nobody stands in the way of the next run's own lock. */
  lemma RingLeavesOwnFree<C>(st: State<C>, c: seq<string>, m: nat)
    requires IsRing(c) && m < |c| && TakenUpTo(st, c, m)
    ensures Quiet(st, m, c[m]) && OwnFree(st, m, c[m])
  {
    hide TwoNodes, Stands, Ready;
    assert Skipped(st, m, c[m], Next(c, m));
    ReadyParts(st, m, c[m], Next(c, m));
    hide Skipped, Quiet;
    forall q: nat | Live(st, q, c[m]) && q != m ensures !HoldsMutex(st.runs[q].workers[c[m]].pc) {
      RingWorker(st, c, m, q, c[m]);
    }
    forall q: nat, t: string | Live(st, q, t) && t != c[m]
      ensures SharedCount(st.runs[q].workers[t].pc, |st.runs[q].nodes[t].deps|) == 0 {
      RingWorker(st, c, m, q, t);
    }
  }

  lemma ReadyParts<C>(st: State<C>, r: nat, up: string, down: string)
    requires Skipped(st, r, up, down)
    ensures Quiet(st, r, up)
  {
  }

  /** Every worker of a ring is done, where it started, or wants its first shared lock; only run q
      can have c[q] not done. */
  lemma RingWorker<C>(st: State<C>, c: seq<string>, m: nat, q: nat, t: string)
    requires IsRing(c) && m < |c| && TakenUpTo(st, c, m) && Live(st, q, t)
    ensures q < |c| && q in st.runs && t in st.runs[q].workers && t in st.runs[q].nodes
    ensures var pc := st.runs[q].workers[t].pc; pc.Done? || (t == c[q] && (pc == Waiting(0) || pc == WantSh(0)))
    ensures t == c[m] && q != m ==> st.runs[q].workers[t].pc.Done?
  {
    assert q < |c|;
    if q < m {
      assert Stands(st, q, c[q], Next(c, q));
    } else {
      assert Skipped(st, q, c[q], Next(c, q));
    }
  }

  lemma {:induction false} TakeAll<C>(build: Builder<C>, st: State<C>, c: seq<string>, m: nat)
    returns (states: seq<State<C>>, labels: seq<Label>)
    requires Start(build, st) && IsRing(c) && Rings(st, c) && m <= |c|
    ensures IsHistory(build, states, labels) && states != [] && states[0] == st
    ensures TakenUpTo(states[|states|-1], c, m)
    decreases m
  {
    hide IsHistory, Start, Rings, Ready, Skipped, Stands, TwoNodes, Distinct, Quiet, OwnFree, TakenUpTo, SkippedUpTo;
    if m == 0 {
      states, labels := SkipAll(build, st, c, |c|);
      NoneTaken(states[|states|-1], c);
    } else {
      states, labels := TakeAll(build, st, c, m - 1);
      var was, k := states[|states|-1], m - 1;
      RingLeavesOwnFree(was, c, k);
      NextToTake(was, c, k);
      states, labels := TakeUp(build, states, labels, was, k, c[k], Next(c, k));
      TakenMore(was, states[|states|-1], c, k);
    }
  }

  lemma NoneTaken<C>(st: State<C>, c: seq<string>)
    requires SkippedUpTo(st, c, |c|)
    ensures TakenUpTo(st, c, 0)
  {
    hide Skipped, Stands, Ready;
  }

  lemma NextToTake<C>(st: State<C>, c: seq<string>, k: nat)
    requires TakenUpTo(st, c, k) && k < |c|
    ensures Skipped(st, k, c[k], Next(c, k))
  {
    hide Skipped, Stands;
  }

  lemma TakenMore<C>(was: State<C>, now: State<C>, c: seq<string>, k: nat)
    requires TakenUpTo(was, c, k) && k < |c| && Stands(now, k, c[k], Next(c, k))
    requires now.store == was.store && now.runs.Keys == was.runs.Keys && forall x | x in was.runs && x != k :: now.runs[x] == was.runs[x]
    ensures TakenUpTo(now, c, k + 1)
  {
    forall r: nat | r < |c| && r != k ensures r in was.runs {
      InRuns(was, c, k, r);
    }
    hide Skipped, Stands, TwoNodes;
    forall r: nat | r < |c| && r != k
      ensures Skipped(now, r, c[r], Next(c, r)) <==> Skipped(was, r, c[r], Next(c, r))
      ensures Stands(now, r, c[r], Next(c, r)) <==> Stands(was, r, c[r], Next(c, r)) {
      TwoNodesStay(was, now, r, c[r], Next(c, r));
    }
  }

  ghost predicate Stuck<C>(build: Builder<C>, st: State<C>) {
    forall r, s | Live(st, r, s) :: !CanGo(build, st, r, s)
  }

  lemma RingIsStuck<C>(build: Builder<C>, st: State<C>, c: seq<string>)
    requires IsRing(c) && TakenUpTo(st, c, |c|)
    ensures Unfinished(st, 0, c[0]) && Stuck(build, st)
  {
    hide CanGo, Stands, TwoNodes;
    assert Stands(st, 0, c[0], Next(c, 0));
    StandsOwns(st, 0, c[0], Next(c, 0));
    forall r: nat, s | Live(st, r, s) ensures !CanGo(build, st, r, s) {
      var n: nat := if r + 1 < |c| then r + 1 else 0;
      assert Stands(st, r, c[r], Next(c, r)) && Stands(st, n, c[n], Next(c, n));
      StandsOwns(st, n, c[n], Next(c, n));
      StandsIsStuck(build, st, r, c[r], Next(c, r), n, s);
    }
  }

  lemma StandsOwns<C>(st: State<C>, r: nat, up: string, down: string)
    requires Stands(st, r, up, down)
    ensures OwnsEx(st, r, up) && Unfinished(st, r, up)
  {
  }

  lemma StandsIsStuck<C>(build: Builder<C>, st: State<C>, r: nat, up: string, down: string, n: nat, s: string)
    requires Stands(st, r, up, down) && OwnsEx(st, n, down) && Live(st, r, s)
    ensures !CanGo(build, st, r, s)
  {
    hide ShTaken, MutexTaken, InBuildNode, BuildResult, ValidAt;
    assert ExTaken(st, down);
  }

  /** From any start in which the runs form a ring, of whatever length, some history ends in a state
      where a worker is unfinished and nobody can go on, short of a cancellation, a failure or a crash. */
  lemma RingCanDeadlock<C>(build: Builder<C>, st: State<C>, c: seq<string>)
    returns (states: seq<State<C>>, labels: seq<Label>)
    requires Start(build, st) && IsRing(c) && Rings(st, c)
    ensures IsHistory(build, states, labels) && states != [] && states[0] == st
    ensures Unfinished(states[|states|-1], 0, c[0]) && Stuck(build, states[|states|-1])
  {
    hide IsHistory, Start, Rings, TakenUpTo, Unfinished, Stuck;
    states, labels := TakeAll(build, st, c, |c|);
    RingIsStuck(build, states[|states|-1], c);
  }

  // ---------------------------------------------------------------- a start for every ring

  ghost function RunOf<C>(host: nat, up: string, upKey: Key, down: string, downKey: Key): Run<C> {
    var start := Worker(Waiting(0), 0);
    Run(host, true, 1, map[up := Node(upKey, [down]), down := Node(downKey, [])], map[up := start, down := start],
        false, None, false)
  }

  lemma RunOfStarts<C>(host: nat, up: string, upKey: Key, down: string, downKey: Key) returns (run: Run<C>)
    requires up != down && upKey.slug == up && upKey.deps == map[down := downKey] && downKey.slug == down && downKey.deps == map[]
    ensures run == RunOf(host, up, upKey, down, downKey) && StartRun(run)
  {
    run := RunOf(host, up, upKey, down, downKey);
    ElemsOne(down);
    assert Planned(run.nodes, up) && Planned(run.nodes, down);
  }

  /** A first artifact of slug s, built with no deps. */
  ghost function Plain(s: string): Key {
    Hash("dep", s, map[], map[])
  }

  ghost function Upon(s: string, d: string): Key {
    Hash("dep", s, map[], map[d := Plain(d)])
  }

  lemma PlainParts(s: string, d: string)
    ensures Plain(s).slug == s && Plain(s).deps == map[]
    ensures Upon(s, d).slug == s && Upon(s, d).deps == map[d := Plain(d)] && Plain(s) != Upon(s, d)
  {
    assert d in Upon(s, d).deps;
  }

  ghost function PlainStore<C>(build: Builder<C>, c: seq<string>): Store<C> {
    map s | s in c :: Artifact(Some(Plain(s)), Denote(build, Plain(s)))
  }

  ghost function RingState<C>(build: Builder<C>, c: seq<string>): State<C> {
    State(PlainStore(build, c),
          map i: nat | i < |c| :: RunOf<C>(i, c[i], Upon(c[i], Next(c, i)), Next(c, i), Plain(Next(c, i))))
  }

  lemma NextApart(c: seq<string>, i: nat)
    requires IsRing(c) && i < |c|
    ensures Next(c, i) != c[i] && Next(c, i) in c
  {
    assert c[0] in c && (i + 1 < |c| ==> c[i+1] in c);
  }

  lemma PlainIsSound<C>(build: Builder<C>, c: seq<string>)
    ensures Sound(build, PlainStore(build, c))
  {
    hide Denote;
  }

  lemma PlainStoreAt<C>(build: Builder<C>, c: seq<string>, s: string, k: Key)
    requires s in c
    ensures ValidAt(PlainStore(build, c), s, k) <==> k == Plain(s)
  {
    hide Denote;
  }

  lemma RunOfParts<C>(host: nat, up: string, upKey: Key, down: string, downKey: Key)
    requires up != down
    ensures var nodes := RunOf<C>(host, up, upKey, down, downKey).nodes;
            nodes.Keys == {up, down} && nodes[up] == Node(upKey, [down]) && nodes[down] == Node(downKey, [])
    ensures EdgesIn(RunOf<C>(host, up, upKey, down, downKey).nodes, {(up, down)})
  {
  }

  lemma RingStateAt<C>(build: Builder<C>, c: seq<string>, i: nat)
    requires i < |c|
    ensures i in RingState(build, c).runs && RingState(build, c).store == PlainStore(build, c)
    ensures RingState(build, c).runs[i] == RunOf<C>(i, c[i], Upon(c[i], Next(c, i)), Next(c, i), Plain(Next(c, i)))
  {
    hide RunOf, PlainStore, Plain, Upon;
  }

  lemma RingRun<C>(build: Builder<C>, c: seq<string>, i: nat)
    requires IsRing(c) && i < |c|
    ensures i in RingState(build, c).runs && StartRun(RingState(build, c).runs[i])
    ensures TwoNodes(RingState(build, c), i, c[i], Next(c, i))
    ensures EdgesIn(RingState(build, c).runs[i].nodes, {(c[i], Next(c, i))})
  {
    hide StartRun, RunOf, PlainStore, Plain, Upon, RingState, ValidAt, EdgesIn, Next;
    NextApart(c, i);
    var up, down := c[i], Next(c, i);
    RingStateAt(build, c, i);
    PlainParts(up, down);
    PlainParts(down, up);
    RunOfParts<C>(i, up, Upon(up, down), down, Plain(down));
    PlainStoreAt(build, c, up, Upon(up, down));
    PlainStoreAt(build, c, down, Plain(down));
    var run := RunOfStarts<C>(i, up, Upon(up, down), down, Plain(down));
  }

  /** Each artifact was built without a dep; now each process wants its slug built upon the next. */
  lemma RingStarts<C>(build: Builder<C>, c: seq<string>)
    requires IsRing(c)
    ensures Start(build, RingState(build, c)) && Rings(RingState(build, c), c)
    ensures forall i: nat | i < |c| ::
              i in RingState(build, c).runs && EdgesIn(RingState(build, c).runs[i].nodes, {(c[i], Next(c, i))})
  {
    hide StartRun, TwoNodes, Sound, RunOf, PlainStore, RingState, EdgesIn, Next;
    PlainIsSound(build, c);
    RingRuns(build, c);
    forall i: nat | i < |c|
      ensures i in RingState(build, c).runs && StartRun(RingState(build, c).runs[i])
      ensures TwoNodes(RingState(build, c), i, c[i], Next(c, i))
      ensures EdgesIn(RingState(build, c).runs[i].nodes, {(c[i], Next(c, i))}) {
      RingRun(build, c, i);
    }
  }

  lemma RingRuns<C>(build: Builder<C>, c: seq<string>)
    ensures RingState(build, c).store == PlainStore(build, c)
    ensures forall r | r in RingState(build, c).runs :: r < |c|
  {
    hide RunOf, PlainStore, Next;
  }

  // ---------------------------------------------------------------- relations on slugs

  /** Every edge goes down in rank. */
  ghost predicate Descends(edges: set<(string, string)>, rank: map<string, nat>) {
    forall e | e in edges :: e.0 in rank && e.1 in rank && rank[e.1] < rank[e.0]
  }

  ghost predicate Embeds(edges: set<(string, string)>) {
    exists rank :: Descends(edges, rank)
  }

  /** A cycle of the relation: a ring whose links are edges. */
  ghost predicate Cycles(edges: set<(string, string)>, c: seq<string>) {
    && |c| > 0 && Distinct(c) && forall i: nat | i < |c| :: (c[i], Next(c, i)) in edges
  }

  /** Edges with both ends in a set. */
  ghost function Inside(edges: set<(string, string)>, v: set<string>): set<(string, string)> {
    set e | e in edges && e.0 in v && e.1 in v
  }

  /** A walk along edges inside a set, never twice at one place. */
  ghost predicate Walk(edges: set<(string, string)>, v: set<string>, p: seq<string>) {
    && |p| > 0 && Distinct(p) && Elems(p) <= v
    && forall i | 0 <= i < |p| - 1 :: (p[i], p[i+1]) in edges
  }

  lemma {:induction false} DistinctSize(p: seq<string>, v: set<string>)
    requires Distinct(p) && Elems(p) <= v
    ensures |p| <= |v|
  {
    if p != [] {
      var init, last := p[..|p|-1], p[|p|-1];
      assert p == init + [last];
      ElemsConcat(init, [last]);
      ElemsOne(last);
      assert last !in Elems(init);
      DistinctSize(init, v - {last});
    }
  }

  /** If every place has an edge on, a walk comes back to itself. */
  lemma WalkCloses(edges: set<(string, string)>, v: set<string>, p: seq<string>) returns (c: seq<string>)
    requires Walk(edges, v, p) && forall s | s in v :: exists e :: e in Inside(edges, v) && e.0 == s
    ensures Cycles(edges, c)
    decreases |v| - |p|
  {
    var last := p[|p|-1];
    DistinctSize(p, v);
    assert last in Elems(p);
    var e :| e in Inside(edges, v) && e.0 == last;
    if i :| 0 <= i < |p| && p[i] == e.1 {
      c := p[i..];
      forall k: nat | k < |c| ensures (c[k], Next(c, k)) in edges {
        if k + 1 < |c| {
          assert (p[i+k], p[i+k+1]) in edges;
        } else {
          assert c[k] == last && c[0] == e.1;
        }
      }
    } else {
      var q := p + [e.1];
      ElemsConcat(p, [e.1]);
      ElemsOne(e.1);
      DistinctSize(q, v);
      c := WalkCloses(edges, v, q);
    }
  }

  /** A finite relation has a rank or a cycle. */
  lemma {:induction false} RankOrCycle(edges: set<(string, string)>, v: set<string>)
    returns (rank: map<string, nat>, c: seq<string>)
    ensures Cycles(edges, c) || (rank.Keys == v && Descends(Inside(edges, v), rank))
    decreases v
  {
    rank, c := map[], [];
    if s :| s in v && forall e | e in Inside(edges, v) :: e.0 != s {
      rank, c := RankOrCycle(edges, v - {s});
      rank := AddSink(edges, v, s, rank);
    } else if s :| s in v {
      ElemsOne(s);
      c := WalkCloses(edges, v, [s]);
    }
  }

  /** A place without an edge on goes below all others. */
  lemma AddSink(edges: set<(string, string)>, v: set<string>, s: string, rank: map<string, nat>) returns (more: map<string, nat>)
    requires s in v && forall e | e in Inside(edges, v) :: e.0 != s
    ensures rank.Keys == v - {s} ==> more.Keys == v
    ensures rank.Keys == v - {s} && Descends(Inside(edges, v - {s}), rank) ==> Descends(Inside(edges, v), more)
  {
    more := map t | t in rank.Keys + {s} :: if t == s || t !in rank then 0 else rank[t] + 1;
    if rank.Keys == v - {s} && Descends(Inside(edges, v - {s}), rank) {
      assert more.Keys == v;
      forall e | e in Inside(edges, v) ensures e.0 in more && e.1 in more && more[e.1] < more[e.0] {
        if e.1 != s {
          assert e in Inside(edges, v - {s});
        }
      }
    }
  }

  // ---------------------------------------------------------------- nobody gets stuck, exactly

  ghost predicate EdgesIn(nodes: map<string, Node>, edges: set<(string, string)>) {
    forall s, d | s in nodes && d in nodes[s].deps :: (s, d) in edges
  }

  /** The dep edges of every run lie in the relation. */
  ghost predicate Within<C>(st: State<C>, edges: set<(string, string)>) {
    forall r | r in st.runs :: EdgesIn(st.runs[r].nodes, edges)
  }

  /** If a live worker is unfinished, some live worker can go on. */
  ghost predicate Moves<C>(build: Builder<C>, st: State<C>) {
    (exists r, s :: Unfinished(st, r, s)) ==> exists r, s :: CanGo(build, st, r, s)
  }

  /** Every history from every start whose dep edges lie in the relation can always go on. */
  ghost predicate NeverStuck<C(!new)>(build: Builder<C>, edges: set<(string, string)>) {
    forall states: seq<State<C>>, labels: seq<Label> ::
      IsHistory(build, states, labels) && Within(states[0], edges) ==> Moves(build, states[|states|-1])
  }

  lemma DescendingMoves<C>(build: Builder<C>, states: seq<State<C>>, labels: seq<Label>, edges: set<(string, string)>,
                           rank: map<string, nat>)
    requires IsHistory(build, states, labels) && Within(states[0], edges) && Descends(edges, rank)
    ensures Moves(build, states[|states|-1])
  {
    var i := |states| - 1;
    assert |states| == |labels| + 1;
    hide IsHistory, Unfinished, CanGo, EdgesIn, Descends, RanksGraph;
    forall r | r in states[i].runs ensures RanksGraph(states[i].runs[r].nodes, rank) {
      SameRuns(build, states, labels, i, r);
      EdgesAreRanked(states[i].runs[r].nodes, edges, rank);
    }
    if exists r, s :: Unfinished(states[i], r, s) {
      DeadlockFree(build, states, labels, i, rank);
    }
  }

  lemma EdgesAreRanked(nodes: map<string, Node>, edges: set<(string, string)>, rank: map<string, nat>)
    requires EdgesIn(nodes, edges) && Descends(edges, rank)
    ensures RanksGraph(nodes, rank)
  {
    forall s, d | s in nodes && d in nodes[s].deps ensures s in rank && d in rank && rank[d] < rank[s] {
      assert (s, d) in edges;
    }
  }

  lemma CycleCanDeadlock<C(!new)>(build: Builder<C>, edges: set<(string, string)>, c: seq<string>)
    requires Cycles(edges, c) && forall e | e in edges :: e.0 != e.1
    ensures !NeverStuck(build, edges)
  {
    hide IsHistory, Unfinished, Stuck, Within, Rings, Start, RingState, NeverStuck, Cycles;
    CycleIsRing(edges, c);
    RingStarts(build, c);
    RingWithin(build, edges, c);
    var states, labels := RingCanDeadlock(build, RingState(build, c), c);
    DeadlockRefutes(build, edges, states, labels, 0, c[0]);
  }

  lemma RingWithin<C>(build: Builder<C>, edges: set<(string, string)>, c: seq<string>)
    requires Cycles(edges, c) && IsRing(c)
    ensures Within(RingState(build, c), edges)
  {
    hide EdgesIn, Rings, Start, RingState, Next;
    RingStarts(build, c);
    RingRuns(build, c);
    var st := RingState(build, c);
    forall r | r in st.runs ensures EdgesIn(st.runs[r].nodes, edges) {
      assert (c[r], Next(c, r)) in edges;
      MoreEdges(st.runs[r].nodes, {(c[r], Next(c, r))}, edges);
    }
  }

  lemma DeadlockRefutes<C(!new)>(build: Builder<C>, edges: set<(string, string)>, states: seq<State<C>>, labels: seq<Label>,
                                 r: nat, s: string)
    requires IsHistory(build, states, labels) && states != [] && Within(states[0], edges)
    requires Unfinished(states[|states|-1], r, s) && Stuck(build, states[|states|-1])
    ensures !NeverStuck(build, edges)
  {
    hide IsHistory, Unfinished, Within, Stuck, Moves;
    StuckDoesNotMove(build, states[|states|-1], r, s);
  }

  lemma CycleIsRing(edges: set<(string, string)>, c: seq<string>)
    requires Cycles(edges, c) && forall e | e in edges :: e.0 != e.1
    ensures IsRing(c)
  {
    assert (c[0], Next(c, 0)) in edges;
  }

  lemma MoreEdges(nodes: map<string, Node>, few: set<(string, string)>, edges: set<(string, string)>)
    requires EdgesIn(nodes, few) && few <= edges
    ensures EdgesIn(nodes, edges)
  {
  }

  lemma StuckDoesNotMove<C>(build: Builder<C>, st: State<C>, r: nat, s: string)
    requires Stuck(build, st) && Unfinished(st, r, s)
    ensures !Moves(build, st)
  {
    hide Advance;
  }

  ghost function Loopless(edges: set<(string, string)>): set<(string, string)> {
    set e | e in edges && e.0 != e.1
  }

  /** No plan has a job that depends on itself: its key would contain itself. */
  lemma PlansAreLoopless<C>(build: Builder<C>, st: State<C>, edges: set<(string, string)>)
    requires Start(build, st)
    ensures Within(st, edges) <==> Within(st, Loopless(edges))
  {
    hide Sound;
    forall r | r in st.runs ensures EdgesIn(st.runs[r].nodes, edges) <==> EdgesIn(st.runs[r].nodes, Loopless(edges)) {
      assert StartRun(st.runs[r]);
      NodesAreLoopless(st.runs[r].nodes, edges);
    }
    hide EdgesIn, StartRun;
  }

  lemma NodesAreLoopless(nodes: map<string, Node>, edges: set<(string, string)>)
    requires forall s | s in nodes :: Planned(nodes, s)
    ensures EdgesIn(nodes, edges) <==> EdgesIn(nodes, Loopless(edges))
  {
    forall s, d | s in nodes && d in nodes[s].deps ensures s != d {
      assert Planned(nodes, s) && d in Elems(nodes[s].deps);
      assert nodes[s].key.deps[d] == nodes[d].key;
    }
  }

  /** Deadlock freedom, exactly: for a finite relation on slugs, every history from every start whose
      dep edges lie in it can always go on if and only if the relation, loops aside, embeds in a rank. */
  lemma NeverStuckExactly<C(!new)>(build: Builder<C>, edges: set<(string, string)>)
    ensures NeverStuck(build, edges) <==> Embeds(Loopless(edges))
  {
    hide Embeds, Moves, Within, Start, Step;
    forall states: seq<State<C>>, labels: seq<Label> | IsHistory(build, states, labels)
      ensures Within(states[0], edges) <==> Within(states[0], Loopless(edges)) {
      PlansAreLoopless(build, states[0], edges);
    }
    NeverStuckWithoutLoops(build, Loopless(edges));
  }

  lemma NeverStuckWithoutLoops<C(!new)>(build: Builder<C>, edges: set<(string, string)>)
    requires forall e | e in edges :: e.0 != e.1
    ensures NeverStuck(build, edges) <==> Embeds(edges)
  {
    hide NeverStuck, Cycles, Descends;
    if rank :| Descends(edges, rank) {
      RankedNeverStuck(build, edges, rank);
    } else {
      var v := set e | e in edges :: e.0;
      var w := set e | e in edges :: e.1;
      var rank, c := RankOrCycle(edges, v + w);
      assert Inside(edges, v + w) == edges;
      CycleCanDeadlock(build, edges, c);
    }
  }

  lemma RankedNeverStuck<C(!new)>(build: Builder<C>, edges: set<(string, string)>, rank: map<string, nat>)
    requires Descends(edges, rank)
    ensures NeverStuck(build, edges)
  {
    hide Moves, Within, Descends, Step, Start;
    forall states: seq<State<C>>, labels: seq<Label> | IsHistory(build, states, labels) && Within(states[0], edges)
      ensures Moves(build, states[|states|-1]) {
      DescendingMoves(build, states, labels, edges, rank);
    }
  }
}
