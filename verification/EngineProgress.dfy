/** The scheduler of the build engine: who may build, that nobody gets stuck, that everybody
    finishes, and what `Run` reports. */
module EngineProgress {
  import opened Common
  import opened Jobs
  import opened Engine
  import opened EngineSafety

  // ---------------------------------------------------------------- who may build

  /** At most `Workers` nodes of a run are in `buildNode`, and each of them after all its deps
      succeeded, with the content their keys denote. */
  lemma BuildsOnlyWhenReady<C>(build: Builder<C>, states: seq<State<C>>, labels: seq<Label>, i: nat, r: nat)
    requires IsHistory(build, states, labels) && i < |states| && r in states[i].runs
    ensures |InBuildNode(states[i].runs[r])| <= states[i].runs[r].slots
    ensures forall s, d | s in InBuildNode(states[i].runs[r]) && s in states[i].runs[r].nodes && d in states[i].runs[r].nodes[s].deps ::
              && d in states[i].runs[r].nodes && d in states[i].runs[r].workers
              && states[i].runs[r].workers[d].pc == Done(Succeeded(Denote(build, states[i].runs[r].nodes[d].key)))
  {
    HistoryInvariant(build, states, labels, i);
    var run := states[i].runs[r];
    assert RunInvariant(build, run);
    forall s, d | s in InBuildNode(run) && s in run.nodes && d in run.nodes[s].deps
      ensures d in run.nodes && d in run.workers
      ensures run.workers[d].pc == Done(Succeeded(Denote(build, run.nodes[d].key)))
    {
      DepOfStarted(build, run, s, d);
    }
  }

  lemma DepOfStarted<C>(build: Builder<C>, run: Run<C>, s: string, d: string)
    requires RunInvariant(build, run) && s in run.workers && s in run.nodes && d in run.nodes[s].deps
    requires !run.workers[s].pc.Waiting? && run.workers[s].pc != Done(Skipped)
    ensures d in run.nodes && d in run.workers
    ensures run.workers[d].pc == Done(Succeeded(Denote(build, run.nodes[d].key)))
  {
    hide Denote, Planned, ErrorsKept, SlotsRespected;
    var deps := run.nodes[s].deps;
    assert Ordered(run, s, run.workers[s].pc);
    var j :| 0 <= j < |deps| && deps[j] == d;
    assert HasSucceeded(run, deps[j]);
    assert Contents(build, run.nodes, run.nodes[d], run.workers[d].pc);
    hide Ordered;
  }

  /** Each member lists the next one among its deps. */
  ghost predicate DepChain(nodes: map<string, Node>, p: seq<string>) {
    && |p| > 0
    && (forall i | 0 <= i < |p| :: p[i] in nodes)
    && forall i | 0 <= i < |p| - 1 :: p[i+1] in nodes[p[i]].deps
  }

  /** In every state of every history, no transitive dependent of a node that failed, was cancelled
      or was skipped has been started. */
  lemma NothingBuiltAboveFailure<C>(build: Builder<C>, states: seq<State<C>>, labels: seq<Label>, i: nat, r: nat, p: seq<string>)
    requires IsHistory(build, states, labels) && i < |states| && r in states[i].runs
    requires DepChain(states[i].runs[r].nodes, p) && |p| > 1
    requires p[|p|-1] in states[i].runs[r].workers && states[i].runs[r].workers[p[|p|-1]].pc.Done?
    requires !HasSucceeded(states[i].runs[r], p[|p|-1])
    ensures p[0] in states[i].runs[r].workers
    ensures states[i].runs[r].workers[p[0]].pc.Waiting? || states[i].runs[r].workers[p[0]].pc == Done(Skipped)
  {
    HistoryInvariant(build, states, labels, i);
    assert RunInvariant(build, states[i].runs[r]);
    hide IsHistory;
    NothingStartsAbove(build, states[i].runs[r], p);
  }

  lemma {:induction false} NothingStartsAbove<C>(build: Builder<C>, run: Run<C>, p: seq<string>)
    requires RunInvariant(build, run) && DepChain(run.nodes, p) && |p| > 1
    requires p[|p|-1] in run.workers && run.workers[p[|p|-1]].pc.Done? && !HasSucceeded(run, p[|p|-1])
    ensures p[0] in run.workers && (run.workers[p[0]].pc.Waiting? || run.workers[p[0]].pc == Done(Skipped))
    decreases |p|
  {
    assert p[0+1] in run.nodes[p[0]].deps;
    if |p| > 2 {
      ChainTail(run.nodes, p);
      NothingStartsAbove(build, run, p[1..]);
    }
    assert p[0] in run.workers;
    if !run.workers[p[0]].pc.Waiting? && run.workers[p[0]].pc != Done(Skipped) {
      DepOfStarted(build, run, p[0], p[1]);
      assert false;
    }
  }

  lemma ChainTail(nodes: map<string, Node>, p: seq<string>)
    requires DepChain(nodes, p) && |p| > 1
    ensures DepChain(nodes, p[1..])
  {
    var t := p[1..];
    forall i | 0 <= i < |t| - 1 ensures t[i+1] in nodes[t[i]].deps {
      assert p[i+1+1] in nodes[p[i+1]].deps;
    }
  }

  // ---------------------------------------------------------------- nobody gets stuck

  /** One acyclic relation on slugs holds the dep edges of every run. */
  ghost predicate Ranked<C>(st: State<C>, rank: map<string, nat>) {
    forall r | r in st.runs :: RanksGraph(st.runs[r].nodes, rank)
  }

  ghost predicate RanksGraph(nodes: map<string, Node>, rank: map<string, nat>) {
    forall s, d | s in nodes && d in nodes[s].deps :: s in rank && d in rank && rank[d] < rank[s]
  }

  ghost function RankOf(rank: map<string, nat>, s: string): nat {
    if s in rank then rank[s] else 0
  }

  lemma {:induction false} LeastRank(ws: set<(nat, string)>, rank: map<string, nat>) returns (w: (nat, string))
    requires ws != {}
    ensures w in ws && forall v | v in ws :: RankOf(rank, w.1) <= RankOf(rank, v.1)
  {
    var x :| x in ws;
    w := x;
    if ws != {x} {
      var y := LeastRank(ws - {x}, rank);
      w := if RankOf(rank, x.1) <= RankOf(rank, y.1) then x else y;
    }
  }

  ghost predicate CanGo<C>(build: Builder<C>, st: State<C>, r: nat, s: string) {
    Live(st, r, s) && Advance(build, st, r, s, Go).Some?
  }

  ghost predicate Unfinished<C>(st: State<C>, r: nat, s: string) {
    Live(st, r, s) && !st.runs[r].workers[s].pc.Done?
  }

  ghost predicate Builds<C>(st: State<C>, r: nat, s: string) {
    Live(st, r, s) && HoldsSem(st.runs[r].workers[s].pc)
  }

  /** A worker waits only for a done channel, the semaphore, the mutex or a file lock. */
  lemma OnlyLocksBlock<C>(build: Builder<C>, st: State<C>, r: nat, s: string)
    requires Invariant(build, st) && Live(st, r, s)
    requires var pc := st.runs[r].workers[s].pc;
             !pc.Done? && !pc.Waiting? && !pc.WantSem? && !pc.WantMutex? && !pc.WantEx? &&
             (pc.WantSh? ==> pc.k >= |st.runs[r].nodes[s].deps| || !ExTaken(st, st.runs[r].nodes[s].deps[pc.k]))
    ensures CanGo(build, st, r, s)
  {
    hide Invariant, RunInvariant, BuildResult;
    var pc := st.runs[r].workers[s].pc;
    if pc.Building? {
      ReadableDeps(build, st, r, s);
    }
  }

  lemma ReadableDeps<C>(build: Builder<C>, st: State<C>, r: nat, s: string)
    requires Invariant(build, st) && Live(st, r, s) && st.runs[r].workers[s].pc.Building?
    ensures forall j | 0 <= j < |st.runs[r].nodes[s].deps| :: st.runs[r].nodes[s].deps[j] in st.store
  {
    hide RunInvariant, Sound, LocksExclude;
    var deps := st.runs[r].nodes[s].deps;
    assert CheckedDepsValid(st, r, s);
    forall j | 0 <= j < |deps| ensures deps[j] in st.store {
      assert DepValid(st, r, deps[j]);
    }
  }

  /** If some worker holds an exclusive lock, the owner of least rank can go on. */
  lemma OwnerMoves<C>(build: Builder<C>, st: State<C>, rank: map<string, nat>, r0: nat, s0: string) returns (r: nat, s: string)
    requires Invariant(build, st) && Ranked(st, rank) && OwnsEx(st, r0, s0)
    ensures CanGo(build, st, r, s)
  {
    hide Invariant, CanGo;
    var owners := set q, t | q in st.runs && t in st.runs[q].workers && OwnsEx(st, q, t) :: (q, t);
    assert (r0, s0) in owners;
    var w := LeastRank(owners, rank);
    r, s := w.0, w.1;
    var pc := st.runs[r].workers[s].pc;
    var deps := st.runs[r].nodes[s].deps;
    forall q: nat, x | OwnsEx(st, q, x) ensures RankOf(rank, s) <= RankOf(rank, x) {
      assert (q, x) in owners;
    }
    assert pc.WantSh? && pc.k < |deps| ==> !ExTaken(st, deps[pc.k]);
    OnlyLocksBlock(build, st, r, s);
  }

  /** With no exclusive owner, some worker that has the semaphore can go on. */
  lemma BuilderMoves<C>(build: Builder<C>, st: State<C>, r0: nat, s0: string) returns (r: nat, s: string)
    requires Invariant(build, st) && Builds(st, r0, s0)
    requires forall q, t :: !OwnsEx(st, q, t)
    ensures CanGo(build, st, r, s)
  {
    hide Invariant;
    r, s := r0, s0;
    var pc := st.runs[r].workers[s].pc;
    if pc.WantMutex? && MutexTaken(st, st.runs[r].host, s) {
      r :| Live(st, r, s) && HoldsMutex(st.runs[r].workers[s].pc);
    }
    if !st.runs[r].workers[s].pc.WantEx? && !st.runs[r].workers[s].pc.WantMutex? {
      assert !OwnsEx(st, r, s);
      OnlyLocksBlock(build, st, r, s);
    } else {
      SharersOwn(st, s);
    }
  }

  /** Whoever shares a lock owns its own slug's lock. */
  lemma SharersOwn<C>(st: State<C>, slug: string)
    ensures ShTaken(st, slug) ==> exists r, s :: OwnsEx(st, r, s)
  {
    if ShTaken(st, slug) {
      var r: nat, s :| OwnsSh(st, r, s, slug);
      assert OwnsEx(st, r, s);
    }
  }

  /** With nobody in `buildNode`, an unfinished worker of least rank can go on. */
  lemma WaiterMoves<C>(build: Builder<C>, st: State<C>, rank: map<string, nat>, r0: nat, s0: string) returns (r: nat, s: string)
    requires Invariant(build, st) && Ranked(st, rank) && Unfinished(st, r0, s0)
    requires forall q, t :: !Builds(st, q, t)
    ensures CanGo(build, st, r, s)
  {
    hide Invariant, CanGo;
    var waiting := set q, t | q in st.runs && t in st.runs[q].workers && Unfinished(st, q, t) :: (q, t);
    assert (r0, s0) in waiting;
    var w := LeastRank(waiting, rank);
    r, s := w.0, w.1;
    forall q: nat, x | Unfinished(st, q, x) ensures RankOf(rank, s) <= RankOf(rank, x) {
      assert (q, x) in waiting;
    }
    LeastWaiterMoves(build, st, rank, r, s);
  }

  lemma LeastWaiterMoves<C>(build: Builder<C>, st: State<C>, rank: map<string, nat>, r: nat, s: string)
    requires Invariant(build, st) && Ranked(st, rank) && Unfinished(st, r, s)
    requires forall q: nat, x | Unfinished(st, q, x) :: RankOf(rank, s) <= RankOf(rank, x)
    requires forall q, t :: !Builds(st, q, t)
    ensures CanGo(build, st, r, s)
  {
    hide Invariant, Ranked, BuildResult;
    RunParts(build, st, r, s);
    LeastHasDeps(build, st, rank, r, s);
    SemIsFree(st, r);
    assert !Builds(st, r, s);
  }

  lemma LeastHasDeps<C>(build: Builder<C>, st: State<C>, rank: map<string, nat>, r: nat, s: string)
    requires Invariant(build, st) && Ranked(st, rank) && Live(st, r, s)
    requires forall q: nat, x | Unfinished(st, q, x) :: RankOf(rank, s) <= RankOf(rank, x)
    ensures forall d | d in st.runs[r].nodes[s].deps :: d in st.runs[r].workers && st.runs[r].workers[d].pc.Done?
  {
    hide Invariant;
    RunParts(build, st, r, s);
    forall d | d in st.runs[r].nodes[s].deps ensures d in st.runs[r].workers && st.runs[r].workers[d].pc.Done? {
      assert !Unfinished(st, r, d);
    }
  }

  lemma SemIsFree<C>(st: State<C>, r: nat)
    requires r in st.runs && st.runs[r].alive && st.runs[r].workers.Keys == st.runs[r].nodes.Keys
    requires forall q, t :: !Builds(st, q, t)
    ensures InBuildNode(st.runs[r]) == {}
  {
    forall t | t in st.runs[r].workers ensures !HoldsSem(st.runs[r].workers[t].pc) {
      assert !Builds(st, r, t);
    }
  }

  lemma RunParts<C>(build: Builder<C>, st: State<C>, r: nat, s: string)
    requires Invariant(build, st) && Live(st, r, s)
    ensures var run := st.runs[r];
            && run.slots >= 1 && run.workers.Keys == run.nodes.Keys
            && forall d | d in run.nodes[s].deps :: d in run.nodes
  {
    hide LocksExclude, CheckedDepsValid, Sound, Contents, Ordered;
    assert RunInvariant(build, st.runs[r]);
    assert Planned(st.runs[r].nodes, s);
  }

  /** Deadlock freedom: in every state of every history, if the dep edges of all graphs embed in
      one acyclic relation, an unfinished live worker means some live worker can go on, without
      any help from failures, cancellations or crashes. */
  lemma DeadlockFree<C>(build: Builder<C>, states: seq<State<C>>, labels: seq<Label>, i: nat, rank: map<string, nat>)
    requires IsHistory(build, states, labels) && i < |states| && Ranked(states[i], rank)
    requires exists r, s :: Unfinished(states[i], r, s)
    ensures exists r, s :: CanGo(build, states[i], r, s)
  {
    hide Invariant, CanGo, Unfinished, OwnsEx, Builds, Ranked;
    var st := states[i];
    HistoryInvariant(build, states, labels, i);
    var r0: nat, s0 :| Unfinished(st, r0, s0);
    if q: nat, t :| OwnsEx(st, q, t) {
      var r, s := OwnerMoves(build, st, rank, q, t);
    } else if q: nat, t :| Builds(st, q, t) {
      var r, s := BuilderMoves(build, st, q, t);
    } else {
      var r, s := WaiterMoves(build, st, rank, r0, s0);
    }
  }

  // ---------------------------------------------------------------- everybody finishes

  /** One more than the steps a single attempt can take, with n deps. */
  function AttemptCost(n: nat): nat {
    4 * n + 15
  }

  /** Steps that attempts not yet started can take; `buildNode` allows three. */
  function LaterAttempts(attempt: nat, n: nat): nat {
    if attempt == 0 then 3 * AttemptCost(n)
    else if attempt == 1 then 2 * AttemptCost(n)
    else if attempt == 2 then AttemptCost(n)
    else 0
  }

  /** An upper bound on the steps a worker still takes. */
  function StepsLeft<C>(w: Worker<C>, n: nat): int {
    StepsFrom(w.pc, LaterAttempts(w.attempt, n), n)
  }

  /** The same, when attempts not yet started can take `later` steps. */
  function StepsFrom<C>(pc: Pc<C>, later: nat, n: nat): int {
    match pc
    case Waiting(i) => LaterAttempts(0, n) + 2 + n - i
    case CheckCancel => LaterAttempts(0, n) + 1
    case WantSem => LaterAttempts(0, n)
    case Peek => 4 * n + 14 + later
    case WantMutex => 4 * n + 13 + later
    case WantEx => 4 * n + 12 + later
    case Recheck => 4 * n + 11 + later
    case WantSh(k) => 4 * n - k + 10 + later
    case CheckDeps(k) => 3 * n - k + 9 + later
    case Building(got) => 2 * n - |got| + 8 + later
    case Staged(_) => n + 7 + later
    case Stamped(_) => n + 6 + later
    case Moved(_) => n + 5 + later
    case DropSh(k, _) => k + 4 + later
    case DropEx(_) => 3 + later
    case DropMutex(_) => 2 + later
    case Return(_) => 1 + later
    case Done(_) => 0
  }

  /** Each step of a worker uses up at least one of its remaining steps, and others none. */
  lemma StepUsesUp<C>(build: Builder<C>, st: State<C>, r: nat, s: string, ch: Choice, m: Move<C>)
    requires Live(st, r, s) && Advance(build, st, r, s, ch) == Some(m)
    requires Ordered(st.runs[r], s, st.runs[r].workers[s].pc)
    ensures var n := |st.runs[r].nodes[s].deps|;
            0 <= StepsLeft(Apply(st, r, s, ch, m).runs[r].workers[s], n) < StepsLeft(st.runs[r].workers[s], n)
  {
    hide Advance, Apply, StepsLeft, Ordered;
    MoveUsesUp(build, st, r, s, ch, m);
    ApplyAttempt(st, r, s, ch, m);
  }

  lemma ApplyAttempt<C>(st: State<C>, r: nat, s: string, ch: Choice, m: Move<C>)
    requires Live(st, r, s)
    ensures var a := st.runs[r].workers[s].attempt;
            Apply(st, r, s, ch, m).runs[r].workers[s] == Worker(m.pc, if m.pc.Peek? then a + 1 else a)
  {
  }

  lemma MoveUsesUp<C>(build: Builder<C>, st: State<C>, r: nat, s: string, ch: Choice, m: Move<C>)
    requires Live(st, r, s) && Advance(build, st, r, s, ch) == Some(m)
    requires Ordered(st.runs[r], s, st.runs[r].workers[s].pc)
    ensures var n := |st.runs[r].nodes[s].deps|;
            var w := st.runs[r].workers[s];
            0 <= StepsLeft(Worker(m.pc, if m.pc.Peek? then w.attempt + 1 else w.attempt), n) < StepsLeft(w, n)
  {
    var n, w := |st.runs[r].nodes[s].deps|, st.runs[r].workers[s];
    LaterShrinks(w.attempt, n);
    InRange(st.runs[r], s, w.pc);
    hide Ordered, LaterAttempts, AttemptCost, Advance;
    if m.pc.Peek? {
      RetryUsesUp(build, st, r, s, ch, m);
    } else {
      OtherMoveUsesUp(build, st, r, s, ch, m, LaterAttempts(w.attempt, n));
    }
  }

  lemma RetryUsesUp<C>(build: Builder<C>, st: State<C>, r: nat, s: string, ch: Choice, m: Move<C>)
    requires Live(st, r, s) && Advance(build, st, r, s, ch) == Some(m) && m.pc.Peek?
    ensures var w := st.runs[r].workers[s]; w.pc.WantSem? || (w.pc.Return? && w.attempt < 3)
  {
    hide BuildResult, ExTaken, ShTaken, MutexTaken, InBuildNode, ValidAt;
  }

  predicate CountersInRange<C>(pc: Pc<C>, n: nat) {
    match pc
    case Waiting(i) => i <= n
    case WantSh(k) => k <= n
    case CheckDeps(k) => k <= n
    case DropSh(k, _) => k <= n
    case Building(got) => |got| <= n
    case _ => true
  }

  lemma OtherMoveUsesUp<C>(build: Builder<C>, st: State<C>, r: nat, s: string, ch: Choice, m: Move<C>, later: nat)
    requires Live(st, r, s) && Advance(build, st, r, s, ch) == Some(m) && !m.pc.Peek?
    requires LaterAttempts(0, |st.runs[r].nodes[s].deps|) >= 1
    requires CountersInRange(st.runs[r].workers[s].pc, |st.runs[r].nodes[s].deps|)
    ensures var n := |st.runs[r].nodes[s].deps|;
            0 <= StepsFrom(m.pc, later, n) < StepsFrom(st.runs[r].workers[s].pc, later, n)
  {
    hide Advance, StepsFrom, LaterAttempts;
    if BeforeLocks(st.runs[r].workers[s].pc) {
      MoveBeforeLocks(build, st, r, s, ch, m, later);
    } else if SharedCount(st.runs[r].workers[s].pc, 1) == 0 {
      MoveOutsideLeases(build, st, r, s, ch, m, later);
    } else {
      MoveUnderLeases(build, st, r, s, ch, m, later);
    }
  }

  /** Program points at which a worker has no lock on files yet. */
  predicate BeforeLocks<C>(pc: Pc<C>) {
    pc.Waiting? || pc.CheckCancel? || pc.WantSem? || pc.Peek? || pc.WantMutex? || pc.WantEx?
  }

  lemma MoveBeforeLocks<C>(build: Builder<C>, st: State<C>, r: nat, s: string, ch: Choice, m: Move<C>, later: nat)
    requires Live(st, r, s) && Advance(build, st, r, s, ch) == Some(m) && !m.pc.Peek?
    requires LaterAttempts(0, |st.runs[r].nodes[s].deps|) >= 1
    requires CountersInRange(st.runs[r].workers[s].pc, |st.runs[r].nodes[s].deps|)
    requires BeforeLocks(st.runs[r].workers[s].pc)
    ensures var n := |st.runs[r].nodes[s].deps|;
            0 <= StepsFrom(m.pc, later, n) < StepsFrom(st.runs[r].workers[s].pc, later, n)
  {
    hide BuildResult, ExTaken, ShTaken, MutexTaken, InBuildNode, ValidAt, LaterAttempts;
  }

  lemma MoveOutsideLeases<C>(build: Builder<C>, st: State<C>, r: nat, s: string, ch: Choice, m: Move<C>, later: nat)
    requires Live(st, r, s) && Advance(build, st, r, s, ch) == Some(m) && !m.pc.Peek?
    requires LaterAttempts(0, |st.runs[r].nodes[s].deps|) >= 1
    requires CountersInRange(st.runs[r].workers[s].pc, |st.runs[r].nodes[s].deps|)
    requires SharedCount(st.runs[r].workers[s].pc, 1) == 0 && !BeforeLocks(st.runs[r].workers[s].pc)
    ensures var n := |st.runs[r].nodes[s].deps|;
            0 <= StepsFrom(m.pc, later, n) < StepsFrom(st.runs[r].workers[s].pc, later, n)
  {
    hide BuildResult, ExTaken, ShTaken, MutexTaken, InBuildNode, ValidAt, LaterAttempts;
  }

  lemma MoveUnderLeases<C>(build: Builder<C>, st: State<C>, r: nat, s: string, ch: Choice, m: Move<C>, later: nat)
    requires Live(st, r, s) && Advance(build, st, r, s, ch) == Some(m) && !m.pc.Peek?
    requires LaterAttempts(0, |st.runs[r].nodes[s].deps|) >= 1
    requires CountersInRange(st.runs[r].workers[s].pc, |st.runs[r].nodes[s].deps|)
    requires SharedCount(st.runs[r].workers[s].pc, 1) > 0
    ensures var n := |st.runs[r].nodes[s].deps|;
            0 <= StepsFrom(m.pc, later, n) < StepsFrom(st.runs[r].workers[s].pc, later, n)
  {
    hide BuildResult, ExTaken, ShTaken, MutexTaken, InBuildNode, ValidAt, LaterAttempts;
  }

  /** The loop counters of a worker are in range. */
  lemma InRange<C>(run: Run<C>, s: string, pc: Pc<C>)
    requires s in run.nodes && Ordered(run, s, pc)
    ensures CountersInRange(pc, |run.nodes[s].deps|)
  {
  }

  lemma LaterShrinks(attempt: nat, n: nat)
    ensures LaterAttempts(attempt + 1, n) + 4 * n + 15 <= LaterAttempts(0, n)
    ensures attempt < 3 ==> LaterAttempts(attempt + 1, n) + 4 * n + 15 <= LaterAttempts(attempt, n)
  {
  }

  /** How often a worker stepped in the first i steps. */
  function StepsTaken(labels: seq<Label>, r: nat, s: string, i: nat): nat
    requires i <= |labels|
  {
    if i == 0 then 0
    else StepsTaken(labels, r, s, i - 1) + (if labels[i-1] == ByWorker(r, s) then 1 else 0)
  }

  /** Termination: whatever the others do, a goroutine of a node with n deps takes at most
      13n + 47 steps, so every history has boundedly many worker steps. */
  lemma WorkIsBounded<C>(build: Builder<C>, states: seq<State<C>>, labels: seq<Label>, i: nat, r: nat, s: string)
    requires IsHistory(build, states, labels) && i < |states|
    requires r in states[0].runs && s in states[0].runs[r].nodes
    ensures StepsTaken(labels, r, s, i) <= 13 * |states[0].runs[r].nodes[s].deps| + 47
  {
    StepsAddUp(build, states, labels, i, r, s);
    assert StartRun(states[0].runs[r]);
  }

  lemma {:induction false} StepsAddUp<C>(build: Builder<C>, states: seq<State<C>>, labels: seq<Label>, i: nat, r: nat, s: string)
    requires IsHistory(build, states, labels) && i < |states|
    requires r in states[0].runs && s in states[0].runs[r].nodes
    ensures r in states[i].runs && states[i].runs[r].nodes == states[0].runs[r].nodes && s in states[i].runs[r].workers
    ensures states[i].runs[r].slots == states[0].runs[r].slots
    ensures var n := |states[0].runs[r].nodes[s].deps|;
            0 <= StepsLeft(states[i].runs[r].workers[s], n) &&
            StepsTaken(labels, r, s, i) + StepsLeft(states[i].runs[r].workers[s], n)
              <= StepsLeft(states[0].runs[r].workers[s], n)
  {
    hide Invariant, Step, StepsLeft;
    if i == 0 {
      assert StartRun(states[0].runs[r]);
      NoStepsYet(states[0].runs[r].workers[s], |states[0].runs[r].nodes[s].deps|);
    } else {
      StepsAddUp(build, states, labels, i - 1, r, s);
      HistoryInvariant(build, states, labels, i - 1);
      assert Step(build, states[i-1], states[i-1+1], labels[i-1]);
      StepAddsUp(build, states[i-1], states[i], labels[i-1], r, s);
    }
  }

  lemma NoStepsYet<C>(w: Worker<C>, n: nat)
    requires w == Worker(Waiting(0), 0)
    ensures StepsLeft(w, n) >= 0
  {
  }

  lemma StepAddsUp<C>(build: Builder<C>, st: State<C>, st': State<C>, l: Label, r: nat, s: string)
    requires Invariant(build, st) && Step(build, st, st', l)
    requires r in st.runs && s in st.runs[r].workers && s in st.runs[r].nodes
    ensures r in st'.runs && st'.runs[r].nodes == st.runs[r].nodes && s in st'.runs[r].workers
    ensures st'.runs[r].slots == st.runs[r].slots
    ensures var n := |st.runs[r].nodes[s].deps|;
            if l == ByWorker(r, s) then 0 <= StepsLeft(st'.runs[r].workers[s], n) < StepsLeft(st.runs[r].workers[s], n)
            else st'.runs[r].workers[s] == st.runs[r].workers[s]
  {
    hide Invariant, Advance, Apply, StepsLeft, Ordered;
    if l.ByWorker? {
      var ch :| Advance(build, st, l.r, l.s, ch).Some? &&
                st' == Apply(st, l.r, l.s, ch, Advance(build, st, l.r, l.s, ch).value);
      var m := Advance(build, st, l.r, l.s, ch).value;
      ApplyFrame(st, l.r, l.s, ch, m);
      OrderOf(build, st, l.r, l.s);
      StepUsesUp(build, st, l.r, l.s, ch, m);
    }
  }

  lemma OrderOf<C>(build: Builder<C>, st: State<C>, r: nat, s: string)
    requires Invariant(build, st) && Live(st, r, s)
    ensures Ordered(st.runs[r], s, st.runs[r].workers[s].pc)
  {
    hide Ordered, LocksExclude, CheckedDepsValid;
    assert RunInvariant(build, st.runs[r]);
  }

  // ---------------------------------------------------------------- what Run reports

  datatype Report = Fine | JobFailed(slug: string) | ContextError

  ghost predicate Finished<C>(run: Run<C>) {
    forall s | s in run.workers :: run.workers[s].pc.Done?
  }

  /** What `Run` returns once every goroutine is done. */
  function Reported<C>(run: Run<C>): Report {
    if run.firstErr.Some? then JobFailed(run.firstErr.value)
    else if run.external then ContextError
    else Fine
  }

  /** `Run` reports success only when every node was found valid or published with the content its
      key denotes, unless some build reported a cancellation that never happened; a reported job
      did fail, after all its deps had succeeded. */
  lemma RunReportsTruly<C>(build: Builder<C>, states: seq<State<C>>, labels: seq<Label>, i: nat, r: nat)
    requires IsHistory(build, states, labels) && i < |states| && r in states[i].runs && Finished(states[i].runs[r])
    ensures var run := states[i].runs[r];
            Reported(run).Fine? ==>
              (!run.lied <==> forall s | s in run.nodes :: s in run.workers &&
                                run.workers[s].pc == Done(Succeeded(Denote(build, run.nodes[s].key))))
    ensures var run := states[i].runs[r];
            Reported(run).JobFailed? ==>
              var s := Reported(run).slug;
              && s in run.nodes && s in run.workers && run.workers[s].pc == Done(HasFailed)
              && forall d | d in run.nodes[s].deps :: HasSucceeded(run, d)
  {
    hide Step, Start, LocksExclude, CheckedDepsValid, Sound;
    HistoryInvariant(build, states, labels, i);
    var run := states[i].runs[r];
    assert RunInvariant(build, run);
    hide Invariant;
    if Reported(run).Fine? {
      AllSucceeded(build, run);
    } else if Reported(run).JobFailed? {
      var s := run.firstErr.value;
      forall d | d in run.nodes[s].deps ensures HasSucceeded(run, d) {
        DepOfStarted(build, run, s, d);
      }
    }
  }

  lemma AllSucceeded<C>(build: Builder<C>, run: Run<C>)
    requires RunInvariant(build, run) && Finished(run) && Reported(run).Fine?
    ensures !run.lied <==> forall s | s in run.nodes :: s in run.workers &&
                             run.workers[s].pc == Done(Succeeded(Denote(build, run.nodes[s].key)))
  {
    hide RunInvariant, Denote;
    if run.lied {
      LiarGaveUp(build, run);
    } else {
      forall s | s in run.nodes
        ensures s in run.workers && run.workers[s].pc == Done(Succeeded(Denote(build, run.nodes[s].key)))
      {
        NoneSkipped(build, run, s);
      }
    }
  }

  lemma LiarGaveUp<C>(build: Builder<C>, run: Run<C>)
    requires RunInvariant(build, run) && Finished(run) && run.lied
    ensures exists s :: s in run.nodes && s in run.workers && run.workers[s].pc == Done(WasCanceled)
  {
    hide Ordered, Contents, Planned;
    var s :| s in run.workers && GivesUp(run.workers[s].pc);
    assert run.workers[s].pc.Done?;
  }

  lemma HowItEnded<C>(build: Builder<C>, run: Run<C>, s: string)
    requires RunInvariant(build, run) && Finished(run) && Reported(run).Fine? && !run.lied && s in run.nodes
    ensures s in run.workers
    ensures run.workers[s].pc == Done(Succeeded(Denote(build, run.nodes[s].key)))
            || (run.workers[s].pc == Done(Skipped) && FailedDep(run, s))
    ensures forall d | d in run.nodes[s].deps :: d in run.nodes && d in run.nodes[s].key.deps && run.nodes[s].key.deps[d] == run.nodes[d].key
  {
    hide Denote, SlotsRespected, FirstDepsSucceeded, FailedDep, ErrorsKept;
    NoFailure(build, run, s);
    assert Ordered(run, s, run.workers[s].pc) && Planned(run.nodes, s);
    assert Contents(build, run.nodes, run.nodes[s], run.workers[s].pc);
    match run.workers[s].pc.o
    case _ =>
  }

  lemma NoFailure<C>(build: Builder<C>, run: Run<C>, s: string)
    requires RunInvariant(build, run) && Finished(run) && Reported(run).Fine? && !run.lied && s in run.nodes
    ensures s in run.workers && run.workers[s].pc.Done?
    ensures run.workers[s].pc.o.Succeeded? || run.workers[s].pc.o.Skipped?
  {
    hide Ordered, Contents, Planned, SlotsRespected;
    assert run.workers[s].pc.Done?;
    assert !GivesUp(run.workers[s].pc);
  }

  /** Following skipped nodes down the graph would have to end at one that failed. */
  lemma {:induction false} NoneSkipped<C>(build: Builder<C>, run: Run<C>, s: string)
    requires RunInvariant(build, run) && Finished(run) && Reported(run).Fine? && !run.lied && s in run.nodes
    ensures s in run.workers && run.workers[s].pc == Done(Succeeded(Denote(build, run.nodes[s].key)))
    decreases run.nodes[s].key
  {
    hide RunInvariant, Denote;
    HowItEnded(build, run, s);
    if run.workers[s].pc == Done(Skipped) {
      var d :| d in run.nodes[s].deps && d in run.workers && run.workers[d].pc.Done? && !HasSucceeded(run, d);
      var k := run.nodes[s].key;
      assert k.deps[d] < k;
      NoneSkipped(build, run, d);
      assert false;
    }
  }

  // ---------------------------------------------------------------- rebuilding is a no-op

  /** Past its recheck, a worker knows its own artifact is not valid for the key it wants. */
  predicate PastRecheck<C>(pc: Pc<C>) {
    pc.WantSh? || pc.CheckDeps? || pc.Building? || pc.Staged? || pc.Stamped? || pc.Moved?
  }

  ghost predicate OnlyInvalidRebuilt<C>(st: State<C>) {
    forall r, s | Live(st, r, s) && PastRecheck(st.runs[r].workers[s].pc) :: !ValidAt(st.store, s, st.runs[r].nodes[s].key)
  }

  lemma MovePastRecheck<C>(build: Builder<C>, st: State<C>, r: nat, s: string, ch: Choice, m: Move<C>)
    requires Live(st, r, s) && Advance(build, st, r, s, ch) == Some(m)
    ensures PastRecheck(m.pc) ==>
              (PastRecheck(st.runs[r].workers[s].pc) && (m.store == st.store || s !in m.store))
              || (m.store == st.store && !ValidAt(st.store, s, st.runs[r].nodes[s].key))
    ensures m.store != st.store ==> PastRecheck(st.runs[r].workers[s].pc)
  {
  }

  lemma MoveKeepsOnlyInvalid<C>(build: Builder<C>, st: State<C>, r: nat, s: string, ch: Choice, m: Move<C>)
    requires Live(st, r, s) && Advance(build, st, r, s, ch) == Some(m)
    requires LocksExclude(st) && OnlyInvalidRebuilt(st)
    ensures OnlyInvalidRebuilt(Apply(st, r, s, ch, m))
  {
    hide Advance, Apply;
    var st' := Apply(st, r, s, ch, m);
    ApplyFrame(st, r, s, ch, m);
    MovePastRecheck(build, st, r, s, ch, m);
    MoveDiscipline(build, st, r, s, ch, m);
    forall q: nat, t | Live(st', q, t) && PastRecheck(st'.runs[q].workers[t].pc)
      ensures !ValidAt(st'.store, t, st'.runs[q].nodes[t].key)
    {
      if (q, t) != (r, s) {
        assert OwnsEx(st, q, t);
        assert t == s ==> m.store == st.store;
      }
    }
  }

  lemma StepKeepsOnlyInvalid<C>(build: Builder<C>, st: State<C>, st': State<C>, l: Label)
    requires Step(build, st, st', l) && LocksExclude(st) && OnlyInvalidRebuilt(st)
    ensures OnlyInvalidRebuilt(st')
  {
    hide Advance, Apply, LocksExclude;
    if l.ByWorker? {
      var ch :| Advance(build, st, l.r, l.s, ch).Some? &&
                st' == Apply(st, l.r, l.s, ch, Advance(build, st, l.r, l.s, ch).value);
      MoveKeepsOnlyInvalid(build, st, l.r, l.s, ch, Advance(build, st, l.r, l.s, ch).value);
    } else {
      forall q: nat, t | Live(st', q, t) && PastRecheck(st'.runs[q].workers[t].pc)
        ensures !ValidAt(st'.store, t, st'.runs[q].nodes[t].key)
      {
        assert Live(st, q, t);
      }
    }
  }

  lemma {:induction false} HistoryOnlyInvalid<C>(build: Builder<C>, states: seq<State<C>>, labels: seq<Label>, i: nat)
    requires IsHistory(build, states, labels) && i < |states|
    ensures OnlyInvalidRebuilt(states[i])
  {
    hide Invariant, Step, OnlyInvalidRebuilt;
    if i == 0 {
      NothingPastRecheck(build, states[0]);
    } else {
      HistoryOnlyInvalid(build, states, labels, i - 1);
      HistoryInvariant(build, states, labels, i - 1);
      LocksOf(build, states[i-1]);
      assert Step(build, states[i-1], states[i-1+1], labels[i-1]);
      StepKeepsOnlyInvalid(build, states[i-1], states[i], labels[i-1]);
    }
  }

  lemma NothingPastRecheck<C>(build: Builder<C>, st: State<C>)
    requires Start(build, st)
    ensures OnlyInvalidRebuilt(st)
  {
    forall r: nat, s | Live(st, r, s) ensures !PastRecheck(st.runs[r].workers[s].pc) {
      assert StartRun(st.runs[r]);
    }
  }

  /** A worker changes an artifact only when it is not valid for the key the worker wants. */
  lemma ValidIsLeftAlone<C>(build: Builder<C>, states: seq<State<C>>, labels: seq<Label>, i: nat, slug: string)
    requires IsHistory(build, states, labels) && i < |labels| && slug in states[i].store
    requires slug !in states[i+1].store || states[i+1].store[slug] != states[i].store[slug]
    ensures labels[i].ByWorker? && labels[i].s == slug && OwnsEx(states[i], labels[i].r, slug)
    ensures !ValidAt(states[i].store, slug, states[i].runs[labels[i].r].nodes[slug].key)
  {
    hide Invariant, Advance, Apply;
    var st, st', l := states[i], states[i+1], labels[i];
    assert Step(build, st, st', l);
    HistoryOnlyInvalid(build, states, labels, i);
    if l.ByWorker? {
      var ch :| Advance(build, st, l.r, l.s, ch).Some? &&
                st' == Apply(st, l.r, l.s, ch, Advance(build, st, l.r, l.s, ch).value);
      var m := Advance(build, st, l.r, l.s, ch).value;
      ApplyFrame(st, l.r, l.s, ch, m);
      MoveDiscipline(build, st, l.r, l.s, ch, m);
      MovePastRecheck(build, st, l.r, l.s, ch, m);
    }
  }

  /** Rebuilding with identical inputs is a no-op: once an artifact is valid for the key that every
      run wants, no history changes it any more. */
  lemma {:induction false} RebuildIsNoOp<C>(build: Builder<C>, states: seq<State<C>>, labels: seq<Label>, i: nat, k: nat,
                                           slug: string, key: Key)
    requires IsHistory(build, states, labels) && i <= k < |states| && ValidAt(states[i].store, slug, key)
    requires forall r | r in states[0].runs && slug in states[0].runs[r].nodes :: states[0].runs[r].nodes[slug].key == key
    ensures slug in states[k].store && states[k].store[slug] == states[i].store[slug]
    decreases k
  {
    hide Invariant, Step, Start;
    if i < k {
      RebuildIsNoOp(build, states, labels, i, k - 1, slug, key);
      if slug !in states[k-1+1].store || states[k-1+1].store[slug] != states[k-1].store[slug] {
        ValidIsLeftAlone(build, states, labels, k - 1, slug);
        SameRuns(build, states, labels, k - 1, labels[k-1].r);
        assert false;
      }
    }
  }

  /** The plans of the runs never change. */
  lemma {:induction false} SameRuns<C>(build: Builder<C>, states: seq<State<C>>, labels: seq<Label>, i: nat, r: nat)
    requires IsHistory(build, states, labels) && i < |states| && r in states[i].runs
    ensures r in states[0].runs && states[0].runs[r].nodes == states[i].runs[r].nodes
  {
    hide Advance, Apply, Start;
    if i > 0 {
      var st, st', l := states[i-1], states[i], labels[i-1];
      assert Step(build, st, states[i-1+1], l);
      if l.ByWorker? {
        var ch :| Advance(build, st, l.r, l.s, ch).Some? &&
                  st' == Apply(st, l.r, l.s, ch, Advance(build, st, l.r, l.s, ch).value);
        ApplyFrame(st, l.r, l.s, ch, Advance(build, st, l.r, l.s, ch).value);
      }
      SameRuns(build, states, labels, i - 1, r);
    }
  }
}
