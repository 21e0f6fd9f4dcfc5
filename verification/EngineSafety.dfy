/** What every state of every history of the build engine keeps. */
module EngineSafety {
  import opened Common
  import opened Jobs
  import opened Engine

  // ---------------------------------------------------------------- the invariant, part by part

  ghost predicate Shape<C>(run: Run<C>) {
    && run.slots >= 1 && run.workers.Keys == run.nodes.Keys
    && forall s | s in run.nodes :: Planned(run.nodes, s)
  }

  ghost predicate HasSucceeded<C>(run: Run<C>, s: string) {
    s in run.workers && run.workers[s].pc.Done? && run.workers[s].pc.o.Succeeded?
  }

  ghost predicate FirstDepsSucceeded<C>(run: Run<C>, s: string, n: nat)
    requires s in run.nodes
  {
    n <= |run.nodes[s].deps| && forall j | 0 <= j < n :: HasSucceeded(run, run.nodes[s].deps[j])
  }

  /** How far the scheduler has let this node come, and its loop counters in range. */
  ghost predicate Ordered<C>(run: Run<C>, s: string, pc: Pc<C>)
    requires s in run.nodes
  {
    var n := |run.nodes[s].deps|;
    match pc
    case Waiting(i) => FirstDepsSucceeded(run, s, i)
    case Done(Skipped) => FailedDep(run, s)
    case _ =>
      && FirstDepsSucceeded(run, s, n)
      && SharedCount(pc, n) <= n
      && (pc.CheckDeps? ==> pc.k <= n)
      && (pc.Building? ==> |pc.got| <= n)
  }

  ghost predicate FailedDep<C>(run: Run<C>, s: string)
    requires s in run.nodes
  {
    exists d :: d in run.nodes[s].deps && d in run.workers && run.workers[d].pc.Done? && !HasSucceeded(run, d)
  }

  /** Everything read, staged or remembered is the content its key denotes. */
  ghost predicate Contents<C>(build: Builder<C>, nodes: map<string, Node>, node: Node, pc: Pc<C>) {
    match pc
    case Building(got) =>
      forall j | 0 <= j < |got| && j < |node.deps| ::
        node.deps[j] in nodes && got[j] == Denote(build, nodes[node.deps[j]].key)
    case Staged(stage) => stage == Artifact(None, Denote(build, node.key))
    case Stamped(stage) => stage == Artifact(Some(node.key), Denote(build, node.key))
    case Moved(stage) => stage == Artifact(Some(node.key), Denote(build, node.key))
    case DropSh(_, Good(c)) => c == Denote(build, node.key)
    case DropEx(Good(c)) => c == Denote(build, node.key)
    case DropMutex(Good(c)) => c == Denote(build, node.key)
    case Return(Good(c)) => c == Denote(build, node.key)
    case Done(Succeeded(c)) => c == Denote(build, node.key)
    case _ => true
  }

  /** How many deps have been found valid under their shared locks. */
  function CheckedCount<C>(pc: Pc<C>, deps: nat): nat {
    match pc
    case CheckDeps(k) => k
    case Building(_) => deps
    case Staged(_) => deps
    case Stamped(_) => deps
    case Moved(_) => deps
    case _ => 0
  }

  ghost predicate DepValid<C>(st: State<C>, r: nat, d: string)
    requires r in st.runs
  {
    d in st.runs[r].nodes && ValidAt(st.store, d, st.runs[r].nodes[d].key)
  }

  ghost predicate CheckedDepsValid<C>(st: State<C>, r: nat, s: string)
    requires Live(st, r, s)
  {
    var node := st.runs[r].nodes[s];
    forall j | 0 <= j < |node.deps| && j < CheckedCount(st.runs[r].workers[s].pc, |node.deps|) ::
      DepValid(st, r, node.deps[j])
  }

  /** A slug's exclusive lock has one owner, and then no one shares the lock. */
  ghost predicate LocksExclude<C>(st: State<C>) {
    && (forall r, q, s | OwnsEx(st, r, s) && OwnsEx(st, q, s) :: r == q)
    && (forall r, s, q, t | OwnsEx(st, r, s) && OwnsSh(st, q, t, s) :: false)
  }

  ghost predicate SlotsRespected<C>(run: Run<C>) {
    |InBuildNode(run)| <= run.slots
  }

  /** The worker is giving up with a cancellation. */
  predicate GivesUp<C>(pc: Pc<C>) {
    match pc
    case DropSh(_, Canceled) => true
    case DropEx(Canceled) => true
    case DropMutex(Canceled) => true
    case Return(Canceled) => true
    case Done(WasCanceled) => true
    case _ => false
  }

  ghost predicate ErrorsKept<C>(run: Run<C>) {
    && (run.firstErr.Some? ==> run.firstErr.value in run.workers && run.workers[run.firstErr.value].pc == Done(HasFailed))
    && (forall s | s in run.workers && run.workers[s].pc == Done(HasFailed) :: run.firstErr.Some?)
    && (forall s | s in run.workers && GivesUp(run.workers[s].pc) :: Cancelled(run) || run.lied)
    && (run.lied ==> exists s :: s in run.workers && GivesUp(run.workers[s].pc))
  }

  ghost predicate RunInvariant<C>(build: Builder<C>, run: Run<C>) {
    && Shape(run) && SlotsRespected(run) && ErrorsKept(run)
    && forall s | s in run.workers :: Ordered(run, s, run.workers[s].pc) && Contents(build, run.nodes, run.nodes[s], run.workers[s].pc)
  }

  ghost predicate Invariant<C>(build: Builder<C>, st: State<C>) {
    && Sound(build, st.store)
    && LocksExclude(st)
    && (forall r | r in st.runs :: RunInvariant(build, st.runs[r]))
    && (forall r, s | Live(st, r, s) :: CheckedDepsValid(st, r, s))
  }

  // ---------------------------------------------------------------- it holds at the start

  lemma StartInvariant<C>(build: Builder<C>, st: State<C>)
    requires Start(build, st)
    ensures Invariant(build, st)
  {
    forall r | r in st.runs ensures RunInvariant(build, st.runs[r]) {
      var run := st.runs[r];
      assert StartRun(run);
      assert InBuildNode(run) == {};
    }
  }

  // ---------------------------------------------------------------- one worker's move

  /** Its effect on locks and store: the store changes only at the worker's own slug and under its
      exclusive lock; locks are only taken when the kernel grants them. */
  lemma MoveDiscipline<C>(build: Builder<C>, st: State<C>, r: nat, s: string, ch: Choice, m: Move<C>)
    requires Live(st, r, s) && Advance(build, st, r, s, ch) == Some(m)
    ensures var pc := st.runs[r].workers[s].pc;
            var deps := st.runs[r].nodes[s].deps;
            && (m.store == st.store || OwnsEx(st, r, s))
            && (forall d | d != s :: d in m.store <==> d in st.store)
            && (forall d | d != s && d in m.store :: m.store[d] == st.store[d])
            && (HoldsEx(m.pc) ==> HoldsEx(pc) || (!ExTaken(st, s) && !ShTaken(st, s)))
            && (forall i | 0 <= i < SharedCount(m.pc, |deps|) && i < |deps| ::
                  i < SharedCount(pc, |deps|) || !ExTaken(st, deps[i]))
            && (SharedCount(m.pc, |deps|) > 0 ==> HoldsEx(m.pc) && HoldsEx(pc))
  {
  }

  /** What a worker's move leaves alone. */
  lemma ApplyFrame<C>(st: State<C>, r: nat, s: string, ch: Choice, m: Move<C>)
    requires Live(st, r, s)
    ensures var st' := Apply(st, r, s, ch, m);
            && st'.store == m.store && st'.runs.Keys == st.runs.Keys
            && (forall q | q in st.runs && q != r :: st'.runs[q] == st.runs[q])
            && st'.runs[r].nodes == st.runs[r].nodes && st'.runs[r].alive == st.runs[r].alive
            && st'.runs[r].host == st.runs[r].host && st'.runs[r].slots == st.runs[r].slots
            && st'.runs[r].external == st.runs[r].external
            && st'.runs[r].workers.Keys == st.runs[r].workers.Keys
            && st'.runs[r].workers[s].pc == m.pc
            && (forall t | t in st.runs[r].workers && t != s :: st'.runs[r].workers[t] == st.runs[r].workers[t])
            && (forall q, t :: Live(st', q, t) <==> Live(st, q, t))
  {
  }

  /** An exclusive owner after the move was one before, or has just been granted a free lock. */
  lemma ExBefore<C>(build: Builder<C>, st: State<C>, r: nat, s: string, ch: Choice, m: Move<C>, a: nat, x: string)
    requires Live(st, r, s) && Advance(build, st, r, s, ch) == Some(m) && OwnsEx(Apply(st, r, s, ch, m), a, x)
    ensures OwnsEx(st, a, x) || (a == r && x == s && !ExTaken(st, s) && !ShTaken(st, s))
  {
    hide Advance, Apply;
    ApplyFrame(st, r, s, ch, m);
    MoveDiscipline(build, st, r, s, ch, m);
  }

  /** A sharer after the move was one before, or is an exclusive owner just granted a lock nobody
      owns exclusively. */
  lemma ShBefore<C>(build: Builder<C>, st: State<C>, r: nat, s: string, ch: Choice, m: Move<C>, b: nat, t: string, x: string)
    requires Live(st, r, s) && Advance(build, st, r, s, ch) == Some(m) && OwnsSh(Apply(st, r, s, ch, m), b, t, x)
    ensures OwnsSh(st, b, t, x) || (b == r && t == s && OwnsEx(st, r, s) && !ExTaken(st, x))
  {
    hide Advance, Apply;
    var st' := Apply(st, r, s, ch, m);
    ApplyFrame(st, r, s, ch, m);
    MoveDiscipline(build, st, r, s, ch, m);
    var deps := st.runs[b].nodes[t].deps;
    var i :| 0 <= i < SharedCount(st'.runs[b].workers[t].pc, |deps|) && i < |deps| && deps[i] == x;
    if i < SharedCount(st.runs[b].workers[t].pc, |deps|) {
      assert OwnsSh(st, b, t, x);
    }
  }

  lemma LocksStayExclusive<C>(build: Builder<C>, st: State<C>, r: nat, s: string, ch: Choice, m: Move<C>)
    requires Live(st, r, s) && Advance(build, st, r, s, ch) == Some(m) && LocksExclude(st)
    ensures LocksExclude(Apply(st, r, s, ch, m))
  {
    hide Advance, Apply, OwnsEx, OwnsSh;
    var st' := Apply(st, r, s, ch, m);
    forall a: nat, b: nat, x | OwnsEx(st', a, x) && OwnsEx(st', b, x) ensures a == b {
      ExBefore(build, st, r, s, ch, m, a, x);
      ExBefore(build, st, r, s, ch, m, b, x);
    }
    forall a: nat, x, b: nat, t | OwnsEx(st', a, x) ensures !OwnsSh(st', b, t, x) {
      ExBefore(build, st, r, s, ch, m, a, x);
      if OwnsSh(st', b, t, x) {
        ShBefore(build, st, r, s, ch, m, b, t, x);
        assert false;
      }
    }
  }

  lemma {:induction false} BySlug<C>(build: Builder<C>, nodes: map<string, Node>, deps: seq<string>, got: seq<C>)
    requires |got| <= |deps|
    requires forall j | 0 <= j < |got| :: deps[j] in nodes && got[j] == Denote(build, nodes[deps[j]].key)
    ensures ContentsBySlug(deps, got) == map d | d in deps[..|got|] :: Denote(build, nodes[d].key)
  {
    if got != [] {
      var i := |got| - 1;
      BySlug(build, nodes, deps, got[..i]);
      assert deps[..|got|] == deps[..i] + [deps[i]];
    }
  }

  /** A build that has read every dep produces what the node's key denotes. */
  lemma BuildDenotes<C>(build: Builder<C>, nodes: map<string, Node>, s: string, got: seq<C>)
    requires s in nodes && Planned(nodes, s) && |got| == |nodes[s].deps|
    requires forall j | 0 <= j < |got| :: got[j] == Denote(build, nodes[nodes[s].deps[j]].key)
    ensures BuildResult(build, nodes[s], got) == Denote(build, nodes[s].key)
  {
    var node := nodes[s];
    BySlug(build, nodes, node.deps, got);
    assert node.deps[..|got|] == node.deps;
    assert node.key == Hash(node.key.name, node.key.slug, node.key.inputs, node.key.deps);
    assert (map d | d in node.key.deps :: Denote(build, node.key.deps[d])) == ContentsBySlug(node.deps, got);
  }

  /** The store stays sound: what is published is what the key denotes. */
  lemma StoreStaysSound<C>(build: Builder<C>, st: State<C>, r: nat, s: string, ch: Choice, m: Move<C>)
    requires Live(st, r, s) && Advance(build, st, r, s, ch) == Some(m)
    requires Sound(build, st.store) && Planned(st.runs[r].nodes, s)
    requires Contents(build, st.runs[r].nodes, st.runs[r].nodes[s], st.runs[r].workers[s].pc)
    ensures Sound(build, m.store)
  {
    hide Denote;
    if !st.runs[r].workers[s].pc.Stamped? && !st.runs[r].workers[s].pc.Moved? {
      assert m.store == st.store;
    }
  }

  /** A build reads valid deps, and at the end returns what its key denotes. */
  lemma BuildReads<C>(build: Builder<C>, st: State<C>, r: nat, s: string, ch: Choice, m: Move<C>)
    requires Live(st, r, s) && Advance(build, st, r, s, ch) == Some(m) && st.runs[r].workers[s].pc.Building?
    requires Sound(build, st.store) && Planned(st.runs[r].nodes, s)
    requires Contents(build, st.runs[r].nodes, st.runs[r].nodes[s], st.runs[r].workers[s].pc)
    requires Ordered(st.runs[r], s, st.runs[r].workers[s].pc) && CheckedDepsValid(st, r, s)
    ensures Contents(build, st.runs[r].nodes, st.runs[r].nodes[s], m.pc)
  {
    hide Denote, BuildResult, Sound;
    var run, got := st.runs[r], st.runs[r].workers[s].pc.got;
    var node := run.nodes[s];
    if ch == Go && |got| < |node.deps| {
      assert DepValid(st, r, node.deps[|got|]);
      ValidContent(build, st.store, node.deps[|got|], run.nodes[node.deps[|got|]].key);
    } else if ch == Go {
      BuildDenotes(build, run.nodes, s, got);
    }
  }

  /** The content facts of the moving worker. */
  lemma ContentsStay<C>(build: Builder<C>, st: State<C>, r: nat, s: string, ch: Choice, m: Move<C>)
    requires Live(st, r, s) && Advance(build, st, r, s, ch) == Some(m)
    requires Sound(build, st.store) && Planned(st.runs[r].nodes, s)
    requires Contents(build, st.runs[r].nodes, st.runs[r].nodes[s], st.runs[r].workers[s].pc)
    requires Ordered(st.runs[r], s, st.runs[r].workers[s].pc) && CheckedDepsValid(st, r, s)
    ensures Contents(build, st.runs[r].nodes, st.runs[r].nodes[s], m.pc)
  {
    hide Denote, BuildResult;
    match st.runs[r].workers[s].pc
    case Building(_) => BuildReads(build, st, r, s, ch, m);
    case Peek => FoundContent(build, st.store, s, st.runs[r].nodes[s].key);
    case Recheck => FoundContent(build, st.store, s, st.runs[r].nodes[s].key);
    case _ =>
  }

  /** Skipping is sound: a valid artifact holds what the wanted key denotes. */
  lemma ValidContent<C>(build: Builder<C>, store: Store<C>, slug: string, key: Key)
    requires Sound(build, store) && ValidAt(store, slug, key)
    ensures store[slug].content == Denote(build, key)
  {
  }

  lemma FoundContent<C>(build: Builder<C>, store: Store<C>, slug: string, key: Key)
    requires Sound(build, store)
    ensures ValidAt(store, slug, key) ==> store[slug].content == Denote(build, key)
  {
  }

  /** Checked deps stay valid: nobody can change a dep while its lock is shared. */
  lemma DepsStayValid<C>(build: Builder<C>, st: State<C>, r: nat, s: string, ch: Choice, m: Move<C>)
    requires Live(st, r, s) && Advance(build, st, r, s, ch) == Some(m) && LocksExclude(st)
    requires forall q, t | Live(st, q, t) :: CheckedDepsValid(st, q, t)
    ensures var st' := Apply(st, r, s, ch, m); forall q, t | Live(st', q, t) :: CheckedDepsValid(st', q, t)
  {
    hide Apply;
    var st' := Apply(st, r, s, ch, m);
    ApplyFrame(st, r, s, ch, m);
    forall q: nat, t | Live(st', q, t) ensures CheckedDepsValid(st', q, t) {
      var deps := st.runs[q].nodes[t].deps;
      forall j | 0 <= j < |deps| && j < CheckedCount(st'.runs[q].workers[t].pc, |deps|)
        ensures DepValid(st', q, deps[j])
      {
        assert CheckedDepsValid(st, q, t);
        if (q, t) != (r, s) || j < CheckedCount(st.runs[r].workers[s].pc, |deps|) {
          assert DepValid(st, q, deps[j]);
          SharedStays(build, st, r, s, ch, m, q, t, j);
        } else {
          NewlyChecked(build, st, r, s, ch, m, j);
        }
      }
    }
  }

  /** A dep becomes checked only by being found valid, and moves that check leave the store alone. */
  lemma NewlyChecked<C>(build: Builder<C>, st: State<C>, r: nat, s: string, ch: Choice, m: Move<C>, j: nat)
    requires Live(st, r, s) && Advance(build, st, r, s, ch) == Some(m)
    requires j < |st.runs[r].nodes[s].deps|
    requires CheckedCount(st.runs[r].workers[s].pc, |st.runs[r].nodes[s].deps|) <= j
    requires j < CheckedCount(m.pc, |st.runs[r].nodes[s].deps|)
    ensures m.store == st.store && DepValid(st, r, st.runs[r].nodes[s].deps[j])
  {
    match st.runs[r].workers[s].pc
    case CheckDeps(k) => assert k == j && m.pc == CheckDeps(k + 1);
    case _ =>
  }

  /** The step of one worker does not touch an artifact another worker (or this one) has checked. */
  lemma SharedStays<C>(build: Builder<C>, st: State<C>, r: nat, s: string, ch: Choice, m: Move<C>, q: nat, t: string, j: nat)
    requires Live(st, r, s) && Advance(build, st, r, s, ch) == Some(m) && LocksExclude(st)
    requires Live(st, q, t) && j < |st.runs[q].nodes[t].deps|
    requires j < CheckedCount(st.runs[q].workers[t].pc, |st.runs[q].nodes[t].deps|)
    ensures var d := st.runs[q].nodes[t].deps[j];
            (d in m.store <==> d in st.store) && (d in st.store ==> m.store[d] == st.store[d])
  {
    hide Advance;
    MoveDiscipline(build, st, r, s, ch, m);
    var d := st.runs[q].nodes[t].deps[j];
    assert OwnsSh(st, q, t, d);
  }

  /** The scheduler facts: done nodes stay done, a node waits for its deps in turn. */
  lemma OrderStays<C>(build: Builder<C>, st: State<C>, r: nat, s: string, ch: Choice, m: Move<C>, t: string)
    requires Live(st, r, s) && Advance(build, st, r, s, ch) == Some(m)
    requires t in st.runs[r].workers && t in st.runs[r].nodes
    requires Ordered(st.runs[r], t, st.runs[r].workers[t].pc) && Ordered(st.runs[r], s, st.runs[r].workers[s].pc)
    ensures var run' := Apply(st, r, s, ch, m).runs[r]; Ordered(run', t, run'.workers[t].pc)
  {
    hide Advance, Apply;
    ApplyFrame(st, r, s, ch, m);
    DoneStays(build, st, r, s, ch, m);
    OrderedNext(build, st, r, s, ch, m);
    var run, run' := st.runs[r], Apply(st, r, s, ch, m).runs[r];
    if FailedDep(run, t) {
      var d :| d in run.nodes[t].deps && d in run.workers && run.workers[d].pc.Done? && !HasSucceeded(run, d);
      assert d in run'.workers && run'.workers[d].pc.Done? && !HasSucceeded(run', d);
    }
  }

  lemma OrderedNext<C>(build: Builder<C>, st: State<C>, r: nat, s: string, ch: Choice, m: Move<C>)
    requires Live(st, r, s) && Advance(build, st, r, s, ch) == Some(m) && Ordered(st.runs[r], s, st.runs[r].workers[s].pc)
    ensures Ordered(st.runs[r], s, m.pc)
  {
  }

  lemma DoneStays<C>(build: Builder<C>, st: State<C>, r: nat, s: string, ch: Choice, m: Move<C>)
    requires Live(st, r, s) && Advance(build, st, r, s, ch) == Some(m)
    ensures forall d | d in st.runs[r].workers && st.runs[r].workers[d].pc.Done? ::
              Apply(st, r, s, ch, m).runs[r].workers[d] == st.runs[r].workers[d]
    ensures forall d | HasSucceeded(st.runs[r], d) :: HasSucceeded(Apply(st, r, s, ch, m).runs[r], d)
  {
  }

  lemma SlotsStay<C>(build: Builder<C>, st: State<C>, r: nat, s: string, ch: Choice, m: Move<C>)
    requires Live(st, r, s) && Advance(build, st, r, s, ch) == Some(m) && SlotsRespected(st.runs[r])
    ensures SlotsRespected(Apply(st, r, s, ch, m).runs[r])
  {
    var run, run' := st.runs[r], Apply(st, r, s, ch, m).runs[r];
    if HoldsSem(run.workers[s].pc) || !HoldsSem(m.pc) {
      assert InBuildNode(run') <= InBuildNode(run);
      SmallerSet(InBuildNode(run'), InBuildNode(run));
    } else {
      assert InBuildNode(run') == InBuildNode(run) + {s};
    }
  }

  lemma {:induction false} SmallerSet<T>(a: set<T>, b: set<T>)
    requires a <= b
    ensures |a| <= |b|
  {
    if a != {} {
      var x :| x in a;
      SmallerSet(a - {x}, b - {x});
    }
  }

  lemma ErrorsStay<C>(build: Builder<C>, st: State<C>, r: nat, s: string, ch: Choice, m: Move<C>)
    requires Live(st, r, s) && Advance(build, st, r, s, ch) == Some(m) && ErrorsKept(st.runs[r])
    ensures ErrorsKept(Apply(st, r, s, ch, m).runs[r])
  {
    var run, run' := st.runs[r], Apply(st, r, s, ch, m).runs[r];
    ApplyFrame(st, r, s, ch, m);
    DoneStays(build, st, r, s, ch, m);
    GivingUp(build, st, r, s, ch, m);
    hide Advance;
    if run'.lied {
      if run.lied {
        var t :| t in run.workers && GivesUp(run.workers[t].pc);
        assert t in run'.workers && GivesUp(run'.workers[t].pc);
      } else {
        assert s in run'.workers && GivesUp(run'.workers[s].pc);
      }
    }
  }

  /** A worker gives up only when cancelled or lying, and then gives up for good. */
  lemma GivingUp<C>(build: Builder<C>, st: State<C>, r: nat, s: string, ch: Choice, m: Move<C>)
    requires Live(st, r, s) && Advance(build, st, r, s, ch) == Some(m)
    ensures GivesUp(st.runs[r].workers[s].pc) ==> GivesUp(m.pc)
    ensures GivesUp(m.pc) ==> GivesUp(st.runs[r].workers[s].pc) || Cancelled(st.runs[r]) || ch == ReportCanceled
    ensures ch == ReportCanceled ==> GivesUp(m.pc)
  {
  }

  // ---------------------------------------------------------------- every step keeps it

  lemma MoveKeepsInvariant<C>(build: Builder<C>, st: State<C>, r: nat, s: string, ch: Choice, m: Move<C>)
    requires Live(st, r, s) && Advance(build, st, r, s, ch) == Some(m) && Invariant(build, st)
    ensures Invariant(build, Apply(st, r, s, ch, m))
  {
    hide Advance, Apply, Contents, Ordered, Planned, CheckedDepsValid, LocksExclude, ErrorsKept, SlotsRespected, Sound;
    var st' := Apply(st, r, s, ch, m);
    var run := st.runs[r];
    assert RunInvariant(build, run);
    assert CheckedDepsValid(st, r, s);
    ApplyFrame(st, r, s, ch, m);
    StoreStaysSound(build, st, r, s, ch, m);
    LocksStayExclusive(build, st, r, s, ch, m);
    DepsStayValid(build, st, r, s, ch, m);
    SlotsStay(build, st, r, s, ch, m);
    ErrorsStay(build, st, r, s, ch, m);
    ContentsStay(build, st, r, s, ch, m);
    forall t | t in run.workers
      ensures Ordered(st'.runs[r], t, st'.runs[r].workers[t].pc)
      ensures Contents(build, run.nodes, run.nodes[t], st'.runs[r].workers[t].pc)
    {
      OrderStays(build, st, r, s, ch, m, t);
    }
  }

  lemma CancelKeepsInvariant<C>(build: Builder<C>, st: State<C>, st': State<C>, r: nat)
    requires CancelStep(st, st', r) && Invariant(build, st)
    ensures Invariant(build, st')
  {
    hide Invariant;
    SameWorkers(build, st, st');
  }

  lemma CrashKeepsInvariant<C>(build: Builder<C>, st: State<C>, st': State<C>, host: nat)
    requires CrashStep(st, st', host) && Invariant(build, st)
    ensures Invariant(build, st')
  {
    hide Invariant;
    SameWorkers(build, st, st');
  }

  /** Cancelling a run, or ending some, changes no worker and frees locks at most. */
  lemma SameWorkers<C>(build: Builder<C>, st: State<C>, st': State<C>)
    requires Invariant(build, st) && SameButEnded(st, st')
    requires forall r | r in st.runs :: st.runs[r].external ==> st'.runs[r].external
    ensures Invariant(build, st')
  {
    hide RunInvariant, CheckedDepsValid, Sound, LocksExclude;
    forall r | r in st'.runs ensures RunInvariant(build, st'.runs[r]) {
      SameRun(build, st.runs[r], st'.runs[r]);
    }
    SameLocks(st, st');
    forall r: nat, s | Live(st', r, s) ensures CheckedDepsValid(st', r, s) {
      SameChecks(st, st', r, s);
    }
  }

  lemma SameRun<C>(build: Builder<C>, run: Run<C>, run': Run<C>)
    requires RunInvariant(build, run) && run' == run.(alive := run'.alive, external := run'.external)
    requires run.external ==> run'.external
    ensures RunInvariant(build, run')
  {
    hide Contents, Planned;
    assert InBuildNode(run') == InBuildNode(run);
    forall s | s in run'.workers ensures Ordered(run', s, run'.workers[s].pc) {
      assert Ordered(run, s, run.workers[s].pc);
      assert forall d :: HasSucceeded(run', d) <==> HasSucceeded(run, d);
      if FailedDep(run, s) {
        var d :| d in run.nodes[s].deps && d in run.workers && run.workers[d].pc.Done? && !HasSucceeded(run, d);
        assert !HasSucceeded(run', d);
      }
    }
  }

  ghost predicate SameButEnded<C>(st: State<C>, st': State<C>) {
    && st'.store == st.store && st'.runs.Keys == st.runs.Keys
    && forall r | r in st.runs ::
         && st'.runs[r] == st.runs[r].(alive := st'.runs[r].alive, external := st'.runs[r].external)
         && (st'.runs[r].alive ==> st.runs[r].alive)
  }

  lemma SameLocks<C>(st: State<C>, st': State<C>)
    requires SameButEnded(st, st') && LocksExclude(st)
    ensures LocksExclude(st')
  {
    assert forall r, s | OwnsEx(st', r, s) :: OwnsEx(st, r, s);
    assert forall r, s, d | OwnsSh(st', r, s, d) :: OwnsSh(st, r, s, d);
  }

  lemma SameChecks<C>(st: State<C>, st': State<C>, r: nat, s: string)
    requires SameButEnded(st, st') && Live(st', r, s) && CheckedDepsValid(st, r, s)
    ensures CheckedDepsValid(st', r, s)
  {
    assert forall d :: DepValid(st', r, d) <==> DepValid(st, r, d);
  }

  lemma StepKeepsInvariant<C>(build: Builder<C>, st: State<C>, st': State<C>, l: Label)
    requires Step(build, st, st', l) && Invariant(build, st)
    ensures Invariant(build, st')
  {
    hide Invariant, Advance, Apply;
    match l
    case ByWorker(r, s) =>
      var ch :| Advance(build, st, r, s, ch).Some? && st' == Apply(st, r, s, ch, Advance(build, st, r, s, ch).value);
      MoveKeepsInvariant(build, st, r, s, ch, Advance(build, st, r, s, ch).value);
    case ByCaller(r) => CancelKeepsInvariant(build, st, st', r);
    case ByCrash(host) => CrashKeepsInvariant(build, st, st', host);
  }

  /** Every state of every history satisfies the invariant. */
  lemma {:induction false} HistoryInvariant<C>(build: Builder<C>, states: seq<State<C>>, labels: seq<Label>, i: nat)
    requires IsHistory(build, states, labels) && i < |states|
    ensures Invariant(build, states[i])
  {
    hide Invariant, Step;
    if i == 0 {
      StartInvariant(build, states[0]);
    } else {
      HistoryInvariant(build, states, labels, i - 1);
      assert Step(build, states[i-1], states[i-1+1], labels[i-1]);
      StepKeepsInvariant(build, states[i-1], states[i], labels[i-1]);
    }
  }

  // ---------------------------------------------------------------- the guarantees

  /** Cache soundness: in every state of every history, with any crashes and any disagreement
      between processes about the wanted key, an artifact is absent, or carries a manifest for its
      own slug and exactly the content a from-scratch build under that key produces. */
  lemma CacheSoundness<C>(build: Builder<C>, states: seq<State<C>>, labels: seq<Label>, i: nat, slug: string)
    requires IsHistory(build, states, labels) && i < |states| && slug in states[i].store
    ensures var a := states[i].store[slug];
            a.manifest.Some? && a.manifest.value.slug == slug && a.content == Denote(build, a.manifest.value)
  {
    HistoryInvariant(build, states, labels, i);
  }

  /** So skipping a job whose artifact is valid gives what rebuilding it, and everything below it,
      from nothing would give. */
  lemma SkipEqualsRebuild<C>(build: Builder<C>, states: seq<State<C>>, labels: seq<Label>, i: nat, g: Graph, j: nat)
    requires IsHistory(build, states, labels) && i < |states|
    requires j in g && KeyOf(g, j).Some? && ValidAt(states[i].store, g[j].slug, KeyOf(g, j).value)
    ensures states[i].store[g[j].slug].content == FromScratch(build, g, j, {})
  {
    hide Invariant;
    CacheSoundness(build, states, labels, i, g[j].slug);
    KeyDenotesFromScratch(build, g, j, {});
  }

  /** Build isolation: while a worker builds or publishes, it is the only one of any process that
      holds its slug, and every dep is there with the planned key and that key's content. */
  lemma BuildIsolated<C>(build: Builder<C>, states: seq<State<C>>, labels: seq<Label>, i: nat, r: nat, s: string)
    requires IsHistory(build, states, labels) && i < |states| && Live(states[i], r, s)
    requires var pc := states[i].runs[r].workers[s].pc; pc.Building? || pc.Staged? || pc.Stamped? || pc.Moved?
    ensures forall q | OwnsEx(states[i], q, s) :: q == r
    ensures forall q, t :: !OwnsSh(states[i], q, t, s)
    ensures forall d | d in states[i].runs[r].nodes[s].deps ::
              && d in states[i].runs[r].nodes && d in states[i].store
              && states[i].store[d] == Artifact(Some(states[i].runs[r].nodes[d].key),
                                                Denote(build, states[i].runs[r].nodes[d].key))
  {
    HistoryInvariant(build, states, labels, i);
    var st := states[i];
    assert OwnsEx(st, r, s);
    assert CheckedDepsValid(st, r, s);
    forall d | d in st.runs[r].nodes[s].deps
      ensures DepValid(st, r, d)
    {
      var j :| 0 <= j < |st.runs[r].nodes[s].deps| && st.runs[r].nodes[s].deps[j] == d;
      assert DepValid(st, r, st.runs[r].nodes[s].deps[j]);
    }
  }

  /** An artifact changes only by a step of the worker that holds its slug exclusively, so it stays
      as it is while any worker holds the slug's lock shared. */
  lemma LeaseFreezesArtifact<C>(build: Builder<C>, states: seq<State<C>>, labels: seq<Label>, i: nat, slug: string)
    requires IsHistory(build, states, labels) && i < |labels| && ShTaken(states[i], slug)
    ensures slug in states[i+1].store <==> slug in states[i].store
    ensures slug in states[i].store ==> states[i+1].store[slug] == states[i].store[slug]
  {
    hide Invariant, Advance;
    HistoryInvariant(build, states, labels, i);
    var st, st' := states[i], states[i+1];
    assert Step(build, st, states[i+1], labels[i]);
    if labels[i].ByWorker? {
      var r, s := labels[i].r, labels[i].s;
      var ch :| Advance(build, st, r, s, ch).Some? && st' == Apply(st, r, s, ch, Advance(build, st, r, s, ch).value);
      MoveDiscipline(build, st, r, s, ch, Advance(build, st, r, s, ch).value);
      LocksOf(build, st);
    }
  }

  lemma LocksOf<C>(build: Builder<C>, st: State<C>)
    requires Invariant(build, st)
    ensures LocksExclude(st)
  {
  }
}
