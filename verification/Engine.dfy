/** The build engine as a step relation: any number of `Run` calls in any number of processes,
    sharing one artifact directory and its lock files. A worker is the goroutine of one node of
    one run; each of its steps below is one lock operation, one look at an artifact, one rename,
    or one read of a dep by `Build`. */
module Engine {
  import opened Common
  import opened Jobs

  // ---------------------------------------------------------------- artifacts

  /** A directory: its manifest's key, if the manifest is written, and everything else. */
  datatype Artifact<+C> = Artifact(manifest: Option<Key>, content: C)

  /** Artifact paths by slug; a slug without an entry has no artifact. */
  type Store<+C> = map<string, Artifact<C>>

  /** `validAt`. */
  predicate ValidAt<C>(store: Store<C>, slug: string, key: Key) {
    slug in store && store[slug].manifest == Some(key)
  }

  // ---------------------------------------------------------------- workers

  /** What `tryBuild` returns. `Good` remembers the content that was found or published. */
  datatype Verdict<+C> = Good(content: C) | Canceled | Failed | DepChanged

  /** `n.err`, once set. */
  datatype Outcome<+C> = Succeeded(content: C) | Skipped | WasCanceled | HasFailed

  datatype Pc<+C> =
    | Waiting(i: nat)                    // for the done channel of dep i
    | CheckCancel
    | WantSem
    | Peek                               // first validAt, no lock held
    | WantMutex
    | WantEx
    | Recheck                            // second validAt, under the exclusive lock
    | WantSh(k: nat)                     // for the shared lock of dep k
    | CheckDeps(k: nat)                  // validAt of dep k, all deps locked
    | Building(got: seq<C>)              // Build has read the deps' contents one by one
    | Staged(stage: Artifact<C>)         // Build returned, no manifest yet
    | Stamped(stage: Artifact<C>)
    | Moved(stage: Artifact<C>)          // old artifact renamed away
    | DropSh(k: nat, v: Verdict<C>)      // k shared locks left to release
    | DropEx(v: Verdict<C>)
    | DropMutex(v: Verdict<C>)
    | Return(v: Verdict<C>)              // tryBuild returned
    | Done(o: Outcome<C>)                // done channel closed

  datatype Worker<+C> = Worker(pc: Pc<C>, attempt: nat)

  /** A planned node; the recipe is the part of the key that `Build` reads. */
  datatype Node = Node(key: Key, deps: seq<string>)

  /** One `Run` call. `external` is the caller's cancellation, `lied` records that some build
      reported `context.Canceled` although nothing had been cancelled. */
  datatype Run<+C> = Run(
    host: nat, alive: bool, slots: nat,
    nodes: map<string, Node>, workers: map<string, Worker<C>>,
    external: bool, firstErr: Option<string>, lied: bool)

  datatype State<+C> = State(store: Store<C>, runs: map<nat, Run<C>>)

  /** `runCtx` is cancelled by the caller or by the first failure. */
  predicate Cancelled<C>(run: Run<C>) {
    run.external || run.firstErr.Some?
  }

  // ---------------------------------------------------------------- who holds what

  predicate HoldsSem<C>(pc: Pc<C>) {
    !pc.Waiting? && !pc.CheckCancel? && !pc.WantSem? && !pc.Done?
  }

  predicate HoldsMutex<C>(pc: Pc<C>) {
    HoldsSem(pc) && !pc.Peek? && !pc.WantMutex? && !pc.Return?
  }

  predicate HoldsEx<C>(pc: Pc<C>) {
    HoldsMutex(pc) && !pc.WantEx? && !pc.DropMutex?
  }

  /** How many dep locks, in list order, are held shared. */
  function SharedCount<C>(pc: Pc<C>, deps: nat): nat {
    match pc
    case WantSh(k) => k
    case DropSh(k, _) => k
    case CheckDeps(_) => deps
    case Building(_) => deps
    case Staged(_) => deps
    case Stamped(_) => deps
    case Moved(_) => deps
    case _ => 0
  }

  ghost predicate Live<C>(st: State<C>, r: nat, s: string) {
    r in st.runs && st.runs[r].alive && s in st.runs[r].workers && s in st.runs[r].nodes
  }

  ghost predicate OwnsEx<C>(st: State<C>, r: nat, s: string) {
    Live(st, r, s) && HoldsEx(st.runs[r].workers[s].pc)
  }

  /** Run r's worker of s holds a shared lock on slug d. */
  ghost predicate OwnsSh<C>(st: State<C>, r: nat, s: string, d: string) {
    Live(st, r, s) &&
    var node := st.runs[r].nodes[s];
    exists i :: 0 <= i < SharedCount(st.runs[r].workers[s].pc, |node.deps|) && i < |node.deps| && node.deps[i] == d
  }

  ghost predicate ExTaken<C>(st: State<C>, slug: string) {
    exists r :: OwnsEx(st, r, slug)
  }

  ghost predicate ShTaken<C>(st: State<C>, slug: string) {
    exists r, s :: OwnsSh(st, r, s, slug)
  }

  /** `slugMutex` is shared by the runs of one process. */
  ghost predicate MutexTaken<C>(st: State<C>, host: nat, slug: string) {
    exists r :: Live(st, r, slug) && st.runs[r].host == host && HoldsMutex(st.runs[r].workers[slug].pc)
  }

  ghost function InBuildNode<C>(run: Run<C>): set<string> {
    set s | s in run.workers && HoldsSem(run.workers[s].pc)
  }

  // ---------------------------------------------------------------- steps

  /** What the scheduler, the kernel or the job decides at a step. */
  datatype Choice = Go | Cancel | Fail | ReportCanceled

  /** The outcome of one worker step: its next program point and its effect on the store. */
  datatype Move<+C> = Move(pc: Pc<C>, store: Store<C>)

  /** The steps of `Run`'s goroutine, `buildNode`, `tryBuild` and `publish`; None where the
      choice is not possible or the worker has to wait. */
  ghost function Advance<C>(build: Builder<C>, st: State<C>, r: nat, s: string, ch: Choice): Option<Move<C>>
    requires Live(st, r, s)
  {
    var run := st.runs[r];
    var node := run.nodes[s];
    var w := run.workers[s];
    var n := |node.deps|;
    var stay := (pc: Pc<C>) => Some(Move(pc, st.store));
    match w.pc
    case Waiting(i) =>
      if ch != Go then None
      else if i >= n then stay(CheckCancel)
      else if node.deps[i] !in run.workers || !run.workers[node.deps[i]].pc.Done? then None
      else if run.workers[node.deps[i]].pc.o.Succeeded? then stay(Waiting(i + 1))
      else stay(Done(Skipped))
    case CheckCancel =>
      if ch != Go then None else if Cancelled(run) then stay(Done(WasCanceled)) else stay(WantSem)
    case WantSem =>
      if ch == Go && |InBuildNode(run)| < run.slots then stay(Peek)
      else if ch == Cancel && Cancelled(run) then stay(Done(WasCanceled))
      else None
    case Peek =>
      if ch != Go then None
      else if ValidAt(st.store, s, node.key) then stay(Return(Good(st.store[s].content)))
      else stay(WantMutex)
    case WantMutex =>
      if ch == Go && !MutexTaken(st, run.host, s) then stay(WantEx) else None
    case WantEx =>
      if ch == Go && !ExTaken(st, s) && !ShTaken(st, s) then stay(Recheck)
      else if ch == Cancel && Cancelled(run) then stay(DropMutex(Canceled))
      else if ch == Fail then stay(DropMutex(Failed))
      else None
    case Recheck =>
      if ch != Go then None
      else if ValidAt(st.store, s, node.key) then stay(DropEx(Good(st.store[s].content)))
      else stay(WantSh(0))
    case WantSh(k) =>
      if ch == Go && k >= n then stay(CheckDeps(0))
      else if ch == Go && !ExTaken(st, node.deps[k]) then stay(WantSh(k + 1))
      else if ch == Cancel && Cancelled(run) then stay(DropSh(k, Canceled))
      else if ch == Fail then stay(DropSh(k, Failed))
      else None
    case CheckDeps(k) =>
      if ch != Go then None
      else if k >= n then stay(Building([]))
      else if node.deps[k] in run.nodes && ValidAt(st.store, node.deps[k], run.nodes[node.deps[k]].key) then
        stay(CheckDeps(k + 1))
      else stay(DropSh(n, DepChanged))
    case Building(got) =>
      if ch == Go && |got| >= n then
        stay(Staged(Artifact(None, BuildResult(build, node, got))))
      else if ch == Go && node.deps[|got|] in st.store then
        stay(Building(got + [st.store[node.deps[|got|]].content]))
      else if ch == Fail then stay(DropSh(n, Failed))
      else if ch == ReportCanceled then stay(DropSh(n, Canceled))
      else None
    case Staged(stage) =>
      if ch == Go then stay(Stamped(stage.(manifest := Some(node.key))))
      else if ch == Fail then stay(DropSh(n, Failed))
      else None
    case Stamped(stage) =>
      if ch == Go then Some(Move(Moved(stage), st.store - {s}))
      else if ch == Fail then stay(DropSh(n, Failed))
      else None
    case Moved(stage) =>
      if ch == Go then Some(Move(DropSh(n, Good(stage.content)), st.store[s := stage]))
      else if ch == Fail then stay(DropSh(n, Failed))
      else None
    case DropSh(k, v) =>
      if ch != Go then None else if k == 0 then stay(DropEx(v)) else stay(DropSh(k - 1, v))
    case DropEx(v) => if ch == Go then stay(DropMutex(v)) else None
    case DropMutex(v) => if ch == Go then stay(Return(v)) else None
    case Return(v) =>
      if ch != Go then None
      else (
        match v
        case Good(c) => stay(Done(Succeeded(c)))
        case Canceled => stay(Done(WasCanceled))
        case Failed => stay(Done(HasFailed))
        case DepChanged => if w.attempt < 3 then stay(Peek) else stay(Done(HasFailed))
      )
    case Done(_) => None
  }

  /** `Build` applied to what it read of the deps. */
  function BuildResult<C>(build: Builder<C>, node: Node, got: seq<C>): C {
    build(Recipe(node.key.name, node.key.slug, node.key.inputs),
          ContentsBySlug(node.deps, got))
  }

  /** What was read of the first deps, by slug. */
  function ContentsBySlug<C>(deps: seq<string>, got: seq<C>): map<string, C> {
    if got == [] || deps == [] then map[]
    else
      var i := (if |got| < |deps| then |got| else |deps|) - 1;
      ContentsBySlug(deps, got[..i])[deps[i] := got[i]]
  }

  /** The state after a worker's move. `buildNode` counts attempts; `fail` records the first
      failure; a `Canceled` report counts as a lie when nothing was cancelled. */
  ghost function Apply<C>(st: State<C>, r: nat, s: string, ch: Choice, m: Move<C>): State<C>
    requires Live(st, r, s)
  {
    var run := st.runs[r];
    var w := run.workers[s];
    var attempt := if m.pc.Peek? then w.attempt + 1 else w.attempt;
    var firstErr := if m.pc == Done(HasFailed) && run.firstErr.None? then Some(s) else run.firstErr;
    var lied := run.lied || (ch == ReportCanceled && !Cancelled(run));
    State(m.store,
      st.runs[r := run.(workers := run.workers[s := Worker(m.pc, attempt)], firstErr := firstErr, lied := lied)])
  }

  ghost predicate WorkerStep<C>(build: Builder<C>, st: State<C>, st': State<C>, r: nat, s: string) {
    Live(st, r, s) &&
    exists ch :: Advance(build, st, r, s, ch).Some? && st' == Apply(st, r, s, ch, Advance(build, st, r, s, ch).value)
  }

  /** The caller cancels a run. */
  ghost predicate CancelStep<C>(st: State<C>, st': State<C>, r: nat) {
    r in st.runs && st' == st.(runs := st.runs[r := st.runs[r].(external := true)])
  }

  /** A process dies: its workers stop where they are and the kernel drops their locks. */
  ghost predicate CrashStep<C>(st: State<C>, st': State<C>, host: nat) {
    st' == st.(runs := map r | r in st.runs ::
                 if st.runs[r].host == host then st.runs[r].(alive := false) else st.runs[r])
  }

  datatype Label = ByWorker(r: nat, s: string) | ByCaller(r: nat) | ByCrash(host: nat)

  ghost predicate Step<C>(build: Builder<C>, st: State<C>, st': State<C>, l: Label) {
    match l
    case ByWorker(r, s) => WorkerStep(build, st, st', r, s)
    case ByCaller(r) => CancelStep(st, st', r)
    case ByCrash(host) => CrashStep(st, st', host)
  }

  // ---------------------------------------------------------------- starting states

  /** Each present artifact has a manifest, for this slug, and the content its key denotes. */
  ghost predicate Sound<C>(build: Builder<C>, store: Store<C>) {
    forall s | s in store ::
      && store[s].manifest.Some?
      && store[s].manifest.value.slug == s
      && store[s].content == Denote(build, store[s].manifest.value)
  }

  /** A node's key is made of its own document and its deps' keys, and deps are nodes. */
  ghost predicate Planned(nodes: map<string, Node>, s: string)
    requires s in nodes
  {
    var node := nodes[s];
    && node.key.slug == s
    && node.key.deps.Keys == Elems(node.deps)
    && (forall i, k | 0 <= i < k < |node.deps| :: node.deps[i] != node.deps[k])
    && forall d | d in node.deps :: d in nodes && node.key.deps[d] == nodes[d].key
  }

  ghost predicate StartRun<C>(run: Run<C>) {
    && run.alive && !run.external && run.firstErr.None? && !run.lied && run.slots >= 1
    && run.workers.Keys == run.nodes.Keys
    && (forall s | s in run.nodes :: Planned(run.nodes, s))
    && forall s | s in run.workers :: run.workers[s] == Worker(Waiting(0), 0)
  }

  ghost predicate Start<C>(build: Builder<C>, st: State<C>) {
    Sound(build, st.store) && forall r | r in st.runs :: StartRun(st.runs[r])
  }

  /** A history: a starting state and the labelled steps from it. */
  ghost predicate IsHistory<C>(build: Builder<C>, states: seq<State<C>>, labels: seq<Label>) {
    && |states| == |labels| + 1
    && Start(build, states[0])
    && forall i | 0 <= i < |labels| :: Step(build, states[i], states[i+1], labels[i])
  }
}
