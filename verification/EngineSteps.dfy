/** Extending a history step by step: the passages of `Run`'s goroutine and of `tryBuild` that a
    single worker goes through when nobody else stands in its way. */
module EngineSteps {
  import opened Common
  import opened Jobs
  import opened Engine
  import opened EngineSafety
  import opened EngineProgress
  import opened EngineFinish

  // ---------------------------------------------------------------- extending a history

  ghost function With<C>(st: State<C>, r: nat, s: string, w: Worker<C>): State<C>
    requires r in st.runs
  {
    st.(runs := st.runs[r := st.runs[r].(workers := st.runs[r].workers[s := w])])
  }

  lemma WithTwice<C>(st: State<C>, r: nat, s: string, v: Worker<C>, w: Worker<C>)
    requires r in st.runs
    ensures With(With(st, r, s, v), r, s, w) == With(st, r, s, w)
  {
    var a, b := With(With(st, r, s, v), r, s, w), With(st, r, s, w);
    assert a.runs[r].workers == b.runs[r].workers;
    assert a.runs == b.runs;
  }

  lemma WithSelf<C>(st: State<C>, r: nat, s: string)
    requires r in st.runs && s in st.runs[r].workers
    ensures With(st, r, s, st.runs[r].workers[s]) == st
  {
    var a := With(st, r, s, st.runs[r].workers[s]);
    assert a.runs[r].workers == st.runs[r].workers;
    assert a.runs == st.runs;
  }

  lemma ApplyIsWith<C>(st: State<C>, r: nat, s: string, pc: Pc<C>)
    requires Live(st, r, s) && (pc.Done? ==> !pc.o.HasFailed?)
    ensures var a := st.runs[r].workers[s].attempt;
            Apply(st, r, s, Go, Move(pc, st.store)) == With(st, r, s, Worker(pc, if pc.Peek? then a + 1 else a))
  {
  }

  /** A step that changes nothing but the worker's program point. */
  lemma Extend<C>(build: Builder<C>, states: seq<State<C>>, labels: seq<Label>, st: State<C>, r: nat, s: string, v: Worker<C>,
                  pc: Pc<C>)
    returns (more: seq<State<C>>, ls: seq<Label>)
    requires r in st.runs && s in st.runs[r].workers && s in st.runs[r].nodes && st.runs[r].alive
    requires IsHistory(build, states, labels) && states[|states|-1] == With(st, r, s, v)
    requires Advance(build, With(st, r, s, v), r, s, Go) == Some(Move(pc, st.store)) && (pc.Done? ==> !pc.o.HasFailed?)
    ensures IsHistory(build, more, ls) && states <= more && more != []
    ensures more[|more|-1] == With(st, r, s, Worker(pc, if pc.Peek? then v.attempt + 1 else v.attempt))
  {
    hide Advance, IsHistory;
    var now := With(st, r, s, v);
    var st' := Apply(now, r, s, Go, Move(pc, st.store));
    ApplyIsWith(now, r, s, pc);
    WithTwice(st, r, s, v, Worker(pc, if pc.Peek? then v.attempt + 1 else v.attempt));
    assert WorkerStep(build, now, st', r, s);
    assert Step(build, now, st', ByWorker(r, s));
    HistoryGrows(build, states, labels, st', ByWorker(r, s));
    more, ls := states + [st'], labels + [ByWorker(r, s)];
  }

  /** A live run that nobody cancelled and in which nobody builds. */
  ghost predicate Quiet<C>(st: State<C>, r: nat, s: string) {
    && r in st.runs && st.runs[r].alive && s in st.runs[r].workers && s in st.runs[r].nodes
    && !Cancelled(st.runs[r]) && st.runs[r].slots >= 1
    && forall t | t in st.runs[r].workers && t != s :: !HoldsSem(st.runs[r].workers[t].pc)
  }

  lemma SemFree<C>(st: State<C>, r: nat, s: string, w: Worker<C>)
    requires Quiet(st, r, s) && !HoldsSem(w.pc)
    ensures |InBuildNode(With(st, r, s, w).runs[r])| == 0
  {
    assert InBuildNode(With(st, r, s, w).runs[r]) == {};
  }

  /** From the done channels to the first look at the artifact. */
  lemma ToPeek<C>(build: Builder<C>, states: seq<State<C>>, labels: seq<Label>, st: State<C>, r: nat, s: string, i: nat)
    returns (more: seq<State<C>>, ls: seq<Label>)
    requires Quiet(st, r, s) && IsHistory(build, states, labels)
    requires states[|states|-1] == With(st, r, s, Worker(Waiting(i), 0)) && i == |st.runs[r].nodes[s].deps|
    ensures IsHistory(build, more, ls) && states <= more && more != [] && more[|more|-1] == With(st, r, s, Worker(Peek, 1))
  {
    hide IsHistory, ExTaken, ShTaken, MutexTaken, ValidAt, InBuildNode, BuildResult;
    more, ls := Extend(build, states, labels, st, r, s, Worker(Waiting(i), 0), CheckCancel);
    more, ls := Extend(build, more, ls, st, r, s, Worker(CheckCancel, 0), WantSem);
    SemFree(st, r, s, Worker(WantSem, 0));
    more, ls := Extend(build, more, ls, st, r, s, Worker(WantSem, 0), Peek);
  }

  /** A node whose artifact is valid is done after a look at it. */
  lemma Skip<C>(build: Builder<C>, states: seq<State<C>>, labels: seq<Label>, st: State<C>, r: nat, s: string)
    returns (more: seq<State<C>>, ls: seq<Label>)
    requires Quiet(st, r, s) && IsHistory(build, states, labels) && states[|states|-1] == st
    requires st.runs[r].nodes[s].deps == [] && st.runs[r].workers[s] == Worker(Waiting(0), 0)
    requires ValidAt(st.store, s, st.runs[r].nodes[s].key)
    ensures IsHistory(build, more, ls) && states <= more && more != []
    ensures more[|more|-1] == With(st, r, s, Worker(Done(Succeeded(st.store[s].content)), 1))
  {
    hide IsHistory, ExTaken, ShTaken, MutexTaken, InBuildNode, BuildResult;
    WithSelf(st, r, s);
    more, ls := ToPeek(build, states, labels, st, r, s, 0);
    var c := st.store[s].content;
    more, ls := Extend(build, more, ls, st, r, s, Worker(Peek, 1), Return(Good(c)));
    more, ls := Extend(build, more, ls, st, r, s, Worker(Return(Good(c)), 1), Done(Succeeded(c)));
  }

  /** Nobody else holds the mutex or any lock of slug s. */
  ghost predicate OwnFree<C>(st: State<C>, r: nat, s: string)
    requires Quiet(st, r, s)
  {
    && (forall q | Live(st, q, s) && q != r :: !HoldsMutex(st.runs[q].workers[s].pc))
    && forall q, t | Live(st, q, t) && t != s :: SharedCount(st.runs[q].workers[t].pc, |st.runs[q].nodes[t].deps|) == 0
  }

  /** A node whose artifact is not valid wants its mutex. */
  lemma WantOwn<C>(build: Builder<C>, states: seq<State<C>>, labels: seq<Label>, st: State<C>, r: nat, s: string, d: string)
    returns (more: seq<State<C>>, ls: seq<Label>)
    requires Quiet(st, r, s) && IsHistory(build, states, labels) && states[|states|-1] == st
    requires st.runs[r].nodes[s].deps == [d] && st.runs[r].workers[s] == Worker(Waiting(0), 0) && d != s
    requires d in st.runs[r].workers && st.runs[r].workers[d].pc.Done? && st.runs[r].workers[d].pc.o.Succeeded?
    requires !ValidAt(st.store, s, st.runs[r].nodes[s].key)
    ensures IsHistory(build, more, ls) && states <= more && more != []
    ensures more[|more|-1] == With(st, r, s, Worker(WantMutex, 1))
  {
    hide IsHistory, ExTaken, ShTaken, MutexTaken, InBuildNode, BuildResult, ValidAt;
    WithSelf(st, r, s);
    more, ls := Extend(build, states, labels, st, r, s, Worker(Waiting(0), 0), Waiting(1));
    more, ls := ToPeek(build, more, ls, st, r, s, 1);
    more, ls := Extend(build, more, ls, st, r, s, Worker(Peek, 1), WantMutex);
  }

  /** When its locks are free it takes them, and then wants its dep's. */
  lemma TakeOwn<C>(build: Builder<C>, states: seq<State<C>>, labels: seq<Label>, st: State<C>, r: nat, s: string)
    returns (more: seq<State<C>>, ls: seq<Label>)
    requires Quiet(st, r, s) && IsHistory(build, states, labels) && OwnFree(st, r, s)
    requires states[|states|-1] == With(st, r, s, Worker(WantMutex, 1))
    requires !ValidAt(st.store, s, st.runs[r].nodes[s].key)
    ensures IsHistory(build, more, ls) && states <= more && more != []
    ensures more[|more|-1] == With(st, r, s, Worker(WantSh(0), 1))
  {
    hide IsHistory, ExTaken, ShTaken, MutexTaken, InBuildNode, BuildResult, ValidAt, OwnFree;
    NobodyHolds(st, r, s, Worker(WantMutex, 1));
    more, ls := Extend(build, states, labels, st, r, s, Worker(WantMutex, 1), WantEx);
    NobodyHolds(st, r, s, Worker(WantEx, 1));
    more, ls := Extend(build, more, ls, st, r, s, Worker(WantEx, 1), Recheck);
    more, ls := Extend(build, more, ls, st, r, s, Worker(Recheck, 1), WantSh(0));
  }

  lemma NobodyHolds<C>(st: State<C>, r: nat, s: string, w: Worker<C>)
    requires Quiet(st, r, s) && (w.pc.WantMutex? || w.pc.WantEx?)
    requires OwnFree(st, r, s)
    ensures var now := With(st, r, s, w);
            && (w.pc.WantMutex? ==> !MutexTaken(now, st.runs[r].host, s))
            && (w.pc.WantEx? ==> !ExTaken(now, s) && !ShTaken(now, s))
  {
  }

  /** A leaf that holds its own locks goes on to build, as it has no deps to lock or to check. */
  lemma FromLocks<C>(build: Builder<C>, states: seq<State<C>>, labels: seq<Label>, st: State<C>, r: nat, s: string)
    returns (more: seq<State<C>>, ls: seq<Label>)
    requires Quiet(st, r, s) && IsHistory(build, states, labels) && st.runs[r].nodes[s].deps == []
    requires states[|states|-1] == With(st, r, s, Worker(WantSh(0), 1))
    ensures IsHistory(build, more, ls) && states <= more && more != []
    ensures more[|more|-1] == With(st, r, s, Worker(Building([]), 1))
  {
    hide IsHistory, ExTaken, ShTaken, MutexTaken, InBuildNode, BuildResult, ValidAt, OwnFree;
    more, ls := Extend(build, states, labels, st, r, s, Worker(WantSh(0), 1), CheckDeps(0));
    more, ls := Extend(build, more, ls, st, r, s, Worker(CheckDeps(0), 1), Building([]));
  }

  /** From the done channels to the first look, which finds nothing valid. */
  lemma ToMutex<C>(build: Builder<C>, states: seq<State<C>>, labels: seq<Label>, st: State<C>, r: nat, s: string)
    returns (more: seq<State<C>>, ls: seq<Label>)
    requires Quiet(st, r, s) && IsHistory(build, states, labels) && st.runs[r].nodes[s].deps == []
    requires states[|states|-1] == With(st, r, s, Worker(Waiting(0), 0))
    requires !ValidAt(st.store, s, st.runs[r].nodes[s].key)
    ensures IsHistory(build, more, ls) && states <= more && more != []
    ensures more[|more|-1] == With(st, r, s, Worker(WantMutex, 1))
  {
    hide IsHistory, ExTaken, ShTaken, MutexTaken, InBuildNode, BuildResult, ValidAt;
    more, ls := ToPeek(build, states, labels, st, r, s, 0);
    more, ls := Extend(build, more, ls, st, r, s, Worker(Peek, 1), WantMutex);
  }

  /** A leaf without a valid artifact whose locks are free gets as far as its build. */
  lemma ToBuilding<C>(build: Builder<C>, states: seq<State<C>>, labels: seq<Label>, st: State<C>, r: nat, s: string)
    returns (more: seq<State<C>>, ls: seq<Label>)
    requires Quiet(st, r, s) && IsHistory(build, states, labels) && states[|states|-1] == st
    requires st.runs[r].nodes[s].deps == [] && st.runs[r].workers[s] == Worker(Waiting(0), 0) && OwnFree(st, r, s)
    requires !ValidAt(st.store, s, st.runs[r].nodes[s].key)
    ensures IsHistory(build, more, ls) && states <= more && more != []
    ensures more[|more|-1] == With(st, r, s, Worker(Building([]), 1))
  {
    WithSelf(st, r, s);
    hide IsHistory, Quiet, ValidAt, OwnFree, With;
    more, ls := ToMutex(build, states, labels, st, r, s);
    more, ls := TakeOwn(build, more, ls, st, r, s);
    more, ls := FromLocks(build, more, ls, st, r, s);
  }

  // ---------------------------------------------------------------- a run of one leaf

  /** The only run has one node, without deps, whose artifact is not valid. */
  ghost predicate Solo<C>(st: State<C>, r: nat, s: string) {
    && st.runs.Keys == {r} && st.runs[r].nodes.Keys == {s} && st.runs[r].nodes[s].deps == []
    && !ValidAt(st.store, s, st.runs[r].nodes[s].key)
  }

  /** It gets as far as its build. */
  lemma SoloBuilds<C>(build: Builder<C>, st: State<C>, r: nat, s: string) returns (states: seq<State<C>>, labels: seq<Label>)
    requires Start(build, st) && Solo(st, r, s)
    ensures IsHistory(build, states, labels) && states != [] && states[0] == st
    ensures Quiet(st, r, s) && st.runs[r].workers.Keys == {s}
    ensures states[|states|-1] == With(st, r, s, Worker(Building([]), 1))
  {
    states, labels := [st], [];
    SoloStands(build, st, r, s);
    hide IsHistory, Start, Solo, Quiet, OwnFree;
    states, labels := ToBuilding(build, states, labels, st, r, s);
  }

  lemma SoloStands<C>(build: Builder<C>, st: State<C>, r: nat, s: string)
    requires Start(build, st) && Solo(st, r, s)
    ensures Quiet(st, r, s) && OwnFree(st, r, s) && IsHistory(build, [st], [])
    ensures st.runs[r].workers.Keys == {s} && st.runs[r].workers[s] == Worker(Waiting(0), 0)
    ensures st.runs[r].nodes[s].deps == [] && !ValidAt(st.store, s, st.runs[r].nodes[s].key)
    ensures !st.runs[r].lied && st.runs[r].firstErr.None? && !st.runs[r].external
  {
    hide Sound, ValidAt;
    assert StartRun(st.runs[r]);
  }

  ghost function Leaf(s: string, input: string): Key {
    Hash("dep", s, map["input" := input], map[])
  }

  ghost function SoloRun<C>(s: string, input: string): Run<C> {
    Run(0, true, 1, map[s := Node(Leaf(s, input), [])], map[s := Worker(Waiting(0), 0)], false, None, false)
  }

  /** There are such starts: with no artifact yet, and with one built from another input. */
  lemma SoloStarts<C>(build: Builder<C>, s: string) returns (empty: State<C>, outdated: State<C>)
    ensures Start(build, empty) && Solo(empty, 0, s) && s !in empty.store
    ensures Start(build, outdated) && Solo(outdated, 0, s) && s in outdated.store
  {
    var run: Run<C> := SoloRun(s, "new");
    LeavesDiffer(s);
    assert Planned(run.nodes, s) by { ElemsOne(s); }
    assert StartRun(run);
    hide Denote, Planned;
    empty := State(map[], map[0 := run]);
    outdated := State(map[s := Artifact(Some(Leaf(s, "old")), Denote(build, Leaf(s, "old")))], map[0 := run]);
  }

  lemma LeavesDiffer(s: string)
    ensures Leaf(s, "old") != Leaf(s, "new") && Leaf(s, "old").slug == s
  {
    assert Leaf(s, "old").inputs["input"][0] == 'o' && Leaf(s, "new").inputs["input"][0] == 'n';
  }
}
