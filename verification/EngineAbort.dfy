/** How runs and nodes come to an early end: errors, and a cancellation nobody can hold up. */
module EngineAbort {
  import opened Common
  import opened Jobs
  import opened Engine
  import opened EngineSafety
  import opened EngineProgress
  import opened EngineFinish

  // ---------------------------------------------------------------- a cancelled run

  /** No other live run of the process has locked a slug that this run builds too. */
  ghost predicate MutexesFree<C>(st: State<C>, r: nat)
    requires r in st.runs
  {
    forall q, s | Live(st, q, s) && q != r && st.runs[q].host == st.runs[r].host && HoldsMutex(st.runs[q].workers[s].pc) ::
      s !in st.runs[r].workers
  }

  /** The run can end: it is cancelled, alive, and no other run of its process is in its way. */
  ghost predicate Ending<C>(st: State<C>, r: nat) {
    r in st.runs && st.runs[r].alive && Cancelled(st.runs[r]) && MutexesFree(st, r)
  }

  ghost predicate CanStep<C>(build: Builder<C>, st: State<C>, r: nat, s: string) {
    Live(st, r, s) && exists ch :: Advance(build, st, r, s, ch).Some?
  }

  /** A worker of a cancelled run whose deps are done can take a step. */
  lemma CancelledSteps<C>(build: Builder<C>, st: State<C>, r: nat, s: string)
    requires Ending(st, r) && Unfinished(st, r, s)
    requires forall d | d in st.runs[r].nodes[s].deps :: d in st.runs[r].workers && st.runs[r].workers[d].pc.Done?
    ensures CanStep(build, st, r, s)
  {
    hide BuildResult, InBuildNode, ExTaken, ShTaken;
    var pc := st.runs[r].workers[s].pc;
    var ch := if pc.WantSem? || pc.WantEx? || pc.WantSh? then Cancel else if pc.Building? then ReportCanceled else Go;
    if pc.WantMutex? {
      assert !MutexTaken(st, st.runs[r].host, s);
    }
    assert Advance(build, st, r, s, ch).Some?;
  }

  lemma LeastUnfinished<C>(run: Run<C>, rank: map<string, nat>) returns (s: string)
    requires !Finished(run)
    ensures s in run.workers && !run.workers[s].pc.Done?
    ensures forall v | v in run.workers && !run.workers[v].pc.Done? :: RankOf(rank, s) <= RankOf(rank, v)
  {
    var waiting := set x | x in run.workers && !run.workers[x].pc.Done? :: (0, x);
    var t :| t in run.workers && !run.workers[t].pc.Done?;
    assert (0, t) in waiting;
    var w := LeastRank(waiting, rank);
    s := w.1;
    forall v | v in run.workers && !run.workers[v].pc.Done? ensures RankOf(rank, s) <= RankOf(rank, v) {
      assert (0, v) in waiting;
    }
  }

  lemma RankOfRun<C>(run: Run<C>) returns (rank: map<string, nat>)
    requires forall s | s in run.nodes :: Planned(run.nodes, s)
    ensures RanksGraph(run.nodes, rank)
  {
    var keys := map x | x in run.nodes :: run.nodes[x].key;
    rank := map x | x in keys :: Height(keys[x]);
    hide Planned, Height;
    WantedIsRanked(run.nodes, keys, rank);
  }

  /** Dep keys nest less deep, so some unfinished worker has only finished deps. */
  lemma SomebodySteps<C>(build: Builder<C>, st: State<C>, r: nat) returns (s: string)
    requires Invariant(build, st) && Ending(st, r) && !Finished(st.runs[r])
    ensures CanStep(build, st, r, s)
  {
    PlannedRun(build, st, r);
    hide Invariant, CanStep, RanksGraph, Finished, MutexesFree, Planned;
    var rank := RankOfRun(st.runs[r]);
    s := LeastUnfinished(st.runs[r], rank);
    LeastDepsDone(build, st, r, s, rank);
    EndingIsLive(st, r, s);
    CancelledSteps(build, st, r, s);
  }

  lemma EndingIsLive<C>(st: State<C>, r: nat, s: string)
    requires Ending(st, r) && s in st.runs[r].workers && st.runs[r].workers.Keys == st.runs[r].nodes.Keys
    ensures Live(st, r, s)
  {
  }

  lemma PlannedRun<C>(build: Builder<C>, st: State<C>, r: nat)
    requires Invariant(build, st) && r in st.runs
    ensures st.runs[r].workers.Keys == st.runs[r].nodes.Keys
    ensures forall s | s in st.runs[r].nodes :: Planned(st.runs[r].nodes, s)
  {
    assert RunInvariant(build, st.runs[r]);
    hide Planned, Sound, LocksExclude, CheckedDepsValid, SlotsRespected, ErrorsKept, Ordered, Contents;
  }

  lemma LeastDepsDone<C>(build: Builder<C>, st: State<C>, r: nat, s: string, rank: map<string, nat>)
    requires r in st.runs && s in st.runs[r].nodes && st.runs[r].workers.Keys == st.runs[r].nodes.Keys
    requires (forall x | x in st.runs[r].nodes :: Planned(st.runs[r].nodes, x)) && RanksGraph(st.runs[r].nodes, rank)
    requires forall v | v in st.runs[r].workers && !st.runs[r].workers[v].pc.Done? :: RankOf(rank, s) <= RankOf(rank, v)
    ensures forall d | d in st.runs[r].nodes[s].deps :: d in st.runs[r].workers && st.runs[r].workers[d].pc.Done?
  {
    forall d | d in st.runs[r].nodes[s].deps ensures d in st.runs[r].workers && st.runs[r].workers[d].pc.Done? {
      assert Planned(st.runs[r].nodes, s);
      assert d in rank && rank[d] < rank[s];
    }
  }

  /** A step of the run's own worker leaves it ending. */
  lemma StillEnding<C>(build: Builder<C>, st: State<C>, st': State<C>, r: nat, s: string)
    requires Ending(st, r) && WorkerStep(build, st, st', r, s)
    ensures Ending(st', r)
  {
    hide Advance, HoldsMutex;
    var ch :| Advance(build, st, r, s, ch).Some? && st' == Apply(st, r, s, ch, Advance(build, st, r, s, ch).value);
    ApplyFrame(st, r, s, ch, Advance(build, st, r, s, ch).value);
    assert st.runs[r].firstErr.Some? ==> st'.runs[r].firstErr.Some?;
    hide Apply;
  }

  lemma OneMoreEnding<C>(build: Builder<C>, states: seq<State<C>>, labels: seq<Label>, r: nat) returns (s: string, st': State<C>)
    requires IsHistory(build, states, labels) && Ending(states[|states|-1], r) && !Finished(states[|states|-1].runs[r])
    ensures IsHistory(build, states + [st'], labels + [ByWorker(r, s)]) && Ending(st', r)
    ensures Total(st') < Total(states[|states|-1])
  {
    assert |states| == |labels| + 1;
    var st := states[|states|-1];
    HistoryInvariant(build, states, labels, |states| - 1);
    hide IsHistory, Invariant, Total, WorkerStep, Finished, Ending, CanStep;
    s := SomebodySteps(build, st, r);
    st' := AnyStep(build, st, r, s);
    HistoryGrows(build, states, labels, st', ByWorker(r, s));
    StepLowersTotal(build, st, st', r, s);
    StillEnding(build, st, st', r, s);
  }

  lemma CancelledIsNotFine<C>(st: State<C>, r: nat)
    requires Ending(st, r)
    ensures r in st.runs && !Reported(st.runs[r]).Fine?
  {
  }

  /** A history continued by one step and then by more. */
  lemma Prepend<C>(build: Builder<C>, states: seq<State<C>>, labels: seq<Label>, r: nat, s: string, st': State<C>,
                   more: seq<State<C>>, ls: seq<Label>) returns (more': seq<State<C>>, ls': seq<Label>)
    requires IsHistory(build, states + [st'] + more, labels + [ByWorker(r, s)] + ls)
    ensures more' == [st'] + more && ls' == [ByWorker(r, s)] + ls
    ensures states + more' == states + [st'] + more && labels + ls' == labels + [ByWorker(r, s)] + ls
    ensures IsHistory(build, states + more', labels + ls')
    ensures forall l | l in ls' :: l == ByWorker(r, s) || l in ls
  {
    hide IsHistory;
    more', ls' := [st'] + more, [ByWorker(r, s)] + ls;
    Regroup(states, [st'], more);
    Regroup(labels, [ByWorker(r, s)], ls);
  }

  /** A cancelled run need not wait for anybody: whoever holds the locks it wants, whatever other
      processes do and however its graph crosses theirs, its own steps alone bring all its goroutines
      to their end, and it does not report success. */
  lemma {:induction false} CancelledRunEnds<C>(build: Builder<C>, states: seq<State<C>>, labels: seq<Label>, r: nat)
    returns (more: seq<State<C>>, ls: seq<Label>)
    requires IsHistory(build, states, labels) && Ending(states[|states|-1], r)
    ensures IsHistory(build, states + more, labels + ls)
    ensures forall l | l in ls :: l.ByWorker? && l.r == r
    ensures var st := (states + more)[|states + more|-1];
            r in st.runs && Finished(st.runs[r]) && !Reported(st.runs[r]).Fine?
    decreases Total(states[|states|-1])
  {
    assert |states| == |labels| + 1;
    CancelledIsNotFine(states[|states|-1], r);
    hide IsHistory, Total, Finished, Ending;
    more, ls := [], [];
    assert states + more == states && labels + ls == labels;
    if !Finished(states[|states|-1].runs[r]) {
      var s, st' := OneMoreEnding(build, states, labels, r);
      more, ls := CancelledRunEnds(build, states + [st'], labels + [ByWorker(r, s)], r);
      more, ls := Prepend(build, states, labels, r, s, st', more, ls);
    }
  }

  lemma AnyStep<C>(build: Builder<C>, st: State<C>, r: nat, s: string) returns (st': State<C>)
    requires CanStep(build, st, r, s)
    ensures WorkerStep(build, st, st', r, s)
  {
    hide Advance, Apply;
    var ch :| Advance(build, st, r, s, ch).Some?;
    st' := Apply(st, r, s, ch, Advance(build, st, r, s, ch).value);
  }

  // ---------------------------------------------------------------- errors

  /** One step more in a history. */
  lemma TakeStep<C>(build: Builder<C>, states: seq<State<C>>, labels: seq<Label>, r: nat, s: string, ch: Choice)
    returns (st': State<C>)
    requires IsHistory(build, states, labels) && Live(states[|states|-1], r, s)
    requires Advance(build, states[|states|-1], r, s, ch).Some?
    ensures IsHistory(build, states + [st'], labels + [ByWorker(r, s)]) && Total(st') < Total(states[|states|-1])
    ensures var m := Advance(build, states[|states|-1], r, s, ch).value;
            st'.store == m.store && Live(st', r, s) && st'.runs[r].workers[s].pc == m.pc
  {
    assert |states| == |labels| + 1;
    var st := states[|states|-1];
    HistoryInvariant(build, states, labels, |states| - 1);
    hide IsHistory, Invariant, Total, Advance, Apply;
    var m := Advance(build, st, r, s, ch).value;
    st' := Apply(st, r, s, ch, m);
    ApplyFrame(st, r, s, ch, m);
    assert WorkerStep(build, st, st', r, s);
    HistoryGrows(build, states, labels, st', ByWorker(r, s));
    StepLowersTotal(build, st, st', r, s);
  }

  /** Where an error, a cancellation or a build's report of one can end a worker. */
  predicate MayEnd<C>(run: Run<C>, pc: Pc<C>, ch: Choice) {
    match ch
    case Go => false
    case Fail => pc.WantEx? || pc.WantSh? || pc.Building? || pc.Staged? || pc.Stamped? || pc.Moved?
    case Cancel => Cancelled(run) && (pc.WantSem? || pc.WantEx? || pc.WantSh?)
    case ReportCanceled => pc.Building?
  }

  /** On the way out with this verdict, or out. */
  ghost predicate Leaving<C>(pc: Pc<C>, v: Verdict<C>) {
    match pc
    case DropSh(_, u) => u == v
    case DropEx(u) => u == v
    case DropMutex(u) => u == v
    case Return(u) => u == v
    case Done(o) => o == if v.Canceled? then WasCanceled else HasFailed
    case _ => false
  }

  lemma EndsHere<C>(build: Builder<C>, st: State<C>, r: nat, s: string, ch: Choice)
    requires Live(st, r, s) && ch != Go
    ensures Advance(build, st, r, s, ch).Some? <==> MayEnd(st.runs[r], st.runs[r].workers[s].pc, ch)
    ensures Advance(build, st, r, s, ch).Some? ==>
              var m := Advance(build, st, r, s, ch).value;
              m.store == st.store && Leaving(m.pc, if ch == Fail then Failed else Canceled)
  {
    hide BuildResult;
  }

  lemma LeavesOn<C>(build: Builder<C>, st: State<C>, r: nat, s: string, v: Verdict<C>)
    requires Live(st, r, s) && (v.Failed? || v.Canceled?)
    requires Leaving(st.runs[r].workers[s].pc, v) && !st.runs[r].workers[s].pc.Done?
    ensures Advance(build, st, r, s, Go).Some?
    ensures var m := Advance(build, st, r, s, Go).value; m.store == st.store && Leaving(m.pc, v)
  {
  }

  lemma {:induction false} Leaves<C>(build: Builder<C>, states: seq<State<C>>, labels: seq<Label>, r: nat, s: string, v: Verdict<C>)
    returns (more: seq<State<C>>, ls: seq<Label>)
    requires IsHistory(build, states, labels) && Live(states[|states|-1], r, s) && (v.Failed? || v.Canceled?)
    requires Leaving(states[|states|-1].runs[r].workers[s].pc, v)
    ensures IsHistory(build, states + more, labels + ls) && forall l | l in ls :: l == ByWorker(r, s)
    ensures var st := (states + more)[|states + more|-1];
            && st.store == states[|states|-1].store && Live(st, r, s)
            && st.runs[r].workers[s].pc == Done(if v.Canceled? then WasCanceled else HasFailed)
    decreases Total(states[|states|-1])
  {
    assert |states| == |labels| + 1;
    var st := states[|states|-1];
    hide IsHistory, Total, Leaving;
    more, ls := [], [];
    assert states + more == states && labels + ls == labels;
    if st.runs[r].workers[s].pc.Done? {
      LeftAlready(st.runs[r].workers[s].pc, v);
    } else {
      LeavesOn(build, st, r, s, v);
      var st' := TakeStep(build, states, labels, r, s, Go);
      more, ls := Leaves(build, states + [st'], labels + [ByWorker(r, s)], r, s, v);
      more, ls := Prepend(build, states, labels, r, s, st', more, ls);
    }
  }

  lemma LeftAlready<C>(pc: Pc<C>, v: Verdict<C>)
    requires Leaving(pc, v) && pc.Done?
    ensures pc == Done(if v.Canceled? then WasCanceled else HasFailed)
  {
  }

  /** An error ends the node: wherever a lock, a lease, the build, the stamping or a rename can fail,
      wherever a cancelled worker waits, and wherever a build can report a cancellation, and nowhere
      else, that can happen next; the worker's own steps then release what it holds and end it as
      failed or cancelled, with the store as it was. */
  lemma ErrorsEndIt<C>(build: Builder<C>, states: seq<State<C>>, labels: seq<Label>, r: nat, s: string, ch: Choice)
    returns (more: seq<State<C>>, ls: seq<Label>)
    requires IsHistory(build, states, labels) && Live(states[|states|-1], r, s)
    requires MayEnd(states[|states|-1].runs[r], states[|states|-1].runs[r].workers[s].pc, ch)
    ensures IsHistory(build, states + more, labels + ls) && forall l | l in ls :: l == ByWorker(r, s)
    ensures var st := (states + more)[|states + more|-1];
            && st.store == states[|states|-1].store && Live(st, r, s)
            && st.runs[r].workers[s].pc == Done(if ch == Fail then HasFailed else WasCanceled)
  {
    assert |states| == |labels| + 1;
    hide IsHistory, Leaving, Total;
    EndsHere(build, states[|states|-1], r, s, ch);
    hide MayEnd, Advance;
    var st' := TakeStep(build, states, labels, r, s, ch);
    more, ls := Leaves(build, states + [st'], labels + [ByWorker(r, s)], r, s, if ch == Fail then Failed else Canceled);
    more, ls := Prepend(build, states, labels, r, s, st', more, ls);
  }
}
