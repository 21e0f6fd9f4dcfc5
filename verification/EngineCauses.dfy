/** Why a node, and a run, ends as it does: every failure, cancellation and report has its cause earlier
    in the history, and without a cause the run succeeds. */
module EngineCauses {
  import opened Common
  import opened Jobs
  import opened Engine
  import opened EngineSafety
  import opened EngineProgress
  import opened EngineFinish

  // ---------------------------------------------------------------- which failure is reported

  ghost predicate HasFailedAt<C>(st: State<C>, r: nat, s: string) {
    r in st.runs && s in st.runs[r].workers && st.runs[r].workers[s].pc == Done(HasFailed)
  }

  ghost predicate NoneFailed<C>(st: State<C>, r: nat) {
    forall s :: !HasFailedAt(st, r, s)
  }

  /** Step i takes run r's worker of s to its failure, and no worker of the run failed before. */
  ghost predicate FailsFirstAt<C>(states: seq<State<C>>, labels: seq<Label>, i: nat, r: nat, s: string) {
    && i < |labels| && i + 1 < |states| && labels[i] == ByWorker(r, s) && HasFailedAt(states[i+1], r, s)
    && forall j | 0 <= j <= i :: NoneFailed(states[j], r)
  }

  ghost predicate FailsFirst<C>(states: seq<State<C>>, labels: seq<Label>, k: nat, r: nat, s: string) {
    exists i: nat :: i < k && FailsFirstAt(states, labels, i, r, s)
  }

  lemma FirstErrStep<C>(build: Builder<C>, st: State<C>, st': State<C>, l: Label, r: nat)
    requires Step(build, st, st', l) && r in st'.runs
    ensures r in st.runs
    ensures st.runs[r].firstErr.Some? ==> st'.runs[r].firstErr == st.runs[r].firstErr
    ensures st.runs[r].firstErr.None? && st'.runs[r].firstErr.Some? ==>
              l == ByWorker(r, st'.runs[r].firstErr.value) && HasFailedAt(st', r, st'.runs[r].firstErr.value)
    ensures st'.runs[r].firstErr.None? && NoneFailed(st, r) ==> NoneFailed(st', r)
  {
    hide Advance;
    if st'.runs[r].firstErr.None? && NoneFailed(st, r) {
      forall s ensures !HasFailedAt(st', r, s) {
        assert !HasFailedAt(st, r, s);
      }
    }
  }

  lemma {:induction false} FirstErrIsFirst<C>(build: Builder<C>, states: seq<State<C>>, labels: seq<Label>, k: nat, r: nat)
    requires IsHistory(build, states, labels) && k < |states| && r in states[k].runs
    ensures match states[k].runs[r].firstErr
            case None => forall j | 0 <= j <= k :: NoneFailed(states[j], r)
            case Some(s) => FailsFirst(states, labels, k, r, s)
  {
    hide Step, NoneFailed;
    if k == 0 {
      assert NoneFailed(states[0], r) by { NoneFailedAtFirst(build, states[0], r); }
    } else {
      assert Step(build, states[k-1], states[k-1+1], labels[k-1]);
      FirstErrStep(build, states[k-1], states[k], labels[k-1], r);
      FirstErrIsFirst(build, states, labels, k - 1, r);
      hide IsHistory;
      match states[k].runs[r].firstErr
      case None =>
      case Some(s) =>
        if states[k-1].runs[r].firstErr.None? {
          assert FailsFirstAt(states, labels, k - 1, r, s);
        } else {
          var i: nat :| i < k - 1 && FailsFirstAt(states, labels, i, r, s);
        }
    }
  }

  lemma NoneFailedAtFirst<C>(build: Builder<C>, st: State<C>, r: nat)
    requires Start(build, st) && r in st.runs
    ensures NoneFailed(st, r)
  {
    assert StartRun(st.runs[r]);
  }

  /** `Run` names the job that failed first, and only that one. */
  lemma ReportsFirstFailure<C>(build: Builder<C>, states: seq<State<C>>, labels: seq<Label>, k: nat, r: nat, s: string)
    requires IsHistory(build, states, labels) && k < |states| && r in states[k].runs && Finished(states[k].runs[r])
    ensures Reported(states[k].runs[r]) == JobFailed(s) <==> FailsFirst(states, labels, k, r, s)
  {
    FirstErrIsFirst(build, states, labels, k, r);
    hide IsHistory, Finished, FailsFirstAt, NoneFailed;
    if i: nat :| i < k && FailsFirstAt(states, labels, i, r, s) {
      FailureShows(states, labels, i, r, s);
      var t := states[k].runs[r].firstErr.value;
      var j: nat :| j < k && FailsFirstAt(states, labels, j, r, t);
      OnlyOneFirst(states, labels, i, j, r, s, t);
    }
  }

  /** The caller has cancelled the run within the first k steps. */
  ghost predicate CallerCancels(labels: seq<Label>, k: nat, r: nat) {
    exists i: nat :: i < k && i < |labels| && labels[i] == ByCaller(r)
  }

  lemma ExternalStep<C>(build: Builder<C>, st: State<C>, st': State<C>, l: Label, r: nat)
    requires Step(build, st, st', l) && r in st'.runs
    ensures r in st.runs && (st'.runs[r].external <==> st.runs[r].external || l == ByCaller(r))
  {
    hide Advance;
  }

  lemma {:induction false} ExternalIsCancelled<C>(build: Builder<C>, states: seq<State<C>>, labels: seq<Label>, k: nat, r: nat)
    requires IsHistory(build, states, labels) && k < |states| && r in states[k].runs
    ensures states[k].runs[r].external <==> CallerCancels(labels, k, r)
  {
    hide Step;
    if k == 0 {
      assert StartRun(states[0].runs[r]);
    } else {
      assert Step(build, states[k-1], states[k-1+1], labels[k-1]);
      ExternalStep(build, states[k-1], states[k], labels[k-1], r);
      ExternalIsCancelled(build, states, labels, k - 1, r);
      hide IsHistory;
      if labels[k-1] != ByCaller(r) && CallerCancels(labels, k, r) {
        var i: nat :| i < k && i < |labels| && labels[i] == ByCaller(r);
        assert i < k - 1;
      }
    }
  }

  /** Short of a failure, `Run` returns the context's error exactly when the caller cancelled, and nil
      exactly when not. */
  lemma ReportsCancellation<C>(build: Builder<C>, states: seq<State<C>>, labels: seq<Label>, k: nat, r: nat)
    requires IsHistory(build, states, labels) && k < |states| && r in states[k].runs && Finished(states[k].runs[r])
    ensures var failed := exists s :: FailsFirst(states, labels, k, r, s);
            && (Reported(states[k].runs[r]) == ContextError <==> !failed && CallerCancels(labels, k, r))
            && (Reported(states[k].runs[r]) == Fine <==> !failed && !CallerCancels(labels, k, r))
  {
    ExternalIsCancelled(build, states, labels, k, r);
    hide IsHistory, CallerCancels, FailsFirst, Finished;
    forall s ensures Reported(states[k].runs[r]) == JobFailed(s) <==> FailsFirst(states, labels, k, r, s) {
      ReportsFirstFailure(build, states, labels, k, r, s);
    }
    if states[k].runs[r].firstErr.Some? {
      assert FailsFirst(states, labels, k, r, states[k].runs[r].firstErr.value);
    }
  }

  lemma FailureShows<C>(states: seq<State<C>>, labels: seq<Label>, i: nat, r: nat, s: string)
    requires FailsFirstAt(states, labels, i, r, s)
    ensures !NoneFailed(states[i+1], r)
  {
  }

  lemma OnlyOneFirst<C>(states: seq<State<C>>, labels: seq<Label>, i: nat, j: nat, r: nat, s: string, t: string)
    requires FailsFirstAt(states, labels, i, r, s) && FailsFirstAt(states, labels, j, r, t)
    ensures i == j && s == t
  {
    assert HasFailedAt(states[i+1], r, s) && HasFailedAt(states[j+1], r, t);
    assert !NoneFailed(states[i+1], r) && !NoneFailed(states[j+1], r);
  }

  // ---------------------------------------------------------------- why a node fails

  /** Step i is one at which a lock, the build, the stamping or a rename of this node went wrong. */
  ghost predicate ErrsAt<C>(build: Builder<C>, states: seq<State<C>>, labels: seq<Label>, i: nat, r: nat, s: string) {
    && i < |labels| && i + 1 < |states| && labels[i] == ByWorker(r, s) && Live(states[i], r, s)
    && Advance(build, states[i], r, s, Fail).Some?
    && states[i+1] == Apply(states[i], r, s, Fail, Advance(build, states[i], r, s, Fail).value)
  }

  ghost predicate Erred<C>(build: Builder<C>, states: seq<State<C>>, labels: seq<Label>, k: nat, r: nat, s: string) {
    exists i: nat :: i < k && ErrsAt(build, states, labels, i, r, s)
  }

  /** Step i is one at which the node, all deps locked, found a dep's artifact not to be the planned one. */
  ghost predicate SeesChange<C>(states: seq<State<C>>, labels: seq<Label>, i: nat, r: nat, s: string) {
    && i < |labels| && i < |states| && labels[i] == ByWorker(r, s) && Live(states[i], r, s)
    && var run := states[i].runs[r];
       var deps, pc := run.nodes[s].deps, run.workers[s].pc;
       && pc.CheckDeps? && pc.k < |deps|
       && !(deps[pc.k] in run.nodes && ValidAt(states[i].store, deps[pc.k], run.nodes[deps[pc.k]].key))
  }

  ghost function Changes<C>(states: seq<State<C>>, labels: seq<Label>, r: nat, s: string, k: nat): nat {
    if k == 0 then 0
    else Changes(states, labels, r, s, k - 1) + (if SeesChange(states, labels, k - 1, r, s) then 1 else 0)
  }

  /** What an attempt ended with, once it has. */
  function VerdictOf<C>(pc: Pc<C>): Option<Verdict<C>> {
    match pc
    case DropSh(_, v) => Some(v)
    case DropEx(v) => Some(v)
    case DropMutex(v) => Some(v)
    case Return(v) => Some(v)
    case _ => None
  }

  /** How attempts and changes seen go together. */
  ghost predicate Tallied<C>(w: Worker<C>, changes: nat, erred: bool) {
    match w.pc
    case Waiting(_) => w.attempt == 0 && changes == 0
    case CheckCancel => w.attempt == 0 && changes == 0
    case WantSem => w.attempt == 0 && changes == 0
    case Done(o) => changes <= 3 && (o.HasFailed? ==> erred || changes == 3)
    case _ =>
      && 1 <= w.attempt <= 3
      && match VerdictOf(w.pc)
         case Some(DepChanged) => changes == w.attempt
         case Some(Failed) => changes <= 3 && erred
         case Some(_) => changes <= 3
         case None => changes == w.attempt - 1
  }

  lemma TallyMove<C>(build: Builder<C>, st: State<C>, r: nat, s: string, ch: Choice, m: Move<C>, changes: nat, sees: bool,
                     erred: bool)
    requires Live(st, r, s) && Advance(build, st, r, s, ch) == Some(m)
    requires Tallied(st.runs[r].workers[s], changes, erred)
    requires var run := st.runs[r];
             var deps, pc := run.nodes[s].deps, run.workers[s].pc;
             sees <==> pc.CheckDeps? && pc.k < |deps|
                       && !(deps[pc.k] in run.nodes && ValidAt(st.store, deps[pc.k], run.nodes[deps[pc.k]].key))
    ensures var w := st.runs[r].workers[s];
            Tallied(Worker(m.pc, if m.pc.Peek? then w.attempt + 1 else w.attempt), changes + (if sees then 1 else 0),
                    erred || ch == Fail)
  {
    hide BuildResult, ExTaken, ShTaken, MutexTaken, InBuildNode;
  }

  /** What a step does to one worker. */
  lemma StepOf<C>(build: Builder<C>, states: seq<State<C>>, labels: seq<Label>, i: nat, r: nat, s: string) returns (ch: Choice)
    requires IsHistory(build, states, labels) && i < |labels| && r in states[i].runs && s in states[i].runs[r].workers
    ensures r in states[i+1].runs && s in states[i+1].runs[r].workers
    ensures states[i+1].runs[r].nodes == states[i].runs[r].nodes
    ensures labels[i] == ByWorker(r, s) ==>
              && Live(states[i], r, s) && Advance(build, states[i], r, s, ch).Some?
              && states[i+1] == Apply(states[i], r, s, ch, Advance(build, states[i], r, s, ch).value)
    ensures labels[i] != ByWorker(r, s) ==> states[i+1].runs[r].workers[s] == states[i].runs[r].workers[s]
  {
    assert Step(build, states[i], states[i+1], labels[i]);
    hide IsHistory, Advance, Apply;
    var st, st', l := states[i], states[i+1], labels[i];
    ch := Go;
    if l.ByWorker? {
      ch :| Advance(build, st, l.r, l.s, ch).Some? && st' == Apply(st, l.r, l.s, ch, Advance(build, st, l.r, l.s, ch).value);
      ApplyFrame(st, l.r, l.s, ch, Advance(build, st, l.r, l.s, ch).value);
    }
  }

  /** One own step. */
  lemma TallyStep<C>(build: Builder<C>, states: seq<State<C>>, labels: seq<Label>, i: nat, r: nat, s: string, ch: Choice,
                     changes: nat, erred: bool)
    requires i < |labels| && i + 1 < |states| && labels[i] == ByWorker(r, s) && Live(states[i], r, s)
    requires Advance(build, states[i], r, s, ch).Some?
    requires states[i+1] == Apply(states[i], r, s, ch, Advance(build, states[i], r, s, ch).value)
    requires Tallied(states[i].runs[r].workers[s], changes, erred)
    ensures r in states[i+1].runs && s in states[i+1].runs[r].workers
    ensures Tallied(states[i+1].runs[r].workers[s], changes + (if SeesChange(states, labels, i, r, s) then 1 else 0),
                    erred || Erred(build, states, labels, i + 1, r, s))
  {
    var m := Advance(build, states[i], r, s, ch).value;
    TallyMove(build, states[i], r, s, ch, m, changes, SeesChange(states, labels, i, r, s), erred);
    ApplyAttempt(states[i], r, s, ch, m);
    ApplyFrame(states[i], r, s, ch, m);
    hide Advance, Apply, Tallied, SeesChange;
    if ch == Fail {
      ErrsNow(build, states, labels, i, r, s);
    }
    hide Erred;
    TallyKnows(states[i+1].runs[r].workers[s], changes + (if SeesChange(states, labels, i, r, s) then 1 else 0),
               erred || ch == Fail, erred || Erred(build, states, labels, i + 1, r, s));
  }

  lemma {:induction false} TallyHolds<C>(build: Builder<C>, states: seq<State<C>>, labels: seq<Label>, k: nat, r: nat, s: string)
    requires IsHistory(build, states, labels) && k < |states| && r in states[0].runs && s in states[0].runs[r].workers
    ensures r in states[k].runs && s in states[k].runs[r].workers
    ensures Tallied(states[k].runs[r].workers[s], Changes(states, labels, r, s, k), Erred(build, states, labels, k, r, s))
  {
    hide Tallied, Erred, SeesChange, Advance, Apply;
    if k == 0 {
      FirstTally(build, states, labels, r, s);
    } else {
      TallyHolds(build, states, labels, k - 1, r, s);
      var ch := StepOf(build, states, labels, k - 1, r, s);
      assert |states| == |labels| + 1;
      hide IsHistory;
      ErredStays(build, states, labels, k - 1, k, r, s);
      var changes, erred := Changes(states, labels, r, s, k - 1), Erred(build, states, labels, k - 1, r, s);
      if labels[k-1] == ByWorker(r, s) {
        TallyStep(build, states, labels, k - 1, r, s, ch, changes, erred);
      } else {
        NotItsStep(states, labels, k - 1, r, s);
        TallyKnows(states[k].runs[r].workers[s], changes, erred, Erred(build, states, labels, k, r, s));
      }
    }
  }

  lemma NotItsStep<C>(states: seq<State<C>>, labels: seq<Label>, i: nat, r: nat, s: string)
    requires i < |labels| && labels[i] != ByWorker(r, s)
    ensures !SeesChange(states, labels, i, r, s)
  {
  }

  lemma FirstTally<C>(build: Builder<C>, states: seq<State<C>>, labels: seq<Label>, r: nat, s: string)
    requires IsHistory(build, states, labels) && r in states[0].runs && s in states[0].runs[r].workers
    ensures Tallied(states[0].runs[r].workers[s], 0, Erred(build, states, labels, 0, r, s))
  {
    assert StartRun(states[0].runs[r]);
  }

  lemma ErredStays<C>(build: Builder<C>, states: seq<State<C>>, labels: seq<Label>, i: nat, k: nat, r: nat, s: string)
    requires i <= k
    ensures Erred(build, states, labels, i, r, s) ==> Erred(build, states, labels, k, r, s)
  {
    hide ErrsAt;
    if Erred(build, states, labels, i, r, s) {
      var j: nat :| j < i && ErrsAt(build, states, labels, j, r, s);
      assert j < k;
    }
  }

  lemma ErrsNow<C>(build: Builder<C>, states: seq<State<C>>, labels: seq<Label>, i: nat, r: nat, s: string)
    requires i < |labels| && i + 1 < |states| && labels[i] == ByWorker(r, s) && Live(states[i], r, s)
    requires Advance(build, states[i], r, s, Fail).Some?
    requires states[i+1] == Apply(states[i], r, s, Fail, Advance(build, states[i], r, s, Fail).value)
    ensures Erred(build, states, labels, i + 1, r, s)
  {
    hide Advance, Apply;
    assert ErrsAt(build, states, labels, i, r, s);
  }

  lemma TallyKnows<C>(w: Worker<C>, changes: nat, less: bool, more: bool)
    requires Tallied(w, changes, less) && (less ==> more)
    ensures Tallied(w, changes, more)
  {
  }

  /** A node fails only when something went wrong for it, or after it found its deps changed three times;
      fewer changes are not enough, and it never looks a fourth time. */
  lemma FailureHasCause<C>(build: Builder<C>, states: seq<State<C>>, labels: seq<Label>, k: nat, r: nat, s: string)
    requires IsHistory(build, states, labels) && k < |states| && r in states[0].runs && s in states[0].runs[r].workers
    ensures Changes(states, labels, r, s, k) <= 3
    ensures HasFailedAt(states[k], r, s) ==> Erred(build, states, labels, k, r, s) || Changes(states, labels, r, s, k) == 3
  {
    TallyHolds(build, states, labels, k, r, s);
    hide IsHistory, Erred, Changes;
  }

  // ---------------------------------------------------------------- why a node is cancelled

  lemma KeptErrors<C>(build: Builder<C>, st: State<C>, r: nat)
    requires Invariant(build, st) && r in st.runs
    ensures ErrorsKept(st.runs[r])
  {
    hide LocksExclude, CheckedDepsValid, Sound, Contents, Ordered, ErrorsKept;
    assert RunInvariant(build, st.runs[r]);
  }

  lemma CancelIs<C>(st: State<C>, r: nat, s: string)
    requires r in st.runs && ErrorsKept(st.runs[r]) && s in st.runs[r].workers && st.runs[r].workers[s].pc == Done(WasCanceled)
    ensures st.runs[r].external || st.runs[r].lied || !NoneFailed(st, r)
  {
    var run := st.runs[r];
    assert GivesUp(run.workers[s].pc);
    if run.firstErr.Some? {
      assert HasFailedAt(st, r, run.firstErr.value);
    }
  }

  /** A node is cancelled only when the caller cancelled the run, when another node failed, or when some
      build said so for no reason. */
  lemma CancellationHasCause<C>(build: Builder<C>, states: seq<State<C>>, labels: seq<Label>, k: nat, r: nat, s: string)
    requires IsHistory(build, states, labels) && k < |states| && r in states[k].runs && s in states[k].runs[r].workers
    requires states[k].runs[r].workers[s].pc == Done(WasCanceled)
    ensures states[k].runs[r].external || states[k].runs[r].lied || !NoneFailed(states[k], r)
  {
    HistoryInvariant(build, states, labels, k);
    hide IsHistory, RunInvariant, ErrorsKept;
    KeptErrors(build, states[k], r);
    hide Invariant;
    CancelIs(states[k], r, s);
  }

  /** Not in `buildNode`, and never will be. */
  predicate KeptOut<C>(pc: Pc<C>) {
    pc.Waiting? || pc.CheckCancel? || pc == Done(Skipped) || pc == Done(WasCanceled)
  }

  ghost predicate StaysOut<C>(st: State<C>, r: nat, s: string) {
    r in st.runs && s in st.runs[r].workers && KeptOut(st.runs[r].workers[s].pc)
  }

  ghost predicate CalledOff<C>(st: State<C>, r: nat) {
    r in st.runs && (st.runs[r].external || !NoneFailed(st, r))
  }

  lemma CalledOffStays<C>(build: Builder<C>, states: seq<State<C>>, labels: seq<Label>, i: nat, r: nat)
    requires IsHistory(build, states, labels) && i < |labels| && CalledOff(states[i], r)
    ensures CalledOff(states[i+1], r)
  {
    assert Step(build, states[i], states[i+1], labels[i]);
    hide IsHistory, Apply;
    var st, st', l := states[i], states[i+1], labels[i];
    if !NoneFailed(st, r) {
      var s :| HasFailedAt(st, r, s);
      assert HasFailedAt(st', r, s) by { FailedStays(build, st, st', l, r, s); }
    }
    if l.ByWorker? {
      hide Advance;
      var ch :| Advance(build, st, l.r, l.s, ch).Some? && st' == Apply(st, l.r, l.s, ch, Advance(build, st, l.r, l.s, ch).value);
      ApplyFrame(st, l.r, l.s, ch, Advance(build, st, l.r, l.s, ch).value);
    }
  }

  lemma FailedStays<C>(build: Builder<C>, st: State<C>, st': State<C>, l: Label, r: nat, s: string)
    requires Step(build, st, st', l) && HasFailedAt(st, r, s)
    ensures HasFailedAt(st', r, s)
  {
    hide Apply;
    if l.ByWorker? {
      if l.r == r && l.s == s {
        assert false;
      } else {
        hide Advance;
        var ch :| Advance(build, st, l.r, l.s, ch).Some? && st' == Apply(st, l.r, l.s, ch, Advance(build, st, l.r, l.s, ch).value);
        ApplyFrame(st, l.r, l.s, ch, Advance(build, st, l.r, l.s, ch).value);
      }
    }
  }

  lemma KeptOutMove<C>(build: Builder<C>, st: State<C>, r: nat, s: string, ch: Choice, m: Move<C>)
    requires Live(st, r, s) && Advance(build, st, r, s, ch) == Some(m) && KeptOut(st.runs[r].workers[s].pc)
    requires Cancelled(st.runs[r])
    ensures KeptOut(m.pc)
  {
    hide BuildResult, ExTaken, ShTaken, MutexTaken, InBuildNode, ValidAt;
  }

  lemma KeptOutStep<C>(build: Builder<C>, states: seq<State<C>>, labels: seq<Label>, i: nat, r: nat, s: string)
    requires IsHistory(build, states, labels) && i < |labels| && CalledOff(states[i], r) && StaysOut(states[i], r, s)
    ensures StaysOut(states[i+1], r, s)
  {
    hide KeptOut, Advance, Apply, Cancelled;
    CalledOffCancels(build, states, labels, i, r);
    var ch := StepOf(build, states, labels, i, r, s);
    hide IsHistory, CalledOff;
    if labels[i] == ByWorker(r, s) {
      var m := Advance(build, states[i], r, s, ch).value;
      KeptOutMove(build, states[i], r, s, ch, m);
      ApplyFrame(states[i], r, s, ch, m);
    }
  }

  lemma OutOneMore<C>(build: Builder<C>, states: seq<State<C>>, labels: seq<Label>, i: nat, k: nat, r: nat, s: string)
    requires IsHistory(build, states, labels) && i < |labels| && k == i + 1 && CalledOff(states[i], r) && StaysOut(states[i], r, s)
    ensures CalledOff(states[k], r) && StaysOut(states[k], r, s)
  {
    CalledOffStays(build, states, labels, i, r);
    KeptOutStep(build, states, labels, i, r, s);
    hide IsHistory, CalledOff, StaysOut;
  }

  /** The first failure, or the caller, calls off whatever has not asked for a place yet: it is never
      built, and ends skipped or cancelled. */
  lemma {:induction false} CalledOffIsNeverBuilt<C>(build: Builder<C>, states: seq<State<C>>, labels: seq<Label>, i: nat, k: nat,
                                                    r: nat, s: string)
    requires IsHistory(build, states, labels) && i <= k < |states| && CalledOff(states[i], r) && StaysOut(states[i], r, s)
    ensures CalledOff(states[k], r) && StaysOut(states[k], r, s)
    decreases k
  {
    assert |states| == |labels| + 1;
    hide IsHistory, StaysOut, CalledOff;
    if i < k {
      CalledOffIsNeverBuilt(build, states, labels, i, k - 1, r, s);
      OutOneMore(build, states, labels, k - 1, k, r, s);
    }
  }

  lemma CalledOffCancels<C>(build: Builder<C>, states: seq<State<C>>, labels: seq<Label>, i: nat, r: nat)
    requires IsHistory(build, states, labels) && i < |states| && CalledOff(states[i], r)
    ensures r in states[i].runs && Cancelled(states[i].runs[r])
  {
    FirstErrIsFirst(build, states, labels, i, r);
    hide IsHistory, FailsFirst;
  }

  // ---------------------------------------------------------------- runs that agree

  /** A node that has its content, or is about to report it, has a valid artifact. */
  ghost predicate GoodIsValid<C>(st: State<C>, r: nat, s: string) {
    r in st.runs && s in st.runs[r].workers && s in st.runs[r].nodes && HasContent(st.runs[r].workers[s].pc) ==>
      ValidAt(st.store, s, st.runs[r].nodes[s].key)
  }

  predicate HasContent<C>(pc: Pc<C>) {
    (pc.Done? && pc.o.Succeeded?) || (VerdictOf(pc).Some? && VerdictOf(pc).value.Good?)
  }

  lemma ContentMove<C>(build: Builder<C>, st: State<C>, r: nat, s: string, ch: Choice, m: Move<C>)
    requires Live(st, r, s) && Advance(build, st, r, s, ch) == Some(m) && HasContent(m.pc)
    requires Contents(build, st.runs[r].nodes, st.runs[r].nodes[s], st.runs[r].workers[s].pc)
    ensures ValidAt(m.store, s, st.runs[r].nodes[s].key) || (HasContent(st.runs[r].workers[s].pc) && m.store == st.store)
  {
    hide BuildResult, ExTaken, ShTaken, MutexTaken, InBuildNode, Denote;
  }

  lemma ContentsOf<C>(build: Builder<C>, st: State<C>, r: nat, s: string)
    requires Invariant(build, st) && r in st.runs && s in st.runs[r].workers && s in st.runs[r].nodes
    ensures Contents(build, st.runs[r].nodes, st.runs[r].nodes[s], st.runs[r].workers[s].pc)
    ensures Ordered(st.runs[r], s, st.runs[r].workers[s].pc)
  {
    hide LocksExclude, CheckedDepsValid, Sound, Contents, Ordered, ErrorsKept;
    assert RunInvariant(build, st.runs[r]);
  }

  /** What a run wants of a slug is what all want. */
  lemma AllWant<C>(build: Builder<C>, states: seq<State<C>>, labels: seq<Label>, i: nat, r: nat, s: string, keys: map<string, Key>)
    requires IsHistory(build, states, labels) && i < |states| && Agreeing(states[0], keys)
    requires r in states[i].runs && s in states[i].runs[r].nodes
    ensures s in keys && states[i].runs[r].nodes[s].key == keys[s]
    ensures forall q | q in states[0].runs && s in states[0].runs[q].nodes :: states[0].runs[q].nodes[s].key == keys[s]
  {
    SameRuns(build, states, labels, i, r);
    hide IsHistory;
    forall q | q in states[0].runs && s in states[0].runs[q].nodes ensures states[0].runs[q].nodes[s].key == keys[s] {
      assert WantsFrom(states[0].runs[q].nodes, keys);
    }
    assert WantsFrom(states[0].runs[r].nodes, keys);
  }

  lemma GoodStaysValid<C>(build: Builder<C>, states: seq<State<C>>, labels: seq<Label>, i: nat, k: nat, r: nat, s: string,
                          keys: map<string, Key>)
    requires IsHistory(build, states, labels) && i < |labels| && k == i + 1 && Agreeing(states[0], keys)
    requires r in states[i].runs && s in states[i].runs[r].workers && s in states[i].runs[r].nodes
    requires GoodIsValid(states[i], r, s)
    ensures r in states[k].runs && s in states[k].runs[r].workers && s in states[k].runs[r].nodes
    ensures GoodIsValid(states[k], r, s)
  {
    assert |states| == |labels| + 1;
    hide Advance, Apply, Agreeing;
    var ch := StepOf(build, states, labels, i, r, s);
    AllWant(build, states, labels, i, r, s, keys);
    if ValidAt(states[i].store, s, keys[s]) {
      RebuildIsNoOp(build, states, labels, i, k, s, keys[s]);
    } else if labels[i] == ByWorker(r, s) {
      HistoryInvariant(build, states, labels, i);
      ContentsOf(build, states[i], r, s);
      hide IsHistory, Invariant, HasContent;
      var m := Advance(build, states[i], r, s, ch).value;
      ApplyFrame(states[i], r, s, ch, m);
      if HasContent(m.pc) {
        ContentMove(build, states[i], r, s, ch, m);
      }
    }
  }

  lemma {:induction false} AlwaysGoodIsValid<C>(build: Builder<C>, states: seq<State<C>>, labels: seq<Label>, k: nat, r: nat,
                                                s: string, keys: map<string, Key>)
    requires IsHistory(build, states, labels) && k < |states| && Agreeing(states[0], keys)
    requires r in states[0].runs && s in states[0].runs[r].workers && s in states[0].runs[r].nodes
    ensures r in states[k].runs && s in states[k].runs[r].workers && s in states[k].runs[r].nodes
    ensures GoodIsValid(states[k], r, s)
    decreases k
  {
    assert |states| == |labels| + 1;
    hide Agreeing, GoodIsValid;
    if k == 0 {
      NothingGoodYet(build, states[0], r, s);
    } else {
      hide IsHistory;
      AlwaysGoodIsValid(build, states, labels, k - 1, r, s, keys);
      GoodStaysValid(build, states, labels, k - 1, k, r, s, keys);
    }
  }

  lemma NothingGoodYet<C>(build: Builder<C>, st: State<C>, r: nat, s: string)
    requires Start(build, st) && r in st.runs && s in st.runs[r].workers && s in st.runs[r].nodes
    ensures GoodIsValid(st, r, s)
  {
    assert StartRun(st.runs[r]);
  }

  /** While a node checks its deps all of them have succeeded. */
  lemma CheckedHasSucceeded<C>(run: Run<C>, s: string, k: nat)
    requires s in run.nodes && s in run.workers && run.workers[s].pc == CheckDeps(k) && k < |run.nodes[s].deps|
    requires Ordered(run, s, run.workers[s].pc)
    ensures HasSucceeded(run, run.nodes[s].deps[k])
  {
  }

  /** Among runs that want the same keys nobody ever finds a dep changed, so nobody retries. */
  lemma AgreeingSeeNoChange<C>(build: Builder<C>, states: seq<State<C>>, labels: seq<Label>, i: nat, r: nat, s: string,
                               keys: map<string, Key>)
    requires IsHistory(build, states, labels) && i < |labels| && Agreeing(states[0], keys)
    ensures !SeesChange(states, labels, i, r, s)
  {
    assert |states| == |labels| + 1;
    if SeesChange(states, labels, i, r, s) {
      var k := states[i].runs[r].workers[s].pc.k;
      CheckedIsValid(build, states, labels, i, r, s, k, keys);
    }
  }

  lemma CheckedIsValid<C>(build: Builder<C>, states: seq<State<C>>, labels: seq<Label>, i: nat, r: nat, s: string, k: nat,
                          keys: map<string, Key>)
    requires IsHistory(build, states, labels) && i < |states| && Agreeing(states[0], keys) && Live(states[i], r, s)
    requires states[i].runs[r].workers[s].pc == CheckDeps(k) && k < |states[i].runs[r].nodes[s].deps|
    ensures var d := states[i].runs[r].nodes[s].deps[k];
            d in states[i].runs[r].nodes && ValidAt(states[i].store, d, states[i].runs[r].nodes[d].key)
  {
    hide Agreeing;
    var run := states[i].runs[r];
    var d := run.nodes[s].deps[k];
    SameRuns(build, states, labels, i, r);
    HistoryInvariant(build, states, labels, i);
    ContentsOf(build, states[i], r, s);
    StartWorkers(build, states[0], r);
    hide IsHistory, Invariant;
    DepIsNode(states[0], r, s, d, keys);
    CheckedHasSucceeded(run, s, k);
    hide Ordered, ValidAt;
    AlwaysGoodIsValid(build, states, labels, i, r, d, keys);
  }

  lemma StartWorkers<C>(build: Builder<C>, st: State<C>, r: nat)
    requires Start(build, st) && r in st.runs
    ensures st.runs[r].workers.Keys == st.runs[r].nodes.Keys
  {
    assert StartRun(st.runs[r]);
  }

  lemma DepIsNode<C>(st: State<C>, r: nat, s: string, d: string, keys: map<string, Key>)
    requires Agreeing(st, keys) && r in st.runs && s in st.runs[r].nodes && d in st.runs[r].nodes[s].deps
    ensures d in st.runs[r].nodes
  {
    assert WantsFrom(st.runs[r].nodes, keys);
    assert Planned(st.runs[r].nodes, s);
  }

  lemma {:induction false} NoneSeen<C>(states: seq<State<C>>, labels: seq<Label>, k: nat, r: nat, s: string)
    requires forall i: nat | i < k :: !SeesChange(states, labels, i, r, s)
    ensures Changes(states, labels, r, s, k) == 0
  {
    hide SeesChange;
    if k > 0 {
      NoneSeen(states, labels, k - 1, r, s);
    }
  }

  lemma NoChangesAtAll<C>(build: Builder<C>, states: seq<State<C>>, labels: seq<Label>, k: nat, r: nat, s: string,
                          keys: map<string, Key>)
    requires IsHistory(build, states, labels) && k < |states| && Agreeing(states[0], keys)
    ensures Changes(states, labels, r, s, k) == 0
  {
    assert |states| == |labels| + 1;
    hide IsHistory, SeesChange, Agreeing, Changes;
    forall i: nat | i < k ensures !SeesChange(states, labels, i, r, s) {
      AgreeingSeeNoChange(build, states, labels, i, r, s, keys);
    }
    NoneSeen(states, labels, k, r, s);
  }

  /** Without a cause nothing fails: a finished run whose caller let it be, whose builds told the truth and
      none of whose nodes met an error reports success, with every node's content in place, as long as
      nobody wants other keys for its slugs. */
  lemma UndisturbedRunSucceeds<C>(build: Builder<C>, states: seq<State<C>>, labels: seq<Label>, k: nat, r: nat,
                                  keys: map<string, Key>)
    requires IsHistory(build, states, labels) && k < |states| && Agreeing(states[0], keys)
    requires r in states[k].runs && Finished(states[k].runs[r]) && !states[k].runs[r].external && !states[k].runs[r].lied
    requires forall s :: !Erred(build, states, labels, k, r, s)
    ensures Reported(states[k].runs[r]).Fine?
    ensures forall s | s in states[k].runs[r].nodes ::
              s in states[k].runs[r].workers &&
              states[k].runs[r].workers[s].pc == Done(Succeeded(Denote(build, states[k].runs[r].nodes[s].key)))
  {
    SameRuns(build, states, labels, k, r);
    FirstErrIsFirst(build, states, labels, k, r);
    RunReportsTruly(build, states, labels, k, r);
    HistoryInvariant(build, states, labels, k);
    KeptErrors(build, states[k], r);
    if states[k].runs[r].firstErr.Some? {
      var s := states[k].runs[r].firstErr.value;
      WorkersStay(build, states, labels, k, r);
      FailureHasCause(build, states, labels, k, r, s);
      NoChangesAtAll(build, states, labels, k, r, s, keys);
      assert false;
    }
  }

  lemma {:induction false} WorkersStay<C>(build: Builder<C>, states: seq<State<C>>, labels: seq<Label>, k: nat, r: nat)
    requires IsHistory(build, states, labels) && k < |states| && r in states[k].runs
    ensures r in states[0].runs && states[k].runs[r].workers.Keys == states[0].runs[r].workers.Keys
  {
    hide Advance, Apply;
    if k > 0 {
      var st, st', l := states[k-1], states[k], labels[k-1];
      assert Step(build, st, states[k-1+1], l);
      if l.ByWorker? {
        var ch :| Advance(build, st, l.r, l.s, ch).Some? && st' == Apply(st, l.r, l.s, ch, Advance(build, st, l.r, l.s, ch).value);
        ApplyFrame(st, l.r, l.s, ch, Advance(build, st, l.r, l.s, ch).value);
      }
      WorkersStay(build, states, labels, k - 1, r);
    }
  }

  // ---------------------------------------------------------------- what is up to date

  /** Has not wanted a lock, or is done without. */
  predicate NeedsNoLock<C>(pc: Pc<C>) {
    !HoldsMutex(pc) && !pc.WantMutex?
  }

  lemma UpToDateMove<C>(build: Builder<C>, st: State<C>, r: nat, s: string, ch: Choice, m: Move<C>)
    requires Live(st, r, s) && Advance(build, st, r, s, ch) == Some(m) && ValidAt(st.store, s, st.runs[r].nodes[s].key)
    requires NeedsNoLock(st.runs[r].workers[s].pc)
    ensures NeedsNoLock(m.pc)
  {
    hide BuildResult, ExTaken, ShTaken, MutexTaken, InBuildNode;
  }

  /** A node whose artifact was valid from the start, for the key everybody wants, is never locked and
      never built: its goroutine looks once. */
  lemma {:induction false} UpToDateTakesNoLock<C>(build: Builder<C>, states: seq<State<C>>, labels: seq<Label>, k: nat, r: nat,
                                                  s: string, keys: map<string, Key>)
    requires IsHistory(build, states, labels) && k < |states| && Agreeing(states[0], keys)
    requires r in states[0].runs && s in states[0].runs[r].workers && s in states[0].runs[r].nodes
    requires ValidAt(states[0].store, s, states[0].runs[r].nodes[s].key)
    ensures r in states[k].runs && s in states[k].runs[r].workers && s in states[k].runs[r].nodes
    ensures NeedsNoLock(states[k].runs[r].workers[s].pc)
    decreases k
  {
    assert |states| == |labels| + 1;
    hide Advance, Apply, Agreeing, NeedsNoLock, ValidAt;
    if k == 0 {
      NoLockYet(build, states[0], r, s);
    } else {
      UpToDateTakesNoLock(build, states, labels, k - 1, r, s, keys);
      var ch := StepOf(build, states, labels, k - 1, r, s);
      AllWant(build, states, labels, 0, r, s, keys);
      AllWant(build, states, labels, k - 1, r, s, keys);
      StillValid(build, states, labels, k - 1, s, keys[s]);
      hide IsHistory;
      if labels[k-1] == ByWorker(r, s) {
        var m := Advance(build, states[k-1], r, s, ch).value;
        ApplyFrame(states[k-1], r, s, ch, m);
        UpToDateMove(build, states[k-1], r, s, ch, m);
      }
    }
  }

  lemma StillValid<C>(build: Builder<C>, states: seq<State<C>>, labels: seq<Label>, k: nat, s: string, key: Key)
    requires IsHistory(build, states, labels) && k < |states| && ValidAt(states[0].store, s, key)
    requires forall r | r in states[0].runs && s in states[0].runs[r].nodes :: states[0].runs[r].nodes[s].key == key
    ensures ValidAt(states[k].store, s, key)
  {
    RebuildIsNoOp(build, states, labels, 0, k, s, key);
  }

  lemma NoLockYet<C>(build: Builder<C>, st: State<C>, r: nat, s: string)
    requires Start(build, st) && r in st.runs && s in st.runs[r].workers
    ensures NeedsNoLock(st.runs[r].workers[s].pc)
  {
    assert StartRun(st.runs[r]);
  }

  // ---------------------------------------------------------------- what a worker waits for

  /** A dep that is not done, a place among the builders, the mutex of its slug in this process, anybody's
      lock on its slug, or the exclusive lock on a dep. */
  ghost predicate Waits<C>(st: State<C>, r: nat, s: string)
    requires Live(st, r, s)
  {
    var run := st.runs[r];
    var deps := run.nodes[s].deps;
    match run.workers[s].pc
    case Waiting(i) => i < |deps| && !(deps[i] in run.workers && run.workers[deps[i]].pc.Done?)
    case WantSem => |set t | t in run.workers && HoldsSem(run.workers[t].pc)| >= run.slots
    case WantMutex => exists q :: Live(st, q, s) && st.runs[q].host == run.host && HoldsMutex(st.runs[q].workers[s].pc)
    case WantEx => (exists q :: OwnsEx(st, q, s)) || exists q, t :: OwnsSh(st, q, t, s)
    case WantSh(k) => k < |deps| && exists q :: OwnsEx(st, q, deps[k])
    case _ => false
  }

  /** In every state of every history a live worker that is not done can go on unless it waits for one of
      these. */
  lemma WaitsExactly<C>(build: Builder<C>, states: seq<State<C>>, labels: seq<Label>, i: nat, r: nat, s: string)
    requires IsHistory(build, states, labels) && i < |states| && Unfinished(states[i], r, s)
    ensures CanGo(build, states[i], r, s) <==> !Waits(states[i], r, s)
  {
    HistoryInvariant(build, states, labels, i);
    hide IsHistory;
    WaitsOrGoes(build, states[i], r, s);
  }

  lemma DepGate<C>(build: Builder<C>, st: State<C>, r: nat, s: string)
    requires Live(st, r, s) && st.runs[r].workers[s].pc.Waiting?
    ensures Advance(build, st, r, s, Go).Some? <==> !Waits(st, r, s)
  {
    hide BuildResult, ExTaken, ShTaken, MutexTaken, InBuildNode, ValidAt, OwnsEx, OwnsSh, HoldsSem, HoldsMutex;
  }

  lemma SemGate<C>(build: Builder<C>, st: State<C>, r: nat, s: string)
    requires Live(st, r, s) && st.runs[r].workers[s].pc.WantSem?
    ensures Advance(build, st, r, s, Go).Some? <==> !Waits(st, r, s)
  {
    hide BuildResult, ExTaken, ShTaken, MutexTaken, ValidAt, OwnsEx, OwnsSh, HoldsSem, HoldsMutex;
    assert InBuildNode(st.runs[r]) == set t | t in st.runs[r].workers && HoldsSem(st.runs[r].workers[t].pc);
  }

  lemma MutexGate<C>(build: Builder<C>, st: State<C>, r: nat, s: string)
    requires Live(st, r, s) && st.runs[r].workers[s].pc.WantMutex?
    ensures Advance(build, st, r, s, Go).Some? <==> !Waits(st, r, s)
  {
    hide BuildResult, ExTaken, ShTaken, InBuildNode, ValidAt, OwnsEx, OwnsSh, HoldsSem, HoldsMutex;
  }

  lemma LockGate<C>(build: Builder<C>, st: State<C>, r: nat, s: string)
    requires Live(st, r, s) && st.runs[r].workers[s].pc.WantEx?
    ensures Advance(build, st, r, s, Go).Some? <==> !Waits(st, r, s)
  {
    hide BuildResult, MutexTaken, InBuildNode, ValidAt, OwnsEx, OwnsSh, HoldsSem, HoldsMutex;
  }

  lemma LeaseGate<C>(build: Builder<C>, st: State<C>, r: nat, s: string)
    requires Live(st, r, s) && st.runs[r].workers[s].pc.WantSh?
    ensures Advance(build, st, r, s, Go).Some? <==> !Waits(st, r, s)
  {
    hide BuildResult, MutexTaken, ShTaken, InBuildNode, ValidAt, OwnsEx, OwnsSh, HoldsSem, HoldsMutex;
  }

  lemma WaitsOrGoes<C>(build: Builder<C>, st: State<C>, r: nat, s: string)
    requires Invariant(build, st) && Unfinished(st, r, s)
    ensures CanGo(build, st, r, s) <==> !Waits(st, r, s)
  {
    match st.runs[r].workers[s].pc
    case Waiting(_) => DepGate(build, st, r, s); hide Advance, Waits, Invariant;
    case WantSem => SemGate(build, st, r, s); hide Advance, Waits, Invariant;
    case WantMutex => MutexGate(build, st, r, s); hide Advance, Waits, Invariant;
    case WantEx => LockGate(build, st, r, s); hide Advance, Waits, Invariant;
    case WantSh(_) => LeaseGate(build, st, r, s); hide Advance, Waits, Invariant;
    case _ =>
      OnlyLocksBlock(build, st, r, s);
      hide Advance, Invariant, OwnsEx, OwnsSh, HoldsSem, HoldsMutex;
  }
}
