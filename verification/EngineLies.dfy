/** How `Run` can report success without having built anything. */
module EngineLies {
  import opened Common
  import opened Jobs
  import opened Engine
  import opened EngineSafety
  import opened EngineProgress
  import opened EngineFinish
  import opened EngineSteps

  /** The build answers that it was cancelled although nothing was. */
  lemma AnswerCanceled<C>(build: Builder<C>, states: seq<State<C>>, labels: seq<Label>, st: State<C>, r: nat, s: string)
    returns (more: seq<State<C>>, ls: seq<Label>, told: State<C>)
    requires Quiet(st, r, s) && st.runs[r].nodes[s].deps == [] && IsHistory(build, states, labels)
    requires states != [] && states[|states|-1] == With(st, r, s, Worker(Building([]), 1))
    ensures IsHistory(build, more, ls) && states <= more && more != []
    ensures told == st.(runs := st.runs[r := st.runs[r].(lied := true)])
    ensures more[|more|-1] == With(told, r, s, Worker(DropSh(0, Canceled), 1))
  {
    hide IsHistory;
    var now := With(st, r, s, Worker(Building([]), 1));
    var m: Move<C> := Move(DropSh(0, Canceled), st.store);
    assert Advance(build, now, r, s, ReportCanceled) == Some(m);
    hide Advance;
    var st' := Apply(now, r, s, ReportCanceled, m);
    told := st.(runs := st.runs[r := st.runs[r].(lied := true)]);
    LieIsTold(st, now, st', told, r, s, m);
    assert WorkerStep(build, now, st', r, s);
    assert Step(build, now, st', ByWorker(r, s));
    HistoryGrows(build, states, labels, st', ByWorker(r, s));
    more, ls := states + [st'], labels + [ByWorker(r, s)];
  }

  lemma LieIsTold<C>(st: State<C>, now: State<C>, st': State<C>, told: State<C>, r: nat, s: string, m: Move<C>)
    requires Quiet(st, r, s) && now == With(st, r, s, Worker(Building([]), 1)) && m == Move(DropSh(0, Canceled), st.store)
    requires st' == Apply(now, r, s, ReportCanceled, m)
    requires told == st.(runs := st.runs[r := st.runs[r].(lied := true)])
    ensures st' == With(told, r, s, Worker(DropSh(0, Canceled), 1))
  {
    var want := With(told, r, s, Worker(DropSh(0, Canceled), 1));
    assert st'.runs[r].workers == want.runs[r].workers;
    assert st'.runs == want.runs;
  }

  /** A run of one leaf whose build answers `context.Canceled` while nothing was cancelled ends with a
      nil result, the leaf not built and nothing published. */
  lemma LyingRunReportsFine<C>(build: Builder<C>, st: State<C>, r: nat, s: string)
    returns (states: seq<State<C>>, labels: seq<Label>)
    requires Start(build, st) && Solo(st, r, s)
    ensures IsHistory(build, states, labels) && states != [] && states[0] == st
    ensures var last := states[|states|-1];
            && last.store == st.store && r in last.runs && Finished(last.runs[r]) && Reported(last.runs[r]).Fine?
            && last.runs[r].lied && s in last.runs[r].workers && last.runs[r].workers[s].pc == Done(WasCanceled)
  {
    SoloStands(build, st, r, s);
    hide IsHistory, Start, Solo, BuildResult, ExTaken, ShTaken, MutexTaken, InBuildNode, ValidAt;
    states, labels := SoloBuilds(build, st, r, s);
    var told: State<C>;
    states, labels, told := AnswerCanceled(build, states, labels, st, r, s);
    hide Finished, Reported;
    states, labels := GiveUp(build, states, labels, told, r, s);
    NothingDone(st, told, r, s);
  }

  /** From the cancelled build to the closed done channel. */
  lemma GiveUp<C>(build: Builder<C>, states: seq<State<C>>, labels: seq<Label>, st: State<C>, r: nat, s: string)
    returns (more: seq<State<C>>, ls: seq<Label>)
    requires r in st.runs && s in st.runs[r].workers && s in st.runs[r].nodes && st.runs[r].alive
    requires IsHistory(build, states, labels) && states != []
    requires states[|states|-1] == With(st, r, s, Worker(DropSh(0, Canceled), 1))
    ensures IsHistory(build, more, ls) && states <= more && more != []
    ensures more[|more|-1] == With(st, r, s, Worker(Done(WasCanceled), 1))
  {
    hide IsHistory, BuildResult, ExTaken, ShTaken, MutexTaken, InBuildNode, ValidAt;
    more, ls := DropLocks(build, states, labels, st, r, s);
    more, ls := Extend(build, more, ls, st, r, s, Worker(DropMutex(Canceled), 1), Return(Canceled));
    more, ls := Extend(build, more, ls, st, r, s, Worker(Return(Canceled), 1), Done(WasCanceled));
  }

  lemma DropLocks<C>(build: Builder<C>, states: seq<State<C>>, labels: seq<Label>, st: State<C>, r: nat, s: string)
    returns (more: seq<State<C>>, ls: seq<Label>)
    requires r in st.runs && s in st.runs[r].workers && s in st.runs[r].nodes && st.runs[r].alive
    requires IsHistory(build, states, labels) && states != []
    requires states[|states|-1] == With(st, r, s, Worker(DropSh(0, Canceled), 1))
    ensures IsHistory(build, more, ls) && states <= more && more != []
    ensures more[|more|-1] == With(st, r, s, Worker(DropMutex(Canceled), 1))
  {
    hide IsHistory, BuildResult, ExTaken, ShTaken, MutexTaken, InBuildNode, ValidAt;
    more, ls := Extend(build, states, labels, st, r, s, Worker(DropSh(0, Canceled), 1), DropEx(Canceled));
    more, ls := Extend(build, more, ls, st, r, s, Worker(DropEx(Canceled), 1), DropMutex(Canceled));
  }

  lemma NothingDone<C>(st: State<C>, told: State<C>, r: nat, s: string)
    requires r in st.runs && st.runs[r].workers.Keys == {s} && st.runs[r].firstErr.None? && !st.runs[r].external
    requires told == st.(runs := st.runs[r := st.runs[r].(lied := true)])
    ensures var last := With(told, r, s, Worker(Done(WasCanceled), 1));
            && last.store == st.store && r in last.runs && Finished(last.runs[r]) && Reported(last.runs[r]).Fine?
            && last.runs[r].lied && s in last.runs[r].workers && last.runs[r].workers[s].pc == Done(WasCanceled)
  {
  }
}
