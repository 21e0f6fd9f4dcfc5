/** What readers see while `publish` replaces an artifact: it renames twice, and between the two there
    is nothing at the path. */
module EnginePublish {
  import opened Common
  import opened Jobs
  import opened Engine
  import opened EngineSafety
  import opened EngineProgress
  import opened EngineFinish
  import opened EngineSteps

  // ---------------------------------------------------------------- the two renames

  /** Step i is the first rename of run r's `publish` of the slug: the path is cleared. */
  ghost predicate RenamesAside<C>(states: seq<State<C>>, labels: seq<Label>, i: nat, r: nat, slug: string) {
    && i < |labels| && i + 1 < |states| && labels[i] == ByWorker(r, slug)
    && Live(states[i], r, slug) && states[i].runs[r].workers[slug].pc.Stamped?
    && Live(states[i+1], r, slug) && states[i+1].runs[r].workers[slug].pc.Moved?
  }

  /** Step i is its second rename: the staged directory becomes the artifact. */
  ghost predicate RenamesIn<C>(states: seq<State<C>>, labels: seq<Label>, i: nat, r: nat, slug: string) {
    && i < |labels| && i + 1 < |states| && labels[i] == ByWorker(r, slug)
    && Live(states[i], r, slug) && states[i].runs[r].workers[slug].pc.Moved?
    && Live(states[i+1], r, slug) && states[i+1].runs[r].workers[slug].pc.DropSh?
    && states[i+1].runs[r].workers[slug].pc.v.Good?
  }

  /** What one worker step does to the store. */
  lemma MoveStore<C>(build: Builder<C>, st: State<C>, r: nat, s: string, ch: Choice, m: Move<C>)
    requires Live(st, r, s) && Advance(build, st, r, s, ch) == Some(m)
    ensures var pc := st.runs[r].workers[s].pc;
            && (pc.Stamped? && m.pc.Moved? ==> m.store == st.store - {s})
            && (pc.Moved? && m.pc.DropSh? && m.pc.v.Good? ==> m.store == st.store[s := pc.stage])
            && (!(pc.Stamped? && m.pc.Moved?) && !(pc.Moved? && m.pc.DropSh? && m.pc.v.Good?) ==> m.store == st.store)
            && (m.pc.Moved? ==> pc.Stamped?) && (pc.Moved? ==> m.pc.DropSh? && (m.pc.v.Good? || m.pc.v.Failed?))
  {
    hide BuildResult, ExTaken, ShTaken, MutexTaken, InBuildNode, ValidAt;
  }

  /** The store after any step of a history. */
  lemma StepStore<C>(build: Builder<C>, st: State<C>, st': State<C>, l: Label)
    requires Step(build, st, st', l)
    ensures l.ByWorker? ==>
              Live(st, l.r, l.s) && Live(st', l.r, l.s) &&
              var pc, pc' := st.runs[l.r].workers[l.s].pc, st'.runs[l.r].workers[l.s].pc;
              && (pc.Stamped? && pc'.Moved? ==> st'.store == st.store - {l.s})
              && (pc.Moved? && pc'.DropSh? && pc'.v.Good? ==> st'.store == st.store[l.s := pc.stage])
              && (!(pc.Stamped? && pc'.Moved?) && !(pc.Moved? && pc'.DropSh? && pc'.v.Good?) ==> st'.store == st.store)
              && (pc'.Moved? ==> pc.Stamped?)
    ensures !l.ByWorker? ==> st'.store == st.store
  {
    if l.ByWorker? {
      hide Advance, Apply;
      var ch :| Advance(build, st, l.r, l.s, ch).Some? &&
                st' == Apply(st, l.r, l.s, ch, Advance(build, st, l.r, l.s, ch).value);
      var m := Advance(build, st, l.r, l.s, ch).value;
      MoveStore(build, st, l.r, l.s, ch, m);
      ApplyFrame(st, l.r, l.s, ch, m);
    }
  }

  /** An artifact disappears exactly when a worker of its slug makes the first rename of `publish`
      while the path is occupied. */
  lemma RemovedExactly<C>(build: Builder<C>, states: seq<State<C>>, labels: seq<Label>, i: nat, slug: string)
    requires IsHistory(build, states, labels) && i < |labels|
    ensures slug in states[i].store && slug !in states[i+1].store <==>
            slug in states[i].store && exists r :: RenamesAside(states, labels, i, r, slug)
  {
    assert Step(build, states[i], states[i+1], labels[i]);
    StepStore(build, states[i], states[i+1], labels[i]);
    hide IsHistory, Step;
    if slug in states[i].store && slug !in states[i+1].store {
      assert RenamesAside(states, labels, i, labels[i].r, slug);
    }
  }

  /** An artifact appears exactly when a worker of its slug makes the second rename over a free path. */
  lemma AddedExactly<C>(build: Builder<C>, states: seq<State<C>>, labels: seq<Label>, i: nat, slug: string)
    requires IsHistory(build, states, labels) && i < |labels|
    ensures slug !in states[i].store && slug in states[i+1].store <==>
            slug !in states[i].store && exists r :: RenamesIn(states, labels, i, r, slug)
  {
    assert Step(build, states[i], states[i+1], labels[i]);
    StepStore(build, states[i], states[i+1], labels[i]);
    hide IsHistory, Step;
    if slug !in states[i].store && slug in states[i+1].store {
      assert RenamesIn(states, labels, i, labels[i].r, slug);
    }
  }

  // ---------------------------------------------------------------- the gap

  /** Between the renames the path is free: nobody else can fill it under the exclusive lock. */
  lemma {:induction false} GapIsEmpty<C>(build: Builder<C>, states: seq<State<C>>, labels: seq<Label>, i: nat, r: nat, slug: string)
    requires IsHistory(build, states, labels) && i < |states|
    requires Live(states[i], r, slug) && states[i].runs[r].workers[slug].pc.Moved?
    ensures slug !in states[i].store
    decreases i
  {
    hide IsHistory, Step, Invariant;
    if i == 0 {
      StartsWaiting(build, states, labels, r, slug);
    } else {
      StepAt(build, states, labels, i - 1);
      HistoryInvariant(build, states, labels, i - 1);
      WorkerBefore(build, states[i-1], states[i], labels[i-1], r, slug);
      if states[i-1].runs[r].workers[slug].pc.Moved? {
        GapIsEmpty(build, states, labels, i - 1, r, slug);
      }
      GapStep(build, states[i-1], states[i], labels[i-1], r, slug);
    }
  }

  lemma StepAt<C>(build: Builder<C>, states: seq<State<C>>, labels: seq<Label>, i: nat)
    requires IsHistory(build, states, labels) && i + 1 < |states|
    ensures i < |labels| && Step(build, states[i], states[i+1], labels[i])
  {
    hide Step, Start;
  }

  lemma StartsWaiting<C>(build: Builder<C>, states: seq<State<C>>, labels: seq<Label>, r: nat, s: string)
    requires IsHistory(build, states, labels) && |states| > 0 && Live(states[0], r, s)
    ensures states[0].runs[r].workers[s].pc == Waiting(0)
  {
    hide Step, Sound;
    assert StartRun(states[0].runs[r]);
  }

  lemma GapStep<C>(build: Builder<C>, st: State<C>, st': State<C>, l: Label, r: nat, slug: string)
    requires Step(build, st, st', l) && Invariant(build, st)
    requires Live(st', r, slug) && st'.runs[r].workers[slug].pc.Moved?
    requires Live(st, r, slug) && (st.runs[r].workers[slug].pc.Moved? ==> slug !in st.store)
    ensures slug !in st'.store
  {
    hide Step, Invariant;
    WorkerBefore(build, st, st', l, r, slug);
    StepStore(build, st, st', l);
    if l != ByWorker(r, slug) {
      OthersStayOut(build, st, st', l, r, slug);
    }
  }

  /** A worker's program point changes only by its own step. */
  lemma WorkerBefore<C>(build: Builder<C>, st: State<C>, st': State<C>, l: Label, r: nat, s: string)
    requires Step(build, st, st', l) && Live(st', r, s)
    ensures Live(st, r, s)
    ensures l != ByWorker(r, s) ==> st'.runs[r].workers[s] == st.runs[r].workers[s]
  {
    if l.ByWorker? {
      hide Advance, Apply;
      var ch :| Advance(build, st, l.r, l.s, ch).Some? &&
                st' == Apply(st, l.r, l.s, ch, Advance(build, st, l.r, l.s, ch).value);
      ApplyFrame(st, l.r, l.s, ch, Advance(build, st, l.r, l.s, ch).value);
    }
  }

  /** While one worker holds a slug exclusively, no other one's step touches its path. */
  lemma OthersStayOut<C>(build: Builder<C>, st: State<C>, st': State<C>, l: Label, r: nat, slug: string)
    requires Step(build, st, st', l) && Invariant(build, st) && OwnsEx(st, r, slug) && l != ByWorker(r, slug)
    ensures slug in st'.store <==> slug in st.store
    ensures slug in st.store ==> st'.store[slug] == st.store[slug]
  {
    hide Step, Invariant;
    StepStore(build, st, st', l);
    if l.ByWorker? && l.s == slug {
      OneOwner(build, st, r, l.r, slug);
    }
  }

  lemma OneOwner<C>(build: Builder<C>, st: State<C>, a: nat, b: nat, slug: string)
    requires Invariant(build, st) && OwnsEx(st, a, slug) && a != b
    ensures !OwnsEx(st, b, slug)
  {
    hide OwnsEx, OwnsSh, RunInvariant, CheckedDepsValid, Sound;
  }

  /** A publication that runs to its end: rename aside at step i, rename in at step k, nothing of the
      worker's own in between. */
  ghost predicate Publication<C>(states: seq<State<C>>, labels: seq<Label>, i: nat, k: nat, r: nat, slug: string) {
    && i < k && RenamesAside(states, labels, i, r, slug) && RenamesIn(states, labels, k, r, slug)
    && forall m | i < m <= k && m < |states| :: Live(states[m], r, slug) && states[m].runs[r].workers[slug].pc.Moved?
  }

  /** What a reader finds at the path. */
  ghost function Shown<C>(st: State<C>, slug: string): Option<Artifact<C>> {
    if slug in st.store then Some(st.store[slug]) else None
  }

  /** "Readers see either the old artifact or the new one" holds of a publication exactly when there
      was no old artifact: the path was free. */
  lemma OldOrNewExactly<C>(build: Builder<C>, states: seq<State<C>>, labels: seq<Label>, i: nat, k: nat, r: nat, slug: string)
    requires IsHistory(build, states, labels) && Publication(states, labels, i, k, r, slug)
    ensures (forall m | i <= m <= k + 1 :: Shown(states[m], slug) == Shown(states[i], slug)
                                           || Shown(states[m], slug) == Shown(states[k+1], slug))
            <==> slug !in states[i].store
  {
    assert |states| == |labels| + 1;
    assert Step(build, states[k], states[k+1], labels[k]);
    StepStore(build, states[k], states[k+1], labels[k]);
    forall m | i < m <= k ensures slug !in states[m].store {
      GapIsEmpty(build, states, labels, m, r, slug);
    }
    hide IsHistory, Step;
    assert Shown(states[i+1], slug) == None && slug in states[k+1].store;
  }

  /** A crash of the worker's process and a failed second rename leave the gap open. */
  lemma GapStaysOpen<C>(build: Builder<C>, states: seq<State<C>>, labels: seq<Label>, i: nat, r: nat, slug: string)
    requires IsHistory(build, states, labels) && i < |labels|
    requires Live(states[i], r, slug) && states[i].runs[r].workers[slug].pc.Moved?
    requires labels[i].ByCrash?
             || (labels[i] == ByWorker(r, slug) && states[i+1].runs[r].workers[slug].pc.DropSh?
                 && states[i+1].runs[r].workers[slug].pc.v.Failed?)
    ensures slug !in states[i].store && slug !in states[i+1].store
  {
    GapIsEmpty(build, states, labels, i, r, slug);
    assert Step(build, states[i], states[i+1], labels[i]);
    StepStore(build, states[i], states[i+1], labels[i]);
    hide IsHistory, Step;
  }

  // ---------------------------------------------------------------- a history with a gap

  /** A leaf alone builds and stamps. */
  lemma ToStamped<C>(build: Builder<C>, st: State<C>, r: nat, s: string)
    returns (states: seq<State<C>>, labels: seq<Label>, stamped: Artifact<C>)
    requires Start(build, st) && Solo(st, r, s)
    ensures IsHistory(build, states, labels) && states != [] && states[0] == st && Quiet(st, r, s)
    ensures states[|states|-1] == With(st, r, s, Worker(Stamped(stamped), 1))
  {
    hide IsHistory, Start, BuildResult, ExTaken, ShTaken, MutexTaken, InBuildNode;
    states, labels := SoloBuilds(build, st, r, s);
    var node := st.runs[r].nodes[s];
    var stage: Artifact<C> := Artifact(None, BuildResult(build, node, []));
    stamped := stage.(manifest := Some(node.key));
    states, labels := Extend(build, states, labels, st, r, s, Worker(Building([]), 1), Staged(stage));
    states, labels := Extend(build, states, labels, st, r, s, Worker(Staged(stage), 1), Stamped(stamped));
  }

  /** Rebuilding an artifact for another key: a history in which it is there, then it is not, and after
      the process dies in between nothing is left of it. */
  lemma ReplacementShowsGap<C>(build: Builder<C>, st: State<C>, r: nat, s: string)
    returns (states: seq<State<C>>, labels: seq<Label>, i: nat)
    requires Start(build, st) && Solo(st, r, s) && s in st.store
    ensures IsHistory(build, states, labels) && states != [] && states[0] == st && |states| == i + 3
    ensures s in states[i].store && RenamesAside(states, labels, i, r, s) && s !in states[i+1].store
    ensures !states[i+2].runs[r].alive && s !in states[i+2].store
  {
    hide IsHistory, Start, Solo, Quiet;
    var stamped: Artifact<C>;
    states, labels, stamped := ToStamped(build, st, r, s);
    HistoryLength(build, states, labels);
    assert states[|states|-1].store == st.store;
    hide With;
    i := |labels|;
    states, labels := ClearPath(build, states, labels, st, r, s, stamped);
    states, labels := Die(build, states, labels, r);
  }

  lemma HistoryLength<C>(build: Builder<C>, states: seq<State<C>>, labels: seq<Label>)
    requires IsHistory(build, states, labels)
    ensures |states| == |labels| + 1
  {
  }

  lemma ClearPath<C>(build: Builder<C>, states: seq<State<C>>, labels: seq<Label>, st: State<C>, r: nat, s: string,
                     stage: Artifact<C>)
    returns (more: seq<State<C>>, ls: seq<Label>)
    requires Quiet(st, r, s) && IsHistory(build, states, labels) && |states| == |labels| + 1
    requires states[|states|-1] == With(st, r, s, Worker(Stamped(stage), 1))
    ensures IsHistory(build, more, ls) && states < more && |more| == |states| + 1 && |ls| == |labels| + 1
    ensures RenamesAside(more, ls, |labels|, r, s)
    ensures more[|states|].store == st.store - {s} && r in more[|states|].runs
    ensures more[|states|].runs[r].host == st.runs[r].host
  {
    hide IsHistory;
    var now := With(st, r, s, Worker(Stamped(stage), 1));
    var m := Move(Moved(stage), st.store - {s});
    assert Advance(build, now, r, s, Go) == Some(m);
    hide Advance;
    var st' := Apply(now, r, s, Go, m);
    ApplyFrame(now, r, s, Go, m);
    assert WorkerStep(build, now, st', r, s);
    assert Step(build, now, st', ByWorker(r, s));
    HistoryGrows(build, states, labels, st', ByWorker(r, s));
    more, ls := states + [st'], labels + [ByWorker(r, s)];
  }

  lemma Die<C>(build: Builder<C>, states: seq<State<C>>, labels: seq<Label>, r: nat)
    returns (more: seq<State<C>>, ls: seq<Label>)
    requires IsHistory(build, states, labels) && states != [] && r in states[|states|-1].runs
    ensures IsHistory(build, more, ls) && more == states + [more[|more|-1]] && states < more
    ensures ls == labels + [ByCrash(states[|states|-1].runs[r].host)]
    ensures more[|more|-1].store == states[|states|-1].store
    ensures r in more[|more|-1].runs && !more[|more|-1].runs[r].alive
  {
    hide IsHistory;
    var st := states[|states|-1];
    var host := st.runs[r].host;
    var st' := st.(runs := map q | q in st.runs ::
                     if st.runs[q].host == host then st.runs[q].(alive := false) else st.runs[q]);
    assert Step(build, st, st', ByCrash(host));
    HistoryGrows(build, states, labels, st', ByCrash(host));
    more, ls := states + [st'], labels + [ByCrash(host)];
  }
}
