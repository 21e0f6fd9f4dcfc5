/** What `Fetch` tries before it gives up, and what it does not try at all. */
module FetchMirrors {
  import opened Common
  import opened Fetch

  /** What happened at a step. */
  datatype Label<+B> = ByCaller(id: nat, e: Event<B>) | ByCrash(id: nat) | ByCall(id: nat, urls: nat, offline: bool)

  ghost predicate Happens<B>(hash: B -> string, pin: string, st: State<B>, st': State<B>, l: Label<B>) {
    match l
    case ByCaller(id, e) => CallerStep(hash, pin, st, st', id, e)
    case ByCrash(id) => CrashStep(st, st', id)
    case ByCall(id, urls, offline) => CallStep(st, st', id, urls, offline)
  }

  /** A history with the label of each step. */
  ghost predicate IsLabelled<B(!new)>(hash: B -> string, pin: string, states: seq<State<B>>, labels: seq<Label<B>>) {
    && IsHistory(hash, pin, states) && |states| == |labels| + 1
    && forall i | 0 <= i < |labels| :: Happens(hash, pin, states[i], states[i+1], labels[i])
  }

  /** Every history can be labelled. */
  lemma {:induction false} HistoriesHaveLabels<B(!new)>(hash: B -> string, pin: string, states: seq<State<B>>)
    returns (labels: seq<Label<B>>)
    requires IsHistory(hash, pin, states)
    ensures IsLabelled(hash, pin, states, labels)
    decreases |states|
  {
    labels := [];
    if |states| > 1 {
      var init := states[..|states|-1];
      hide Step, Happens;
      assert IsHistory(hash, pin, init) by {
        forall i | 0 <= i < |init| - 1 ensures Step(hash, pin, init[i], init[i+1]) {
          assert Step(hash, pin, states[i], states[i+1]);
        }
      }
      labels := HistoriesHaveLabels(hash, pin, init);
      assert Step(hash, pin, states[|states|-2], states[|states|-2+1]);
      var l := LabelOf(hash, pin, states[|states|-2], states[|states|-1]);
      var all := labels + [l];
      forall i | 0 <= i < |all| ensures Happens(hash, pin, states[i], states[i+1], all[i]) {
        if i < |labels| {
          assert Happens(hash, pin, init[i], init[i+1], labels[i]);
        }
      }
      labels := all;
    }
  }

  lemma LabelOf<B(!new)>(hash: B -> string, pin: string, st: State<B>, st': State<B>) returns (l: Label<B>)
    requires Step(hash, pin, st, st')
    ensures Happens(hash, pin, st, st', l)
  {
    hide CallerStep, CrashStep, CallStep;
    if id: nat, e :| CallerStep(hash, pin, st, st', id, e) {
      l := ByCaller(id, e);
    } else if id: nat :| CrashStep(st, st', id) {
      l := ByCrash(id);
    } else {
      var id: nat, urls: nat, offline :| CallStep(st, st', id, urls, offline);
      l := ByCall(id, urls, offline);
    }
  }

  // ---------------------------------------------------------------- giving up

  ghost predicate IsAt<B>(states: seq<State<B>>, i: nat, id: nat, pc: Pc<B>) {
    i < |states| && id in states[i].callers && states[i].callers[id].pc == pc
  }

  /** A try of mirror v failed for a reason that may pass. */
  ghost predicate TriedInVain<B>(states: seq<State<B>>, labels: seq<Label<B>>, b: nat, k: nat, id: nat, v: nat, a: nat) {
    exists i: nat :: b < i < k && i < |labels| && labels[i] == ByCaller(id, Transient) && IsAt(states, i, id, Downloading(v, a))
  }

  /** Mirror v answered that it never will serve the file. */
  ghost predicate Refused<B>(states: seq<State<B>>, labels: seq<Label<B>>, b: nat, k: nat, id: nat, v: nat) {
    exists i: nat, a :: b < i < k && i < |labels| && labels[i] == ByCaller(id, Permanent) && IsAt(states, i, id, Downloading(v, a))
  }

  /** Mirror v served bytes that do not match the pin. */
  ghost predicate ServedOther<B(!new)>(hash: B -> string, pin: string, states: seq<State<B>>, b: nat, k: nat, id: nat, v: nat) {
    exists i: nat, a, bytes :: b < i < k && hash(bytes) != pin && IsAt(states, i, id, Verifying(v, a, bytes))
  }

  ghost predicate UsedUp<B(!new)>(hash: B -> string, pin: string, states: seq<State<B>>, labels: seq<Label<B>>, b: nat, k: nat,
                            id: nat, v: nat)
  {
    || Refused(states, labels, b, k, id, v)
    || ServedOther(hash, pin, states, b, k, id, v)
    || (TriedInVain(states, labels, b, k, id, v, 0) && TriedInVain(states, labels, b, k, id, v, 1)
        && TriedInVain(states, labels, b, k, id, v, 2))
  }

  /** Between b and k the caller's process did not die, its disk did not fail and nobody cancelled it. */
  ghost predicate Undisturbed<B>(labels: seq<Label<B>>, id: nat, b: nat, k: nat) {
    forall i | b < i < k && i < |labels| ::
      labels[i] != ByCrash(id) && labels[i] != ByCaller(id, IOError) && labels[i] != ByCaller(id, Cancelled)
  }

  /** What has been used up when the call is at this point. */
  ghost predicate UsedSoFar<B(!new)>(hash: B -> string, pin: string, states: seq<State<B>>, labels: seq<Label<B>>, b: nat, k: nat,
                               id: nat, pc: Pc<B>, urls: nat)
  {
    match pc
    case Downloading(u, a) => UsedBelow(hash, pin, states, labels, b, k, id, u, a)
    case Verifying(u, a, _) => UsedBelow(hash, pin, states, labels, b, k, id, u, a)
    case Renaming(u, a, _) => UsedBelow(hash, pin, states, labels, b, k, id, u, a)
    case Unlocking(Failed) => forall v | 0 <= v < urls :: UsedUp(hash, pin, states, labels, b, k, id, v)
    case Returned(Failed) => forall v | 0 <= v < urls :: UsedUp(hash, pin, states, labels, b, k, id, v)
    case Straggling => false
    case StragglerLocked => false
    case _ => true
  }

  ghost predicate UsedBelow<B(!new)>(hash: B -> string, pin: string, states: seq<State<B>>, labels: seq<Label<B>>, b: nat, k: nat,
                               id: nat, u: nat, a: nat)
  {
    && (forall v | 0 <= v < u :: UsedUp(hash, pin, states, labels, b, k, id, v))
    && a < 3 && forall t | 0 <= t < a :: TriedInVain(states, labels, b, k, id, u, t)
  }

  /** What was used up stays used up. */
  lemma StaysUsedUp<B(!new)>(hash: B -> string, pin: string, states: seq<State<B>>, labels: seq<Label<B>>, b: nat, k: nat, m: nat,
                       id: nat)
    requires k <= m
    ensures forall v, a | TriedInVain(states, labels, b, k, id, v, a) :: TriedInVain(states, labels, b, m, id, v, a)
    ensures forall v | UsedUp(hash, pin, states, labels, b, k, id, v) :: UsedUp(hash, pin, states, labels, b, m, id, v)
  {
    hide IsAt;
    forall v, a | TriedInVain(states, labels, b, k, id, v, a) ensures TriedInVain(states, labels, b, m, id, v, a) {
      var i: nat :| b < i < k && i < |labels| && labels[i] == ByCaller(id, Transient) && IsAt(states, i, id, Downloading(v, a));
      assert i < m;
    }
    forall v | Refused(states, labels, b, k, id, v) ensures Refused(states, labels, b, m, id, v) {
      var i: nat, a :| b < i < k && i < |labels| && labels[i] == ByCaller(id, Permanent) && IsAt(states, i, id, Downloading(v, a));
      assert i < m;
    }
    forall v | ServedOther(hash, pin, states, b, k, id, v) ensures ServedOther(hash, pin, states, b, m, id, v) {
      var i: nat, a, bytes :| b < i < k && hash(bytes) != pin && IsAt(states, i, id, Verifying(v, a, bytes));
      assert i < m;
    }
    hide TriedInVain, Refused, ServedOther;
  }

  lemma LongerBelow<B(!new)>(hash: B -> string, pin: string, states: seq<State<B>>, labels: seq<Label<B>>, b: nat, k: nat, m: nat,
                       id: nat, u: nat, a: nat)
    requires k <= m && UsedBelow(hash, pin, states, labels, b, k, id, u, a)
    ensures UsedBelow(hash, pin, states, labels, b, m, id, u, a)
  {
    StaysUsedUp(hash, pin, states, labels, b, k, m, id);
    hide TriedInVain, UsedUp;
    forall v | 0 <= v < u ensures UsedUp(hash, pin, states, labels, b, m, id, v) {
      assert UsedUp(hash, pin, states, labels, b, k, id, v);
    }
    forall t | 0 <= t < a ensures TriedInVain(states, labels, b, m, id, u, t) {
      assert TriedInVain(states, labels, b, k, id, u, t);
    }
  }

  lemma LongerUsed<B(!new)>(hash: B -> string, pin: string, states: seq<State<B>>, labels: seq<Label<B>>, b: nat, k: nat, m: nat,
                      id: nat, pc: Pc<B>, urls: nat)
    requires k <= m && UsedSoFar(hash, pin, states, labels, b, k, id, pc, urls)
    ensures UsedSoFar(hash, pin, states, labels, b, m, id, pc, urls)
  {
    StaysUsedUp(hash, pin, states, labels, b, k, m, id);
    hide TriedInVain, UsedUp, UsedBelow;
    match pc
    case Downloading(u, a) => LongerBelow(hash, pin, states, labels, b, k, m, id, u, a);
    case Verifying(u, a, _) => LongerBelow(hash, pin, states, labels, b, k, m, id, u, a);
    case Renaming(u, a, _) => LongerBelow(hash, pin, states, labels, b, k, m, id, u, a);
    case Unlocking(Failed) =>
      forall v | 0 <= v < urls ensures UsedUp(hash, pin, states, labels, b, m, id, v) {
        assert UsedUp(hash, pin, states, labels, b, k, id, v);
      }
    case Returned(Failed) =>
      forall v | 0 <= v < urls ensures UsedUp(hash, pin, states, labels, b, m, id, v) {
        assert UsedUp(hash, pin, states, labels, b, k, id, v);
      }
    case _ =>
  }

  /** Mirror u is used up as well. */
  lemma OneMoreUsed<B(!new)>(hash: B -> string, pin: string, states: seq<State<B>>, labels: seq<Label<B>>, b: nat, m: nat, id: nat,
                       u: nat, a: nat)
    requires UsedBelow(hash, pin, states, labels, b, m, id, u, a) && UsedUp(hash, pin, states, labels, b, m, id, u)
    ensures UsedBelow(hash, pin, states, labels, b, m, id, u + 1, 0)
  {
    hide TriedInVain, UsedUp;
  }

  /** One more failed try of mirror u. */
  lemma OneMoreTry<B(!new)>(hash: B -> string, pin: string, states: seq<State<B>>, labels: seq<Label<B>>, b: nat, m: nat, id: nat,
                      u: nat, a: nat)
    requires UsedBelow(hash, pin, states, labels, b, m, id, u, a) && TriedInVain(states, labels, b, m, id, u, a)
    ensures a < 2 ==> UsedBelow(hash, pin, states, labels, b, m, id, u, a + 1)
    ensures a >= 2 ==> UsedUp(hash, pin, states, labels, b, m, id, u)
  {
    hide TriedInVain, Refused, ServedOther;
    if a < 2 {
      forall t | 0 <= t < a + 1 ensures TriedInVain(states, labels, b, m, id, u, t) {
        assert t == a || TriedInVain(states, labels, b, m, id, u, t);
      }
      hide UsedUp;
    } else {
      assert TriedInVain(states, labels, b, m, id, u, 0) && TriedInVain(states, labels, b, m, id, u, 1);
    }
  }

  /** One own step. */
  lemma UsesUp<B(!new)>(hash: B -> string, pin: string, states: seq<State<B>>, labels: seq<Label<B>>, b: nat, k: nat, m: nat, id: nat,
                  e: Event<B>)
    requires m == k + 1 && k < |labels| && |states| == |labels| + 1 && b < k
    requires labels[k] == ByCaller(id, e) && !e.IOError? && !e.Cancelled?
    requires CallerStep(hash, pin, states[k], states[m], id, e)
    requires id in states[k].callers && !states[k].callers[id].offline
    requires UsedSoFar(hash, pin, states, labels, b, k, id, states[k].callers[id].pc, states[k].callers[id].urls)
    ensures id in states[m].callers
    ensures states[m].callers[id].urls == states[k].callers[id].urls && !states[m].callers[id].offline
    ensures UsedSoFar(hash, pin, states, labels, b, m, id, states[m].callers[id].pc, states[k].callers[id].urls)
  {
    var c := states[k].callers[id];
    assert IsAt(states, k, id, c.pc);
    LongerUsed(hash, pin, states, labels, b, k, m, id, c.pc, c.urls);
    hide Effect;
    match c.pc
    case Downloading(u, a) =>
      if e.Transient? {
        assert TriedInVain(states, labels, b, m, id, u, a);
        hide TriedInVain, UsedUp, UsedBelow, IsAt;
        OneMoreTry(hash, pin, states, labels, b, m, id, u, a);
        if a >= 2 {
          OneMoreUsed(hash, pin, states, labels, b, m, id, u, a);
        }
      } else if e.Permanent? {
        assert Refused(states, labels, b, m, id, u);
        assert UsedUp(hash, pin, states, labels, b, m, id, u);
        hide TriedInVain, UsedUp, UsedBelow, IsAt, Refused;
        OneMoreUsed(hash, pin, states, labels, b, m, id, u, a);
      } else {
        hide TriedInVain, UsedUp, IsAt;
      }
    case Verifying(u, a, bytes) =>
      if hash(bytes) != pin {
        assert ServedOther(hash, pin, states, b, m, id, u);
        assert UsedUp(hash, pin, states, labels, b, m, id, u);
        hide TriedInVain, UsedUp, UsedBelow, IsAt, ServedOther;
        OneMoreUsed(hash, pin, states, labels, b, m, id, u, a);
      } else {
        hide TriedInVain, UsedUp, UsedBelow, IsAt;
      }
    case _ => hide TriedInVain, UsedUp, IsAt;
  }

  lemma {:induction false} UsedUpSoFar<B(!new)>(hash: B -> string, pin: string, states: seq<State<B>>, labels: seq<Label<B>>,
                                          b: nat, k: nat, id: nat, urls: nat)
    requires IsLabelled(hash, pin, states, labels) && b < k < |states| && labels[b] == ByCall(id, urls, false)
    requires Undisturbed(labels, id, b, k)
    ensures id in states[k].callers && states[k].callers[id].urls == urls && !states[k].callers[id].offline
    ensures UsedSoFar(hash, pin, states, labels, b, k, id, states[k].callers[id].pc, urls)
    decreases k
  {
    hide IsHistory, Effect, NextPc, UsedSoFar;
    assert Happens(hash, pin, states[k-1], states[k-1+1], labels[k-1]);
    if k == b + 1 {
      assert UsedSoFar(hash, pin, states, labels, b, k, id, FastMarker, urls) by { NothingUsed(hash, pin, states, labels, b, k, id, urls); }
    } else {
      UsedUpSoFar(hash, pin, states, labels, b, k - 1, id, urls);
      if labels[k-1].ByCaller? && labels[k-1].id == id {
        UsesUp(hash, pin, states, labels, b, k - 1, k, id, labels[k-1].e);
      } else {
        OthersLeave(hash, pin, states[k-1], states[k], labels[k-1], id);
        LongerUsed(hash, pin, states, labels, b, k - 1, k, id, states[k].callers[id].pc, urls);
      }
    }
  }

  lemma NothingUsed<B(!new)>(hash: B -> string, pin: string, states: seq<State<B>>, labels: seq<Label<B>>, b: nat, k: nat, id: nat,
                       urls: nat)
    ensures UsedSoFar(hash, pin, states, labels, b, k, id, FastMarker, urls)
  {
  }

  /** A step of anyone else, short of the caller's own death, leaves the caller where it is. */
  lemma OthersLeave<B>(hash: B -> string, pin: string, st: State<B>, st': State<B>, l: Label<B>, id: nat)
    requires Happens(hash, pin, st, st', l) && id in st.callers && l != ByCrash(id) && (l.ByCaller? ==> l.id != id)
    ensures id in st'.callers && st'.callers[id] == st.callers[id]
  {
    hide Effect, NextPc;
  }

  /** An online call whose disk does not fail and that nobody cancels gives up only after every mirror
      refused, served other bytes, or failed three times. */
  lemma GivesUpLast<B(!new)>(hash: B -> string, pin: string, states: seq<State<B>>, labels: seq<Label<B>>, b: nat, k: nat, id: nat,
                       urls: nat)
    requires IsLabelled(hash, pin, states, labels) && b < k < |states| && labels[b] == ByCall(id, urls, false)
    requires Undisturbed(labels, id, b, k) && IsAt(states, k, id, Returned(Failed))
    ensures forall v | 0 <= v < urls :: UsedUp(hash, pin, states, labels, b, k, id, v)
  {
    hide IsLabelled, Undisturbed, UsedUp;
    UsedUpSoFar(hash, pin, states, labels, b, k, id, urls);
  }

  // ---------------------------------------------------------------- asking

  /** A step of the call in which a mirror answers. */
  ghost predicate Asks<B>(labels: seq<Label<B>>, i: nat, id: nat) {
    && i < |labels| && labels[i].ByCaller? && labels[i].id == id
    && (labels[i].e.Body? || labels[i].e.Transient? || labels[i].e.Permanent?)
  }

  /** A caller at some mirror is there for the first, second or third time. */
  ghost predicate FewTries<B>(c: Caller<B>) {
    match c.pc
    case Downloading(_, a) => a < 3
    case Verifying(_, a, _) => a < 3
    case Renaming(_, a, _) => a < 3
    case _ => true
  }

  /** The call is done with try `a` of mirror `u`, or with the answer to it. */
  predicate Beyond<B>(pc: Pc<B>, u: nat, a: nat) {
    match pc
    case Downloading(v, t) => v > u || (v == u && t > a)
    case Verifying(v, t, _) => v > u || (v == u && t >= a)
    case Renaming(v, t, _) => v > u || (v == u && t >= a)
    case Marking => true
    case Unlocking(_) => true
    case Returned(_) => true
    case _ => false
  }

  lemma FewTriesStep<B>(hash: B -> string, pin: string, st: State<B>, st': State<B>, l: Label<B>)
    requires Happens(hash, pin, st, st', l) && forall id | id in st.callers :: FewTries(st.callers[id])
    ensures forall id | id in st'.callers :: FewTries(st'.callers[id])
  {
    hide Effect;
  }

  lemma {:induction false} AlwaysFewTries<B(!new)>(hash: B -> string, pin: string, states: seq<State<B>>, labels: seq<Label<B>>,
                                             k: nat)
    requires IsLabelled(hash, pin, states, labels) && k < |states|
    ensures forall id | id in states[k].callers :: FewTries(states[k].callers[id])
  {
    if k > 0 {
      AlwaysFewTries(hash, pin, states, labels, k - 1);
      assert Happens(hash, pin, states[k-1], states[k-1+1], labels[k-1]);
      hide Happens, FewTries, IsHistory;
      FewTriesStep(hash, pin, states[k-1], states[k], labels[k-1]);
    }
  }

  /** Asking moves a call beyond the try, and nothing moves it back. */
  lemma MovesOn<B>(hash: B -> string, pin: string, st: State<B>, st': State<B>, id: nat, e: Event<B>, u: nat, a: nat)
    requires CallerStep(hash, pin, st, st', id, e)
    requires var pc := st.callers[id].pc; Beyond(pc, u, a) || (pc == Downloading(u, a) && !e.Cancelled? && !e.Go?)
    ensures id in st'.callers && st'.callers[id].urls == st.callers[id].urls && Beyond(st'.callers[id].pc, u, a)
  {
    hide Effect;
  }

  lemma {:induction false} StaysBeyond<B(!new)>(hash: B -> string, pin: string, states: seq<State<B>>, labels: seq<Label<B>>,
                                          i: nat, k: nat, id: nat, u: nat, a: nat)
    requires IsLabelled(hash, pin, states, labels) && i < k < |states| && Asks(labels, i, id)
    requires IsAt(states, i, id, Downloading(u, a)) && forall j | i < j < k :: labels[j] != ByCrash(id)
    ensures id in states[k].callers && states[k].callers[id].urls == states[i].callers[id].urls
    ensures Beyond(states[k].callers[id].pc, u, a)
    decreases k
  {
    hide IsHistory, Effect, NextPc, Beyond;
    assert Happens(hash, pin, states[k-1], states[k-1+1], labels[k-1]);
    if k == i + 1 {
      MovesOn(hash, pin, states[i], states[k], id, labels[i].e, u, a);
    } else {
      StaysBeyond(hash, pin, states, labels, i, k - 1, id, u, a);
      if labels[k-1].ByCaller? && labels[k-1].id == id {
        MovesOn(hash, pin, states[k-1], states[k], id, labels[k-1].e, u, a);
      } else {
        OthersLeave(hash, pin, states[k-1], states[k], labels[k-1], id);
      }
    }
  }

  /** Whoever asks is at a listed mirror, for at most the third time. */
  lemma AsksListed<B(!new)>(hash: B -> string, pin: string, states: seq<State<B>>, labels: seq<Label<B>>, i: nat, id: nat)
    requires IsLabelled(hash, pin, states, labels) && Asks(labels, i, id)
    ensures id in states[i].callers
    ensures var c := states[i].callers[id]; c.pc.Downloading? && c.pc.url < c.urls && c.pc.attempt < 3
  {
    AlwaysFewTries(hash, pin, states, labels, i);
    assert Happens(hash, pin, states[i], states[i+1], labels[i]);
    hide IsHistory, Effect;
  }

  /** One call asks only mirrors of its list, each at most three times, in the order of the list: of two
      answers to it the later one is to a later mirror, or to a later try of the same one. */
  lemma AsksInOrder<B(!new)>(hash: B -> string, pin: string, states: seq<State<B>>, labels: seq<Label<B>>, i: nat, k: nat, id: nat)
    requires IsLabelled(hash, pin, states, labels) && i < k && Asks(labels, i, id) && Asks(labels, k, id)
    requires forall j | i < j < k :: labels[j] != ByCrash(id)
    ensures id in states[i].callers && id in states[k].callers
    ensures var c, d := states[i].callers[id], states[k].callers[id];
            && c.pc.Downloading? && d.pc.Downloading? && c.urls == d.urls
            && c.pc.url < c.urls && d.pc.url < c.urls && c.pc.attempt < 3 && d.pc.attempt < 3
            && (c.pc.url < d.pc.url || (c.pc.url == d.pc.url && c.pc.attempt < d.pc.attempt))
  {
    assert |states| == |labels| + 1;
    hide IsLabelled;
    AsksListed(hash, pin, states, labels, i, id);
    AsksListed(hash, pin, states, labels, k, id);
    var c := states[i].callers[id];
    StaysBeyond(hash, pin, states, labels, i, k, id, c.pc.url, c.pc.attempt);
  }

  /** A call at a listed mirror may get any answer, and goes no further without one; past the last
      mirror it can only give up. */
  lemma AnswersPossible<B>(hash: B -> string, pin: string, st: State<B>, id: nat, e: Event<B>)
    requires id in st.callers && st.callers[id].pc.Downloading?
    requires e.Body? || e.Transient? || e.Permanent? || e.Go?
    ensures (exists st' :: CallerStep(hash, pin, st, st', id, e)) <==>
            if e.Go? then st.callers[id].pc.url >= st.callers[id].urls else st.callers[id].pc.url < st.callers[id].urls
  {
    var next := NextPc(hash, pin, st, st.callers[id], e);
    if next.Some? {
      assert CallerStep(hash, pin, st, Moved(st, id, next.value, st.file, st.marker, st.owner), id, e);
    }
  }

  // ---------------------------------------------------------------- going on

  /** The state after a caller's step. */
  function Moved<B>(st: State<B>, id: nat, pc: Pc<B>, file: Option<B>, marker: bool, owner: Option<nat>): State<B>
    requires id in st.callers
  {
    State(file, marker, owner, st.callers[id := st.callers[id].(pc := pc)])
  }

  lemma OneMoreState<B(!new)>(hash: B -> string, pin: string, states: seq<State<B>>, st': State<B>)
    requires IsHistory(hash, pin, states) && Step(hash, pin, states[|states|-1], st')
    ensures IsHistory(hash, pin, states + [st'])
  {
    hide Step;
    var more := states + [st'];
    forall i | 0 <= i < |more| - 1 ensures Step(hash, pin, more[i], more[i+1]) {
      if i < |states| - 1 {
        assert Step(hash, pin, states[i], states[i+1]);
      }
    }
  }

  lemma OneStepMore<B(!new)>(hash: B -> string, pin: string, states: seq<State<B>>, st': State<B>, id: nat, e: Event<B>)
    requires IsHistory(hash, pin, states) && CallerStep(hash, pin, states[|states|-1], st', id, e)
    ensures IsHistory(hash, pin, states + [st'])
  {
    hide CallerStep, IsHistory;
    OneMoreState(hash, pin, states, st');
  }

  /** From mirror u to mirror v, when those between refuse. */
  lemma {:induction false} SkipTo<B(!new)>(hash: B -> string, pin: string, states: seq<State<B>>, id: nat, u: nat, a: nat, v: nat)
    returns (more: seq<State<B>>)
    requires IsHistory(hash, pin, states) && IsAt(states, |states|-1, id, Downloading(u, a))
    requires u <= v < states[|states|-1].callers[id].urls
    ensures IsHistory(hash, pin, more) && states <= more && id in more[|more|-1].callers
    ensures more[|more|-1].callers[id].pc.Downloading? && more[|more|-1].callers[id].pc.url == v
    ensures more[|more|-1].callers[id].urls == states[|states|-1].callers[id].urls
    decreases v - u
  {
    assert |states| > 0;
    hide IsHistory;
    more := states;
    if u < v {
      var st := states[|states|-1];
      var st' := Moved(st, id, Downloading(u + 1, 0), st.file, st.marker, st.owner);
      assert CallerStep(hash, pin, st, st', id, Permanent);
      hide CallerStep;
      OneStepMore(hash, pin, states, st', id, Permanent);
      more := SkipTo(hash, pin, states + [st'], id, u + 1, 0, v);
    }
  }

  /** Whatever happened to the mirrors so far, a later one that serves matching bytes is enough: some
      continuation returns the path, with those bytes in place. */
  lemma LaterMirrorServes<B(!new)>(hash: B -> string, pin: string, states: seq<State<B>>, id: nat, u: nat, a: nat, v: nat, bytes: B)
    returns (more: seq<State<B>>)
    requires IsHistory(hash, pin, states) && IsAt(states, |states|-1, id, Downloading(u, a))
    requires u <= v < states[|states|-1].callers[id].urls && hash(bytes) == pin
    ensures IsHistory(hash, pin, more) && states <= more && IsAt(more, |more|-1, id, Returned(Path))
    ensures more[|more|-1].file == Some(bytes) && more[|more|-1].marker
  {
    assert |states| > 0;
    hide IsHistory;
    more := SkipTo(hash, pin, states, id, u, a, v);
    more := Serve(hash, pin, more, id, bytes);
  }

  lemma Serve<B(!new)>(hash: B -> string, pin: string, states: seq<State<B>>, id: nat, bytes: B) returns (more: seq<State<B>>)
    requires IsHistory(hash, pin, states) && id in states[|states|-1].callers && hash(bytes) == pin
    requires var c := states[|states|-1].callers[id]; c.pc.Downloading? && c.pc.url < c.urls
    ensures IsHistory(hash, pin, more) && states <= more && IsAt(more, |more|-1, id, Returned(Path))
    ensures more[|more|-1].file == Some(bytes) && more[|more|-1].marker
  {
    assert |states| > 0;
    hide IsHistory;
    var st := states[|states|-1];
    var v, t := st.callers[id].pc.url, st.callers[id].pc.attempt;
    var s1 := Moved(st, id, Verifying(v, t, bytes), st.file, st.marker, st.owner);
    assert CallerStep(hash, pin, st, s1, id, Body(bytes));
    OneStepMore(hash, pin, states, s1, id, Body(bytes));
    var s2 := Moved(s1, id, Renaming(v, t, bytes), s1.file, s1.marker, s1.owner);
    assert CallerStep(hash, pin, s1, s2, id, Go);
    OneStepMore(hash, pin, states + [s1], s2, id, Go);
    more := Publish(hash, pin, states + [s1] + [s2], id, v, t, bytes);
  }

  lemma Publish<B(!new)>(hash: B -> string, pin: string, states: seq<State<B>>, id: nat, v: nat, t: nat, bytes: B)
    returns (more: seq<State<B>>)
    requires IsHistory(hash, pin, states) && IsAt(states, |states|-1, id, Renaming(v, t, bytes))
    ensures IsHistory(hash, pin, more) && states <= more && IsAt(more, |more|-1, id, Returned(Path))
    ensures more[|more|-1].file == Some(bytes) && more[|more|-1].marker
  {
    assert |states| > 0;
    hide IsHistory;
    var st := states[|states|-1];
    var s1 := Moved(st, id, Marking, Some(bytes), st.marker, st.owner);
    assert CallerStep(hash, pin, st, s1, id, Go);
    OneStepMore(hash, pin, states, s1, id, Go);
    var s2 := Moved(s1, id, Unlocking(Path), s1.file, true, s1.owner);
    assert CallerStep(hash, pin, s1, s2, id, Go);
    OneStepMore(hash, pin, states + [s1], s2, id, Go);
    var s3 := Moved(s2, id, Returned(Path), s2.file, s2.marker, None);
    assert CallerStep(hash, pin, s2, s3, id, Go);
    OneStepMore(hash, pin, states + [s1] + [s2], s3, id, Go);
    more := states + [s1] + [s2] + [s3];
  }

  /** A new call may be made at any time. */
  lemma CallMade<B(!new)>(hash: B -> string, pin: string, states: seq<State<B>>, id: nat, urls: nat, offline: bool)
    returns (more: seq<State<B>>)
    requires IsHistory(hash, pin, states) && id !in states[|states|-1].callers
    ensures IsHistory(hash, pin, more) && states <= more && |more| == |states| + 1
    ensures var st := states[|states|-1];
            more[|states|] == st.(callers := st.callers[id := Caller(FastMarker, urls, offline)])
  {
    var st := states[|states|-1];
    var st' := st.(callers := st.callers[id := Caller(FastMarker, urls, offline)]);
    assert CallStep(st, st', id, urls, offline);
    hide IsHistory;
    OneMoreState(hash, pin, states, st');
    more := states + [st'];
  }

  /** A step that only moves the caller, and may give it the lock. */
  lemma Walks<B(!new)>(hash: B -> string, pin: string, states: seq<State<B>>, id: nat, pc: Pc<B>, owner: Option<nat>)
    returns (more: seq<State<B>>)
    requires IsHistory(hash, pin, states)
    requires var st := states[|states|-1];
             id in st.callers && CallerStep(hash, pin, st, Moved(st, id, pc, st.file, st.marker, owner), id, Go)
    ensures IsHistory(hash, pin, more) && states <= more && |more| == |states| + 1
    ensures var st := states[|states|-1]; more[|states|] == Moved(st, id, pc, st.file, st.marker, owner)
  {
    var st := states[|states|-1];
    hide IsHistory, CallerStep;
    OneStepMore(hash, pin, states, Moved(st, id, pc, st.file, st.marker, owner), id, Go);
    more := states + [Moved(st, id, pc, st.file, st.marker, owner)];
  }

  /** A dead process blocks nobody: its lock is dropped, and file and marker stay as they are. */
  lemma DeathUnlocks<B(!new)>(hash: B -> string, pin: string, states: seq<State<B>>, id: nat) returns (more: seq<State<B>>)
    requires IsHistory(hash, pin, states) && states[|states|-1].owner == Some(id)
    ensures IsHistory(hash, pin, more) && states <= more && |more| == |states| + 1
    ensures more[|states|].owner.None? && id !in more[|states|].callers
    ensures more[|states|].file == states[|states|-1].file && more[|states|].marker == states[|states|-1].marker
  {
    var st := states[|states|-1];
    HistoryInvariant(hash, pin, states, |states| - 1);
    var st' := State(st.file, st.marker, None, st.callers - {id});
    assert CrashStep(st, st', id);
    hide IsHistory;
    OneMoreState(hash, pin, states, st');
    more := states + [st'];
  }

  lemma TakesLock<B(!new)>(hash: B -> string, pin: string, states: seq<State<B>>, id: nat, urls: nat) returns (more: seq<State<B>>)
    requires IsHistory(hash, pin, states) && id !in states[|states|-1].callers
    requires states[|states|-1].owner.None? && states[|states|-1].file.None?
    ensures IsHistory(hash, pin, more) && states <= more && IsAt(more, |more|-1, id, LockedMarker)
    ensures var st := more[|more|-1]; st.owner == Some(id) && st.file.None? && st.callers[id].urls == urls && !st.callers[id].offline
  {
    more := CallMade(hash, pin, states, id, urls, false);
    hide IsHistory;
    if more[|more|-1].marker {
      more := Walks(hash, pin, more, id, FastFile, None);
    }
    more := Walks(hash, pin, more, id, WantLock, None);
    more := Walks(hash, pin, more, id, LockedMarker, Some(id));
  }

  lemma FindsNothing<B(!new)>(hash: B -> string, pin: string, states: seq<State<B>>, id: nat) returns (more: seq<State<B>>)
    requires IsHistory(hash, pin, states) && IsAt(states, |states|-1, id, LockedMarker)
    requires var st := states[|states|-1]; st.owner == Some(id) && st.file.None? && !st.callers[id].offline
    ensures IsHistory(hash, pin, more) && states <= more && IsAt(more, |more|-1, id, Downloading(0, 0))
    ensures more[|more|-1].callers[id].urls == states[|states|-1].callers[id].urls
  {
    assert |states| > 0;
    hide IsHistory;
    more := states;
    if more[|more|-1].marker {
      more := Walks(hash, pin, more, id, LockedFile, Some(id));
    }
    more := Walks(hash, pin, more, id, Hashing, Some(id));
    more := Walks(hash, pin, more, id, Downloading(0, 0), Some(id));
  }

  /** From any state in which nobody holds the lock and there is no file, a new online call can fetch it
      from any mirror of its list. */
  lemma FreshCallFetches<B(!new)>(hash: B -> string, pin: string, states: seq<State<B>>, id: nat, urls: nat, v: nat, bytes: B)
    returns (more: seq<State<B>>)
    requires IsHistory(hash, pin, states) && id !in states[|states|-1].callers && v < urls && hash(bytes) == pin
    requires states[|states|-1].owner.None? && states[|states|-1].file.None?
    ensures IsHistory(hash, pin, more) && states <= more && IsAt(more, |more|-1, id, Returned(Path))
    ensures more[|more|-1].file == Some(bytes) && more[|more|-1].marker
  {
    assert |states| > 0;
    hide IsHistory;
    more := TakesLock(hash, pin, states, id, urls);
    more := FindsNothing(hash, pin, more, id);
    more := LaterMirrorServes(hash, pin, more, id, 0, 0, v, bytes);
  }

  // ---------------------------------------------------------------- not going at all

  /** Nobody downloads beside a file, or offline; and a path is returned only when it is marked. */
  ghost predicate Sparing<B>(st: State<B>) {
    forall id | id in st.callers ::
      var c := st.callers[id];
      && (c.pc.Downloading? || c.pc.Verifying? || c.pc.Renaming? ==> st.file.None? && !c.offline)
      && (c.pc == Unlocking(Path) || c.pc == Returned(Path) ==> st.marker)
      && (c.pc.Hashing? || c.pc.Removing? ==> !st.marker || st.file.None?)
  }

  lemma SparingStep<B(!new)>(hash: B -> string, pin: string, st: State<B>, st': State<B>)
    requires Invariant(hash, pin, st) && Sparing(st) && Step(hash, pin, st, st')
    ensures Sparing(st')
  {
    var l := LabelOf(hash, pin, st, st');
    match l
    case ByCaller(id, e) => SparingMove(hash, pin, st, st', id, e);
    case ByCrash(id) =>
    case ByCall(id, urls, offline) =>
  }

  lemma SparingMove<B>(hash: B -> string, pin: string, st: State<B>, st': State<B>, id: nat, e: Event<B>)
    requires Invariant(hash, pin, st) && Sparing(st) && CallerStep(hash, pin, st, st', id, e)
    ensures Sparing(st')
  {
    assert CallerOk(hash, pin, st, id);
    forall k | k in st'.callers
      ensures var c := st'.callers[k];
              && (c.pc.Downloading? || c.pc.Verifying? || c.pc.Renaming? ==> st'.file.None? && !c.offline)
              && (c.pc == Unlocking(Path) || c.pc == Returned(Path) ==> st'.marker)
              && (c.pc.Hashing? || c.pc.Removing? ==> !st'.marker || st'.file.None?)
    {
      assert CallerOk(hash, pin, st, k);
    }
  }

  lemma {:induction false} AlwaysSparing<B(!new)>(hash: B -> string, pin: string, states: seq<State<B>>, i: nat)
    requires IsHistory(hash, pin, states) && i < |states|
    ensures Sparing(states[i])
  {
    hide Step, Sparing, Invariant;
    if i == 0 {
      NobodyYet(hash, pin, states[0]);
    } else {
      AlwaysSparing(hash, pin, states, i - 1);
      HistoryInvariant(hash, pin, states, i - 1);
      assert Step(hash, pin, states[i-1], states[i-1+1]);
      SparingStep(hash, pin, states[i-1], states[i]);
    }
  }

  lemma NobodyYet<B>(hash: B -> string, pin: string, st: State<B>)
    requires Start(hash, pin, st)
    ensures Sparing(st)
  {
  }

  /** In every state of every history whoever is downloading found no file there and is online. */
  lemma DownloadsOnlyWhatIsMissing<B(!new)>(hash: B -> string, pin: string, states: seq<State<B>>, i: nat, id: nat)
    requires IsHistory(hash, pin, states) && i < |states| && id in states[i].callers
    requires var pc := states[i].callers[id].pc; pc.Downloading? || pc.Verifying? || pc.Renaming?
    ensures states[i].file.None? && !states[i].callers[id].offline
  {
    AlwaysSparing(hash, pin, states, i);
  }

  /** Nobody hashes or removes a file that is marked. */
  lemma MarkedIsNotHashed<B(!new)>(hash: B -> string, pin: string, states: seq<State<B>>, i: nat, id: nat)
    requires IsHistory(hash, pin, states) && i < |states| && id in states[i].callers
    requires states[i].callers[id].pc.Hashing? || states[i].callers[id].pc.Removing?
    ensures !states[i].marker || states[i].file.None?
  {
    AlwaysSparing(hash, pin, states, i);
  }

  /** A path is returned only for a file that is marked, and a marker stays. */
  lemma {:induction false} PathIsMarked<B(!new)>(hash: B -> string, pin: string, states: seq<State<B>>, i: nat, k: nat, id: nat)
    requires IsHistory(hash, pin, states) && i <= k < |states| && IsAt(states, i, id, Returned(Path))
    ensures states[k].marker
    decreases k
  {
    AlwaysSparing(hash, pin, states, i);
    MarkerStays(hash, pin, states, i, k);
  }

  lemma {:induction false} MarkerStays<B(!new)>(hash: B -> string, pin: string, states: seq<State<B>>, i: nat, k: nat)
    requires IsHistory(hash, pin, states) && i <= k < |states| && states[i].marker
    ensures states[k].marker
    decreases k
  {
    if i < k {
      MarkerStays(hash, pin, states, i, k - 1);
      assert Step(hash, pin, states[k-1], states[k-1+1]);
      var l := LabelOf(hash, pin, states[k-1], states[k]);
      hide NextPc;
    }
  }

  /** A call made once the file is there and marked takes no lock: it looks twice and returns the path. */
  lemma {:induction false} MarkedNeedsNoLock<B(!new)>(hash: B -> string, pin: string, states: seq<State<B>>, labels: seq<Label<B>>,
                                                b: nat, k: nat, id: nat, urls: nat, offline: bool)
    requires IsLabelled(hash, pin, states, labels) && b < k < |states| && labels[b] == ByCall(id, urls, offline)
    requires states[b].marker && states[b].file.Some? && (forall i | b < i < k :: labels[i] != ByCrash(id))
    ensures id in states[k].callers && states[k].callers[id].pc in {FastMarker, FastFile, Returned(Path)}
    decreases k
  {
    hide IsHistory;
    assert Happens(hash, pin, states[k-1], states[k-1+1], labels[k-1]);
    if k > b + 1 {
      MarkedNeedsNoLock(hash, pin, states, labels, b, k - 1, id, urls, offline);
      MarkerStays(hash, pin, states, b, k - 1);
      MarkerVouches(hash, pin, states, b);
      VerifiedForGood(hash, pin, states, b, k - 1);
      if !(labels[k-1].ByCaller? && labels[k-1].id == id) {
        OthersLeave(hash, pin, states[k-1], states[k], labels[k-1], id);
      }
    }
  }
}
