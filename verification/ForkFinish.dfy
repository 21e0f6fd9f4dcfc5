/** Every process can be brought to rest: whatever its threads are doing, their own steps take all of
    them out of their calls. */
module ForkFinish {
  import opened Common
  import opened LockSlots
  import opened ForkLocks

  /** The process after its threads take these steps, one after the other. */
  function After(pid: nat, p: Process, tids: seq<nat>, size: nat): Option<Process>
    requires size > 0
  {
    if tids == [] then Some(p)
    else
      match After(pid, p, tids[..|tids|-1], size)
      case None => None
      case Some(q) =>
        var tid := tids[|tids|-1];
        if tid in q.threads && |q.locks| == NLOCKS then Act(pid, q, tid, Proceed, size) else None
  }

  lemma {:induction false} AfterConcat(pid: nat, p: Process, a: seq<nat>, b: seq<nat>, size: nat)
    requires size > 0 && After(pid, p, a, size).Some?
    ensures After(pid, p, a + b, size) == After(pid, After(pid, p, a, size).value, b, size)
  {
    hide Act;
    if b == [] {
      assert a + b == a;
    } else {
      AfterConcat(pid, p, a, b[..|b|-1], size);
      assert (a + b)[..|a + b|-1] == a + b[..|b|-1];
    }
  }

  lemma AfterOne(pid: nat, p: Process, tid: nat, size: nat)
    requires size > 0 && tid in p.threads && |p.locks| == NLOCKS
    ensures After(pid, p, [tid], size) == Act(pid, p, tid, Proceed, size)
  {
    assert [tid][..0] == [];
  }

  /** What a thread has still to do, compare-and-swaps that fail aside. */
  function WorkOf(t: Thread, size: nat): nat
    requires size > 0
  {
    match t
    case Idle => 0
    case FirstCas(ptr, n, taken) => Waits(ptr, n, taken, size)
    case SecondCas(ptr, n, taken, _) => Waits(ptr, n, taken, size)
    case Critical(ptr, n) => |SlotOrder(ptr, n, size)| + 2
    case Releasing(ptr, n, freed) => (if freed <= |SlotOrder(ptr, n, size)| then |SlotOrder(ptr, n, size)| - freed else 0) + 1
    case Zeroing(next) => (if next <= NLOCKS then NLOCKS - next else 0) + 1
  }

  function Waits(ptr: nat, n: nat, taken: nat, size: nat): nat
    requires size > 0
  {
    var len := |SlotOrder(ptr, n, size)|;
    len + 3 + (if taken <= len then len - taken else 0)
  }

  ghost function Work(p: Process, size: nat): nat
    requires size > 0
  {
    Sum(WorkByThread(p, size))
  }

  ghost function WorkByThread(p: Process, size: nat): map<nat, nat>
    requires size > 0
  {
    map tid | tid in p.threads :: WorkOf(p.threads[tid], size)
  }

  /** One thread went on, the others stayed where they were. */
  ghost predicate OnlyMoved(p: Process, q: Process, tid: nat) {
    && tid in p.threads && q.threads.Keys == p.threads.Keys
    && forall x | x in p.threads && x != tid :: q.threads[x] == p.threads[x]
  }

  lemma ProceedMovesOne(pid: nat, p: Process, tid: nat, size: nat)
    requires size > 0 && tid in p.threads && Consistent(pid, p, size) && Act(pid, p, tid, Proceed, size).Some?
    ensures var q := Act(pid, p, tid, Proceed, size).value;
            Consistent(pid, q, size) && OnlyMoved(p, q, tid) && (q.pending == p.pending || p.threads[tid].Zeroing?)
  {
    ActKeepsConsistent(pid, p, tid, Proceed, size);
    hide Consistent, SlotOrder;
  }

  /** A step of a thread that is past its compare-and-swaps, or has all its slots, is progress. */
  lemma PlainStep(pid: nat, p: Process, tid: nat, size: nat)
    requires size > 0 && tid in p.threads && Consistent(pid, p, size) && !p.threads[tid].Idle?
    requires !p.threads[tid].SecondCas? && Wants(p.threads[tid], size).None?
    ensures var q := Act(pid, p, tid, Proceed, size);
            q.Some? && tid in q.value.threads && WorkOf(q.value.threads[tid], size) < WorkOf(p.threads[tid], size)
  {
    assert InRange(p, p.threads[tid], size);
    if p.threads[tid].Releasing? {
      SlotsAscend(p.threads[tid].ptr, p.threads[tid].n, size);
    }
    hide Consistent, SlotOrder;
  }

  /** A first compare-and-swap on a slot nobody in the process holds takes it, or reads a leftover that
      the second one then replaces. */
  lemma FirstStep(pid: nat, p: Process, tid: nat, size: nat)
    requires size > 0 && tid in p.threads && |p.locks| == NLOCKS && p.threads[tid].FirstCas?
    requires Wants(p.threads[tid], size).Some? && !Blocked(pid, p, tid, size)
    ensures var t := p.threads[tid];
            var q := Act(pid, p, tid, Proceed, size);
            && q.Some? && tid in q.value.threads
            && (q.value.threads[tid] == FirstCas(t.ptr, t.n, t.taken + 1)
                || (exists e :: e != 0 && e != Token(pid) && q.value.threads[tid] == SecondCas(t.ptr, t.n, t.taken, e)
                            && q.value.locks == p.locks && p.locks[Wants(t, size).value] == e))
  {
    SlotsAscend(p.threads[tid].ptr, p.threads[tid].n, size);
    hide SlotOrder;
    var slot := Wants(p.threads[tid], size).value;
    if p.locks[slot] != 0 {
      var e := p.locks[slot];
      assert e != 0 && e != Token(pid);
    }
  }

  lemma SecondStep(pid: nat, p: Process, tid: nat, size: nat)
    requires size > 0 && tid in p.threads && |p.locks| == NLOCKS && p.threads[tid].SecondCas?
    requires Wants(p.threads[tid], size).Some?
    ensures var t := p.threads[tid];
            var q := Act(pid, p, tid, Proceed, size);
            && q.Some? && tid in q.value.threads
            && Wants(t, size).value < NLOCKS
            && (if t.expected != 0 && t.expected != Token(pid) && p.locks[Wants(t, size).value] == t.expected
                then q.value.threads[tid] == FirstCas(t.ptr, t.n, t.taken + 1)
                else q.value.threads[tid] == FirstCas(t.ptr, t.n, t.taken) && q.value.locks == p.locks)
  {
    SlotsAscend(p.threads[tid].ptr, p.threads[tid].n, size);
    hide SlotOrder;
  }

  lemma MoreTakenIsLessWork(ptr: nat, n: nat, taken: nat, size: nat)
    requires size > 0 && taken < |SlotOrder(ptr, n, size)|
    ensures Waits(ptr, n, taken + 1, size) < Waits(ptr, n, taken, size)
  {
    hide SlotOrder;
  }

  /** Up to three steps of an unblocked thread make progress. */
  lemma Macro(pid: nat, p: Process, tid: nat, size: nat) returns (tids: seq<nat>, q: Process)
    requires size > 0 && tid in p.threads && Consistent(pid, p, size) && !p.threads[tid].Idle? && !Blocked(pid, p, tid, size)
    ensures After(pid, p, tids, size) == Some(q) && Consistent(pid, q, size) && OnlyMoved(p, q, tid)
    ensures WorkOf(q.threads[tid], size) < WorkOf(p.threads[tid], size)
    decreases if p.threads[tid].SecondCas? then 1 else 0
  {
    hide Consistent, Act, SlotOrder, After;
    assert |p.locks| == NLOCKS by { TableSize(pid, p, size); }
    var t := p.threads[tid];
    tids := [tid];
    AfterOne(pid, p, tid, size);
    if t.SecondCas? {
      WantsSome(pid, p, tid, size);
      SecondStep(pid, p, tid, size);
      q := Act(pid, p, tid, Proceed, size).value;
      ProceedMovesOne(pid, p, tid, size);
      if q.threads[tid] == FirstCas(t.ptr, t.n, t.taken) {
        var more, r := Macro(pid, q, tid, size);
        AfterConcat(pid, p, tids, more, size);
        tids, q := tids + more, r;
      } else {
        MoreTakenIsLessWork(t.ptr, t.n, t.taken, size);
      }
    } else if Wants(t, size).None? {
      PlainStep(pid, p, tid, size);
      ProceedMovesOne(pid, p, tid, size);
      q := Act(pid, p, tid, Proceed, size).value;
    } else {
      FirstStep(pid, p, tid, size);
      ProceedMovesOne(pid, p, tid, size);
      q := Act(pid, p, tid, Proceed, size).value;
      MoreTakenIsLessWork(t.ptr, t.n, t.taken, size);
      if q.threads[tid].SecondCas? {
        var mid := q;
        SecondStep(pid, mid, tid, size);
        ProceedMovesOne(pid, mid, tid, size);
        AfterOne(pid, mid, tid, size);
        AfterConcat(pid, p, [tid], [tid], size);
        tids, q := [tid] + [tid], Act(pid, mid, tid, Proceed, size).value;
      }
    }
  }

  lemma WantsSome(pid: nat, p: Process, tid: nat, size: nat)
    requires size > 0 && tid in p.threads && Consistent(pid, p, size) && p.threads[tid].SecondCas?
    ensures Wants(p.threads[tid], size).Some?
  {
    assert InRange(p, p.threads[tid], size);
    hide SlotOrder;
  }

  ghost predicate AllIdle(p: Process) {
    forall tid | tid in p.threads :: p.threads[tid].Idle?
  }

  /** Some steps of the threads bring all of them to rest. */
  lemma {:induction false} BringToRest(pid: nat, p: Process, size: nat) returns (tids: seq<nat>, q: Process)
    requires size > 0 && Consistent(pid, p, size)
    ensures After(pid, p, tids, size) == Some(q) && AllIdle(q) && q.threads.Keys == p.threads.Keys
    decreases Work(p, size)
  {
    hide Consistent, Act, After, WorkOf;
    tids, q := [], p;
    assert After(pid, p, [], size) == Some(p) by { NoSteps(pid, p, size); }
    if t0 :| t0 in p.threads && !p.threads[t0].Idle? {
      var t := FollowHolders(pid, p, t0, size);
      var first, mid := Macro(pid, p, t, size);
      SumLess(WorkByThread(p, size), WorkByThread(mid, size), t);
      var rest;
      rest, q := BringToRest(pid, mid, size);
      AfterConcat(pid, p, first, rest, size);
      tids := first + rest;
    }
  }

  lemma NoSteps(pid: nat, p: Process, size: nat)
    requires size > 0
    ensures After(pid, p, [], size) == Some(p)
  {
  }

  // ---------------------------------------------------------------- as histories

  /** Only one process changed. */
  ghost predicate OnlyProcess(s: System, s': System, pid: nat, p: Process) {
    s' == s.(procs := s.procs[pid := p])
  }

  lemma {:induction false} StepsAreHistory(states: seq<System>, pid: nat, tids: seq<nat>) returns (more: seq<System>)
    requires IsHistory(states) && states[|states|-1].size > 0 && pid in states[|states|-1].procs
    requires After(pid, states[|states|-1].procs[pid], tids, states[|states|-1].size).Some?
    ensures IsHistory(states + more)
    ensures var s := states[|states|-1];
            OnlyProcess(s, (states + more)[|states + more|-1], pid, After(pid, s.procs[pid], tids, s.size).value)
    decreases |tids|
  {
    var s := states[|states|-1];
    if tids == [] {
      more := [];
      assert states + more == states;
      assert s.procs[pid := s.procs[pid]] == s.procs;
    } else {
      hide Act, IsHistory;
      var init, tid := tids[..|tids|-1], tids[|tids|-1];
      more := StepsAreHistory(states, pid, init);
      var now := (states + more)[|states + more|-1];
      var q := Act(pid, now.procs[pid], tid, Proceed, s.size).value;
      var next := now.(procs := now.procs[pid := q]);
      assert ThreadStep(now, next, pid, tid);
      OneMoreStep(states + more, next, pid, tid);
      assert states + (more + [next]) == states + more + [next];
      more := more + [next];
      assert next.procs == s.procs[pid := q];
    }
  }

  lemma OneMoreStep(states: seq<System>, next: System, pid: nat, tid: nat)
    requires IsHistory(states) && ThreadStep(states[|states|-1], next, pid, tid)
    ensures IsHistory(states + [next])
  {
    hide ThreadStep, ForkStep, EndStep, Start;
    var more := states + [next];
    forall i | 0 <= i < |more| - 1 ensures Step(more[i], more[i+1]) {
      if i < |states| - 1 {
        assert Step(states[i], states[i+1]);
      } else {
        assert Step(states[i], next);
      }
    }
  }

  /** From any reachable state, steps of a process's threads alone bring all of them out of their
      calls, stale leftovers, handlers and all, and change no other process. */
  lemma CanAlwaysRest(states: seq<System>, pid: nat) returns (more: seq<System>, q: Process)
    requires IsHistory(states) && pid in states[|states|-1].procs
    ensures IsHistory(states + more) && AllIdle(q)
    ensures OnlyProcess(states[|states|-1], (states + more)[|states + more|-1], pid, q)
  {
    var i := |states| - 1;
    var s := states[i];
    HistoryInvariant(states, i);
    hide IsHistory, Consistent, After, AllIdle;
    var tids;
    tids, q := BringToRest(pid, s.procs[pid], s.size);
    more := StepsAreHistory(states, pid, tids);
  }
}
