/** What a forked child can do at once, whatever its copy of the table holds. */
module ForkChild {
  import opened Common
  import opened LockSlots
  import opened ForkLocks
  import opened ForkFinish

  /** The table with some of the slots overwritten. */
  ghost predicate Overwritten(locks: seq<nat>, locks': seq<nat>, slots: seq<nat>, me: nat) {
    && |locks| == |locks'| == NLOCKS
    && forall k | 0 <= k < NLOCKS :: locks'[k] == if k in slots then me else locks[k]
  }

  /** The process with its only thread at `t`. */
  ghost predicate Alone(p: Process, tid: nat, t: Thread) {
    |p.locks| == NLOCKS && p.threads == map[tid := t]
  }

  /** One slot: the first compare-and-swap takes it if it is free, and else the second one steals it. */
  lemma TakeOne(pid: nat, p: Process, tid: nat, size: nat, ptr: nat, n: nat, k: nat) returns (tids: seq<nat>, q: Process)
    requires size > 0 && Alone(p, tid, FirstCas(ptr, n, k)) && k < |SlotOrder(ptr, n, size)|
    requires SlotOrder(ptr, n, size)[k] < NLOCKS && p.locks[SlotOrder(ptr, n, size)[k]] != Token(pid)
    ensures After(pid, p, tids, size) == Some(q) && Alone(q, tid, FirstCas(ptr, n, k + 1)) && q.pending == p.pending
    ensures q.locks == p.locks[SlotOrder(ptr, n, size)[k] := Token(pid)]
  {
    hide SlotOrder, After;
    var slot := SlotOrder(ptr, n, size)[k];
    AfterOne(pid, p, tid, size);
    var mid := Act(pid, p, tid, Proceed, size).value;
    if p.locks[slot] == 0 {
      tids, q := [tid], mid;
    } else {
      AfterOne(pid, mid, tid, size);
      AfterConcat(pid, p, [tid], [tid], size);
      tids, q := [tid] + [tid], Act(pid, mid, tid, Proceed, size).value;
    }
  }

  /** All the slots still to take, and the critical section. */
  lemma {:induction false} TakeRest(pid: nat, p: Process, tid: nat, size: nat, ptr: nat, n: nat, k: nat)
    returns (tids: seq<nat>, q: Process)
    requires size > 0 && Alone(p, tid, FirstCas(ptr, n, k)) && k <= |SlotOrder(ptr, n, size)|
    requires forall i | k <= i < |SlotOrder(ptr, n, size)| ::
               var slot := SlotOrder(ptr, n, size)[i]; slot < NLOCKS ==> p.locks[slot] != Token(pid)
    ensures After(pid, p, tids, size) == Some(q) && Alone(q, tid, Critical(ptr, n)) && q.pending == p.pending
    ensures Overwritten(p.locks, q.locks, SlotOrder(ptr, n, size)[k..], Token(pid))
    decreases |SlotOrder(ptr, n, size)| - k
  {
    SlotsAscend(ptr, n, size);
    hide SlotOrder, After, Act;
    var order := SlotOrder(ptr, n, size);
    if k == |order| {
      tids := [tid];
      AfterOne(pid, p, tid, size);
      q := EnterCritical(pid, p, tid, size, ptr, n);
    } else {
      var first, mid := TakeOne(pid, p, tid, size, ptr, n, k);
      var rest;
      rest, q := TakeRest(pid, mid, tid, size, ptr, n, k + 1);
      AfterConcat(pid, p, first, rest, size);
      tids := first + rest;
      assert order[k..] == [order[k]] + order[k+1..];
    }
  }

  lemma EnterCritical(pid: nat, p: Process, tid: nat, size: nat, ptr: nat, n: nat) returns (q: Process)
    requires size > 0 && Alone(p, tid, FirstCas(ptr, n, |SlotOrder(ptr, n, size)|))
    ensures Act(pid, p, tid, Proceed, size) == Some(q) && q == p.(threads := map[tid := Critical(ptr, n)])
  {
    hide SlotOrder;
    q := Act(pid, p, tid, Proceed, size).value;
  }

  lemma OneMoreSystem(states: seq<System>, next: System)
    requires IsHistory(states) && Step(states[|states|-1], next)
    ensures IsHistory(states + [next])
  {
    hide Step, Start;
    var more := states + [next];
    forall i | 0 <= i < |more| - 1 ensures Step(more[i], more[i+1]) {
      if i < |states| - 1 {
        assert Step(states[i], states[i+1]);
      }
    }
  }

  /** A fork: the child has the calling thread only, idle, and the parent's table. */
  function Child(s: System, pid: nat, tid: nat): Process
    requires pid in s.procs
  {
    Process(s.procs[pid].locks, map[tid := Idle], true)
  }

  ghost predicate CanFork(s: System, pid: nat, tid: nat, child: nat) {
    && pid in s.procs && tid in s.procs[pid].threads && s.procs[pid].threads[tid].Idle?
    && child !in s.procs && Token(child) !in s.procs[pid].locks
  }

  /** A thread outside every call can fork and the child can start a step of its own. */
  lemma Forks(states: seq<System>, pid: nat, tid: nat, child: nat, a: Action, t: Thread) returns (more: seq<System>)
    requires IsHistory(states) && CanFork(states[|states|-1], pid, tid, child)
    requires (a.Begin? && t == FirstCas(a.ptr, a.n, 0)) || (a == RunHandler && t == Zeroing(0))
    ensures IsHistory(states + more) && |more| == 2
    ensures var s := states[|states|-1];
            more[1] == s.(procs := s.procs[child := Child(s, pid, tid).(threads := map[tid := t])])
  {
    var s := states[|states|-1];
    HistoryInvariant(states, |states| - 1);
    var p := Child(s, pid, tid);
    var s1 := s.(procs := s.procs[child := p]);
    assert ForkStep(s, s1, pid, tid, child);
    var q := p.(threads := map[tid := t]);
    assert p.threads[tid := t] == map[tid := t] && |p.locks| == NLOCKS;
    assert Act(child, p, tid, a, s.size) == Some(q);
    var s2 := s1.(procs := s1.procs[child := q]);
    assert ThreadStep(s1, s2, child, tid);
    hide IsHistory, ForkStep, ThreadStep, EndStep, Act, Invariant;
    OneMoreSystem(states, s1);
    OneMoreSystem(states + [s1], s2);
    more := [s1, s2];
    assert states + more == states + [s1] + [s2];
  }

  /** What the child's steps after the first make of the history. */
  lemma GoesOn(states: seq<System>, begun: seq<System>, child: nat, tids: seq<nat>, q: Process) returns (more: seq<System>)
    requires IsHistory(states + begun) && begun != [] && states != []
    requires var s, b := states[|states|-1], begun[|begun|-1];
             && child in b.procs && b == s.(procs := s.procs[child := b.procs[child]]) && s.size > 0
             && After(child, b.procs[child], tids, s.size) == Some(q)
    ensures IsHistory(states + more) && more != []
    ensures var s := states[|states|-1]; more[|more|-1] == s.(procs := s.procs[child := q])
  {
    hide IsHistory, After;
    var s, b := states[|states|-1], begun[|begun|-1];
    EndsWith(states, begun);
    var rest := StepsAreHistory(states + begun, child, tids);
    Regroup(states, begun, rest);
    more := begun + rest;
    EndsWith(states, more);
    assert s.procs[child := b.procs[child]][child := q] == s.procs[child := q];
  }

  lemma TableOf(states: seq<System>, pid: nat)
    requires IsHistory(states) && pid in states[|states|-1].procs
    ensures var s := states[|states|-1]; s.size > 0 && |s.procs[pid].locks| == NLOCKS
  {
    HistoryInvariant(states, |states| - 1);
  }

  /** A child never waits for locks its parent's threads held: before its handler has run, its only
      thread can take every range there is, and holds then exactly the slots of that range; what the
      table held elsewhere, and every other process, is as it was. */
  lemma ChildGetsThrough(states: seq<System>, pid: nat, tid: nat, child: nat, ptr: nat, n: nat) returns (more: seq<System>)
    requires IsHistory(states) && CanFork(states[|states|-1], pid, tid, child)
    ensures IsHistory(states + more) && more != []
    ensures var s, s' := states[|states|-1], more[|more|-1];
            && child in s'.procs && s' == s.(procs := s.procs[child := s'.procs[child]])
            && s.size > 0 && Alone(s'.procs[child], tid, Critical(ptr, n))
            && Overwritten(s.procs[pid].locks, s'.procs[child].locks, SlotOrder(ptr, n, s.size), Token(child))
  {
    var s := states[|states|-1];
    TableOf(states, pid);
    var begun := Forks(states, pid, tid, child, Begin(ptr, n), FirstCas(ptr, n, 0));
    hide IsHistory, SlotOrder, After, CanFork;
    var p := begun[1].procs[child];
    var tids, q := TakeRest(child, p, tid, s.size, ptr, n, 0);
    assert SlotOrder(ptr, n, s.size)[0..] == SlotOrder(ptr, n, s.size);
    more := GoesOn(states, begun, child, tids, q);
  }

  /** The handler clears the table and ends. */
  lemma {:induction false} ZeroRest(pid: nat, p: Process, tid: nat, size: nat, next: nat) returns (tids: seq<nat>, q: Process)
    requires size > 0 && Alone(p, tid, Zeroing(next)) && next <= NLOCKS && forall k | 0 <= k < next :: p.locks[k] == 0
    ensures After(pid, p, tids, size) == Some(q) && Alone(q, tid, Idle) && !q.pending
    ensures forall k | 0 <= k < NLOCKS :: q.locks[k] == 0
    decreases NLOCKS - next
  {
    hide After;
    tids := [tid];
    AfterOne(pid, p, tid, size);
    q := Act(pid, p, tid, Proceed, size).value;
    assert p.threads[tid := Idle] == map[tid := Idle];
    if next < NLOCKS {
      assert p.threads[tid := Zeroing(next + 1)] == map[tid := Zeroing(next + 1)];
      var rest, r := ZeroRest(pid, q, tid, size, next + 1);
      AfterConcat(pid, p, tids, rest, size);
      tids, q := tids + rest, r;
    }
  }

  /** The child handler can run at once, and leaves the child as a new program is: one idle thread and a
      table of zeros. No other process changes. */
  lemma HandlerClears(states: seq<System>, pid: nat, tid: nat, child: nat) returns (more: seq<System>)
    requires IsHistory(states) && CanFork(states[|states|-1], pid, tid, child)
    ensures IsHistory(states + more) && more != []
    ensures var s, s' := states[|states|-1], more[|more|-1];
            && child in s'.procs && s' == s.(procs := s.procs[child := s'.procs[child]])
            && Alone(s'.procs[child], tid, Idle) && !s'.procs[child].pending
            && forall k | 0 <= k < NLOCKS :: s'.procs[child].locks[k] == 0
  {
    TableOf(states, pid);
    var begun := Forks(states, pid, tid, child, RunHandler, Zeroing(0));
    hide IsHistory, After, CanFork;
    var p := begun[1].procs[child];
    var tids, q := ZeroRest(child, p, tid, states[|states|-1].size, 0);
    more := GoesOn(states, begun, child, tids, q);
  }

  /** Threads and processes come and go: an idle thread of a process whose handler has run can start
      another or end, and a process can end whatever its threads are doing. */
  lemma ComeAndGo(states: seq<System>, pid: nat, tid: nat, other: nat)
    requires IsHistory(states) && pid in states[|states|-1].procs
    ensures var s := states[|states|-1]; IsHistory(states + [s.(procs := s.procs - {pid})])
    ensures var s := states[|states|-1];
            var p := s.procs[pid];
            tid in p.threads && p.threads[tid].Idle? && !p.pending ==>
              && IsHistory(states + [s.(procs := s.procs[pid := p.(threads := p.threads - {tid})])])
              && (other !in p.threads ==>
                    IsHistory(states + [s.(procs := s.procs[pid := p.(threads := p.threads[other := Idle])])]))
  {
    var s := states[|states|-1];
    var p := s.procs[pid];
    HistoryInvariant(states, |states| - 1);
    assert |p.locks| == NLOCKS && s.size > 0;
    var ended := s.(procs := s.procs - {pid});
    assert EndStep(s, ended, pid);
    if tid in p.threads && p.threads[tid].Idle? && !p.pending {
      var left := s.(procs := s.procs[pid := p.(threads := p.threads - {tid})]);
      assert Act(pid, p, tid, Exit, s.size) == Some(left.procs[pid]);
      assert ThreadStep(s, left, pid, tid);
      if other !in p.threads {
        var joined := s.(procs := s.procs[pid := p.(threads := p.threads[other := Idle])]);
        assert Act(pid, p, tid, Spawn(other), s.size) == Some(joined.procs[pid]);
        assert ThreadStep(s, joined, pid, tid);
        hide IsHistory, ForkStep, ThreadStep, EndStep, Act, Invariant;
        OneMoreSystem(states, joined);
      }
      hide IsHistory, ForkStep, ThreadStep, EndStep, Act, Invariant;
      OneMoreSystem(states, left);
    }
    hide IsHistory, ForkStep, ThreadStep, EndStep, Act, Invariant;
    OneMoreSystem(states, ended);
  }

  lemma EndsWith(a: seq<System>, b: seq<System>)
    requires b != []
    ensures (a + b)[|a + b|-1] == b[|b|-1]
  {
  }
}
