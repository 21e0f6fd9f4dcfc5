/** The lock table of libat_atfork.c in a tree of forking processes, one compare-and-swap, store
    or fork per step. */
module ForkLocks {
  import opened Common
  import opened LockSlots

  /** Where a thread is. The slots of [ptr, ptr + n) are taken in the order of `SlotOrder`. */
  datatype Thread =
    | Idle
    | FirstCas(ptr: nat, n: nat, taken: nat)                   // about to try 0 -> me on the next slot
    | SecondCas(ptr: nat, n: nat, taken: nat, expected: nat)   // saw `expected`, about to steal or yield
    | Critical(ptr: nat, n: nat)
    | Releasing(ptr: nat, n: nat, freed: nat)
    | Zeroing(next: nat)                                       // inside `atfork_child`

  /** A process: its copy of the table, its live threads, and whether the child handler is still to
      run to its end. */
  datatype Process = Process(locks: seq<nat>, threads: map<nat, Thread>, pending: bool)

  /** Processes by pid; `size` is one more than the largest `size_t`. */
  datatype System = System(size: nat, procs: map<nat, Process>)

  /** `self_token`. */
  function Token(pid: nat): (r: nat)
    ensures r != 0
  {
    if pid == 0 then 1 else pid
  }

  /** The slots a thread holds: those its own compare-and-swaps won and it has not cleared yet. */
  function HeldBy(t: Thread, size: nat): seq<nat>
    requires size > 0
  {
    match t
    case FirstCas(p, n, taken) => Take(SlotOrder(p, n, size), taken)
    case SecondCas(p, n, taken, _) => Take(SlotOrder(p, n, size), taken)
    case Critical(p, n) => SlotOrder(p, n, size)
    case Releasing(p, n, freed) => Drop(SlotOrder(p, n, size), freed)
    case _ => []
  }

  function Take(s: seq<nat>, k: nat): seq<nat> {
    if k <= |s| then s[..k] else s
  }

  function Drop(s: seq<nat>, k: nat): seq<nat> {
    if k <= |s| then s[k..] else []
  }

  // ---------------------------------------------------------------- steps

  datatype Action =
    | Begin(ptr: nat, n: nat)     // call libat_lock_n
    | Proceed                     // the next instruction of the thread
    | RunHandler                  // the child handler starts
    | Spawn(tid: nat)
    | Exit

  /** One thread's next table, its next state, and the process around it. */
  function Act(pid: nat, p: Process, tid: nat, a: Action, size: nat): Option<Process>
    requires size > 0 && tid in p.threads && |p.locks| == NLOCKS
  {
    var me := Token(pid);
    var move := (locks: seq<nat>, t: Thread) => Some(p.(locks := locks, threads := p.threads[tid := t]));
    match (p.threads[tid], a)
    case (Idle, Begin(ptr, n)) => move(p.locks, FirstCas(ptr, n, 0))
    case (Idle, RunHandler) => if p.pending then move(p.locks, Zeroing(0)) else None
    case (Idle, Spawn(other)) =>
      if p.pending || other in p.threads then None else Some(p.(threads := p.threads[other := Idle]))
    case (Idle, Exit) => if p.pending then None else Some(p.(threads := p.threads - {tid}))
    case (FirstCas(ptr, n, taken), Proceed) =>
      var order := SlotOrder(ptr, n, size);
      if taken >= |order| then move(p.locks, Critical(ptr, n))
      else if order[taken] >= NLOCKS then None
      else if p.locks[order[taken]] == 0 then
        move(p.locks[order[taken] := me], FirstCas(ptr, n, taken + 1))
      else move(p.locks, SecondCas(ptr, n, taken, p.locks[order[taken]]))
    case (SecondCas(ptr, n, taken, expected), Proceed) =>
      var order := SlotOrder(ptr, n, size);
      if taken >= |order| || order[taken] >= NLOCKS then None
      else if expected != 0 && expected != me && p.locks[order[taken]] == expected then
        move(p.locks[order[taken] := me], FirstCas(ptr, n, taken + 1))
      else move(p.locks, FirstCas(ptr, n, taken))
    case (Critical(ptr, n), Proceed) => move(p.locks, Releasing(ptr, n, 0))
    case (Releasing(ptr, n, freed), Proceed) =>
      var order := SlotOrder(ptr, n, size);
      if freed >= |order| then move(p.locks, Idle)
      else if order[freed] >= NLOCKS then None
      else move(p.locks[order[freed] := 0], Releasing(ptr, n, freed + 1))
    case (Zeroing(next), Proceed) =>
      if next < NLOCKS then move(p.locks[next := 0], Zeroing(next + 1))
      else Some(Process(p.locks, p.threads[tid := Idle], false))
    case _ => None
  }

  ghost predicate ThreadStep(s: System, s': System, pid: nat, tid: nat) {
    && pid in s.procs && tid in s.procs[pid].threads && |s.procs[pid].locks| == NLOCKS && s.size > 0
    && exists a :: var p := Act(pid, s.procs[pid], tid, a, s.size);
         p.Some? && s' == s.(procs := s.procs[pid := p.value])
  }

  /** fork(): the child gets the table and the calling thread only. Its pid is new, and differs
      from whatever stale word the copied table holds. */
  ghost predicate ForkStep(s: System, s': System, pid: nat, tid: nat, child: nat) {
    && pid in s.procs && tid in s.procs[pid].threads && s.procs[pid].threads[tid].Idle?
    && child !in s.procs && Token(child) !in s.procs[pid].locks
    && s' == s.(procs := s.procs[child := Process(s.procs[pid].locks, map[tid := Idle], true)])
  }

  /** A process ends; its pid may be used again. */
  ghost predicate EndStep(s: System, s': System, pid: nat) {
    pid in s.procs && s' == s.(procs := s.procs - {pid})
  }

  ghost predicate Step(s: System, s': System) {
    || (exists pid, tid :: ThreadStep(s, s', pid, tid))
    || (exists pid, tid, child :: ForkStep(s, s', pid, tid, child))
    || (exists pid :: EndStep(s, s', pid))
  }

  /** A program starts with one thread and a table of zeros. */
  ghost predicate Start(s: System) {
    && s.size > NLOCKS * WATCH_SIZE
    && forall pid | pid in s.procs ::
         exists tid :: s.procs[pid] == Process(seq(NLOCKS, _ => 0), map[tid := Idle], false)
  }

  ghost predicate IsHistory(states: seq<System>) {
    |states| > 0 && Start(states[0]) && forall i | 0 <= i < |states| - 1 :: Step(states[i], states[i+1])
  }

  // ---------------------------------------------------------------- the invariant

  ghost predicate Holds(p: Process, tid: nat, slot: nat, size: nat)
    requires size > 0
  {
    tid in p.threads && slot in HeldBy(p.threads[tid], size)
  }

  /** Loop counters stay in range, and nothing is zeroed outside the handler. */
  ghost predicate InRange(p: Process, t: Thread, size: nat)
    requires size > 0
  {
    match t
    case FirstCas(ptr, n, taken) => taken <= |SlotOrder(ptr, n, size)|
    case SecondCas(ptr, n, taken, expected) => taken < |SlotOrder(ptr, n, size)| && expected != 0
    case Releasing(ptr, n, freed) => freed <= |SlotOrder(ptr, n, size)|
    case Zeroing(next) => p.pending && next <= NLOCKS && |p.locks| == NLOCKS && forall k | 0 <= k < next :: p.locks[k] == 0
    case _ => true
  }

  ghost predicate Consistent(pid: nat, p: Process, size: nat)
    requires size > 0
  {
    && |p.locks| == NLOCKS
    && (forall tid | tid in p.threads :: InRange(p, p.threads[tid], size))
    && (forall slot | 0 <= slot < NLOCKS :: p.locks[slot] == Token(pid) <==> exists tid :: Holds(p, tid, slot, size))
    && (forall a, b, slot | Holds(p, a, slot, size) && Holds(p, b, slot, size) :: a == b)
    && (p.pending ==> forall a, b | a in p.threads && b in p.threads :: a == b)
    && (!p.pending ==> forall slot | 0 <= slot < NLOCKS :: p.locks[slot] == 0 || p.locks[slot] == Token(pid))
  }

  ghost predicate Invariant(s: System) {
    s.size > NLOCKS * WATCH_SIZE && forall pid | pid in s.procs :: Consistent(pid, s.procs[pid], s.size)
  }

  /** What a thread's move does to the slots it holds, and to the table. */
  datatype Change = Keeps | Gains(slot: nat) | Frees(slot: nat) | Zeros(slot: nat)

  function ChangeOf(pid: nat, p: Process, tid: nat, a: Action, size: nat): Change
    requires size > 0 && tid in p.threads && |p.locks| == NLOCKS && Act(pid, p, tid, a, size).Some?
  {
    var me := Token(pid);
    match p.threads[tid]
    case FirstCas(ptr, n, taken) =>
      var order := SlotOrder(ptr, n, size);
      if taken < |order| && order[taken] < NLOCKS && p.locks[order[taken]] == 0 then Gains(order[taken]) else Keeps
    case SecondCas(ptr, n, taken, expected) =>
      var order := SlotOrder(ptr, n, size);
      if taken < |order| && order[taken] < NLOCKS && expected != 0 && expected != me && p.locks[order[taken]] == expected
      then Gains(order[taken]) else Keeps
    case Releasing(ptr, n, freed) =>
      var order := SlotOrder(ptr, n, size);
      if freed < |order| then Frees(order[freed]) else Keeps
    case Zeroing(next) => if next < NLOCKS then Zeros(next) else Keeps
    case _ => Keeps
  }

  /** The table after a change. */
  function Changed(locks: seq<nat>, c: Change, me: nat): seq<nat>
    requires |locks| == NLOCKS
  {
    match c
    case Keeps => locks
    case Gains(k) => if k < NLOCKS then locks[k := me] else locks
    case Frees(k) => if k < NLOCKS then locks[k := 0] else locks
    case Zeros(k) => if k < NLOCKS then locks[k := 0] else locks
  }

  lemma ActChanges(pid: nat, p: Process, tid: nat, a: Action, size: nat)
    requires size > 0 && tid in p.threads && |p.locks| == NLOCKS && Act(pid, p, tid, a, size).Some?
    ensures var p' := Act(pid, p, tid, a, size).value;
            var c := ChangeOf(pid, p, tid, a, size);
            && p'.locks == Changed(p.locks, c, Token(pid))
            && (c.Gains? || c.Frees? || c.Zeros? ==> c.slot < NLOCKS)
            && (c.Gains? ==> p.locks[c.slot] != Token(pid))
            && (c.Zeros? ==> p.threads[tid].Zeroing?)
  {
    hide SlotOrder;
  }

  /** The threads after a move: others are as they were, and a spawned one is idle. */
  lemma OthersKept(pid: nat, p: Process, tid: nat, a: Action, size: nat)
    requires size > 0 && tid in p.threads && |p.locks| == NLOCKS && Act(pid, p, tid, a, size).Some?
    requires InRange(p, p.threads[tid], size)
    ensures var p' := Act(pid, p, tid, a, size).value;
            && (forall x | x in p.threads && x != tid :: x in p'.threads && p'.threads[x] == p.threads[x])
            && (forall x | x in p'.threads && x !in p.threads :: p'.threads[x] == Idle && !p.pending)
            && (tid !in p'.threads ==> p.threads[tid].Idle? && !p.pending)
            && (p'.pending != p.pending ==>
                  p.pending && p.threads[tid] == Zeroing(NLOCKS) && p'.locks == p.locks && p'.threads[tid] == Idle)
            && (p.threads[tid].Zeroing? ==> a == Proceed)
  {
    hide SlotOrder;
    if p.threads[tid].Zeroing? {
      assert a == Proceed;
    }
  }

  /** The slots the moving thread holds after a compare-and-swap. */
  lemma HeldAfterTrying(pid: nat, p: Process, tid: nat, a: Action, size: nat, slot: nat)
    requires size > 0 && tid in p.threads && |p.locks| == NLOCKS && Act(pid, p, tid, a, size).Some?
    requires p.threads[tid].FirstCas? || p.threads[tid].SecondCas?
    ensures var p' := Act(pid, p, tid, a, size).value;
            var c := ChangeOf(pid, p, tid, a, size);
            Holds(p', tid, slot, size) <==>
              ((Holds(p, tid, slot, size) && c != Frees(slot)) || c == Gains(slot))
  {
    hide SlotOrder, Take, Drop;
    match p.threads[tid]
    case FirstCas(ptr, n, taken) => TakeMore(SlotOrder(ptr, n, size), taken);
    case SecondCas(ptr, n, taken, expected) => TakeMore(SlotOrder(ptr, n, size), taken);
  }

  /** The slots the moving thread holds afterwards. */
  lemma HeldAfter(pid: nat, p: Process, tid: nat, a: Action, size: nat, slot: nat)
    requires size > 0 && tid in p.threads && |p.locks| == NLOCKS && Act(pid, p, tid, a, size).Some?
    requires InRange(p, p.threads[tid], size)
    ensures var p' := Act(pid, p, tid, a, size).value;
            var c := ChangeOf(pid, p, tid, a, size);
            Holds(p', tid, slot, size) <==>
              ((Holds(p, tid, slot, size) && c != Frees(slot)) || c == Gains(slot))
  {
    hide SlotOrder, Take, Drop;
    match p.threads[tid]
    case FirstCas(_, _, _) => HeldAfterTrying(pid, p, tid, a, size, slot);
    case SecondCas(_, _, _, _) => HeldAfterTrying(pid, p, tid, a, size, slot);
    case Critical(ptr, n) => 
      SlotsAscend(ptr, n, size);
      DropMore(SlotOrder(ptr, n, size), 0);
    case Releasing(ptr, n, freed) =>
      SlotsAscend(ptr, n, size);
      DropMore(SlotOrder(ptr, n, size), freed);
    case Idle =>
      if a.Begin? {
        TakeMore(SlotOrder(a.ptr, a.n, size), 0);
      }
    case Zeroing(next) =>
  }

  lemma TakeMore(s: seq<nat>, k: nat)
    ensures k < |s| ==> Take(s, k + 1) == Take(s, k) + [s[k]]
    ensures k >= |s| ==> Take(s, k) == s
    ensures Take(s, 0) == []
  {
  }

  lemma DropMore(s: seq<nat>, k: nat)
    requires forall i, j | 0 <= i < j < |s| :: s[i] < s[j]
    ensures k < |s| ==> Drop(s, k) == [s[k]] + Drop(s, k + 1) && s[k] !in Drop(s, k + 1)
    ensures k >= |s| ==> Drop(s, k) == []
    ensures Drop(s, 0) == s
  {
  }

  lemma RangeAfter(pid: nat, p: Process, tid: nat, a: Action, size: nat, x: nat)
    requires size > 0 && tid in p.threads && Consistent(pid, p, size) && Act(pid, p, tid, a, size).Some?
    ensures var p' := Act(pid, p, tid, a, size).value; x in p'.threads ==> InRange(p', p'.threads[x], size)
  {
    hide SlotOrder;
    assert InRange(p, p.threads[tid], size);
    OthersKept(pid, p, tid, a, size);
    if x in p.threads {
      assert InRange(p, p.threads[x], size);
    }
  }

  /** Who holds what after a move. */
  lemma HoldsAfter(pid: nat, p: Process, tid: nat, a: Action, size: nat, x: nat, slot: nat)
    requires size > 0 && tid in p.threads && Consistent(pid, p, size) && Act(pid, p, tid, a, size).Some?
    ensures var p' := Act(pid, p, tid, a, size).value;
            var c := ChangeOf(pid, p, tid, a, size);
            Holds(p', x, slot, size) <==>
              if x == tid then (Holds(p, x, slot, size) && c != Frees(slot)) || c == Gains(slot)
              else Holds(p, x, slot, size)
  {
    hide Act, ChangeOf, SlotOrder, Take, Drop;
    assert InRange(p, p.threads[tid], size);
    OthersKept(pid, p, tid, a, size);
    HeldAfter(pid, p, tid, a, size, slot);
  }

  lemma FreesItsOwn(pid: nat, p: Process, tid: nat, a: Action, size: nat)
    requires size > 0 && tid in p.threads && |p.locks| == NLOCKS && Act(pid, p, tid, a, size).Some?
    ensures var c := ChangeOf(pid, p, tid, a, size); c.Frees? ==> Holds(p, tid, c.slot, size)
  {
    hide SlotOrder;
  }

  /** Everything a thread does keeps its process consistent. */
  lemma ActKeepsConsistent(pid: nat, p: Process, tid: nat, a: Action, size: nat)
    requires size > 0 && tid in p.threads && Consistent(pid, p, size) && Act(pid, p, tid, a, size).Some?
    ensures Consistent(pid, Act(pid, p, tid, a, size).value, size)
  {
    hide Act, ChangeOf, InRange, Holds;
    var p' := Act(pid, p, tid, a, size).value;
    ActChanges(pid, p, tid, a, size);
    forall x | x in p'.threads ensures InRange(p', p'.threads[x], size) {
      RangeAfter(pid, p, tid, a, size, x);
    }
    forall slot: nat | slot < NLOCKS
      ensures p'.locks[slot] == Token(pid) <==> exists x :: Holds(p', x, slot, size)
    {
      SlotAfter(pid, p, tid, a, size, slot);
    }
    forall x: nat, y: nat, slot: nat | Holds(p', x, slot, size) && Holds(p', y, slot, size) ensures x == y {
      HoldsAfter(pid, p, tid, a, size, x, slot);
      HoldsAfter(pid, p, tid, a, size, y, slot);
    }
    HandlerAfter(pid, p, tid, a, size);
  }

  /** A slot carries the own token exactly while some live thread holds it. */
  lemma SlotAfter(pid: nat, p: Process, tid: nat, a: Action, size: nat, slot: nat)
    requires size > 0 && tid in p.threads && Consistent(pid, p, size) && Act(pid, p, tid, a, size).Some?
    requires slot < NLOCKS
    ensures var p' := Act(pid, p, tid, a, size).value;
            |p'.locks| == NLOCKS && (p'.locks[slot] == Token(pid) <==> exists x :: Holds(p', x, slot, size))
  {
    hide Act, ChangeOf, InRange, Holds;
    var p' := Act(pid, p, tid, a, size).value;
    var c := ChangeOf(pid, p, tid, a, size);
    ActChanges(pid, p, tid, a, size);
    FreesItsOwn(pid, p, tid, a, size);
    if c.Zeros? {
      AloneAndIdle(pid, p, tid, size);
    }
    forall x: nat ensures Holds(p', x, slot, size) <==>
              if x == tid then (Holds(p, x, slot, size) && c != Frees(slot)) || c == Gains(slot)
              else Holds(p, x, slot, size)
    {
      HoldsAfter(pid, p, tid, a, size, x, slot);
    }
    if c == Gains(slot) {
      assert Holds(p', tid, slot, size);
    } else if p'.locks[slot] == Token(pid) {
      var x: nat :| Holds(p, x, slot, size);
      assert Holds(p', x, slot, size);
    }
    if x: nat :| Holds(p', x, slot, size) {
      assert c == Gains(slot) || Holds(p, x, slot, size);
    }
  }

  /** While the handler zeroes, its thread is alone and holds nothing. */
  lemma AloneAndIdle(pid: nat, p: Process, tid: nat, size: nat)
    requires size > 0 && tid in p.threads && Consistent(pid, p, size) && p.threads[tid].Zeroing?
    ensures p.pending && forall x, slot :: !Holds(p, x, slot, size)
  {
    assert InRange(p, p.threads[tid], size);
  }

  /** Threads appear only once the handler is done, and it is done only when every word is zero. */
  lemma HandlerAfter(pid: nat, p: Process, tid: nat, a: Action, size: nat)
    requires size > 0 && tid in p.threads && Consistent(pid, p, size) && Act(pid, p, tid, a, size).Some?
    ensures var p' := Act(pid, p, tid, a, size).value;
            && (p'.pending ==> forall x, y | x in p'.threads && y in p'.threads :: x == y)
            && |p'.locks| == NLOCKS
            && (!p'.pending ==> forall slot | 0 <= slot < NLOCKS :: p'.locks[slot] == 0 || p'.locks[slot] == Token(pid))
  {
    hide Act, ChangeOf, Holds;
    assert InRange(p, p.threads[tid], size);
    ActChanges(pid, p, tid, a, size);
    OthersKept(pid, p, tid, a, size);
  }

  // ---------------------------------------------------------------- every step keeps it

  lemma ForkKeepsConsistent(p: Process, tid: nat, child: nat, size: nat)
    requires size > 0 && |p.locks| == NLOCKS && Token(child) !in p.locks
    ensures Consistent(child, Process(p.locks, map[tid := Idle], true), size)
  {
  }

  lemma StartInvariant(s: System)
    requires Start(s)
    ensures Invariant(s)
  {
    forall pid | pid in s.procs ensures Consistent(pid, s.procs[pid], s.size) {
      var tid: nat :| s.procs[pid] == Process(seq(NLOCKS, _ => 0), map[tid := Idle], false);
    }
  }

  lemma StepKeepsInvariant(s: System, s': System)
    requires Step(s, s') && Invariant(s)
    ensures Invariant(s')
  {
    hide Act, Consistent;
    if pid: nat, tid: nat :| ThreadStep(s, s', pid, tid) {
      var a :| Act(pid, s.procs[pid], tid, a, s.size).Some? &&
               s' == s.(procs := s.procs[pid := Act(pid, s.procs[pid], tid, a, s.size).value]);
      ActKeepsConsistent(pid, s.procs[pid], tid, a, s.size);
    } else if pid: nat, tid: nat, child: nat :| ForkStep(s, s', pid, tid, child) {
      TableSize(pid, s.procs[pid], s.size);
      ForkKeepsConsistent(s.procs[pid], tid, child, s.size);
    }
  }

  lemma TableSize(pid: nat, p: Process, size: nat)
    requires size > 0 && Consistent(pid, p, size)
    ensures |p.locks| == NLOCKS
  {
  }

  lemma {:induction false} HistoryInvariant(states: seq<System>, i: nat)
    requires IsHistory(states) && i < |states|
    ensures Invariant(states[i])
  {
    hide Invariant, Step, Start;
    if i == 0 {
      StartInvariant(states[0]);
    } else {
      HistoryInvariant(states, i - 1);
      assert Step(states[i-1], states[i-1+1]);
      StepKeepsInvariant(states[i-1], states[i]);
    }
  }

  // ---------------------------------------------------------------- the guarantees

  /** Fork-aware mutual exclusion: a word equal to the process's own token has exactly one live
      holder in that process; any other word, stale leftovers included, has none. */
  lemma ForkAwareExclusion(states: seq<System>, i: nat, pid: nat, slot: nat)
    requires IsHistory(states) && i < |states| && pid in states[i].procs && slot < NLOCKS && states[i].size > 0
    ensures |states[i].procs[pid].locks| == NLOCKS
    ensures var p, size := states[i].procs[pid], states[i].size;
            if p.locks[slot] == Token(pid) then
              exists tid :: Holds(p, tid, slot, size) && forall other | Holds(p, other, slot, size) :: other == tid
            else forall tid :: !Holds(p, tid, slot, size)
  {
    HistoryInvariant(states, i);
    hide Holds, InRange;
    assert Consistent(pid, states[i].procs[pid], states[i].size);
  }

  /** A steal never takes a slot that a live thread of the process holds. */
  lemma StealsOnlyLeftovers(states: seq<System>, i: nat, pid: nat, tid: nat, slot: nat)
    requires IsHistory(states) && i < |states| && pid in states[i].procs && states[i].size > 0
    requires var p := states[i].procs[pid];
             && tid in p.threads && |p.locks| == NLOCKS && p.threads[tid].SecondCas?
             && Act(pid, p, tid, Proceed, states[i].size).Some?
             && ChangeOf(pid, p, tid, Proceed, states[i].size) == Gains(slot)
    ensures forall x :: !Holds(states[i].procs[pid], x, slot, states[i].size)
    ensures slot < NLOCKS && states[i].procs[pid].locks[slot] != 0
  {
    ForkAwareExclusion(states, i, pid, if slot < NLOCKS then slot else 0);
    hide Holds, SlotOrder;
  }

  /** Two threads of one process are never inside overlapping byte ranges. */
  lemma CriticalRangesDisjoint(states: seq<System>, i: nat, pid: nat, t: nat, u: nat, b: nat)
    requires IsHistory(states) && i < |states| && pid in states[i].procs
    requires t in states[i].procs[pid].threads && u in states[i].procs[pid].threads && t != u
    requires states[i].procs[pid].threads[t].Critical? && states[i].procs[pid].threads[u].Critical?
    requires Fits(states[i].procs[pid].threads[t], states[i].size) && Fits(states[i].procs[pid].threads[u], states[i].size)
    ensures !InRangeOf(states[i].procs[pid].threads[t], b) || !InRangeOf(states[i].procs[pid].threads[u], b)
  {
    hide Consistent, Holds, InRange, SlotOrder, Step, Start;
    HistoryInvariant(states, i);
    var p, size := states[i].procs[pid], states[i].size;
    var x, y := p.threads[t], p.threads[u];
    if InRangeOf(x, b) && InRangeOf(y, b) {
      OverlapSharesSlot(x.ptr, x.n, y.ptr, y.n, size, b);
      CriticalHolds(p, t, AddrHash(b), size);
      CriticalHolds(p, u, AddrHash(b), size);
      OneHolder(pid, p, t, u, AddrHash(b), size);
    }
  }

  lemma CriticalHolds(p: Process, t: nat, slot: nat, size: nat)
    requires size > 0 && t in p.threads && p.threads[t].Critical?
    requires slot in SlotOrder(p.threads[t].ptr, p.threads[t].n, size)
    ensures Holds(p, t, slot, size)
  {
    hide SlotOrder;
  }

  lemma OneHolder(pid: nat, p: Process, t: nat, u: nat, slot: nat, size: nat)
    requires size > 0 && Consistent(pid, p, size) && Holds(p, t, slot, size) && Holds(p, u, slot, size)
    ensures t == u
  {
    hide Holds;
  }

  /** The range of a call lies in memory and its slot count does not overflow. */
  ghost predicate Fits(t: Thread, size: nat)
    requires t.Critical?
  {
    t.ptr + t.n <= size && t.n + t.ptr % WATCH_SIZE + WATCH_SIZE - 1 < size
  }

  ghost predicate InRangeOf(t: Thread, b: nat)
    requires t.Critical?
  {
    t.ptr <= b < t.ptr + t.n
  }

  /** A thread is blocked when the slot it wants next carries its own process's token. */
  ghost predicate Blocked(pid: nat, p: Process, tid: nat, size: nat)
    requires size > 0
  {
    tid in p.threads && Wants(p.threads[tid], size).Some? &&
    var slot := Wants(p.threads[tid], size).value;
    slot < |p.locks| && p.locks[slot] == Token(pid)
  }

  /** A thread that is not blocked takes its slot with its next compare-and-swap, or sees a leftover
      there and takes it with the one after. */
  lemma UnblockedTakes(pid: nat, p: Process, tid: nat, size: nat)
    requires size > 0 && |p.locks| == NLOCKS && tid in p.threads && p.threads[tid].FirstCas?
    requires Wants(p.threads[tid], size).Some? && !Blocked(pid, p, tid, size)
    ensures var slot := Wants(p.threads[tid], size).value;
            var next := Act(pid, p, tid, Proceed, size);
            && next.Some?
            && (ChangeOf(pid, p, tid, Proceed, size) == Gains(slot)
                || (|next.value.locks| == NLOCKS && tid in next.value.threads
                    && Act(pid, next.value, tid, Proceed, size).Some?
                    && ChangeOf(pid, next.value, tid, Proceed, size) == Gains(slot)))
  {
    SlotsAscend(p.threads[tid].ptr, p.threads[tid].n, size);
    hide SlotOrder;
  }

  /** The slot a thread is about to take. */
  function Wants(t: Thread, size: nat): Option<nat>
    requires size > 0
  {
    if (t.FirstCas? || t.SecondCas?) && t.taken < |SlotOrder(t.ptr, t.n, size)|
    then Some(SlotOrder(t.ptr, t.n, size)[t.taken]) else None
  }

  /** No set of threads deadlocks: if every thread of a process that is inside a call were blocked,
      the one that wants the highest slot would be waiting for a thread that wants a higher one. */
  lemma SomeThreadUnblocked(states: seq<System>, i: nat, pid: nat, t0: nat)
    requires IsHistory(states) && i < |states| && pid in states[i].procs && states[i].size > 0
    requires t0 in states[i].procs[pid].threads && !states[i].procs[pid].threads[t0].Idle?
    ensures exists t :: t in states[i].procs[pid].threads && !states[i].procs[pid].threads[t].Idle?
                     && !Blocked(pid, states[i].procs[pid], t, states[i].size)
  {
    HistoryInvariant(states, i);
    var t := FollowHolders(pid, states[i].procs[pid], t0, states[i].size);
  }

  lemma {:induction false} FollowHolders(pid: nat, p: Process, t0: nat, size: nat) returns (t: nat)
    requires size > 0 && Consistent(pid, p, size) && t0 in p.threads && !p.threads[t0].Idle?
    ensures t in p.threads && !p.threads[t].Idle? && !Blocked(pid, p, t, size)
    decreases NLOCKS - (if Blocked(pid, p, t0, size) then Wants(p.threads[t0], size).value + 1 else 0)
  {
    t := t0;
    if Blocked(pid, p, t0, size) {
      var slot := Wants(p.threads[t0], size).value;
      var holder: nat :| Holds(p, holder, slot, size);
      if Blocked(pid, p, holder, size) {
        HoldersWantMore(p.threads[holder], slot, size);
        t := FollowHolders(pid, p, holder, size);
      } else {
        t := holder;
      }
    }
  }

  /** Slots are taken in ascending order, so what a thread wants lies above all it holds. */
  lemma HoldersWantMore(t: Thread, slot: nat, size: nat)
    requires size > 0 && slot in HeldBy(t, size) && Wants(t, size).Some?
    ensures slot < Wants(t, size).value < NLOCKS
  {
    SlotsAscend(t.ptr, t.n, size);
    hide SlotOrder;
  }
}
