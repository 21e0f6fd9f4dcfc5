/** Which slots of the libatomic lock table an address range uses, and in which order. */
module LockSlots {
  import opened Common

  const NLOCKS := 64
  const WATCH_SIZE := 64

  function AddrHash(ptr: nat): (r: nat)
    ensures r < NLOCKS
  {
    (ptr / WATCH_SIZE) % NLOCKS
  }

  /** The clamped slot count, computed in `size_t` arithmetic modulo `size`. */
  function SlotCount(ptr: nat, n: nat, size: nat): (r: nat)
    requires size > 0
    ensures r <= NLOCKS
  {
    var nlocks := ((n + ptr % WATCH_SIZE + WATCH_SIZE - 1) % size) / WATCH_SIZE;
    if nlocks > NLOCKS then NLOCKS else nlocks
  }

  function Range(lo: nat, hi: nat): (r: seq<nat>)
    requires lo <= hi
    ensures |r| == hi - lo && forall k | 0 <= k < |r| :: r[k] == lo + k
  {
    seq(hi - lo, k requires 0 <= k < hi - lo => lo + k)
  }

  lemma RangeMore(lo: nat, hi: nat)
    requires lo <= hi
    ensures Range(lo, hi + 1) == Range(lo, hi) + [hi]
  {
  }

  lemma RangeNone(lo: nat)
    ensures Range(lo, lo) == []
  {
  }

  /** The slots `libat_lock_n` and `libat_unlock_n` visit, in order. */
  function SlotOrder(ptr: nat, n: nat, size: nat): seq<nat>
    requires size > 0
  {
    var h, c := AddrHash(ptr), SlotCount(ptr, n, size);
    if h + c > NLOCKS then Range(0, h + c - NLOCKS) + Range(h, NLOCKS) else Range(h, h + c)
  }

  /** `libat_lock_n`: the slots on which it calls `lock_one`. */
  method LockCalls(ptr: nat, n: nat, size: nat) returns (calls: seq<nat>)
    requires size > 0
    ensures calls == SlotOrder(ptr, n, size)
  {
    hide AddrHash, Range;
    var h := AddrHash(ptr);
    ghost var h0 := h;
    var i := 0;
    var nlocks := ((n + ptr % WATCH_SIZE + WATCH_SIZE - 1) % size) / WATCH_SIZE;
    if nlocks > NLOCKS {
      nlocks := NLOCKS;
    }
    assert nlocks == SlotCount(ptr, n, size);
    hide SlotCount;
    calls := [];
    RangeNone(0);
    RangeNone(h);
    if h + nlocks > NLOCKS {
      var j := h + nlocks - NLOCKS;
      while i < j
        invariant 0 <= i <= j && calls == Range(0, i)
      {
        RangeMore(0, i);
        calls := calls + [i];
        i := i + 1;
      }
    }
    ghost var low := calls;
    ghost var start := i;
    while i < nlocks
      invariant start <= i <= nlocks && h == h0 + (i - start) && calls == low + Range(h0, h)
    {
      RangeMore(h0, h);
      calls := calls + [h];
      h := h + 1;
      i := i + 1;
    }
    assert [] + Range(h0, h) == Range(h0, h);
  }

  /** `libat_unlock_n` on the table: it clears exactly those slots. */
  method UnlockN(locks: array<nat>, ptr: nat, n: nat, size: nat)
    requires size > 0 && locks.Length == NLOCKS
    modifies locks
    ensures forall k | 0 <= k < NLOCKS :: locks[k] == if k in SlotOrder(ptr, n, size) then 0 else old(locks[k])
  {
    var h := AddrHash(ptr);
    ghost var h0 := h;
    var i := 0;
    var nlocks := ((n + ptr % WATCH_SIZE + WATCH_SIZE - 1) % size) / WATCH_SIZE;
    if nlocks > NLOCKS {
      nlocks := NLOCKS;
    }
    InSlotOrder(ptr, n, size);
    if h + nlocks > NLOCKS {
      var j := h + nlocks - NLOCKS;
      while i < j
        invariant 0 <= i <= j
        invariant forall k | 0 <= k < NLOCKS :: locks[k] == if k < i then 0 else old(locks[k])
      {
        locks[i] := 0;
        i := i + 1;
      }
    }
    ghost var start := i;
    while i < nlocks
      invariant start <= i <= nlocks && h == h0 + (i - start)
      invariant forall k | 0 <= k < NLOCKS :: locks[k] == if k < start || h0 <= k < h then 0 else old(locks[k])
    {
      locks[h] := 0;
      h := h + 1;
      i := i + 1;
    }
  }

  /** `atfork_child`. */
  method ZeroTable(locks: array<nat>)
    requires locks.Length == NLOCKS
    modifies locks
    ensures forall k | 0 <= k < NLOCKS :: locks[k] == 0
  {
    for i := 0 to NLOCKS
      invariant forall k | 0 <= k < i :: locks[k] == 0
    {
      locks[i] := 0;
    }
  }

  lemma InSlotOrder(ptr: nat, n: nat, size: nat)
    requires size > 0
    ensures var h, c := AddrHash(ptr), SlotCount(ptr, n, size);
            forall k :: k in SlotOrder(ptr, n, size) <==>
              (if h + c > NLOCKS then 0 <= k < h + c - NLOCKS || h <= k < NLOCKS else h <= k < h + c)
  {
    var h, c := AddrHash(ptr), SlotCount(ptr, n, size);
    var order := SlotOrder(ptr, n, size);
    if h + c > NLOCKS {
      var a, b := Range(0, h + c - NLOCKS), Range(h, NLOCKS);
      forall k: nat | k < h + c - NLOCKS ensures k in order {
        assert a[k] == k && order[k] == k;
      }
      forall k | h <= k < NLOCKS ensures k in order {
        assert b[k-h] == k && order[|a| + k - h] == k;
      }
    } else {
      forall k | h <= k < h + c ensures k in order {
        assert order[k-h] == k;
      }
    }
  }

  /** Each slot at most once, in strictly ascending order and in bounds, also when it wraps. */
  lemma SlotsAscend(ptr: nat, n: nat, size: nat)
    requires size > 0
    ensures var order := SlotOrder(ptr, n, size);
            && (forall i | 0 <= i < |order| :: order[i] < NLOCKS)
            && (forall i, j | 0 <= i < j < |order| :: order[i] < order[j])
  {
  }

  /** The slots of the bytes of [ptr, ptr + n). */
  ghost function Covered(ptr: nat, n: nat): set<nat> {
    set b | ptr <= b < ptr + n :: AddrHash(b)
  }

  /** How many watch lines the range touches. */
  function Lines(ptr: nat, n: nat): nat {
    (n + ptr % WATCH_SIZE + WATCH_SIZE - 1) / WATCH_SIZE
  }

  lemma LineOfByte(ptr: nat, n: nat, b: nat)
    requires ptr <= b < ptr + n
    ensures ptr / WATCH_SIZE <= b / WATCH_SIZE < ptr / WATCH_SIZE + Lines(ptr, n)
  {
  }

  /** A slot is covered exactly when its distance from the first slot, going round, is less than
      the number of lines. */
  lemma CoveredByDistance(ptr: nat, n: nat, k: nat)
    requires n >= 1 && k < NLOCKS
    ensures k in Covered(ptr, n) <==> (k - AddrHash(ptr)) % NLOCKS < Lines(ptr, n)
  {
    var first, h := ptr / WATCH_SIZE, AddrHash(ptr);
    var d := (k - h) % NLOCKS;
    if d < Lines(ptr, n) {
      var line := first + d;
      RoundTheTable(first, k);
      var b := if d == 0 then ptr else line * WATCH_SIZE;
      assert b / WATCH_SIZE == line;
      assert ptr <= b < ptr + n;
      assert AddrHash(b) == k;
    }
    if b :| ptr <= b < ptr + n && AddrHash(b) == k {
      LineOfByte(ptr, n, b);
      DistanceOf(first, b / WATCH_SIZE);
    }
  }

  lemma RoundTheTable(line: nat, k: nat)
    requires k < NLOCKS
    ensures (line + (k - line % NLOCKS) % NLOCKS) % NLOCKS == k
  {
  }

  lemma DistanceOf(line: nat, later: nat)
    requires line <= later
    ensures (later % NLOCKS - line % NLOCKS) % NLOCKS <= later - line
  {
  }

  /** The slots taken are exactly the slots of the range's bytes if and only if the slot count does
      not overflow `size_t`. */
  lemma SlotsExact(ptr: nat, n: nat, size: nat)
    requires n >= 1 && size > NLOCKS * WATCH_SIZE && ptr + n <= size
    ensures Elems(SlotOrder(ptr, n, size)) == Covered(ptr, n) <==> n + ptr % WATCH_SIZE + WATCH_SIZE - 1 < size
  {
    hide SlotOrder, Covered, SlotCount, Lines;
    if n + ptr % WATCH_SIZE + WATCH_SIZE - 1 < size {
      forall k: nat ensures k in SlotOrder(ptr, n, size) <==> k in Covered(ptr, n) {
        SlotMatches(ptr, n, size, k);
      }
    } else {
      NothingLocked(ptr, n, size);
    }
  }

  lemma SlotMatches(ptr: nat, n: nat, size: nat, k: nat)
    requires n >= 1 && size > 0 && n + ptr % WATCH_SIZE + WATCH_SIZE - 1 < size
    ensures k in SlotOrder(ptr, n, size) <==> k in Covered(ptr, n)
  {
    hide SlotOrder, SlotCount, Lines;
    InSlotOrder(ptr, n, size);
    if k < NLOCKS {
      hide Covered;
      CountIsLines(ptr, n, size);
      CoveredByDistance(ptr, n, k);
    }
  }

  lemma Modulo(x: nat, m: nat)
    requires m > 0
    ensures x < m ==> x % m == x
    ensures m <= x < 2 * m ==> x % m == x - m
  {
  }

  lemma CountIsLines(ptr: nat, n: nat, size: nat)
    requires size > 0 && n + ptr % WATCH_SIZE + WATCH_SIZE - 1 < size
    ensures SlotCount(ptr, n, size) == if Lines(ptr, n) > NLOCKS then NLOCKS else Lines(ptr, n)
  {
    Modulo(n + ptr % WATCH_SIZE + WATCH_SIZE - 1, size);
  }

  lemma NothingLocked(ptr: nat, n: nat, size: nat)
    requires n >= 1 && size > NLOCKS * WATCH_SIZE && ptr + n <= size
    requires n + ptr % WATCH_SIZE + WATCH_SIZE - 1 >= size
    ensures Elems(SlotOrder(ptr, n, size)) != Covered(ptr, n)
  {
    var sum := n + ptr % WATCH_SIZE + WATCH_SIZE - 1;
    Modulo(sum, size);
    assert SlotCount(ptr, n, size) == 0;
    assert SlotOrder(ptr, n, size) == [];
    assert AddrHash(ptr) in Covered(ptr, n);
  }

  /** `libat_lock_1` and `libat_unlock_1` use the one slot that a one-byte range uses. */
  lemma SingleSlot(ptr: nat, size: nat)
    requires size > NLOCKS * WATCH_SIZE
    ensures SlotOrder(ptr, 1, size) == [AddrHash(ptr)] && AddrHash(ptr) == ptr % 4096 / 64
  {
    var sum := 1 + ptr % WATCH_SIZE + WATCH_SIZE - 1;
    Modulo(sum, size);
    assert SlotCount(ptr, 1, size) == 1 by { hide SlotOrder; }
    hide SlotCount;
    WithinPage(ptr);
  }

  /** The 64 slots of 64 bytes each repeat every 4096 bytes. */
  lemma WithinPage(ptr: nat)
    ensures AddrHash(ptr) == ptr % 4096 / 64
  {
    var q, r := ptr / 4096, ptr % 4096;
    assert ptr == 64 * (64 * q + r / 64) + r % 64;
    assert ptr / 64 == 64 * q + r / 64;
  }

  /** Ranges that share a byte share a slot. */
  lemma OverlapSharesSlot(ptr: nat, n: nat, ptr': nat, n': nat, size: nat, b: nat)
    requires size > NLOCKS * WATCH_SIZE && ptr + n <= size && ptr' + n' <= size
    requires n + ptr % WATCH_SIZE + WATCH_SIZE - 1 < size && n' + ptr' % WATCH_SIZE + WATCH_SIZE - 1 < size
    requires ptr <= b < ptr + n && ptr' <= b < ptr' + n'
    ensures AddrHash(b) in SlotOrder(ptr, n, size) && AddrHash(b) in SlotOrder(ptr', n', size)
  {
    SlotsExact(ptr, n, size);
    SlotsExact(ptr', n', size);
    assert AddrHash(b) in Covered(ptr, n) && AddrHash(b) in Covered(ptr', n');
  }
}
