/** The verified-download protocol of one pinned source: any number of `Fetch` calls in any number
    of processes share the file, its `.done` marker and the lock file. */
module Fetch {
  import opened Common

  /** What a call returns: the path, or an error. */
  datatype Answer = Path | Failed

  datatype Pc<+B> =
    | FastMarker                            // Fetched: is the marker there?
    | FastFile                              // Fetched: is the file there?
    | WantLock
    | LockedMarker                          // Fetched again, under the lock
    | LockedFile
    | Hashing
    | Removing                              // the file did not match
    | Downloading(url: nat, attempt: nat)
    | Verifying(url: nat, attempt: nat, part: B)
    | Renaming(url: nat, attempt: nat, part: B)
    | Marking
    | Unlocking(answer: Answer)
    | Returned(answer: Answer)
    | Straggling                            // cancelled; its flock goroutine still waits
    | StragglerLocked                       // and got the lock it is about to drop

  datatype Caller<+B> = Caller(pc: Pc<B>, urls: nat, offline: bool)

  datatype State<+B> = State(file: Option<B>, marker: bool, owner: Option<nat>, callers: map<nat, Caller<B>>)

  /** What the network, the disk or the context decides at a step. */
  datatype Event<+B> = Go | Body(bytes: B) | Transient | Permanent | IOError | Cancelled

  const ATTEMPTS_PER_URL := 3

  /** The loop over mirrors and attempts, after a failure worth retrying. */
  function Retry<B>(url: nat, attempt: nat): Pc<B> {
    if attempt + 1 < ATTEMPTS_PER_URL then Downloading(url, attempt + 1) else Downloading(url + 1, 0)
  }

  /** The next program point of a caller. */
  function NextPc<B(==)>(hash: B -> string, pin: string, st: State<B>, c: Caller<B>, e: Event<B>): Option<Pc<B>> {
    match (c.pc, e)
    case (FastMarker, Go) => Some(if st.marker then FastFile else WantLock)
    case (FastFile, Go) => Some(if st.file.Some? then Returned(Path) else WantLock)
    case (WantLock, Go) => if st.owner.None? then Some(LockedMarker) else None
    case (WantLock, Cancelled) => Some(Straggling)
    case (WantLock, IOError) => Some(Returned(Failed))
    case (Straggling, Go) => if st.owner.None? then Some(StragglerLocked) else None
    case (StragglerLocked, Go) => Some(Returned(Failed))
    case (LockedMarker, Go) => Some(if st.marker then LockedFile else Hashing)
    case (LockedFile, Go) => Some(if st.file.Some? then Unlocking(Path) else Hashing)
    case (Hashing, Go) =>
      Some(if st.file.None? then (if c.offline then Unlocking(Failed) else Downloading(0, 0))
           else if hash(st.file.value) == pin then Marking
           else Removing)
    case (Hashing, IOError) => Some(Unlocking(Failed))
    case (Removing, Go) => Some(if c.offline then Unlocking(Failed) else Downloading(0, 0))
    case (Removing, IOError) => Some(Unlocking(Failed))
    case (Downloading(u, a), Go) => if u >= c.urls then Some(Unlocking(Failed)) else None
    case (Downloading(u, a), Body(b)) => if u < c.urls then Some(Verifying(u, a, b)) else None
    case (Downloading(u, a), Transient) => if u < c.urls then Some(Retry(u, a)) else None
    case (Downloading(u, a), Permanent) => if u < c.urls then Some(Downloading(u + 1, 0)) else None
    case (Downloading(u, a), Cancelled) => Some(Unlocking(Failed))
    case (Verifying(u, a, b), Go) => Some(if hash(b) == pin then Renaming(u, a, b) else Downloading(u + 1, 0))
    case (Verifying(u, a, b), IOError) => Some(Retry(u, a))
    case (Renaming(u, a, b), Go) => Some(Marking)
    case (Renaming(u, a, b), IOError) => Some(Retry(u, a))
    case (Marking, Go) => Some(Unlocking(Path))
    case (Marking, IOError) => Some(Unlocking(Failed))
    case (Unlocking(r), Go) => Some(Returned(r))
    case _ => None
  }

  /** The step's effect on file, marker and lock. A marker may be left behind by a `mark` that
      then fails to write into it. */
  ghost predicate Effect<B>(st: State<B>, st': State<B>, id: nat, c: Caller<B>, e: Event<B>) {
    && st'.file == (match c.pc
                    case Removing => if e.Go? then None else st.file
                    case Renaming(_, _, b) => if e.Go? then Some(b) else st.file
                    case _ => st.file)
    && (st'.marker == st.marker || (c.pc.Marking? && st'.marker))
    && (c.pc.Marking? && e.Go? ==> st'.marker)
    && st'.owner == (match c.pc
                     case WantLock => if e.Go? then Some(id) else st.owner
                     case Straggling => Some(id)
                     case Unlocking(_) => None
                     case StragglerLocked => None
                     case _ => st.owner)
  }

  ghost predicate CallerStep<B>(hash: B -> string, pin: string, st: State<B>, st': State<B>, id: nat, e: Event<B>) {
    && id in st.callers
    && var c := st.callers[id];
       var next := NextPc(hash, pin, st, c, e);
       && next.Some? && Effect(st, st', id, c, e)
       && st'.callers == st.callers[id := c.(pc := next.value)]
  }

  /** A caller's process dies; the kernel drops its lock. */
  ghost predicate CrashStep<B>(st: State<B>, st': State<B>, id: nat) {
    && id in st.callers
    && st' == State(st.file, st.marker, if st.owner == Some(id) then None else st.owner, st.callers - {id})
  }

  /** A new call. */
  ghost predicate CallStep<B>(st: State<B>, st': State<B>, id: nat, urls: nat, offline: bool) {
    && id !in st.callers
    && st' == st.(callers := st.callers[id := Caller(FastMarker, urls, offline)])
  }

  ghost predicate Step<B(!new)>(hash: B -> string, pin: string, st: State<B>, st': State<B>) {
    || (exists id, e :: CallerStep(hash, pin, st, st', id, e))
    || (exists id :: CrashStep(st, st', id))
    || (exists id, urls, offline :: CallStep(st, st', id, urls, offline))
  }

  /** Any file may be there at first, but a marker with a file vouches for it. */
  ghost predicate Start<B>(hash: B -> string, pin: string, st: State<B>) {
    st.owner.None? && st.callers == map[] && (st.marker && st.file.Some? ==> hash(st.file.value) == pin)
  }

  ghost predicate IsHistory<B(!new)>(hash: B -> string, pin: string, states: seq<State<B>>) {
    && |states| > 0 && Start(hash, pin, states[0])
    && forall i | 0 <= i < |states| - 1 :: Step(hash, pin, states[i], states[i+1])
  }

  // ---------------------------------------------------------------- the invariant

  predicate HoldsLock<B>(pc: Pc<B>) {
    match pc
    case FastMarker => false
    case FastFile => false
    case WantLock => false
    case Returned(_) => false
    case Straggling => false
    case _ => true
  }

  predicate Verified<B>(hash: B -> string, pin: string, st: State<B>) {
    st.file.Some? && hash(st.file.value) == pin
  }

  ghost predicate CallerOk<B>(hash: B -> string, pin: string, st: State<B>, id: nat)
    requires id in st.callers
  {
    var pc := st.callers[id].pc;
    && (HoldsLock(pc) ==> st.owner == Some(id))
    && match pc
       case FastFile => st.marker
       case LockedFile => st.marker
       case Removing => st.file.Some? && hash(st.file.value) != pin
       case Renaming(_, _, b) => hash(b) == pin
       case Marking => Verified(hash, pin, st)
       case Unlocking(Path) => Verified(hash, pin, st)
       case Returned(Path) => Verified(hash, pin, st)
       case _ => true
  }

  ghost predicate Invariant<B>(hash: B -> string, pin: string, st: State<B>) {
    && (st.marker && st.file.Some? ==> hash(st.file.value) == pin)
    && (st.owner.Some? ==> st.owner.value in st.callers)
    && forall id | id in st.callers :: CallerOk(hash, pin, st, id)
  }

  lemma CallerKeeps<B>(hash: B -> string, pin: string, st: State<B>, st': State<B>, id: nat, e: Event<B>)
    requires Invariant(hash, pin, st) && CallerStep(hash, pin, st, st', id, e)
    ensures Invariant(hash, pin, st')
    ensures Verified(hash, pin, st) ==> Verified(hash, pin, st')
  {
    var c := st.callers[id];
    assert CallerOk(hash, pin, st, id);
    forall k | k in st'.callers ensures CallerOk(hash, pin, st', k) {
      assert CallerOk(hash, pin, st, k);
    }
  }

  lemma StepKeeps<B(!new)>(hash: B -> string, pin: string, st: State<B>, st': State<B>)
    requires Invariant(hash, pin, st) && Step(hash, pin, st, st')
    ensures Invariant(hash, pin, st')
    ensures Verified(hash, pin, st) ==> Verified(hash, pin, st')
  {
    if id: nat, e :| CallerStep(hash, pin, st, st', id, e) {
      CallerKeeps(hash, pin, st, st', id, e);
    } else if id: nat :| CrashStep(st, st', id) {
      forall k | k in st'.callers ensures CallerOk(hash, pin, st', k) {
        assert CallerOk(hash, pin, st, k);
      }
    } else {
      var id: nat, urls: nat, offline :| CallStep(st, st', id, urls, offline);
      forall k | k in st'.callers ensures CallerOk(hash, pin, st', k) {
        assert k in st.callers ==> CallerOk(hash, pin, st, k);
      }
    }
  }

  lemma {:induction false} HistoryInvariant<B(!new)>(hash: B -> string, pin: string, states: seq<State<B>>, i: nat)
    requires IsHistory(hash, pin, states) && i < |states|
    ensures Invariant(hash, pin, states[i])
  {
    hide Step;
    if i > 0 {
      HistoryInvariant(hash, pin, states, i - 1);
      assert Step(hash, pin, states[i-1], states[i-1+1]);
      StepKeeps(hash, pin, states[i-1], states[i]);
    }
  }

  /** The marker's promise: in every state of every history a file beside a marker has the pinned
      hash. */
  lemma MarkerVouches<B(!new)>(hash: B -> string, pin: string, states: seq<State<B>>, i: nat)
    requires IsHistory(hash, pin, states) && i < |states| && states[i].marker && states[i].file.Some?
    ensures hash(states[i].file.value) == pin
  {
    HistoryInvariant(hash, pin, states, i);
  }

  /** A matching file is never deleted or replaced by one that does not match. */
  lemma {:induction false} VerifiedForGood<B(!new)>(hash: B -> string, pin: string, states: seq<State<B>>, i: nat, k: nat)
    requires IsHistory(hash, pin, states) && i <= k < |states| && Verified(hash, pin, states[i])
    ensures Verified(hash, pin, states[k])
    decreases k
  {
    hide Step;
    if i < k {
      VerifiedForGood(hash, pin, states, i, k - 1);
      HistoryInvariant(hash, pin, states, k - 1);
      assert Step(hash, pin, states[k-1], states[k-1+1]);
      StepKeeps(hash, pin, states[k-1], states[k]);
    }
  }

  /** A call that has returned the path returned it for bytes that match the pin, then and ever
      after, whatever mirrors, other processes and crashes do. */
  lemma PathMeansVerified<B(!new)>(hash: B -> string, pin: string, states: seq<State<B>>, i: nat, k: nat, id: nat)
    requires IsHistory(hash, pin, states) && i <= k < |states|
    requires id in states[i].callers && states[i].callers[id].pc == Returned(Path)
    ensures Verified(hash, pin, states[k])
  {
    HistoryInvariant(hash, pin, states, i);
    assert CallerOk(hash, pin, states[i], id);
    VerifiedForGood(hash, pin, states, i, k);
  }

  /** At most one caller at a time is past the lock. */
  lemma OneCallerPastLock<B(!new)>(hash: B -> string, pin: string, states: seq<State<B>>, i: nat, a: nat, b: nat)
    requires IsHistory(hash, pin, states) && i < |states| && a in states[i].callers && b in states[i].callers
    requires HoldsLock(states[i].callers[a].pc) && HoldsLock(states[i].callers[b].pc)
    ensures a == b
  {
    HistoryInvariant(hash, pin, states, i);
    assert CallerOk(hash, pin, states[i], a) && CallerOk(hash, pin, states[i], b);
  }
}
