/** What errors and cancellations make of a `Fetch` call. */
module FetchErrors {
  import opened Common
  import opened Fetch
  import opened FetchMirrors

  /** Errors no retry helps against: of the lock file, of hashing, of removing a poisoned file, of writing
      the marker; and a cancellation while downloading. */
  predicate Ends<B>(pc: Pc<B>, e: Event<B>) {
    || (e.IOError? && (pc.WantLock? || pc.Hashing? || pc.Removing? || pc.Marking?))
    || (e.Cancelled? && pc.Downloading?)
  }

  /** After this event the caller can only be at one of these points. */
  ghost predicate LeadsTo<B(!new)>(hash: B -> string, pin: string, st: State<B>, id: nat, e: Event<B>, pc: Pc<B>) {
    forall st' | CallerStep(hash, pin, st, st', id, e) :: st'.callers[id].pc == pc
  }

  /** Such an error may strike at each of these points; it can only end the call with an error, with the
      lock dropped and the file as it was. */
  lemma ErrorEndsCall<B(!new)>(hash: B -> string, pin: string, states: seq<State<B>>, id: nat, e: Event<B>)
    returns (more: seq<State<B>>)
    requires IsHistory(hash, pin, states) && id in states[|states|-1].callers
    requires Ends(states[|states|-1].callers[id].pc, e)
    ensures IsHistory(hash, pin, more) && states <= more && IsAt(more, |more|-1, id, Returned(Failed))
    ensures more[|more|-1].file == states[|states|-1].file && more[|more|-1].marker == states[|states|-1].marker
    ensures more[|more|-1].owner != Some(id)
    ensures LeadsTo(hash, pin, states[|states|-1], id, e,
                    if states[|states|-1].callers[id].pc.WantLock? then Returned(Failed) else Unlocking(Failed))
  {
    var st := states[|states|-1];
    HistoryInvariant(hash, pin, states, |states| - 1);
    assert CallerOk(hash, pin, st, id);
    hide IsHistory, Invariant;
    if st.callers[id].pc.WantLock? {
      WaitsWithout(hash, pin, states, id);
      var st' := Moved(st, id, Returned(Failed), st.file, st.marker, st.owner);
      assert CallerStep(hash, pin, st, st', id, e);
      OneStepMore(hash, pin, states, st', id, e);
      more := states + [st'];
    } else {
      var st' := Moved(st, id, Unlocking(Failed), st.file, st.marker, st.owner);
      assert CallerStep(hash, pin, st, st', id, e);
      OneStepMore(hash, pin, states, st', id, e);
      more := LetsGo(hash, pin, states + [st'], id);
    }
  }

  lemma LetsGo<B(!new)>(hash: B -> string, pin: string, states: seq<State<B>>, id: nat) returns (more: seq<State<B>>)
    requires IsHistory(hash, pin, states) && IsAt(states, |states|-1, id, Unlocking(Failed))
    ensures IsHistory(hash, pin, more) && states <= more && IsAt(more, |more|-1, id, Returned(Failed))
    ensures more[|more|-1].file == states[|states|-1].file && more[|more|-1].marker == states[|states|-1].marker
    ensures more[|more|-1].owner.None?
  {
    assert |states| > 0;
    hide IsHistory;
    var st := states[|states|-1];
    var st' := Moved(st, id, Returned(Failed), st.file, st.marker, None);
    assert CallerStep(hash, pin, st, st', id, Go);
    OneStepMore(hash, pin, states, st', id, Go);
    more := states + [st'];
  }

  /** Who holds the lock is past the point of waiting for it. */
  ghost predicate OwnersHold<B>(st: State<B>) {
    forall id | id in st.callers && st.owner == Some(id) :: HoldsLock(st.callers[id].pc)
  }

  lemma OwnersHoldStep<B(!new)>(hash: B -> string, pin: string, st: State<B>, st': State<B>)
    requires Invariant(hash, pin, st) && OwnersHold(st) && Step(hash, pin, st, st')
    ensures OwnersHold(st')
  {
    var l := LabelOf(hash, pin, st, st');
    if l.ByCaller? {
      assert CallerOk(hash, pin, st, l.id);
      OwnersHoldMove(hash, pin, st, st', l.id, l.e);
    } else {
      hide IsHistory;
    }
  }

  lemma OwnersHoldMove<B>(hash: B -> string, pin: string, st: State<B>, st': State<B>, id: nat, e: Event<B>)
    requires OwnersHold(st) && CallerStep(hash, pin, st, st', id, e)
    requires HoldsLock(st.callers[id].pc) ==> st.owner == Some(id)
    ensures OwnersHold(st')
  {
  }

  lemma {:induction false} AlwaysOwnersHold<B(!new)>(hash: B -> string, pin: string, states: seq<State<B>>, i: nat)
    requires IsHistory(hash, pin, states) && i < |states|
    ensures OwnersHold(states[i])
  {
    if i > 0 {
      AlwaysOwnersHold(hash, pin, states, i - 1);
      HistoryInvariant(hash, pin, states, i - 1);
      assert Step(hash, pin, states[i-1], states[i-1+1]);
      hide Step, IsHistory, Invariant, OwnersHold;
      OwnersHoldStep(hash, pin, states[i-1], states[i]);
    }
  }

  lemma WaitsWithout<B(!new)>(hash: B -> string, pin: string, states: seq<State<B>>, id: nat)
    requires IsHistory(hash, pin, states) && IsAt(states, |states|-1, id, WantLock)
    ensures states[|states|-1].owner != Some(id)
  {
    assert |states| > 0;
    AlwaysOwnersHold(hash, pin, states, |states| - 1);
  }

  /** A try that fails for a reason that may pass, before or after the bytes have come, is repeated with the
      same mirror twice and then with the next one; file, marker and lock stay as they are. */
  lemma RetriesMirror<B(!new)>(hash: B -> string, pin: string, st: State<B>, id: nat, u: nat, a: nat, e: Event<B>)
    requires id in st.callers
    requires match st.callers[id].pc
             case Downloading(v, t) => v == u && t == a && u < st.callers[id].urls && e.Transient?
             case Verifying(v, t, _) => v == u && t == a && e.IOError?
             case Renaming(v, t, _) => v == u && t == a && e.IOError?
             case _ => false
    ensures var pc := if a < 2 then Downloading(u, a + 1) else Downloading(u + 1, 0);
            && LeadsTo(hash, pin, st, id, e, pc)
            && CallerStep(hash, pin, st, Moved(st, id, pc, st.file, st.marker, st.owner), id, e)
  {
  }

  /** A call cancelled while it waits leaves a straggler behind: it still gets the lock once nobody has it,
      and drops it at once. */
  lemma StragglerLetsGo<B(!new)>(hash: B -> string, pin: string, states: seq<State<B>>, id: nat) returns (more: seq<State<B>>)
    requires IsHistory(hash, pin, states) && IsAt(states, |states|-1, id, WantLock) && states[|states|-1].owner.None?
    ensures IsHistory(hash, pin, more) && states <= more && |more| == |states| + 3
    ensures LeadsTo(hash, pin, states[|states|-1], id, Cancelled, Straggling)
    ensures more[|states|+1].owner == Some(id) && IsAt(more, |states| + 2, id, Returned(Failed))
    ensures more[|states|+2].owner.None?
    ensures more[|states|+2].file == states[|states|-1].file && more[|states|+2].marker == states[|states|-1].marker
  {
    assert |states| > 0;
    hide IsHistory;
    var st := states[|states|-1];
    var s1 := Moved(st, id, Straggling, st.file, st.marker, None);
    assert CallerStep(hash, pin, st, s1, id, Cancelled);
    OneStepMore(hash, pin, states, s1, id, Cancelled);
    var s2 := Moved(s1, id, StragglerLocked, s1.file, s1.marker, Some(id));
    assert CallerStep(hash, pin, s1, s2, id, Go);
    OneStepMore(hash, pin, states + [s1], s2, id, Go);
    var s3 := Moved(s2, id, Returned(Failed), s2.file, s2.marker, None);
    assert CallerStep(hash, pin, s2, s3, id, Go);
    OneStepMore(hash, pin, states + [s1] + [s2], s3, id, Go);
    more := states + [s1] + [s2] + [s3];
  }
}
