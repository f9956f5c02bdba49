/** A wallet that loses its store and recovers from its seed: what comes back, and when it may
    go on paying. */
module StoreLoss {
  import opened Basics
  import opened Words
  import opened Ledger
  import opened BearerPort
  import opened Recovery
  import opened PortInvariant
  import opened Restoration
  import opened PortRuns
  import opened PortConservation
  import opened PayeeSafety

  /** No held output lies behind a run of eight unissued indices. */
  predicate Reachable(w: World, n: string)
    requires n in w.auths
  {
    forall o :: o in Held(w.wallet, n) ==>
      o.commitment.Derived? &&
      forall t :: 0 <= t <= o.commitment.index ==> !Gap(w.auths[n], w.wallet.seed, t)
  }

  lemma RestoredAt(w: World, n: string)
    requires n in w.auths && BooksAt(w, n) && Online(w)
    ensures var m, seed, w' := w.auths[n], w.wallet.seed, Restored(w);
            && w'.auths == w.auths && w'.wallet.seed == seed
            && Held(w'.wallet, n) == LiveOutputs(m, seed, Horizon(m, seed))
            && Counter(w'.wallet, n) == Horizon(m, seed)
            && Horizon(m, seed) <= Counter(w.wallet, n)
  {
    ResumedWithNothing(w);
    ResumedAt(w, map[], n);
    HorizonBelowCounter(w, n);
  }

  /** Store loss and recovery give back the identical holdings at an authority exactly when no
      held output lies behind a gap of eight. */
  lemma StoreLossIff(w: World, n: string)
    requires Books(w) && Online(w) && n in w.auths
    ensures Held(Restored(w).wallet, n) == Held(w.wallet, n) <==> Reachable(w, n)
    ensures Reachable(w, n) ==> BalanceAt(Restored(w).wallet, n) == BalanceAt(w.wallet, n)
  {
    assert BooksAt(w, n);
    RestoredAt(w, n);
    ReachableIff(w, n);
    var m, seed, s, k := w.auths[n], w.wallet.seed, Horizon(w.auths[n], w.wallet.seed), Counter(w.wallet, n);
    LiveOutputsGrow(m, seed, s, k);
    if Reachable(w, n) {
      NothingLiveAbove(m, seed, s, k);
    }
  }

  lemma ReachableIff(w: World, n: string)
    requires n in w.auths && BooksAt(w, n)
    ensures var m, seed := w.auths[n], w.wallet.seed;
            Reachable(w, n) <==>
              forall i :: Horizon(m, seed) <= i < Counter(w.wallet, n) ==> !IsLive(m, seed, i)
  {
    var m, seed, k := w.auths[n], w.wallet.seed, Counter(w.wallet, n);
    HorizonIsFirstGap(m, seed);
    LiveOutputsExact(m, seed, k);
    if Reachable(w, n) {
      assert forall i :: Horizon(m, seed) <= i < k ==> !IsLive(m, seed, i);
    } else {
      var o :| o in Held(w.wallet, n)
        && !(o.commitment.Derived? && forall t :: 0 <= t <= o.commitment.index ==> !Gap(m, seed, t));
      SweptIff(m, seed, o.commitment.index);
      assert IsLive(m, seed, o.commitment.index);
    }
  }

  /** From any honest start, after any run that never left eight indices in a row unissued,
      losing the store and recovering restores every holding and every balance. */
  lemma StoreLossLosesNothing(w: World, es: seq<Event>, n: string)
    requires Inv(w) && AllowedRun(w, es)
    requires Online(Run(w, es)) && n in Run(w, es).auths && Dense(Run(w, es), n)
    ensures var before := Run(w, es);
            && Restored(before).auths == before.auths
            && Held(Restored(before).wallet, n) == Held(before.wallet, n)
            && BalanceAt(Restored(before).wallet, n) == BalanceAt(before.wallet, n)
  {
    RunKeeps(w, es);
    var before := Run(w, es);
    assert BooksAt(before, n);
    DenseMet(before, n);
    MetHeld(before, n);
    RestoredAt(before, n);
  }

  // ------------------------------------------------------------ going on after a recovery

  /** A recovered wallet may go on - nobody at any authority can lose anything, whatever it is
      asked to do - exactly when at every authority the sweep met every index signed for the
      wallet, and each payee was paid below the index where the sweep stopped, or at it while
      the wallet holds nothing to pay with. */
  lemma RestoredMayGoOnIff(w: World)
    requires Books(w) && Online(w)
    ensures MayGoOn(Restored(w)) <==>
              forall n :: n in w.auths ==> Met(w, n) && PaidBelow(w, n, Horizon(w.auths[n], w.wallet.seed))
  {
    if AllMet(w) {
      ResumedWithNothing(w);
      ResumedBooks(w, map[]);
      MayGoOnIff(Restored(w));
      forall n | n in w.auths
        ensures PayeesClear(Restored(w), n) <==> PaidBelow(w, n, Horizon(w.auths[n], w.wallet.seed))
      {
        assert BooksAt(w, n);
        ResumedClear(w, map[], n);
      }
    } else {
      var n :| n in w.auths && !Met(w, n);
      var i: nat :| IsIssued(w.auths[n], w.wallet.seed, i) && i >= Horizon(w.auths[n], w.wallet.seed);
      assert BooksAt(w, n);
      RestoredAt(w, n);
      var es := OwnOverwritten(Restored(w), n, i);
    }
  }

  /** Issuing at an index that was signed before makes that output worth something else. */
  lemma OwnOverwritten(w: World, n: string, i: nat) returns (es: seq<Event>)
    requires n in w.auths && w.auths[n].name == n && IsIssued(w.auths[n], w.wallet.seed, i)
    requires Counter(w.wallet, n) <= i < MAX_UINT64
    ensures AllowedRun(w, es) && !HarmlessRun(w, es, n)
  {
    var c := Derived(w.wallet.seed, i, n);
    var amount: uint64 := if w.auths[n].issued[c].amount == 1 then 2 else 1;
    var w1 := PersistCounter(w, n, i);
    es := [PersistEvent(n, i), IssueEvent(n, amount)];
    RunOfTwo(w, w1, es);
    IssueRecords(w1, IssueInto(w1, n, amount).0, n, amount);
    assert Run(w, es).auths[n].issued[c].amount == amount;
    assert !Extends(w.auths[n], Run(w, es).auths[n]);
  }

  lemma RunOfTwo(w: World, w1: World, es: seq<Event>)
    requires |es| == 2 && w1 == Step(w, es[0])
    ensures Run(w, es) == Step(w1, es[1])
    ensures Allowed(w, es[0]) && Allowed(w1, es[1]) ==> AllowedRun(w, es)
  {
    var rest := es[1..];
    assert rest == [es[1]] && rest[1..] == [];
    assert Run(Step(w1, rest[0]), rest[1..]) == Step(w1, es[1]);
    assert AllowedRun(Step(w1, rest[0]), rest[1..]);
  }

  /** A wallet that persists counters no older than the ones it lost resumes with all it held and
      may go on: true books, every payee out of reach, everywhere. */
  lemma PersistAfterRecovery(w: World, saved: map<string, uint64>)
    requires Inv(w) && Online(w) && AllMet(w)
    requires forall n :: n in w.auths ==> n in saved && saved[n] >= Counter(w.wallet, n)
    ensures Inv(Resumed(w, saved)) && MayGoOn(Resumed(w, saved))
    ensures forall n :: n in w.auths ==>
              && Held(Resumed(w, saved).wallet, n) == Held(w.wallet, n)
              && Counter(Resumed(w, saved).wallet, n) == saved[n]
  {
    forall n | n in w.auths
      ensures PaidBelow(w, n, NextIndex(w, saved, n)) && Held(Resumed(w, saved).wallet, n) == Held(w.wallet, n)
      ensures Counter(Resumed(w, saved).wallet, n) == saved[n]
    {
      InvHere(w, n);
      SavedIsClear(w, saved, n);
      ResumedBooksAt(w, saved, n);
      ResumedAt(w, saved, n);
      HorizonBelowCounter(w, n);
    }
    LossKeeps(w, saved);
    MayGoOnIff(Resumed(w, saved));
  }
}
