/** Losing the store and coming back from the seed: what the wallet then holds, where its counters
    stand, and whether its books are true. */
module Restoration {
  import opened Basics
  import opened Words
  import opened Ledger
  import opened BearerPort
  import opened Recovery
  import opened PortInvariant

  predicate Online(w: World) {
    forall n :: n in w.auths ==> !w.auths[n].offline
  }

  /** The world after the store is gone and the wallet has recovered from its own seed. */
  function Restored(w: World): World {
    Recover(DestroyStore(w), w.wallet.seed).0
  }

  /** The restored world after counters saved elsewhere were persisted. */
  function Resumed(w: World, saved: map<string, uint64>): World {
    var r := Restored(w);
    r.(wallet := r.wallet.(counters := Furthered(r.wallet, saved)))
  }

  lemma PersistOneMore(r: World, saved: map<string, uint64>, n: string, next: uint64)
    requires n !in saved
    ensures PersistCounter(r.(wallet := r.wallet.(counters := Furthered(r.wallet, saved))), n, next)
         == r.(wallet := r.wallet.(counters := Furthered(r.wallet, saved[n := next])))
  {
    FurtheredOne(r.wallet, saved, n, next);
  }

  /** Persisting several counters is persisting them one by one. */
  lemma ResumedOneByOne(w: World, saved: map<string, uint64>, n: string, next: uint64)
    requires n !in saved
    ensures Resumed(w, saved[n := next]) == PersistCounter(Resumed(w, saved), n, next)
  {
    PersistOneMore(Restored(w), saved, n, next);
  }

  lemma ResumedWithNothing(w: World)
    ensures Resumed(w, map[]) == Restored(w)
  {
    assert Furthered(Restored(w).wallet, map[]) == Restored(w).wallet.counters;
  }

  /** A sweep meets every index ever signed for the wallet: none lies behind eight in a row that
      never were. */
  ghost predicate Met(w: World, n: string)
    requires n in w.auths
  {
    forall i: nat :: IsIssued(w.auths[n], w.wallet.seed, i) ==> i < Horizon(w.auths[n], w.wallet.seed)
  }

  ghost predicate AllMet(w: World) {
    forall n :: n in w.auths ==> Met(w, n)
  }

  /** Fewer than eight consecutive indices were left unissued anywhere below the counter. */
  predicate Dense(w: World, n: string)
    requires n in w.auths
  {
    forall t :: 0 <= t && t + RECOVERY_BATCH <= Counter(w.wallet, n) ==> !Gap(w.auths[n], w.wallet.seed, t)
  }

  /** The index the resumed wallet hands out next. */
  function NextIndex(w: World, saved: map<string, uint64>, n: string): nat
    requires n in w.auths
  {
    var h := Horizon(w.auths[n], w.wallet.seed);
    if n in saved && saved[n] > h then saved[n] else h
  }

  lemma HorizonBelowCounter(w: World, n: string)
    requires n in w.auths && BooksAt(w, n)
    ensures Horizon(w.auths[n], w.wallet.seed) <= Counter(w.wallet, n)
  {
    HorizonIsFirstGap(w.auths[n], w.wallet.seed);
  }

  /** A gap cannot start at or below an issued index of a dense wallet. */
  lemma DenseMet(w: World, n: string)
    requires n in w.auths && BooksAt(w, n) && Dense(w, n)
    ensures Met(w, n)
  {
    var m, seed := w.auths[n], w.wallet.seed;
    forall i: nat | IsIssued(m, seed, i) ensures i < Horizon(m, seed) {
      assert Derived(seed, i, n).index < Counter(w.wallet, n);
      forall t | 0 <= t <= i ensures !Gap(m, seed, t) {
        if t + RECOVERY_BATCH > i {
          assert t <= i < t + RECOVERY_BATCH;
        }
      }
      SweptIff(m, seed, i);
    }
  }

  // ------------------------------------------------------------ what comes back

  lemma ResumedWrites(w: World, saved: map<string, uint64>)
    requires Online(w)
    ensures var w' := Resumed(w, saved);
            && w'.auths == w.auths && w'.wallet.seed == w.wallet.seed && w'.wallet.seen == {}
            && w'.wallet.holdings == Found(w.auths, w.wallet.seed)
            && w'.wallet.own == Indices(Found(w.auths, w.wallet.seed))
            && w'.wallet.counters == Furthered(Restored(w).wallet, saved)
  {
    RecoverWrites(DestroyStore(w), w.wallet.seed);
  }

  lemma RestoredCounter(w: World, n: string)
    requires Online(w) && n in w.auths && BooksAt(w, n)
    ensures Counter(Restored(w).wallet, n) == Horizon(w.auths[n], w.wallet.seed)
  {
    RecoverCounter(DestroyStore(w), w.wallet.seed, n);
    HorizonBelowCounter(w, n);
    WrapLoses(Horizon(w.auths[n], w.wallet.seed));
  }

  /** What the resumed wallet holds at one authority, and where its counter stands. */
  lemma ResumedAt(w: World, saved: map<string, uint64>, n: string)
    requires Online(w) && n in w.auths && BooksAt(w, n)
    ensures var w', h := Resumed(w, saved), Horizon(w.auths[n], w.wallet.seed);
            && w'.auths == w.auths && w'.wallet.seed == w.wallet.seed
            && Held(w'.wallet, n) == LiveOutputs(w.auths[n], w.wallet.seed, h)
            && Counter(w'.wallet, n) == NextIndex(w, saved, n)
  {
    ResumedWrites(w, saved);
    FoundAt(w.auths, w.wallet.seed, n);
    RestoredCounter(w, n);
    FurtheredAt(Restored(w).wallet, saved, n);
  }

  /** A wallet whose every index is met gets back exactly what it held. */
  lemma MetHeld(w: World, n: string)
    requires n in w.auths && BooksAt(w, n) && Met(w, n)
    ensures var h := Horizon(w.auths[n], w.wallet.seed);
            forall k :: h <= k ==>
              LiveOutputs(w.auths[n], w.wallet.seed, k) == LiveOutputs(w.auths[n], w.wallet.seed, h)
    ensures LiveOutputs(w.auths[n], w.wallet.seed, Horizon(w.auths[n], w.wallet.seed)) == Held(w.wallet, n)
  {
    var m, seed, h := w.auths[n], w.wallet.seed, Horizon(w.auths[n], w.wallet.seed);
    forall k | h <= k ensures LiveOutputs(m, seed, k) == LiveOutputs(m, seed, h) {
      forall i | h <= i < k ensures !IsLive(m, seed, i) {
        assert IsLive(m, seed, i) ==> IsIssued(m, seed, i);
      }
      NothingLiveAbove(m, seed, h, k);
    }
    HorizonBelowCounter(w, n);
  }

  // ------------------------------------------------------------ whether the books are true

  lemma FoundIsLive(auths: map<string, Memory>, seed: Seed, c: Commitment)
    requires forall n :: n in auths ==> auths[n].name == n
    requires c in HeldCommitments(Found(auths, seed))
    ensures c.Derived? && c.seed == seed && c.authority in auths && Live(auths[c.authority], c)
  {
    var found: map<string, seq<Output>> := Found(auths, seed);
    var n: string, i: int :| n in found && 0 <= i < |found[n]| && found[n][i].commitment == c;
    LiveOutputsExact(auths[n], seed, Horizon(auths[n], seed));
    assert found[n][i] in found[n];
  }

  lemma LiveIsFound(w: World, c: Commitment)
    requires Books(w) && IsOwn(w, c) && Met(w, c.authority)
    ensures c in HeldCommitments(Found(w.auths, w.wallet.seed))
  {
    var n := c.authority;
    assert BooksAt(w, n);
    var m, seed := w.auths[n], w.wallet.seed;
    assert c == Derived(seed, c.index, n) && IsIssued(m, seed, c.index) && IsLive(m, seed, c.index);
    LiveOutputsExact(m, seed, Horizon(m, seed));
    HeldIsFound(w.auths, seed, n, Output(c, m.issued[c].amount));
  }

  lemma HeldIsFound(auths: map<string, Memory>, seed: Seed, n: string, o: Output)
    requires n in auths && o in LiveOutputs(auths[n], seed, Horizon(auths[n], seed))
    ensures o.commitment in HeldCommitments(Found(auths, seed))
  {
    var found: map<string, seq<Output>> := Found(auths, seed);
    assert n in found && found[n] == LiveOutputs(auths[n], seed, Horizon(auths[n], seed));
    var i :| 0 <= i < |found[n]| && found[n][i] == o;
    assert found[n][i].commitment in HeldCommitments(found);
  }

  lemma ResumedOwn(w: World, saved: map<string, uint64>)
    requires Books(w) && Online(w) && AllMet(w)
    ensures OwnExact(Resumed(w, saved))
  {
    var w' := Resumed(w, saved);
    ResumedWrites(w, saved);
    assert forall n :: n in w.auths ==> BooksAt(w, n);
    forall c ensures c in w'.wallet.own <==> IsOwn(w', c) {
      if IsOwn(w, c) { LiveIsFound(w, c); }
      if c in HeldCommitments(w'.wallet.holdings) { FoundIsLive(w.auths, w.wallet.seed, c); }
    }
  }

  lemma ResumedBooksAt(w: World, saved: map<string, uint64>, n: string)
    requires Online(w) && n in w.auths && BooksAt(w, n) && Met(w, n)
    ensures BooksAt(Resumed(w, saved), n) && Held(Resumed(w, saved).wallet, n) == Held(w.wallet, n)
  {
    ResumedAt(w, saved, n);
    MetHeld(w, n);
    BooksAgain(w, Resumed(w, saved), n);
  }

  /** Holding the same, and with the counter past all it was signed, the wallet's books are true. */
  lemma BooksAgain(w: World, w': World, n: string)
    requires n in w.auths && BooksAt(w, n) && Met(w, n)
    requires w'.auths == w.auths && w'.wallet.seed == w.wallet.seed
    requires Counter(w'.wallet, n) >= Horizon(w.auths[n], w.wallet.seed)
    requires Held(w'.wallet, n) == LiveOutputs(w.auths[n], w.wallet.seed, Counter(w'.wallet, n))
    ensures BooksAt(w', n)
  {
    forall c | c in w.auths[n].issued && c.seed == w.wallet.seed ensures c.index < Counter(w'.wallet, n) {
      assert c == Derived(w.wallet.seed, c.index, n) && IsIssued(w.auths[n], w.wallet.seed, c.index);
    }
  }

  /** If every index is met, the books that come back are true, whatever counters it saved. */
  lemma ResumedBooks(w: World, saved: map<string, uint64>)
    requires Books(w) && Online(w) && AllMet(w)
    ensures Books(Resumed(w, saved)) && Resumed(w, saved).auths == w.auths
  {
    ResumedWrites(w, saved);
    ResumedOwn(w, saved);
    forall n | n in w.auths ensures BooksAt(Resumed(w, saved), n) {
      assert BooksAt(w, n) && Met(w, n);
      ResumedBooksAt(w, saved, n);
    }
  }

  /** Every payee of n was paid below the index `next`, or at it while nothing is held. */
  predicate PaidBelow(w: World, n: string, next: nat)
    requires n in w.auths
  {
    forall c :: c in w.auths[n].issued && c.Derived? && c.seed == RecipientSeed(n) ==>
      c.index < next || (c.index == next && BalanceAt(w.wallet, n) == 0)
  }

  lemma ResumedClear(w: World, saved: map<string, uint64>, n: string)
    requires Online(w) && n in w.auths && BooksAt(w, n) && Met(w, n)
    ensures n in Resumed(w, saved).auths
    ensures PayeesClear(Resumed(w, saved), n) <==> PaidBelow(w, n, NextIndex(w, saved, n))
  {
    ResumedAt(w, saved, n);
    ResumedBooksAt(w, saved, n);
  }

  /** Saving a counter that is not behind the lost one is always enough. */
  lemma SavedIsClear(w: World, saved: map<string, uint64>, n: string)
    requires n in w.auths && InvAt(w, n) && n in saved && saved[n] >= Counter(w.wallet, n)
    ensures PaidBelow(w, n, NextIndex(w, saved, n))
  {
    HorizonBelowCounter(w, n);
  }
}
