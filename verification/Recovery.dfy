/** Recovery is exact: what the sweep finds, where it stops, and what it leaves alone. */
module Recovery {
  import opened Basics
  import opened Words
  import opened Ledger
  import opened BearerPort

  /** Indices t .. t+7 were all never issued. */
  predicate Gap(m: Memory, seed: Seed, t: nat) {
    forall j :: t <= j < t + RECOVERY_BATCH ==> !IsIssued(m, seed, j)
  }

  /** Derived outputs in strictly increasing index order. */
  predicate Ascending(os: seq<Output>) {
    && (forall a :: 0 <= a < |os| ==> os[a].commitment.Derived?)
    && (forall a, b :: 0 <= a < b < |os| ==> os[a].commitment.index < os[b].commitment.index)
  }

  // ------------------------------------------------------------ LiveOutputs

  /** Membership, and the order: strictly increasing indices. */
  lemma {:induction false} LiveOutputsExact(m: Memory, seed: Seed, k: nat)
    ensures forall o :: o in LiveOutputs(m, seed, k) ==>
              && o.commitment.Derived? && o.commitment.seed == seed && o.commitment.authority == m.name
              && o.commitment.index < k
              && Live(m, o.commitment) && o.amount == m.issued[o.commitment].amount
    ensures forall i :: 0 <= i < k && IsLive(m, seed, i) ==>
              Output(Derived(seed, i, m.name), m.issued[Derived(seed, i, m.name)].amount)
                in LiveOutputs(m, seed, k)
    ensures Ascending(LiveOutputs(m, seed, k))
  {
    if k == 0 {
    } else {
      LiveOutputsExact(m, seed, k - 1);
      var before := LiveOutputs(m, seed, k - 1);
      var os := LiveOutputs(m, seed, k);
      forall a, b | 0 <= a < b < |os| ensures os[a].commitment.index < os[b].commitment.index {
        assert os[a] == before[a] && before[a] in before;
      }
    }
  }

  /** Two memories that agree on a derivation space below k hold the same outputs there. */
  lemma {:induction false} LiveOutputsFrame(m: Memory, m': Memory, seed: Seed, k: nat)
    requires m.name == m'.name
    requires forall i :: 0 <= i < k ==>
               var c := Derived(seed, i, m.name);
               && (Live(m, c) <==> Live(m', c))
               && (Live(m, c) ==> m.issued[c].amount == m'.issued[c].amount)
    ensures LiveOutputs(m, seed, k) == LiveOutputs(m', seed, k)
  {
    if k == 0 {
    } else {
      LiveOutputsFrame(m, m', seed, k - 1);
      var c := Derived(seed, k - 1, m.name);
      assert Live(m, c) <==> Live(m', c);
    }
  }

  lemma {:induction false} NothingLiveAbove(m: Memory, seed: Seed, s: nat, k: nat)
    requires s <= k
    requires forall i :: s <= i < k ==> !IsLive(m, seed, i)
    ensures LiveOutputs(m, seed, k) == LiveOutputs(m, seed, s)
    decreases k - s
  {
    if s == k {
    } else {
      NothingLiveAbove(m, seed, s, k - 1);
      assert !IsLive(m, seed, k - 1);
    }
  }

  lemma {:induction false} LiveOutputsGrow(m: Memory, seed: Seed, s: nat, k: nat)
    requires s <= k
    ensures |LiveOutputs(m, seed, s)| <= |LiveOutputs(m, seed, k)|
    ensures (exists i :: s <= i < k && IsLive(m, seed, i)) ==>
              |LiveOutputs(m, seed, s)| < |LiveOutputs(m, seed, k)|
    decreases k - s
  {
    if s == k {
    } else {
      LiveOutputsGrow(m, seed, s, k - 1);
    }
  }

  // ------------------------------------------------------------ where the sweep stops

  lemma {:induction false} SweepEndIsFirstGap(m: Memory, seed: Seed, i: nat, misses: nat)
    requires misses < RECOVERY_BATCH && misses <= i
    requires forall j :: i - misses <= j < i ==> !IsIssued(m, seed, j)
    requires forall t :: 0 <= t < i - misses ==> !Gap(m, seed, t)
    ensures var s := SweepEnd(m, seed, i, misses);
            && Gap(m, seed, s) && (forall t :: 0 <= t < s ==> !Gap(m, seed, t))
            && i - misses <= s <= i - misses + 8 * |Above(m, seed, i)|
    decreases |Above(m, seed, i)|, RECOVERY_BATCH - misses
  {
    AboveStep(m, seed, i);
    if IsIssued(m, seed, i) {
      forall t | 0 <= t < i + 1 ensures !Gap(m, seed, t) {
        if t >= i - misses { assert t <= i < t + RECOVERY_BATCH; }
      }
      SweepEndIsFirstGap(m, seed, i + 1, 0);
    } else if misses + 1 < RECOVERY_BATCH {
      SweepEndIsFirstGap(m, seed, i + 1, misses + 1);
    } else {
      assert Gap(m, seed, i - misses);
    }
  }

  /** The sweep ends at the first run of eight consecutive unissued indices, and that run
      starts right after an issued index (or at 0). It exists because the log is finite, and
      lies below eight times the number of issued outputs. */
  lemma HorizonIsFirstGap(m: Memory, seed: Seed)
    ensures var s := Horizon(m, seed);
            && Gap(m, seed, s) && (forall t :: 0 <= t < s ==> !Gap(m, seed, t))
            && (s > 0 ==> IsIssued(m, seed, s - 1))
            && s <= 8 * |Above(m, seed, 0)|
  {
    SweepEndIsFirstGap(m, seed, 0, 0);
    var s := Horizon(m, seed);
    if s > 0 && !IsIssued(m, seed, s - 1) {
      assert Gap(m, seed, s - 1);
    }
  }

  /** The sweep is the only thing that satisfies that description. */
  lemma HorizonUnique(m: Memory, seed: Seed, s: nat)
    requires Gap(m, seed, s) && forall t :: 0 <= t < s ==> !Gap(m, seed, t)
    ensures s == Horizon(m, seed)
  {
    HorizonIsFirstGap(m, seed);
  }

  /** An output below index k survives a sweep exactly when no run of eight unissued indices
      starts at or below it. */
  lemma SweptIff(m: Memory, seed: Seed, i: nat)
    requires IsIssued(m, seed, i)
    ensures i < Horizon(m, seed) <==> forall t :: 0 <= t <= i ==> !Gap(m, seed, t)
  {
    HorizonIsFirstGap(m, seed);
  }

  // ------------------------------------------------------------ Recover

  /** Recovery against any authority memory whatever. */
  lemma RecoverExact(w: World, seed: Seed, n: string)
    requires n in w.auths
    ensures AnyOffline(w.auths) <==> Recover(w, seed).1.Err?
    ensures Recover(w, seed).1.Err? ==> Recover(w, seed) == (w, Err(StateUnavailable))
    ensures var (w', r) := Recover(w, seed);
            r.Ok? ==>
              var m := w.auths[n];
              && w'.auths == w.auths
              && (forall o :: o in Held(w'.wallet, n) <==>
                    && o.commitment.Derived? && o.commitment.seed == seed
                    && o.commitment.authority == m.name && Live(m, o.commitment)
                    && o.amount == m.issued[o.commitment].amount
                    && (forall t :: 0 <= t <= o.commitment.index ==> !Gap(m, seed, t)))
              && Ascending(Held(w'.wallet, n))
  {
    var (w', r) := Recover(w, seed);
    if r.Ok? {
      var m := w.auths[n];
      var s := Horizon(m, seed);
      HorizonIsFirstGap(m, seed);
      LiveOutputsExact(m, seed, s);
      assert Held(w'.wallet, n) == LiveOutputs(m, seed, s);
      forall i: nat | IsIssued(m, seed, i)
        ensures i < s <==> forall t :: 0 <= t <= i ==> !Gap(m, seed, t)
      {
        SweptIff(m, seed, i);
      }
      forall o: Output | o.commitment.Derived? && o.commitment.seed == seed && Live(m, o.commitment)
                         && o.commitment.authority == m.name
        ensures IsIssued(m, seed, o.commitment.index)
      {
        assert o.commitment == Derived(seed, o.commitment.index, m.name);
      }
    }
  }

  /** Everything an accepted recovery writes. */
  lemma RecoverWrites(w: World, seed: Seed)
    requires Recover(w, seed).1.Ok?
    ensures var (w', r) := Recover(w, seed);
            && w'.auths == w.auths && w'.wallet.seed == w.wallet.seed && w'.wallet.seen == {}
            && w'.wallet.holdings == Found(w.auths, seed) && w'.wallet.own == Indices(w'.wallet.holdings)
            && w'.wallet.counters == Advanced(w.wallet, Horizons(w.auths, seed))
            && r.value == Balances(w'.wallet.holdings)
  {
  }

  /** One authority's share of what a sweep of all found. */
  lemma FoundAt(auths: map<string, Memory>, seed: Seed, n: string)
    requires n in auths
    ensures var found := Found(auths, seed);
            (if n in found then found[n] else []) == LiveOutputs(auths[n], seed, Horizon(auths[n], seed))
  {
  }

  lemma AdvancedAt(p: Wallet, tops: map<string, nat>, n: string)
    requires n in tops
    ensures var counters := Advanced(p, tops);
            (if n in counters then counters[n] else 0) ==
              if Wrap64(tops[n]) > Counter(p, n) then Wrap64(tops[n]) else Counter(p, n)
  {
    FurtheredAt(p, Wrapped(tops), n);
  }

  /** The counter afterwards: where it was, or just past the last index the sweep met, whichever
      is further. */
  lemma RecoverCounter(w: World, seed: Seed, n: string)
    requires n in w.auths && Recover(w, seed).1.Ok?
    ensures var c, h := Counter(Recover(w, seed).0.wallet, n), Horizon(w.auths[n], seed);
            && c == (if Wrap64(h) > Counter(w.wallet, n) then Wrap64(h) else Counter(w.wallet, n))
            && (FitsUint64(h) ==> c >= h && c >= Counter(w.wallet, n))
            && (h > 0 ==> IsIssued(w.auths[n], seed, h - 1))
            && forall i :: h <= i < h + RECOVERY_BATCH ==> !IsIssued(w.auths[n], seed, i)
  {
    RecoverWrites(w, seed);
    AdvancedAt(w.wallet, Horizons(w.auths, seed), n);
    HorizonIsFirstGap(w.auths[n], seed);
    WrapLoses(Horizon(w.auths[n], seed));
  }

  /** What recovery reports: for every authority that holds anything, and for no other, the
      balance the wallet then has there. */
  lemma RecoveredBalances(w: World, seed: Seed, n: string)
    requires Recover(w, seed).1.Ok?
    ensures var (w', r) := Recover(w, seed);
            && (n in r.value <==> Held(w'.wallet, n) != [])
            && (n in r.value ==> n in w.auths && r.value[n] == BalanceAt(w'.wallet, n))
  {
  }

  /** The index remembered for every recovered output is the one that derives it, and nothing
      else is remembered. */
  lemma RecoveredIndices(w: World, seed: Seed, c: Commitment)
    requires Recover(w, seed).1.Ok?
    ensures var w' := Recover(w, seed).0;
            && (c in w'.wallet.own <==>
                  exists n :: n in w.auths && exists o :: o in Held(w'.wallet, n) && o.commitment == c)
            && (c in w'.wallet.own ==> c.Derived? && w'.wallet.own[c] == c.index)
  {
    var w' := Recover(w, seed).0;
    var held: map<string, seq<Output>> := w'.wallet.holdings;
    if c in w'.wallet.own {
      var n: string, i: int :| n in held && 0 <= i < |held[n]| && held[n][i].commitment == c;
      assert held[n][i] in Held(w'.wallet, n);
      LiveOutputsExact(w.auths[n], seed, Horizon(w.auths[n], seed));
    }
    if n, o :| n in w.auths && o in Held(w'.wallet, n) && o.commitment == c {
      var i :| 0 <= i < |held[n]| && held[n][i] == o;
      assert held[n][i].commitment in HeldCommitments(held);
    }
  }

  /** A stranger's seed brings back nothing of ours. */
  lemma ForeignSeedRecoversNothing(w: World, seed: Seed, n: string)
    requires n in w.auths
    requires forall i: nat :: !IsIssued(w.auths[n], seed, i)
    requires Recover(w, seed).1.Ok?
    ensures Held(Recover(w, seed).0.wallet, n) == []
  {
    var m := w.auths[n];
    HorizonIsFirstGap(m, seed);
    assert Horizon(m, seed) == 0;
  }
}
