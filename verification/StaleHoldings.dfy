/** What acquiring an output the wallet already holds leads to: the output is spent and stays on
    the books, and nothing held at its authority can be paid out until the wallet recovers. */
module StaleHoldings {
  import opened Basics
  import opened Words
  import opened Ledger
  import opened BearerPort
  import opened Recovery
  import opened PortInvariant
  import opened Restoration
  import opened PortRuns
  import opened PortConservation

  /** The wallet holds c at authority n, which has consumed it; all else it holds there was signed. */
  ghost predicate Stuck(w: World, n: string, c: Commitment) {
    && n in w.auths && w.auths[n].name == n
    && c.Derived? && c.seed == w.wallet.seed && c.authority == n && c.index < Counter(w.wallet, n)
    && c in w.auths[n].spent
    && c in CommitmentsOf(Held(w.wallet, n)) && CommitmentsOf(Held(w.wallet, n)) <= w.auths[n].issued.Keys
  }

  /** Anything but a loss of the store, as long as counters do not come round and other holders
      sign in their own spaces. */
  predicate Onward(w: World, e: Event) {
    match e
    case IssueEvent(target, _) => CounterRoom(w, target)
    case AcquireEvent(input) => CounterRoom(w, input.authority)
    case SpendEvent(_, target) => CounterRoom(w, target)
    case LossEvent(_) => false
    case ForeignIssue(_, seed, _, _) => seed != w.wallet.seed
    case ForeignSwap(_, _, outs) =>
      forall i :: 0 <= i < |outs| ==> outs[i].commitment.Derived? && outs[i].commitment.seed != w.wallet.seed
    case _ => true
  }

  ghost predicate OnwardRun(w: World, es: seq<Event>)
    decreases |es|
  {
    es == [] || (Onward(w, es[0]) && OnwardRun(Step(w, es[0]), es[1..]))
  }

  // ------------------------------------------------------------ what an authority forgets

  lemma {:induction false} ConsumeOnlyAdds(m: Memory, inputs: seq<Instrument>)
    ensures var m' := ConsumeAll(m, inputs);
            m'.name == m.name && m.issued.Keys <= m'.issued.Keys && m.spent <= m'.spent
    decreases |inputs|
  {
    if inputs == [] {
    } else {
      ConsumeOnlyAdds(ConsumeOne(m, inputs[0]), inputs[1..]);
    }
  }

  /** Signing forgets only the consumption of what it signs. */
  lemma {:induction false} SignForgets(m: Memory, outs: seq<Output>, c: Commitment)
    requires c in m.spent && forall i :: 0 <= i < |outs| ==> outs[i].commitment != c
    ensures var m' := SignAll(m, outs);
            && m'.name == m.name && c in m'.spent
            && m.issued.Keys <= m'.issued.Keys && CommitmentsOf(outs) <= m'.issued.Keys
    decreases |outs|
  {
    if outs == [] {
    } else {
      assert forall i :: 0 <= i < |outs[1..]| ==> outs[1..][i] == outs[i + 1];
      NamedStep(outs);
      SignForgets(SignOne(m, outs[0]), outs[1..], c);
    }
  }

  lemma SwapForgets(m: Memory, inputs: seq<Instrument>, outs: seq<Output>, c: Commitment)
    requires c in m.spent && forall i :: 0 <= i < |outs| ==> outs[i].commitment != c
    ensures var m' := Swapped(m, inputs, outs);
            && m'.name == m.name && c in m'.spent
            && m.issued.Keys <= m'.issued.Keys && CommitmentsOf(outs) <= m'.issued.Keys
  {
    ConsumeOnlyAdds(m, inputs);
    SignForgets(ConsumeAll(m, inputs), outs, c);
  }

  // ------------------------------------------------------------ a spend that cannot go through

  lemma {:induction false} SpentIsRejected(m: Memory, inputs: seq<Instrument>, i: nat)
    requires i < |inputs| && inputs[i].commitment in m.spent
    requires forall j :: 0 <= j < |inputs| ==> inputs[j].kind == m.kind && inputs[j].commitment in m.issued
    ensures RejectedInput(m, inputs) == Some(AlreadyConsumed)
    decreases |inputs|
  {
    if inputs[0].commitment in m.spent {
    } else {
      assert inputs[1..][i - 1] == inputs[i];
      SpentIsRejected(m, inputs[1..], i - 1);
    }
  }

  /** Every funded spend is refused and leaves the authorities as they are. */
  lemma StuckRefuses(w: World, n: string, c: Commitment, amount: uint64)
    requires Stuck(w, n, c) && 0 < amount <= BalanceAt(w.wallet, n)
    ensures Spend(w, amount, n).1 == Err(if w.auths[n].offline then StateUnavailable else AlreadyConsumed)
    ensures Spend(w, amount, n).0 == w.(wallet := Reserve(w.wallet, n))
  {
    var held := Held(w.wallet, n);
    var inputs := Payments(w.wallet, w.auths[n], held);
    var i :| 0 <= i < |held| && held[i].commitment == c;
    forall j | 0 <= j < |inputs| ensures inputs[j].commitment in w.auths[n].issued {
      assert held[j].commitment in CommitmentsOf(held);
    }
    SpentIsRejected(w.auths[n], inputs, i);
    SpendRefused(w, amount, n);
  }

  // ------------------------------------------------------------ nothing but a recovery helps

  /** c is still spent, the wallet still holds it, and what it holds besides was signed. */
  lemma StaysStuck(w: World, w': World, n: string, c: Commitment)
    requires Stuck(w, n, c) && n in w'.auths && w'.auths[n].name == n && w'.wallet.seed == w.wallet.seed
    requires Counter(w'.wallet, n) >= Counter(w.wallet, n)
    requires c in w'.auths[n].spent && w.auths[n].issued.Keys <= w'.auths[n].issued.Keys
    requires Held(w'.wallet, n) == Held(w.wallet, n)
             || exists o: Output :: o.commitment in w'.auths[n].issued && Held(w'.wallet, n) == Held(w.wallet, n) + [o]
    ensures Stuck(w', n, c)
  {
    var before, after := Held(w.wallet, n), Held(w'.wallet, n);
    forall x | x in CommitmentsOf(after) ensures x in w'.auths[n].issued {
      var i :| 0 <= i < |after| && after[i].commitment == x;
      assert i < |before| ==> before[i].commitment in CommitmentsOf(before);
    }
    var i :| 0 <= i < |before| && before[i].commitment == c;
    assert after[i].commitment in CommitmentsOf(after);
  }

  lemma StuckAfterIssue(w: World, n: string, c: Commitment, amount: uint64)
    requires Stuck(w, n, c) && CounterRoom(w, n)
    ensures Stuck(IssueInto(w, n, amount).0, n, c)
  {
    if amount > 0 {
      var w' := IssueInto(w, n, amount).0;
      IssueRecords(w, w', n, amount);
      assert Output(Mine(w, n), amount).commitment in w'.auths[n].issued;
      StaysStuck(w, w', n, c);
    }
  }

  lemma StuckAfterAcquire(w: World, n: string, c: Commitment, input: Instrument)
    requires Stuck(w, n, c) && CounterRoom(w, n) && input.authority == n
    ensures Stuck(Acquire(w, input).0, n, c)
  {
    var w', out := Acquire(w, input).0, AcquiredOutput(w, input);
    if Acquire(w, input).1.Ok? {
      assert AcquireStep(w, w', input);
      AcquireRecords(w, w', input);
      SwapForgets(w.auths[n], [input], [out], c);
      assert [out][0].commitment in CommitmentsOf([out]);
    } else {
      AcquireRefused(w, input);
    }
    StaysStuck(w, w', n, c);
  }

  lemma StuckAfterSpend(w: World, n: string, c: Commitment, amount: uint64)
    requires Stuck(w, n, c) && CounterRoom(w, n)
    ensures Stuck(Spend(w, amount, n).0, n, c)
  {
    if 0 < amount <= BalanceAt(w.wallet, n) {
      StuckRefuses(w, n, c, amount);
    }
    StaysStuck(w, Spend(w, amount, n).0, n, c);
  }

  lemma StuckElsewhere(w: World, e: Event, n: string, c: Commitment)
    requires Stuck(w, n, c) && Some(n) != Target(e) && !e.LossEvent?
    ensures Stuck(Step(w, e), n, c)
  {
    OthersUntouched(w, e, n);
    WalletUntouched(w, e, n);
    StaysStuck(w, Step(w, e), n, c);
  }

  lemma WalletUntouched(w: World, e: Event, n: string)
    requires Some(n) != Target(e) && !e.LossEvent?
    ensures var p, p' := w.wallet, Step(w, e).wallet;
            p'.seed == p.seed && Held(p', n) == Held(p, n) && Counter(p', n) == Counter(p, n)
  {
  }

  lemma StuckAfterForeign(w: World, e: Event, n: string, c: Commitment)
    requires Stuck(w, n, c) && Onward(w, e) && Some(n) == Target(e)
    requires e.ForeignIssue? || e.ForeignSwap? || e.RevealEvent? || e.OutageEvent? || e.PersistEvent?
    ensures Stuck(Step(w, e), n, c)
  {
    match e {
      case ForeignSwap(_, inputs, outs) => SwapForgets(w.auths[n], inputs, outs, c);
      case _ =>
    }
    StaysStuck(w, Step(w, e), n, c);
  }

  lemma StepStuck(w: World, e: Event, n: string, c: Commitment)
    requires Stuck(w, n, c) && Onward(w, e)
    ensures Stuck(Step(w, e), n, c)
  {
    if Some(n) != Target(e) {
      StuckElsewhere(w, e, n, c);
    } else {
      match e
      case IssueEvent(_, amount) => StuckAfterIssue(w, n, c, amount);
      case AcquireEvent(input) => StuckAfterAcquire(w, n, c, input);
      case SpendEvent(amount, _) => StuckAfterSpend(w, n, c, amount);
      case _ => StuckAfterForeign(w, e, n, c);
    }
  }

  lemma {:induction false} RunStuck(w: World, es: seq<Event>, n: string, c: Commitment)
    requires Stuck(w, n, c) && OnwardRun(w, es)
    ensures Stuck(Run(w, es), n, c)
    decreases |es|
  {
    if es == [] {
    } else {
      StepStuck(w, es[0], n, c);
      RunStuck(Step(w, es[0]), es[1..], n, c);
    }
  }

  lemma AcquiredStuck(w: World, input: Instrument)
    requires Books(w) && Acquire(w, input).1.Ok? && input.commitment in w.wallet.own
    requires CounterRoom(w, input.authority)
    ensures Stuck(Acquire(w, input).0, input.authority, input.commitment)
  {
    AcquireIsStep(w, input);
    AcquireHasEffect(w, Acquire(w, input).0, input);
    OwnIsThere(w, input.commitment);
    assert input.commitment.authority == input.authority by { assert BooksAt(w, input.authority); }
    EffectStuck(w, Acquire(w, input).0, input);
  }

  /** What the wallet knows as its own is signed below its counter, and held. */
  lemma OwnIsThere(w: World, c: Commitment)
    requires Books(w) && c in w.wallet.own
    ensures c.Derived? && c.seed == w.wallet.seed && c.authority in w.auths && BooksAt(w, c.authority)
    ensures c.index < Counter(w.wallet, c.authority) && c in CommitmentsOf(Held(w.wallet, c.authority))
  {
    assert IsOwn(w, c) && BooksAt(w, c.authority);
    OwnIsHeld(w, c.authority, c);
  }

  lemma EffectStuck(w: World, w': World, input: Instrument)
    requires AcquireEffect(w, w', input) && BooksAt(w, input.authority) && CounterRoom(w, input.authority)
    requires var c := input.commitment;
             && c.Derived? && c.seed == w.wallet.seed && c.authority == input.authority
             && c.index < Counter(w.wallet, c.authority) && c in CommitmentsOf(Held(w.wallet, c.authority))
    ensures Stuck(w', input.authority, input.commitment)
  {
    HeldGrew(w, w', input.authority, input);
  }

  lemma HeldGrew(w: World, w': World, n: string, input: Instrument)
    requires AcquireEffect(w, w', input) && n == input.authority && BooksAt(w, n)
    requires input.commitment in CommitmentsOf(Held(w.wallet, n))
    ensures input.commitment in CommitmentsOf(Held(w'.wallet, n))
    ensures CommitmentsOf(Held(w'.wallet, n)) <= w'.auths[n].issued.Keys
  {
    var held, held' := Held(w.wallet, n), Held(w'.wallet, n);
    HeldLive(w, n);
    var i :| 0 <= i < |held| && held[i].commitment == input.commitment;
    assert held'[i].commitment in CommitmentsOf(held');
    forall x | x in CommitmentsOf(held') ensures x in w'.auths[n].issued {
      var j :| 0 <= j < |held'| && held'[j].commitment == x;
      assert j < |held| ==> held[j].commitment in w.auths[n].issued;
    }
  }

  /** Once a wallet has acquired an output it already held, every spend its balance covers at that
      authority is refused, whatever happens in between short of a recovery, and nothing moves at
      any authority. */
  lemma AcquiringHeldBlocksSpending(w: World, input: Instrument, es: seq<Event>, amount: uint64)
    requires Books(w) && Acquire(w, input).1.Ok? && input.commitment in w.wallet.own
    requires CounterRoom(w, input.authority) && OnwardRun(Acquire(w, input).0, es)
    ensures var n, now := input.authority, Run(Acquire(w, input).0, es);
            && n in now.auths
            && (0 < amount <= BalanceAt(now.wallet, n) ==>
                  && Spend(now, amount, n).1 == Err(if now.auths[n].offline then StateUnavailable else AlreadyConsumed)
                  && Spend(now, amount, n).0.auths == now.auths)
  {
    var now := Run(Acquire(w, input).0, es);
    AcquiredStuck(w, input);
    RunStuck(Acquire(w, input).0, es, input.authority, input.commitment);
    if 0 < amount <= BalanceAt(now.wallet, input.authority) {
      StuckRefuses(now, input.authority, input.commitment, amount);
    }
  }

  /** Recovering from the seed is what helps: everything held afterwards is unspent. */
  lemma RecoveryUnblocks(w: World, n: string, c: Commitment)
    requires Stuck(w, n, c) && Online(w)
    ensures n in Restored(w).auths && !Stuck(Restored(w), n, c)
    ensures forall o :: o in Held(Restored(w).wallet, n) ==> Live(w.auths[n], o.commitment)
  {
    RecoverExact(DestroyStore(w), w.wallet.seed, n);
    RecoverWrites(DestroyStore(w), w.wallet.seed);
  }
}
