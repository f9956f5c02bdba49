/** Two wallets for which promises of the bearer port fail: one acquires an output it holds, and
    one counts past its last index. */
module PortExamples {
  import opened Basics
  import opened Words
  import opened Ledger
  import opened BearerPort
  import opened Recovery
  import opened PortInvariant
  import opened PortRuns
  import opened PortConservation
  import opened StaleHoldings
  import opened PayeeReuse

  /** A new wallet that had ten issued has true books. */
  lemma IssuedHonest()
    ensures IssueInto(START, MINT, 10).0 == AfterIssue()
    ensures Inv(AfterIssue())
  {
    FreshWalletHonest("holder", START.auths);
    IssueFirst(0, 10, START, START.auths[MINT]);
    IssueIntoKeeps(START, MINT, 10);
    KeepsInv(START, AfterIssue());
  }

  /** The ten it holds, handed to it as if by another. */
  const OWN_TEN: Instrument := Instrument("cashuA", MINT, 10, 10, Own(0), Unlearned)

  lemma OwnTenAccepted()
    ensures SwapRefusal(AfterIssue().auths[MINT], [OWN_TEN], [Output(Own(1), 10)]) == None
  {
    var m, ins, outs := AfterIssue().auths[MINT], [OWN_TEN], [Output(Own(1), 10)];
    assert ins[1..] == [] && outs[1..] == [] && ins[0] == OWN_TEN && outs[0] == Output(Own(1), 10);
    assert RejectedInput(m, ins[1..]) == None;
    assert RecordedValue(m, ins) == 10 + RecordedValue(m, ins[1..]);
    assert ExactValue(outs) == 10 + ExactValue(outs[1..]);
  }

  /** Issue 10 and acquire that very output: it is accepted, twenty are on the books, and not even
      one can be paid. */
  lemma HeldAcquired()
    ensures Inv(AfterIssue()) && Acquire(AfterIssue(), OWN_TEN).1 == Ok(10)
    ensures var w := Acquire(AfterIssue(), OWN_TEN).0;
            && BalanceAt(w.wallet, MINT) == 20 && Spend(w, 1, MINT).1 == Err(AlreadyConsumed)
            && !Inv(w)
  {
    var w, w' := AfterIssue(), Acquire(AfterIssue(), OWN_TEN).0;
    IssuedHonest();
    OwnTenAccepted();
    assert AcquiredOutput(w, OWN_TEN) == Output(Own(1), 10);
    AcquireIsStep(w, OWN_TEN);
    AcquireCreditsRecord(w, OWN_TEN);
    TwentyHeld(w, w');
    AcquireKeepsIff(w, OWN_TEN);
    AcquiredStuck(w, OWN_TEN);
    StuckRefuses(w', MINT, Own(0), 1);
  }

  lemma TwentyHeld(w: World, w': World)
    requires w == AfterIssue() && Books(w) && AcquireStep(w, w', OWN_TEN)
    ensures BalanceAt(w'.wallet, MINT) == 20 && MINT in w'.auths && !w'.auths[MINT].offline
  {
    AcquireRecords(w, w', OWN_TEN);
    assert !w'.auths[MINT].offline by { AcquireSwap(w, w', OWN_TEN); }
    TwentyWorth(Held(w'.wallet, MINT));
  }

  lemma TwentyWorth(held: seq<Output>)
    requires held == [Output(Own(0), 10), Output(Own(1), 10)]
    ensures ExactValue(held) == 20
  {
    assert held[1..] == [Output(Own(1), 10)] && held[1..][1..] == [];
    assert ExactValue(held) == 10 + ExactValue(held[1..]);
    assert ExactValue(held[1..]) == 10 + ExactValue(held[1..][1..]);
  }

  // ------------------------------------------------------------ counting past the last index

  /** The same wallet after its counter was persisted at its last value. */
  function AtLast(): World {
    PersistCounter(AfterIssue(), MINT, MAX_UINT64)
  }

  lemma AtLastHonest()
    ensures Inv(AtLast()) && Counter(AtLast().wallet, MINT) == MAX_UINT64
  {
    IssuedHonest();
    PersistKeeps(AfterIssue(), MINT, MAX_UINT64);
    KeepsInv(AfterIssue(), AtLast());
  }

  /** Issue 5 at the last index and 7 after it: the counter comes round to 0, and the ten that were
      signed there, still unspent, are worth 7. */
  lemma CounterComesRound()
    ensures Inv(AtLast()) && Live(AtLast().auths[MINT], Own(0)) && AtLast().auths[MINT].issued[Own(0)].amount == 10
    ensures var w1 := IssueInto(AtLast(), MINT, 5).0;
            var w2 := IssueInto(w1, MINT, 7).0;
            && Counter(w1.wallet, MINT) == 0 && !Inv(w1)
            && Live(w2.auths[MINT], Own(0)) && w2.auths[MINT].issued[Own(0)].amount == 7
  {
    var w := AtLast();
    var w1 := IssueInto(w, MINT, 5).0;
    AtLastHonest();
    assert !Inv(w1) by { IssueIntoKeepsIff(w, MINT, 5); }
    CounterWraps(w, w1);
    SignedAtZero(w1);
  }

  lemma CounterWraps(w: World, w1: World)
    requires w.wallet.seed == "holder" && MINT in w.auths && w.auths[MINT].name == MINT
    requires Counter(w.wallet, MINT) == MAX_UINT64 && w1 == IssueInto(w, MINT, 5).0
    ensures w1.wallet.seed == "holder" && MINT in w1.auths && w1.auths[MINT].name == MINT
    ensures Counter(w1.wallet, MINT) == 0
  {
  }

  lemma SignedAtZero(w: World)
    requires w.wallet.seed == "holder" && MINT in w.auths && w.auths[MINT].name == MINT
    requires Counter(w.wallet, MINT) == 0
    ensures var m := IssueInto(w, MINT, 7).0.auths[MINT];
            Live(m, Own(0)) && m.issued[Own(0)].amount == 7
  {
    IssueRecords(w, IssueInto(w, MINT, 7).0, MINT, 7);
  }
}
