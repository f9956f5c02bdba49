/** Why a recovered wallet must persist its old counter before it pays again: the index of a
    past payee can come round, and the payee's output is then overwritten. */
module PayeeReuse {
  import opened Basics
  import opened Words
  import opened Ledger
  import opened BearerPort
  import opened Recovery
  import opened PortInvariant
  import opened Restoration

  const MINT: string := "cashu:m"

  function Own(i: nat): Commitment { Derived("holder", i, MINT) }

  function Payee(i: nat): Commitment { Derived(RecipientSeed(MINT), i, MINT) }

  function Mint(issued: map<Commitment, Issuance>, spent: set<Commitment>): Memory {
    Memory(MINT, "cashuA", Query, false, true, false, issued, spent)
  }

  function Holding(outs: seq<Output>, own: map<Commitment, nat>, counter: uint64, m: Memory): World {
    World(Wallet("holder", map[MINT := outs], own, map[MINT := counter], {}), map[MINT := m])
  }

  const START: World := World(Wallet("holder", map[], map[], map[], {}), map[MINT := Mint(map[], {})])

  /** A note the mint never signed: acquiring it fails and burns an index. */
  const FORGED: Instrument := Instrument("cashuA", MINT, 1, 1, Alien("forged"), Unlearned)

  function Learned(i: nat, amount: uint64): Issuance {
    Issuance(Tag("holder", i, MINT), amount)
  }

  function Signed(amount: uint64): Issuance { Issuance(Unlearned, amount) }

  /** Issuing into an empty wallet. */
  lemma IssueFirst(index: uint64, amount: uint64, w: World, m: Memory)
    requires amount > 0 && index < MAX_UINT64 && m.name == MINT && !m.learnsAtIssuance
    requires w.wallet.seed == "holder" && w.auths == map[MINT := m] && w.wallet.own == map[]
    requires Held(w.wallet, MINT) == [] && w.wallet.holdings.Keys <= {MINT} && w.wallet.seen == {}
    requires Counter(w.wallet, MINT) == index && w.wallet.counters.Keys <= {MINT}
    requires Own(index) !in m.spent
    ensures IssueInto(w, MINT, amount).0
         == Holding([Output(Own(index), amount)], map[Own(index) := index], index + 1,
                    m.(issued := m.issued[Own(index) := Signed(amount)]))
  {
    var w' := IssueInto(w, MINT, amount).0;
    assert Held(w.wallet, MINT) + [Output(Own(index), amount)] == [Output(Own(index), amount)];
    assert w'.wallet.holdings == map[MINT := [Output(Own(index), amount)]];
    assert w'.wallet.counters == map[MINT := index + 1];
    assert w'.wallet.own == map[Own(index) := index];
    assert m.spent - {Own(index)} == m.spent;
  }

  function AfterIssue(): World {
    Holding([Output(Own(0), 10)], map[Own(0) := 0], 1, Mint(map[Own(0) := Signed(10)], {}))
  }

  function AfterBurn(): World {
    Holding([Output(Own(0), 10)], map[Own(0) := 0], 2, Mint(map[Own(0) := Signed(10)], {}))
  }

  lemma BurnOne()
    ensures Acquire(AfterIssue(), FORGED) == (AfterBurn(), Err(NotIssued))
  {
    var m := AfterIssue().auths[MINT];
    assert FORGED.commitment !in m.issued;
    assert [FORGED][0] == FORGED;
    assert RejectedInput(m, [FORGED]) == Some(NotIssued);
    assert AfterIssue().wallet.counters[MINT := 2] == map[MINT := 2];
  }

  /** What paying all of one held output hands to the mint, and asks it to sign. */
  lemma PayAllOutputs(index: nat, amount: uint64, counter: uint64, m: Memory)
    requires amount > 0 && m.name == MINT
    ensures var w := Holding([Output(Own(index), amount)], map[Own(index) := index], counter, m);
            && Held(w.wallet, MINT) == [Output(Own(index), amount)] && BalanceAt(w.wallet, MINT) == amount
            && Replacements(w.wallet, MINT, m, amount) == [Output(Payee(counter), amount)]
            && Payments(w.wallet, m, Held(w.wallet, MINT))
               == [Instrument(m.kind, MINT, amount, amount, Own(index), Tag("holder", index, MINT))]
  {
    var w := Holding([Output(Own(index), amount)], map[Own(index) := index], counter, m);
    var held := Held(w.wallet, MINT);
    assert held == [Output(Own(index), amount)] && held[1..] == [];
    assert ExactValue(held) == held[0].amount + ExactValue(held[1..]);
  }

  lemma PayAllSwap(index: nat, amount: uint64, payee: Commitment, m: Memory, inputs: seq<Instrument>, outs: seq<Output>)
    requires amount > 0 && m.name == MINT && !m.offline
    requires Own(index) in m.issued && m.issued[Own(index)].amount == amount && Own(index) !in m.spent
    requires inputs == [Instrument(m.kind, MINT, amount, amount, Own(index), Tag("holder", index, MINT))]
    requires outs == [Output(payee, amount)]
    ensures SwapRefusal(m, inputs, outs) == None
    ensures Swapped(m, inputs, outs)
         == m.(issued := m.issued[Own(index) := Learned(index, amount)][payee := Signed(amount)],
               spent := m.spent + {Own(index)} - {payee})
  {
    assert inputs[1..] == [] && outs[1..] == [];
    assert RejectedInput(m, inputs) == None;
    assert RecordedValue(m, inputs) == amount + RecordedValue(m, inputs[1..]);
    assert ExactValue(outs) == outs[0].amount + ExactValue(outs[1..]);
    assert ConsumeAll(m, inputs) == ConsumeOne(m, inputs[0]);
    assert SignAll(ConsumeOne(m, inputs[0]), outs) == SignOne(ConsumeOne(m, inputs[0]), outs[0]);
  }

  /** Spending the whole of one held output pays the payee at the current index. */
  lemma PayAll(index: nat, amount: uint64, counter: uint64, m: Memory)
    requires amount > 0 && counter < MAX_UINT64
    requires m.name == MINT && m.kind == "cashuA" && !m.offline
    requires Own(index) in m.issued && m.issued[Own(index)].amount == amount && Own(index) !in m.spent
    ensures var w := Holding([Output(Own(index), amount)], map[Own(index) := index], counter, m);
            var r := Spend(w, amount, MINT);
            && r.1.Ok?
            && r.0 == Holding([], map[], counter + 1,
                              m.(issued := m.issued[Own(index) := Learned(index, amount)]
                                                   [Payee(counter) := Signed(amount)],
                                 spent := m.spent + {Own(index)} - {Payee(counter)}))
  {
    var w := Holding([Output(Own(index), amount)], map[Own(index) := index], counter, m);
    var held := Held(w.wallet, MINT);
    PayAllOutputs(index, amount, counter, m);
    PayAllSwap(index, amount, Payee(counter), m, Payments(w.wallet, m, held), Replacements(w.wallet, MINT, m, amount));
    assert w.wallet.holdings[MINT := []] == map[MINT := []];
    assert w.wallet.counters[MINT := counter + 1] == map[MINT := counter + 1];
    assert Forget(w.wallet.own, held) == map[] by {
      assert held[0].commitment in (set i | 0 <= i < |held| :: held[i].commitment);
    }
  }

  /** The mint's log once the ten are paid out at index 2. */
  function PaidLog(): Memory {
    Mint(map[Own(0) := Learned(0, 10), Payee(2) := Signed(10)], {Own(0)})
  }

  function AfterPay(): World { Holding([], map[], 3, PaidLog()) }

  function AfterRecovery(): World {
    World(Wallet("holder", map[], map[], map[MINT := 1], {}), map[MINT := PaidLog()])
  }

  lemma PaidHorizon()
    ensures Horizon(PaidLog(), "holder") == 1
    ensures LiveOutputs(PaidLog(), "holder", 1) == []
  {
    var m := PaidLog();
    assert IsIssued(m, "holder", 0);
    HorizonUnique(m, "holder", 1);
    assert LiveOutputs(m, "holder", 0) == [] && !IsLive(m, "holder", 0);
  }

  lemma PaidSweep()
    ensures var auths := map[MINT := PaidLog()];
            && Found(auths, "holder") == map[] && Indices(Found(auths, "holder")) == map[]
            && Advanced(DestroyStore(AfterPay()).wallet, Horizons(auths, "holder")) == map[MINT := 1]
  {
    PaidHorizon();
    assert Horizons(map[MINT := PaidLog()], "holder") == map[MINT := 1];
    AdvancedFromNothing(DestroyStore(AfterPay()).wallet);
  }

  lemma AdvancedFromNothing(p: Wallet)
    requires p.counters == map[]
    ensures Advanced(p, map[MINT := 1]) == map[MINT := 1]
  {
    assert Wrapped(map[MINT := 1]) == map[MINT := 1];
  }

  lemma RecoverForgets()
    ensures Restored(AfterPay()) == AfterRecovery()
  {
    PaidSweep();
    RecoverWrites(DestroyStore(AfterPay()), "holder");
  }

  /** The first half of the run: issue 10, fail to acquire once, pay 10 out. */
  lemma PayeePaid()
    ensures Spend(Acquire(IssueInto(START, MINT, 10).0, FORGED).0, 10, MINT).0 == AfterPay()
  {
    IssueFirst(0, 10, START, START.auths[MINT]);
    assert IssueInto(START, MINT, 10).0 == AfterIssue();
    BurnOne();
    var m := Mint(map[Own(0) := Signed(10)], {});
    PayAll(0, 10, 2, m);
    assert {} + {Own(0)} - {Payee(2)} == {Own(0)};
    assert m.issued[Own(0) := Learned(0, 10)][Payee(2) := Signed(10)] == PaidLog().issued;
  }

  /** The second half: issue 5 and pay it out, from the recovered wallet. */
  lemma PayeePaidAgain()
    ensures var m := Spend(IssueInto(AfterRecovery(), MINT, 5).0, 5, MINT).0.auths[MINT];
            Live(m, Payee(2)) && m.issued[Payee(2)].amount == 5
  {
    IssueFirst(1, 5, AfterRecovery(), PaidLog());
    PayAll(1, 5, 2, PaidLog().(issued := PaidLog().issued[Own(1) := Signed(5)]));
  }

  /** Issue 10, fail to acquire once, pay 10 out, lose the store, recover, issue 5, pay 5 out:
      the payee's unspent output of 10 is now worth 5. */
  lemma PayeeOverwritten()
    ensures Spend(Acquire(IssueInto(START, MINT, 10).0, FORGED).0, 10, MINT).0 == AfterPay()
    ensures Live(AfterPay().auths[MINT], Payee(2)) && AfterPay().auths[MINT].issued[Payee(2)].amount == 10
    ensures Restored(AfterPay()) == AfterRecovery()
    ensures var m := Spend(IssueInto(AfterRecovery(), MINT, 5).0, 5, MINT).0.auths[MINT];
            Live(m, Payee(2)) && m.issued[Payee(2)].amount == 5
  {
    PayeePaid();
    RecoverForgets();
    PayeePaidAgain();
  }
}
