/** When a wallet may go on paying: exactly while no index its counter can reach belongs to a past
    payee. Otherwise some run overwrites what that payee was paid. */
module PayeeSafety {
  import opened Basics
  import opened Words
  import opened Ledger
  import opened BearerPort
  import opened Recovery
  import opened PortInvariant
  import opened PortRuns
  import opened PortConservation

  /** Nobody at an authority loses anything: its log and spend set only grow, and its unspent
      value changes by what it issued, up to multiples of 2^64. */
  ghost predicate Harmless(m: Memory, m': Memory, minted: nat) {
    Extends(m, m') && Wrap64(Total(m')) == Wrap64(Total(m) + minted)
  }

  ghost predicate HarmlessRun(w: World, es: seq<Event>, n: string)
    requires n in w.auths
  {
    n in Run(w, es).auths && Harmless(w.auths[n], Run(w, es).auths[n], Minted(es, n))
  }

  /** The wallet may go on: whatever it is asked to do, at every authority nobody loses anything. */
  ghost predicate MayGoOn(w: World) {
    forall es, n :: AllowedRun(w, es) && n in w.auths ==> HarmlessRun(w, es, n)
  }

  // ------------------------------------------------------------ signing what is signed already

  /** Signing a live output again at its own amount adds nothing to the unspent value. */
  lemma SignedAgain(m: Memory, o: Output)
    requires Live(m, o.commitment) && m.issued[o.commitment].amount == o.amount
    ensures Total(SignOne(m, o)) == Total(m)
  {
    forall p | p in UnspentCoins(SignOne(m, o)) ensures p in UnspentCoins(m) {
      assert p.0 in m.issued && p.0 !in m.spent;
    }
    forall p | p in UnspentCoins(m) ensures p in UnspentCoins(SignOne(m, o)) {
      assert p.0 in SignOne(m, o).issued && p.0 !in SignOne(m, o).spent;
    }
    assert UnspentCoins(SignOne(m, o)) == UnspentCoins(m);
  }

  /** The output c is no longer what it was: unspent again, or worth something else. */
  predicate Altered(m: Memory, m': Memory, c: Commitment)
    requires c in m.issued && c in m'.issued
  {
    (c in m.spent && c !in m'.spent) || m'.issued[c].amount != m.issued[c].amount
  }

  /** Signing one for an output that is already in the log, and then the rest of a balance. */
  lemma SignOverPayee(m: Memory, pay: Output, back: seq<Output>)
    requires pay.commitment in m.issued
    requires |back| <= 1 && (back != [] ==> back[0].commitment !in m.issued)
    ensures var m' := SignAll(m, [pay] + back);
            && pay.commitment in m'.issued
            && m'.issued[pay.commitment].amount == pay.amount && pay.commitment !in m'.spent
            && (Live(m, pay.commitment) && m.issued[pay.commitment].amount == pay.amount ==>
                  Total(m') == Total(m) + ExactValue(back))
  {
    var m1 := SignOne(m, pay);
    assert ([pay] + back)[0] == pay && ([pay] + back)[1..] == back;
    if back == [] {
      assert SignAll(m1, back) == m1;
    } else {
      assert back[1..] == [] && ExactValue(back) == back[0].amount + ExactValue(back[1..]);
      assert SignAll(m1, back) == SignOne(m1, back[0]);
      SignOneTotal(m1, back[0]);
    }
    if Live(m, pay.commitment) && m.issued[pay.commitment].amount == pay.amount { SignedAgain(m, pay); }
  }

  // ------------------------------------------------------------ one spend too many

  /** A payee sits where the counter stands, and there is something to pay with. */
  predicate OnPayee(w: World, n: string) {
    && n in w.auths && Pay(w, n) in w.auths[n].issued
    && BalanceAt(w.wallet, n) > 0 && CounterRoom(w, n) && !w.auths[n].offline
  }

  /** The payment of one and the rest of the balance, at the payee's index. */
  lemma OutputsOfOne(w: World, n: string)
    requires n in w.auths && w.auths[n].name == n && BalanceAt(w.wallet, n) > 0
    ensures var outs := Replacements(w.wallet, n, w.auths[n], 1);
            && outs != [] && outs == [Output(Pay(w, n), 1)] + outs[1..]
            && |outs[1..]| <= 1 && (outs[1..] != [] ==> outs[1..][0].commitment == Mine(w, n))
            && ExactValue(outs[1..]) == BalanceAt(w.wallet, n) - 1
            && ExactValue(outs) == BalanceAt(w.wallet, n) && !HasZero(outs)
  {
    var outs := Replacements(w.wallet, n, w.auths[n], 1);
    assert ExactValue(outs) == 1 + ExactValue(outs[1..]);
    if |outs| == 2 {
      assert outs[1..] == [outs[1]] && outs[1..][1..] == [];
      assert ExactValue(outs[1..]) == outs[1].amount + ExactValue(outs[1..][1..]);
    } else {
      assert outs[1..] == [];
    }
  }

  lemma SpendOfOne(w: World, n: string)
    requires Books(w) && OnPayee(w, n)
    ensures SwapRefusal(w.auths[n], Payments(w.wallet, w.auths[n], Held(w.wallet, n)),
                        Replacements(w.wallet, n, w.auths[n], 1)) == None
  {
    assert BooksAt(w, n);
    HeldPayable(w, n);
    OutputsOfOne(w, n);
    WrapTwice(ExactValue(Held(w.wallet, n)));
    assert Held(w.wallet, n) != [];
  }

  lemma SpendAccepted(w: World, n: string)
    requires n in w.auths && 1 <= BalanceAt(w.wallet, n)
    requires SwapRefusal(w.auths[n], Payments(w.wallet, w.auths[n], Held(w.wallet, n)),
                         Replacements(w.wallet, n, w.auths[n], 1)) == None
    ensures Spend(w, 1, n).0.auths
         == w.auths[n := Swapped(w.auths[n], Payments(w.wallet, w.auths[n], Held(w.wallet, n)),
                                 Replacements(w.wallet, n, w.auths[n], 1))]
  {
  }

  /** What consuming everything held leaves of a payee's output. */
  lemma PayeeNotHeld(w: World, n: string)
    requires Books(w) && OnPayee(w, n)
    ensures var m := w.auths[n];
            var m1 := ConsumeAll(m, Payments(w.wallet, m, Held(w.wallet, n)));
            && Pay(w, n) in m1.issued && m1.issued[Pay(w, n)].amount == m.issued[Pay(w, n)].amount
            && (Pay(w, n) in m1.spent <==> Pay(w, n) in m.spent)
            && Mine(w, n) !in m1.issued
            && Total(m) == Total(m1) + ExactValue(Held(w.wallet, n))
  {
    assert BooksAt(w, n);
    var m, held := w.auths[n], Held(w.wallet, n);
    var inputs := Payments(w.wallet, m, held);
    HeldPayable(w, n);
    HeldLive(w, n);
    SeedsApart(w, n);
    NextOwnIsNew(w, n);
    ConsumeAllEffect(m, inputs);
    ConsumeAllTotal(m, inputs);
    SameCommitments(inputs, held);
    assert Pay(w, n) !in CommitmentsOf(held);
  }

  /** Paying one at a payee's index alters that payee's output, or takes one from the total. */
  lemma SpendHarms(w: World, n: string)
    requires Books(w) && OnPayee(w, n)
    ensures var m, w' := w.auths[n], Spend(w, 1, n).0;
            && n in w'.auths && Pay(w, n) in w'.auths[n].issued
            && (Altered(m, w'.auths[n], Pay(w, n)) || Wrap64(Total(w'.auths[n]) + 1) == Wrap64(Total(m)))
  {
    var m, held := w.auths[n], Held(w.wallet, n);
    assert m.name == n by { assert BooksAt(w, n); }
    var inputs, outs := Payments(w.wallet, m, held), Replacements(w.wallet, n, m, 1);
    assert Spend(w, 1, n).0.auths == w.auths[n := SignAll(ConsumeAll(m, inputs), outs)] by {
      SpendOfOne(w, n);
      SpendAccepted(w, n);
    }
    OutputsOfOne(w, n);
    PayeeNotHeld(w, n);
    OverwrittenBy(m, ConsumeAll(m, inputs), Pay(w, n), outs, ExactValue(held));
  }

  /** Signing a payee's output over at one, after `held` was consumed and wrapped into a balance. */
  lemma OverwrittenBy(m: Memory, m1: Memory, c: Commitment, outs: seq<Output>, held: nat)
    requires c in m.issued && c in m1.issued && m1.issued[c].amount == m.issued[c].amount
    requires (c in m1.spent <==> c in m.spent) && Total(m) == Total(m1) + held
    requires outs != [] && outs == [Output(c, 1)] + outs[1..] && |outs[1..]| <= 1
    requires outs[1..] != [] ==> outs[1..][0].commitment !in m1.issued
    requires ExactValue(outs[1..]) + 1 == Wrap64(held)
    ensures var m' := SignAll(m1, outs);
            c in m'.issued && (Altered(m, m', c) || Wrap64(Total(m') + 1) == Wrap64(Total(m)))
  {
    SignOverPayee(m1, Output(c, 1), outs[1..]);
    if Live(m, c) && m.issued[c].amount == 1 {
      OneLost(Total(SignAll(m1, outs)), Total(m), held);
    }
  }

  lemma OneLost(after: nat, before: nat, held: nat)
    requires after + held + 1 == before + Wrap64(held)
    ensures Wrap64(after + 1) == Wrap64(before)
  {
    WrapTwice(held);
    WrapBalance(after + 1, before, held, Wrap64(held));
  }

  // ------------------------------------------------------------ getting there

  /** A payee no counter has passed, though there is something to pay with or the counter is
      still to come to it. */
  predicate PayeeAhead(w: World, n: string, c: Commitment) {
    && c.Derived? && n in w.auths && c in w.auths[n].issued && c == Derived(RecipientSeed(n), c.index, n)
    && c.index < MAX_UINT64 && c.index >= Counter(w.wallet, n)
    && (c.index > Counter(w.wallet, n) || BalanceAt(w.wallet, n) > 0)
  }

  lemma NotClear(w: World, n: string)
    requires Books(w) && n in w.auths && !PayeesClear(w, n)
    ensures exists c: Commitment :: PayeeAhead(w, n, c)
  {
    assert BooksAt(w, n);
    var c :| c in w.auths[n].issued && c.Derived? && c.seed == RecipientSeed(n)
      && !(c.index < Counter(w.wallet, n) || (c.index == Counter(w.wallet, n) && BalanceAt(w.wallet, n) == 0));
    assert PayeeAhead(w, n, c);
  }

  /** What a harmless step leaves: true books, and the output c as it was. */
  ghost predicate Clean(w: World, w': World, n: string, c: Commitment, minted: nat) {
    && Books(w') && w'.wallet.seed == w.wallet.seed && n in w.auths && n in w'.auths
    && c in w.auths[n].issued && c in w'.auths[n].issued
    && w'.auths[n].issued[c].amount == w.auths[n].issued[c].amount
    && (c in w'.auths[n].spent <==> c in w.auths[n].spent)
    && Total(w'.auths[n]) == Total(w.auths[n]) + minted
  }

  /** The allowed run es leads cleanly from w to w'. */
  ghost predicate Leads(w: World, es: seq<Event>, w': World, n: string, c: Commitment) {
    AllowedRun(w, es) && Run(w, es) == w' && Clean(w, w', n, c, Minted(es, n))
  }

  lemma LeadsNowhere(w: World, n: string, c: Commitment)
    requires Books(w) && n in w.auths && c in w.auths[n].issued
    ensures Leads(w, [], w, n, c)
  {
  }

  lemma {:induction false} RunThenOne(w: World, es: seq<Event>, e: Event, n: string)
    ensures Run(w, es + [e]) == Step(Run(w, es), e)
    ensures AllowedRun(w, es) && Allowed(Run(w, es), e) ==> AllowedRun(w, es + [e])
    ensures Minted(es + [e], n) == Minted(es, n) + MintedBy(e, n)
    decreases |es|
  {
    if es == [] {
      assert [] + [e] == [e] && [e][1..] == [];
    } else {
      assert (es + [e])[1..] == es[1..] + [e] && (es + [e])[0] == es[0];
      RunThenOne(Step(w, es[0]), es[1..], e, n);
    }
  }

  lemma LeadsOn(w: World, es: seq<Event>, w1: World, e: Event, w2: World, n: string, c: Commitment)
    requires Leads(w, es, w1, n, c) && Allowed(w1, e) && w2 == Step(w1, e) && Clean(w1, w2, n, c, MintedBy(e, n))
    ensures Leads(w, es + [e], w2, n, c)
  {
    RunThenOne(w, es, e, n);
  }

  /** Bringing an authority back. */
  lemma BackOnline(w: World, w': World, n: string, c: Commitment)
    requires Books(w) && n in w.auths && c in w.auths[n].issued
    requires w' == WithAuthority(w, n, SetOffline(w.auths[n], false))
    ensures Clean(w, w', n, c, 0) && w'.wallet == w.wallet && !w'.auths[n].offline
  {
    OutageKeeps(w, n, false);
    assert UnspentCoins(SetOffline(w.auths[n], false)) == UnspentCoins(w.auths[n]);
  }

  /** Moving the counter forward. */
  lemma MovedForward(w: World, w': World, n: string, c: Commitment, next: uint64)
    requires Books(w) && n in w.auths && c in w.auths[n].issued && next >= Counter(w.wallet, n)
    requires w' == PersistCounter(w, n, next)
    ensures Clean(w, w', n, c, 0) && w'.auths == w.auths
    ensures Counter(w'.wallet, n) == next && Held(w'.wallet, n) == Held(w.wallet, n)
  {
    PersistKeeps(w, n, next);
  }

  lemma TwoMore(held: seq<Output>, o: Output)
    requires Wrap64(ExactValue(held)) == 0 && o.amount == 2
    ensures Wrap64(ExactValue(held + [o])) == 2
  {
    ExactValueAppend(held, o);
    WrapAdd(ExactValue(held), 2);
  }

  /** Issuing two into a wallet with nothing to pay with. */
  lemma TwoIssued(w: World, w': World, n: string, c: Commitment)
    requires Books(w) && n in w.auths && c in w.auths[n].issued && CounterRoom(w, n)
    requires c != Mine(w, n) && BalanceAt(w.wallet, n) == 0 && w' == IssueInto(w, n, 2).0
    ensures Clean(w, w', n, c, 2) && w'.auths[n].offline == w.auths[n].offline
    ensures Counter(w'.wallet, n) == Counter(w.wallet, n) + 1 && BalanceAt(w'.wallet, n) == 2
  {
    assert w.auths[n].name == n && Mine(w, n) !in w.auths[n].issued by {
      assert BooksAt(w, n);
      NextOwnIsNew(w, n);
    }
    IssueRecords(w, w', n, 2);
    assert Books(w') by { IssueIntoKeeps(w, n, 2); }
    assert Total(w'.auths[n]) == Total(w.auths[n]) + 2 by {
      IssueTotal(w.auths[n], w.wallet.seed, Counter(w.wallet, n), 2);
    }
    assert BalanceAt(w'.wallet, n) == 2 by { TwoMore(Held(w.wallet, n), Output(Mine(w, n), 2)); }
  }

  // ------------------------------------------------------------ the condition is exact

  /** An allowed run leads cleanly to where the next payment meets the payee. */
  lemma Approach(w: World, n: string, c: Commitment) returns (es: seq<Event>, w': World)
    requires Books(w) && PayeeAhead(w, n, c)
    ensures Leads(w, es, w', n, c) && OnPayee(w', n) && Pay(w', n) == c
  {
    var back := OutageEvent(n, false);
    var w1 := WithAuthority(w, n, SetOffline(w.auths[n], false));
    LeadsNowhere(w, n, c);
    BackOnline(w, w1, n, c);
    LeadsOn(w, [], w, back, w1, n, c);
    if BalanceAt(w.wallet, n) > 0 {
      es, w' := WithFunds(w, [] + [back], w1, n, c);
    } else {
      es, w' := WithoutFunds(w, [] + [back], w1, n, c);
    }
  }

  /** Having come to w1, the counter is moved on to `next`. */
  lemma MoveOn(w: World, before: seq<Event>, w1: World, n: string, c: Commitment, next: uint64)
    returns (es: seq<Event>, w': World)
    requires Leads(w, before, w1, n, c) && next >= Counter(w1.wallet, n)
    ensures Leads(w, es, w', n, c) && w'.auths == w1.auths && w'.wallet.seed == w1.wallet.seed
    ensures Counter(w'.wallet, n) == next && Held(w'.wallet, n) == Held(w1.wallet, n)
  {
    w' := PersistCounter(w1, n, next);
    MovedForward(w1, w', n, c, next);
    LeadsOn(w, before, w1, PersistEvent(n, next), w', n, c);
    es := before + [PersistEvent(n, next)];
  }

  lemma WithFunds(w: World, before: seq<Event>, w1: World, n: string, c: Commitment)
    returns (es: seq<Event>, w': World)
    requires Leads(w, before, w1, n, c) && !w1.auths[n].offline && PayeeAhead(w1, n, c) && BalanceAt(w1.wallet, n) > 0
    ensures Leads(w, es, w', n, c) && OnPayee(w', n) && Pay(w', n) == c
  {
    es, w' := MoveOn(w, before, w1, n, c, c.index);
  }

  lemma WithoutFunds(w: World, before: seq<Event>, w1: World, n: string, c: Commitment)
    returns (es: seq<Event>, w': World)
    requires Leads(w, before, w1, n, c) && !w1.auths[n].offline && PayeeAhead(w1, n, c) && BalanceAt(w1.wallet, n) == 0
    ensures Leads(w, es, w', n, c) && OnPayee(w', n) && Pay(w', n) == c
  {
    var moved, w2 := MoveOn(w, before, w1, n, c, c.index - 1);
    es, w' := IssueOn(w, moved, w2, n, c);
  }

  /** One index before the payee and with nothing to pay with, the wallet has two issued. */
  lemma IssueOn(w: World, before: seq<Event>, w1: World, n: string, c: Commitment)
    returns (es: seq<Event>, w': World)
    requires Leads(w, before, w1, n, c) && !w1.auths[n].offline && BalanceAt(w1.wallet, n) == 0
    requires c == Derived(RecipientSeed(n), Counter(w1.wallet, n) + 1, n) && c.index < MAX_UINT64
    ensures Leads(w, es, w', n, c) && OnPayee(w', n) && Pay(w', n) == c
  {
    w' := IssueInto(w1, n, 2).0;
    es := before + [IssueEvent(n, 2)];
    LeadsHonest(w, before, w1, n, c);
    TwoIssuedMeets(w1, w', n, c);
    LeadsOn(w, before, w1, IssueEvent(n, 2), w', n, c);
  }

  lemma LeadsHonest(w: World, es: seq<Event>, w1: World, n: string, c: Commitment)
    requires Leads(w, es, w1, n, c)
    ensures Books(w1) && n in w1.auths && c in w1.auths[n].issued
  {
  }

  lemma TwoIssuedMeets(w: World, w': World, n: string, c: Commitment)
    requires Books(w) && n in w.auths && c in w.auths[n].issued && !w.auths[n].offline && BalanceAt(w.wallet, n) == 0
    requires c == Derived(RecipientSeed(n), Counter(w.wallet, n) + 1, n) && c.index < MAX_UINT64
    requires w' == IssueInto(w, n, 2).0
    ensures Clean(w, w', n, c, 2) && OnPayee(w', n) && Pay(w', n) == c
  {
    assert c != Mine(w, n) by { SeedsApart(w, n); }
    TwoIssued(w, w', n, c);
    MeetsPayee(w, w', n, c);
  }

  lemma MeetsPayee(w: World, w': World, n: string, c: Commitment)
    requires n in w'.auths && c in w'.auths[n].issued && !w'.auths[n].offline && w'.wallet.seed == w.wallet.seed
    requires c == Derived(RecipientSeed(n), Counter(w.wallet, n) + 1, n) && c.index < MAX_UINT64
    requires Counter(w'.wallet, n) == Counter(w.wallet, n) + 1 && BalanceAt(w'.wallet, n) == 2
    ensures OnPayee(w', n) && Pay(w', n) == c
  {
  }

  lemma TotalsDiffer(after: nat, before: nat)
    requires Wrap64(after + 1) == Wrap64(before)
    ensures Wrap64(after) != Wrap64(before)
  {
  }

  /** Between two logs an output was altered, or the unspent value is off by one. */
  lemma Noticed(m: Memory, m1: Memory, m2: Memory, c: Commitment, minted: nat)
    requires c in m.issued && c in m1.issued && c in m2.issued
    requires m1.issued[c].amount == m.issued[c].amount && (c in m1.spent <==> c in m.spent)
    requires Total(m1) == Total(m) + minted
    requires Altered(m1, m2, c) || Wrap64(Total(m2) + 1) == Wrap64(Total(m1))
    ensures !Harmless(m, m2, minted)
  {
    if !Altered(m1, m2, c) { TotalsDiffer(Total(m2), Total(m1)); }
  }

  /** A payee ahead of the counter can be overwritten: the run that reaches it and pays one. */
  lemma PayeeAheadHarmed(w: World, n: string, c: Commitment) returns (all: seq<Event>)
    requires Books(w) && PayeeAhead(w, n, c)
    ensures AllowedRun(w, all) && !HarmlessRun(w, all, n)
  {
    var es, w1 := Approach(w, n, c);
    all := es + [SpendEvent(1, n)];
    PaidOver(w, es, w1, all, n, c);
    HarmSeen(w, w1, n, c, Minted(es, n));
    NotHarmless(w, all, Spend(w1, 1, n).0, n, Minted(es, n));
  }

  lemma NotHarmless(w: World, all: seq<Event>, w2: World, n: string, minted: nat)
    requires n in w.auths && n in w2.auths && Run(w, all) == w2 && Minted(all, n) == minted
    requires !Harmless(w.auths[n], w2.auths[n], minted)
    ensures !HarmlessRun(w, all, n)
  {
  }

  lemma HarmSeen(w: World, w1: World, n: string, c: Commitment, minted: nat)
    requires Clean(w, w1, n, c, minted) && OnPayee(w1, n) && Pay(w1, n) == c
    ensures n in Spend(w1, 1, n).0.auths && !Harmless(w.auths[n], Spend(w1, 1, n).0.auths[n], minted)
  {
    SpendHarms(w1, n);
    Noticed(w.auths[n], w1.auths[n], Spend(w1, 1, n).0.auths[n], c, minted);
  }

  lemma PaidOver(w: World, es: seq<Event>, w1: World, all: seq<Event>, n: string, c: Commitment)
    requires Leads(w, es, w1, n, c) && CounterRoom(w1, n) && all == es + [SpendEvent(1, n)]
    ensures Clean(w, w1, n, c, Minted(es, n))
    ensures AllowedRun(w, all) && Run(w, all) == Spend(w1, 1, n).0 && Minted(all, n) == Minted(es, n)
  {
    RunThenOne(w, es, SpendEvent(1, n), n);
  }

  /** A wallet with true books may go on exactly when at every authority each payee was paid
      below the counter, or at it while nothing is held there to pay with. */
  lemma MayGoOnIff(w: World)
    requires Books(w)
    ensures MayGoOn(w) <==> forall n :: n in w.auths ==> PayeesClear(w, n)
  {
    if forall n :: n in w.auths ==> PayeesClear(w, n) {
      forall es, n | AllowedRun(w, es) && n in w.auths ensures HarmlessRun(w, es, n) {
        RunExtends(w, es, n);
        RunConservesValue(w, es, n);
      }
    } else {
      var n :| n in w.auths && !PayeesClear(w, n);
      NotClear(w, n);
      var c: Commitment :| PayeeAhead(w, n, c);
      var es := PayeeAheadHarmed(w, n, c);
    }
  }
}
