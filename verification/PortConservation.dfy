/** Money over whole runs: authorities' totals change only by issuing, logs only grow, and a
    wallet that loses its store gets everything back. */
module PortConservation {
  import opened Basics
  import opened Words
  import opened Ledger
  import opened BearerPort
  import opened Recovery
  import opened PortInvariant
  import opened PortRuns
  import opened Restoration

  /** The value an event makes an authority sign out of nothing. */
  function MintedBy(e: Event, n: string): nat {
    match e
    case IssueEvent(target, amount) => if target == n then amount else 0
    case ForeignIssue(target, _, _, amount) => if target == n then amount else 0
    case _ => 0
  }

  function Minted(es: seq<Event>, n: string): nat {
    if es == [] then 0 else MintedBy(es[0], n) + Minted(es[1..], n)
  }

  /** A fresh commitment signed by Issue adds exactly its amount. */
  lemma IssueTotal(m: Memory, seed: Seed, index: nat, amount: uint64)
    requires Derived(seed, index, m.name) !in m.issued
    ensures Total(Issue(m, seed, index, amount)) == Total(m) + amount
  {
    var c := Derived(seed, index, m.name);
    SignOneTotal(m, Output(c, amount));
    assert UnspentCoins(Issue(m, seed, index, amount)) == UnspentCoins(SignOne(m, Output(c, amount)));
  }

  /** The unspent value of m' is that of m and what was minted, up to whole multiples of 2^64
      that wrapping sums lose, and exactly that while it fits a register. */
  ghost predicate Grown(m: Memory, m': Memory, minted: nat) {
    && Total(m') <= Total(m) + minted
    && Wrap64(Total(m')) == Wrap64(Total(m) + minted)
    && (FitsUint64(Total(m) + minted) ==> Total(m') == Total(m) + minted)
  }

  lemma GrownExactly(m: Memory, m': Memory, minted: nat)
    requires Total(m') == Total(m) + minted
    ensures Grown(m, m', minted)
  {
  }

  lemma GrownTwice(m0: Memory, m1: Memory, m2: Memory, a: nat, b: nat, all: nat)
    requires Grown(m0, m1, a) && Grown(m1, m2, b) && all == a + b
    ensures Grown(m0, m2, all)
  {
    WrapAdd(Total(m0) + a, b);
    WrapAdd(Total(m1), b);
  }

  lemma ForeignSwapTotal(m: Memory, inputs: seq<Instrument>, outs: seq<Output>)
    requires SwapRefusal(m, inputs, outs) == None && New(m, outs)
    requires FitsUint64(ExactValue(outs)) && !Repeats(m, inputs)
    ensures Grown(m, Swapped(m, inputs, outs), 0)
  {
    SwapConserves(m, inputs, outs);
    AcceptedInputs(m, inputs);
    ConsumeAllTotal(m, inputs);
    SumsAgree(m, inputs, outs);
    WrapLoses(ExactValue(outs));
    WrapLoses(RecordedValue(m, inputs));
  }

  lemma SpendStepTotal(w: World, amount: uint64, n: string)
    requires Inv(w) && n in w.auths
    ensures n in Spend(w, amount, n).0.auths
    ensures Grown(w.auths[n], Spend(w, amount, n).0.auths[n], 0)
  {
    if Spend(w, amount, n).1.Ok? {
      InvHere(w, n);
      HeldWithinTotal(w, n);
      SpendConservesIff(w, amount, n);
    }
  }

  lemma HeldWithinTotal(w: World, n: string)
    requires n in w.auths && BooksAt(w, n)
    ensures ExactValue(Held(w.wallet, n)) <= Total(w.auths[n])
  {
    HeldPayable(w, n);
    ConsumeAllTotal(w.auths[n], Payments(w.wallet, w.auths[n], Held(w.wallet, n)));
  }

  lemma AcquireStepTotal(w: World, input: Instrument)
    requires Books(w) && input.authority in w.auths
    ensures input.authority in Acquire(w, input).0.auths
    ensures Total(Acquire(w, input).0.auths[input.authority]) == Total(w.auths[input.authority])
  {
    if Acquire(w, input).1.Ok? { AcquireCreditsRecord(w, input); }
  }

  lemma IssueStepTotal(w: World, amount: uint64, n: string)
    requires n in w.auths && BooksAt(w, n)
    ensures n in IssueInto(w, n, amount).0.auths
    ensures Total(IssueInto(w, n, amount).0.auths[n]) == Total(w.auths[n]) + amount
  {
    NextOwnIsNew(w, n);
    IssueTotal(w.auths[n], w.wallet.seed, Counter(w.wallet, n), amount);
  }

  /** The authority an event talks to; a loss of the store talks to all and changes none. */
  function Target(e: Event): Option<string> {
    match e
    case AcquireEvent(input) => Some(input.authority)
    case LossEvent(_) => None
    case _ => Some(e.target)
  }

  lemma OthersUntouched(w: World, e: Event, n: string)
    requires Online(w) || !e.LossEvent?
    requires n in w.auths && Some(n) != Target(e)
    ensures n in Step(w, e).auths && Step(w, e).auths[n] == w.auths[n]
  {
    if e.LossEvent? { ResumedWrites(w, e.saved); }
  }

  lemma StepGrows(w: World, e: Event, n: string)
    requires Inv(w) && Allowed(w, e) && n in w.auths
    ensures n in Step(w, e).auths && Grown(w.auths[n], Step(w, e).auths[n], MintedBy(e, n))
  {
    if Some(n) != Target(e) {
      OthersUntouched(w, e, n);
    } else {
      InvHere(w, n);
      match e
      case SpendEvent(amount, _) => SpendStepTotal(w, amount, n);
      case ForeignSwap(_, inputs, outs) =>
        if SwapRefusal(w.auths[n], inputs, outs) == None { ForeignSwapTotal(w.auths[n], inputs, outs); }
      case LossEvent(_) =>
      case _ =>
        StepTotal(w, e, n);
        GrownExactly(w.auths[n], Step(w, e).auths[n], MintedBy(e, n));
    }
  }

  lemma StepTotal(w: World, e: Event, n: string)
    requires Inv(w) && Allowed(w, e) && n in w.auths && Some(n) == Target(e) && !e.SpendEvent? && !e.ForeignSwap?
    ensures n in Step(w, e).auths
    ensures Total(Step(w, e).auths[n]) == Total(w.auths[n]) + MintedBy(e, n)
  {
    InvHere(w, n);
    match e
    case IssueEvent(_, amount) => IssueStepTotal(w, amount, n);
    case AcquireEvent(input) => AcquireStepTotal(w, input);
    case PersistEvent(_, _) =>
    case OutageEvent(_, offline) =>
      assert UnspentCoins(SetOffline(w.auths[n], offline)) == UnspentCoins(w.auths[n]);
    case RevealEvent(_, c, tag) =>
      assert UnspentCoins(Reveal(w.auths[n], c, tag)) == UnspentCoins(w.auths[n]);
    case ForeignIssue(_, seed, index, amount) => IssueTotal(w.auths[n], seed, index, amount);
  }

  /** Over any run the unspent value of an authority grows by exactly what it issued while
      everything it ever issued fits a register; beyond that it is never more, and the same up to
      whole multiples of 2^64. */
  lemma {:induction false} RunConservesValue(w: World, es: seq<Event>, n: string)
    requires Inv(w) && AllowedRun(w, es) && n in w.auths
    ensures n in Run(w, es).auths && Grown(w.auths[n], Run(w, es).auths[n], Minted(es, n))
    decreases |es|
  {
    if es == [] {
    } else {
      StepGrows(w, es[0], n);
      StepKeeps(w, es[0]);
      RunConservesValue(Step(w, es[0]), es[1..], n);
      var w1, w2 := Step(w, es[0]), Run(Step(w, es[0]), es[1..]);
      assert w2 == Run(w, es);
      GrownTwice(w.auths[n], w1.auths[n], w2.auths[n], MintedBy(es[0], n), Minted(es[1..], n), Minted(es, n));
    }
  }

  // ------------------------------------------------------------ the log

  /** The commitments an event makes authority n sign, in order. */
  function Signs(w: World, e: Event, n: string): seq<Commitment> {
    if n !in w.auths || Some(n) != Target(e) then []
    else
      var m := w.auths[n];
      match e
      case IssueEvent(_, amount) =>
        if IssueInto(w, n, amount).1.Ok? then [Derived(w.wallet.seed, Counter(w.wallet, n), m.name)] else []
      case AcquireEvent(input) => if Acquire(w, input).1.Ok? then [AcquiredOutput(w, input).commitment] else []
      case SpendEvent(amount, _) =>
        if Spend(w, amount, n).1.Ok? then Names(Replacements(w.wallet, n, m, amount)) else []
      case ForeignIssue(_, seed, index, _) => [Derived(seed, index, m.name)]
      case ForeignSwap(_, inputs, outs) => if SwapRefusal(m, inputs, outs) == None then Names(outs) else []
      case _ => []
  }

  function Names(outs: seq<Output>): (cs: seq<Commitment>)
    ensures |cs| == |outs| && forall i :: 0 <= i < |outs| ==> cs[i] == outs[i].commitment
  {
    seq(|outs|, i requires 0 <= i < |outs| => outs[i].commitment)
  }

  /** Everything authority n signs in a run, in order. */
  function SignedIn(w: World, es: seq<Event>, n: string): seq<Commitment>
    decreases |es|
  {
    if es == [] then [] else Signs(w, es[0], n) + SignedIn(Step(w, es[0]), es[1..], n)
  }

  ghost function Elements(cs: seq<Commitment>): set<Commitment> {
    set c | c in cs
  }

  /** What is signed is new and signed once, and then it is in the log. */
  ghost predicate SignsNew(m: Memory, m': Memory, cs: seq<Commitment>) {
    && Distinct(cs)
    && (forall c :: c in cs ==> c !in m.issued)
    && m'.issued.Keys == m.issued.Keys + Elements(cs)
  }

  lemma NewNames(m: Memory, outs: seq<Output>)
    requires New(m, outs)
    ensures Distinct(Names(outs)) && (forall c :: c in Names(outs) ==> c !in m.issued)
    ensures Elements(Names(outs)) == CommitmentsOf(outs)
  {
    var cs := Names(outs);
    forall c | c in CommitmentsOf(outs) ensures c in cs {
      var i :| 0 <= i < |outs| && outs[i].commitment == c;
      assert cs[i] == c;
    }
  }

  lemma SpendSigns(w: World, amount: uint64, n: string)
    requires Inv(w) && n in w.auths && Spend(w, amount, n).1.Ok?
    ensures var m, m' := w.auths[n], Spend(w, amount, n).0.auths[n];
            Extends(m, m') && SignsNew(m, m', Names(Replacements(w.wallet, n, m, amount)))
  {
    SpendIsStep(w, amount, n);
    SpendSwap(w, n, amount);
    ReplacementFacts(w, n, amount);
    NewNames(w.auths[n], Replacements(w.wallet, n, w.auths[n], amount));
  }

  lemma OneNew(m: Memory, m': Memory, c: Commitment)
    requires c !in m.issued && m'.issued.Keys == m.issued.Keys + {c}
    ensures SignsNew(m, m', [c])
  {
    assert Elements([c]) == {c};
  }

  lemma NoneNew(m: Memory, m': Memory)
    requires m'.issued.Keys == m.issued.Keys
    ensures SignsNew(m, m', [])
  {
    assert Elements([]) == {};
  }

  lemma AcquireSigns(w: World, input: Instrument)
    requires Books(w) && Acquire(w, input).1.Ok?
    ensures var m, m' := w.auths[input.authority], Acquire(w, input).0.auths[input.authority];
            Extends(m, m') && SignsNew(m, m', [AcquiredOutput(w, input).commitment])
  {
    AcquireIsStep(w, input);
    AcquireSwap(w, Acquire(w, input).0, input);
    OneNew(w.auths[input.authority], Acquire(w, input).0.auths[input.authority], AcquiredOutput(w, input).commitment);
  }

  lemma IssueSigns(w: World, amount: uint64, n: string)
    requires n in w.auths && BooksAt(w, n) && IssueInto(w, n, amount).1.Ok?
    ensures var m, m' := w.auths[n], IssueInto(w, n, amount).0.auths[n];
            Extends(m, m') && SignsNew(m, m', [Derived(w.wallet.seed, Counter(w.wallet, n), m.name)])
  {
    NextOwnIsNew(w, n);
    OneNew(w.auths[n], IssueInto(w, n, amount).0.auths[n], Derived(w.wallet.seed, Counter(w.wallet, n), n));
  }

  lemma ForeignSigns(w: World, e: Event, n: string)
    requires n in w.auths && BooksAt(w, n) && Allowed(w, e) && Some(n) == Target(e)
    requires e.ForeignIssue? || e.ForeignSwap?
    ensures n in Step(w, e).auths
    ensures Extends(w.auths[n], Step(w, e).auths[n]) && SignsNew(w.auths[n], Step(w, e).auths[n], Signs(w, e, n))
  {
    var m, m' := w.auths[n], Step(w, e).auths[n];
    match e
    case ForeignIssue(_, seed, index, _) => OneNew(m, m', Derived(seed, index, m.name));
    case ForeignSwap(_, inputs, outs) =>
      if SwapRefusal(m, inputs, outs) == None {
        SwapExtends(m, inputs, outs);
        NewNames(m, outs);
      } else {
        NoneNew(m, m');
      }
  }

  lemma StepSigns(w: World, e: Event, n: string)
    requires Inv(w) && Allowed(w, e) && n in w.auths
    ensures n in Step(w, e).auths
    ensures Extends(w.auths[n], Step(w, e).auths[n]) && SignsNew(w.auths[n], Step(w, e).auths[n], Signs(w, e, n))
  {
    if Some(n) != Target(e) {
      OthersUntouched(w, e, n);
      NoneNew(w.auths[n], Step(w, e).auths[n]);
    } else {
      InvHere(w, n);
      if e.ForeignIssue? || e.ForeignSwap? {
        ForeignSigns(w, e, n);
      } else {
        WalletSigns(w, e, n);
      }
    }
  }

  lemma WalletSigns(w: World, e: Event, n: string)
    requires Inv(w) && Allowed(w, e) && n in w.auths && Some(n) == Target(e)
    requires !e.ForeignIssue? && !e.ForeignSwap?
    ensures n in Step(w, e).auths
    ensures Extends(w.auths[n], Step(w, e).auths[n]) && SignsNew(w.auths[n], Step(w, e).auths[n], Signs(w, e, n))
  {
    InvHere(w, n);
    if Signs(w, e, n) == [] {
      NothingSigned(w, e, n);
      NoneNew(w.auths[n], Step(w, e).auths[n]);
    } else {
      match e
      case IssueEvent(_, amount) => IssueSigns(w, amount, n);
      case AcquireEvent(input) => AcquireSigns(w, input);
      case SpendEvent(amount, _) => SpendSigns(w, amount, n);
    }
  }

  lemma NothingSigned(w: World, e: Event, n: string)
    requires n in w.auths && Some(n) == Target(e) && Signs(w, e, n) == [] && !e.ForeignIssue? && !e.ForeignSwap?
    ensures n in Step(w, e).auths
    ensures Extends(w.auths[n], Step(w, e).auths[n]) && Step(w, e).auths[n].issued.Keys == w.auths[n].issued.Keys
  {
  }

  lemma SignsMore(m0: Memory, m1: Memory, m2: Memory, a: seq<Commitment>, b: seq<Commitment>)
    requires SignsNew(m0, m1, a) && SignsNew(m1, m2, b)
    ensures SignsNew(m0, m2, a + b)
  {
    assert Elements(a + b) == Elements(a) + Elements(b);
    forall i, j | 0 <= i < j < |a + b| ensures (a + b)[i] != (a + b)[j] {
      if i < |a| <= j { assert (a + b)[i] in a && (a + b)[j] in b; }
    }
  }

  /** Over any run: what was signed stays signed at its amount, what was spent stays spent, and
      everything signed along the way was new when it was signed - so no commitment is ever
      signed twice. */
  lemma {:induction false} RunExtends(w: World, es: seq<Event>, n: string)
    requires Inv(w) && AllowedRun(w, es) && n in w.auths
    ensures n in Run(w, es).auths && Extends(w.auths[n], Run(w, es).auths[n])
    ensures SignsNew(w.auths[n], Run(w, es).auths[n], SignedIn(w, es, n))
    decreases |es|
  {
    if es == [] {
      NoneNew(w.auths[n], w.auths[n]);
    } else {
      StepSigns(w, es[0], n);
      StepKeeps(w, es[0]);
      RunExtends(Step(w, es[0]), es[1..], n);
      SignsMore(w.auths[n], Step(w, es[0]).auths[n], Run(w, es).auths[n],
                Signs(w, es[0], n), SignedIn(Step(w, es[0]), es[1..], n));
    }
  }

  // ------------------------------------------------------------ the wallet's balance

  /** The unspent value signed in one derivation space, at indices below k, coin by coin. */
  ghost function CoinsBelow(m: Memory, seed: Seed, k: nat): set<(Commitment, nat)> {
    set c, i: nat | c in m.issued && c !in m.spent && c.Derived? && c.seed == seed && c.authority == m.name
                    && c.index < k && i < m.issued[c].amount :: (c, i)
  }

  /** All of it, at whatever index. */
  ghost function OwnCoins(m: Memory, seed: Seed): set<(Commitment, nat)> {
    set c, i: nat | c in m.issued && c !in m.spent && c.Derived? && c.seed == seed && c.authority == m.name
                    && i < m.issued[c].amount :: (c, i)
  }

  lemma {:induction false} ExactValueAppend(outs: seq<Output>, o: Output)
    ensures ExactValue(outs + [o]) == ExactValue(outs) + o.amount
  {
    if outs == [] {
      assert outs + [o] == [o] && [o][1..] == [];
    } else {
      assert (outs + [o])[1..] == outs[1..] + [o];
      ExactValueAppend(outs[1..], o);
    }
  }

  lemma CoinsBelowLive(m: Memory, seed: Seed, k: nat)
    requires Live(m, Derived(seed, k, m.name))
    ensures |CoinsBelow(m, seed, k + 1)|
         == |CoinsBelow(m, seed, k)| + m.issued[Derived(seed, k, m.name)].amount
  {
    var c, before, after := Derived(seed, k, m.name), CoinsBelow(m, seed, k), CoinsBelow(m, seed, k + 1);
    var coins := Coins(c, m.issued[c].amount);
    CoinsWorth(c, m.issued[c].amount);
    forall p | p in after ensures p in before || p in coins {
      if p.0.index == k { assert p.0 == c; }
    }
    assert after == before + coins;
    assert before !! coins;
  }

  lemma CoinsBelowDead(m: Memory, seed: Seed, k: nat)
    requires !Live(m, Derived(seed, k, m.name))
    ensures CoinsBelow(m, seed, k + 1) == CoinsBelow(m, seed, k)
  {
    forall p | p in CoinsBelow(m, seed, k + 1) ensures p in CoinsBelow(m, seed, k) {
      assert p.0 == Derived(seed, p.0.index, m.name);
    }
  }

  lemma {:induction false} LiveOutputsWorth(m: Memory, seed: Seed, k: nat)
    ensures |CoinsBelow(m, seed, k)| == ExactValue(LiveOutputs(m, seed, k))
  {
    if k == 0 {
      assert CoinsBelow(m, seed, 0) == {};
    } else {
      var c := Derived(seed, k - 1, m.name);
      LiveOutputsWorth(m, seed, k - 1);
      if Live(m, c) {
        CoinsBelowLive(m, seed, k - 1);
        ExactValueAppend(LiveOutputs(m, seed, k - 1), Output(c, m.issued[c].amount));
      } else {
        CoinsBelowDead(m, seed, k - 1);
        assert LiveOutputs(m, seed, k) == LiveOutputs(m, seed, k - 1);
      }
    }
  }

  /** In every reachable state the balance a wallet reports at an authority is the unspent value
      signed in the wallet's own derivation space, as a 64-bit number. */
  lemma RunBalance(w: World, es: seq<Event>, n: string)
    requires Inv(w) && AllowedRun(w, es) && n in Run(w, es).auths
    ensures BalanceAt(Run(w, es).wallet, n)
         == Wrap64(|OwnCoins(Run(w, es).auths[n], Run(w, es).wallet.seed)|)
  {
    RunKeeps(w, es);
    BalanceIsOwnValue(Run(w, es), n);
  }

  lemma BalanceIsOwnValue(w: World, n: string)
    requires Books(w) && n in w.auths
    ensures ExactValue(Held(w.wallet, n)) == |OwnCoins(w.auths[n], w.wallet.seed)|
  {
    assert BooksAt(w, n);
    var m, seed := w.auths[n], w.wallet.seed;
    LiveOutputsWorth(m, seed, Counter(w.wallet, n));
    assert OwnCoins(m, seed) == CoinsBelow(m, seed, Counter(w.wallet, n));
  }

  /** A new wallet starts honest at authorities that have signed nothing of its own yet. */
  lemma FreshWalletHonest(seed: Seed, auths: map<string, Memory>)
    requires !(RECIPIENT_SPACE <= seed)
    requires forall n :: n in auths ==>
               && auths[n].name == n && auths[n].spent <= auths[n].issued.Keys
               && forall c :: c in auths[n].issued ==>
                    c.Derived? && c.authority == n && c.seed != seed && c.seed != RecipientSeed(n)
    ensures Inv(World(Wallet(seed, map[], map[], map[], {}), auths))
  {
  }
}
