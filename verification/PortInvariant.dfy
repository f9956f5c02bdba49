/** What every operation of the bearer port keeps: the wallet's view of an authority is exactly
    the authority's unspent record of the wallet's own derivation space. */
module PortInvariant {
  import opened Basics
  import opened Words
  import opened Ledger
  import opened BearerPort
  import opened Recovery

  /** c lies in a space whose indices are handed out by the wallet's counter at n. */
  predicate Counted(p: Wallet, n: string, c: Commitment) {
    c.Derived? && (c.seed == p.seed || c.seed == RecipientSeed(n))
  }

  /** The books at one authority: what is held is the authority's unspent record of the wallet's
      space, and the counter is past everything the wallet signed for itself. */
  predicate BooksAt(w: World, n: string)
    requires n in w.auths
  {
    var m, k := w.auths[n], Counter(w.wallet, n);
    && m.name == n
    && m.spent <= m.issued.Keys
    && (forall c :: c in m.issued ==>
          && c.Derived? && c.authority == n
          && (c.seed == w.wallet.seed ==> c.index < k)
          && (c.seed == RecipientSeed(n) ==> c.index < MAX_UINT64))
    && Held(w.wallet, n) == LiveOutputs(m, w.wallet.seed, k)
  }

  /** The next payment will not meet the index of a past one: the counter is past every payee, or
      it is at one while there is nothing to pay with. */
  predicate PayeesClear(w: World, n: string)
    requires n in w.auths
  {
    forall c :: c in w.auths[n].issued && c.Derived? && c.seed == RecipientSeed(n) ==>
      c.index < Counter(w.wallet, n) || (c.index == Counter(w.wallet, n) && BalanceAt(w.wallet, n) == 0)
  }

  predicate InvAt(w: World, n: string)
    requires n in w.auths
  {
    BooksAt(w, n) && PayeesClear(w, n)
  }

  predicate IsOwn(w: World, c: Commitment) {
    c.Derived? && c.seed == w.wallet.seed && c.authority in w.auths && Live(w.auths[c.authority], c)
  }

  ghost predicate OwnExact(w: World) {
    && (forall c :: c in w.wallet.own <==> IsOwn(w, c))
    && (forall c :: c in w.wallet.own ==> c.Derived? && w.wallet.own[c] == c.index)
  }

  predicate SeenSpent(w: World) {
    forall c :: c in w.wallet.seen ==>
      c.Derived? && c.authority in w.auths && c in w.auths[c.authority].spent
  }

  /** The wallet's books are true. */
  ghost predicate Books(w: World) {
    && !(RECIPIENT_SPACE <= w.wallet.seed)
    && (forall n :: n in w.auths ==> BooksAt(w, n))
    && OwnExact(w)
    && SeenSpent(w)
  }

  /** ... and no payee's index can come round. */
  ghost predicate Inv(w: World) {
    Books(w) && forall n :: n in w.auths ==> PayeesClear(w, n)
  }

  lemma InvHere(w: World, n: string)
    requires Inv(w) && n in w.auths
    ensures InvAt(w, n)
  {
  }

  /** A step that leaves the books true and clears at least the payees that were clear. */
  ghost predicate Keeps(w: World, w': World) {
    && Books(w') && w'.auths.Keys == w.auths.Keys
    && forall n :: n in w.auths && PayeesClear(w, n) ==> PayeesClear(w', n)
  }

  lemma KeepsInv(w: World, w': World)
    requires Inv(w) && Keeps(w, w')
    ensures Inv(w')
  {
  }

  /** The counter at n can move once more without coming back to 0. */
  predicate CounterRoom(w: World, n: string) {
    Counter(w.wallet, n) < MAX_UINT64
  }

  lemma SeedsApart(w: World, n: string)
    requires !(RECIPIENT_SPACE <= w.wallet.seed)
    ensures w.wallet.seed != RecipientSeed(n)
  {
  }

  lemma NextOwnIsNew(w: World, n: string)
    requires n in w.auths && BooksAt(w, n)
    ensures Derived(w.wallet.seed, Counter(w.wallet, n), n) !in w.auths[n].issued
  {
  }

  /** With something to pay with, the next payee's index is new as well. */
  lemma NextPayeeIsNew(w: World, n: string)
    requires n in w.auths && InvAt(w, n) && BalanceAt(w.wallet, n) > 0
    ensures Derived(RecipientSeed(n), Counter(w.wallet, n), n) !in w.auths[n].issued
  {
  }

  /** One more live index on top of an unchanged space below it. */
  lemma OneMore(m: Memory, m': Memory, seed: Seed, k: nat)
    requires m.name == m'.name
    requires forall i :: 0 <= i < k ==>
               var c := Derived(seed, i, m.name);
               && (Live(m, c) <==> Live(m', c))
               && (Live(m, c) ==> m.issued[c].amount == m'.issued[c].amount)
    requires IsLive(m', seed, k)
    ensures var c := Derived(seed, k, m.name);
            LiveOutputs(m', seed, k + 1) == LiveOutputs(m, seed, k) + [Output(c, m'.issued[c].amount)]
  {
    LiveOutputsFrame(m, m', seed, k);
  }

  // ------------------------------------------------------------ putting a step together

  /** Only the wallet's books at n, and the authority n itself, may differ. */
  predicate OnlyAt(w: World, w': World, n: string) {
    && n in w.auths && n in w'.auths
    && w'.auths == w.auths[n := w'.auths[n]]
    && w'.wallet.seed == w.wallet.seed
    && (forall a :: a in w.auths && a != n ==>
          Held(w'.wallet, a) == Held(w.wallet, a) && Counter(w'.wallet, a) == Counter(w.wallet, a))
  }

  lemma Assemble(w: World, w': World, n: string)
    requires Books(w) && OnlyAt(w, w', n)
    requires BooksAt(w', n) && (PayeesClear(w, n) ==> PayeesClear(w', n)) && OwnExact(w') && SeenSpent(w')
    ensures Keeps(w, w')
  {
    forall a | a in w'.auths && a != n ensures BooksAt(w', a) && (PayeesClear(w, a) ==> PayeesClear(w', a)) {
      assert BooksAt(w, a);
      ElsewhereSame(w, w', n, a);
    }
  }

  lemma ElsewhereSame(w: World, w': World, n: string, a: string)
    requires OnlyAt(w, w', n) && a in w.auths && a != n && BooksAt(w, a)
    ensures a in w'.auths && BooksAt(w', a) && (PayeesClear(w, a) ==> PayeesClear(w', a))
  {
    assert w'.auths[a] == w.auths[a];
  }

  lemma SeenKept(w: World, w': World, n: string, more: set<Commitment>)
    requires SeenSpent(w) && n in w.auths && n in w'.auths
    requires w'.auths == w.auths[n := w'.auths[n]]
    requires w.auths[n].spent <= w'.auths[n].spent
    requires w'.wallet.seen == w.wallet.seen + more
    requires forall c :: c in more ==> c.Derived? && c.authority == n && c in w'.auths[n].spent
    ensures SeenSpent(w')
  {
  }

  lemma OwnKept(w: World, w': World, n: string, gone: set<Commitment>, added: set<Commitment>)
    requires OwnExact(w) && n in w.auths && n in w'.auths
    requires w'.wallet.seed == w.wallet.seed && w'.auths == w.auths[n := w'.auths[n]]
    requires forall c :: c in gone ==> c.Derived? && c.authority == n
    requires forall c :: c in added ==> c.Derived? && c.authority == n && c.seed == w.wallet.seed
    requires forall c: Commitment :: c.Derived? && c.authority == n && c.seed == w.wallet.seed ==>
               (Live(w'.auths[n], c) <==> (Live(w.auths[n], c) && c !in gone) || c in added)
    requires w'.wallet.own.Keys == w.wallet.own.Keys - gone + added
    requires forall c :: c in w'.wallet.own ==>
               if c in added then w'.wallet.own[c] == c.index
               else c in w.wallet.own && w'.wallet.own[c] == w.wallet.own[c]
    ensures OwnExact(w')
  {
    forall c ensures c in w'.wallet.own <==> IsOwn(w', c) {
      assert c in w.wallet.own <==> IsOwn(w, c);
      if c.Derived? && c.authority != n && c.authority in w.auths {
        assert w'.auths[c.authority] == w.auths[c.authority];
      }
    }
  }

  /** The books at n after an index was signed for the wallet on top of an unchanged space. */
  lemma BooksGrow(w: World, w': World, n: string, amount: uint64)
    requires n in w.auths && n in w'.auths && BooksAt(w, n) && CounterRoom(w, n)
    requires w'.wallet.seed == w.wallet.seed
    requires Counter(w'.wallet, n) == Counter(w.wallet, n) + 1
    requires var m, m', c := w.auths[n], w'.auths[n], Derived(w.wallet.seed, Counter(w.wallet, n), n);
             && m'.name == n
             && m'.issued.Keys == m.issued.Keys + {c}
             && (forall x :: x in m.issued ==> m'.issued[x].amount == m.issued[x].amount)
             && m'.issued[c].amount == amount
             && m'.spent <= m'.issued.Keys && c !in m'.spent
             && (forall i :: 0 <= i < Counter(w.wallet, n) ==>
                   (IsLive(m, w.wallet.seed, i) <==> IsLive(m', w.wallet.seed, i)))
             && Held(w'.wallet, n) == Held(w.wallet, n) + [Output(c, amount)]
    ensures BooksAt(w', n)
    ensures PayeesClear(w, n) && w.wallet.seed != RecipientSeed(n) ==> PayeesClear(w', n)
  {
    var m, m', seed, k := w.auths[n], w'.auths[n], w.wallet.seed, Counter(w.wallet, n);
    forall i | 0 <= i < k
      ensures var c := Derived(seed, i, n);
              (Live(m, c) <==> Live(m', c)) && (Live(m, c) ==> m.issued[c].amount == m'.issued[c].amount)
    {
      assert IsLive(m, seed, i) <==> IsLive(m', seed, i);
    }
    OneMore(m, m', seed, k);
  }

  /** Issuing into a wallet, at an authority the wallet may still count at. */
  lemma IssueIntoKeeps(w: World, target: string, amount: uint64)
    requires Books(w) && CounterRoom(w, target)
    ensures Keeps(w, IssueInto(w, target, amount).0)
  {
    if IssueInto(w, target, amount).1.Ok? {
      IssueStepKeeps(w, IssueInto(w, target, amount).0, target, amount);
    }
  }

  lemma IssueStepKeeps(w: World, w': World, n: string, amount: uint64)
    requires Books(w) && CounterRoom(w, n) && n in w.auths && w' == IssueInto(w, n, amount).0 && amount > 0
    ensures Keeps(w, w')
  {
    assert BooksAt(w, n);
    NextOwnIsNew(w, n);
    SeedsApart(w, n);
    IssueRecords(w, w', n, amount);
    assert BooksAt(w', n) && (PayeesClear(w, n) ==> PayeesClear(w', n)) by { BooksGrow(w, w', n, amount); }
    assert OwnExact(w') by { OwnKept(w, w', n, {}, {Derived(w.wallet.seed, Counter(w.wallet, n), n)}); }
    assert SeenSpent(w') by { SeenKept(w, w', n, {}); }
    Assemble(w, w', n);
  }

  lemma IssueRecords(w: World, w': World, n: string, amount: uint64)
    requires n in w.auths && w' == IssueInto(w, n, amount).0 && amount > 0 && CounterRoom(w, n)
    requires w.auths[n].name == n
    ensures var c := Derived(w.wallet.seed, Counter(w.wallet, n), n);
            && n in w'.auths && OnlyAt(w, w', n)
            && Counter(w'.wallet, n) == Counter(w.wallet, n) + 1
            && Held(w'.wallet, n) == Held(w.wallet, n) + [Output(c, amount)]
            && w'.wallet.own == w.wallet.own[c := Counter(w.wallet, n)] && w'.wallet.seen == w.wallet.seen
            && w'.auths[n] == Issue(w.auths[n], w.wallet.seed, Counter(w.wallet, n), amount)
  {
  }

  // ------------------------------------------------------------ Acquire

  lemma SwapOneInput(m: Memory, input: Instrument, out: Output)
    requires SwapRefusal(m, [input], [out]) == None
    ensures Live(m, input.commitment) && out.amount == m.issued[input.commitment].amount
    ensures RecordedValue(m, [input]) == out.amount == ExactValue([out])
  {
    var ins, outs := [input], [out];
    assert ins[1..] == [] && outs[1..] == [] && ins[0] == input && outs[0] == out;
    AcceptedInputs(m, ins);
    assert RecordedValue(m, ins) == m.issued[input.commitment].amount + RecordedValue(m, ins[1..]);
    assert ExactValue(outs) == out.amount + ExactValue(outs[1..]);
  }

  /** One live note for one new output of the same value. */
  lemma SwapOne(m: Memory, input: Instrument, out: Output)
    requires m.spent <= m.issued.Keys
    requires out.commitment !in m.issued
    requires SwapRefusal(m, [input], [out]) == None
    ensures Live(m, input.commitment) && out.amount == m.issued[input.commitment].amount
    ensures RecordedValue(m, [input]) == out.amount
    ensures var m' := Swapped(m, [input], [out]);
            && Extends(m, m')
            && m' == m.(issued := m'.issued, spent := m'.spent)
            && m'.issued.Keys == m.issued.Keys + {out.commitment}
            && m'.issued[out.commitment].amount == out.amount
            && m'.spent == m.spent + {input.commitment} && m'.spent <= m'.issued.Keys
            && Total(m') == Total(m)
  {
    var ins, outs := [input], [out];
    SwapOneInput(m, input, out);
    assert New(m, outs);
    SwapExtends(m, ins, outs);
    assert (set i | 0 <= i < |outs| :: outs[i].commitment) == {outs[0].commitment};
    assert (set i | 0 <= i < |ins| :: ins[i].commitment) == {ins[0].commitment};
    SwapConserves(m, ins, outs);
    assert outs[0].commitment in Swapped(m, ins, outs).issued;
  }

  function AcquiredOutput(w: World, input: Instrument): Output {
    Output(Derived(w.wallet.seed, Counter(w.wallet, input.authority), input.authority), input.attested)
  }

  /** The wallet and the world after an accepted acquisition, written out. */
  predicate AcquireStep(w: World, w': World, input: Instrument) {
    && input.authority in w.auths
    && var n, out := input.authority, AcquiredOutput(w, input);
       && SwapRefusal(w.auths[n], [input], [out]) == None
       && w'.auths == w.auths[n := Swapped(w.auths[n], [input], [out])]
       && w'.wallet == Credit(Reserve(w.wallet, n), n, out, Counter(w.wallet, n))
                         .(seen := w.wallet.seen + {input.commitment})
  }

  lemma AcquireIsStep(w: World, input: Instrument)
    requires Books(w) && Acquire(w, input).1.Ok?
    ensures AcquireStep(w, Acquire(w, input).0, input)
    ensures Acquire(w, input).1.value
         == Wrap64(RecordedValue(w.auths[input.authority], [input]))
  {
    assert BooksAt(w, input.authority);
  }

  lemma AcquireSwap(w: World, w': World, input: Instrument)
    requires Books(w) && AcquireStep(w, w', input)
    ensures var n, out := input.authority, AcquiredOutput(w, input);
            var m, m' := w.auths[n], w'.auths[n];
            && Live(m, input.commitment) && input.attested == m.issued[input.commitment].amount
            && RecordedValue(m, [input]) == input.attested
            && out.commitment !in m.issued
            && m.name == n && Extends(m, m') && m.spent <= m.issued.Keys
            && m'.offline == m.offline
            && m'.issued.Keys == m.issued.Keys + {out.commitment}
            && m'.issued[out.commitment].amount == out.amount
            && m'.spent == m.spent + {input.commitment} && m'.spent <= m'.issued.Keys
            && Total(m') == Total(m)
  {
    assert BooksAt(w, input.authority);
    NextOwnIsNew(w, input.authority);
    SwapOne(w.auths[input.authority], input, AcquiredOutput(w, input));
  }

  /** The credited amount is the authority's own record of the note, whatever the note claims. */
  lemma AcquireCreditsRecord(w: World, input: Instrument)
    requires Books(w) && Acquire(w, input).1.Ok?
    ensures Live(w.auths[input.authority], input.commitment)
    ensures Acquire(w, input).1.value == w.auths[input.authority].issued[input.commitment].amount
    ensures Total(Acquire(w, input).0.auths[input.authority]) == Total(w.auths[input.authority])
  {
    AcquireIsStep(w, input);
    AcquireSwap(w, Acquire(w, input).0, input);
  }

  lemma AcquireKeeps(w: World, input: Instrument)
    requires Books(w) && CounterRoom(w, input.authority)
    requires input.commitment !in w.wallet.own
    ensures Keeps(w, Acquire(w, input).0)
  {
    if Acquire(w, input).1.Ok? {
      AcquireIsStep(w, input);
      AcquireHasEffect(w, Acquire(w, input).0, input);
      AcquireEffectKeeps(w, Acquire(w, input).0, input);
    } else {
      AcquireRefused(w, input);
      if Acquire(w, input).0 != w { ReserveKeeps(w, input.authority); }
    }
  }

  /** A refused acquisition burns an index at most. */
  lemma AcquireRefused(w: World, input: Instrument)
    requires Acquire(w, input).1.Err?
    ensures var w' := Acquire(w, input).0;
            w' == w || (input.authority in w.auths && w' == w.(wallet := Reserve(w.wallet, input.authority)))
  {
  }

  /** The world after an accepted acquisition: the note is consumed, one output is signed and
      held, and nothing else moves. */
  ghost predicate AcquireEffect(w: World, w': World, input: Instrument) {
    var n := input.authority;
    && n in w.auths && n in w'.auths && OnlyAt(w, w', n)
    && var m, m', c := w.auths[n], w'.auths[n], Mine(w, n);
       && m'.name == m.name && Live(m, input.commitment)
       && c !in m.issued && m'.issued.Keys == m.issued.Keys + {c}
       && (forall x :: x in m.issued ==> m'.issued[x].amount == m.issued[x].amount)
       && m'.issued[c].amount == input.attested
       && m'.spent == m.spent + {input.commitment} && m'.spent <= m'.issued.Keys
       && Held(w'.wallet, n) == Held(w.wallet, n) + [Output(c, input.attested)]
       && Counter(w'.wallet, n) == Wrap64(Counter(w.wallet, n) + 1)
       && w'.wallet.own == w.wallet.own[c := Counter(w.wallet, n)]
       && w'.wallet.seen == w.wallet.seen + {input.commitment}
  }

  lemma AcquireRecords(w: World, w': World, input: Instrument)
    requires AcquireStep(w, w', input)
    ensures var n, c := input.authority, AcquiredOutput(w, input).commitment;
            && n in w'.auths && OnlyAt(w, w', n)
            && Counter(w'.wallet, n) == Wrap64(Counter(w.wallet, n) + 1)
            && Held(w'.wallet, n) == Held(w.wallet, n) + [AcquiredOutput(w, input)]
            && w'.wallet.own == w.wallet.own[c := Counter(w.wallet, n)]
            && w'.wallet.seen == w.wallet.seen + {input.commitment}
  {
  }

  lemma AcquireHasEffect(w: World, w': World, input: Instrument)
    requires Books(w) && AcquireStep(w, w', input)
    ensures AcquireEffect(w, w', input)
  {
    AcquireRecords(w, w', input);
    AcquireSwap(w, w', input);
  }

  lemma AcquireEffectKeeps(w: World, w': World, input: Instrument)
    requires Books(w) && CounterRoom(w, input.authority)
    requires AcquireEffect(w, w', input) && input.commitment !in w.wallet.own
    ensures Keeps(w, w')
  {
    var n := input.authority;
    assert BooksAt(w', n) && (PayeesClear(w, n) ==> PayeesClear(w', n)) by { AcquireBooks(w, w', input); }
    assert OwnExact(w') by { AcquireOwn(w, w', input); }
    assert SeenSpent(w') by { AcquireSeen(w, w', input); }
    Assemble(w, w', n);
  }

  lemma AcquireBooks(w: World, w': World, input: Instrument)
    requires Books(w) && CounterRoom(w, input.authority)
    requires AcquireEffect(w, w', input) && input.commitment !in w.wallet.own
    ensures var n := input.authority;
            n in w'.auths && BooksAt(w', n) && (PayeesClear(w, n) ==> PayeesClear(w', n))
  {
    var n := input.authority;
    assert BooksAt(w, n);
    forall i | 0 <= i < Counter(w.wallet, n)
      ensures IsLive(w.auths[n], w.wallet.seed, i) <==> IsLive(w'.auths[n], w.wallet.seed, i)
    {
      AcquireLeaves(w, w', input, i);
    }
    AcquiredFresh(w, w', input);
    assert w.wallet.seed != RecipientSeed(n) by { SeedsApart(w, n); }
    BooksGrow(w, w', n, input.attested);
  }

  lemma AcquiredFresh(w: World, w': World, input: Instrument)
    requires input.authority in w.auths && BooksAt(w, input.authority) && AcquireEffect(w, w', input)
    ensures var n := input.authority;
            && Mine(w, n) !in w'.auths[n].spent && w'.auths[n].name == n
            && (CounterRoom(w, n) ==> Counter(w'.wallet, n) == Counter(w.wallet, n) + 1)
  {
  }

  lemma AcquireLeaves(w: World, w': World, input: Instrument, i: nat)
    requires Books(w) && AcquireEffect(w, w', input) && input.commitment !in w.wallet.own
    requires i < Counter(w.wallet, input.authority)
    ensures IsLive(w.auths[input.authority], w.wallet.seed, i)
       <==> IsLive(w'.auths[input.authority], w.wallet.seed, i)
  {
    assert BooksAt(w, input.authority) && !IsOwn(w, input.commitment);
    assert Derived(w.wallet.seed, i, input.authority) != Mine(w, input.authority);
  }

  lemma AcquireOwn(w: World, w': World, input: Instrument)
    requires Books(w) && AcquireEffect(w, w', input) && input.commitment !in w.wallet.own
    ensures OwnExact(w')
  {
    assert !IsOwn(w, input.commitment);
    assert w.auths[input.authority].spent <= w.auths[input.authority].issued.Keys by {
      assert BooksAt(w, input.authority);
    }
    OwnKept(w, w', input.authority, {}, {Mine(w, input.authority)});
  }

  lemma AcquireSeen(w: World, w': World, input: Instrument)
    requires Books(w) && AcquireEffect(w, w', input)
    ensures SeenSpent(w')
  {
    assert BooksAt(w, input.authority);
    SeenKept(w, w', input.authority, {input.commitment});
  }

  /** A reserved index that is never signed is harmless. */
  lemma ReserveKeeps(w: World, n: string)
    requires Books(w) && n in w.auths && CounterRoom(w, n)
    ensures Keeps(w, w.(wallet := Reserve(w.wallet, n)))
  {
    CounterMoves(w, w.(wallet := Reserve(w.wallet, n)), n);
  }

  /** A counter may move forward by any distance. */
  lemma CounterMoves(w: World, w': World, n: string)
    requires Books(w) && n in w.auths
    requires w'.auths == w.auths && Counter(w'.wallet, n) >= Counter(w.wallet, n)
    requires w'.wallet == w.wallet.(counters := w.wallet.counters[n := Counter(w'.wallet, n)])
    ensures Keeps(w, w')
  {
    assert BooksAt(w', n) by { CounterMovesBooks(w, w', n); }
    assert w.auths[n := w.auths[n]] == w.auths;
    assert OwnExact(w') by { OwnKept(w, w', n, {}, {}); }
    Assemble(w, w', n);
  }

  lemma CounterMovesBooks(w: World, w': World, n: string)
    requires n in w.auths && BooksAt(w, n) && w'.auths == w.auths && w'.wallet.seed == w.wallet.seed
    requires Counter(w'.wallet, n) >= Counter(w.wallet, n) && Held(w'.wallet, n) == Held(w.wallet, n)
    ensures BooksAt(w', n)
  {
    var m, seed, k := w.auths[n], w.wallet.seed, Counter(w.wallet, n);
    forall i | k <= i < Counter(w'.wallet, n) ensures !IsLive(m, seed, i) {
      assert Derived(seed, i, n) !in m.issued;
    }
    NothingLiveAbove(m, seed, k, Counter(w'.wallet, n));
  }

  // ------------------------------------------------------------ Spend

  lemma {:induction false} PaymentsValue(p: Wallet, m: Memory, held: seq<Output>)
    requires forall i :: 0 <= i < |held| ==>
               held[i].commitment in m.issued && m.issued[held[i].commitment].amount == held[i].amount
    ensures RecordedValue(m, Payments(p, m, held)) == ExactValue(held)
    decreases |held|
  {
    if held == [] {
    } else {
      PaymentsValue(p, m, held[1..]);
      assert Payments(p, m, held)[1..] == Payments(p, m, held[1..]);
    }
  }

  /** Every held output is live at its recorded amount, in increasing index order. */
  lemma HeldLive(w: World, n: string)
    requires n in w.auths && BooksAt(w, n)
    ensures var m, held := w.auths[n], Held(w.wallet, n);
            && Ascending(held)
            && (forall i :: 0 <= i < |held| ==>
                  var c := held[i].commitment;
                  Live(m, c) && m.issued[c].amount == held[i].amount && c.seed == w.wallet.seed && c.authority == n)
  {
    var m, held := w.auths[n], Held(w.wallet, n);
    LiveOutputsExact(m, w.wallet.seed, Counter(w.wallet, n));
    forall i | 0 <= i < |held|
      ensures var c := held[i].commitment;
              c.Derived? && Live(m, c) && m.issued[c].amount == held[i].amount
              && c.seed == w.wallet.seed && c.authority == n
    {
      assert held[i] in held;
    }
  }

  /** Handed to a swap, the held outputs are accepted, distinct and worth what the wallet says. */
  lemma HeldPayable(w: World, n: string)
    requires n in w.auths && BooksAt(w, n)
    ensures var m, inputs := w.auths[n], Payments(w.wallet, w.auths[n], Held(w.wallet, n));
            && AllIssued(m, inputs) && !Repeats(m, inputs) && RejectedInput(m, inputs) == None
            && RecordedValue(m, inputs) == ExactValue(Held(w.wallet, n))
  {
    var m, held := w.auths[n], Held(w.wallet, n);
    var inputs := Payments(w.wallet, m, held);
    HeldLive(w, n);
    PaymentsValue(w.wallet, m, held);
    AcceptedInputs(m, inputs);
    forall i: nat | i < |inputs| ensures !RepeatsAt(m, inputs, i) {
      forall j | 0 <= j < i ensures inputs[j].commitment != inputs[i].commitment {
        assert held[j].commitment.index < held[i].commitment.index;
      }
    }
  }

  /** And nothing the wallet could derive is missing from them. */
  lemma HeldComplete(w: World, n: string, c: Commitment) returns (i: nat)
    requires n in w.auths && BooksAt(w, n)
    requires c.Derived? && c.seed == w.wallet.seed && c.authority == n && Live(w.auths[n], c)
    ensures i < |Held(w.wallet, n)| && Held(w.wallet, n)[i].commitment == c
  {
    var m, k, held := w.auths[n], Counter(w.wallet, n), Held(w.wallet, n);
    LiveOutputsExact(m, w.wallet.seed, k);
    assert c == Derived(w.wallet.seed, c.index, n) && IsLive(m, w.wallet.seed, c.index);
    var o := Output(c, m.issued[c].amount);
    assert o in held;
    i :| 0 <= i < |held| && held[i] == o;
  }

  ghost function CommitmentsOf(outs: seq<Output>): set<Commitment> {
    set i | 0 <= i < |outs| :: outs[i].commitment
  }

  /** The replacements of a spend: new, worth the balance, one for the payee and perhaps one back. */
  lemma ReplacementFacts(w: World, n: string, amount: uint64)
    requires Books(w) && n in w.auths && PayeesClear(w, n) && 0 < amount <= BalanceAt(w.wallet, n)
    ensures var m, k, outs := w.auths[n], Counter(w.wallet, n), Replacements(w.wallet, n, w.auths[n], amount);
            var pay, mine := Derived(RecipientSeed(n), k, n), Derived(w.wallet.seed, k, n);
            && New(m, outs)
            && ExactValue(outs) == BalanceAt(w.wallet, n)
            && outs[0] == Output(pay, amount)
            && pay != mine && pay !in m.issued && mine !in m.issued
            && (if amount < BalanceAt(w.wallet, n)
                then |outs| == 2 && outs[1] == Output(mine, BalanceAt(w.wallet, n) - amount)
                     && CommitmentsOf(outs) == {pay, mine}
                else |outs| == 1 && CommitmentsOf(outs) == {pay})
  {
    var m, k, outs := w.auths[n], Counter(w.wallet, n), Replacements(w.wallet, n, w.auths[n], amount);
    assert BooksAt(w, n);
    NextOwnIsNew(w, n);
    NextPayeeIsNew(w, n);
    SeedsApart(w, n);
    assert outs == [outs[0]] + outs[1..];
    if |outs| == 2 {
      assert outs[1..] == [outs[1]] && outs[1..][1..] == [];
      assert ExactValue(outs) == amount + ExactValue(outs[1..]);
      assert ExactValue(outs[1..]) == outs[1].amount + ExactValue(outs[1..][1..]);
    } else {
      assert outs[1..] == [];
    }
    assert outs[0].commitment in CommitmentsOf(outs);
    assert |outs| == 2 ==> outs[1].commitment in CommitmentsOf(outs);
  }

  lemma SameCommitments(inputs: seq<Instrument>, held: seq<Output>)
    requires |inputs| == |held|
    requires forall i :: 0 <= i < |held| ==> inputs[i].commitment == held[i].commitment
    ensures (set i | 0 <= i < |inputs| :: inputs[i].commitment) == CommitmentsOf(held)
  {
    var named := set i | 0 <= i < |inputs| :: inputs[i].commitment;
    forall c | c in named ensures c in CommitmentsOf(held) {
      var i :| 0 <= i < |inputs| && inputs[i].commitment == c;
      assert held[i].commitment == c;
    }
    forall c | c in CommitmentsOf(held) ensures c in named {
      var i :| 0 <= i < |held| && held[i].commitment == c;
      assert inputs[i].commitment == c;
    }
  }

  /** What an accepted swap of everything held does to the authority. */
  lemma SpendSwap(w: World, n: string, amount: uint64)
    requires Books(w) && n in w.auths && PayeesClear(w, n) && 0 < amount <= BalanceAt(w.wallet, n)
    requires SwapRefusal(w.auths[n], Payments(w.wallet, w.auths[n], Held(w.wallet, n)),
                         Replacements(w.wallet, n, w.auths[n], amount)) == None
    ensures var m, held, outs := w.auths[n], Held(w.wallet, n), Replacements(w.wallet, n, w.auths[n], amount);
            var m' := Swapped(m, Payments(w.wallet, m, held), outs);
            && Extends(m, m')
            && m' == m.(issued := m'.issued, spent := m'.spent)
            && m'.issued.Keys == m.issued.Keys + CommitmentsOf(outs)
            && m'.spent == m.spent + CommitmentsOf(held) && m'.spent <= m'.issued.Keys
            && (forall i :: 0 <= i < |outs| ==> m'.issued[outs[i].commitment].amount == outs[i].amount)
            && Total(m') + ExactValue(held) == Total(m) + BalanceAt(w.wallet, n)
  {
    var m, held := w.auths[n], Held(w.wallet, n);
    var inputs, outs := Payments(w.wallet, m, held), Replacements(w.wallet, n, m, amount);
    assert BooksAt(w, n);
    HeldPayable(w, n);
    ReplacementFacts(w, n, amount);
    SwapExtends(m, inputs, outs);
    SameCommitments(inputs, held);
    SwapTotal(m, inputs, outs);
    ConsumeAllTotal(m, inputs);
  }

  /** The wallet and the world after an accepted spend, written out. */
  predicate SpendStep(w: World, w': World, amount: uint64, n: string) {
    && n in w.auths && 0 < amount <= BalanceAt(w.wallet, n)
    && var m, k, held := w.auths[n], Counter(w.wallet, n), Held(w.wallet, n);
       var inputs, outs := Payments(w.wallet, m, held), Replacements(w.wallet, n, m, amount);
       && SwapRefusal(m, inputs, outs) == None
       && w'.auths == w.auths[n := Swapped(m, inputs, outs)]
       && w'.wallet.seed == w.wallet.seed && w'.wallet.seen == w.wallet.seen
       && w'.wallet.counters == w.wallet.counters[n := Wrap64(k + 1)]
       && w'.wallet.holdings == w.wallet.holdings[n := outs[1..]]
       && w'.wallet.own == (if |outs| == 2 then Forget(w.wallet.own, held)[outs[1].commitment := k]
                            else Forget(w.wallet.own, held))
  }

  lemma SpendIsStep(w: World, amount: uint64, n: string)
    requires Spend(w, amount, n).1.Ok?
    ensures SpendStep(w, Spend(w, amount, n).0, amount, n)
  {
    var outs := Replacements(w.wallet, n, w.auths[n], amount);
    assert if |outs| == 2 then outs[1..] == [outs[1]] == [] + [outs[1]] else outs[1..] == [];
  }

  function Mine(w: World, n: string): Commitment {
    Derived(w.wallet.seed, Counter(w.wallet, n), n)
  }

  function Pay(w: World, n: string): Commitment {
    Derived(RecipientSeed(n), Counter(w.wallet, n), n)
  }

  function Change(w: World, n: string, amount: uint64): (change: nat)
    requires amount <= BalanceAt(w.wallet, n)
  {
    BalanceAt(w.wallet, n) - amount
  }

  /** The authority after an accepted spend: everything held is consumed, the payee and
      perhaps the change are signed, and nothing else moves. */
  ghost predicate SpendEffect(w: World, w': World, amount: uint64, n: string) {
    && n in w.auths && n in w'.auths && OnlyAt(w, w', n)
    && 0 < amount <= BalanceAt(w.wallet, n)
    && var m, m' := w.auths[n], w'.auths[n];
       var change, mine := Change(w, n, amount), Mine(w, n);
       && m'.name == m.name
       && m'.issued.Keys == m.issued.Keys + (if change > 0 then {Pay(w, n), mine} else {Pay(w, n)})
       && (forall c :: c in m.issued ==> m'.issued[c].amount == m.issued[c].amount)
       && m'.issued[Pay(w, n)].amount == amount
       && (change > 0 ==> m'.issued[mine].amount == change)
       && m'.spent == m.spent + CommitmentsOf(Held(w.wallet, n)) && m'.spent <= m'.issued.Keys
       && Pay(w, n) !in m.issued && mine !in m.issued && Pay(w, n) != mine
       && Held(w'.wallet, n) == (if change > 0 then [Output(mine, change)] else [])
       && w'.wallet.own == (if change > 0
                            then Forget(w.wallet.own, Held(w.wallet, n))[mine := Counter(w.wallet, n)]
                            else Forget(w.wallet.own, Held(w.wallet, n)))
       && Counter(w'.wallet, n) == Wrap64(Counter(w.wallet, n) + 1)
       && w'.wallet.seen == w.wallet.seen
  }

  lemma SpendHasEffect(w: World, w': World, amount: uint64, n: string)
    requires Books(w) && n in w.auths && PayeesClear(w, n) && SpendStep(w, w', amount, n)
    ensures SpendEffect(w, w', amount, n)
  {
    assert BooksAt(w, n);
    ReplacementFacts(w, n, amount);
    SpendSwap(w, n, amount);
    SpendOutputs(w, n, amount);
    SpendRecords(w, w', amount, n);
  }

  /** What was signed, one by one. */
  lemma SpendOutputs(w: World, n: string, amount: uint64)
    requires Books(w) && n in w.auths && PayeesClear(w, n) && 0 < amount <= BalanceAt(w.wallet, n)
    ensures var outs, change := Replacements(w.wallet, n, w.auths[n], amount), Change(w, n, amount);
            && outs[0] == Output(Pay(w, n), amount)
            && outs[1..] == (if change > 0 then [Output(Mine(w, n), change)] else [])
            && (change > 0 ==> outs[1] == Output(Mine(w, n), change))
            && CommitmentsOf(outs) == (if change > 0 then {Pay(w, n), Mine(w, n)} else {Pay(w, n)})
  {
    assert BooksAt(w, n);
    ReplacementFacts(w, n, amount);
  }

  lemma SpendRecords(w: World, w': World, amount: uint64, n: string)
    requires SpendStep(w, w', amount, n)
    ensures n in w'.auths && OnlyAt(w, w', n)
    ensures Counter(w'.wallet, n) == Wrap64(Counter(w.wallet, n) + 1)
    ensures Held(w'.wallet, n) == Replacements(w.wallet, n, w.auths[n], amount)[1..]
  {
  }

  /** Everything the wallet could derive below its counter is among what it held. */
  lemma OwnIsHeld(w: World, n: string, c: Commitment)
    requires Books(w) && n in w.auths
    requires c.Derived? && c.seed == w.wallet.seed && c.authority == n && Live(w.auths[n], c)
    ensures c in CommitmentsOf(Held(w.wallet, n))
  {
    assert BooksAt(w, n);
    var i := HeldComplete(w, n, c);
  }

  lemma GoneIsOwn(w: World, n: string)
    requires Books(w) && n in w.auths
    ensures forall c :: c in CommitmentsOf(Held(w.wallet, n)) ==> IsOwn(w, c) && c.authority == n
  {
    forall c | c in CommitmentsOf(Held(w.wallet, n)) ensures IsOwn(w, c) && c.authority == n {
      var i :| 0 <= i < |Held(w.wallet, n)| && Held(w.wallet, n)[i].commitment == c;
      HeldIsOwn(w, n, i);
    }
  }

  lemma SpendKeeps(w: World, amount: uint64, n: string)
    requires Books(w) && n in w.auths && PayeesClear(w, n) && CounterRoom(w, n)
    ensures Keeps(w, Spend(w, amount, n).0)
  {
    if Spend(w, amount, n).1.Ok? {
      SpendIsStep(w, amount, n);
      SpendHasEffect(w, Spend(w, amount, n).0, amount, n);
      SpendEffectKeeps(w, Spend(w, amount, n).0, amount, n);
    } else {
      SpendRefused(w, amount, n);
      ReserveKeeps(w, n);
    }
  }

  /** A refused spend burns an index at most. */
  lemma SpendRefused(w: World, amount: uint64, n: string)
    requires Spend(w, amount, n).1.Err?
    ensures var w' := Spend(w, amount, n).0;
            if n in w.auths && 0 < amount <= BalanceAt(w.wallet, n) then w' == w.(wallet := Reserve(w.wallet, n))
            else w' == w
  {
  }

  lemma SpendEffectKeeps(w: World, w': World, amount: uint64, n: string)
    requires Books(w) && n in w.auths && PayeesClear(w, n) && CounterRoom(w, n) && SpendEffect(w, w', amount, n)
    ensures Keeps(w, w')
  {
    assert BooksAt(w', n) && PayeesClear(w', n) by { SpendBooks(w, w', amount, n); }
    assert OwnExact(w') by { SpendOwn(w, w', amount, n); }
    assert SeenSpent(w') by { SeenKept(w, w', n, {}); }
    Assemble(w, w', n);
  }

  lemma SpendBooks(w: World, w': World, amount: uint64, n: string)
    requires Books(w) && n in w.auths && PayeesClear(w, n) && SpendEffect(w, w', amount, n) && CounterRoom(w, n)
    ensures BooksAt(w', n) && PayeesClear(w', n)
  {
    assert InvAt(w, n);
    SpendHoldings(w, w', amount, n);
    SpendInRange(w, w', amount, n);
    SpendCounts(w, w', amount, n);
    BooksFrom(w', n);
  }

  lemma SpendCounts(w: World, w': World, amount: uint64, n: string)
    requires SpendEffect(w, w', amount, n) && CounterRoom(w, n)
    ensures n in w'.auths && w'.wallet.seed == w.wallet.seed && w'.auths[n].spent <= w'.auths[n].issued.Keys
    ensures Counter(w'.wallet, n) == Counter(w.wallet, n) + 1
  {
  }

  lemma SpendInRange(w: World, w': World, amount: uint64, n: string)
    requires n in w.auths && InvAt(w, n) && SpendEffect(w, w', amount, n) && CounterRoom(w, n)
    ensures w'.auths[n].name == n && forall c :: c in w'.auths[n].issued ==> InRange(w', n, c)
  {
    forall c | c in w'.auths[n].issued ensures InRange(w', n, c) { IndexBelow(w, w', amount, n, c); }
  }

  /** c is an output of authority n, and behind the counter if it is the wallet's or a payee's. */
  predicate InRange(w: World, n: string, c: Commitment) {
    && c.Derived? && c.authority == n
    && (c.seed == w.wallet.seed || c.seed == RecipientSeed(n) ==> c.index < Counter(w.wallet, n))
  }

  lemma BooksFrom(w: World, n: string)
    requires n in w.auths && w.auths[n].name == n && w.auths[n].spent <= w.auths[n].issued.Keys
    requires forall c :: c in w.auths[n].issued ==> InRange(w, n, c)
    requires Held(w.wallet, n) == LiveOutputs(w.auths[n], w.wallet.seed, Counter(w.wallet, n))
    ensures BooksAt(w, n) && PayeesClear(w, n)
  {
    forall c | c in w.auths[n].issued
      ensures c.Derived? && c.authority == n && (c.seed == w.wallet.seed ==> c.index < Counter(w.wallet, n))
      ensures c.seed == RecipientSeed(n) ==> c.index < Counter(w.wallet, n) && c.index < MAX_UINT64
    {
      assert InRange(w, n, c);
    }
  }

  lemma IndexBelow(w: World, w': World, amount: uint64, n: string, c: Commitment)
    requires n in w.auths && InvAt(w, n) && SpendEffect(w, w', amount, n) && CounterRoom(w, n)
    requires c in w'.auths[n].issued
    ensures InRange(w', n, c)
  {
    if c !in w.auths[n].issued {
      assert c == Pay(w, n) || c == Mine(w, n);
    }
  }

  lemma SpendHoldings(w: World, w': World, amount: uint64, n: string)
    requires Books(w) && SpendEffect(w, w', amount, n) && CounterRoom(w, n)
    ensures Held(w'.wallet, n) == LiveOutputs(w'.auths[n], w.wallet.seed, Counter(w.wallet, n) + 1)
  {
    var m', seed, k := w'.auths[n], w.wallet.seed, Counter(w.wallet, n);
    assert m'.name == n by { assert BooksAt(w, n); }
    forall i | 0 <= i < k ensures !IsLive(m', seed, i) {
      NothingOwnLeft(w, w', amount, n, i);
    }
    NothingLiveAbove(m', seed, 0, k);
    assert LiveOutputs(m', seed, k) == [];
    assert Mine(w, n) !in m'.spent by {
      assert BooksAt(w, n);
      GoneIsOwn(w, n);
    }
    assert IsLive(m', seed, k) <==> Change(w, n, amount) > 0;
  }

  lemma NothingOwnLeft(w: World, w': World, amount: uint64, n: string, i: nat)
    requires Books(w) && SpendEffect(w, w', amount, n) && i < Counter(w.wallet, n)
    ensures !IsLive(w'.auths[n], w.wallet.seed, i)
  {
    assert BooksAt(w, n);
    var c := Derived(w.wallet.seed, i, n);
    SeedsApart(w, n);
    if Live(w.auths[n], c) { OwnIsHeld(w, n, c); }
  }

  lemma SpendOwn(w: World, w': World, amount: uint64, n: string)
    requires Books(w) && SpendEffect(w, w', amount, n)
    ensures OwnExact(w')
  {
    var m, m', held := w.auths[n], w'.auths[n], Held(w.wallet, n);
    var added := if Change(w, n, amount) > 0 then {Mine(w, n)} else {};
    assert m.spent <= m.issued.Keys by { assert BooksAt(w, n); }
    SeedsApart(w, n);
    GoneIsOwn(w, n);
    assert Forget(w.wallet.own, held) == w.wallet.own - CommitmentsOf(held);
    forall c: Commitment | c.Derived? && c.authority == n && c.seed == w.wallet.seed
      ensures Live(m', c) <==> (Live(m, c) && c !in CommitmentsOf(held)) || c in added {}
    OwnKept(w, w', n, CommitmentsOf(held), added);
  }

  // ------------------------------------------------------------ the conditions are exact

  /** Acquiring an output keeps the wallet honest exactly when the wallet does not hold it and the
      counter has not reached its last value. */
  lemma AcquireKeepsIff(w: World, input: Instrument)
    requires Inv(w) && Acquire(w, input).1.Ok?
    ensures Inv(Acquire(w, input).0) <==> input.commitment !in w.wallet.own && CounterRoom(w, input.authority)
  {
    var w' := Acquire(w, input).0;
    AcquireIsStep(w, input);
    AcquireHasEffect(w, w', input);
    if !CounterRoom(w, input.authority) {
      AcquiredAtLast(w, w', input);
    } else if input.commitment !in w.wallet.own {
      AcquireKeeps(w, input);
      KeepsInv(w, w');
    } else {
      AcquiredOwn(w, w', input);
    }
  }

  /** An output signed at an index the counter has yet to reach, or for a payee at the last one. */
  lemma BooksBroken(w: World, n: string, c: Commitment)
    requires n in w.auths && c in w.auths[n].issued && c.Derived?
    requires (c.seed == w.wallet.seed && c.index >= Counter(w.wallet, n))
             || (c.seed == RecipientSeed(n) && c.index >= MAX_UINT64)
    ensures !Books(w)
  {
    assert !BooksAt(w, n);
  }

  lemma AcquiredAtLast(w: World, w': World, input: Instrument)
    requires AcquireEffect(w, w', input) && !CounterRoom(w, input.authority)
    ensures !Books(w')
  {
    BooksBroken(w', input.authority, Mine(w, input.authority));
  }

  lemma AcquiredOwn(w: World, w': World, input: Instrument)
    requires Books(w) && AcquireEffect(w, w', input) && input.commitment in w.wallet.own
    ensures !Books(w')
  {
    assert IsOwn(w, input.commitment) && BooksAt(w, input.authority);
    OwnBroken(w', input.commitment);
  }

  lemma OwnBroken(w: World, c: Commitment)
    requires c in w.wallet.own && c.Derived? && c.authority in w.auths && c in w.auths[c.authority].spent
    ensures !Books(w)
  {
    assert !IsOwn(w, c);
  }

  lemma HeldIsOwn(w: World, n: string, j: nat)
    requires Books(w) && n in w.auths && j < |Held(w.wallet, n)|
    ensures IsOwn(w, Held(w.wallet, n)[j].commitment) && Held(w.wallet, n)[j].commitment.authority == n
  {
    assert BooksAt(w, n);
    HeldLive(w, n);
  }

  /** Issuing keeps the wallet honest exactly when the counter has not reached its last value. */
  lemma IssueIntoKeepsIff(w: World, target: string, amount: uint64)
    requires Inv(w) && IssueInto(w, target, amount).1.Ok?
    ensures Inv(IssueInto(w, target, amount).0) <==> CounterRoom(w, target)
  {
    var w' := IssueInto(w, target, amount).0;
    if CounterRoom(w, target) {
      IssueIntoKeeps(w, target, amount);
      KeepsInv(w, w');
    } else {
      assert BooksAt(w, target);
      assert Derived(w.wallet.seed, Counter(w.wallet, target), target) in w'.auths[target].issued;
      assert !BooksAt(w', target);
    }
  }

  /** A spend keeps the wallet honest exactly when it is refused for its amount, or the counter
      has not reached its last value. */
  lemma SpendKeepsIff(w: World, amount: uint64, n: string)
    requires Inv(w) && n in w.auths
    ensures Inv(Spend(w, amount, n).0)
       <==> CounterRoom(w, n) || amount == 0 || BalanceAt(w.wallet, n) < amount
  {
    var w' := Spend(w, amount, n).0;
    if CounterRoom(w, n) {
      SpendKeeps(w, amount, n);
      KeepsInv(w, w');
    } else if 0 < amount <= BalanceAt(w.wallet, n) {
      SpentAtLast(w, amount, n);
    }
  }

  lemma SpentAtLast(w: World, amount: uint64, n: string)
    requires Books(w) && n in w.auths && PayeesClear(w, n) && !CounterRoom(w, n)
    requires 0 < amount <= BalanceAt(w.wallet, n)
    ensures !Books(Spend(w, amount, n).0)
  {
    if Spend(w, amount, n).1.Ok? {
      SpendIsStep(w, amount, n);
      SpendHasEffect(w, Spend(w, amount, n).0, amount, n);
      BooksBroken(Spend(w, amount, n).0, n, Pay(w, n));
    } else {
      SpendRefused(w, amount, n);
      ReservedAtLast(w, n);
    }
  }

  lemma ReservedAtLast(w: World, n: string)
    requires Books(w) && n in w.auths && !CounterRoom(w, n) && BalanceAt(w.wallet, n) > 0
    ensures !Books(w.(wallet := Reserve(w.wallet, n)))
  {
    assert Held(w.wallet, n) != [];
    var c := Held(w.wallet, n)[0].commitment;
    assert c in w.auths[n].issued && c.Derived? && c.seed == w.wallet.seed by {
      assert BooksAt(w, n);
      HeldLive(w, n);
    }
    BooksBroken(w.(wallet := Reserve(w.wallet, n)), n, c);
  }

  /** A spend conserves the authority's total exactly when the held amounts fit in a register;
      otherwise the whole multiples of 2^64 they add up to are lost. */
  lemma SpendConservesIff(w: World, amount: uint64, n: string)
    requires Inv(w) && Spend(w, amount, n).1.Ok?
    ensures var m, m' := w.auths[n], Spend(w, amount, n).0.auths[n];
            && Total(m') <= Total(m) && Wrap64(Total(m')) == Wrap64(Total(m))
            && (Total(m') == Total(m) <==> FitsUint64(ExactValue(Held(w.wallet, n))))
  {
    SpendIsStep(w, amount, n);
    SpendTotal(w, Spend(w, amount, n).0, amount, n);
  }

  lemma SpendTotal(w: World, w': World, amount: uint64, n: string)
    requires Inv(w) && SpendStep(w, w', amount, n)
    ensures var m, m' := w.auths[n], w'.auths[n];
            && Total(m') <= Total(m) && Wrap64(Total(m')) == Wrap64(Total(m))
            && (Total(m') == Total(m) <==> FitsUint64(ExactValue(Held(w.wallet, n))))
  {
    var held := ExactValue(Held(w.wallet, n));
    SpendSwap(w, n, amount);
    WrapLoses(held);
    WrapTwice(held);
    WrapBalance(Total(w'.auths[n]), Total(w.auths[n]), held, BalanceAt(w.wallet, n));
  }
}
