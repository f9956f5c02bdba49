/** What the operations of the bearer port answer: what a spend hands over and an issue keeps, and
    exactly when, and with what error, an operation is refused. */
module PortAnswers {
  import opened Basics
  import opened Words
  import opened Ledger
  import opened BearerPort
  import opened Recovery
  import opened PortInvariant

  // ------------------------------------------------------------ swaps

  /** Input i can be swapped. */
  predicate Fine(m: Memory, input: Instrument) {
    input.kind == m.kind && Live(m, input.commitment)
  }

  /** The first input that cannot be swapped decides: it is unknown, or it is spent. */
  lemma {:induction false} FirstRejected(m: Memory, inputs: seq<Instrument>, i: nat)
    requires i < |inputs| && !Fine(m, inputs[i]) && forall j :: 0 <= j < i ==> Fine(m, inputs[j])
    ensures RejectedInput(m, inputs)
         == Some(if inputs[i].kind == m.kind && inputs[i].commitment in m.issued then AlreadyConsumed else NotIssued)
    decreases |inputs|
  {
    if i == 0 {
    } else {
      assert inputs[1..][i - 1] == inputs[i] && forall j :: 0 <= j < i - 1 ==> inputs[1..][j] == inputs[j + 1];
      assert Fine(m, inputs[0]);
      FirstRejected(m, inputs[1..], i - 1);
    }
  }

  /** A swap goes through exactly if the authority answers, there are inputs and all of them can be
      swapped, no replacement is for nothing, and both sides come to the same in 64 bits. */
  lemma SwapAcceptedIff(m: Memory, inputs: seq<Instrument>, outs: seq<Output>)
    ensures SwapRefusal(m, inputs, outs) == None <==>
              && !m.offline && inputs != [] && (forall i :: 0 <= i < |inputs| ==> Fine(m, inputs[i]))
              && (forall i :: 0 <= i < |outs| ==> outs[i].amount > 0)
              && Wrap64(ExactValue(outs)) == Wrap64(RecordedValue(m, inputs))
    ensures m.offline <==> SwapRefusal(m, inputs, outs) == Some(StateUnavailable)
    ensures !m.offline && (forall i :: 0 <= i < |inputs| ==> Fine(m, inputs[i])) ==>
              && (inputs == [] || HasZero(outs) <==> SwapRefusal(m, inputs, outs) == Some(AmountNotPositive))
              && (SwapRefusal(m, inputs, outs) == Some(AmountMismatch) <==>
                    inputs != [] && !HasZero(outs) && Wrap64(ExactValue(outs)) != Wrap64(RecordedValue(m, inputs)))
  {
    AcceptedInputs(m, inputs);
    assert forall i :: 0 <= i < |inputs| ==>
             (Fine(m, inputs[i]) <==> inputs[i].kind == m.kind && Live(m, inputs[i].commitment));
    NeverUnavailable(m, inputs);
  }

  lemma {:induction false} NeverUnavailable(m: Memory, inputs: seq<Instrument>)
    ensures RejectedInput(m, inputs) != Some(StateUnavailable)
    decreases |inputs|
  {
    if inputs == [] {
    } else {
      NeverUnavailable(m, inputs[1..]);
    }
  }

  // ------------------------------------------------------------ what a spend hands over

  /** The output a blob names: of this kind and amount, new to the authority, and live there now at
      that amount. */
  predicate Names(m: Memory, m': Memory, b: Blob, amount: uint64) {
    && b.kind == m.kind && b.amount == amount
    && b.commitment !in m.issued && Live(m', b.commitment) && m'.issued[b.commitment].amount == amount
  }

  lemma SpendBlob(w: World, amount: uint64, n: string)
    requires Spend(w, amount, n).1.Ok?
    ensures n in w.auths && amount <= BalanceAt(w.wallet, n)
    ensures Spend(w, amount, n).1.value
         == Blob(w.auths[n].kind, Replacements(w.wallet, n, w.auths[n], amount)[0].commitment, amount)
  {
  }

  /** A spend hands over an output of the amount asked, new and unspent at the authority, in the
      payee's derivation space and not the payer's: the payer does not hold it. */
  lemma SpendHandsOver(w: World, amount: uint64, n: string)
    requires Inv(w) && Spend(w, amount, n).1.Ok?
    ensures var (w', r) := Spend(w, amount, n);
            && n in w.auths && n in w'.auths && Names(w.auths[n], w'.auths[n], r.value, amount)
            && r.value.commitment == Derived(RecipientSeed(n), Counter(w.wallet, n), n)
            && r.value.commitment.seed != w'.wallet.seed && r.value.commitment !in w'.wallet.own
            && r.value.commitment !in CommitmentsOf(Held(w'.wallet, n))
  {
    var (w', r) := Spend(w, amount, n);
    SpendBlob(w, amount, n);
    SpendIsStep(w, amount, n);
    SpendHasEffect(w, w', amount, n);
    assert w.auths[n].name == n by { assert BooksAt(w, n); }
    SeedsApart(w, n);
    PayeeIsNotOurs(w, w', amount, n);
  }

  lemma PayeeIsNotOurs(w: World, w': World, amount: uint64, n: string)
    requires Inv(w) && n in w.auths && SpendEffect(w, w', amount, n)
    ensures var m' := w'.auths[n];
            && Live(m', Pay(w, n)) && Pay(w, n) !in w'.wallet.own
            && Pay(w, n) !in CommitmentsOf(Held(w'.wallet, n))
  {
    assert BooksAt(w, n);
    SeedsApart(w, n);
    GoneIsOwn(w, n);
    assert Pay(w, n) !in w.wallet.own && Pay(w, n) != Mine(w, n);
  }

  /** An issue answers with the output it adds to what is held. */
  lemma IssueHandsOver(w: World, target: string, amount: uint64)
    requires Books(w) && IssueInto(w, target, amount).1.Ok?
    ensures var (w', r) := IssueInto(w, target, amount);
            && target in w.auths && target in w'.auths && Names(w.auths[target], w'.auths[target], r.value, amount)
            && Held(w'.wallet, target) == Held(w.wallet, target) + [Output(r.value.commitment, amount)]
            && r.value.commitment in w'.wallet.own && r.value.commitment.Derived?
            && w'.wallet.own[r.value.commitment] == r.value.commitment.index == Counter(w.wallet, target)
  {
    assert BooksAt(w, target);
    NextOwnIsNew(w, target);
  }

  // ------------------------------------------------------------ when it is refused

  /** In a true book a spend goes through exactly if the amount is positive and covered and the
      authority answers; and each refusal has its own error. */
  lemma SpendAnswers(w: World, amount: uint64, n: string)
    requires Inv(w)
    ensures var r := Spend(w, amount, n).1;
            && (r == Err(AmountNotPositive) <==> amount == 0)
            && (r == Err(NoAuthority) <==> amount > 0 && n !in w.auths)
            && (r == Err(InsufficientFunds) <==> amount > 0 && n in w.auths && BalanceAt(w.wallet, n) < amount)
            && (r == Err(StateUnavailable) <==>
                  n in w.auths && 0 < amount <= BalanceAt(w.wallet, n) && w.auths[n].offline)
            && (r.Ok? <==> n in w.auths && 0 < amount <= BalanceAt(w.wallet, n) && !w.auths[n].offline)
  {
    if n in w.auths && 0 < amount <= BalanceAt(w.wallet, n) { FundedSpend(w, amount, n); }
  }

  lemma FundedSpend(w: World, amount: uint64, n: string)
    requires Inv(w) && n in w.auths && 0 < amount <= BalanceAt(w.wallet, n)
    ensures SwapRefusal(w.auths[n], Payments(w.wallet, w.auths[n], Held(w.wallet, n)),
                        Replacements(w.wallet, n, w.auths[n], amount))
         == if w.auths[n].offline then Some(StateUnavailable) else None
  {
    InvHere(w, n);
    HeldPayable(w, n);
    ReplacementFacts(w, n, amount);
    WrapTwice(ExactValue(Held(w.wallet, n)));
    assert Held(w.wallet, n) != [];
  }

  /** An acquisition goes through exactly for a note that was not taken before, that its authority
      knows as live and of its own kind at the attested amount, while the authority answers. What
      the authority refuses has burned an index; nothing else has. */
  lemma AcquireAnswers(w: World, input: Instrument)
    requires Books(w)
    ensures var (w', r) := Acquire(w, input);
            var n := input.authority;
            && (r == Err(NoAuthority) <==> n !in w.auths)
            && (n in w.auths && input.commitment in w.wallet.seen ==> r == Err(AlreadyConsumed))
            && (n in w.auths && input.commitment !in w.wallet.seen && input.attested == 0 ==> r == Err(NotIssued))
            && (n in w.auths && input.commitment !in w.wallet.seen && input.attested > 0 ==>
                  && (r.Ok? <==> !w.auths[n].offline && Fine(w.auths[n], input)
                                 && input.attested == w.auths[n].issued[input.commitment].amount)
                  && (r == Err(StateUnavailable) <==> w.auths[n].offline)
                  && (r == Err(AlreadyConsumed) <==>
                        !w.auths[n].offline && input.kind == w.auths[n].kind && input.commitment in w.auths[n].issued
                        && input.commitment in w.auths[n].spent))
            && (r.Err? ==>
                  w' == if n in w.auths && input.commitment !in w.wallet.seen && input.attested > 0
                        then w.(wallet := Reserve(w.wallet, n)) else w)
  {
    if input.authority in w.auths && input.commitment !in w.wallet.seen && input.attested > 0 {
      OneInput(w.auths[input.authority], input, AcquiredOutput(w, input));
      assert BooksAt(w, input.authority);
    }
  }

  lemma OneInput(m: Memory, input: Instrument, out: Output)
    requires out.amount == input.attested > 0
    ensures SwapRefusal(m, [input], [out]) ==
              if m.offline then Some(StateUnavailable)
              else if input.kind != m.kind || input.commitment !in m.issued then Some(NotIssued)
              else if input.commitment in m.spent then Some(AlreadyConsumed)
              else if input.attested != m.issued[input.commitment].amount then Some(AmountMismatch)
              else None
  {
    var ins, outs := [input], [out];
    assert ins[1..] == [] && outs[1..] == [] && ins[0] == input && outs[0] == out;
    assert RejectedInput(m, ins[1..]) == None;
    assert RecordedValue(m, ins) == (if input.commitment in m.issued then m.issued[input.commitment].amount else 0)
                                    + RecordedValue(m, ins[1..]);
    assert ExactValue(outs) == out.amount + ExactValue(outs[1..]);
  }

  /** A note that was taken is not taken again, and asking again changes nothing. */
  lemma AcquiredOnce(w: World, input: Instrument)
    requires Acquire(w, input).1.Ok?
    ensures var w' := Acquire(w, input).0;
            Acquire(w', input) == (w', Err(AlreadyConsumed))
  {
  }

  /** A counter persisted is where it was or at the new value, whichever is further; nothing else
      moves. */
  lemma PersistExact(w: World, target: string, next: uint64, other: string)
    ensures var w' := PersistCounter(w, target, next);
            && w'.auths == w.auths && w'.wallet.holdings == w.wallet.holdings && w'.wallet.own == w.wallet.own
            && w'.wallet.seen == w.wallet.seen && w'.wallet.seed == w.wallet.seed
            && Counter(w'.wallet, target) >= Counter(w.wallet, target) && Counter(w'.wallet, target) >= next
            && (Counter(w'.wallet, target) == Counter(w.wallet, target) || Counter(w'.wallet, target) == next)
            && (other != target ==> Counter(w'.wallet, other) == Counter(w.wallet, other))
  {
  }

  /** A lost store is empty, and the seed and the authorities are as they were. */
  lemma StoreIsGone(w: World, n: string)
    ensures var w' := DestroyStore(w);
            && w'.auths == w.auths && w'.wallet.seed == w.wallet.seed
            && Held(w'.wallet, n) == [] && BalanceAt(w'.wallet, n) == 0 && Counter(w'.wallet, n) == 0
            && w'.wallet.own == map[] && w'.wallet.seen == {}
  {
  }
}
