/** Whole runs of the bearer port: any sequence of wallet operations, losses of the store, other
    holders' issues and swaps, and authorities going away and coming back. */
module PortRuns {
  import opened Basics
  import opened Words
  import opened Ledger
  import opened BearerPort
  import opened Recovery
  import opened PortInvariant
  import opened Restoration

  datatype Event =
    | IssueEvent(target: string, amount: uint64)
    | AcquireEvent(input: Instrument)
    | SpendEvent(amount: uint64, target: string)
    | PersistEvent(target: string, next: uint64)
    | LossEvent(saved: map<string, uint64>)
    | OutageEvent(target: string, offline: bool)
    | RevealEvent(target: string, commitment: Commitment, tag: Nullifier)
    | ForeignIssue(target: string, seed: Seed, index: nat, amount: uint64)
    | ForeignSwap(target: string, inputs: seq<Instrument>, outs: seq<Output>)

  function WithAuthority(w: World, target: string, m: Memory): World {
    if target in w.auths then w.(auths := w.auths[target := m]) else w
  }

  function Step(w: World, e: Event): World {
    match e
    case IssueEvent(target, amount) => IssueInto(w, target, amount).0
    case AcquireEvent(input) => Acquire(w, input).0
    case SpendEvent(amount, target) => Spend(w, amount, target).0
    case PersistEvent(target, next) => PersistCounter(w, target, next)
    case LossEvent(saved) => Resumed(w, saved)
    case OutageEvent(target, offline) =>
      if target in w.auths then WithAuthority(w, target, SetOffline(w.auths[target], offline)) else w
    case RevealEvent(target, c, tag) =>
      if target in w.auths then WithAuthority(w, target, Reveal(w.auths[target], c, tag)) else w
    case ForeignIssue(target, seed, index, amount) =>
      if target in w.auths then WithAuthority(w, target, Issue(w.auths[target], seed, index, amount)) else w
    case ForeignSwap(target, inputs, outs) =>
      if target in w.auths && SwapRefusal(w.auths[target], inputs, outs) == None
      then WithAuthority(w, target, Swapped(w.auths[target], inputs, outs)) else w
  }

  /** c belongs to a holder other than this wallet and its payees-to-be. */
  predicate Foreign(w: World, target: string, c: Commitment) {
    c.Derived? && c.authority == target && !Counted(w.wallet, target, c)
  }

  /** What the environment may do: the wallet acquires only what it does not hold and its
      counters do not come round; it loses its store only while every authority answers and a sweep
      meets all it was ever signed, and comes back with counters past its payees; other
      holders sign new outputs of their own spaces, spend notes that are not the wallet's, and
      never name a note twice. */
  ghost predicate Allowed(w: World, e: Event) {
    match e
    case IssueEvent(target, _) => CounterRoom(w, target)
    case AcquireEvent(input) => CounterRoom(w, input.authority) && input.commitment !in w.wallet.own
    case SpendEvent(_, target) => CounterRoom(w, target)
    case PersistEvent(target, _) => target in w.auths
    case LossEvent(saved) =>
      Online(w) && AllMet(w) && forall n :: n in w.auths ==> PaidBelow(w, n, NextIndex(w, saved, n))
    case OutageEvent(_, _) => true
    case RevealEvent(_, _, _) => true
    case ForeignIssue(target, seed, index, _) =>
      target in w.auths ==>
        Foreign(w, target, Derived(seed, index, target))
        && Derived(seed, index, target) !in w.auths[target].issued
    case ForeignSwap(target, inputs, outs) =>
      target in w.auths ==>
        && New(w.auths[target], outs)
        && (forall i :: 0 <= i < |outs| ==> Foreign(w, target, outs[i].commitment))
        && FitsUint64(ExactValue(outs))
        && (forall i :: 0 <= i < |inputs| ==>
              !(inputs[i].commitment.Derived? && inputs[i].commitment.seed == w.wallet.seed))
        && !Repeats(w.auths[target], inputs)
  }

  function Run(w: World, es: seq<Event>): World
    decreases |es|
  {
    if es == [] then w else Run(Step(w, es[0]), es[1..])
  }

  ghost predicate AllowedRun(w: World, es: seq<Event>)
    decreases |es|
  {
    es == [] || (Allowed(w, es[0]) && AllowedRun(Step(w, es[0]), es[1..]))
  }

  // ------------------------------------------------------------ other holders

  /** A change of one authority that leaves the wallet's and its payees' spaces alone. */
  predicate Elsewhere(w: World, target: string, m': Memory) {
    && target in w.auths
    && var m := w.auths[target];
       && m'.name == m.name
       && m'.spent <= m'.issued.Keys && m.spent <= m'.spent
       && (forall c :: c in m.issued ==> c in m'.issued && m'.issued[c].amount == m.issued[c].amount)
       && (forall c :: c in m'.issued && c !in m.issued ==> Foreign(w, target, c))
       && (forall c :: c in m'.spent && c !in m.spent ==> !(c.Derived? && c.seed == w.wallet.seed))
  }

  lemma ElsewhereKeeps(w: World, target: string, m': Memory)
    requires Books(w) && Elsewhere(w, target, m')
    ensures Keeps(w, WithAuthority(w, target, m'))
  {
    var w' := WithAuthority(w, target, m');
    assert BooksAt(w', target) && (PayeesClear(w, target) ==> PayeesClear(w', target)) by {
      ElsewhereBooks(w, target, m');
    }
    assert OwnExact(w') by { ElsewhereOwn(w, target, m'); }
    assert SeenSpent(w') by { SeenKept(w, w', target, {}); }
    Assemble(w, w', target);
  }

  lemma ElsewhereBooks(w: World, target: string, m': Memory)
    requires Elsewhere(w, target, m') && BooksAt(w, target)
    ensures var w' := WithAuthority(w, target, m');
            BooksAt(w', target) && (PayeesClear(w, target) ==> PayeesClear(w', target))
  {
    LiveOutputsFrame(w.auths[target], m', w.wallet.seed, Counter(w.wallet, target));
  }

  lemma ElsewhereOwn(w: World, target: string, m': Memory)
    requires Books(w) && Elsewhere(w, target, m')
    ensures OwnExact(WithAuthority(w, target, m'))
  {
    assert BooksAt(w, target);
    OwnKept(w, WithAuthority(w, target, m'), target, {}, {});
  }

  lemma ForeignSwapElsewhere(w: World, target: string, inputs: seq<Instrument>, outs: seq<Output>)
    requires target in w.auths && BooksAt(w, target) && Allowed(w, ForeignSwap(target, inputs, outs))
    requires SwapRefusal(w.auths[target], inputs, outs) == None
    ensures Elsewhere(w, target, Swapped(w.auths[target], inputs, outs))
  {
    SwapExtends(w.auths[target], inputs, outs);
  }

  lemma OutageElsewhere(w: World, target: string, offline: bool)
    requires target in w.auths && BooksAt(w, target)
    ensures Elsewhere(w, target, SetOffline(w.auths[target], offline))
  {
  }

  lemma OutageKeeps(w: World, target: string, offline: bool)
    requires Books(w) && target in w.auths
    ensures Keeps(w, WithAuthority(w, target, SetOffline(w.auths[target], offline)))
  {
    assert Elsewhere(w, target, SetOffline(w.auths[target], offline)) by {
      assert BooksAt(w, target);
      OutageElsewhere(w, target, offline);
    }
    ElsewhereKeeps(w, target, SetOffline(w.auths[target], offline));
  }

  lemma ForeignKeeps(w: World, e: Event)
    requires Books(w) && Allowed(w, e) && (e.RevealEvent? || e.ForeignIssue? || e.ForeignSwap?)
    ensures Keeps(w, Step(w, e))
  {
    if e.target in w.auths {
      var m := w.auths[e.target];
      assert BooksAt(w, e.target);
      match e {
        case RevealEvent(target, c, tag) => ElsewhereKeeps(w, target, Reveal(m, c, tag));
        case ForeignIssue(target, seed, index, amount) => ElsewhereKeeps(w, target, Issue(m, seed, index, amount));
        case ForeignSwap(target, inputs, outs) =>
          if SwapRefusal(m, inputs, outs) == None {
            ForeignSwapElsewhere(w, target, inputs, outs);
            ElsewhereKeeps(w, target, Swapped(m, inputs, outs));
          }
      }
    }
  }

  lemma LossKeeps(w: World, saved: map<string, uint64>)
    requires Inv(w) && Allowed(w, LossEvent(saved))
    ensures Inv(Resumed(w, saved))
  {
    ResumedBooks(w, saved);
    forall n | n in w.auths ensures PayeesClear(Resumed(w, saved), n) {
      InvHere(w, n);
      ResumedClear(w, saved, n);
    }
  }

  lemma PersistKeeps(w: World, target: string, next: uint64)
    requires Books(w) && target in w.auths
    ensures Keeps(w, PersistCounter(w, target, next))
  {
    if next > Counter(w.wallet, target) {
      CounterMoves(w, PersistCounter(w, target, next), target);
    }
  }

  /** Every step but a loss keeps the books and whatever payees are clear. */
  lemma StepKeepsBooks(w: World, e: Event)
    requires Inv(w) && Allowed(w, e) && !e.LossEvent?
    ensures Keeps(w, Step(w, e))
  {
    match e
    case IssueEvent(target, amount) => IssueIntoKeeps(w, target, amount);
    case AcquireEvent(input) => AcquireKeeps(w, input);
    case SpendEvent(amount, target) => if target in w.auths { SpendKeeps(w, amount, target); }
    case PersistEvent(target, next) => PersistKeeps(w, target, next);
    case OutageEvent(target, offline) => if target in w.auths { OutageKeeps(w, target, offline); }
    case _ => ForeignKeeps(w, e);
  }

  lemma StepKeeps(w: World, e: Event)
    requires Inv(w) && Allowed(w, e)
    ensures Inv(Step(w, e))
  {
    if e.LossEvent? {
      LossKeeps(w, e.saved);
    } else {
      StepKeepsBooks(w, e);
      KeepsInv(w, Step(w, e));
    }
  }

  /** In every reachable state the wallet holds, at every authority, exactly the authority's
      unspent record of the wallet's derivation space, in index order. */
  lemma {:induction false} RunKeeps(w: World, es: seq<Event>)
    requires Inv(w) && AllowedRun(w, es)
    ensures Inv(Run(w, es))
    decreases |es|
  {
    if es == [] {
    } else {
      StepKeeps(w, es[0]);
      RunKeeps(Step(w, es[0]), es[1..]);
    }
  }
}
