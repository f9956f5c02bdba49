/** An authority of the bearer port as a value: the log of what it signed, the set of
    what it consumed, and the swap that moves value between the two. */
module Ledger {
  import opened Basics
  import opened Words

  type Seed = string

  /** The identifier an authority records for an output. The keyed hash that produces it is
      taken to be collision-free, so a derived commitment is its (seed, index, authority). */
  datatype Commitment =
    | Derived(seed: Seed, index: nat, authority: string)
    | Alien(text: string)

  /** The anti-double-spend tag of an output; Unlearned is the program's empty string. */
  datatype Nullifier =
    | Unlearned
    | Tag(seed: Seed, index: nat, authority: string)
    | AlienTag(text: string)

  datatype Issuance = Issuance(nullifier: Nullifier, amount: uint64)

  datatype Output = Output(commitment: Commitment, amount: uint64)

  datatype Instrument = Instrument(
    kind: string,
    authority: string,
    face: uint64,
    attested: uint64,
    commitment: Commitment,
    nullifier: Nullifier)

  datatype CheckMode = Query | Probe | NoCheck

  datatype Error =
    | UnknownKind
    | NotIssued
    | AlreadyConsumed
    | StateUnavailable
    | InsufficientFunds
    | AmountNotPositive
    | AmountMismatch
    | NoAuthority

  type Outcome<+T> = Result<T, Error>

  datatype Memory = Memory(
    name: string,
    kind: string,
    mode: CheckMode,
    learnsAtIssuance: bool,
    optimistic: bool,
    offline: bool,
    issued: map<Commitment, Issuance>,
    spent: set<Commitment>)

  // ------------------------------------------------------------ issuing and swapping

  function Issue(m: Memory, seed: Seed, index: nat, amount: uint64): Memory {
    var tag := if m.learnsAtIssuance then Tag(seed, index, m.name) else Unlearned;
    var c := Derived(seed, index, m.name);
    m.(issued := m.issued[c := Issuance(tag, amount)], spent := m.spent - {c})
  }

  function Reveal(m: Memory, c: Commitment, tag: Nullifier): Memory {
    if c !in m.issued then m
    else m.(issued := m.issued[c := Issuance(tag, m.issued[c].amount)])
  }

  function SetOffline(m: Memory, v: bool): Memory {
    m.(offline := v)
  }

  /** Why the first unacceptable input is unacceptable, if there is one. */
  function RejectedInput(m: Memory, inputs: seq<Instrument>): Option<Error> {
    if inputs == [] then None
    else if inputs[0].kind != m.kind || inputs[0].commitment !in m.issued then Some(NotIssued)
    else if inputs[0].commitment in m.spent then Some(AlreadyConsumed)
    else RejectedInput(m, inputs[1..])
  }

  /** The recorded value of a list of inputs, as an exact number. */
  function RecordedValue(m: Memory, inputs: seq<Instrument>): nat {
    if inputs == [] then 0
    else
      (if inputs[0].commitment in m.issued then m.issued[inputs[0].commitment].amount else 0)
      + RecordedValue(m, inputs[1..])
  }

  function ExactValue(outs: seq<Output>): nat {
    if outs == [] then 0 else outs[0].amount + ExactValue(outs[1..])
  }

  predicate HasZero(outs: seq<Output>) {
    exists i :: 0 <= i < |outs| && outs[i].amount == 0
  }

  /** The refusal a swap answers with, or None when it goes through. */
  function SwapRefusal(m: Memory, inputs: seq<Instrument>, outs: seq<Output>): Option<Error> {
    if m.offline then Some(StateUnavailable)
    else if inputs == [] then Some(AmountNotPositive)
    else if RejectedInput(m, inputs).Some? then RejectedInput(m, inputs)
    else if HasZero(outs) then Some(AmountNotPositive)
    else if Wrap64(ExactValue(outs)) != Wrap64(RecordedValue(m, inputs)) then Some(AmountMismatch)
    else None
  }

  function ConsumeOne(m: Memory, input: Instrument): Memory {
    var c := input.commitment;
    var learned := if input.nullifier != Unlearned && c in m.issued
                   then m.issued[c := Issuance(input.nullifier, m.issued[c].amount)]
                   else m.issued;
    m.(issued := learned, spent := m.spent + {c})
  }

  function ConsumeAll(m: Memory, inputs: seq<Instrument>): Memory
    decreases |inputs|
  {
    if inputs == [] then m else ConsumeAll(ConsumeOne(m, inputs[0]), inputs[1..])
  }

  function SignOne(m: Memory, o: Output): Memory {
    m.(issued := m.issued[o.commitment := Issuance(Unlearned, o.amount)],
       spent := m.spent - {o.commitment})
  }

  function SignAll(m: Memory, outs: seq<Output>): Memory
    decreases |outs|
  {
    if outs == [] then m else SignAll(SignOne(m, outs[0]), outs[1..])
  }

  function Swapped(m: Memory, inputs: seq<Instrument>, outs: seq<Output>): Memory {
    SignAll(ConsumeAll(m, inputs), outs)
  }

  // ------------------------------------------------------------ what an authority owes

  /** The unit coins an output is worth: (c, 0), (c, 1), ... (c, amount - 1). */
  ghost function Coins(c: Commitment, amount: nat): set<(Commitment, nat)> {
    set i: nat | i < amount :: (c, i)
  }

  ghost function UnspentCoins(m: Memory): set<(Commitment, nat)> {
    set c, i: nat | c in m.issued && c !in m.spent && i < m.issued[c].amount :: (c, i)
  }

  /** The total unspent value an authority has signed, counted coin by coin. */
  ghost function Total(m: Memory): nat {
    |UnspentCoins(m)|
  }

  lemma {:induction false} CoinsWorth(c: Commitment, amount: nat)
    ensures |Coins(c, amount)| == amount
  {
    if amount == 0 {
    } else {
      CoinsWorth(c, amount - 1);
      assert Coins(c, amount) == Coins(c, amount - 1) + {(c, amount - 1)};
    }
  }

  predicate Live(m: Memory, c: Commitment) {
    c in m.issued && c !in m.spent
  }

  /** The replacements are new to the authority and pairwise different. */
  predicate New(m: Memory, outs: seq<Output>) {
    && (forall i :: 0 <= i < |outs| ==> outs[i].commitment !in m.issued)
    && (forall i, j :: 0 <= i < j < |outs| ==> outs[i].commitment != outs[j].commitment)
  }

  /** Input i is worth something and adds nothing: spent already, or named earlier. */
  predicate RepeatsAt(m: Memory, inputs: seq<Instrument>, i: nat)
    requires i < |inputs|
  {
    var c := inputs[i].commitment;
    && c in m.issued && m.issued[c].amount > 0
    && (c in m.spent || exists j :: 0 <= j < i && inputs[j].commitment == c)
  }

  predicate Repeats(m: Memory, inputs: seq<Instrument>) {
    exists i: nat :: i < |inputs| && RepeatsAt(m, inputs, i)
  }

  predicate AllIssued(m: Memory, inputs: seq<Instrument>) {
    forall i :: 0 <= i < |inputs| ==> inputs[i].commitment in m.issued
  }

  lemma CoinsSplit(m: Memory, m': Memory, c: Commitment)
    requires Live(m, c) && m'.issued.Keys == m.issued.Keys && m'.spent == m.spent + {c}
    requires forall x :: x in m.issued ==> m'.issued[x].amount == m.issued[x].amount
    ensures Total(m) == Total(m') + m.issued[c].amount
  {
    var coins := Coins(c, m.issued[c].amount);
    CoinsWorth(c, m.issued[c].amount);
    forall p | p in UnspentCoins(m) ensures p in UnspentCoins(m') || p in coins {
      if p.0 != c { assert p.0 in m'.issued && p.0 !in m'.spent; }
    }
    assert UnspentCoins(m) == UnspentCoins(m') + coins;
    assert UnspentCoins(m') !! coins;
  }

  lemma ConsumeOneTotal(m: Memory, input: Instrument)
    requires input.commitment in m.issued
    ensures Total(m) == Total(ConsumeOne(m, input))
                        + (if Live(m, input.commitment) then m.issued[input.commitment].amount else 0)
  {
    var c := input.commitment;
    if c in m.spent {
      assert UnspentCoins(ConsumeOne(m, input)) == UnspentCoins(m);
    } else {
      CoinsSplit(m, ConsumeOne(m, input), c);
    }
  }

  lemma SignOneTotal(m: Memory, o: Output)
    requires o.commitment !in m.issued
    ensures Total(SignOne(m, o)) == Total(m) + o.amount
  {
    var coins := Coins(o.commitment, o.amount);
    CoinsWorth(o.commitment, o.amount);
    forall p | p in UnspentCoins(SignOne(m, o)) ensures p in UnspentCoins(m) || p in coins {
      if p.0 != o.commitment { assert p.0 in m.issued && p.0 !in m.spent; }
    }
    forall p | p in UnspentCoins(m) ensures p in UnspentCoins(SignOne(m, o)) && p !in coins {
      assert p.0 in SignOne(m, o).issued && p.0 !in SignOne(m, o).spent;
    }
    forall p | p in coins ensures p in UnspentCoins(SignOne(m, o)) {}
    assert UnspentCoins(SignOne(m, o)) == UnspentCoins(m) + coins;
  }

  lemma {:induction false} SignAllTotal(m: Memory, outs: seq<Output>)
    requires New(m, outs)
    ensures Total(SignAll(m, outs)) == Total(m) + ExactValue(outs)
    decreases |outs|
  {
    if outs == [] {
    } else {
      SignOneTotal(m, outs[0]);
      assert New(SignOne(m, outs[0]), outs[1..]) by {
        assert forall i :: 0 <= i < |outs[1..]| ==> outs[1..][i] == outs[i + 1];
      }
      SignAllTotal(SignOne(m, outs[0]), outs[1..]);
    }
  }

  lemma RepeatsAtStep(m: Memory, inputs: seq<Instrument>, i: nat)
    requires i + 1 < |inputs|
    requires inputs[0].commitment in m.issued
    ensures RepeatsAt(m, inputs, i + 1) <==> RepeatsAt(ConsumeOne(m, inputs[0]), inputs[1..], i)
  {
    var c, rest, m' := inputs[i + 1].commitment, inputs[1..], ConsumeOne(m, inputs[0]);
    assert rest[i] == inputs[i + 1];
    assert m'.spent == m.spent + {inputs[0].commitment};
    if j :| 0 <= j < i + 1 && inputs[j].commitment == c {
      if j > 0 { assert rest[j - 1].commitment == c; }
    }
    if j :| 0 <= j < i && rest[j].commitment == c {
      assert inputs[j + 1].commitment == c;
    }
  }

  lemma RepeatsStep(m: Memory, inputs: seq<Instrument>)
    requires inputs != [] && AllIssued(m, inputs)
    ensures Repeats(m, inputs) <==>
            (m.issued[inputs[0].commitment].amount > 0 && inputs[0].commitment in m.spent)
            || Repeats(ConsumeOne(m, inputs[0]), inputs[1..])
  {
    var m' := ConsumeOne(m, inputs[0]);
    if i: nat :| i < |inputs| && RepeatsAt(m, inputs, i) {
      if i > 0 { RepeatsAtStep(m, inputs, i - 1); }
    }
    if i: nat :| i < |inputs[1..]| && RepeatsAt(m', inputs[1..], i) {
      RepeatsAtStep(m, inputs, i);
    }
    if m.issued[inputs[0].commitment].amount > 0 && inputs[0].commitment in m.spent {
      assert RepeatsAt(m, inputs, 0);
    }
  }

  /** The recorded value of the inputs that are spent already when their turn comes. */
  function Doubled(m: Memory, inputs: seq<Instrument>): nat
    decreases |inputs|
  {
    if inputs == [] then 0
    else
      var c := inputs[0].commitment;
      (if c in m.issued && c in m.spent then m.issued[c].amount else 0)
      + Doubled(ConsumeOne(m, inputs[0]), inputs[1..])
  }

  /** Consuming takes away the recorded value of the inputs, except what is named twice. */
  lemma {:induction false} ConsumeAllTotal(m: Memory, inputs: seq<Instrument>)
    requires AllIssued(m, inputs)
    ensures Total(m) + Doubled(m, inputs) == Total(ConsumeAll(m, inputs)) + RecordedValue(m, inputs)
    ensures Doubled(m, inputs) > 0 <==> Repeats(m, inputs)
    decreases |inputs|
  {
    if inputs == [] {
    } else {
      var m' := ConsumeOne(m, inputs[0]);
      ConsumeOneTotal(m, inputs[0]);
      RepeatsStep(m, inputs);
      ConsumeAllTotal(m', inputs[1..]);
      RecordedValueKept(m, m', inputs[1..]);
    }
  }

  lemma {:induction false} RecordedValueKept(m: Memory, m': Memory, inputs: seq<Instrument>)
    requires m'.issued.Keys == m.issued.Keys
    requires forall c :: c in m.issued ==> m'.issued[c].amount == m.issued[c].amount
    ensures RecordedValue(m', inputs) == RecordedValue(m, inputs)
    decreases |inputs|
  {
    if inputs == [] {
    } else {
      RecordedValueKept(m, m', inputs[1..]);
    }
  }

  lemma {:induction false} ConsumeAllEffect(m: Memory, inputs: seq<Instrument>)
    requires AllIssued(m, inputs)
    ensures var m' := ConsumeAll(m, inputs);
            && m' == m.(issued := m'.issued, spent := m'.spent)
            && m'.issued.Keys == m.issued.Keys
            && (forall c :: c in m.issued ==> m'.issued[c].amount == m.issued[c].amount)
            && m'.spent == m.spent + (set i | 0 <= i < |inputs| :: inputs[i].commitment)
    decreases |inputs|
  {
    if inputs == [] {
    } else {
      ConsumeAllEffect(ConsumeOne(m, inputs[0]), inputs[1..]);
      var all := set i | 0 <= i < |inputs| :: inputs[i].commitment;
      var rest := set i | 0 <= i < |inputs[1..]| :: inputs[1..][i].commitment;
      forall c | c in all ensures c in {inputs[0].commitment} + rest {
        var i :| 0 <= i < |inputs| && inputs[i].commitment == c;
        assert i > 0 ==> inputs[1..][i - 1].commitment == c;
      }
      forall c | c in rest ensures c in all {
        var i :| 0 <= i < |inputs[1..]| && inputs[1..][i].commitment == c;
        assert inputs[i + 1].commitment == c;
      }
      assert all == {inputs[0].commitment} + rest;
    }
  }

  lemma {:induction false} SignAllEffect(m: Memory, outs: seq<Output>)
    requires New(m, outs)
    ensures var m' := SignAll(m, outs);
            && m' == m.(issued := m'.issued, spent := m'.spent)
            && m'.issued.Keys == m.issued.Keys + (set i | 0 <= i < |outs| :: outs[i].commitment)
            && (forall c :: c in m.issued ==> m'.issued[c] == m.issued[c])
            && (forall i :: 0 <= i < |outs| ==> m'.issued[outs[i].commitment] == Issuance(Unlearned, outs[i].amount))
            && m'.spent == m.spent - (set i | 0 <= i < |outs| :: outs[i].commitment)
    decreases |outs|
  {
    if outs == [] {
    } else {
      var rest := outs[1..];
      assert forall i :: 0 <= i < |rest| ==> rest[i] == outs[i + 1];
      SignAllEffect(SignOne(m, outs[0]), rest);
      NamedStep(outs);
      forall i | 0 <= i < |outs|
        ensures SignAll(m, outs).issued[outs[i].commitment] == Issuance(Unlearned, outs[i].amount)
      {
        if i > 0 { assert outs[i] == rest[i - 1]; }
      }
    }
  }

  lemma NamedStep(outs: seq<Output>)
    requires outs != []
    ensures (set i | 0 <= i < |outs| :: outs[i].commitment)
         == {outs[0].commitment} + (set i | 0 <= i < |outs[1..]| :: outs[1..][i].commitment)
  {
    var all := set i | 0 <= i < |outs| :: outs[i].commitment;
    var rest := set i | 0 <= i < |outs[1..]| :: outs[1..][i].commitment;
    forall c | c in all ensures c in {outs[0].commitment} + rest {
      var i :| 0 <= i < |outs| && outs[i].commitment == c;
      assert i > 0 ==> outs[1..][i - 1].commitment == c;
    }
    forall c | c in rest ensures c in all {
      var i :| 0 <= i < |outs[1..]| && outs[1..][i].commitment == c;
      assert outs[i + 1].commitment == c;
    }
  }

  lemma {:induction false} AcceptedInputs(m: Memory, inputs: seq<Instrument>)
    ensures RejectedInput(m, inputs).None? <==>
            forall i :: 0 <= i < |inputs| ==> inputs[i].kind == m.kind && Live(m, inputs[i].commitment)
    decreases |inputs|
  {
    if inputs == [] {
    } else {
      var rest := inputs[1..];
      AcceptedInputs(m, rest);
      assert forall i :: 0 <= i < |rest| ==> rest[i] == inputs[i + 1];
      if RejectedInput(m, inputs).None? {
        forall i | 0 <= i < |inputs| ensures inputs[i].kind == m.kind && Live(m, inputs[i].commitment) {
          assert i > 0 ==> inputs[i] == rest[i - 1];
        }
      }
    }
  }

  // ------------------------------------------------------------ main results on one swap

  lemma SwapTotal(m: Memory, inputs: seq<Instrument>, outs: seq<Output>)
    requires SwapRefusal(m, inputs, outs) == None && New(m, outs)
    ensures AllIssued(m, inputs)
    ensures Total(Swapped(m, inputs, outs)) == Total(ConsumeAll(m, inputs)) + ExactValue(outs)
  {
    AcceptedInputs(m, inputs);
    ConsumeAllEffect(m, inputs);
    var consumed := ConsumeAll(m, inputs);
    assert New(consumed, outs);
    SignAllTotal(consumed, outs);
  }

  /** What an accepted swap whose replacements are new does to the unspent value, whatever the
      amounts: it changes by what was signed, less what was consumed, where a note named twice is
      consumed once. Since the two wrapping sums agree, the change is what was named twice, up to
      multiples of 2^64; and when the sums fit a register value is conserved exactly when no
      worthwhile input is named twice. */
  lemma SwapConserves(m: Memory, inputs: seq<Instrument>, outs: seq<Output>)
    requires SwapRefusal(m, inputs, outs) == None && New(m, outs)
    ensures var m' := Swapped(m, inputs, outs);
            && Total(m') + RecordedValue(m, inputs) == Total(m) + Doubled(m, inputs) + ExactValue(outs)
            && Wrap64(Total(m')) == Wrap64(Total(m) + Doubled(m, inputs))
            && (Doubled(m, inputs) > 0 <==> Repeats(m, inputs))
    ensures FitsUint64(RecordedValue(m, inputs)) && FitsUint64(ExactValue(outs)) ==>
              (Total(Swapped(m, inputs, outs)) == Total(m) <==> !Repeats(m, inputs))
  {
    SwapTotal(m, inputs, outs);
    ConsumeAllTotal(m, inputs);
    SumsAgree(m, inputs, outs);
    WrapBalance(Total(Swapped(m, inputs, outs)), Total(m) + Doubled(m, inputs),
                RecordedValue(m, inputs), ExactValue(outs));
  }

  /** What the balance test of a swap establishes. */
  lemma SumsAgree(m: Memory, inputs: seq<Instrument>, outs: seq<Output>)
    requires SwapRefusal(m, inputs, outs) == None
    ensures Wrap64(RecordedValue(m, inputs)) == Wrap64(ExactValue(outs))
    ensures FitsUint64(RecordedValue(m, inputs)) && FitsUint64(ExactValue(outs)) ==>
              RecordedValue(m, inputs) == ExactValue(outs)
  {
    WrapLoses(RecordedValue(m, inputs));
    WrapLoses(ExactValue(outs));
  }

  /** Without any bound on the amounts, distinct inputs conserve value modulo the register
      width, and exactly when the two sides agree as unbounded numbers. */
  lemma SwapConservesModulo(m: Memory, inputs: seq<Instrument>, outs: seq<Output>)
    requires SwapRefusal(m, inputs, outs) == None
    requires New(m, outs) && !Repeats(m, inputs)
    ensures Wrap64(Total(Swapped(m, inputs, outs))) == Wrap64(Total(m))
    ensures Total(Swapped(m, inputs, outs)) == Total(m)
            <==> ExactValue(outs) == RecordedValue(m, inputs)
  {
    SwapConserves(m, inputs, outs);
  }

  /** The log only grows: signed stays signed at the same amount and spent stays spent. */
  predicate Extends(m: Memory, m': Memory) {
    && m'.name == m.name && m'.kind == m.kind
    && (forall c :: c in m.issued ==> c in m'.issued && m'.issued[c].amount == m.issued[c].amount)
    && m.spent <= m'.spent
  }

  lemma SwapExtends(m: Memory, inputs: seq<Instrument>, outs: seq<Output>)
    requires SwapRefusal(m, inputs, outs) == None && New(m, outs)
    requires m.spent <= m.issued.Keys
    ensures var m' := Swapped(m, inputs, outs);
            && Extends(m, m')
            && m'.issued.Keys == m.issued.Keys + (set i | 0 <= i < |outs| :: outs[i].commitment)
            && m'.spent == m.spent + (set i | 0 <= i < |inputs| :: inputs[i].commitment)
            && m'.spent <= m'.issued.Keys
            && m' == m.(issued := m'.issued, spent := m'.spent)
            && (forall i :: 0 <= i < |outs| ==> m'.issued[outs[i].commitment].amount == outs[i].amount)
  {
    AcceptedInputs(m, inputs);
    ConsumeAllEffect(m, inputs);
    SignAllEffect(ConsumeAll(m, inputs), outs);
    var signed := set i | 0 <= i < |outs| :: outs[i].commitment;
    assert signed !! m.issued.Keys;
  }

  /** Naming one note twice in a single swap creates value: 10 becomes 20. */
  lemma RepeatedInputCreatesValue()
    ensures var c := Alien("note");
            var note := Instrument("cashuA", "cashu:m", 10, 10, c, Unlearned);
            var m := Memory("cashu:m", "cashuA", Query, false, true, false,
                            map[c := Issuance(Unlearned, 10)], {});
            var outs := [Output(Alien("new"), 20)];
            && SwapRefusal(m, [note, note], outs) == None
            && New(m, outs)
            && Total(m) == 10 && Total(Swapped(m, [note, note], outs)) == 20
  {
    var c := Alien("note");
    var note := Instrument("cashuA", "cashu:m", 10, 10, c, Unlearned);
    var m := Memory("cashu:m", "cashuA", Query, false, true, false,
                    map[c := Issuance(Unlearned, 10)], {});
    var outs := [Output(Alien("new"), 20)];
    var twice := [note, note];
    assert twice[1..] == [note] && [note][1..] == [] && outs[1..] == [];
    assert RejectedInput(m, [note]) == None;
    assert RejectedInput(m, twice) == None;
    assert RecordedValue(m, twice) == 10 + RecordedValue(m, [note]) == 20;
    assert ExactValue(outs) == 20;
    CoinsWorth(c, 10);
    assert UnspentCoins(m) == Coins(c, 10);
    var m1 := ConsumeOne(m, note);
    assert ConsumeAll(m, twice) == ConsumeAll(m1, [note]) == ConsumeOne(m1, note);
    var m2 := ConsumeOne(m1, note);
    assert UnspentCoins(m2) == {};
    SignAllTotal(m2, outs);
  }
}
