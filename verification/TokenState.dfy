/** The state question (Cashu NUT-07): what an authority attests about a nullifier, and why the
    port never turns silence into an answer. */
module TokenState {
  import opened Basics
  import opened Words
  import opened Ledger
  import opened BearerPort
  import opened PortInvariant
  import opened PortAnswers
  import opened PortRuns
  import opened PortConservation

  datatype State = Unknown | Unspent | Spent

  /** The tag a commitment's holder derives. */
  function TagOf(c: Commitment): Nullifier {
    if c.Derived? then Tag(c.seed, c.index, c.authority) else Unlearned
  }

  predicate HonestTag(c: Commitment, tag: Nullifier) {
    tag == Unlearned || (c.Derived? && tag == TagOf(c))
  }

  /** Every tag in the log is the one its own commitment derives. */
  predicate HonestLog(m: Memory) {
    forall c :: c in m.issued ==> HonestTag(c, m.issued[c].nullifier)
  }

  predicate RecordedAs(m: Memory, tag: Nullifier, consumed: bool) {
    tag != Unlearned && exists c :: c in m.issued && m.issued[c].nullifier == tag && (c in m.spent <==> consumed)
  }

  /** The answers an authority may give about a tag; the log is walked in no fixed order. */
  predicate Attests(m: Memory, tag: Nullifier, s: State) {
    match s
    case Spent => RecordedAs(m, tag, true)
    case Unspent => RecordedAs(m, tag, false)
                    || (m.optimistic && !RecordedAs(m, tag, true))
    case Unknown => !m.optimistic && !RecordedAs(m, tag, true) && !RecordedAs(m, tag, false)
  }

  /** What is known about tag t when the records in `seen` have been looked at. */
  predicate WalkedFor(m: Memory, seen: set<Commitment>, t: Nullifier, s: State)
    requires seen <= m.issued.Keys
  {
    match s
    case Spent => RecordedAs(m, t, true)
    case Unspent => RecordedAs(m, t, false)
    case Unknown => t == Unlearned || forall c :: c in seen ==> m.issued[c].nullifier != t
  }

  lemma WalkStep(m: Memory, seen: set<Commitment>, c: Commitment, t: Nullifier, s: State)
    requires seen <= m.issued.Keys && c in m.issued && WalkedFor(m, seen, t, s)
    ensures t == Unlearned || m.issued[c].nullifier != t ==> WalkedFor(m, seen + {c}, t, s)
    ensures t != Unlearned && m.issued[c].nullifier == t ==>
              WalkedFor(m, seen + {c}, t, if c in m.spent then Spent else Unspent)
  {
    if t != Unlearned && m.issued[c].nullifier == t {
      assert RecordedAs(m, t, c in m.spent);
    }
  }

  lemma WalkEnd(m: Memory, t: Nullifier, s: State)
    requires WalkedFor(m, m.issued.Keys, t, s)
    ensures Attests(m, t, if s == Unknown && m.optimistic then Unspent else s)
  {
  }

  /** SPENT means consumed; UNSPENT from an authority that does not guess means issued and not
      consumed; and a tag that authority has learned is never answered UNKNOWN. */
  lemma AttestationSound(m: Memory, c: Commitment, s: State)
    requires HonestLog(m) && c.Derived? && Attests(m, TagOf(c), s)
    ensures s == Spent ==> c in m.issued && c in m.spent
    ensures s == Unspent && !m.optimistic ==> Live(m, c)
    ensures c in m.issued && m.issued[c].nullifier == TagOf(c) && !m.optimistic ==>
              s == if c in m.spent then Spent else Unspent
  {
    forall x | x in m.issued && m.issued[x].nullifier == TagOf(c) ensures x == c {
      assert HonestTag(x, m.issued[x].nullifier);
    }
    if c in m.issued && m.issued[c].nullifier == TagOf(c) {
      assert RecordedAs(m, TagOf(c), c in m.spent);
    }
  }

  /** A raw mint answers UNSPENT about an output it never signed. */
  lemma OptimisticUnspentIsNotExistence(m: Memory, c: Commitment)
    requires m.optimistic && c.Derived? && HonestLog(m) && c !in m.issued
    ensures Attests(m, TagOf(c), Unspent) && !Attests(m, TagOf(c), Unknown)
  {
    assert forall x :: x in m.issued ==> HonestTag(x, m.issued[x].nullifier);
  }

  // ------------------------------------------------------------ CheckState

  /** What CheckState may answer in world w, and the world it leaves behind. */
  ghost predicate CheckAnswer(w: World, input: Instrument, w': World, r: Outcome<State>) {
    if input.authority !in w.auths then w' == w && r == Err(NoAuthority)
    else
      var m := w.auths[input.authority];
      match m.mode
      case NoCheck => w' == w && r == Err(StateUnavailable)
      case Probe =>
        var (after, got) := Acquire(w, input);
        w' == after && r == (if got.Ok? then Ok(Unspent)
                             else if got.error == AlreadyConsumed then Ok(Spent)
                             else Err(got.error))
      case Query =>
        w' == w && if input.nullifier == Unlearned || m.offline then r == Err(StateUnavailable)
                   else r.Ok? && Attests(m, input.nullifier, r.value)
  }

  /** In every mode an answer is something the authority can vouch for, at the moment of asking. */
  lemma CheckStateSound(w: World, input: Instrument, w': World, r: Outcome<State>)
    requires Inv(w) && input.authority in w.auths
    requires HonestLog(w.auths[input.authority])
    requires input.commitment.Derived? && input.commitment.authority == input.authority
    requires HonestTag(input.commitment, input.nullifier)
    requires CheckAnswer(w, input, w', r)
    ensures var m, c := w.auths[input.authority], input.commitment;
            && (r == Ok(Spent) ==> c in m.spent)
            && (r == Ok(Unspent) && (m.mode == Probe || !m.optimistic) ==> Live(m, c))
            && (m.mode == NoCheck ==> r.Err?)
            && (m.offline ==> r != Ok(Unspent))
  {
    var m, c := w.auths[input.authority], input.commitment;
    match m.mode
    case NoCheck =>
    case Query =>
      if r.Ok? { AttestationSound(m, c, r.value); }
    case Probe =>
      ProbeSound(w, input);
  }

  /** Probing consumes: success means the note was live, and the one error that means SPENT is
      given only for a note the authority had consumed. */
  lemma ProbeSound(w: World, input: Instrument)
    requires Inv(w) && input.authority in w.auths
    requires input.commitment.Derived? && input.commitment.authority == input.authority
    ensures Acquire(w, input).1.Ok? ==> Live(w.auths[input.authority], input.commitment)
    ensures Acquire(w, input).1 == Err(AlreadyConsumed) ==>
              input.commitment in w.auths[input.authority].spent
    ensures w.auths[input.authority].offline ==> Acquire(w, input).1.Err?
  {
    var m := w.auths[input.authority];
    if Acquire(w, input).1.Ok? {
      AcquireCreditsRecord(w, input);
    }
    var ins := [input];
    assert ins[0] == input && ins[1..] == [];
    assert RejectedInput(m, ins[1..]) == None;
    assert RejectedInput(m, ins) == Some(AlreadyConsumed) ==> input.commitment in m.spent;
  }

  // ------------------------------------------------------------ tags stay honest

  predicate HonestEvent(e: Event) {
    match e
    case AcquireEvent(input) => HonestTag(input.commitment, input.nullifier)
    case RevealEvent(_, c, tag) => HonestTag(c, tag)
    case ForeignSwap(_, inputs, _) =>
      forall i :: 0 <= i < |inputs| ==> HonestTag(inputs[i].commitment, inputs[i].nullifier)
    case _ => true
  }

  lemma {:induction false} ConsumeAllHonest(m: Memory, inputs: seq<Instrument>)
    requires HonestLog(m)
    requires forall i :: 0 <= i < |inputs| ==> HonestTag(inputs[i].commitment, inputs[i].nullifier)
    ensures HonestLog(ConsumeAll(m, inputs))
    decreases |inputs|
  {
    if inputs == [] {
    } else {
      assert HonestTag(inputs[0].commitment, inputs[0].nullifier);
      assert forall i :: 0 <= i < |inputs[1..]| ==> inputs[1..][i] == inputs[i + 1];
      ConsumeAllHonest(ConsumeOne(m, inputs[0]), inputs[1..]);
    }
  }

  lemma {:induction false} SignAllHonest(m: Memory, outs: seq<Output>)
    requires HonestLog(m)
    ensures HonestLog(SignAll(m, outs))
    decreases |outs|
  {
    if outs == [] {
    } else {
      SignAllHonest(SignOne(m, outs[0]), outs[1..]);
    }
  }

  lemma SwappedHonest(m: Memory, inputs: seq<Instrument>, outs: seq<Output>)
    requires HonestLog(m)
    requires forall i :: 0 <= i < |inputs| ==> HonestTag(inputs[i].commitment, inputs[i].nullifier)
    ensures HonestLog(Swapped(m, inputs, outs))
  {
    ConsumeAllHonest(m, inputs);
    SignAllHonest(ConsumeAll(m, inputs), outs);
  }

  /** The wallet reveals, for each output it spends, exactly the tag that output derives. */
  lemma PaymentsHonest(w: World, n: string, inputs: seq<Instrument>)
    requires Inv(w) && n in w.auths
    requires inputs == Payments(w.wallet, w.auths[n], Held(w.wallet, n))
    ensures forall i :: 0 <= i < |inputs| ==>
              inputs[i].nullifier != Unlearned && HonestTag(inputs[i].commitment, inputs[i].nullifier)
  {
    assert InvAt(w, n);
    forall i | 0 <= i < |Held(w.wallet, n)|
      ensures var c := Held(w.wallet, n)[i].commitment;
              c.Derived? && Tag(w.wallet.seed, IndexOf(w.wallet, c), w.auths[n].name) == TagOf(c)
    {
      HeldIsOwn(w, n, i);
    }
  }

  lemma StepHonest(w: World, e: Event, n: string)
    requires Inv(w) && Allowed(w, e) && HonestEvent(e) && n in w.auths && HonestLog(w.auths[n])
    ensures n in Step(w, e).auths && HonestLog(Step(w, e).auths[n])
  {
    if Some(n) != Target(e) {
      OthersUntouched(w, e, n);
    } else {
      InvHere(w, n);
      match e
      case SpendEvent(amount, _) => SpendStepHonest(w, amount, n);
      case AcquireEvent(input) => AcquireStepHonest(w, input);
      case ForeignSwap(_, inputs, outs) => SwappedHonest(w.auths[n], inputs, outs);
      case _ => OtherHonest(w, e, n);
    }
  }

  lemma SpendStepHonest(w: World, amount: uint64, n: string)
    requires Inv(w) && n in w.auths && HonestLog(w.auths[n])
    ensures n in Spend(w, amount, n).0.auths && HonestLog(Spend(w, amount, n).0.auths[n])
  {
    if Spend(w, amount, n).1.Ok? { SpendHonest(w, amount, n); }
  }

  lemma AcquireStepHonest(w: World, input: Instrument)
    requires Inv(w) && input.authority in w.auths && HonestLog(w.auths[input.authority])
    requires HonestTag(input.commitment, input.nullifier)
    ensures input.authority in Acquire(w, input).0.auths && HonestLog(Acquire(w, input).0.auths[input.authority])
  {
    if Acquire(w, input).1.Ok? { AcquireHonest(w, input); }
  }

  lemma OtherHonest(w: World, e: Event, n: string)
    requires HonestEvent(e) && n in w.auths && w.auths[n].name == n && HonestLog(w.auths[n]) && Some(n) == Target(e)
    requires !e.SpendEvent? && !e.AcquireEvent? && !e.ForeignSwap?
    ensures n in Step(w, e).auths && HonestLog(Step(w, e).auths[n])
  {
  }

  lemma SpendHonest(w: World, amount: uint64, n: string)
    requires Inv(w) && Spend(w, amount, n).1.Ok? && HonestLog(w.auths[n])
    ensures HonestLog(Spend(w, amount, n).0.auths[n])
  {
    SpendIsStep(w, amount, n);
    PaymentsSwappedHonest(w, n, Replacements(w.wallet, n, w.auths[n], amount));
  }

  lemma PaymentsSwappedHonest(w: World, n: string, outs: seq<Output>)
    requires Inv(w) && n in w.auths && HonestLog(w.auths[n])
    ensures HonestLog(Swapped(w.auths[n], Payments(w.wallet, w.auths[n], Held(w.wallet, n)), outs))
  {
    var inputs := Payments(w.wallet, w.auths[n], Held(w.wallet, n));
    PaymentsHonest(w, n, inputs);
    SwappedHonest(w.auths[n], inputs, outs);
  }

  lemma AcquireHonest(w: World, input: Instrument)
    requires Inv(w) && Acquire(w, input).1.Ok? && HonestLog(w.auths[input.authority])
    requires HonestTag(input.commitment, input.nullifier)
    ensures HonestLog(Acquire(w, input).0.auths[input.authority])
  {
    AcquireIsStep(w, input);
    assert [input][0] == input;
    SwappedHonest(w.auths[input.authority], [input], [AcquiredOutput(w, input)]);
  }

  /** Over any run in which nobody reveals a tag that is not theirs, every log stays honest. */
  lemma {:induction false} RunHonest(w: World, es: seq<Event>, n: string)
    requires Inv(w) && AllowedRun(w, es) && n in w.auths && HonestLog(w.auths[n])
    requires forall i :: 0 <= i < |es| ==> HonestEvent(es[i])
    ensures n in Run(w, es).auths && HonestLog(Run(w, es).auths[n])
    decreases |es|
  {
    if es == [] {
    } else {
      assert HonestEvent(es[0]);
      assert forall i :: 0 <= i < |es[1..]| ==> es[1..][i] == es[i + 1];
      StepHonest(w, es[0], n);
      StepKeeps(w, es[0]);
      RunHonest(Step(w, es[0]), es[1..], n);
    }
  }

  // ------------------------------------------------------------ when an answer comes

  /** Who is asked answers: never, where no state can be asked for; about any tag that is known,
      while the authority answers; and where asking is spending, UNSPENT exactly for a note that
      could be taken and SPENT exactly for one taken or consumed before. */
  lemma CheckStateAnswers(w: World, input: Instrument, w': World, r: Outcome<State>)
    requires Books(w) && input.authority in w.auths && CheckAnswer(w, input, w', r)
    ensures var m, c := w.auths[input.authority], input.commitment;
            match m.mode
            case NoCheck => r == Err(StateUnavailable) && w' == w
            case Query =>
              && w' == w && (r.Ok? <==> input.nullifier != Unlearned && !m.offline)
              && (r.Err? ==> r.error == StateUnavailable)
            case Probe =>
              && w' == Acquire(w, input).0 && r != Ok(Unknown)
              && (r == Ok(Unspent) <==>
                    c !in w.wallet.seen && input.attested > 0 && !m.offline && Fine(m, input)
                    && input.attested == m.issued[c].amount)
              && (r == Ok(Spent) <==>
                    c in w.wallet.seen
                    || (input.attested > 0 && !m.offline && input.kind == m.kind && c in m.issued && c in m.spent))
  {
    AcquireAnswers(w, input);
  }

  /** An authority that learns at issuance answers UNSPENT about what it just signed, and one that
      does not has nothing to say about it, unless it guesses. */
  lemma IssuedIsKnown(m: Memory, seed: Seed, index: nat, amount: uint64, s: State)
    requires HonestLog(m) && Derived(seed, index, m.name) !in m.issued
    ensures Attests(Issue(m, seed, index, amount), Tag(seed, index, m.name), s)
       <==> s == if m.learnsAtIssuance || m.optimistic then Unspent else Unknown
  {
    var m', c := Issue(m, seed, index, amount), Derived(seed, index, m.name);
    assert TagOf(c) == Tag(seed, index, m.name);
    forall x | x in m'.issued && m'.issued[x].nullifier == TagOf(c) ensures x == c {
      assert x in m.issued ==> HonestTag(x, m.issued[x].nullifier);
    }
    if m.learnsAtIssuance { assert RecordedAs(m', TagOf(c), false); }
  }

  /** Consuming a note with its own tag tells the authority that tag. */
  lemma {:induction false} ConsumeLearns(m: Memory, inputs: seq<Instrument>, c: Commitment)
    requires c.Derived? && c in m.issued
    requires forall i :: 0 <= i < |inputs| && inputs[i].commitment == c ==> inputs[i].nullifier == TagOf(c)
    requires m.issued[c].nullifier == TagOf(c) || exists i :: 0 <= i < |inputs| && inputs[i].commitment == c
    ensures var m' := ConsumeAll(m, inputs); c in m'.issued && m'.issued[c].nullifier == TagOf(c)
    decreases |inputs|
  {
    if inputs == [] {
    } else {
      var rest := inputs[1..];
      assert forall i :: 0 <= i < |rest| ==> rest[i] == inputs[i + 1];
      if inputs[0].commitment != c && m.issued[c].nullifier != TagOf(c) {
        var i :| 0 <= i < |inputs| && inputs[i].commitment == c;
        assert rest[i - 1].commitment == c;
      }
      ConsumeLearns(ConsumeOne(m, inputs[0]), rest, c);
    }
  }

  /** After an accepted swap whose inputs reveal their tags, the answer about each of them is SPENT
      and nothing else. */
  lemma SwappedIsKnown(m: Memory, inputs: seq<Instrument>, outs: seq<Output>, i: nat, s: State)
    requires HonestLog(m) && m.spent <= m.issued.Keys && SwapRefusal(m, inputs, outs) == None && New(m, outs)
    requires forall j :: 0 <= j < |inputs| ==>
               inputs[j].commitment.Derived? && inputs[j].nullifier == TagOf(inputs[j].commitment)
    requires i < |inputs|
    ensures Attests(Swapped(m, inputs, outs), inputs[i].nullifier, s) <==> s == Spent
  {
    var m', c := Swapped(m, inputs, outs), inputs[i].commitment;
    AcceptedInputs(m, inputs);
    ConsumeLearns(m, inputs, c);
    ConsumeAllEffect(m, inputs);
    SignAllEffect(ConsumeAll(m, inputs), outs);
    SwappedHonest(m, inputs, outs);
    assert c in m'.issued && m'.issued[c].nullifier == TagOf(c);
    SwapExtends(m, inputs, outs);
    assert c in m'.spent;
    TaggedSpent(m', c, s);
  }

  lemma TaggedSpent(m: Memory, c: Commitment, s: State)
    requires HonestLog(m) && c.Derived? && c in m.issued && c in m.spent && m.issued[c].nullifier == TagOf(c)
    ensures Attests(m, TagOf(c), s) <==> s == Spent
  {
    assert RecordedAs(m, TagOf(c), true);
    forall x | x in m.issued && m.issued[x].nullifier == TagOf(c) ensures x == c {
      assert HonestTag(x, m.issued[x].nullifier);
    }
  }

  /** A tag revealed for an issued output is answered for from then on, as spent or unspent; nothing
      is learned about an output that was not issued. */
  lemma RevealedIsKnown(m: Memory, c: Commitment, s: State)
    requires HonestLog(m) && c.Derived?
    ensures c !in m.issued ==> Reveal(m, c, TagOf(c)) == m
    ensures c in m.issued ==>
              (Attests(Reveal(m, c, TagOf(c)), TagOf(c), s) <==> s == if c in m.spent then Spent else Unspent)
  {
    if c in m.issued {
      var m' := Reveal(m, c, TagOf(c));
      forall x | x in m'.issued && m'.issued[x].nullifier == TagOf(c) ensures x == c {
        assert HonestTag(x, m.issued[x].nullifier);
      }
      assert RecordedAs(m', TagOf(c), c in m.spent);
    }
  }
}
