/** The authority as the program runs it: an object whose log and spend set change in place,
    each method tied to the value-level operation it performs. */
module Authorities {
  import opened Basics
  import opened Words
  import L = Ledger
  import T = TokenState

  class Authority {
    const name: string
    const kind: string
    const mode: L.CheckMode
    const learnsAtIssuance: bool
    const optimistic: bool
    var offline: bool
    var issued: map<L.Commitment, L.Issuance>
    var spent: set<L.Commitment>

    constructor (name: string, kind: string, mode: L.CheckMode, learnsAtIssuance: bool, optimistic: bool)
      ensures State() == L.Memory(name, kind, mode, learnsAtIssuance, optimistic, false, map[], {})
    {
      this.name, this.kind, this.mode := name, kind, mode;
      this.learnsAtIssuance, this.optimistic := learnsAtIssuance, optimistic;
      offline, issued, spent := false, map[], {};
    }

    function State(): (m: L.Memory)
      reads this
      ensures m.name == name && m.kind == kind && m.mode == mode
    {
      L.Memory(name, kind, mode, learnsAtIssuance, optimistic, offline, issued, spent)
    }

    method SetOffline(v: bool)
      modifies this
      ensures State() == L.SetOffline(old(State()), v)
    {
      offline := v;
    }

    method Issue(seed: L.Seed, index: nat, amount: uint64)
      modifies this
      ensures State() == L.Issue(old(State()), seed, index, amount)
    {
      var c := L.Derived(seed, index, name);
      var rec := L.Issuance(L.Unlearned, amount);
      if learnsAtIssuance {
        rec := rec.(nullifier := L.Tag(seed, index, name));
      }
      issued := issued[c := rec];
      spent := spent - {c};
    }

    method Reveal(c: L.Commitment, tag: L.Nullifier)
      modifies this
      ensures State() == L.Reveal(old(State()), c, tag)
    {
      if c in issued {
        issued := issued[c := issued[c].(nullifier := tag)];
      }
    }

    /** One lookup: unreachable, unknown, or the record with its spent flag. */
    method Issued(c: L.Commitment) returns (r: L.Outcome<Option<(L.Issuance, bool)>>)
      ensures offline ==> r == Err(L.StateUnavailable)
      ensures !offline ==> r == Ok(if c in issued then Some((issued[c], c in spent)) else None)
    {
      if offline { return Err(L.StateUnavailable); }
      if c !in issued { return Ok(None); }
      return Ok(Some((issued[c], c in spent)));
    }

    /** Consume-and-reissue: a refusal leaves the authority as it was. */
    method Swap(inputs: seq<L.Instrument>, outs: seq<L.Output>) returns (r: L.Outcome<uint64>)
      modifies this
      ensures match L.SwapRefusal(old(State()), inputs, outs)
              case Some(e) => r == Err(e) && State() == old(State())
              case None => r == Ok(Wrap64(L.RecordedValue(old(State()), inputs)))
                           && State() == L.Swapped(old(State()), inputs, outs)
    {
      if offline { return Err(L.StateUnavailable); }
      if inputs == [] { return Err(L.AmountNotPositive); }
      var consumed := InspectInputs(inputs);
      if consumed.Err? { return Err(consumed.error); }
      var signed := InspectOutputs(outs);
      if signed.Err? { return Err(signed.error); }
      if signed.value != consumed.value { return Err(L.AmountMismatch); }
      L.AcceptedInputs(State(), inputs);
      ConsumeInputs(inputs);
      SignOutputs(outs);
      return Ok(consumed.value);
    }

    method InspectInputs(inputs: seq<L.Instrument>) returns (r: L.Outcome<uint64>)
      ensures match L.RejectedInput(State(), inputs)
              case Some(e) => r == Err(e)
              case None => r == Ok(Wrap64(L.RecordedValue(State(), inputs)))
    {
      var consumed: uint64 := 0;
      var i := 0;
      while i < |inputs|
        invariant 0 <= i <= |inputs|
        invariant L.RejectedInput(State(), inputs) == L.RejectedInput(State(), inputs[i..])
        invariant Wrap64(L.RecordedValue(State(), inputs))
               == Wrap64(consumed + L.RecordedValue(State(), inputs[i..]))
      {
        var input := inputs[i];
        assert inputs[i..][0] == input && inputs[i..][1..] == inputs[i + 1..];
        if input.kind != kind { return Err(L.NotIssued); }
        if input.commitment !in issued { return Err(L.NotIssued); }
        if input.commitment in spent { return Err(L.AlreadyConsumed); }
        var amount := issued[input.commitment].amount;
        ghost var rest := L.RecordedValue(State(), inputs[i + 1..]);
        WrapAdd(consumed + amount, rest);
        consumed := Wrap64(consumed + amount);
        i := i + 1;
      }
      assert inputs[i..] == [];
      return Ok(consumed);
    }

    method InspectOutputs(outs: seq<L.Output>) returns (r: L.Outcome<uint64>)
      ensures r == if L.HasZero(outs) then Err(L.AmountNotPositive)
                   else Ok(Wrap64(L.ExactValue(outs)))
    {
      var signed: uint64 := 0;
      var i := 0;
      while i < |outs|
        invariant 0 <= i <= |outs|
        invariant forall j :: 0 <= j < i ==> outs[j].amount > 0
        invariant Wrap64(L.ExactValue(outs)) == Wrap64(signed + L.ExactValue(outs[i..]))
      {
        if outs[i].amount == 0 { return Err(L.AmountNotPositive); }
        assert outs[i..][0] == outs[i] && outs[i..][1..] == outs[i + 1..];
        WrapAdd(signed + outs[i].amount, L.ExactValue(outs[i + 1..]));
        signed := Wrap64(signed + outs[i].amount);
        i := i + 1;
      }
      assert outs[i..] == [];
      return Ok(signed);
    }

    method ConsumeInputs(inputs: seq<L.Instrument>)
      requires L.AllIssued(State(), inputs)
      modifies this
      ensures State() == L.ConsumeAll(old(State()), inputs)
    {
      var i := 0;
      while i < |inputs|
        invariant 0 <= i <= |inputs|
        invariant L.AllIssued(State(), inputs)
        invariant L.ConsumeAll(State(), inputs[i..]) == L.ConsumeAll(old(State()), inputs)
      {
        var c := inputs[i].commitment;
        assert inputs[i..][0] == inputs[i] && inputs[i..][1..] == inputs[i + 1..];
        if inputs[i].nullifier != L.Unlearned {
          issued := issued[c := issued[c].(nullifier := inputs[i].nullifier)];
        }
        spent := spent + {c};
        i := i + 1;
      }
      assert inputs[i..] == [];
    }

    method SignOutputs(outs: seq<L.Output>)
      modifies this
      ensures State() == L.SignAll(old(State()), outs)
    {
      var i := 0;
      while i < |outs|
        invariant 0 <= i <= |outs|
        invariant L.SignAll(State(), outs[i..]) == L.SignAll(old(State()), outs)
      {
        assert outs[i..][0] == outs[i] && outs[i..][1..] == outs[i + 1..];
        issued := issued[outs[i].commitment := L.Issuance(L.Unlearned, outs[i].amount)];
        spent := spent - {outs[i].commitment};
        i := i + 1;
      }
      assert outs[i..] == [];
    }

    /** The state question about a set of tags; the log is walked in whatever order comes. */
    method CheckStates(asked: set<L.Nullifier>) returns (r: L.Outcome<map<L.Nullifier, T.State>>)
      ensures offline ==> r == Err(L.StateUnavailable)
      ensures !offline ==> r.Ok? && r.value.Keys == asked
                           && forall t :: t in asked ==> T.Attests(State(), t, r.value[t])
    {
      if offline { return Err(L.StateUnavailable); }
      var out: map<L.Nullifier, T.State> := map t | t in asked :: T.Unknown;
      var todo := issued.Keys;
      ghost var seen: set<L.Commitment> := {};
      while todo != {}
        invariant seen + todo == issued.Keys
        invariant out.Keys == asked
        invariant forall t :: t in asked ==> T.WalkedFor(State(), seen, t, out[t])
        decreases todo
      {
        var c :| c in todo;
        var tag := issued[c].nullifier;
        forall t | t in asked
          ensures T.WalkedFor(State(), seen + {c}, t,
                    if t != L.Unlearned && tag == t then (if c in spent then T.Spent else T.Unspent) else out[t])
        {
          T.WalkStep(State(), seen, c, t, out[t]);
        }
        if tag != L.Unlearned && tag in asked {
          out := out[tag := if c in spent then T.Spent else T.Unspent];
        }
        todo := todo - {c};
        seen := seen + {c};
      }
      forall t | t in asked
        ensures T.Attests(State(), t, if out[t] == T.Unknown && optimistic then T.Unspent else out[t])
      {
        assert seen == State().issued.Keys;
        T.WalkEnd(State(), t, out[t]);
      }
      if optimistic {
        out := map t | t in asked :: if out[t] == T.Unknown then T.Unspent else out[t];
      }
      return Ok(out);
    }
  }
}
