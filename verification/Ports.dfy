/** The port as the program runs it: one wallet object routing to registered authority objects. */
module Ports {
  import opened Basics
  import opened Words
  import L = Ledger
  import B = BearerPort
  import R = Recovery
  import T = TokenState
  import opened Authorities

  /** The logs of a list of authorities. */
  function States(list: seq<Authority>): (ms: seq<L.Memory>)
    reads list
    ensures |ms| == |list| && forall i :: 0 <= i < |list| ==> ms[i] == list[i].State()
  {
    if list == [] then [] else [list[0].State()] + States(list[1..])
  }

  /** An authority that can answer and has the blob's commitment in its log. */
  predicate Vouches(m: L.Memory, blob: B.Blob) {
    !m.offline && blob.commitment in m.issued
  }

  /** Which authority, in registration order, vouches for a blob, and the instrument it becomes.
      An authority that cannot answer is passed over. */
  function Decoded(p: B.Wallet, candidates: seq<L.Memory>, blob: B.Blob): L.Outcome<L.Instrument> {
    if candidates == [] then Err(L.NotIssued)
    else if Vouches(candidates[0], blob) then Ok(Vouched(p, candidates[0], blob))
    else Decoded(p, candidates[1..], blob)
  }

  function Vouched(p: B.Wallet, m: L.Memory, blob: B.Blob): L.Instrument
    requires blob.commitment in m.issued
  {
    var rec := m.issued[blob.commitment];
    var tag := if rec.nullifier == L.Unlearned && m.mode != L.NoCheck && blob.commitment in p.own
               then L.Tag(p.seed, p.own[blob.commitment], m.name)
               else rec.nullifier;
    L.Instrument(blob.kind, m.name, blob.amount, rec.amount, blob.commitment, tag)
  }

  /** The tag the log has learned for c, or else, for an output of the wallet's own and an authority
      that can be asked, the one its index derives. */
  predicate TagOf(p: B.Wallet, m: L.Memory, c: L.Commitment, tag: L.Nullifier)
    requires c in m.issued
  {
    if m.issued[c].nullifier != L.Unlearned then tag == m.issued[c].nullifier
    else if c in p.own then tag == if m.mode == L.NoCheck then L.Unlearned else L.Tag(p.seed, p.own[c], m.name)
    else tag == L.Unlearned
  }

  lemma DecodedAt(p: B.Wallet, ms: seq<L.Memory>, i: nat, blob: B.Blob)
    requires i < |ms|
    ensures Decoded(p, ms[i..], blob)
         == if Vouches(ms[i], blob) then Ok(Vouched(p, ms[i], blob)) else Decoded(p, ms[i + 1..], blob)
  {
    assert ms[i..][0] == ms[i] && ms[i..][1..] == ms[i + 1..];
  }

  /** Existence comes from the log alone: a decoded instrument was issued, at the attested
      amount, by an authority that was asked, whatever its blob claims. */
  lemma {:induction false} DecodedWasIssued(p: B.Wallet, candidates: seq<L.Memory>, blob: B.Blob)
    ensures match Decoded(p, candidates, blob)
            case Ok(input) =>
              && input.kind == blob.kind && input.commitment == blob.commitment && input.face == blob.amount
              && exists m :: m in candidates && m.name == input.authority && !m.offline
                   && blob.commitment in m.issued && input.attested == m.issued[blob.commitment].amount
                   && TagOf(p, m, blob.commitment, input.nullifier)
            case Err(e) =>
              e == L.NotIssued
              && forall m :: m in candidates && !m.offline ==> blob.commitment !in m.issued
    decreases |candidates|
  {
    if candidates == [] {
    } else {
      DecodedWasIssued(p, candidates[1..], blob);
      assert forall m :: m in candidates <==> m == candidates[0] || m in candidates[1..];
    }
  }

  /** The first authority in registration order that answers and has issued the output is the one it
      is attributed to. */
  lemma {:induction false} FirstVouches(p: B.Wallet, candidates: seq<L.Memory>, blob: B.Blob, i: nat)
    requires i < |candidates| && Vouches(candidates[i], blob)
    requires forall j :: 0 <= j < i ==> !Vouches(candidates[j], blob)
    ensures var r := Decoded(p, candidates, blob);
            && r.Ok? && r.value.authority == candidates[i].name
            && r.value.attested == candidates[i].issued[blob.commitment].amount
            && TagOf(p, candidates[i], blob.commitment, r.value.nullifier)
    decreases |candidates|
  {
    if i == 0 {
    } else {
      assert !Vouches(candidates[0], blob) && candidates[1..][i - 1] == candidates[i];
      assert forall j :: 0 <= j < i - 1 ==> candidates[1..][j] == candidates[j + 1];
      FirstVouches(p, candidates[1..], blob, i - 1);
    }
  }

  /** What sweeping every authority comes to: nothing if one cannot answer, or what was found and
      where each sweep stopped. */
  predicate IsSweep(auths: map<string, L.Memory>, seed: L.Seed,
                    r: L.Outcome<(map<string, seq<L.Output>>, map<string, nat>)>) {
    if B.AnyOffline(auths) then r == Err(L.StateUnavailable)
    else r == Ok((B.Found(auths, seed), B.Horizons(auths, seed)))
  }

  class Port {
    const seed: L.Seed
    var auth: map<string, Authority>
    var byKind: map<string, seq<Authority>>
    var holdings: map<string, seq<L.Output>>
    var own: map<L.Commitment, nat>
    var counters: map<string, uint64>
    var seen: set<L.Commitment>

    ghost predicate Valid()
      reads this
    {
      forall n :: n in auth ==> auth[n].name == n
    }

    ghost function World(): B.World
      reads this, auth.Values
    {
      B.World(Wallet(), map n | n in auth :: auth[n].State())
    }

    function Wallet(): B.Wallet
      reads this
    {
      B.Wallet(seed, holdings, own, counters, seen)
    }

    constructor ()
      ensures Valid() && auth == map[]
      ensures Wallet() == B.Wallet("bearer-port-demo-seed", map[], map[], map[], {})
    {
      seed := "bearer-port-demo-seed";
      auth, byKind := map[], map[];
      holdings, own, counters, seen := map[], map[], map[], {};
    }

    /** Routes a's name to it, whoever had the name before; the list of its kind keeps both. */
    method Register(a: Authority)
      requires Valid()
      modifies this
      ensures Valid() && auth == old(auth)[a.name := a] && Wallet() == old(Wallet())
      ensures byKind == old(byKind)[a.kind := (if a.kind in old(byKind) then old(byKind)[a.kind] else []) + [a]]
    {
      auth := auth[a.name := a];
      var list := if a.kind in byKind then byKind[a.kind] else [];
      byKind := byKind[a.kind := list + [a]];
    }

    function Candidates(kind: string): seq<Authority>
      reads this
    {
      if kind in byKind then byKind[kind] else []
    }

    method Decode(blob: B.Blob) returns (r: L.Outcome<L.Instrument>)
      ensures r == if Candidates(blob.kind) == [] then Err(L.UnknownKind)
                   else Decoded(Wallet(), States(Candidates(blob.kind)), blob)
    {
      var candidates := if blob.kind in byKind then byKind[blob.kind] else [];
      if candidates == [] { return Err(L.UnknownKind); }
      ghost var p, ms := Wallet(), States(candidates);
      var i := 0;
      while i < |candidates|
        invariant 0 <= i <= |candidates|
        invariant Decoded(p, ms, blob) == Decoded(p, ms[i..], blob)
      {
        DecodedAt(p, ms, i, blob);
        var vouched := Ask(candidates[i], blob);
        if vouched.Some? { return Ok(vouched.value); }
        i := i + 1;
      }
      return Err(L.NotIssued);
    }

    method Ask(a: Authority, blob: B.Blob) returns (r: Option<L.Instrument>)
      ensures r == if Vouches(a.State(), blob) then Some(Vouched(Wallet(), a.State(), blob)) else None
    {
      var found := a.Issued(blob.commitment);
      if found.Err? || found.value.None? { return None; }
      var rec := found.value.value.0;
      var tag := Nullifier(a, blob.commitment, rec.nullifier);
      return Some(L.Instrument(blob.kind, a.name, blob.amount, rec.amount, blob.commitment, tag));
    }

    /** The tag the log has, or the one the wallet can supply for an output of its own. */
    method Nullifier(a: Authority, c: L.Commitment, recorded: L.Nullifier) returns (tag: L.Nullifier)
      ensures tag == if recorded == L.Unlearned && a.mode != L.NoCheck && c in own
                     then L.Tag(seed, own[c], a.name) else recorded
    {
      tag := recorded;
      if tag == L.Unlearned && a.mode != L.NoCheck {
        if c in own {
          tag := L.Tag(seed, own[c], a.name);
        }
      }
    }

    method IssueInto(target: string, amount: uint64) returns (r: L.Outcome<B.Blob>)
      requires Valid()
      modifies this, auth.Values
      ensures Valid() && auth == old(auth) && byKind == old(byKind)
      ensures (World(), r) == B.IssueInto(old(World()), target, amount)
    {
      if amount == 0 { return Err(L.AmountNotPositive); }
      if target !in auth { return Err(L.NoAuthority); }
      var index := Reserve(target);
      IssueAt(target, index, amount);
      var out := L.Output(L.Derived(seed, index, auth[target].name), amount);
      Record(target, out, index);
      return Ok(B.Blob(auth[target].kind, out.commitment, amount));
    }

    /** An output signed by one registered authority, seen from the port. */
    method IssueAt(target: string, index: nat, amount: uint64)
      requires Valid() && target in auth
      modifies auth.Values
      ensures var w := old(World());
              World() == w.(auths := w.auths[target := L.Issue(w.auths[target], seed, index, amount)])
    {
      auth[target].Issue(seed, index, amount);
      assert World().auths == old(World()).auths[target := auth[target].State()];
    }

    /** Takes the next derivation index; the counter moves before anything is exposed. */
    method Reserve(target: string) returns (index: uint64)
      modifies this`counters
      ensures index == B.Counter(old(Wallet()), target)
      ensures World() == old(World()).(wallet := B.Reserve(old(Wallet()), target))
    {
      index := if target in counters then counters[target] else 0;
      counters := counters[target := Wrap64(index + 1)];
    }

    method Record(target: string, out: L.Output, index: nat)
      modifies this`holdings, this`own
      ensures World() == old(World()).(wallet := B.Credit(old(Wallet()), target, out, index))
    {
      var held := if target in holdings then holdings[target] else [];
      holdings := holdings[target := held + [out]];
      own := own[out.commitment := index];
    }

    method MarkSeen(c: L.Commitment)
      modifies this`seen
      ensures World() == old(World()).(wallet := old(Wallet()).(seen := old(seen) + {c}))
    {
      seen := seen + {c};
    }

    /** A swap at one registered authority, seen from the port. */
    method SwapAt(target: string, inputs: seq<L.Instrument>, outs: seq<L.Output>)
      returns (r: L.Outcome<uint64>)
      requires Valid() && target in auth
      modifies auth.Values
      ensures var w := old(World());
              match L.SwapRefusal(w.auths[target], inputs, outs)
              case Some(e) => r == Err(e) && World() == w
              case None => r == Ok(Wrap64(L.RecordedValue(w.auths[target], inputs)))
                           && World() == w.(auths := w.auths[target := L.Swapped(w.auths[target], inputs, outs)])
    {
      r := auth[target].Swap(inputs, outs);
      assert World().auths == old(World()).auths[target := auth[target].State()];
    }

    method Acquire(input: L.Instrument) returns (r: L.Outcome<uint64>)
      requires Valid()
      modifies this, auth.Values
      ensures Valid() && auth == old(auth) && byKind == old(byKind)
      ensures (World(), r) == B.Acquire(old(World()), input)
    {
      if input.authority !in auth { return Err(L.NoAuthority); }
      if input.commitment in seen { return Err(L.AlreadyConsumed); }
      if input.attested == 0 { return Err(L.NotIssued); }
      r := TakeIn(input);
    }

    method TakeIn(input: L.Instrument) returns (r: L.Outcome<uint64>)
      requires Valid() && input.authority in auth
      modifies this`counters, this`holdings, this`own, this`seen, auth.Values
      ensures (World(), r) == B.TakeIn(old(World()), input)
    {
      var target := input.authority;
      var index := Reserve(target);
      var out := L.Output(L.Derived(seed, index, auth[target].name), input.attested);
      r := SwapAt(target, [input], [out]);
      if r.Ok? {
        Record(target, out, index);
        MarkSeen(input.commitment);
      }
    }

    method AcquireRaw(blob: B.Blob) returns (r: L.Outcome<uint64>)
      requires Valid()
      modifies this, auth.Values
      ensures Valid() && auth == old(auth) && byKind == old(byKind)
      ensures if old(Candidates(blob.kind)) == [] then World() == old(World()) && r == Err(L.UnknownKind)
              else match old(Decoded(Wallet(), States(Candidates(blob.kind)), blob))
                   case Err(e) => World() == old(World()) && r == Err(e)
                   case Ok(input) => (World(), r) == B.Acquire(old(World()), input)
    {
      var decoded := Decode(blob);
      if decoded.Err? { return Err(decoded.error); }
      r := Acquire(decoded.value);
    }

    method SumOutputs(outs: seq<L.Output>) returns (total: uint64)
      ensures total == Wrap64(L.ExactValue(outs))
    {
      total := 0;
      var i := 0;
      while i < |outs|
        invariant 0 <= i <= |outs|
        invariant Wrap64(L.ExactValue(outs)) == Wrap64(total + L.ExactValue(outs[i..]))
      {
        assert outs[i..][0] == outs[i] && outs[i..][1..] == outs[i + 1..];
        WrapAdd(total + outs[i].amount, L.ExactValue(outs[i + 1..]));
        total := Wrap64(total + outs[i].amount);
        i := i + 1;
      }
      assert outs[i..] == [];
    }

    method BuildPayments(a: Authority, held: seq<L.Output>) returns (inputs: seq<L.Instrument>)
      ensures inputs == B.Payments(Wallet(), a.State(), held)
    {
      inputs := [];
      ghost var p, m := Wallet(), a.State();
      var i := 0;
      while i < |held|
        invariant 0 <= i <= |held|
        invariant |inputs| == i && forall k :: 0 <= k < i ==> inputs[k] == B.Payment(p, m, held[k])
      {
        var h := held[i];
        var index := if h.commitment in own then own[h.commitment] else 0;
        inputs := inputs + [L.Instrument(a.kind, a.name, h.amount, h.amount, h.commitment, L.Tag(seed, index, a.name))];
        i := i + 1;
      }
    }

    method ForgetOwn(held: seq<L.Output>)
      modifies this`own
      ensures World() == old(World()).(wallet := old(Wallet()).(own := B.Forget(old(own), held)))
    {
      var i := 0;
      while i < |held|
        invariant 0 <= i <= |held|
        invariant own == old(own) - (set j | 0 <= j < i :: held[j].commitment)
      {
        own := own - {held[i].commitment};
        i := i + 1;
      }
    }

    method Spend(amount: uint64, target: string) returns (r: L.Outcome<B.Blob>)
      requires Valid()
      modifies this, auth.Values
      ensures Valid() && auth == old(auth) && byKind == old(byKind)
      ensures (World(), r) == B.Spend(old(World()), amount, target)
    {
      if amount == 0 { return Err(L.AmountNotPositive); }
      if target !in auth { return Err(L.NoAuthority); }
      var total := BalanceByAuthority(target);
      if total < amount { return Err(L.InsufficientFunds); }
      r := PayOut(amount, total, target);
    }

    method PayOut(amount: uint64, total: uint64, target: string) returns (r: L.Outcome<B.Blob>)
      requires Valid() && target in auth
      requires total == B.BalanceAt(Wallet(), target) && amount <= total
      modifies this`counters, this`holdings, this`own, auth.Values
      ensures (World(), r) == B.PayOut(old(World()), amount, target)
    {
      var a := auth[target];
      var held := if target in holdings then holdings[target] else [];
      var inputs := BuildPayments(a, held);
      var index := Reserve(target);
      var outs := [L.Output(L.Derived(B.RecipientSeed(target), index, a.name), amount)];
      if total > amount {
        outs := outs + [L.Output(L.Derived(seed, index, a.name), total - amount)];
      }
      assert outs == B.Replacements(old(Wallet()), target, old(a.State()), amount);
      var swapped := SwapAt(target, inputs, outs);
      if swapped.Err? { return Err(swapped.error); }
      Settle(target, held, outs, index);
      return Ok(B.Blob(a.kind, outs[0].commitment, amount));
    }

    method Settle(target: string, held: seq<L.Output>, outs: seq<L.Output>, index: nat)
      requires held == B.Held(Wallet(), target)
      modifies this`holdings, this`own
      ensures World() == old(World()).(wallet := B.Settle(old(Wallet()), target, outs, index))
    {
      ForgetOwn(held);
      ghost var w := World();
      holdings := holdings[target := []];
      assert World().auths == w.auths;
      if |outs| == 2 {
        Record(target, outs[1], index);
      }
    }

    /** The state question, in whichever mode the authority declared. */
    method CheckState(input: L.Instrument) returns (r: L.Outcome<T.State>)
      requires Valid()
      modifies this, auth.Values
      ensures Valid() && auth == old(auth) && byKind == old(byKind)
      ensures T.CheckAnswer(old(World()), input, World(), r)
    {
      if input.authority !in auth { return Err(L.NoAuthority); }
      var a := auth[input.authority];
      match a.mode {
        case NoCheck => return Err(L.StateUnavailable);
        case Probe =>
          var got := Acquire(input);
          if got.Err? {
            if got.error == L.AlreadyConsumed { return Ok(T.Spent); }
            return Err(got.error);
          }
          return Ok(T.Unspent);
        case Query =>
          if input.nullifier == L.Unlearned { return Err(L.StateUnavailable); }
          var states := a.CheckStates({input.nullifier});
          if states.Err? { return Err(states.error); }
          return Ok(states.value[input.nullifier]);
      }
    }

    method PersistCounterBeforeExposure(target: string, next: uint64)
      requires Valid()
      modifies this`counters
      ensures Valid() && World() == B.PersistCounter(old(World()), target, next)
    {
      if next > (if target in counters then counters[target] else 0) {
        counters := counters[target := next];
      }
    }

    method DestroyStore()
      requires Valid()
      modifies this
      ensures Valid() && auth == old(auth) && byKind == old(byKind)
      ensures World() == B.DestroyStore(old(World()))
    {
      holdings, own, counters, seen := map[], map[], map[], {};
    }

    /** The sweep of one authority, from index 0 until eight misses in a row. */
    method SweepAuthority(a: Authority, seed: L.Seed) returns (r: L.Outcome<(seq<L.Output>, nat)>)
      ensures a.offline ==> r == Err(L.StateUnavailable)
      ensures !a.offline ==>
                && r.Ok?
                && r.value.0 == B.LiveOutputs(a.State(), seed, B.Horizon(a.State(), seed))
                && r.value.1 == B.Horizon(a.State(), seed)
                && r.value.1 <= 8 * |B.Above(a.State(), seed, 0)|
    {
      var i, misses, highest := 0, 0, 0;
      var outs: seq<L.Output> := [];
      ghost var m := a.State();
      R.HorizonIsFirstGap(m, seed);
      while true
        invariant misses < B.RECOVERY_BATCH && misses <= i && highest == i - misses
        invariant forall j :: highest <= j < i ==> !B.IsIssued(m, seed, j)
        invariant B.SweepEnd(m, seed, i, misses) == B.Horizon(m, seed)
        invariant outs == B.LiveOutputs(m, seed, i)
        decreases |B.Above(m, seed, i)|, B.RECOVERY_BATCH - misses
      {
        var c := L.Derived(seed, i, a.name);
        B.AboveStep(m, seed, i);
        var found := a.Issued(c);
        if found.Err? { return Err(found.error); }
        if found.value.None? {
          misses := misses + 1;
          if misses == B.RECOVERY_BATCH { break; }
        } else {
          misses, highest := 0, i + 1;
          var rec := found.value.value;
          if !rec.1 {
            outs := outs + [L.Output(c, rec.0.amount)];
          }
        }
        i := i + 1;
      }
      forall j | highest <= j < i ensures !B.IsLive(m, seed, j) {
        assert !B.IsIssued(m, seed, j);
      }
      R.NothingLiveAbove(m, seed, highest, i);
      return Ok((outs, highest));
    }

    /** Rebuilds the wallet from a seed; if any authority is unreachable nothing changes. */
    method Recover(seed: L.Seed) returns (r: L.Outcome<map<string, uint64>>)
      requires Valid()
      modifies this
      ensures Valid() && auth == old(auth) && byKind == old(byKind)
      ensures (World(), r) == B.Recover(old(World()), seed)
    {
      var swept := SweepAll(seed);
      if swept.Err? { return Err(swept.error); }
      var (found, tops) := swept.value;
      var recovered := SumFound(found);
      Adopt(found, tops);
      return Ok(recovered);
    }

    method SumFound(found: map<string, seq<L.Output>>) returns (recovered: map<string, uint64>)
      ensures recovered == B.Balances(found)
    {
      recovered := map[];
      var todo := found.Keys;
      while todo != {}
        invariant todo <= found.Keys
        invariant recovered == map n | n in found && n !in todo :: Wrap64(L.ExactValue(found[n]))
        decreases todo
      {
        var name :| name in todo;
        var total := SumOutputs(found[name]);
        recovered := recovered[name := total];
        todo := todo - {name};
      }
    }

    /** The index of every output found, read off its derivation. */
    method IndexFound(found: map<string, seq<L.Output>>) returns (indices: map<L.Commitment, nat>)
      ensures indices == B.Indices(found)
    {
      indices := map[];
      var todo := found.Keys;
      while todo != {}
        invariant todo <= found.Keys
        invariant indices == B.Indices(map n | n in found && n !in todo :: found[n])
        decreases todo
      {
        var name :| name in todo;
        indices := IndexHeld(indices, found[name]);
        OneMoreFound(found, todo, name);
        todo := todo - {name};
      }
      assert found == map n | n in found && n !in todo :: found[n];
    }

    method IndexHeld(before: map<L.Commitment, nat>, held: seq<L.Output>) returns (indices: map<L.Commitment, nat>)
      ensures indices == before + IndicesOf(held)
    {
      indices := before;
      var i := 0;
      while i < |held|
        invariant 0 <= i <= |held|
        invariant indices == before + IndicesOf(held[..i])
      {
        var c := held[i].commitment;
        indices := indices[c := if c.Derived? then c.index else 0];
        OneMoreHeld(before, held, i);
        i := i + 1;
      }
      assert held[..i] == held;
    }

    method SweepAll(seed: L.Seed) returns (r: L.Outcome<(map<string, seq<L.Output>>, map<string, nat>)>)
      requires Valid()
      ensures IsSweep(World().auths, seed, r)
    {
      var found: map<string, seq<L.Output>>, tops: map<string, nat> := map[], map[];
      var todo := auth.Keys;
      ghost var all: map<string, L.Memory> := World().auths;
      B.SweptStart(all, seed);
      while todo != {}
        invariant todo <= auth.Keys
        invariant B.Swept(all, todo, seed, found, tops)
        decreases todo
      {
        var name :| name in todo;
        var swept := SweepAuthority(auth[name], seed);
        assert all[name] == auth[name].State();
        if swept.Err? {
          assert B.AnyOffline(all);
          return Err(swept.error);
        }
        B.SweptStep(all, todo, name, seed, found, tops);
        if swept.value.0 != [] {
          found := found[name := swept.value.0];
        }
        tops := tops[name := swept.value.1];
        todo := todo - {name};
      }
      B.SweptEnd(all, seed, found, tops);
      return Ok((found, tops));
    }

    /** Replaces the books by what a sweep found; a counter only ever moves forward. */
    method Adopt(found: map<string, seq<L.Output>>, tops: map<string, nat>)
      modifies this`holdings, this`own, this`counters, this`seen
      ensures World() == old(World()).(wallet := old(Wallet()).(
                           holdings := found, own := B.Indices(found), seen := {},
                           counters := B.Advanced(old(Wallet()), tops)))
    {
      ghost var w := World();
      var indices := IndexFound(found);
      AdvanceCounters(tops);
      holdings, own, seen := found, indices, {};
      assert World().auths == w.auths;
    }

    method AdvanceCounters(tops: map<string, nat>)
      modifies this`counters
      ensures counters == B.Advanced(old(Wallet()), tops)
    {
      ghost var p, done: map<string, uint64> := Wallet(), map[];
      var todo := tops.Keys;
      while todo != {}
        invariant todo <= tops.Keys && done == map n | n in tops && n !in todo :: Wrap64(tops[n])
        invariant counters == B.Furthered(p, done)
        decreases todo
      {
        var name :| name in todo;
        var next := Wrap64(tops[name]);
        B.FurtheredOne(p, done, name, next);
        B.FurtheredAt(p, done, name);
        if next > (if name in counters then counters[name] else 0) {
          counters := counters[name := next];
        }
        done, todo := done[name := next], todo - {name};
      }
      assert done == B.Wrapped(tops);
    }

    method BalanceByAuthority(target: string) returns (total: uint64)
      ensures total == B.BalanceAt(Wallet(), target)
    {
      var held := if target in holdings then holdings[target] else [];
      total := SumOutputs(held);
    }
  }

  function IndicesOf(held: seq<L.Output>): map<L.Commitment, nat> {
    map c | c in (set i | 0 <= i < |held| :: held[i].commitment) :: if c.Derived? then c.index else 0
  }

  lemma OneMoreHeld(own: map<L.Commitment, nat>, held: seq<L.Output>, i: nat)
    requires i < |held|
    ensures var c := held[i].commitment;
            own + IndicesOf(held[..i + 1])
            == (own + IndicesOf(held[..i]))[c := if c.Derived? then c.index else 0]
  {
    OneMoreIndex(held, i);
  }

  lemma OneMoreIndex(held: seq<L.Output>, i: nat)
    requires i < |held|
    ensures var c := held[i].commitment;
            IndicesOf(held[..i + 1]) == IndicesOf(held[..i])[c := if c.Derived? then c.index else 0]
  {
    var before, after := held[..i], held[..i + 1];
    assert after == before + [held[i]];
    assert after[i].commitment in IndicesOf(after);
    forall c | c in IndicesOf(before) ensures c in IndicesOf(after) {
      var k :| 0 <= k < |before| && before[k].commitment == c;
      assert after[k].commitment == c;
    }
  }

  lemma OneMoreFound(found: map<string, seq<L.Output>>, todo: set<string>, name: string)
    requires todo <= found.Keys && name in todo
    ensures B.Indices(map n | n in found && n !in todo - {name} :: found[n])
         == B.Indices(map n | n in found && n !in todo :: found[n]) + IndicesOf(found[name])
  {
    var before: map<string, seq<L.Output>> := map n | n in found && n !in todo :: found[n];
    var after: map<string, seq<L.Output>> := map n | n in found && n !in todo - {name} :: found[n];
    assert after == before[name := found[name]];
    forall c | c in B.HeldCommitments(before) ensures c in B.HeldCommitments(after) {
      var n: string, i: int :| n in before && 0 <= i < |before[n]| && before[n][i].commitment == c;
      assert after[n][i].commitment == c;
    }
    forall c | c in IndicesOf(found[name]) ensures c in B.HeldCommitments(after) {
      var i :| 0 <= i < |found[name]| && found[name][i].commitment == c;
      assert after[name][i].commitment == c;
    }
    assert B.HeldCommitments(after) == B.HeldCommitments(before) + IndicesOf(found[name]).Keys;
  }
}
