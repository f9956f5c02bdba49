/** The bearer port as a value: what one wallet holds at several authorities, and what each
    of its operations does to the wallet and to the authority it talks to. */
module BearerPort {
  import opened Basics
  import opened Words
  import opened Ledger

  const RECOVERY_BATCH: nat := 8

  const RECIPIENT_SPACE: string := "recipient-derivation-space:"

  datatype Wallet = Wallet(
    seed: Seed,
    holdings: map<string, seq<Output>>,
    own: map<Commitment, nat>,
    counters: map<string, uint64>,
    seen: set<Commitment>)

  datatype World = World(wallet: Wallet, auths: map<string, Memory>)

  datatype Blob = Blob(kind: string, commitment: Commitment, amount: uint64)

  // ------------------------------------------------------------ reading the wallet

  function Counter(p: Wallet, target: string): uint64 {
    if target in p.counters then p.counters[target] else 0
  }

  function Held(p: Wallet, target: string): seq<Output> {
    if target in p.holdings then p.holdings[target] else []
  }

  function IndexOf(p: Wallet, c: Commitment): nat {
    if c in p.own then p.own[c] else 0
  }

  function BalanceAt(p: Wallet, target: string): uint64 {
    Wrap64(ExactValue(Held(p, target)))
  }

  function RecipientSeed(target: string): Seed {
    RECIPIENT_SPACE + target
  }

  /** The counter moves before the authority is asked for anything. */
  function Reserve(p: Wallet, target: string): Wallet {
    p.(counters := p.counters[target := Wrap64(Counter(p, target) + 1)])
  }

  function Credit(p: Wallet, target: string, o: Output, index: nat): Wallet {
    p.(holdings := p.holdings[target := Held(p, target) + [o]],
       own := p.own[o.commitment := index])
  }

  // ------------------------------------------------------------ operations

  function IssueInto(w: World, target: string, amount: uint64): (World, Outcome<Blob>) {
    if amount == 0 then (w, Err(AmountNotPositive))
    else if target !in w.auths then (w, Err(NoAuthority))
    else
      var index := Counter(w.wallet, target);
      var m := w.auths[target];
      var out := Output(Derived(w.wallet.seed, index, m.name), amount);
      (World(Credit(Reserve(w.wallet, target), target, out, index),
             w.auths[target := Issue(m, w.wallet.seed, index, amount)]),
       Ok(Blob(m.kind, out.commitment, amount)))
  }

  function Acquire(w: World, input: Instrument): (World, Outcome<uint64>) {
    if input.authority !in w.auths then (w, Err(NoAuthority))
    else if input.commitment in w.wallet.seen then (w, Err(AlreadyConsumed))
    else if input.attested == 0 then (w, Err(NotIssued))
    else TakeIn(w, input)
  }

  /** Reserve an index, swap the note for an output at that index, and record it. */
  function TakeIn(w: World, input: Instrument): (World, Outcome<uint64>)
    requires input.authority in w.auths
  {
    var target := input.authority;
    var index := Counter(w.wallet, target);
    var m := w.auths[target];
    var out := Output(Derived(w.wallet.seed, index, m.name), input.attested);
    var p := Reserve(w.wallet, target);
    match SwapRefusal(m, [input], [out])
    case Some(e) => (w.(wallet := p), Err(e))
    case None =>
      (World(Credit(p, target, out, index).(seen := p.seen + {input.commitment}),
             w.auths[target := Swapped(m, [input], [out])]),
       Ok(Wrap64(RecordedValue(m, [input]))))
  }

  /** A held output as the input of a swap, with the tag its index derives. */
  function Payment(p: Wallet, m: Memory, o: Output): Instrument {
    Instrument(m.kind, m.name, o.amount, o.amount, o.commitment, Tag(p.seed, IndexOf(p, o.commitment), m.name))
  }

  function Payments(p: Wallet, m: Memory, held: seq<Output>): (inputs: seq<Instrument>)
    ensures |inputs| == |held|
    ensures forall i :: 0 <= i < |held| ==> inputs[i] == Payment(p, m, held[i])
  {
    if held == [] then [] else [Payment(p, m, held[0])] + Payments(p, m, held[1..])
  }

  function Forget(own: map<Commitment, nat>, held: seq<Output>): map<Commitment, nat> {
    own - (set i | 0 <= i < |held| :: held[i].commitment)
  }

  function Payout(target: string, index: nat, m: Memory, amount: uint64): Output {
    Output(Derived(RecipientSeed(target), index, m.name), amount)
  }

  /** What a spend signs: one output for the payee and, when anything is left, one change. */
  function Replacements(p: Wallet, target: string, m: Memory, amount: uint64): seq<Output>
    requires BalanceAt(p, target) >= amount
  {
    var index := Counter(p, target);
    var change := BalanceAt(p, target) - amount;
    [Payout(target, index, m, amount)]
    + (if change > 0 then [Output(Derived(p.seed, index, m.name), change)] else [])
  }

  function Spend(w: World, amount: uint64, target: string): (World, Outcome<Blob>) {
    if amount == 0 then (w, Err(AmountNotPositive))
    else if target !in w.auths then (w, Err(NoAuthority))
    else if BalanceAt(w.wallet, target) < amount then (w, Err(InsufficientFunds))
    else PayOut(w, amount, target)
  }

  /** Reserve an index, swap everything held for the payment and the change, and record it. */
  function PayOut(w: World, amount: uint64, target: string): (World, Outcome<Blob>)
    requires target in w.auths && amount <= BalanceAt(w.wallet, target)
  {
    var index := Counter(w.wallet, target);
    var m := w.auths[target];
    var held := Held(w.wallet, target);
    var inputs := Payments(w.wallet, m, held);
    var outs := Replacements(w.wallet, target, m, amount);
    var p := Reserve(w.wallet, target);
    match SwapRefusal(m, inputs, outs)
    case Some(e) => (w.(wallet := p), Err(e))
    case None =>
      (World(Settle(p, target, outs, index), w.auths[target := Swapped(m, inputs, outs)]),
       Ok(Blob(m.kind, outs[0].commitment, amount)))
  }

  /** Everything held is gone; what came back, if anything, is held now. */
  function Settle(p: Wallet, target: string, outs: seq<Output>, index: nat): Wallet {
    var emptied := p.(holdings := p.holdings[target := []], own := Forget(p.own, Held(p, target)));
    if |outs| == 2 then Credit(emptied, target, outs[1], index) else emptied
  }

  function PersistCounter(w: World, target: string, next: uint64): World {
    if next > Counter(w.wallet, target)
    then w.(wallet := w.wallet.(counters := w.wallet.counters[target := next]))
    else w
  }

  function DestroyStore(w: World): World {
    w.(wallet := w.wallet.(holdings := map[], own := map[], counters := map[], seen := {}))
  }

  // ------------------------------------------------------------ sweeping one authority

  predicate IsIssued(m: Memory, seed: Seed, i: nat) {
    Derived(seed, i, m.name) in m.issued
  }

  predicate IsLive(m: Memory, seed: Seed, i: nat) {
    Live(m, Derived(seed, i, m.name))
  }

  /** The unspent outputs of a seed at indices below k, in increasing index order. */
  function LiveOutputs(m: Memory, seed: Seed, k: nat): seq<Output> {
    if k == 0 then []
    else
      var c := Derived(seed, k - 1, m.name);
      LiveOutputs(m, seed, k - 1) + (if Live(m, c) then [Output(c, m.issued[c].amount)] else [])
  }

  /** The part of the log a sweep that has reached index i can still meet. */
  function Above(m: Memory, seed: Seed, i: nat): set<Commitment> {
    set c | c in m.issued && c.Derived? && c.seed == seed && c.authority == m.name && c.index >= i
  }

  lemma AboveStep(m: Memory, seed: Seed, i: nat)
    ensures IsIssued(m, seed, i) ==> |Above(m, seed, i + 1)| + 1 == |Above(m, seed, i)|
    ensures !IsIssued(m, seed, i) ==> Above(m, seed, i + 1) == Above(m, seed, i)
  {
    var c := Derived(seed, i, m.name);
    if IsIssued(m, seed, i) {
      assert Above(m, seed, i) == Above(m, seed, i + 1) + {c};
    } else {
      assert Above(m, seed, i) == Above(m, seed, i + 1);
    }
  }

  /** Where a sweep that has just seen `misses` unissued indices below i stops: the index of
      the first of the eight consecutive misses that end it. */
  function SweepEnd(m: Memory, seed: Seed, i: nat, misses: nat): nat
    requires misses < RECOVERY_BATCH && misses <= i
    decreases |Above(m, seed, i)|, RECOVERY_BATCH - misses
  {
    AboveStep(m, seed, i);
    if IsIssued(m, seed, i) then SweepEnd(m, seed, i + 1, 0)
    else if misses + 1 == RECOVERY_BATCH then i - misses
    else SweepEnd(m, seed, i + 1, misses + 1)
  }

  /** The next free index a recovery of `seed` believes in. */
  function Horizon(m: Memory, seed: Seed): nat {
    SweepEnd(m, seed, 0, 0)
  }

  /** The holdings a sweep of every authority comes back with; an authority without any is absent. */
  function Found(auths: map<string, Memory>, seed: Seed): map<string, seq<Output>> {
    map n | n in auths && LiveOutputs(auths[n], seed, Horizon(auths[n], seed)) != []
          :: LiveOutputs(auths[n], seed, Horizon(auths[n], seed))
  }

  /** The values that are further than the counter they are for. */
  function Ahead(p: Wallet, next: map<string, uint64>): map<string, uint64> {
    map n | n in next && next[n] > Counter(p, n) :: next[n]
  }

  /** The counters moved forward to `next` values; no counter ever moves back. */
  function Furthered(p: Wallet, next: map<string, uint64>): map<string, uint64> {
    p.counters + Ahead(p, next)
  }

  lemma AheadOne(p: Wallet, before: map<string, uint64>, n: string, next: uint64)
    requires n !in before
    ensures Ahead(p, before[n := next]) ==
              if next > Counter(p, n) then Ahead(p, before)[n := next] else Ahead(p, before)
  {
    var more := before[n := next];
    forall a ensures a in Ahead(p, more) <==> a in Ahead(p, before) || (a == n && next > Counter(p, n)) {
      assert a != n ==> (a in more <==> a in before);
    }
  }

  lemma FurtheredOne(p: Wallet, before: map<string, uint64>, n: string, next: uint64)
    requires n !in before
    ensures Furthered(p, before[n := next]) ==
              if next > Counter(p, n) then Furthered(p, before)[n := next] else Furthered(p, before)
  {
    AheadOne(p, before, n, next);
  }

  lemma FurtheredAt(p: Wallet, next: map<string, uint64>, n: string)
    ensures var counters := Furthered(p, next);
            (if n in counters then counters[n] else 0) ==
              if n in next && next[n] > Counter(p, n) then next[n] else Counter(p, n)
  {
  }

  /** Counters have 64 bits, whatever a sweep met. */
  function Wrapped(tops: map<string, nat>): map<string, uint64> {
    map n | n in tops :: Wrap64(tops[n])
  }

  /** The counters that sweeps ending at `tops` move forward. */
  function Advanced(p: Wallet, tops: map<string, nat>): map<string, uint64> {
    Furthered(p, Wrapped(tops))
  }

  predicate AnyOffline(auths: map<string, Memory>) {
    exists n :: n in auths && auths[n].offline
  }

  function Recover(w: World, seed: Seed): (World, Outcome<map<string, uint64>>) {
    if AnyOffline(w.auths) then (w, Err(StateUnavailable))
    else
      var found := Found(w.auths, seed);
      (w.(wallet := w.wallet.(holdings := found,
                              own := Indices(found),
                              counters := Advanced(w.wallet, Horizons(w.auths, seed)),
                              seen := {})),
       Ok(Balances(found)))
  }

  function Balances(holdings: map<string, seq<Output>>): map<string, uint64> {
    map n | n in holdings :: Wrap64(ExactValue(holdings[n]))
  }

  function HeldCommitments(holdings: map<string, seq<Output>>): set<Commitment> {
    set n, i | n in holdings && 0 <= i < |holdings[n]| :: holdings[n][i].commitment
  }

  /** The derivation index of every held output. */
  function Indices(holdings: map<string, seq<Output>>): map<Commitment, nat> {
    map c | c in HeldCommitments(holdings) :: if c.Derived? then c.index else 0
  }

  /** Where each sweep stopped. */
  function Horizons(auths: map<string, Memory>, seed: Seed): map<string, nat> {
    map n | n in auths :: Horizon(auths[n], seed)
  }

  /** What sweeping every authority but those in `todo` has come to. */
  predicate Swept(all: map<string, Memory>, todo: set<string>, seed: Seed,
                  found: map<string, seq<Output>>, tops: map<string, nat>)
  {
    !AnyOffline(all - todo) && found == Found(all - todo, seed) && tops == Horizons(all - todo, seed)
  }

  lemma SweptStart(all: map<string, Memory>, seed: Seed)
    ensures Swept(all, all.Keys, seed, map[], map[])
  {
    assert all - all.Keys == map[];
  }

  lemma SweptEnd(all: map<string, Memory>, seed: Seed, found: map<string, seq<Output>>, tops: map<string, nat>)
    requires Swept(all, {}, seed, found, tops)
    ensures !AnyOffline(all) && found == Found(all, seed) && tops == Horizons(all, seed)
  {
    assert all - {} == all;
  }

  /** Sweeping one more of the authorities still to do adds its share and nothing else. */
  lemma SweptStep(all: map<string, Memory>, todo: set<string>, n: string, seed: Seed,
                  found: map<string, seq<Output>>, tops: map<string, nat>)
    requires n in todo && n in all && !all[n].offline && Swept(all, todo, seed, found, tops)
    ensures var outs := LiveOutputs(all[n], seed, Horizon(all[n], seed));
            Swept(all, todo - {n}, seed, if outs == [] then found else found[n := outs],
                  tops[n := Horizon(all[n], seed)])
  {
    var done := all - todo;
    assert all - (todo - {n}) == done[n := all[n]] && n !in done;
    FoundStep(done, seed, n, all[n]);
    HorizonsStep(done, seed, n, all[n]);
    OfflineStep(done, n, all[n]);
  }

  lemma OfflineStep(auths: map<string, Memory>, n: string, m: Memory)
    requires n !in auths
    ensures AnyOffline(auths[n := m]) <==> AnyOffline(auths) || m.offline
  {
    var all := auths[n := m];
    assert forall a :: a in auths ==> all[a] == auths[a];
    assert all[n] == m;
  }

  lemma FoundStep(auths: map<string, Memory>, seed: Seed, n: string, m: Memory)
    requires n !in auths
    ensures var outs := LiveOutputs(m, seed, Horizon(m, seed));
            Found(auths[n := m], seed) == if outs == [] then Found(auths, seed) else Found(auths, seed)[n := outs]
  {
  }

  lemma HorizonsStep(auths: map<string, Memory>, seed: Seed, n: string, m: Memory)
    ensures Horizons(auths[n := m], seed) == Horizons(auths, seed)[n := Horizon(m, seed)]
  {
  }
}
