/** Any number of workers - monitors and status polls - granting access for paid quotes, against
    janitor, evictor and stale deletion: the steps are the program's lock regions, in any order. */
module LightningGrants {
  import opened Basics
  import opened Words
  import opened LightningQuotes

  /** Where a worker stands between two lock regions; `paid` decides whether the mint still has
      to issue the tokens. Access is granted for the amount the mint issued, or the quote's own,
      and the allotment it comes to is what is recorded. */
  datatype Phase =
    | Idle
    | Minting(id: string)
    | Granting(id: string, amount: uint64)
    | Recording(id: string, allotment: uint64)

  /** Three parts are history: every id ever drawn, how often access was applied for a quote, and
      the allotment applied last. */
  datatype World = World(quotes: Table, workers: map<nat, Phase>, used: set<string>, grants: map<string, nat>,
                         allotted: map<string, uint64>)

  datatype Event =
    | Insert(id: string, quote: Quote)
    | Claim(worker: nat, id: string, paid: bool)
    | Mint(worker: nat, minted: Option<uint64>)
    | Grant(worker: nat, allotment: Option<uint64>)
    | Record(worker: nat, now: int)
    | Janitor(now: int)
    | Evict(id: string, now: int)
    | StaleDelete(id: string)

  function At(w: World, worker: nat): Phase {
    if worker in w.workers then w.workers[worker] else Idle
  }

  function Grants(w: World, id: string): nat {
    if id in w.grants then w.grants[id] else 0
  }

  function Goto(w: World, worker: nat, p: Phase): World {
    w.(workers := w.workers[worker := p])
  }

  function Fail(w: World, worker: nat, id: string): World {
    Goto(w, worker, Idle).(quotes := Released(w.quotes, id))
  }

  function Step(w: World, e: Event): World {
    match e
    case Insert(id, quote) => w.(quotes := Inserted(w.quotes, id, quote), used := w.used + {id})
    case Claim(worker, id, paid) =>
      if At(w, worker) != Idle || id !in w.quotes || w.quotes[id].granted || w.quotes[id].processing then w
      else
        Goto(w, worker, if paid then Minting(id) else Granting(id, w.quotes[id].amount))
          .(quotes := Claimed(w.quotes, id))
    case Mint(worker, minted) =>
      if !At(w, worker).Minting? then w
      else if minted.Some? then Goto(w, worker, Granting(At(w, worker).id, minted.value))
      else Fail(w, worker, At(w, worker).id)
    case Grant(worker, allotment) =>
      if !At(w, worker).Granting? then w
      else
        var id := At(w, worker).id;
        if allotment.Some? then
          Goto(w, worker, Recording(id, allotment.value))
            .(grants := w.grants[id := Grants(w, id) + 1], allotted := w.allotted[id := allotment.value])
        else Fail(w, worker, id)
    case Record(worker, now) =>
      if !At(w, worker).Recording? then w
      else
        var p := At(w, worker);
        Goto(w, worker, Idle).(quotes := Finished(w.quotes, p.id, p.allotment, now))
    case Janitor(now) => w.(quotes := Cleaned(w.quotes, now))
    case Evict(id, now) => if id in w.quotes && Evictable(w.quotes[id], now) then w.(quotes := w.quotes - {id}) else w
    case StaleDelete(id) => w.(quotes := w.quotes - {id})
  }

  /** A mint never draws a quote id twice. */
  predicate Allowed(w: World, e: Event) {
    e.Insert? ==> e.id !in w.used && !e.quote.granted && !e.quote.processing
  }

  function Run(w: World, es: seq<Event>): World {
    if es == [] then w else Step(Run(w, es[..|es| - 1]), es[|es| - 1])
  }

  predicate AllowedRun(w: World, es: seq<Event>) {
    es != [] ==> AllowedRun(w, es[..|es| - 1]) && Allowed(Run(w, es[..|es| - 1]), es[|es| - 1])
  }

  // ------------------------------------------------------------ the invariant

  predicate WorksOn(p: Phase, id: string) { !p.Idle? && p.id == id }

  /** What a worker in the middle of a grant may rely on. */
  predicate WorkerOk(w: World, worker: nat)
    requires worker in w.workers
  {
    var p := w.workers[worker];
    !p.Idle? ==>
      && p.id in w.used
      && Grants(w, p.id) == (if p.Recording? then 1 else 0)
      && (p.Recording? ==> p.id in w.allotted && w.allotted[p.id] == p.allotment)
      && (p.id in w.quotes ==> w.quotes[p.id].processing && !w.quotes[p.id].granted)
  }

  predicate OneWorkerPerQuote(w: World) {
    forall a, b :: (a in w.workers && b in w.workers && !w.workers[a].Idle? && !w.workers[b].Idle?
                    && w.workers[a].id == w.workers[b].id) ==> a == b
  }

  predicate InWork(w: World, id: string) {
    exists worker :: worker in w.workers && WorksOn(w.workers[worker], id)
  }

  predicate QuoteOk(w: World, id: string)
    requires id in w.quotes
  {
    && id in w.used
    && (!w.quotes[id].processing ==> Grants(w, id) == if w.quotes[id].granted then 1 else 0)
    && (w.quotes[id].processing ==> InWork(w, id))
    && (w.quotes[id].granted ==>
          w.quotes[id].completedAt.At? && id in w.allotted && w.allotted[id] == w.quotes[id].allotment)
  }

  predicate Inv(w: World) {
    && (forall worker :: worker in w.workers ==> WorkerOk(w, worker))
    && OneWorkerPerQuote(w)
    && (forall id :: id in w.quotes ==> QuoteOk(w, id))
    && (forall id :: id in w.grants ==> id in w.used && w.grants[id] <= 1)
  }

  /** When one worker moves on, a quote stays in work unless that worker dropped it. */
  lemma StaysInWork(w: World, w': World, worker: nat, p: Phase)
    requires w'.workers == w.workers[worker := p]
    ensures forall x :: InWork(w, x) && (WorksOn(At(w, worker), x) ==> WorksOn(p, x)) ==> InWork(w', x)
    ensures forall x :: WorksOn(p, x) ==> InWork(w', x)
  {
    forall x | InWork(w, x) && (WorksOn(At(w, worker), x) ==> WorksOn(p, x)) ensures InWork(w', x) {
      var v :| v in w.workers && WorksOn(w.workers[v], x);
      assert WorksOn(w'.workers[v], x);
    }
    assert w'.workers[worker] == p;
  }

  lemma IdleStep(w: World, e: Event)
    requires Inv(w) && Allowed(w, e) && (e.Insert? || e.Janitor? || e.Evict? || e.StaleDelete?)
    ensures Inv(Step(w, e))
  {
    var w' := Step(w, e);
    forall worker | worker in w'.workers ensures WorkerOk(w', worker) { assert WorkerOk(w, worker); }
    forall id | id in w'.quotes ensures QuoteOk(w', id) {
      if id in w.quotes { assert QuoteOk(w, id); }
    }
  }

  lemma ClaimKeeps(w: World, worker: nat, id: string, paid: bool)
    requires Inv(w)
    ensures Inv(Step(w, Event.Claim(worker, id, paid)))
  {
    var w' := Step(w, Event.Claim(worker, id, paid));
    if w' != w {
      assert QuoteOk(w, id);
      forall v | v in w'.workers ensures WorkerOk(w', v) {
        if v != worker { assert WorkerOk(w, v); }
      }
      forall a | a in w.workers && !w.workers[a].Idle? ensures w.workers[a].id != id { assert WorkerOk(w, a); }
      StaysInWork(w, w', worker, w'.workers[worker]);
      forall x | x in w'.quotes ensures QuoteOk(w', x) { assert QuoteOk(w, x); }
    }
  }

  /** A worker that gives up hands the quote back. */
  lemma FailKeeps(w: World, worker: nat)
    requires Inv(w) && (At(w, worker).Minting? || At(w, worker).Granting?)
    ensures Inv(Fail(w, worker, At(w, worker).id))
  {
    var id := At(w, worker).id;
    var w' := Fail(w, worker, id);
    assert WorkerOk(w, worker);
    forall v | v in w'.workers ensures WorkerOk(w', v) {
      if v != worker { assert WorkerOk(w, v); }
    }
    StaysInWork(w, w', worker, w'.workers[worker]);
    forall x | x in w'.quotes ensures QuoteOk(w', x) { assert QuoteOk(w, x); }
  }

  lemma MintKeeps(w: World, worker: nat, minted: uint64)
    requires Inv(w) && At(w, worker).Minting?
    ensures Inv(Goto(w, worker, Granting(At(w, worker).id, minted)))
  {
    var w' := Goto(w, worker, Granting(At(w, worker).id, minted));
    assert WorkerOk(w, worker);
    forall v | v in w'.workers ensures WorkerOk(w', v) {
      if v != worker { assert WorkerOk(w, v); }
    }
    StaysInWork(w, w', worker, w'.workers[worker]);
    forall x | x in w'.quotes ensures QuoteOk(w', x) { assert QuoteOk(w, x); }
  }

  lemma GrantKeeps(w: World, worker: nat, allotment: uint64)
    requires Inv(w) && At(w, worker).Granting?
    ensures Inv(Step(w, Grant(worker, Some(allotment))))
  {
    var w' := Step(w, Grant(worker, Some(allotment)));
    var id := At(w, worker).id;
    assert WorkerOk(w, worker);
    forall v | v in w'.workers ensures WorkerOk(w', v) {
      if v != worker { assert WorkerOk(w, v); }
    }
    StaysInWork(w, w', worker, w'.workers[worker]);
    forall x | x in w'.quotes ensures QuoteOk(w', x) { assert QuoteOk(w, x); }
  }

  lemma RecordKeeps(w: World, worker: nat, now: int)
    requires Inv(w) && At(w, worker).Recording?
    ensures Inv(Step(w, Record(worker, now)))
  {
    var w' := Step(w, Record(worker, now));
    assert WorkerOk(w, worker);
    forall v | v in w'.workers ensures WorkerOk(w', v) {
      if v != worker { assert WorkerOk(w, v); }
    }
    StaysInWork(w, w', worker, w'.workers[worker]);
    forall x | x in w'.quotes ensures QuoteOk(w', x) { assert QuoteOk(w, x); }
  }

  lemma StepKeeps(w: World, e: Event)
    requires Inv(w) && Allowed(w, e)
    ensures Inv(Step(w, e))
  {
    match e {
      case Insert(_, _) => IdleStep(w, e);
      case Claim(worker, id, paid) => ClaimKeeps(w, worker, id, paid);
      case Mint(worker, minted) =>
        if At(w, worker).Minting? {
          if minted.Some? { MintKeeps(w, worker, minted.value); } else { FailKeeps(w, worker); }
        }
      case Grant(worker, allotment) =>
        if At(w, worker).Granting? {
          if allotment.Some? { GrantKeeps(w, worker, allotment.value); } else { FailKeeps(w, worker); }
        }
      case Record(worker, now) =>
        if At(w, worker).Recording? { RecordKeeps(w, worker, now); }
      case Janitor(_) => IdleStep(w, e);
      case Evict(_, _) => IdleStep(w, e);
      case StaleDelete(_) => IdleStep(w, e);
    }
  }

  lemma {:induction false} RunKeeps(w: World, es: seq<Event>)
    requires Inv(w) && AllowedRun(w, es)
    ensures Inv(Run(w, es))
  {
    if es == [] {
    } else {
      RunKeeps(w, es[..|es| - 1]);
      StepKeeps(Run(w, es[..|es| - 1]), es[|es| - 1]);
    }
  }

  const EMPTY: World := World(map[], map[], {}, map[], map[])

  /** Under every interleaving, with mints and gates failing at will and records deleted under a
      worker's feet: each quote has at most one worker between claim and record, and access is
      applied for it at most once. */
  lemma GrantedAtMostOnce(es: seq<Event>, id: string)
    requires AllowedRun(EMPTY, es)
    ensures Grants(Run(EMPTY, es), id) <= 1
    ensures forall a, b :: WorksOn(At(Run(EMPTY, es), a), id) && WorksOn(At(Run(EMPTY, es), b), id) ==> a == b
  {
    RunKeeps(EMPTY, es);
  }

  /** A record is marked as being processed exactly while some worker has it: no mark is ever
      left behind, whichever way the grant failed. */
  lemma ProcessingIffInWork(es: seq<Event>, id: string)
    requires AllowedRun(EMPTY, es) && id in Run(EMPTY, es).quotes
    ensures var w := Run(EMPTY, es);
            w.quotes[id].processing <==> exists a :: WorksOn(At(w, a), id)
  {
    RunKeeps(EMPTY, es);
    var w := Run(EMPTY, es);
    assert QuoteOk(w, id);
    if w.quotes[id].processing {
      var a :| a in w.workers && WorksOn(w.workers[a], id);
      assert WorksOn(At(w, a), id);
    }
    forall a | WorksOn(At(w, a), id) ensures w.quotes[id].processing { assert WorkerOk(w, a); }
  }

  /** A record never says granted without the one grant behind it, and then it carries the allotment
      of that grant; a record that is neither granted nor in work has had none, so its payment can
      still be honoured. */
  lemma RecordsTellTheTruth(es: seq<Event>, id: string)
    requires AllowedRun(EMPTY, es) && id in Run(EMPTY, es).quotes
    ensures var w := Run(EMPTY, es);
            && (!w.quotes[id].processing ==> (w.quotes[id].granted <==> Grants(w, id) == 1))
            && (w.quotes[id].granted ==>
                  w.quotes[id].completedAt.At? && id in w.allotted && w.quotes[id].allotment == w.allotted[id])
  {
    RunKeeps(EMPTY, es);
    assert QuoteOk(Run(EMPTY, es), id);
  }

  /** What a step applies is what it is asked to apply, for the one quote its worker is at. */
  lemma StepApplies(w: World, e: Event, id: string)
    ensures Grants(Step(w, e), id) == Grants(w, id) + 1
       <==> e.Grant? && e.allotment.Some? && At(w, e.worker).Granting? && At(w, e.worker).id == id
    ensures Grants(Step(w, e), id) != Grants(w, id) ==>
              id in Step(w, e).allotted && e.Grant? && e.allotment == Some(Step(w, e).allotted[id])
  {
  }

  /** Access is granted for what the mint issued, and for the quote's own amount if it issued before. */
  lemma GrantedFor(w: World, worker: nat, id: string, paid: bool, minted: Option<uint64>)
    requires At(w, worker) == Idle && id in w.quotes && !w.quotes[id].granted && !w.quotes[id].processing
    ensures var w1 := Step(w, Event.Claim(worker, id, paid));
            var w2 := Step(w1, Mint(worker, minted));
            && At(w1, worker).id == id && w1.quotes[id] == w.quotes[id].(processing := true)
            && (At(w2, worker).Granting? <==> !paid || minted.Some?)
            && (At(w2, worker).Granting? ==>
                  At(w2, worker).amount == if paid then minted.value else w.quotes[id].amount)
  {
  }
}
