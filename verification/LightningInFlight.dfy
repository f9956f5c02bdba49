/** Any number of invoice requests at once: a request is admitted in one lock region and its record
    inserted in another, and what the bounds of the table become by that. */
module LightningInFlight {
  import opened Basics
  import opened LightningQuotes

  /** `waiting` are the requests that were admitted and have yet to insert their record, each with
      its client. */
  datatype World = World(quotes: Table, waiting: map<nat, string>)

  /** Between admission and insertion a request asks the mint, and may fail. */
  datatype Step =
    | Admit(request: nat, mac: string, now: int, plan: Admission)
    | Insert(request: nat, id: string, quote: Quote)
    | Fail(request: nat)
    | Other(event: Event)

  function Waiting(w: World, mac: string): set<nat> {
    set x | x in w.waiting && w.waiting[x] == mac
  }

  /** Admission cleans the table and makes room; who is not admitted does not wait. */
  predicate Steps(w: World, s: Step, w': World) {
    match s
    case Admit(request, mac, now, plan) =>
      && mac != "" && request !in w.waiting
      && Admits(Cleaned(w.quotes, now), w'.quotes, mac, now, plan)
      && w'.waiting == if plan.admitted then w.waiting[request := mac] else w.waiting
    case Insert(request, id, quote) =>
      && request in w.waiting && quote.mac == w.waiting[request]
      && w' == World(Inserted(w.quotes, id, quote), w.waiting - {request})
    case Fail(request) => w' == World(w.quotes, w.waiting - {request})
    case Other(event) => !event.Request? && Happens(w.quotes, event, w'.quotes) && w'.waiting == w.waiting
  }

  predicate IsRun(worlds: seq<World>, steps: seq<Step>)
    decreases |steps|
  {
    && |worlds| == |steps| + 1
    && (steps == [] || (IsRun(worlds[..|steps|], steps[..|steps| - 1])
                        && Steps(worlds[|steps| - 1], steps[|steps| - 1], worlds[|steps|])))
  }

  /** At no time do more than k requests wait, or more than m of one client. */
  predicate AtMost(worlds: seq<World>, k: nat, mac: string, m: nat) {
    forall i :: 0 <= i < |worlds| ==> |worlds[i].waiting| <= k && |Waiting(worlds[i], mac)| <= m
  }

  // ------------------------------------------------------------ the table as a whole

  /** A record inserted leaves one request fewer waiting. */
  ghost predicate Within(w: World, k: nat) {
    |w.quotes| + |w.waiting| < MAX_GLOBAL + k
  }

  lemma InsertedSize(q: Table, id: string, r: Quote)
    ensures |Inserted(q, id, r)| <= |q| + 1
  {
    assert Inserted(q, id, r).Keys == q.Keys + {id};
  }

  lemma FewerWaiting(w: World, request: nat)
    requires request in w.waiting
    ensures |w.waiting - {request}| == |w.waiting| - 1
  {
    assert (w.waiting - {request}).Keys == w.waiting.Keys - {request};
  }

  /** Admission leaves fewer than 128 records if it admits, and no more than there were in any case. */
  lemma AdmitLeaves(w: World, w': World, mac: string, now: int, plan: Admission)
    requires Admits(Cleaned(w.quotes, now), w'.quotes, mac, now, plan)
    ensures SubTable(w'.quotes, w.quotes) && |w'.quotes| <= |w.quotes|
    ensures plan.admitted ==> |w'.quotes| < MAX_GLOBAL
  {
    AdmitsSubTable(Cleaned(w.quotes, now), w'.quotes, mac, now, plan);
    SubTableBounded(w.quotes, w'.quotes);
  }

  lemma OtherShrinks(q: Table, e: Event, q': Table)
    requires !e.Request? && Happens(q, e, q')
    ensures q'.Keys <= q.Keys && |q'| <= |q|
    ensures forall mac :: |Active(q', mac)| <= |Active(q, mac)|
  {
    SmallerSet(q'.Keys, q.Keys);
    forall mac ensures |Active(q', mac)| <= |Active(q, mac)| {
      SmallerSet(Active(q', mac), Active(q, mac));
    }
  }

  lemma StepWithin(w: World, s: Step, w': World, k: nat)
    requires Within(w, k) && Steps(w, s, w') && |w'.waiting| <= k
    ensures Within(w', k)
  {
    match s {
      case Admit(_, mac, now, plan) => AdmitLeaves(w, w', mac, now, plan);
      case Insert(request, id, quote) =>
        InsertedSize(w.quotes, id, quote);
        FewerWaiting(w, request);
      case Fail(request) => SmallerSet((w.waiting - {request}).Keys, w.waiting.Keys);
      case Other(event) => OtherShrinks(w.quotes, event, w'.quotes);
    }
  }

  // ------------------------------------------------------------ one client's share

  ghost predicate ShareWithin(w: World, mac: string, m: nat) {
    |Active(w.quotes, mac)| + |Waiting(w, mac)| < MAX_PER_MAC + m
  }

  /** An admitted client is left with two ungranted records at most, or with one fewer than it
      had; and nobody with more. */
  lemma AdmitShare(w: World, w': World, mac: string, now: int, plan: Admission)
    requires mac != "" && Admits(Cleaned(w.quotes, now), w'.quotes, mac, now, plan)
    ensures forall other :: |Active(w'.quotes, other)| <= |Active(w.quotes, other)|
    ensures plan.admitted ==>
              |Active(w'.quotes, mac)| < MAX_PER_MAC || |Active(w'.quotes, mac)| < |Active(w.quotes, mac)|
  {
    AdmitLeaves(w, w', mac, now, plan);
    SubTableBounded(w.quotes, w'.quotes);
    var q := Cleaned(w.quotes, now);
    SubTableBounded(w.quotes, q);
    if plan.admitted {
      var q1 := if plan.first == [] then q else q - {plan.first[0]};
      ReapedDrops(q1, plan.reaped, w'.quotes, now);
      SubTableBounded(q1, w'.quotes);
      assert plan.first != [] ==>
               Active(q1, mac) == Active(q, mac) - {plan.first[0]} && plan.first[0] in Active(q, mac);
    }
  }

  lemma OneMoreWaits(w: World, request: nat, mac: string, other: string)
    requires request !in w.waiting
    ensures |Waiting(World(w.quotes, w.waiting[request := mac]), other)|
         == |Waiting(w, other)| + if mac == other then 1 else 0
  {
    var w' := World(w.quotes, w.waiting[request := mac]);
    assert Waiting(w', other) == if mac == other then Waiting(w, other) + {request} else Waiting(w, other);
  }

  lemma OneFewerWaits(w: World, request: nat, other: string)
    requires request in w.waiting
    ensures |Waiting(World(w.quotes, w.waiting - {request}), other)|
         == |Waiting(w, other)| - if w.waiting[request] == other then 1 else 0
  {
    var w' := World(w.quotes, w.waiting - {request});
    if w.waiting[request] == other {
      assert Waiting(w, other) == Waiting(w', other) + {request};
    } else {
      assert Waiting(w', other) == Waiting(w, other);
    }
  }

  lemma AdmitShareWithin(w: World, w': World, s: Step, other: string, m: nat)
    requires s.Admit? && ShareWithin(w, other, m) && Steps(w, s, w') && |Waiting(w', other)| <= m
    ensures ShareWithin(w', other, m)
  {
    AdmitShare(w, w', s.mac, s.now, s.plan);
    OneMoreWaits(w, s.request, s.mac, other);
    assert Waiting(w', other) == Waiting(World(w.quotes, w'.waiting), other);
    assert Waiting(w, other) == Waiting(World(w.quotes, w.waiting), other);
  }

  lemma StepShareWithin(w: World, s: Step, w': World, other: string, m: nat)
    requires ShareWithin(w, other, m) && Steps(w, s, w') && |Waiting(w', other)| <= m
    ensures ShareWithin(w', other, m)
  {
    match s {
      case Admit(_, _, _, _) => AdmitShareWithin(w, w', s, other, m);
      case Insert(request, id, quote) =>
        ActiveInserted(w.quotes, id, quote, other);
        OneFewerWaits(w, request, other);
        assert Waiting(w', other) == Waiting(World(w.quotes, w.waiting - {request}), other);
      case Fail(request) =>
        if request in w.waiting { OneFewerWaits(w, request, other); }
        assert request !in w.waiting ==> w'.waiting == w.waiting;
      case Other(event) =>
        OtherShrinks(w.quotes, event, w'.quotes);
        assert Waiting(w', other) == Waiting(w, other);
    }
  }

  // ------------------------------------------------------------ over any run

  /** With at most k requests between admission and insertion at any time, m of them one client's,
      the table never has more than 127 + k records, nor the client more than 2 + m ungranted
      ones; what waits counts in already. One request at a time is 128 and 3. */
  lemma {:induction false} AlwaysWithin(worlds: seq<World>, steps: seq<Step>, k: nat, mac: string, m: nat)
    requires IsRun(worlds, steps) && AtMost(worlds, k, mac, m)
    requires Within(worlds[0], k) && ShareWithin(worlds[0], mac, m)
    ensures |worlds[|steps|].quotes| + |worlds[|steps|].waiting| <= 127 + k
    ensures |Active(worlds[|steps|].quotes, mac)| + |Waiting(worlds[|steps|], mac)| <= 2 + m
    decreases |steps|
  {
    if steps == [] {
    } else {
      var last := |steps| - 1;
      AlwaysWithin(worlds[..|steps|], steps[..last], k, mac, m);
      StepWithin(worlds[last], steps[last], worlds[last + 1], k);
      StepShareWithin(worlds[last], steps[last], worlds[last + 1], mac, m);
    }
  }
}
