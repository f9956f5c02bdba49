/** The table of in-flight Lightning quotes: which records may be dropped, how room is made for a
    new one, and the bounds every sequence of requests keeps. Times are in milliseconds. */
module LightningQuotes {
  import opened Basics
  import opened Words

  const MINUTE: int := 60_000
  const EXPIRY_GRACE: int := 5 * MINUTE
  const MAX_AGE: int := 30 * MINUTE
  const SETTLED_RETENTION: int := 10 * MINUTE
  const EVICTION_MIN_AGE: int := 5 * MINUTE
  const MAX_PER_MAC: nat := 3
  const MAX_GLOBAL: nat := 128
  const WATERMARK: nat := 102

  datatype Quote = Quote(mac: string, amount: uint64, expiry: uint64, allotment: uint64,
                         createdAt: Instant, completedAt: Instant, granted: bool, processing: bool)

  type Table = map<string, Quote>

  // ------------------------------------------------------------ one record

  /** When an invoice runs out: an absolute Unix time, or seconds from its creation. */
  function ExpiryTime(r: Quote): Instant {
    if r.expiry == 0 then Never
    else if r.expiry > 1_000_000_000 then At(SignedWrap64(r.expiry) * 1000)
    else if r.createdAt.Never? then Never
    else At(r.createdAt.time + r.expiry * 1000)
  }

  predicate ShouldDelete(r: Quote, now: int) {
    && !r.processing
    && (|| (r.granted && r.completedAt.At? && now - r.completedAt.time >= SETTLED_RETENTION)
        || (ExpiryTime(r).At? && now > ExpiryTime(r).time + EXPIRY_GRACE)
        || (r.createdAt.At? && now - r.createdAt.time >= MAX_AGE))
  }

  predicate Evictable(r: Quote, now: int) {
    !r.processing && !r.granted && r.createdAt.At? && now - r.createdAt.time >= EVICTION_MIN_AGE
  }

  predicate IsActive(r: Quote, mac: string) { !r.granted && r.mac == mac }

  function Active(q: Table, mac: string): set<string> {
    set id | id in q && IsActive(q[id], mac)
  }

  // ------------------------------------------------------------ what the lock regions do

  function Claimed(q: Table, id: string): Table
    requires id in q
  {
    q[id := q[id].(processing := true)]
  }

  function Released(q: Table, id: string): Table {
    if id in q then q[id := q[id].(processing := false)] else q
  }

  function Finished(q: Table, id: string, allotment: uint64, now: int): Table {
    if id !in q then q
    else q[id := q[id].(processing := false, granted := true, allotment := allotment, completedAt := At(now))]
  }

  function Cleaned(q: Table, now: int): Table {
    map id | id in q && !ShouldDelete(q[id], now) :: q[id]
  }

  // ------------------------------------------------------------ eviction and admission

  /** Evictable, and the right client's when one client's records are asked for. */
  predicate Eligible(q: Table, id: string, now: int, only: string) {
    id in q && Evictable(q[id], now) && (only != "" ==> q[id].mac == only)
  }

  /** id is the oldest of the eligible records. */
  predicate Oldest(q: Table, id: string, now: int, only: string) {
    && Eligible(q, id, now, only)
    && forall x :: x in q && Eligible(q, x, now, only) ==> q[id].createdAt.time <= q[x].createdAt.time
  }

  predicate NoneEligible(q: Table, now: int, only: string) {
    forall x :: x in q ==> !Eligible(q, x, now, only)
  }

  /** A run of evictions: at each one the table is at the watermark and the record dropped is
      the oldest eligible of those still there. */
  predicate Reaped(q: Table, gone: seq<string>, q': Table, now: int)
    decreases |gone|
  {
    if gone == [] then q' == q
    else |q| >= WATERMARK && Oldest(q, gone[0], now, "") && Reaped(q - {gone[0]}, gone[1..], q', now)
  }

  datatype Admission = Admission(first: seq<string>, reaped: seq<string>, admitted: bool)

  /** What admitting one more quote for a client does to the table. */
  predicate Admits(q: Table, q': Table, mac: string, now: int, a: Admission) {
    if |Active(q, mac)| >= MAX_PER_MAC && NoneEligible(q, now, mac) then
      q' == q && a == Admission([], [], false)
    else
      && (if |Active(q, mac)| >= MAX_PER_MAC then |a.first| == 1 && Oldest(q, a.first[0], now, mac) else a.first == [])
      && var q1 := if a.first == [] then q else q - {a.first[0]};
         && Reaped(q1, a.reaped, q', now)
         && (|q'| >= WATERMARK ==> NoneEligible(q', now, ""))
         && (a.admitted <==> |q'| < MAX_GLOBAL)
  }

  // ------------------------------------------------------------ the bounds

  ghost predicate Bounded(q: Table) {
    |q| <= MAX_GLOBAL && forall mac :: |Active(q, mac)| <= MAX_PER_MAC
  }

  predicate SubTable(q': Table, q: Table) {
    forall id :: id in q' ==> id in q && q'[id] == q[id]
  }

  lemma SmallerSet<T>(a: set<T>, b: set<T>)
    requires a <= b
    ensures |a| <= |b|
    ensures a != b ==> |a| < |b|
  {
    assert b == a + (b - a);
  }

  lemma SubTableBounded(q: Table, q': Table)
    requires SubTable(q', q)
    ensures |q'| <= |q|
    ensures forall mac :: |Active(q', mac)| <= |Active(q, mac)|
  {
    SmallerSet(q'.Keys, q.Keys);
    forall mac ensures |Active(q', mac)| <= |Active(q, mac)| {
      SmallerSet(Active(q', mac), Active(q, mac));
    }
  }

  /** Every record a run of evictions drops was evictable; nothing else is touched; and the run
      is as long as the table got shorter. */
  lemma {:induction false} ReapedDrops(q: Table, gone: seq<string>, q': Table, now: int)
    requires Reaped(q, gone, q', now)
    ensures SubTable(q', q) && |q'| + |gone| == |q|
    ensures forall id :: id in q && id !in q' ==> Evictable(q[id], now) && id in gone
    ensures gone != [] ==> |q'| >= WATERMARK - 1
    decreases |gone|
  {
    if gone == [] {
    } else {
      var q1 := q - {gone[0]};
      assert q1.Keys == q.Keys - {gone[0]};
      ReapedDrops(q1, gone[1..], q', now);
    }
  }

  /** Room is made only by dropping records that were not being processed, had granted nothing
      and were at least five minutes old; and an admitted client is left with room for one. */
  lemma AdmitsDrops(q: Table, q': Table, mac: string, now: int, a: Admission)
    requires mac != "" && Bounded(q) && Admits(q, q', mac, now, a)
    ensures SubTable(q', q) && Bounded(q')
    ensures forall id :: id in q && id !in q' ==> Evictable(q[id], now)
    ensures a.admitted ==> |q'| < MAX_GLOBAL && |Active(q', mac)| < MAX_PER_MAC
    ensures !a.admitted ==> (|q'| == MAX_GLOBAL && NoneEligible(q', now, ""))
                            || (|Active(q', mac)| == MAX_PER_MAC && NoneEligible(q', now, mac) && q' == q)
  {
    if !(|Active(q, mac)| >= MAX_PER_MAC && NoneEligible(q, now, mac)) {
      var q1 := if a.first == [] then q else q - {a.first[0]};
      ReapedDrops(q1, a.reaped, q', now);
      SubTableBounded(q1, q');
      if a.first != [] {
        assert Active(q1, mac) == Active(q, mac) - {a.first[0]} && a.first[0] in Active(q, mac);
      }
    }
    SubTableBounded(q, q');
  }

  function Inserted(q: Table, id: string, r: Quote): Table { q[id := r] }

  lemma ActiveInserted(q: Table, id: string, r: Quote, mac: string)
    ensures |Active(Inserted(q, id, r), mac)| <= |Active(q, mac)| + if mac == r.mac then 1 else 0
  {
    var after := Active(Inserted(q, id, r), mac);
    if mac == r.mac {
      SmallerSet(after, Active(q, mac) + {id});
    } else {
      SmallerSet(after, Active(q, mac));
    }
  }

  lemma InsertBounded(q: Table, id: string, r: Quote)
    requires Bounded(q) && |q| < MAX_GLOBAL && |Active(q, r.mac)| < MAX_PER_MAC
    ensures Bounded(Inserted(q, id, r))
  {
    assert Inserted(q, id, r).Keys == q.Keys + {id};
    forall mac ensures |Active(Inserted(q, id, r), mac)| <= MAX_PER_MAC {
      ActiveInserted(q, id, r, mac);
    }
  }

  /** Changing the flags of a record in place makes no client's share larger. */
  lemma FlagsBounded(q: Table, id: string, r: Quote)
    requires Bounded(q) && id in q && r.mac == q[id].mac && (q[id].granted ==> r.granted)
    ensures Bounded(q[id := r])
  {
    var q' := q[id := r];
    assert q'.Keys == q.Keys;
    forall mac ensures |Active(q', mac)| <= MAX_PER_MAC {
      SmallerSet(Active(q', mac), Active(q, mac));
    }
  }

  // ------------------------------------------------------------ any sequence of requests

  /** What can happen to the table when requests are handled one at a time. A deletion is decided
      on a copy of the record taken before. */
  datatype Event =
    | Request(mac: string, amount: uint64, priced: bool, now: int, plan: Admission, admittedTable: Table,
              answer: Instant, id: string, quote: Quote)
    | Claim(id: string)
    | Release(id: string)
    | Finish(id: string, allotment: uint64, now: int)
    | Cleanup(now: int)
    | Delete(id: string, copy: Quote, now: int)

  /** An address that is none, an amount of nothing, or one that cannot be priced. */
  predicate Refused(e: Event)
    requires e.Request?
  {
    e.mac == "" || e.amount == 0 || !e.priced
  }

  /** A request: refused at once, or clean up, make room, and, if it is admitted and the mint
      answers, put a record under the id the mint drew, whatever was there. `answer` is when, or never. */
  predicate Handles(q: Table, e: Event, q': Table)
    requires e.Request?
  {
    if Refused(e) then q' == q
    else if !Admits(Cleaned(q, e.now), e.admittedTable, e.mac, e.now, e.plan) then false
    else if !e.plan.admitted || e.answer.Never? then q' == e.admittedTable
    else
      && e.quote.mac == e.mac && e.quote.amount == e.amount
      && e.quote.createdAt == e.answer && !e.quote.granted && !e.quote.processing
      && q' == Inserted(e.admittedTable, e.id, e.quote)
  }

  /** The same quote, whatever became of its grant. */
  predicate SameQuote(a: Quote, b: Quote) {
    a.mac == b.mac && a.amount == b.amount && a.expiry == b.expiry && a.createdAt == b.createdAt
  }

  /** copy was taken from r earlier: since then r may have come into work, or its one grant may
      have been recorded. */
  predicate CopyOf(copy: Quote, r: Quote) {
    SameQuote(copy, r) && (copy.completedAt.Never? || copy.completedAt == r.completedAt)
  }

  predicate Redraws(e: Event, id: string) {
    e.Request? && e.id == id
  }

  predicate Happens(q: Table, e: Event, q': Table) {
    match e
    case Request(_, _, _, _, _, _, _, _, _) => Handles(q, e, q')
    case Claim(id) => q' == if id in q && !q[id].granted && !q[id].processing then Claimed(q, id) else q
    case Release(id) => q' == Released(q, id)
    case Finish(id, allotment, now) => q' == Finished(q, id, allotment, now)
    case Cleanup(now) => q' == Cleaned(q, now)
    case Delete(id, copy, now) =>
      ShouldDelete(copy, now) && (id in q ==> CopyOf(copy, q[id])) && q' == q - {id}
  }

  predicate IsRun(tables: seq<Table>, es: seq<Event>)
    decreases |es|
  {
    && |tables| == |es| + 1
    && (es == [] || (IsRun(tables[..|es|], es[..|es| - 1]) && Happens(tables[|es| - 1], es[|es| - 1], tables[|es|])))
  }

  lemma EventBounded(q: Table, e: Event, q': Table)
    requires Bounded(q) && Happens(q, e, q')
    ensures Bounded(q')
  {
    match e {
      case Request(mac, _, _, now, plan, mid, answer, id, quote) =>
        if Refused(e) { return; }
        SubTableBounded(q, Cleaned(q, now));
        AdmitsDrops(Cleaned(q, now), mid, mac, now, plan);
        if plan.admitted && answer.At? { InsertBounded(mid, id, quote); }
      case Claim(id) => if id in q { FlagsBounded(q, id, q[id].(processing := true)); }
      case Release(id) => if id in q { FlagsBounded(q, id, q[id].(processing := false)); }
      case Finish(id, allotment, now) => if id in q { FlagsBounded(q, id, Finished(q, id, allotment, now)[id]); }
      case Cleanup(now) => SubTableBounded(q, q');
      case Delete(_, _, _) => SubTableBounded(q, q');
    }
  }

  /** However many requests, claims, grants and clean-ups: never more than 128 records, and never
      more than 3 ungranted ones for one client. */
  lemma {:induction false} AlwaysBounded(tables: seq<Table>, es: seq<Event>)
    requires IsRun(tables, es) && Bounded(tables[0])
    ensures Bounded(tables[|es|])
    decreases |es|
  {
    if es == [] {
    } else {
      AlwaysBounded(tables[..|es|], es[..|es| - 1]);
      EventBounded(tables[|es| - 1], es[|es| - 1], tables[|es|]);
    }
  }

  // ------------------------------------------------------------ a quote that may be paid right now

  /** A record made at t0 for an invoice that was good then. */
  predicate MadeAt(r: Quote, t0: int) {
    && r.createdAt == At(t0)
    && (ExpiryTime(r).Never? || ExpiryTime(r).time >= t0)
    && (r.completedAt.Never? || r.completedAt.time >= t0)
  }

  predicate Soon(now: int, t0: int) { t0 <= now < t0 + EVICTION_MIN_AGE }

  /** What happens less than five minutes after t0. */
  predicate SoonAfter(e: Event, t0: int) {
    match e
    case Request(_, _, _, now, _, _, _, _, _) => Soon(now, t0)
    case Finish(_, _, now) => Soon(now, t0)
    case Cleanup(now) => Soon(now, t0)
    case Delete(_, _, now) => Soon(now, t0)
    case _ => true
  }

  lemma NotStaleYet(r: Quote, t0: int, now: int)
    requires MadeAt(r, t0) && Soon(now, t0)
    ensures !ShouldDelete(r, now) && !Evictable(r, now)
  {
  }

  lemma EventKeepsFresh(q: Table, e: Event, q': Table, id: string, t0: int)
    requires Bounded(q) && Happens(q, e, q') && SoonAfter(e, t0) && !Redraws(e, id)
    requires id in q && MadeAt(q[id], t0)
    ensures id in q' && MadeAt(q'[id], t0) && q'[id].mac == q[id].mac && q'[id].amount == q[id].amount
  {
    if e.Request? && !Refused(e) {
      NotStaleYet(q[id], t0, e.now);
      SubTableBounded(q, Cleaned(q, e.now));
      AdmitsDrops(Cleaned(q, e.now), e.admittedTable, e.mac, e.now, e.plan);
    } else if e.Cleanup? {
      NotStaleYet(q[id], t0, e.now);
    } else if e.Delete? && e.id == id {
      NotStaleYet(e.copy, t0, e.now);
    }
  }

  /** A quote a customer may be paying right now is never dropped: for five minutes its record
      survives every request, eviction, clean-up and grant, so that the payment is recognised. */
  lemma {:induction false} FreshQuoteSurvives(tables: seq<Table>, es: seq<Event>, id: string, t0: int)
    requires IsRun(tables, es) && Bounded(tables[0])
    requires forall i :: 0 <= i < |es| ==> SoonAfter(es[i], t0) && !Redraws(es[i], id)
    requires id in tables[0] && MadeAt(tables[0][id], t0)
    ensures id in tables[|es|] && MadeAt(tables[|es|][id], t0)
    ensures tables[|es|][id].mac == tables[0][id].mac && tables[|es|][id].amount == tables[0][id].amount
    decreases |es|
  {
    if es == [] {
    } else {
      FreshQuoteSurvives(tables[..|es|], es[..|es| - 1], id, t0);
      AlwaysBounded(tables[..|es|], es[..|es| - 1]);
      EventKeepsFresh(tables[|es| - 1], es[|es| - 1], tables[|es|], id, t0);
    }
  }

  /** The invoice of a quote not served and not in work counts from the quote's creation if its
      expiry is in seconds, and is a Unix time if it is too large for that; five minutes past it,
      and not before, the quote is stale, if half an hour has not made it so. */
  lemma InvoiceRunsOut(r: Quote, t0: int, now: int)
    requires r.createdAt == At(t0) && !r.processing && !r.granted && now < t0 + MAX_AGE
    ensures r.expiry == 0 ==> !ShouldDelete(r, now)
    ensures 0 < r.expiry <= 1_000_000_000 ==>
              (ShouldDelete(r, now) <==> now > t0 + r.expiry * 1000 + 5 * MINUTE)
    ensures 1_000_000_000 < r.expiry < 0x8000_0000_0000_0000 ==>
              (ShouldDelete(r, now) <==> now > r.expiry * 1000 + 5 * MINUTE)
  {
  }

  /** From five minutes on, and not before, a quote that is neither served nor in work may have to
      make room. */
  lemma EvictableFrom(r: Quote, t0: int, now: int)
    requires r.createdAt == At(t0)
    ensures Evictable(r, now) <==> !r.processing && !r.granted && now >= t0 + 5 * MINUTE
  {
  }

  // ------------------------------------------------------------ and one that is gone

  /** Half an hour old, or five minutes past its invoice. */
  predicate OutOfTime(r: Quote, now: int) {
    || (r.createdAt.At? && now >= r.createdAt.time + MAX_AGE)
    || (ExpiryTime(r).At? && now > ExpiryTime(r).time + EXPIRY_GRACE)
  }

  /** Served ten minutes ago or more. */
  predicate LongServed(r: Quote, now: int) {
    r.granted && r.completedAt.At? && now >= r.completedAt.time + SETTLED_RETENTION
  }

  /** The table is cleaned: by the janitor, or by a request on its way in. */
  predicate Sweeps(e: Event) {
    e.Cleanup? || (e.Request? && !Refused(e))
  }

  lemma AdmitsSubTable(q: Table, q': Table, mac: string, now: int, a: Admission)
    requires Admits(q, q', mac, now, a)
    ensures SubTable(q', q)
  {
    if !(|Active(q, mac)| >= MAX_PER_MAC && NoneEligible(q, now, mac)) {
      ReapedDrops(if a.first == [] then q else q - {a.first[0]}, a.reaped, q', now);
    }
  }

  lemma EventKeepsQuote(q: Table, e: Event, q': Table, id: string)
    requires Happens(q, e, q') && !Redraws(e, id)
    ensures id in q' ==> id in q && SameQuote(q'[id], q[id])
    ensures id in q' && Sweeps(e) ==> !ShouldDelete(q[id], e.now)
  {
    if e.Request? && !Refused(e) { AdmitsSubTable(Cleaned(q, e.now), e.admittedTable, e.mac, e.now, e.plan); }
  }

  /** While ids are not redrawn, whatever is on the table under id is the quote it began with, and
      what was gone at step k is gone. */
  lemma {:induction false} QuoteKept(tables: seq<Table>, es: seq<Event>, id: string, k: nat)
    requires IsRun(tables, es) && k <= |es|
    requires forall i :: k <= i < |es| ==> !Redraws(es[i], id)
    ensures id in tables[|es|] ==> id in tables[k] && SameQuote(tables[|es|][id], tables[k][id])
    decreases |es|
  {
    if k == |es| {
    } else {
      QuoteKept(tables[..|es|], es[..|es| - 1], id, k);
      EventKeepsQuote(tables[|es| - 1], es[|es| - 1], tables[|es|], id);
    }
  }

  lemma {:induction false} RunPrefix(tables: seq<Table>, es: seq<Event>, k: nat)
    requires IsRun(tables, es) && k <= |es|
    ensures IsRun(tables[..k + 1], es[..k])
    ensures k < |es| ==> Happens(tables[k], es[k], tables[k + 1])
    decreases |es|
  {
    if k == |es| {
      assert tables[..k + 1] == tables && es[..k] == es;
    } else {
      RunPrefix(tables[..|es|], es[..|es| - 1], k);
      assert tables[..|es|][..k + 1] == tables[..k + 1] && es[..|es| - 1][..k] == es[..k];
    }
  }

  lemma NeverBack(tables: seq<Table>, es: seq<Event>, id: string, k: nat)
    requires IsRun(tables, es) && k <= |es| && id !in tables[k]
    requires forall i :: k <= i < |es| ==> !Redraws(es[i], id)
    ensures id !in tables[|es|]
  {
    QuoteKept(tables, es, id, k);
  }

  /** A quote that has run out of time, or was served long ago, is gone for good after the first
      clean-up, the janitor's or a request's, that does not find it in work. */
  lemma StaleIsGone(tables: seq<Table>, es: seq<Event>, id: string, k: nat)
    requires IsRun(tables, es) && id in tables[0]
    requires forall i :: 0 <= i < |es| ==> !Redraws(es[i], id)
    requires k < |es| && Sweeps(es[k])
    requires id in tables[k] ==>
               && !tables[k][id].processing
               && (OutOfTime(tables[0][id], es[k].now) || LongServed(tables[k][id], es[k].now))
    ensures id !in tables[|es|]
  {
    RunPrefix(tables, es, k);
    if id in tables[k] {
      QuoteKept(tables[..k + 1], es[..k], id, 0);
      assert SameQuote(tables[k][id], tables[0][id]);
    }
    EventKeepsQuote(tables[k], es[k], tables[k + 1], id);
    NeverBack(tables, es, id, k + 1);
  }
}
