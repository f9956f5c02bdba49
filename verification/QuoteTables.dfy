/** The in-flight quote table as the program runs it: one map of records, changed in place by
    admission, eviction, clean-up and the lock regions of a grant. */
module QuoteTables {
  import opened Basics
  import opened Words
  import Q = LightningQuotes
  import G = LightningGrants

  datatype QuoteState = Unpaid | Paid | Issued

  datatype Grant = Applied | AlreadyHandled | NotFound | MintFailed | GateFailed

  datatype Answer =
    | InvalidMac | AmountIsZero | Unpriced | TooManyQuotes | MintBusyLocal | MintRefused
    | Invoice(id: string)

  /** What an amount comes to, if it can be priced. */
  type Price = uint64 -> Option<uint64>

  /** The amount access is granted for: what the mint issued now, or the quote's if it had before. */
  function AmountOf(r: Q.Quote, state: QuoteState, minted: Option<uint64>): uint64
    requires state == Paid ==> minted.Some?
  {
    if state == Paid then minted.value else r.amount
  }

  /** The table after one attempt to grant access, run without interruption. */
  function Granted(q: Q.Table, id: string, state: QuoteState, minted: Option<uint64>, price: Price, opens: bool,
                   now: int): (Q.Table, Grant)
  {
    if id !in q then (q, NotFound)
    else if q[id].granted || q[id].processing then (q, AlreadyHandled)
    else if state == Paid && minted.None? then (Q.Released(Q.Claimed(q, id), id), MintFailed)
    else
      var allotment := price(AmountOf(q[id], state, minted));
      if allotment.None? || !opens then (Q.Released(Q.Claimed(q, id), id), GateFailed)
      else (Q.Finished(Q.Claimed(q, id), id, allotment.value, now), Applied)
  }

  /** A failed attempt leaves the table as it found it, so the grant can be retried; an applied one
      leaves the same quote, granted now, with the allotment its amount comes to, and every other
      record as it was. */
  lemma GrantWrites(q: Q.Table, id: string, state: QuoteState, minted: Option<uint64>, price: Price, opens: bool,
                    now: int)
    ensures var (q', r) := Granted(q, id, state, minted, price, opens, now);
            && (r != Applied ==> q' == q)
            && (r == Applied ==>
                  && id in q && id in q' && Q.SameQuote(q'[id], q[id])
                  && q'[id].granted && !q'[id].processing && q'[id].completedAt == At(now)
                  && (state == Paid ==> minted.Some?)
                  && Some(q'[id].allotment) == price(if state == Paid then minted.value else q[id].amount)
                  && q'.Keys == q.Keys && forall x :: x in q && x != id ==> q'[x] == q[x])
  {
    if id in q && !q[id].processing {
      assert Q.Released(Q.Claimed(q, id), id) == q[id := q[id]] == q;
    }
  }

  /** What each attempt answers. */
  lemma GrantAnswers(q: Q.Table, id: string, state: QuoteState, minted: Option<uint64>, price: Price, opens: bool,
                     now: int)
    ensures var r := Granted(q, id, state, minted, price, opens, now).1;
            && (r == NotFound <==> id !in q)
            && (r == AlreadyHandled <==> id in q && (q[id].granted || q[id].processing))
            && (id in q && !q[id].granted && !q[id].processing ==>
                  && (r == MintFailed <==> state == Paid && minted.None?)
                  && (r == Applied <==> opens && (state == Paid ==> minted.Some?)
                                        && price(AmountOf(q[id], state, minted)).Some?))
  {
  }

  /** What a worker that comes to grant is told of the price and the gate. */
  function Told(p: G.Phase, price: Price, opens: bool): Option<uint64> {
    if p.Granting? && opens then price(p.amount) else None
  }

  /** The second half of an attempt: grant, and record or release. */
  lemma GrantsAndRecords(w: G.World, v: nat, id: string, amount: uint64, price: Price, opens: bool, now: int)
    requires G.At(w, v) == G.Granting(id, amount)
    ensures var w1 := G.Step(w, G.Grant(v, Told(G.At(w, v), price, opens)));
            var w2 := G.Step(w1, G.Record(v, now));
            var granted := opens && price(amount).Some?;
            && w2.quotes == (if granted then Q.Finished(w.quotes, id, price(amount).value, now)
                             else Q.Released(w.quotes, id))
            && G.At(w2, v) == G.Idle && G.Grants(w2, id) == G.Grants(w, id) + if granted then 1 else 0
  {
  }

  lemma NothingToDo(w: G.World, v: nat, minted: Option<uint64>, price: Price, opens: bool, now: int)
    requires G.At(w, v) == G.Idle
    ensures var w2 := G.Step(w, G.Mint(v, minted));
            var w3 := G.Step(w2, G.Grant(v, Told(G.At(w2, v), price, opens)));
            G.Step(w3, G.Record(v, now)) == w
  {
  }

  /** An uninterrupted attempt is a run of the lock regions of one worker: it leaves the table the
      run leaves, applies access exactly when the run does, and frees the worker. */
  lemma AttemptIsARun(w: G.World, v: nat, id: string, state: QuoteState, minted: Option<uint64>, price: Price,
                      opens: bool, now: int)
    requires G.At(w, v) == G.Idle
    ensures var (q', r) := Granted(w.quotes, id, state, minted, price, opens, now);
            var w1 := G.Step(w, G.Event.Claim(v, id, state == Paid));
            var w2 := G.Step(w1, G.Mint(v, minted));
            var w3 := G.Step(w2, G.Grant(v, Told(G.At(w2, v), price, opens)));
            var w4 := G.Step(w3, G.Record(v, now));
            && w4.quotes == q' && G.At(w4, v) == G.Idle
            && G.Grants(w4, id) == G.Grants(w, id) + if r == Applied then 1 else 0
  {
    var w1 := G.Step(w, G.Event.Claim(v, id, state == Paid));
    var w2 := G.Step(w1, G.Mint(v, minted));
    if G.At(w1, v) == G.Idle {
      NothingToDo(w1, v, minted, price, opens, now);
    } else if state == Paid && minted.None? {
      assert G.At(w2, v) == G.Idle;
      NothingToDo(w2, v, minted, price, opens, now);
    } else {
      GrantsAndRecords(w2, v, id, AmountOf(w.quotes[id], state, minted), price, opens, now);
    }
  }

  class QuoteTable {
    var quotes: Q.Table

    constructor ()
      ensures quotes == map[]
    {
      quotes := map[];
    }

    method CountActive(mac: string) returns (count: nat)
      ensures count == |Q.Active(quotes, mac)|
    {
      count := 0;
      var todo := quotes.Keys;
      ghost var counted: set<string> := {};
      while todo != {}
        invariant todo <= quotes.Keys
        invariant counted == set id | id in quotes && id !in todo && Q.IsActive(quotes[id], mac)
        invariant count == |counted|
        decreases todo
      {
        var id :| id in todo;
        if !quotes[id].granted && quotes[id].mac == mac {
          count := count + 1;
          counted := counted + {id};
        }
        todo := todo - {id};
      }
      assert counted == Q.Active(quotes, mac);
    }

    /** Drops the oldest eligible record, if there is one. */
    method EvictOldest(now: int, only: string) returns (found: bool, ghost id: string)
      modifies this
      ensures !found ==> quotes == old(quotes) && Q.NoneEligible(old(quotes), now, only)
      ensures found ==> Q.Oldest(old(quotes), id, now, only) && quotes == old(quotes) - {id}
    {
      var oldestID := "";
      found := false;
      var todo := quotes.Keys;
      while todo != {}
        invariant todo <= quotes.Keys
        invariant !found ==> forall x :: x in quotes && x !in todo ==> !Q.Eligible(quotes, x, now, only)
        invariant found ==> Q.Eligible(quotes, oldestID, now, only) && oldestID !in todo
        invariant found ==> forall x :: x in quotes && x !in todo && Q.Eligible(quotes, x, now, only) ==>
                              quotes[oldestID].createdAt.time <= quotes[x].createdAt.time
        decreases todo
      {
        var next :| next in todo;
        todo := todo - {next};
        if only != "" && quotes[next].mac != only { continue; }
        if !Q.Evictable(quotes[next], now) { continue; }
        if !found || quotes[next].createdAt.time < quotes[oldestID].createdAt.time {
          oldestID, found := next, true;
        }
      }
      id := oldestID;
      if found { quotes := quotes - {oldestID}; }
    }

    method AdmitLightningQuote(mac: string, now: int) returns (evicted: bool, admitted: bool, ghost a: Q.Admission)
      modifies this
      ensures Q.Admits(old(quotes), quotes, mac, now, a)
      ensures admitted == a.admitted && (evicted <==> a.first != [] || a.reaped != [])
    {
      ghost var first: seq<string> := [];
      evicted := false;
      var active := CountActive(mac);
      if active >= Q.MAX_PER_MAC {
        ghost var id;
        evicted, id := EvictOldest(now, mac);
        if !evicted { return false, false, Q.Admission([], [], false); }
        first := [id];
      }
      ghost var reaped;
      var more;
      more, reaped := Reap(now);
      evicted := evicted || more;
      admitted := |quotes| < Q.MAX_GLOBAL;
      a := Q.Admission(first, reaped, admitted);
    }

    /** Evicts down to the watermark, as far as eligible records last. */
    method Reap(now: int) returns (evicted: bool, ghost gone: seq<string>)
      modifies this
      ensures Q.Reaped(old(quotes), gone, quotes, now)
      ensures |quotes| >= Q.WATERMARK ==> Q.NoneEligible(quotes, now, "")
      ensures evicted <==> gone != []
    {
      gone := [];
      evicted := false;
      while |quotes| >= Q.WATERMARK
        invariant Q.Reaped(old(quotes), gone, quotes, now)
        invariant evicted <==> gone != []
        decreases |quotes|
      {
        ghost var q0 := quotes;
        var found, id := EvictOldest(now, "");
        if !found { return; }
        assert quotes.Keys == q0.Keys - {id};
        ReapedMore(old(quotes), gone, q0, id, now);
        gone := gone + [id];
        evicted := true;
      }
    }

    method CleanupStaleLightningQuotes(now: int) returns (deleted: bool)
      modifies this
      ensures quotes == Q.Cleaned(old(quotes), now)
      ensures deleted <==> quotes != old(quotes)
    {
      deleted := false;
      var todo := quotes.Keys;
      while todo != {}
        invariant todo <= quotes.Keys
        invariant quotes == map id | id in old(quotes)
                    && (id in todo || !Q.ShouldDelete(old(quotes)[id], now)) :: old(quotes)[id]
        invariant deleted <==> exists id :: id in old(quotes) && id !in quotes
        decreases todo
      {
        var id :| id in todo;
        ghost var q0 := quotes;
        if Q.ShouldDelete(quotes[id], now) {
          quotes := quotes - {id};
          deleted := true;
          assert id in old(quotes) && id !in quotes;
        }
        todo := todo - {id};
      }
    }

    /** A request for an invoice: `priced` tells whether the amount can be priced, `budget` is our
        own budget toward the mint, `answer` when the mint answered, `drawn` the id it drew. */
    method RequestLightningInvoice(mac: string, amount: uint64, priced: bool, now: int, budget: bool,
                                   answer: Instant, drawn: string, expiry: uint64)
      returns (r: Answer, ghost e: Q.Event)
      modifies this
      ensures e.Request? && e.mac == mac && e.amount == amount && e.priced == priced && e.now == now
      ensures Q.Happens(old(quotes), e, quotes)
      ensures Q.Refused(e) ==>
                r == (if mac == "" then InvalidMac else if amount == 0 then AmountIsZero else Unpriced)
      ensures !Q.Refused(e) ==>
                r == (if !e.plan.admitted then TooManyQuotes else if !budget then MintBusyLocal
                      else if answer.Never? then MintRefused else Invoice(drawn))
      ensures !r.Invoice? ==> Q.SubTable(quotes, old(quotes))
      ensures r.Invoice? ==>
                drawn in quotes && quotes[drawn] == Q.Quote(mac, amount, expiry, 0, answer, Never, false, false)
    {
      var record := Q.Quote(mac, amount, expiry, 0, answer, Never, false, false);
      e := Q.Request(mac, amount, priced, now, Q.Admission([], [], false), quotes, Never, drawn, record);
      if mac == "" { return InvalidMac, e; }
      if amount == 0 { return AmountIsZero, e; }
      if !priced { return Unpriced, e; }
      var _ := CleanupStaleLightningQuotes(now);
      var evicted, admitted, plan := AdmitLightningQuote(mac, now);
      ghost var made := quotes;
      MadeSubTable(old(quotes), made, mac, now, plan);
      e := Q.Request(mac, amount, priced, now, plan, made, if budget then answer else Never, drawn, record);
      if !admitted { return TooManyQuotes, e; }
      if !budget { return MintBusyLocal, e; }
      if answer.Never? { return MintRefused, e; }
      quotes := quotes[drawn := record];
      return Invoice(drawn), e;
    }

    /** The three lock regions of a grant, one after the other. */
    method EnsureLightningAccessGranted(id: string, state: QuoteState, minted: Option<uint64>, price: Price,
                                        opens: bool, now: int) returns (r: Grant)
      modifies this
      ensures (quotes, r) == Granted(old(quotes), id, state, minted, price, opens, now)
    {
      if id !in quotes { return NotFound; }
      if quotes[id].granted || quotes[id].processing { return AlreadyHandled; }
      quotes := quotes[id := quotes[id].(processing := true)];
      var amountToGrant := quotes[id].amount;
      if state == Paid {
        if minted.None? {
          if id in quotes { quotes := quotes[id := quotes[id].(processing := false)]; }
          return MintFailed;
        }
        amountToGrant := minted.value;
      }
      var allotment := price(amountToGrant);
      if allotment.None? || !opens {
        if id in quotes { quotes := quotes[id := quotes[id].(processing := false)]; }
        return GateFailed;
      }
      if id in quotes {
        quotes := quotes[id := quotes[id].(processing := false, granted := true, allotment := allotment.value,
                                           completedAt := At(now))];
      }
      return Applied;
    }
  }

  lemma {:induction false} ReapedMore(q: Q.Table, gone: seq<string>, q1: Q.Table, id: string, now: int)
    requires Q.Reaped(q, gone, q1, now) && |q1| >= Q.WATERMARK && Q.Oldest(q1, id, now, "")
    ensures Q.Reaped(q, gone + [id], q1 - {id}, now)
    decreases |gone|
  {
    if gone == [] {
      assert (gone + [id])[1..] == [];
    } else {
      assert (gone + [id])[1..] == gone[1..] + [id];
      ReapedMore(q - {gone[0]}, gone[1..], q1, id, now);
    }
  }

  /** Cleaning and admitting only take away. */
  lemma MadeSubTable(q: Q.Table, made: Q.Table, mac: string, now: int, a: Q.Admission)
    requires Q.Admits(Q.Cleaned(q, now), made, mac, now, a)
    ensures Q.SubTable(made, q)
  {
    Q.AdmitsSubTable(Q.Cleaned(q, now), made, mac, now, a);
  }
}
