/** What runs of purchases, rotations, sweeps and retirements can do to one session: its history
    only grows, its terms change only by purchase, and a ticket moves it and nothing else. */
module SessionRuns {
  import opened Basics
  import opened Words
  import opened Sessions
  import opened SessionMeter

  // ------------------------------------------------------------ one session over time

  /** The attachments of before are still there, each with the readings it had, or more. */
  predicate Grows(t: seq<seq<uint64>>, t': seq<seq<uint64>>) {
    |t| <= |t'| && forall k :: 0 <= k < |t| ==> t[k] <= t'[k]
  }

  lemma {:induction false} PeakGrows(r: seq<uint64>, r': seq<uint64>)
    requires r <= r'
    ensures Peak(r) <= Peak(r')
    decreases |r'|
  {
    if |r| == |r'| {
      assert r == r';
    } else {
      PeakGrows(r, r'[..|r'| - 1]);
    }
  }

  lemma {:induction false} TotalGrows(t: seq<seq<uint64>>, t': seq<seq<uint64>>)
    requires Grows(t, t')
    ensures Total(t) <= Total(t')
    decreases |t'|
  {
    if t' == [] {
    } else if |t| < |t'| {
      TotalGrows(t, t'[..|t'| - 1]);
    } else {
      TotalGrows(t[..|t| - 1], t'[..|t'| - 1]);
      PeakGrows(t[|t| - 1], t'[|t'| - 1]);
    }
  }

  predicate SameTerms(s: Session, s': Session) {
    s'.allotment == s.allotment && s'.start == s.start && s'.metric == s.metric
  }

  /** The record of session i, wherever it is kept. */
  predicate IsAt(w: World, i: nat, mac: string) {
    mac in w.sessions && w.sessions[mac].id == i
  }

  predicate Alive(w: World, i: nat) {
    exists mac :: mac in w.sessions && w.sessions[mac].id == i
  }

  /** What a step from w to w' leaves of session i, if it leaves it: its history, a handle once
      drawn, and, unless the step is a purchase at its address, its terms. */
  predicate Continues(w: World, w': World, e: Event, i: nat, mac: string, mac': string) {
    && IsAt(w, i, mac) && IsAt(w', i, mac')
    && var s, s' := w.sessions[mac], w'.sessions[mac'];
       && Grows(s.trail, s'.trail)
       && (s.handle != "" ==> s'.handle == s.handle)
       && s'.metric == s.metric
       && (SameTerms(s, s') || (e.PurchaseEvent? && e.mac == mac))
       && (mac' != mac ==> e.RebindEvent? && e.mac == mac')
  }

  lemma NoteGrows(trail: seq<seq<uint64>>, reading: uint64)
    ensures Grows(trail, Note(trail, reading))
  {
  }

  lemma MovedGrows(s: Session, reading: Option<uint64>)
    ensures Grows(s.trail, Moved(s, reading).trail)
  {
    if reading.Some? { NoteGrows(s.trail, reading.value); }
  }

  lemma GrowsSame(t: seq<seq<uint64>>)
    ensures Grows(t, t)
  {
  }

  /** Every record of w' is a record of w, at the same address. */
  predicate OnlyDrops(w: World, w': World) {
    forall m :: m in w'.sessions ==> m in w.sessions && w'.sessions[m] == w.sessions[m]
  }

  lemma DropContinues(w: World, w': World, e: Event, i: nat, mac: string, mac': string)
    requires Inv(w) && IsAt(w, i, mac) && IsAt(w', i, mac') && OnlyDrops(w, w')
    ensures Continues(w, w', e, i, mac, mac')
  {
    GrowsSame(w.sessions[mac].trail);
  }

  lemma PurchaseContinues(w: World, e: Event, i: nat, mac: string, mac': string)
    requires Inv(w) && e.PurchaseEvent? && IsAt(w, i, mac) && IsAt(Step(w, e), i, mac')
    ensures Continues(w, Step(w, e), e, i, mac, mac')
  {
    assert SessionOk(w, mac);
    GrowsSame(w.sessions[mac].trail);
  }

  lemma IssueContinues(w: World, e: Event, i: nat, mac: string, mac': string)
    requires Inv(w) && e.IssueEvent? && IsAt(w, i, mac) && IsAt(Step(w, e), i, mac')
    ensures Continues(w, Step(w, e), e, i, mac, mac')
  {
    GrowsSame(w.sessions[mac].trail);
  }

  lemma EnforceContinues(w: World, e: Event, i: nat, mac: string, mac': string)
    requires Inv(w) && e.EnforceEvent? && IsAt(w, i, mac) && IsAt(Step(w, e), i, mac')
    ensures Continues(w, Step(w, e), e, i, mac, mac')
  {
    GrowsSame(w.sessions[mac].trail);
    if e.reading.Some? { NoteGrows(w.sessions[mac].trail, e.reading.value); }
  }

  lemma RebindContinues(w: World, e: Event, i: nat, mac: string, mac': string)
    requires Inv(w) && e.RebindEvent? && IsAt(w, i, mac) && IsAt(Step(w, e), i, mac')
    ensures Continues(w, Step(w, e), e, i, mac, mac')
  {
    var (w', r) := Rebind(w, e.ticket, e.mac, e.now, e.probe, e.reading, e.gateOk);
    if r.Ok? {
      RebindMovesItsSession(w, e.ticket, e.mac, e.now, e.probe, e.reading, e.gateOk);
      GrowsSame(w.sessions[mac].trail);
    } else {
      FailedRebindMovesNothing(w, e.ticket, e.mac, e.now, e.probe, e.reading, e.gateOk);
      DropContinues(w, w', e, i, mac, mac');
    }
  }

  lemma StepContinues(w: World, e: Event, i: nat, mac: string, mac': string)
    requires Inv(w) && Allowed(w, e) && IsAt(w, i, mac) && IsAt(Step(w, e), i, mac')
    ensures Continues(w, Step(w, e), e, i, mac, mac')
  {
    match e {
      case PurchaseEvent(_, _, _, _, _) => PurchaseContinues(w, e, i, mac, mac');
      case IssueEvent(_, _, _, _, _) => IssueContinues(w, e, i, mac, mac');
      case RebindEvent(_, _, _, _, _, _) => RebindContinues(w, e, i, mac, mac');
      case VerifyEvent(_, _) => DropContinues(w, Step(w, e), e, i, mac, mac');
      case EnforceEvent(_, _, _) => EnforceContinues(w, e, i, mac, mac');
      case RetireEvent(_, _) => DropContinues(w, Step(w, e), e, i, mac, mac');
      case LookupEvent(_, _) => DropContinues(w, Step(w, e), e, i, mac, mac');
    }
  }

  /** Every record of w' is one of w's sessions or a new one. */
  predicate NoStranger(w: World, w': World) {
    forall mac :: mac in w'.sessions ==>
      w'.sessions[mac].id == w.nextId || exists m :: m in w.sessions && w.sessions[m].id == w'.sessions[mac].id
  }

  lemma RebindBringsNone(w: World, e: Event)
    requires e.RebindEvent?
    ensures NoStranger(w, Step(w, e)) && Step(w, e).nextId == w.nextId
  {
  }

  lemma StepBringsNone(w: World, e: Event)
    ensures NoStranger(w, Step(w, e)) && Step(w, e).nextId >= w.nextId
  {
    match e {
      case RebindEvent(_, _, _, _, _, _) => RebindBringsNone(w, e);
      case _ =>
    }
  }

  /** A session that is gone stays gone; only a purchase makes a new one. */
  lemma StepKeepsDead(w: World, e: Event, i: nat)
    requires Inv(w) && i < w.nextId && !Alive(w, i)
    ensures i < Step(w, e).nextId && !Alive(Step(w, e), i)
  {
    StepBringsNone(w, e);
  }

  /** The step is a purchase at the address where session i is. */
  predicate Buys(w: World, e: Event, i: nat) {
    e.PurchaseEvent? && IsAt(w, i, e.mac)
  }

  predicate NeverBought(w: World, es: seq<Event>, i: nat) {
    es == [] || (NeverBought(w, es[..|es| - 1], i) && !Buys(Run(w, es[..|es| - 1]), es[|es| - 1], i))
  }

  /** Over any run a session that is still alive has kept its handle and its history: its total
      use, through any number of rotations, rolled-back rotations and counter resets, never
      decreased, and unless a purchase was made at its address its terms are what they were. */
  lemma {:induction false} RunContinues(w: World, es: seq<Event>, i: nat, mac: string, mac': string)
    requires Inv(w) && AllowedRun(w, es) && IsAt(w, i, mac) && IsAt(Run(w, es), i, mac')
    ensures var s, s' := w.sessions[mac], Run(w, es).sessions[mac'];
            && Grows(s.trail, s'.trail)
            && Total(s.trail) <= Total(s'.trail)
            && (s.handle != "" ==> s'.handle == s.handle)
            && (NeverBought(w, es, i) ==> SameTerms(s, s'))
    decreases |es|
  {
    var s, s' := w.sessions[mac], Run(w, es).sessions[mac'];
    if es == [] {
      assert mac == mac';
    } else {
      var m := AliveBefore(w, es, i, mac, mac');
      RunContinues(w, es[..|es| - 1], i, mac, m);
      StepContinues(Run(w, es[..|es| - 1]), es[|es| - 1], i, m, mac');
    }
    TotalGrows(s.trail, s'.trail);
  }

  /** A session alive after a run was alive before its last step. */
  lemma AliveBefore(w: World, es: seq<Event>, i: nat, mac: string, mac': string) returns (m: string)
    requires es != [] && Inv(w) && AllowedRun(w, es) && IsAt(w, i, mac) && IsAt(Run(w, es), i, mac')
    ensures IsAt(Run(w, es[..|es| - 1]), i, m) && Inv(Run(w, es[..|es| - 1]))
  {
    var mid := Run(w, es[..|es| - 1]);
    RunKeeps(w, es[..|es| - 1]);
    IdsGrow(w, es[..|es| - 1]);
    assert SessionOk(w, mac);
    if !Alive(mid, i) {
      StepKeepsDead(mid, es[|es| - 1], i);
      assert false;
    }
    m :| m in mid.sessions && mid.sessions[m].id == i;
  }

  /** What a step adds to the allotment of session i: the amount of a purchase whose gate opened,
      made at the address of the session while it was not spent. */
  function Credit(w: World, e: Event, i: nat): nat {
    if e.PurchaseEvent? && e.mac in w.sessions && w.sessions[e.mac].id == i && !HasExpired(w.sessions[e.mac], e.now)
       && Purchase(w, e.mac, e.metric, e.amount, e.now, e.gateOk).1.Ok?
    then e.amount else 0
  }

  function Credits(w: World, es: seq<Event>, i: nat): nat {
    if es == [] then 0
    else Credits(w, es[..|es| - 1], i) + Credit(Run(w, es[..|es| - 1]), es[|es| - 1], i)
  }

  function AllotmentAt(w: World, mac: string): uint64 {
    if mac in w.sessions then w.sessions[mac].allotment else 0
  }

  /** Session i has been credited with `credits` since it had the allotment `before`. */
  predicate Credited(w: World, mac: string, before: uint64, credits: nat) {
    AllotmentAt(w, mac) == Wrap64(before + credits)
  }

  lemma PurchaseAllotment(w: World, e: Event, i: nat, mac: string, mac': string)
    requires Inv(w) && e.PurchaseEvent? && IsAt(w, i, mac) && IsAt(Step(w, e), i, mac')
    ensures Credited(Step(w, e), mac', AllotmentAt(w, mac), Credit(w, e, i))
  {
    assert SessionOk(w, mac);
    NoneMore(AllotmentAt(w, mac));
  }

  lemma NoneMore(a: uint64)
    ensures Wrap64(a + 0) == a
  {
  }

  lemma StepAllotment(w: World, e: Event, i: nat, mac: string, mac': string)
    requires Inv(w) && Allowed(w, e) && IsAt(w, i, mac) && IsAt(Step(w, e), i, mac')
    ensures Credited(Step(w, e), mac', AllotmentAt(w, mac), Credit(w, e, i))
  {
    if e.PurchaseEvent? {
      PurchaseAllotment(w, e, i, mac, mac');
    } else {
      StepContinues(w, e, i, mac, mac');
      assert Credit(w, e, i) == 0 && AllotmentAt(Step(w, e), mac') == AllotmentAt(w, mac);
      NoneMore(AllotmentAt(w, mac));
    }
  }

  lemma NothingCredited(w: World, mac: string)
    ensures Credited(w, mac, AllotmentAt(w, mac), 0)
  {
  }

  lemma MoreCredited(w: World, w': World, mac: string, mac': string, before: uint64,
                     credits: nat, more: nat, all: nat)
    requires Credited(w, mac, before, credits) && Credited(w', mac', AllotmentAt(w, mac), more)
    requires all == credits + more
    ensures Credited(w', mac', before, all)
  {
    WrapAdd(before + credits, more);
  }

  lemma LastAllotment(w: World, es: seq<Event>, i: nat, m: string, mac': string, before: uint64)
    requires es != [] && AllowedRun(w, es) && Inv(Run(w, es[..|es| - 1]))
    requires IsAt(Run(w, es[..|es| - 1]), i, m) && IsAt(Run(w, es), i, mac')
    requires Credited(Run(w, es[..|es| - 1]), m, before, Credits(w, es[..|es| - 1], i))
    ensures Credited(Run(w, es), mac', before, Credits(w, es, i))
  {
    var mid, e := Run(w, es[..|es| - 1]), es[|es| - 1];
    StepAllotment(mid, e, i, m, mac');
    MoreCredited(mid, Run(w, es), m, mac', before, Credits(w, es[..|es| - 1], i), Credit(mid, e, i), Credits(w, es, i));
  }

  /** And its allotment grew by exactly what was bought for it: no rotation, roll-back, sweep or
      retirement ever adds to it or takes from it. */
  lemma {:induction false} RunAllotment(w: World, es: seq<Event>, i: nat, mac: string, mac': string)
    requires Inv(w) && AllowedRun(w, es) && IsAt(w, i, mac) && IsAt(Run(w, es), i, mac')
    ensures Credited(Run(w, es), mac', AllotmentAt(w, mac), Credits(w, es, i))
    decreases |es|
  {
    if es == [] {
      assert mac == mac';
      NothingCredited(w, mac);
    } else {
      var m := AliveBefore(w, es, i, mac, mac');
      RunAllotment(w, es[..|es| - 1], i, mac, m);
      LastAllotment(w, es, i, m, mac', AllotmentAt(w, mac));
    }
  }

  lemma {:induction false} IdsGrow(w: World, es: seq<Event>)
    ensures w.nextId <= Run(w, es).nextId
  {
    if es == [] {
    } else {
      IdsGrow(w, es[..|es| - 1]);
    }
  }

  /** So while the true total fits a 64-bit counter, the program's meter is that total, and it
      never walks backwards. */
  lemma MeterNeverDecreases(w: World, es: seq<Event>, i: nat, mac: string, mac': string)
    requires Inv(w) && AllowedRun(w, es) && IsAt(w, i, mac) && IsAt(Run(w, es), i, mac')
    requires FitsUint64(Total(Run(w, es).sessions[mac'].trail))
    ensures Meter(Run(w, es).sessions[mac']) == Total(Run(w, es).sessions[mac'].trail)
    ensures Meter(w.sessions[mac]) == Total(w.sessions[mac].trail)
    ensures Meter(w.sessions[mac]) <= Meter(Run(w, es).sessions[mac'])
  {
    RunContinues(w, es, i, mac, mac');
    RunKeeps(w, es);
    assert SessionOk(w, mac) && SessionOk(Run(w, es), mac');
    MeteredTotal(w.sessions[mac]);
    MeteredTotal(Run(w, es).sessions[mac']);
  }

  /** A purchase extends the session at its address exactly when that session is not spent; a
      time session that ran out is never extended but replaced by a new one. */
  lemma PurchaseExtendsIff(w: World, mac: string, metric: Metric, amount: uint64, now: int, gateOk: bool)
    requires Inv(w) && mac in w.sessions && Purchase(w, mac, metric, amount, now, gateOk).1.Ok?
    ensures var s, (w', r) := w.sessions[mac], Purchase(w, mac, metric, amount, now, gateOk);
            && mac in w'.sessions && w'.sessions[mac] == r.value
            && (r.value.id == s.id <==> !(s.metric == Milliseconds && now >= s.start * 1000 + s.allotment))
            && (r.value.id == s.id ==> r.value.trail == s.trail && r.value.handle == s.handle)
            && (r.value.id != s.id ==> r.value.allotment == amount && Meter(r.value) == 0 && r.value.handle == "")
  {
    assert SessionOk(w, mac);
  }

  // ------------------------------------------------------------ what a ticket can move

  /** A handle, once drawn for a session, is never drawn for another. */
  lemma StepKeepsOwner(w: World, e: Event, h: string)
    requires Inv(w) && Allowed(w, e) && h in w.owner
    ensures h in Step(w, e).owner && Step(w, e).owner[h] == w.owner[h]
  {
    if e.IssueEvent? && e.mac in w.sessions { assert SessionOk(w, e.mac); }
  }

  lemma {:induction false} RunKeepsOwner(w: World, es: seq<Event>, h: string)
    requires Inv(w) && AllowedRun(w, es) && h in w.owner
    ensures h in Run(w, es).owner && Run(w, es).owner[h] == w.owner[h]
  {
    if es == [] {
    } else {
      RunKeepsOwner(w, es[..|es| - 1], h);
      RunKeeps(w, es[..|es| - 1]);
      StepKeepsOwner(Run(w, es[..|es| - 1]), es[|es| - 1], h);
    }
  }

  /** A successful rebind moves one session, the one its handle was drawn for, from the address
      it was attached to; it keeps the terms and carries the whole meter; only the destination's
      own session, if any, is lost; and the previous address was not authenticated. */
  lemma RebindMovesItsSession(w: World, ticket: Ticket, mac: string, now: int, probe: Probe,
                              reading: Option<uint64>, gateOk: bool)
    requires Inv(w) && Rebind(w, ticket, mac, now, probe, reading, gateOk).1.Ok?
    ensures var (w', r) := Rebind(w, ticket, mac, now, probe, reading, gateOk);
            && ticket.Signed? && ticket.handle in w.attachments && ticket.handle in w.owner
            && var previous := w.attachments[ticket.handle].mac;
               && previous in w.sessions && w.sessions[previous].handle == ticket.handle
               && w.sessions[previous].id == w.owner[ticket.handle] == r.value.id
               && mac in w'.sessions && w'.sessions[mac] == r.value
               && r.value.handle == ticket.handle && SameTerms(w.sessions[previous], r.value)
               && Grows(w.sessions[previous].trail, r.value.trail)
               && w'.sessions.Keys == w.sessions.Keys - {previous} + {mac}
               && (forall m :: m in w'.sessions && m != mac ==> w'.sessions[m] == w.sessions[m])
               && w'.attachments[ticket.handle].mac == mac
               && (previous != mac ==> probe != Authenticated)
  {
    var previous := w.attachments[ticket.handle].mac;
    assert SessionOk(w, previous);
    MovedGrows(w.sessions[previous], reading);
  }

  /** A rebind that fails moves nothing; at worst, when the gate does not open, the session at
      the destination is dropped, and no other. */
  lemma FailedRebindMovesNothing(w: World, ticket: Ticket, mac: string, now: int, probe: Probe,
                                 reading: Option<uint64>, gateOk: bool)
    requires Inv(w) && Rebind(w, ticket, mac, now, probe, reading, gateOk).1.Err?
    ensures var (w', r) := Rebind(w, ticket, mac, now, probe, reading, gateOk);
            && OnlyDrops(w, w')
            && (forall m :: m in w.sessions && m != mac ==> m in w'.sessions)
            && (r.error != GateFailed ==> w'.sessions == w.sessions)
            && (r.error == GateFailed ==> mac !in w'.sessions)
            && (forall h :: h in w'.attachments ==> h in w.attachments && w'.attachments[h].mac == w.attachments[h].mac)
  {
    var (w1, found) := FindAttachment(w, ticket, now);
    assert w1.sessions == w.sessions && SubMap(w1.attachments, w.attachments);
    if found.Ok? {
      var previous := w1.attachments[found.value].mac;
      if previous != mac && previous in w1.sessions {
        MoveRollsBack(w1, found.value, previous, mac, now, reading);
      }
    }
  }

  lemma MoveRollsBack(w: World, handle: string, previous: string, mac: string, now: int, reading: Option<uint64>)
    requires handle in w.attachments && previous in w.sessions && previous != mac
    ensures forall gateOk :: var (w', r) := Move(w, handle, previous, mac, now, reading, gateOk);
              r.Err? ==>
                && r.error == GateFailed && w'.sessions == w.sessions - {mac}
                && w'.attachments.Keys == w.attachments.Keys
                && forall h :: h in w.attachments ==> w'.attachments[h].mac == w.attachments[h].mac
  {
    assert (w.sessions - {mac})[previous := w.sessions[previous]] == w.sessions - {mac};
  }

  /** A ticket issued for a session can only ever move that session, whatever happened since:
      expiry, retirement, or a new purchase at the same address. */
  lemma TicketMovesOnlyItsSession(w: World, issue: Event, es: seq<Event>, expiresAt: int, mac: string,
                                  now: int, probe: Probe, reading: Option<uint64>, gateOk: bool)
    requires Inv(w) && Allowed(w, issue) && issue.IssueEvent?
    requires IssueTicket(w, issue.mac, issue.drawn, issue.kept, issue.now, issue.ttl).1.Ok?
    requires AllowedRun(Step(w, issue), es)
    requires var h := IssueTicket(w, issue.mac, issue.drawn, issue.kept, issue.now, issue.ttl).1.value.handle;
             Rebind(Run(Step(w, issue), es), Signed(h, expiresAt), mac, now, probe, reading, gateOk).1.Ok?
    ensures var h := IssueTicket(w, issue.mac, issue.drawn, issue.kept, issue.now, issue.ttl).1.value.handle;
            var r := Rebind(Run(Step(w, issue), es), Signed(h, expiresAt), mac, now, probe, reading, gateOk).1;
            r.value.id == w.sessions[issue.mac].id
  {
    var h := IssueTicket(w, issue.mac, issue.drawn, issue.kept, issue.now, issue.ttl).1.value.handle;
    StepKeeps(w, issue);
    RunKeepsOwner(Step(w, issue), es, h);
    RunKeeps(Step(w, issue), es);
    RebindMovesItsSession(Run(Step(w, issue), es), Signed(h, expiresAt), mac, now, probe, reading, gateOk);
  }

  // ------------------------------------------------------------ what a ticket keeps claimable

  /** A session whose ticket is good until `horizon`, attached where it is delivered. */
  predicate Claimable(w: World, mac: string, handle: string, horizon: int) {
    && handle != "" && mac in w.sessions && handle in w.attachments
    && w.sessions[mac].handle == handle && w.sessions[mac].horizon == horizon
    && w.attachments[handle].mac == mac && w.attachments[handle].expiresAt == horizon
  }

  lemma IssuedIsClaimable(w: World, mac: string, drawn: string, kept: map<string, Attachment>, now: int, ttl: int)
    requires drawn != "" && IssueTicket(w, mac, drawn, kept, now, ttl).1.Ok?
    ensures var (w', r) := IssueTicket(w, mac, drawn, kept, now, ttl);
            Claimable(w', mac, r.value.handle, r.value.expiresAt)
  {
  }

  predicate Names(ticket: Ticket, handle: string) {
    ticket.Signed? && ticket.handle == handle
  }

  /** The client at `mac` is gone. Its record may be up for retirement and its ticket tried in
      vain, before the ticket ends, and a time session looked up before it runs out; other clients
      buy, take out tickets - as long as the sweep of the store keeps this one's attachment - move
      among themselves, are swept and retired at any time. */
  predicate ClientGone(w: World, e: Event, mac: string, handle: string, horizon: int) {
    match e
    case PurchaseEvent(m, _, _, _, _) => m != mac
    case IssueEvent(m, _, kept, _, _) => m != mac && handle in kept
    case RebindEvent(ticket, m, now, probe, reading, gateOk) =>
      m != mac && (Names(ticket, handle) ==>
                     Unix(now) < horizon && Rebind(w, ticket, m, now, probe, reading, gateOk).1.Err?)
    case VerifyEvent(ticket, now) => Names(ticket, handle) ==> Unix(now) < horizon
    case EnforceEvent(m, _, _) => m == mac ==> mac in w.sessions && w.sessions[mac].metric != Bytes
    case RetireEvent(m, now) => m == mac ==> Unix(now) < horizon
    case LookupEvent(m, now) => m == mac ==> mac in w.sessions && !HasExpired(w.sessions[mac], now)
  }

  predicate ClientGoneRun(w: World, es: seq<Event>, mac: string, handle: string, horizon: int) {
    es == [] || (ClientGoneRun(w, es[..|es| - 1], mac, handle, horizon)
                 && ClientGone(Run(w, es[..|es| - 1]), es[|es| - 1], mac, handle, horizon))
  }

  /** The claim stands, and on the same session. */
  predicate StillClaims(w: World, mac: string, handle: string, horizon: int, s: Session) {
    Claimable(w, mac, handle, horizon) && w.sessions[mac] == s
  }

  lemma IssueElsewhere(w: World, e: Event, mac: string, handle: string, horizon: int, s: Session)
    requires Inv(w) && Allowed(w, e) && e.IssueEvent? && ClientGone(w, e, mac, handle, horizon)
    requires StillClaims(w, mac, handle, horizon, s)
    ensures StillClaims(Step(w, e), mac, handle, horizon, s)
  {
    assert SessionOk(w, mac);
    if e.mac in w.sessions { IssueApart(w, e.mac, mac, e.drawn); }
  }

  lemma RebindElsewhere(w: World, e: Event, mac: string, handle: string, horizon: int, s: Session)
    requires e.RebindEvent? && ClientGone(w, e, mac, handle, horizon) && StillClaims(w, mac, handle, horizon, s)
    ensures StillClaims(Step(w, e), mac, handle, horizon, s)
  {
    var (w1, found) := FindAttachment(w, e.ticket, e.now);
    assert StillClaims(w1, mac, handle, horizon, s);
    if found.Ok? && w1.attachments[found.value].mac in w1.sessions && w1.attachments[found.value].mac != e.mac
       && w1.sessions[w1.attachments[found.value].mac].handle == found.value && e.probe != Authenticated {
      MoveElsewhere(w1, found.value, e, mac, handle, horizon, s);
    }
  }

  lemma MoveElsewhere(w: World, moved: string, e: Event, mac: string, handle: string, horizon: int, s: Session)
    requires e.RebindEvent? && StillClaims(w, mac, handle, horizon, s) && e.mac != mac
    requires moved in w.attachments && w.attachments[moved].mac in w.sessions
    requires w.sessions[w.attachments[moved].mac].handle == moved
             && (moved == handle ==> Move(w, moved, w.attachments[moved].mac, e.mac, e.now, e.reading, e.gateOk).1.Err?)
    ensures StillClaims(Move(w, moved, w.attachments[moved].mac, e.mac, e.now, e.reading, e.gateOk).0,
                        mac, handle, horizon, s)
  {
  }

  lemma GoneStep(w: World, e: Event, mac: string, handle: string, horizon: int, s: Session)
    requires Inv(w) && Allowed(w, e) && ClientGone(w, e, mac, handle, horizon)
    requires StillClaims(w, mac, handle, horizon, s)
    ensures StillClaims(Step(w, e), mac, handle, horizon, s)
  {
    match e {
      case IssueEvent(_, _, _, _, _) => IssueElsewhere(w, e, mac, handle, horizon, s);
      case RebindEvent(_, _, _, _, _, _) => RebindElsewhere(w, e, mac, handle, horizon, s);
      case _ =>
    }
  }

  lemma {:induction false} GoneKeepsClaim(w: World, es: seq<Event>, mac: string, handle: string, horizon: int)
    requires Inv(w) && AllowedRun(w, es) && ClientGoneRun(w, es, mac, handle, horizon)
    requires Claimable(w, mac, handle, horizon)
    ensures StillClaims(Run(w, es), mac, handle, horizon, w.sessions[mac])
    decreases |es|
  {
    if es == [] {
    } else {
      GoneKeepsClaim(w, es[..|es| - 1], mac, handle, horizon);
      RunKeeps(w, es[..|es| - 1]);
      GoneStep(Run(w, es[..|es| - 1]), es[|es| - 1], mac, handle, horizon, w.sessions[mac]);
    }
  }

  /** However often a departed client's record is up for retirement before its ticket ends, and
      whatever other clients do meanwhile, the ticket still moves the paid remainder to the
      address the client comes back from: same session, same terms, the whole meter carried. */
  lemma RemainderSurvivesRetirement(w: World, es: seq<Event>, mac: string, handle: string, horizon: int,
                                    back: string, now: int, probe: Probe, reading: Option<uint64>)
    requires Inv(w) && AllowedRun(w, es) && ClientGoneRun(w, es, mac, handle, horizon)
    requires Claimable(w, mac, handle, horizon) && w.sessions[mac].metric != Unsupported
    requires Unix(now) < horizon && back != mac && probe != Authenticated
    ensures var (w', r) := Rebind(Run(w, es), Signed(handle, horizon), back, now, probe, reading, true);
            && r == Ok(Moved(w.sessions[mac], reading))
            && back in w'.sessions && w'.sessions[back] == r.value && mac !in w'.sessions
            && Claimable(w', back, handle, horizon)
  {
    GoneKeepsClaim(w, es, mac, handle, horizon);
  }

  /** A session that survives a sweep whose reading succeeded and whose close was confirmed has
      used less than it paid for. */
  lemma SurvivorBelowAllotment(w: World, mac: string, reading: uint64)
    requires Inv(w) && mac in w.sessions && w.sessions[mac].metric == Bytes
    requires FitsUint64(Total(Noted(w.sessions[mac], reading).trail))
    ensures mac in Enforce(w, mac, Some(reading), true).sessions
       <==> Total(Noted(w.sessions[mac], reading).trail) < w.sessions[mac].allotment
  {
    assert SessionOk(w, mac);
    NoteMetered(w.sessions[mac], reading);
    MeteredTotal(Noted(w.sessions[mac], reading));
  }
}
