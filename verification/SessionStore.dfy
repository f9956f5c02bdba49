/** The merchant's session records and its ticket store as the program runs them: two maps of
    records changed in place under their locks. */
module SessionStore {
  import opened Basics
  import opened Words
  import S = Sessions
  import T = SessionMeter

  const MAX_ATTACHMENTS: nat := 4096

  // ------------------------------------------------------------ sweeping the ticket store

  function LiveOnly(all: map<string, S.Attachment>, now: int): map<string, S.Attachment> {
    map h | h in all && S.Unix(now) < all[h].expiresAt :: all[h]
  }

  /** Everything dropped from `live` was attached before now and no later than anything kept. */
  predicate OldestDropped(live: map<string, S.Attachment>, kept: map<string, S.Attachment>, now: int) {
    && S.SubMap(kept, live)
    && forall d :: d in live && d !in kept ==>
         live[d].attachedAt < S.Unix(now)
         && forall k :: k in kept ==> live[d].attachedAt <= kept[k].attachedAt
  }

  /** What a sweep leaves: nothing expired; of the rest, no more dropped than the cap demands,
      oldest first; and the store below its cap unless everything left was attached just now. */
  predicate SweptTo(all: map<string, S.Attachment>, kept: map<string, S.Attachment>, now: int) {
    var live := LiveOnly(all, now);
    && OldestDropped(live, kept, now)
    && (|live| < MAX_ATTACHMENTS ==> kept == live)
    && (|live| >= MAX_ATTACHMENTS ==> |kept| >= MAX_ATTACHMENTS - 1)
    && (|kept| >= MAX_ATTACHMENTS ==> forall k :: k in kept ==> kept[k].attachedAt >= S.Unix(now))
  }

  /** A record's attachment is dropped before its ticket ends only to make room, and then at
      least 4095 others, none attached before it, are kept. */
  lemma EvictedForRoom(all: map<string, S.Attachment>, kept: map<string, S.Attachment>, now: int, h: string)
    requires SweptTo(all, kept, now) && h in all && h !in kept && S.Unix(now) < all[h].expiresAt
    ensures |kept| >= MAX_ATTACHMENTS - 1
    ensures forall k :: k in kept ==> k in all && all[h].attachedAt <= all[k].attachedAt
    ensures S.SubMap(kept, all)
  {
    assert h in LiveOnly(all, now);
  }

  /** The store outgrows its cap only within one second: if inserting a handle after a sweep
      exceeds the cap, everything the sweep kept was attached now or later. */
  lemma CapExceededOnlyNow(all: map<string, S.Attachment>, kept: map<string, S.Attachment>, now: int,
                           h: string, a: S.Attachment)
    requires SweptTo(all, kept, now)
    ensures |kept[h := a]| > MAX_ATTACHMENTS ==> forall k :: k in kept ==> kept[k].attachedAt >= S.Unix(now)
    ensures |LiveOnly(all, now)| < MAX_ATTACHMENTS ==> |kept[h := a]| <= MAX_ATTACHMENTS && kept == LiveOnly(all, now)
  {
    assert kept[h := a].Keys == kept.Keys + {h};
  }

  class Merchant {
    var customerSessions: map<string, S.Session>
    var attachments: map<string, S.Attachment>
    ghost var owner: map<string, nat>
    var nextId: nat

    ghost function State(): S.World
      reads this
    {
      S.World(customerSessions, attachments, owner, nextId)
    }

    constructor ()
      ensures State() == S.EMPTY && T.Inv(State())
    {
      customerSessions, attachments, owner, nextId := map[], map[], map[], 0;
    }

    method DropExpired(now: int)
      modifies this`attachments
      ensures attachments == LiveOnly(old(attachments), now)
    {
      var todo := attachments.Keys;
      while todo != {}
        invariant todo <= old(attachments).Keys
        invariant attachments == map h | h in old(attachments)
                    && (h in todo || S.Unix(now) < old(attachments)[h].expiresAt) :: old(attachments)[h]
        decreases todo
      {
        var handle :| handle in todo;
        if S.Unix(now) >= attachments[handle].expiresAt {
          attachments := attachments - {handle};
        }
        todo := todo - {handle};
      }
    }

    /** The attachment that is oldest, of those attached before now. */
    method Oldest(now: int) returns (found: bool, handle: string)
      ensures !found ==> forall h :: h in attachments ==> attachments[h].attachedAt >= S.Unix(now)
      ensures found ==> handle in attachments && attachments[handle].attachedAt < S.Unix(now)
                        && forall h :: h in attachments ==> attachments[handle].attachedAt <= attachments[h].attachedAt
    {
      found, handle := false, "";
      var oldest := S.Unix(now);
      var todo := attachments.Keys;
      while todo != {}
        invariant todo <= attachments.Keys
        invariant !found ==> oldest == S.Unix(now)
        invariant found ==> handle in attachments && attachments[handle].attachedAt == oldest < S.Unix(now)
        invariant forall h :: h in attachments && h !in todo ==> oldest <= attachments[h].attachedAt
        decreases todo
      {
        var h :| h in todo;
        if attachments[h].attachedAt < oldest {
          oldest, handle, found := attachments[h].attachedAt, h, true;
        }
        todo := todo - {h};
      }
    }

    method SweepLocked(now: int)
      modifies this`attachments
      ensures SweptTo(old(attachments), attachments, now)
    {
      DropExpired(now);
      ghost var live := attachments;
      while |attachments| >= MAX_ATTACHMENTS
        invariant OldestDropped(live, attachments, now)
        invariant |live| < MAX_ATTACHMENTS ==> attachments == live
        invariant |live| >= MAX_ATTACHMENTS ==> |attachments| >= MAX_ATTACHMENTS - 1
        decreases |attachments|
      {
        var found, handle := Oldest(now);
        if !found { return; }
        assert (attachments - {handle}).Keys == attachments.Keys - {handle};
        attachments := attachments - {handle};
      }
    }

    /** `drawn` is what the random source would give. */
    method IssueSessionTicket(mac: string, drawn: string, now: int, ttl: int) returns (r: S.Outcome<S.Ticket>)
      modifies this
      ensures r.Err? ==> (State(), r) == S.IssueTicket(old(State()), mac, drawn, map[], now, ttl)
      ensures r.Ok? ==> exists kept :: SweptTo(old(attachments), kept, now)
                          && (State(), r) == S.IssueTicket(old(State()), mac, drawn, kept, now, ttl)
    {
      if mac !in customerSessions || S.HasExpired(customerSessions[mac], now) { return Err(S.NoSession); }
      var session := customerSessions[mac];
      var handle := session.handle;
      if handle == "" { handle := drawn; }
      var expiresAt := S.Unix(now + ttl);
      SweepLocked(now);
      ghost var kept := attachments;
      attachments := attachments[handle := S.Attachment(mac, S.Unix(now), expiresAt, S.Unix(now))];
      customerSessions := customerSessions[mac := session.(handle := handle, horizon := expiresAt)];
      owner := owner[handle := session.id];
      r := Ok(S.Signed(handle, expiresAt));
      assert (State(), r) == S.IssueTicket(old(State()), mac, drawn, kept, now, ttl);
    }

    method FindAttachment(ticket: S.Ticket, now: int) returns (r: S.Outcome<string>)
      modifies this`attachments
      ensures (State(), r) == S.FindAttachment(old(State()), ticket, now)
    {
      r := S.VerifyTicket(ticket, now);
      if r.Err? { return; }
      if r.value !in attachments { return Err(S.TicketUnknown); }
      if S.Unix(now) >= attachments[r.value].expiresAt {
        attachments := attachments - {r.value};
        return Err(S.TicketExpired);
      }
    }

    method RebindSession(ticket: S.Ticket, mac: string, now: int, probe: S.Probe,
                         reading: Option<uint64>, gateOk: bool) returns (r: S.Outcome<S.Session>)
      modifies this
      ensures (State(), r) == S.Rebind(old(State()), ticket, mac, now, probe, reading, gateOk)
    {
      var found := FindAttachment(ticket, now);
      if found.Err? { return Err(found.error); }
      var handle := found.value;
      var previous := attachments[handle].mac;
      if previous != mac && probe == S.Authenticated { return Err(S.AttachmentActive); }
      if previous !in customerSessions || customerSessions[previous].handle != handle {
        return Err(S.TicketUnknown);
      }
      var session := customerSessions[previous];
      if previous == mac { return Ok(session); }
      var carried := session.consumed;
      var trail := session.trail;
      if session.metric == Bytes {
        carried := Wrap64(session.consumed + session.usage);
        if reading.Some? && reading.value > session.usage {
          carried := Wrap64(session.consumed + reading.value);
        }
        trail := S.NoteSome(trail, reading);
      }
      var moved := session.(consumed := carried, usage := 0, trail := trail + [[]]);
      ghost var before, attached := customerSessions, attachments;
      customerSessions := (customerSessions - {previous})[mac := moved];
      attachments := attachments[handle := attachments[handle].(mac := mac, attachedAt := S.Unix(now))];
      if !S.GateOpens(moved.metric, gateOk) {
        customerSessions := (customerSessions - {mac})[previous := session];
        attachments := attachments[handle := attachments[handle].(mac := previous)];
        assert customerSessions == (before - {mac})[previous := session];
        assert attachments == attached[handle := attached[handle].(attachedAt := S.Unix(now))];
        return Err(S.GateFailed);
      }
      return Ok(moved);
    }

    method AddAllotment(mac: string, metric: Metric, amount: uint64, now: int) returns (session: S.Session)
      modifies this
      ensures State() == S.Added(old(State()), mac, metric, amount, now)
      ensures mac in customerSessions && session == customerSessions[mac]
    {
      var known := mac in customerSessions;
      ghost var before := customerSessions;
      if known && S.HasExpired(customerSessions[mac], now) {
        customerSessions := customerSessions - {mac};
        known := false;
      }
      if !known {
        session := S.Session(nextId, S.Unix(now), metric, amount, 0, 0, "", 0, [[]]);
        nextId := nextId + 1;
      } else {
        session := customerSessions[mac];
        session := session.(allotment := Wrap64(session.allotment + amount), start := S.Unix(now));
      }
      customerSessions := customerSessions[mac := session];
      assert customerSessions == before[mac := session];
    }

    /** Snapshot, add, open the gate, and put the snapshot back if the gate does not open. */
    method GrantSessionAccess(mac: string, metric: Metric, amount: uint64, now: int, gateOk: bool)
      returns (r: S.Outcome<S.Session>)
      modifies this
      ensures (State(), r) == S.Purchase(old(State()), mac, metric, amount, now, gateOk)
    {
      var had := mac in customerSessions;
      var previous := if had then Some(customerSessions[mac]) else None;
      var id := nextId;
      ghost var before := customerSessions;
      var session := AddAllotment(mac, metric, amount, now);
      if !S.GateOpens(session.metric, gateOk) {
        customerSessions := if had then customerSessions[mac := previous.value] else customerSessions - {mac};
        nextId := id;
        assert customerSessions == before;
        return Err(S.GateFailed);
      }
      return Ok(session);
    }

    /** The usage monitor's step for one address; the record is retired only once the gate of a
        spent allotment is confirmed closed. */
    method EnforceBytesSession(mac: string, reading: Option<uint64>, closeOk: bool)
      modifies this`customerSessions
      ensures State() == S.Enforce(old(State()), mac, reading, closeOk)
    {
      if mac !in customerSessions || customerSessions[mac].metric != Bytes || reading.None? { return; }
      var session := customerSessions[mac];
      var since := reading.value;
      if since < session.usage { since := session.usage; }
      var usage := Wrap64(session.consumed + since);
      session := session.(usage := since, trail := S.Note(session.trail, reading.value));
      customerSessions := customerSessions[mac := session];
      if usage < session.allotment { return; }
      if !closeOk { return; }
      ghost var noted := customerSessions;
      customerSessions := customerSessions - {mac};
      assert customerSessions == old(customerSessions) - {mac};
    }

    method RetireSessionOrParkForTicket(mac: string, now: int) returns (retired: bool, parked: bool)
      modifies this`customerSessions
      ensures State() == S.RetireOrPark(old(State()), mac, now)
      ensures retired <==> mac in old(customerSessions) && mac !in customerSessions
      ensures parked <==> mac in customerSessions
    {
      if mac !in customerSessions { return false, false; }
      if customerSessions[mac].horizon > S.Unix(now) { return false, true; }
      customerSessions := customerSessions - {mac};
      return true, false;
    }

    method GetSession(mac: string, now: int) returns (r: Option<S.Session>)
      modifies this`customerSessions
      ensures (State(), r) == S.Lookup(old(State()), mac, now)
    {
      if mac !in customerSessions { return None; }
      var session := customerSessions[mac];
      if S.HasExpired(session, now) {
        customerSessions := customerSessions - {mac};
        return None;
      }
      return Some(session);
    }
  }
}
