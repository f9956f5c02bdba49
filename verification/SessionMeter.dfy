/** What every session keeps through any number of address rotations: one handle naming one
    session, and a meter that only grows. */
module SessionMeter {
  import opened Basics
  import opened Words
  import opened Sessions

  // ------------------------------------------------------------ the meter's reference

  /** The highest reading of one attachment. */
  function Peak(readings: seq<uint64>): uint64 {
    if readings == [] then 0 else Max(Peak(readings[..|readings| - 1]), readings[|readings| - 1])
  }

  /** The exact number of bytes used over all attachments. */
  function Total(trail: seq<seq<uint64>>): nat {
    if trail == [] then 0 else Total(trail[..|trail| - 1]) + Peak(trail[|trail| - 1])
  }

  /** The recorded usage is the peak of the current attachment, and the carried total the sum of
      the peaks of all earlier ones. */
  predicate Metered(s: Session) {
    && s.trail != []
    && s.usage == Peak(s.trail[|s.trail| - 1])
    && s.consumed == Wrap64(Total(s.trail[..|s.trail| - 1]))
  }

  lemma MeteredTotal(s: Session)
    requires Metered(s)
    ensures Meter(s) == Wrap64(Total(s.trail))
    ensures FitsUint64(Total(s.trail)) ==> Meter(s) == Total(s.trail)
  {
    WrapAdd(Total(s.trail[..|s.trail| - 1]), s.usage);
    WrapLoses(Total(s.trail));
  }

  lemma NoteMetered(s: Session, reading: uint64)
    requires Metered(s)
    ensures Metered(Noted(s, reading))
  {
    var last := |s.trail| - 1;
    var t := Note(s.trail, reading);
    assert t[..last] == s.trail[..last] && t[last] == s.trail[last] + [reading];
    assert t[last][..|t[last]| - 1] == s.trail[last];
  }

  /** The session with the last reading of the attachment it leaves noted. */
  function Settled(s: Session, reading: Option<uint64>): Session {
    if s.metric == Bytes && reading.Some? then Noted(s, reading.value) else s
  }

  lemma CarriedIsMeter(s: Session, reading: Option<uint64>)
    requires s.metric != Bytes ==> s.usage == 0
    ensures s.metric == Bytes ==> Carried(s, reading) == Meter(Settled(s, reading))
    ensures s.metric != Bytes ==> Carried(s, reading) == s.consumed == Meter(s)
    ensures Moved(s, reading).trail == Settled(s, reading).trail + [[]]
  {
    WrapLoses(s.consumed);
  }

  /** Moving a session carries the whole total and starts a new attachment at nothing. */
  lemma MovedMetered(s: Session, reading: Option<uint64>)
    requires Metered(s) && (s.metric != Bytes ==> s.usage == 0)
    ensures Metered(Moved(s, reading))
  {
    var s1, m := Settled(s, reading), Moved(s, reading);
    if s.metric == Bytes && reading.Some? { NoteMetered(s, reading.value); }
    MeteredTotal(s1);
    CarriedIsMeter(s, reading);
    assert m.trail[..|m.trail| - 1] == s1.trail;
    assert m.consumed == Meter(s1);
  }

  // ------------------------------------------------------------ the invariant

  predicate SessionOk(w: World, mac: string)
    requires mac in w.sessions
  {
    var s := w.sessions[mac];
    && s.id < w.nextId
    && Metered(s) && (s.metric != Bytes ==> s.usage == 0)
    && (s.handle != "" ==>
          s.handle in w.owner && w.owner[s.handle] == s.id
          && (s.handle in w.attachments ==> w.attachments[s.handle].mac == mac))
  }

  predicate OneRecordPerSession(w: World) {
    forall a, b :: a in w.sessions && b in w.sessions && w.sessions[a].id == w.sessions[b].id ==> a == b
  }

  predicate Inv(w: World) {
    && (forall mac :: mac in w.sessions ==> SessionOk(w, mac))
    && OneRecordPerSession(w)
    && (forall h :: h in w.attachments ==> h in w.owner)
  }

  /** No two addresses hold sessions with the same handle. */
  lemma HandlesUnique(w: World, a: string, b: string)
    requires Inv(w) && a in w.sessions && b in w.sessions
    requires w.sessions[a].handle != "" && w.sessions[a].handle == w.sessions[b].handle
    ensures a == b
  {
    assert SessionOk(w, a) && SessionOk(w, b);
  }

  lemma NothingUsed()
    ensures var start: seq<seq<uint64>> := [[]];
            start[..|start| - 1] == [] && Total([]) == 0 && Peak(start[|start| - 1]) == 0
  {
  }

  /** A record may be replaced in place by one of the same session. */
  lemma PutKeeps(w: World, mac: string, s: Session)
    requires Inv(w) && mac in w.sessions
    requires s.id == w.sessions[mac].id && s.handle == w.sessions[mac].handle
    requires Metered(s) && (s.metric != Bytes ==> s.usage == 0)
    ensures Inv(w.(sessions := w.sessions[mac := s]))
  {
    var w' := w.(sessions := w.sessions[mac := s]);
    assert SessionOk(w, mac);
    forall m | m in w'.sessions ensures SessionOk(w', m) { assert SessionOk(w, m); }
  }

  lemma NewKeeps(w: World, mac: string, s: Session)
    requires Inv(w) && s.id == w.nextId && s.handle == "" && Metered(s) && s.usage == 0
    ensures Inv(w.(sessions := w.sessions[mac := s], nextId := w.nextId + 1))
  {
    var w' := w.(sessions := w.sessions[mac := s], nextId := w.nextId + 1);
    forall m | m in w'.sessions ensures SessionOk(w', m) {
      if m != mac { assert SessionOk(w, m); }
    }
    forall a, b | a in w'.sessions && b in w'.sessions && w'.sessions[a].id == w'.sessions[b].id ensures a == b {
      if a != mac { assert SessionOk(w, a); }
      if b != mac { assert SessionOk(w, b); }
    }
  }

  lemma AddedKeeps(w: World, mac: string, metric: Metric, amount: uint64, now: int)
    requires Inv(w)
    ensures Inv(Added(w, mac, metric, amount, now))
  {
    var s := Added(w, mac, metric, amount, now).sessions[mac];
    if mac in w.sessions && !HasExpired(w.sessions[mac], now) {
      assert SessionOk(w, mac);
      PutKeeps(w, mac, s);
    } else {
      NothingUsed();
      NewKeeps(w, mac, s);
    }
  }

  lemma IssueKeeps(w: World, mac: string, drawn: string, kept: map<string, Attachment>, now: int, ttl: int)
    requires Inv(w) && drawn != "" && drawn !in w.owner && SubMap(kept, w.attachments)
    ensures Inv(IssueTicket(w, mac, drawn, kept, now, ttl).0)
  {
    var (w', r) := IssueTicket(w, mac, drawn, kept, now, ttl);
    if r.Ok? {
      assert SessionOk(w, mac);
      forall m | m in w'.sessions ensures SessionOk(w', m) {
        assert SessionOk(w, m);
        if m != mac { IssueApart(w, mac, m, drawn); }
      }
    }
  }

  /** The handle given to one session is no other session's. */
  lemma IssueApart(w: World, mac: string, m: string, drawn: string)
    requires Inv(w) && mac in w.sessions && m in w.sessions && m != mac && drawn !in w.owner
    ensures w.sessions[m].handle != "" ==>
              w.sessions[m].handle != (if w.sessions[mac].handle == "" then drawn else w.sessions[mac].handle)
  {
    assert SessionOk(w, m) && SessionOk(w, mac);
  }

  /** Fewer records and attachments keep everything. */
  lemma DropKeeps(w: World, w': World)
    requires Inv(w)
    requires forall m :: m in w'.sessions ==> m in w.sessions && w'.sessions[m] == w.sessions[m]
    requires SubMap(w'.attachments, w.attachments) && w'.owner == w.owner && w'.nextId == w.nextId
    ensures Inv(w')
  {
    forall m | m in w'.sessions ensures SessionOk(w', m) { assert SessionOk(w, m); }
  }

  lemma MoveKeeps(w: World, handle: string, previous: string, mac: string, now: int,
                  reading: Option<uint64>, gateOk: bool)
    requires Inv(w) && handle in w.attachments && previous in w.sessions && previous != mac
    requires handle != "" && w.sessions[previous].handle == handle
    ensures Inv(Move(w, handle, previous, mac, now, reading, gateOk).0)
  {
    var (w', r) := Move(w, handle, previous, mac, now, reading, gateOk);
    assert SessionOk(w, previous);
    MovedMetered(w.sessions[previous], reading);
    forall m | m in w'.sessions ensures SessionOk(w', m) {
      if m != mac || r.Err? {
        assert SessionOk(w, m);
        if m != previous && w.sessions[m].handle == handle { HandlesUnique(w, m, previous); }
      }
    }
  }

  lemma FindKeeps(w: World, ticket: Ticket, now: int)
    requires Inv(w)
    ensures Inv(FindAttachment(w, ticket, now).0)
  {
    DropKeeps(w, FindAttachment(w, ticket, now).0);
  }

  lemma EnforceKeeps(w: World, mac: string, reading: Option<uint64>, closeOk: bool)
    requires Inv(w)
    ensures Inv(Enforce(w, mac, reading, closeOk))
  {
    if mac in w.sessions && w.sessions[mac].metric == Bytes && reading.Some? {
      assert SessionOk(w, mac);
      NoteMetered(w.sessions[mac], reading.value);
      PutKeeps(w, mac, Noted(w.sessions[mac], reading.value));
      DropKeeps(w, w.(sessions := w.sessions - {mac}));
    }
  }

  lemma StepKeeps(w: World, e: Event)
    requires Inv(w) && Allowed(w, e)
    ensures Inv(Step(w, e))
  {
    match e {
      case PurchaseEvent(mac, metric, amount, now, gateOk) => AddedKeeps(w, mac, metric, amount, now);
      case IssueEvent(mac, drawn, kept, now, ttl) => IssueKeeps(w, mac, drawn, kept, now, ttl);
      case RebindEvent(ticket, mac, now, probe, reading, gateOk) =>
        FindKeeps(w, ticket, now);
        var (w1, found) := FindAttachment(w, ticket, now);
        if found.Ok? && w1.attachments[found.value].mac != mac && probe != Authenticated
           && w1.attachments[found.value].mac in w1.sessions
           && w1.sessions[w1.attachments[found.value].mac].handle == found.value {
          MoveKeeps(w1, found.value, w1.attachments[found.value].mac, mac, now, reading, gateOk);
        }
      case VerifyEvent(ticket, now) => FindKeeps(w, ticket, now);
      case EnforceEvent(mac, reading, closeOk) => EnforceKeeps(w, mac, reading, closeOk);
      case RetireEvent(mac, now) => DropKeeps(w, RetireOrPark(w, mac, now));
      case LookupEvent(mac, now) => DropKeeps(w, Lookup(w, mac, now).0);
    }
  }

  /** In every reachable state every handle names one session, attached to its own address, and
      every meter is the sum of the peaks of its attachments. */
  lemma {:induction false} RunKeeps(w: World, es: seq<Event>)
    requires Inv(w) && AllowedRun(w, es)
    ensures Inv(Run(w, es))
  {
    if es == [] {
    } else {
      RunKeeps(w, es[..|es| - 1]);
      StepKeeps(Run(w, es[..|es| - 1]), es[|es| - 1]);
    }
  }
}
