/** Paid sessions and the tickets that move them: the meter, the terms and the handle of a session
    as purchases, ticket issues, address rotations, usage sweeps and retirements change them. */
module Sessions {
  import opened Basics
  import opened Words

  /** `id` and `trail` are history the program never reads: which purchase made the record, and
      the readings taken of each attachment it has had, the current one last. */
  datatype Session = Session(
    id: nat, start: int, metric: Metric, allotment: uint64,
    consumed: uint64, usage: uint64, handle: string, horizon: int,
    trail: seq<seq<uint64>>)

  datatype Attachment = Attachment(mac: string, issuedAt: int, expiresAt: int, attachedAt: int)

  /** `owner` is history too: the session each handle was drawn for. */
  datatype World = World(
    sessions: map<string, Session>, attachments: map<string, Attachment>,
    owner: map<string, nat>, nextId: nat)

  datatype Ticket = MalformedTicket | ForgedTicket | Signed(handle: string, expiresAt: int)

  datatype Probe = Authenticated | Gone | Unanswerable

  datatype Error =
    | TicketMalformed | TicketSignature | TicketExpired | TicketUnknown
    | NoSession | AttachmentActive | GateFailed

  type Outcome<+T> = Result<T, Error>

  // ------------------------------------------------------------ time and metering

  /** Clock readings are in milliseconds; the program stores seconds. */
  function Unix(now: int): int { now / 1000 }

  predicate HasExpired(s: Session, now: int) {
    s.metric == Milliseconds && now - s.start * 1000 >= s.allotment
  }

  function Max(a: uint64, b: uint64): uint64 { if a < b then b else a }

  /** What the program takes for the bytes a session has used. */
  function Meter(s: Session): uint64 { Wrap64(s.consumed + s.usage) }

  function Note(trail: seq<seq<uint64>>, reading: uint64): seq<seq<uint64>> {
    if trail == [] then [[reading]]
    else trail[|trail| - 1 := trail[|trail| - 1] + [reading]]
  }

  function NoteSome(trail: seq<seq<uint64>>, reading: Option<uint64>): seq<seq<uint64>> {
    match reading
    case None => trail
    case Some(r) => Note(trail, r)
  }

  predicate GateOpens(metric: Metric, gateOk: bool) { metric != Unsupported && gateOk }

  // ------------------------------------------------------------ purchases

  function Added(w: World, mac: string, metric: Metric, amount: uint64, now: int): World {
    if mac in w.sessions && !HasExpired(w.sessions[mac], now) then
      var s := w.sessions[mac];
      w.(sessions := w.sessions[mac := s.(allotment := Wrap64(s.allotment + amount), start := Unix(now))])
    else
      var s := Session(w.nextId, Unix(now), metric, amount, 0, 0, "", 0, [[]]);
      w.(sessions := w.sessions[mac := s], nextId := w.nextId + 1)
  }

  /** A purchase whose gate does not open leaves no trace. */
  function Purchase(w: World, mac: string, metric: Metric, amount: uint64, now: int, gateOk: bool)
    : (World, Outcome<Session>)
  {
    var added := Added(w, mac, metric, amount, now);
    if GateOpens(added.sessions[mac].metric, gateOk) then (added, Ok(added.sessions[mac])) else (w, Err(GateFailed))
  }

  // ------------------------------------------------------------ tickets

  /** `drawn` is the handle the random source would draw, `kept` the attachments that survive
      the sweep of the store. */
  function IssueTicket(w: World, mac: string, drawn: string, kept: map<string, Attachment>, now: int, ttl: int)
    : (World, Outcome<Ticket>)
  {
    if mac !in w.sessions || HasExpired(w.sessions[mac], now) then (w, Err(NoSession))
    else
      var s := w.sessions[mac];
      var handle := if s.handle == "" then drawn else s.handle;
      var expiresAt := Unix(now + ttl);
      (World(w.sessions[mac := s.(handle := handle, horizon := expiresAt)],
             kept[handle := Attachment(mac, Unix(now), expiresAt, Unix(now))],
             w.owner[handle := s.id],
             w.nextId),
       Ok(Signed(handle, expiresAt)))
  }

  function VerifyTicket(ticket: Ticket, now: int): Outcome<string> {
    match ticket
    case MalformedTicket => Err(TicketMalformed)
    case ForgedTicket => Err(TicketSignature)
    case Signed(handle, expiresAt) =>
      if handle == "" then Err(TicketMalformed)
      else if Unix(now) >= expiresAt then Err(TicketExpired)
      else Ok(handle)
  }

  /** The live attachment a verified ticket names; an expired one is dropped on the way. */
  function FindAttachment(w: World, ticket: Ticket, now: int): (World, Outcome<string>) {
    match VerifyTicket(ticket, now)
    case Err(e) => (w, Err(e))
    case Ok(handle) =>
      if handle !in w.attachments then (w, Err(TicketUnknown))
      else if Unix(now) >= w.attachments[handle].expiresAt then
        (w.(attachments := w.attachments - {handle}), Err(TicketExpired))
      else (w, Ok(handle))
  }

  /** The total a session takes along: what it carried in, plus the higher of the recorded and
      the live reading of the attachment it leaves. */
  function Carried(s: Session, reading: Option<uint64>): uint64 {
    if s.metric != Bytes then s.consumed
    else if reading.Some? && reading.value > s.usage then Wrap64(s.consumed + reading.value)
    else Wrap64(s.consumed + s.usage)
  }

  function Moved(s: Session, reading: Option<uint64>): Session {
    s.(consumed := Carried(s, reading), usage := 0,
       trail := (if s.metric == Bytes then NoteSome(s.trail, reading) else s.trail) + [[]])
  }

  function Rebind(w: World, ticket: Ticket, mac: string, now: int, probe: Probe, reading: Option<uint64>, gateOk: bool)
    : (World, Outcome<Session>)
  {
    var (w1, found) := FindAttachment(w, ticket, now);
    match found
    case Err(e) => (w1, Err(e))
    case Ok(handle) =>
      var previous := w1.attachments[handle].mac;
      if previous != mac && probe == Authenticated then (w1, Err(AttachmentActive))
      else if previous !in w1.sessions || w1.sessions[previous].handle != handle then (w1, Err(TicketUnknown))
      else if previous == mac then (w1, Ok(w1.sessions[mac]))
      else Move(w1, handle, previous, mac, now, reading, gateOk)
  }

  /** The move itself. Whoever had a session at the destination loses it, and a move whose gate
      does not open puts only the moved session back. */
  function Move(w: World, handle: string, previous: string, mac: string, now: int,
                reading: Option<uint64>, gateOk: bool)
    : (World, Outcome<Session>)
    requires handle in w.attachments && previous in w.sessions
  {
    var s := w.sessions[previous];
    var touched := w.attachments[handle].(attachedAt := Unix(now));
    if GateOpens(s.metric, gateOk) then
      (w.(sessions := (w.sessions - {previous})[mac := Moved(s, reading)],
          attachments := w.attachments[handle := touched.(mac := mac)]),
       Ok(Moved(s, reading)))
    else
      (w.(sessions := (w.sessions - {mac})[previous := s], attachments := w.attachments[handle := touched]),
       Err(GateFailed))
  }

  // ------------------------------------------------------------ sweeps and retirement

  function Noted(s: Session, reading: uint64): Session {
    s.(usage := Max(s.usage, reading), trail := Note(s.trail, reading))
  }

  /** The usage monitor's step for one address; `reading` is absent when it cannot be taken. */
  function Enforce(w: World, mac: string, reading: Option<uint64>, closeOk: bool): World {
    if mac !in w.sessions || w.sessions[mac].metric != Bytes || reading.None? then w
    else
      var s := Noted(w.sessions[mac], reading.value);
      if Meter(s) >= s.allotment && closeOk then w.(sessions := w.sessions - {mac})
      else w.(sessions := w.sessions[mac := s])
  }

  /** A closed gate retires the record unless a live ticket can still claim it. */
  function RetireOrPark(w: World, mac: string, now: int): World {
    if mac in w.sessions && w.sessions[mac].horizon <= Unix(now)
    then w.(sessions := w.sessions - {mac}) else w
  }

  function Lookup(w: World, mac: string, now: int): (World, Option<Session>) {
    if mac !in w.sessions then (w, None)
    else if HasExpired(w.sessions[mac], now) then (w.(sessions := w.sessions - {mac}), None)
    else (w, Some(w.sessions[mac]))
  }

  // ------------------------------------------------------------ runs

  datatype Event =
    | PurchaseEvent(mac: string, metric: Metric, amount: uint64, now: int, gateOk: bool)
    | IssueEvent(mac: string, drawn: string, kept: map<string, Attachment>, now: int, ttl: int)
    | RebindEvent(ticket: Ticket, mac: string, now: int, probe: Probe, reading: Option<uint64>, gateOk: bool)
    | VerifyEvent(ticket: Ticket, now: int)
    | EnforceEvent(mac: string, reading: Option<uint64>, closeOk: bool)
    | RetireEvent(mac: string, now: int)
    | LookupEvent(mac: string, now: int)

  function Step(w: World, e: Event): World {
    match e
    case PurchaseEvent(mac, metric, amount, now, gateOk) => Purchase(w, mac, metric, amount, now, gateOk).0
    case IssueEvent(mac, drawn, kept, now, ttl) => IssueTicket(w, mac, drawn, kept, now, ttl).0
    case RebindEvent(ticket, mac, now, probe, reading, gateOk) => Rebind(w, ticket, mac, now, probe, reading, gateOk).0
    case VerifyEvent(ticket, now) => FindAttachment(w, ticket, now).0
    case EnforceEvent(mac, reading, closeOk) => Enforce(w, mac, reading, closeOk)
    case RetireEvent(mac, now) => RetireOrPark(w, mac, now)
    case LookupEvent(mac, now) => Lookup(w, mac, now).0
  }

  /** A random handle is never drawn twice, and a sweep of the store only drops attachments. */
  predicate Allowed(w: World, e: Event) {
    e.IssueEvent? ==> e.drawn != "" && e.drawn !in w.owner && SubMap(e.kept, w.attachments)
  }

  predicate SubMap(a: map<string, Attachment>, b: map<string, Attachment>) {
    forall h :: h in a ==> h in b && a[h] == b[h]
  }

  function Run(w: World, es: seq<Event>): World {
    if es == [] then w else Step(Run(w, es[..|es| - 1]), es[|es| - 1])
  }

  predicate AllowedRun(w: World, es: seq<Event>) {
    es != [] ==> AllowedRun(w, es[..|es| - 1]) && Allowed(Run(w, es[..|es| - 1]), es[|es| - 1])
  }

  const EMPTY: World := World(map[], map[], map[], 0)
}
