/** How long a ticket is good, what becomes of it afterwards, and how a bad one is refused. */
module SessionTickets {
  import opened Basics
  import opened Words
  import opened Sessions
  import opened SessionMeter
  import opened SessionRuns
  import opened SessionTerms

  /** What issuing a ticket writes: the ticket, the record's horizon and the attachment all end
      together, `ttl` after now to the second; the handle is the session's own if it has one; and
      the record is otherwise as it was. */
  lemma IssueTells(w: World, mac: string, drawn: string, kept: map<string, Attachment>, now: int, ttl: int)
    ensures var (w', r) := IssueTicket(w, mac, drawn, kept, now, ttl);
            && (r.Err? <==> !Adds(w, mac, now))
            && (r.Err? ==> r.error == NoSession && w' == w)
            && (r.Ok? ==>
                  var s, h, end := w.sessions[mac], r.value.handle, Unix(now + ttl);
                  && r.value == Signed(h, end) && h == (if s.handle == "" then drawn else s.handle)
                  && mac in w'.sessions && w'.sessions[mac] == s.(handle := h, horizon := end)
                  && SameElsewhere(w, w', mac)
                  && h in w'.attachments && w'.attachments[h] == Attachment(mac, Unix(now), end, Unix(now))
                  && (forall x :: x != h ==> (x in w'.attachments <==> x in kept))
                  && (forall x :: x != h && x in kept ==> w'.attachments[x] == kept[x]))
  {
  }

  /** A session moves only on a ticket that is good, and while its attachment is. */
  lemma MovesOnlyInTime(w: World, ticket: Ticket, mac: string, now: int, probe: Probe,
                        reading: Option<uint64>, gateOk: bool)
    requires Rebind(w, ticket, mac, now, probe, reading, gateOk).1.Ok?
    ensures ticket.Signed? && Unix(now) < ticket.expiresAt
    ensures ticket.handle in w.attachments && Unix(now) < w.attachments[ticket.handle].expiresAt
  {
  }

  /** The ticket is signed, names a handle and has not ended. */
  predicate Good(ticket: Ticket, now: int) {
    ticket.Signed? && ticket.handle != "" && Unix(now) < ticket.expiresAt
  }

  /** How a ticket that is not good is refused: as malformed, forged or expired, and nothing changes. */
  lemma BadTicketRefused(w: World, ticket: Ticket, mac: string, now: int, probe: Probe,
                         reading: Option<uint64>, gateOk: bool)
    requires !Good(ticket, now)
    ensures Rebind(w, ticket, mac, now, probe, reading, gateOk)
         == (w, Err(if ticket.ForgedTicket? then TicketSignature
                    else if ticket.MalformedTicket? || ticket.handle == "" then TicketMalformed
                    else TicketExpired))
  {
  }

  /** A good ticket whose handle has no live attachment is refused as unknown or expired; the
      expired attachment is dropped, and nothing else changes. */
  lemma LostAttachmentRefused(w: World, ticket: Ticket, mac: string, now: int, probe: Probe,
                              reading: Option<uint64>, gateOk: bool)
    requires Good(ticket, now)
    requires ticket.handle in w.attachments ==> Unix(now) >= w.attachments[ticket.handle].expiresAt
    ensures Rebind(w, ticket, mac, now, probe, reading, gateOk)
         == (if ticket.handle in w.attachments
             then (w.(attachments := w.attachments - {ticket.handle}), Err(TicketExpired))
             else (w, Err(TicketUnknown)))
  {
  }

  /** A good ticket with a live attachment moves its session exactly if the address it is attached
      to is the one asked for, or is not in use, and still has that session; and then if the gate
      opens. */
  lemma GoodTicketAnswers(w: World, ticket: Ticket, mac: string, now: int, probe: Probe,
                          reading: Option<uint64>, gateOk: bool)
    requires Good(ticket, now)
    requires ticket.handle in w.attachments && Unix(now) < w.attachments[ticket.handle].expiresAt
    ensures var r := Rebind(w, ticket, mac, now, probe, reading, gateOk).1;
            var previous := w.attachments[ticket.handle].mac;
            var there := previous in w.sessions && w.sessions[previous].handle == ticket.handle;
            && (r == Err(AttachmentActive) <==> previous != mac && probe == Authenticated)
            && (r == Err(TicketUnknown) <==> (previous == mac || probe != Authenticated) && !there)
            && (r == Err(GateFailed) <==>
                  previous != mac && probe != Authenticated && there
                  && (!gateOk || w.sessions[previous].metric == Unsupported))
            && (r.Ok? <==> there && (previous == mac || (probe != Authenticated && gateOk
                                                        && w.sessions[previous].metric != Unsupported)))
  {
  }

  /** What a move writes into the attachment: the address and the second it moved; one whose gate
      does not open, the second alone. */
  lemma MoveTouches(w: World, ticket: Ticket, mac: string, now: int, probe: Probe,
                    reading: Option<uint64>, gateOk: bool)
    ensures var (w', r) := Rebind(w, ticket, mac, now, probe, reading, gateOk);
            && (r.Ok? && w.attachments[ticket.handle].mac != mac ==>
                  w'.attachments == w.attachments[ticket.handle :=
                    w.attachments[ticket.handle].(mac := mac, attachedAt := Unix(now))])
            && (r.Ok? && w.attachments[ticket.handle].mac == mac ==> w' == w)
            && (r == Err(GateFailed) ==>
                  ticket.Signed? && ticket.handle in w.attachments
                  && w'.attachments == w.attachments[ticket.handle :=
                       w.attachments[ticket.handle].(attachedAt := Unix(now))])
  {
  }

  /** Over any run: once `ttl` is over a ticket moves nothing. It is refused as expired, and nothing
      changes by that, however often its session was bought, moved or given other tickets since. */
  lemma TicketRunsOut(w: World, issue: Event, es: seq<Event>, mac: string, now: int, probe: Probe,
                      reading: Option<uint64>, gateOk: bool)
    requires issue.IssueEvent? && Allowed(w, issue)
    requires IssueTicket(w, issue.mac, issue.drawn, issue.kept, issue.now, issue.ttl).1.Ok?
    requires Unix(now) >= Unix(issue.now + issue.ttl)
    ensures var ticket := IssueTicket(w, issue.mac, issue.drawn, issue.kept, issue.now, issue.ttl).1.value;
            var later := Run(Step(w, issue), es);
            Rebind(later, ticket, mac, now, probe, reading, gateOk) == (later, Err(TicketExpired))
  {
    IssueTells(w, issue.mac, issue.drawn, issue.kept, issue.now, issue.ttl);
    var ticket := IssueTicket(w, issue.mac, issue.drawn, issue.kept, issue.now, issue.ttl).1.value;
    BadTicketRefused(Run(Step(w, issue), es), ticket, mac, now, probe, reading, gateOk);
  }

  /** And until then it moves the paid remainder of a client that is gone, whatever others do. */
  lemma TicketGoodUntil(w: World, issue: Event, es: seq<Event>, back: string, now: int, probe: Probe,
                        reading: Option<uint64>)
    requires issue.IssueEvent? && Inv(w) && Allowed(w, issue)
    requires IssueTicket(w, issue.mac, issue.drawn, issue.kept, issue.now, issue.ttl).1.Ok?
    requires var w1, end := Step(w, issue), Unix(issue.now + issue.ttl);
             var h := IssueTicket(w, issue.mac, issue.drawn, issue.kept, issue.now, issue.ttl).1.value.handle;
             AllowedRun(w1, es) && ClientGoneRun(w1, es, issue.mac, h, end) && Unix(now) < end
    requires w.sessions[issue.mac].metric != Unsupported && back != issue.mac && probe != Authenticated
    ensures var ticket := IssueTicket(w, issue.mac, issue.drawn, issue.kept, issue.now, issue.ttl).1.value;
            var r := Rebind(Run(Step(w, issue), es), ticket, back, now, probe, reading, true).1;
            && r.Ok? && r.value.id == w.sessions[issue.mac].id && SameTerms(w.sessions[issue.mac], r.value)
  {
    IssueTells(w, issue.mac, issue.drawn, issue.kept, issue.now, issue.ttl);
    IssuedIsClaimable(w, issue.mac, issue.drawn, issue.kept, issue.now, issue.ttl);
    StepKeeps(w, issue);
    var ticket := IssueTicket(w, issue.mac, issue.drawn, issue.kept, issue.now, issue.ttl).1.value;
    RemainderSurvivesRetirement(Step(w, issue), es, issue.mac, ticket.handle, ticket.expiresAt,
                                back, now, probe, reading);
  }
}
