/** The terms of a session: what a purchase leaves, when a time session has run out, and what
    sweeps, retirements and lookups do to a record. */
module SessionTerms {
  import opened Basics
  import opened Words
  import opened Sessions
  import opened SessionMeter

  /** The moment, in milliseconds, from which a time session has run out. */
  function RunsOutAt(s: Session): int {
    s.start * 1000 + s.allotment
  }

  /** There is a session at the address that a purchase adds to. */
  predicate Adds(w: World, mac: string, now: int) {
    mac in w.sessions && !(w.sessions[mac].metric == Milliseconds && now >= RunsOutAt(w.sessions[mac]))
  }

  ghost predicate SameElsewhere(w: World, w': World, mac: string) {
    && (forall m :: m != mac ==> (m in w'.sessions <==> m in w.sessions))
    && (forall m :: m != mac && m in w.sessions ==> w'.sessions[m] == w.sessions[m])
  }

  /** The terms a purchase leaves, whether or not there was a session: it starts in the second of
      the purchase, with what was unspent and what was bought, in the old metric or, if it is new,
      in the one bought; the rest of an old session stays. */
  lemma PurchaseTerms(w: World, mac: string, metric: Metric, amount: uint64, now: int, gateOk: bool)
    requires Purchase(w, mac, metric, amount, now, gateOk).1.Ok?
    ensures var (w', r) := Purchase(w, mac, metric, amount, now, gateOk);
            && mac in w'.sessions && w'.sessions[mac] == r.value
            && r.value.start * 1000 <= now < (r.value.start + 1) * 1000
            && r.value.allotment == Wrap64((if Adds(w, mac, now) then w.sessions[mac].allotment else 0) + amount)
            && r.value.metric == (if Adds(w, mac, now) then w.sessions[mac].metric else metric)
            && (Adds(w, mac, now) ==>
                  r.value == w.sessions[mac].(start := r.value.start, allotment := r.value.allotment))
            && (!Adds(w, mac, now) ==>
                  r.value.id == w.nextId && r.value.handle == "" && r.value.horizon == 0 && Meter(r.value) == 0)
            && SameElsewhere(w, w', mac) && w'.attachments == w.attachments && w'.owner == w.owner
  {
    WrapLoses(amount);
  }

  /** A purchase fails exactly if the gate does not open, for a metric nothing can be sold in or
      because it is stuck; and then it has changed nothing. */
  lemma PurchaseFails(w: World, mac: string, metric: Metric, amount: uint64, now: int, gateOk: bool)
    ensures var (w', r) := Purchase(w, mac, metric, amount, now, gateOk);
            && (r.Err? <==> !gateOk || (if Adds(w, mac, now) then w.sessions[mac].metric else metric) == Unsupported)
            && (r.Err? ==> r.error == GateFailed && w' == w)
  {
  }

  /** The session a purchase left is answered for exactly until its time is over, if it is one of
      time, and then it is gone. */
  lemma PurchaseLasts(w: World, mac: string, metric: Metric, amount: uint64, now: int, gateOk: bool, t: int)
    requires Purchase(w, mac, metric, amount, now, gateOk).1.Ok?
    ensures var (w', r) := Purchase(w, mac, metric, amount, now, gateOk);
            var (w'', found) := Lookup(w', mac, t);
            if r.value.metric == Milliseconds && t >= r.value.start * 1000 + r.value.allotment
            then found == None && mac !in w''.sessions
            else found == Some(r.value) && w'' == w'
  {
  }

  /** When the gate of a time session closes, as a Unix time: within the last second of the
      session. */
  function GateUntil(s: Session): int {
    s.start + s.allotment / 1000
  }

  lemma GateClosesInTime(s: Session)
    ensures GateUntil(s) * 1000 <= RunsOutAt(s) < (GateUntil(s) + 1) * 1000
  {
  }

  // ------------------------------------------------------------ sweeps

  /** A reading is noted in the record, and nothing else of it changes; the record goes exactly if
      the total is not below the allotment and the gate is confirmed closed. */
  lemma EnforceExact(w: World, mac: string, reading: uint64, closeOk: bool)
    requires Inv(w) && mac in w.sessions && w.sessions[mac].metric == Bytes
    requires FitsUint64(Total(Noted(w.sessions[mac], reading).trail))
    ensures var s, w' := w.sessions[mac], Enforce(w, mac, Some(reading), closeOk);
            && (mac !in w'.sessions <==> closeOk && Total(Noted(s, reading).trail) >= s.allotment)
            && (mac in w'.sessions ==>
                  var s' := w'.sessions[mac];
                  && s' == s.(usage := s'.usage, trail := s'.trail) && Metered(s')
                  && s'.usage >= s.usage && s'.usage >= reading && (s'.usage == s.usage || s'.usage == reading)
                  && Meter(s') == Total(s'.trail) >= Meter(s))
            && SameElsewhere(w, w', mac) && w'.attachments == w.attachments && w'.owner == w.owner
  {
    var s := w.sessions[mac];
    assert SessionOk(w, mac);
    NoteMetered(s, reading);
    MeteredTotal(Noted(s, reading));
    NotedMeter(s, reading);
  }

  /** The meter does not fall with a reading while its total fits. */
  lemma NotedMeter(s: Session, reading: uint64)
    requires Metered(s) && FitsUint64(Total(Noted(s, reading).trail))
    ensures Meter(Noted(s, reading)) >= Meter(s)
  {
    var last := |s.trail| - 1;
    var t := Note(s.trail, reading);
    assert t[..last] == s.trail[..last] && t[last] == s.trail[last] + [reading];
    assert t[last][..|t[last]| - 1] == s.trail[last];
    assert Total(t) == Total(s.trail[..last]) + Max(Peak(s.trail[last]), reading);
    NoteMetered(s, reading);
    MeteredTotal(s);
    MeteredTotal(Noted(s, reading));
  }

  /** Without a reading, and for sessions that are not of bytes, a sweep does nothing. */
  lemma EnforceNothing(w: World, mac: string, reading: Option<uint64>, closeOk: bool)
    requires mac in w.sessions ==> w.sessions[mac].metric != Bytes || reading == None
    ensures Enforce(w, mac, reading, closeOk) == w
  {
  }

  // ------------------------------------------------------------ retirement and lookup

  /** A record whose gate is closed is retired exactly if no ticket for it is good any more. */
  lemma RetireExact(w: World, mac: string, now: int)
    requires mac in w.sessions
    ensures var w' := RetireOrPark(w, mac, now);
            && (mac in w'.sessions <==> Unix(now) < w.sessions[mac].horizon)
            && (mac in w'.sessions ==> w' == w)
            && SameElsewhere(w, w', mac) && w'.attachments == w.attachments && w'.owner == w.owner
  {
  }

  /** A lookup answers with the record as it is, unless its time is over; then the record is gone,
      and nothing else. */
  lemma LookupExact(w: World, mac: string, now: int)
    ensures var (w', found) := Lookup(w, mac, now);
            && (found.Some? <==> Adds(w, mac, now))
            && (found.Some? ==> found.value == w.sessions[mac] && w' == w)
            && (found.None? ==> mac !in w'.sessions)
            && SameElsewhere(w, w', mac) && w'.attachments == w.attachments && w'.owner == w.owner
  {
  }
}
