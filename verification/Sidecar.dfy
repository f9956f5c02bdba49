/** The wallet sidecar's client: one request line, one response line, over a connection that can
    fail at any point. A read-only request may be re-issued; one that moves money may not, once
    it has reached the wire. */
module Sidecar {
  import opened Basics
  import opened Words

  const READ_ONLY: set<string> := {
    "info", "get_balance", "get_balance_by_mint", "get_all_mint_balances",
    "decode_token", "mint_quote_state", "swap_fee_sats"
  }

  const ATTEMPTS: nat := 2

  datatype Request = Request(id: uint64, rpc: string, params: string)

  /** What the read after a written request met. */
  datatype Line = Lost | Garbled | Refusal | Success(decodes: bool)

  /** What the network and the daemon do to one attempt. */
  datatype Attempt = Attempt(dials: bool, deadlineSet: bool, writes: bool, line: Line)

  /** Four parts are history the client never looks at: `received` is everything the daemon was
      ever sent; `lines`, request by request, what the read after it met; `unread` lists, by
      position in `received`, the requests whose response line is still on the open connection;
      and `heard` is the position of the one whose line was read last. */
  datatype Channel = Channel(open: bool, nextID: uint64, received: seq<Request>, lines: seq<Line>,
                             unread: seq<nat>, heard: nat)

  datatype Outcome =
    | Done
    | Refused
    | Undecodable
    | Unencodable
    | NotConnected
    | Ambiguous(id: uint64)

  datatype Try = Finished(outcome: Outcome) | Again

  predicate MovesMoney(m: string) { m !in READ_ONLY }

  predicate Answered(r: Outcome) { r.Done? || r.Refused? || r.Undecodable? }

  /** Nothing is waiting to be read on the connection the next call will use. */
  predicate Quiet(s: Channel) { s.open ==> s.unread == [] }

  // ------------------------------------------------------------ one attempt, one call

  function Dialled(s: Channel): Channel {
    if s.open then s else s.(open := true, unread := [])
  }

  function Closed(s: Channel): Channel {
    s.(open := false, unread := [])
  }

  function Numbered(s: Channel): Channel {
    s.(nextID := Wrap64(s.nextID + 1))
  }

  /** The request reaches the daemon, whose response line joins those still to be read. */
  function Sent(s: Channel, m: string, params: string, line: Line): Channel {
    s.(received := s.received + [Request(s.nextID, m, params)], lines := s.lines + [line],
       unread := s.unread + [|s.received|])
  }

  /** The oldest response line on the connection is read. */
  function Read(s: Channel): Channel
    requires s.unread != []
  {
    s.(unread := s.unread[1..], heard := s.unread[0])
  }

  function TryOnce(s: Channel, m: string, params: string, a: Attempt): (Channel, Try) {
    if !s.open && !a.dials then (s, Finished(NotConnected))
    else
      var numbered := Numbered(Dialled(s));
      if !a.deadlineSet || !a.writes then (Closed(numbered), Again)
      else
        var sent := Sent(numbered, m, params, a.line);
        match a.line
        case Refusal => (Read(sent), Finished(Refused))
        case Success(decodes) => (Read(sent), Finished(if decodes then Done else Undecodable))
        case _ => (Closed(sent), if MovesMoney(m) then Finished(Ambiguous(sent.nextID)) else Again)
  }

  function Attempts(s: Channel, m: string, params: string, script: seq<Attempt>): (Channel, Outcome)
    decreases |script|
  {
    if script == [] then (s, NotConnected)
    else
      var (s', t) := TryOnce(s, m, params, script[0]);
      match t
      case Finished(r) => (s', r)
      case Again => Attempts(s', m, params, script[1..])
  }

  /** The requests a step delivered to the daemon. */
  function Delivered(s: Channel, s': Channel): seq<Request> {
    if |s.received| <= |s'.received| then s'.received[|s.received|..] else []
  }

  /** Every one of these requests asks what this call asks. */
  predicate CopiesOf(rs: seq<Request>, m: string, params: string) {
    forall i :: 0 <= i < |rs| ==> rs[i].rpc == m && rs[i].params == params
  }

  // ------------------------------------------------------------ what one call guarantees

  lemma TryOnceEffect(s: Channel, m: string, params: string, a: Attempt)
    ensures var (s', t) := TryOnce(s, m, params, a);
            && s.received <= s'.received && CopiesOf(Delivered(s, s'), m, params)
            && |Delivered(s, s')| <= 1
            && (t.Again? ==> !s'.open && (MovesMoney(m) ==> Delivered(s, s') == []))
            && (t.Finished? && t.outcome.NotConnected? ==> Delivered(s, s') == [])
            && (t.Finished? && !t.outcome.NotConnected? ==> |Delivered(s, s')| == 1)
            && (t.Finished? && t.outcome.Ambiguous? ==> MovesMoney(m) && !s'.open)
            && (t.Finished? ==> !t.outcome.Unencodable?)
  {
  }

  /** The line met by the last request a call wrote, if it wrote one. */
  function LastLine(s: Channel, s': Channel): Option<Line> {
    if |s.lines| < |s'.lines| then Some(s'.lines[|s'.lines| - 1]) else None
  }

  /** What a call reports is what its last request met: done and decoded, refused by the daemon, or
      answered in vain; outcome unknown, with the number of that request, for one that moves money
      and met no answer; and not connected if none was written, or none but read-only ones that met
      no answer. */
  predicate Reports(s: Channel, s': Channel, m: string, r: Outcome) {
    var line := LastLine(s, s');
    && (r == Done <==> line == Some(Success(true)))
    && (r == Refused <==> line == Some(Refusal))
    && (r == Undecodable <==> line == Some(Success(false)))
    && (r.Ambiguous? <==> MovesMoney(m) && (line == Some(Lost) || line == Some(Garbled)))
    && (r == NotConnected <==> line == None || (!MovesMoney(m) && (line == Some(Lost) || line == Some(Garbled))))
    && (r != NotConnected ==> s'.received != [] && s'.received[|s'.received| - 1].id == s'.nextID)
    && (r.Ambiguous? ==> r.id == s'.nextID)
  }

  lemma {:induction false} CallReports(s: Channel, m: string, params: string, script: seq<Attempt>)
    ensures var (s', r) := Attempts(s, m, params, script);
            s.lines <= s'.lines && Reports(s, s', m, r)
    decreases |script|
  {
    if script == [] {
    } else {
      var (s1, t) := TryOnce(s, m, params, script[0]);
      if t.Again? { CallReports(s1, m, params, script[1..]); }
    }
  }

  /** An attempt reaches the daemon. */
  predicate Reaches(open: bool, a: Attempt) {
    (open || a.dials) && a.deadlineSet && a.writes
  }

  /** When a call of two attempts makes the second: if it was connected for the first, and that did
      not reach the daemon, or did without an answer and was read-only. */
  predicate Retries(s: Channel, m: string, a: Attempt) {
    if Reaches(s.open, a) then !MovesMoney(m) && (a.line == Lost || a.line == Garbled)
    else s.open || a.dials
  }

  /** What one attempt writes, and whether another may follow. */
  lemma AttemptWrites(s: Channel, m: string, params: string, a: Attempt)
    ensures var (s', t) := TryOnce(s, m, params, a);
            && s'.lines == s.lines + (if Reaches(s.open, a) then [a.line] else [])
            && |s'.received| - |s.received| == |s'.lines| - |s.lines|
            && (t.Again? <==> Retries(s, m, a)) && (t.Again? ==> !s'.open)
            && (!s.open && !a.dials ==> s' == s && t == Finished(NotConnected))
  {
  }

  /** How many requests a call of two attempts writes, and what each of them met. A dial that fails
      ends the call. */
  lemma TwoAttempts(s: Channel, m: string, params: string, a: Attempt, b: Attempt)
    ensures var s' := Attempts(s, m, params, [a, b]).0;
            var second := Retries(s, m, a) && Reaches(false, b);
            && s'.lines == s.lines + (if Reaches(s.open, a) then [a.line] else []) + (if second then [b.line] else [])
            && |s'.received| - |s.received| == |s'.lines| - |s.lines|
            && (!s.open && !a.dials ==> Attempts(s, m, params, [a, b]) == (s, NotConnected))
  {
    assert [a, b][1..] == [b] && [b][1..] == [];
    var s1 := TryOnce(s, m, params, a).0;
    AttemptWrites(s, m, params, a);
    AttemptWrites(s1, m, params, b);
    assert Attempts(s1, m, params, [b]).0 == TryOnce(s1, m, params, b).0;
  }

  // ------------------------------------------------------------ numbers

  /** Requests are numbered from n on, up to k, each higher than the one before. */
  predicate Rising(rs: seq<Request>, n: nat, k: nat) {
    && (forall i :: 0 <= i < |rs| ==> n < rs[i].id <= k)
    && forall i, j :: 0 <= i < j < |rs| ==> rs[i].id < rs[j].id
  }

  /** While the counter does not come round, every request a call writes has a number of its own,
      higher than all before. */
  lemma {:induction false} CallNumbers(s: Channel, m: string, params: string, script: seq<Attempt>)
    requires s.nextID + |script| <= MAX_UINT64
    ensures var s' := Attempts(s, m, params, script).0;
            && s.received <= s'.received && s.nextID <= s'.nextID <= s.nextID + |script|
            && Rising(Delivered(s, s'), s.nextID, s'.nextID)
    decreases |script|
  {
    if script == [] {
    } else {
      var (s1, t) := TryOnce(s, m, params, script[0]);
      TryOnceEffect(s, m, params, script[0]);
      TryOnceNumbers(s, m, params, script[0]);
      if t.Again? {
        CallNumbers(s1, m, params, script[1..]);
        var s' := Attempts(s1, m, params, script[1..]).0;
        assert Delivered(s, s') == Delivered(s, s1) + Delivered(s1, s');
      }
    }
  }

  lemma TryOnceNumbers(s: Channel, m: string, params: string, a: Attempt)
    requires s.nextID < MAX_UINT64
    ensures var s' := TryOnce(s, m, params, a).0;
            && s.received <= s'.received && s.nextID <= s'.nextID <= s.nextID + 1
            && Rising(Delivered(s, s'), s.nextID, s'.nextID)
  {
  }

  // ------------------------------------------------------------ pairing

  /** A response line is the answer to the request just written exactly when the connection had
      none left over, and then none is left over afterwards. */
  lemma PairingNeedsQuiet(s: Channel, m: string, params: string, a: Attempt)
    requires forall i :: 0 <= i < |s.unread| ==> s.unread[i] < |s.received|
    ensures var (s', t) := TryOnce(s, m, params, a);
            t.Finished? && Answered(t.outcome) ==>
              (s'.heard == |s'.received| - 1 <==> Quiet(s)) && (Quiet(s) <==> s'.unread == [])
  {
  }

  /** One call, under every failure of every attempt: a money-moving request is delivered at most
      once; not-connected means it was not, anything else means it was; a response that is read
      answers the request this very call wrote, although ids are never compared. */
  lemma {:induction false} CallDelivers(s: Channel, m: string, params: string, script: seq<Attempt>)
    requires Quiet(s)
    ensures var (s', r) := Attempts(s, m, params, script);
            && s.received <= s'.received && Quiet(s')
            && |Delivered(s, s')| <= |script| && CopiesOf(Delivered(s, s'), m, params)
            && (MovesMoney(m) ==> |Delivered(s, s')| == if r.NotConnected? then 0 else 1)
            && (r.Ambiguous? ==> MovesMoney(m) && !s'.open)
            && !r.Unencodable?
            && (Answered(r) ==> Delivered(s, s') != [] && s'.heard == |s'.received| - 1 && s'.open)
    decreases |script|
  {
    if script == [] {
    } else {
      TryOnceEffect(s, m, params, script[0]);
      PairingNeedsQuiet(Dialled(s), m, params, script[0]);
      var (s1, t) := TryOnce(s, m, params, script[0]);
      if t.Again? {
        CallDelivers(s1, m, params, script[1..]);
        var s' := Attempts(s1, m, params, script[1..]).0;
        assert Delivered(s, s') == Delivered(s, s1) + Delivered(s1, s');
      }
    }
  }

  // ------------------------------------------------------------ any number of calls

  datatype Event =
    | Call(rpc: string, params: string, encodes: bool, script: seq<Attempt>)
    | ShutdownConn

  function Step(s: Channel, e: Event): (Channel, Outcome) {
    match e
    case Call(m, params, encodes, script) => if !encodes then (s, Unencodable) else Attempts(s, m, params, script)
    case ShutdownConn => (Closed(s), NotConnected)
  }

  function Run(s: Channel, es: seq<Event>): Channel {
    if es == [] then s else Step(Run(s, es[..|es| - 1]), es[|es| - 1]).0
  }

  /** What each event of a run came to ... */
  function Outcomes(s: Channel, es: seq<Event>): seq<Outcome> {
    if es == [] then [] else Outcomes(s, es[..|es| - 1]) + [Step(Run(s, es[..|es| - 1]), es[|es| - 1]).1]
  }

  /** ... and what it made the daemon receive. */
  function Deliveries(s: Channel, es: seq<Event>): seq<seq<Request>> {
    if es == [] then [] else Deliveries(s, es[..|es| - 1]) + [Delivered(Run(s, es[..|es| - 1]), Run(s, es))]
  }

  function Flat(ds: seq<seq<Request>>): seq<Request> {
    if ds == [] then [] else Flat(ds[..|ds| - 1]) + ds[|ds| - 1]
  }

  /** What an event may make the daemon receive: a call that moves money, one copy of its own
      request, or none if it failed cleanly; any other call, no more copies of its own request
      than it made attempts; and a disconnection, nothing. */
  predicate AsCalled(e: Event, r: Outcome, rs: seq<Request>) {
    match e
    case ShutdownConn => rs == []
    case Call(m, params, encodes, script) =>
      && CopiesOf(rs, m, params)
      && |rs| <= (if encodes then |script| else 0)
      && (MovesMoney(m) ==> |rs| == if r.NotConnected? || r.Unencodable? then 0 else 1)
  }

  /** Every event of a run had its own outcome and its own share. */
  predicate Attributed(es: seq<Event>, rs: seq<Outcome>, ds: seq<seq<Request>>) {
    |rs| == |es| && |ds| == |es| && forall i :: 0 <= i < |es| ==> AsCalled(es[i], rs[i], ds[i])
  }

  lemma StepDelivers(s: Channel, e: Event)
    requires Quiet(s)
    ensures var (s', r) := Step(s, e);
            && Quiet(s') && s.received <= s'.received && AsCalled(e, r, Delivered(s, s'))
            && (e.Call? && Answered(r) ==> |s.received| <= s'.heard == |s'.received| - 1)
  {
    if e.Call? && e.encodes { CallDelivers(s, e.rpc, e.params, e.script); }
  }

  /** Over any run of calls and disconnections what the daemon received falls into one share per
      event, in order: one copy of the request of each money-moving call that did not report a
      clean failure, none of those that did, and of the others no more than their attempts. */
  lemma {:induction false} RunDeliversOnce(s: Channel, es: seq<Event>)
    requires Quiet(s)
    ensures Quiet(Run(s, es)) && Run(s, es).received == s.received + Flat(Deliveries(s, es))
    ensures Attributed(es, Outcomes(s, es), Deliveries(s, es))
    decreases |es|
  {
    if es == [] {
    } else {
      var before := es[..|es| - 1];
      RunDeliversOnce(s, before);
      StepDelivers(Run(s, before), es[|es| - 1]);
      OneMoreShare(s, es);
      OneMoreAttributed(s, es);
    }
  }

  lemma OneMoreShare(s: Channel, es: seq<Event>)
    requires es != []
    requires var before := es[..|es| - 1];
             && Run(s, before).received <= Run(s, es).received
             && Run(s, before).received == s.received + Flat(Deliveries(s, before))
    ensures Run(s, es).received == s.received + Flat(Deliveries(s, es))
  {
    var before := es[..|es| - 1];
    FlatMore(Deliveries(s, before), Delivered(Run(s, before), Run(s, es)));
    WholeReceived(s.received, Run(s, before), Run(s, es), Flat(Deliveries(s, before)));
  }

  lemma FlatMore(ds: seq<seq<Request>>, d: seq<Request>)
    ensures Flat(ds + [d]) == Flat(ds) + d
  {
    assert (ds + [d])[..|ds|] == ds;
  }

  lemma WholeReceived(start: seq<Request>, s: Channel, s': Channel, shares: seq<Request>)
    requires s.received <= s'.received && s.received == start + shares
    ensures s'.received == start + (shares + Delivered(s, s'))
  {
  }

  lemma OneMoreAttributed(s: Channel, es: seq<Event>)
    requires es != []
    requires var before := es[..|es| - 1];
             && Attributed(before, Outcomes(s, before), Deliveries(s, before))
             && AsCalled(es[|es| - 1], Step(Run(s, before), es[|es| - 1]).1, Delivered(Run(s, before), Run(s, es)))
    ensures Attributed(es, Outcomes(s, es), Deliveries(s, es))
  {
    var before := es[..|es| - 1];
    var ds, rs := Deliveries(s, es), Outcomes(s, es);
    assert ds == Deliveries(s, before) + [Delivered(Run(s, before), Run(s, es))];
    assert rs == Outcomes(s, before) + [Step(Run(s, before), es[|es| - 1]).1];
    forall i | 0 <= i < |es| ensures AsCalled(es[i], rs[i], ds[i]) {
      if i < |before| { assert AsCalled(before[i], Outcomes(s, before)[i], Deliveries(s, before)[i]); }
    }
  }

  /** And whatever happened before, what it reports is what it met. */
  lemma RunReports(s: Channel, es: seq<Event>, e: Event)
    requires e.Call?
    ensures var before, (after, r) := Run(s, es), Step(Run(s, es), e);
            if e.encodes then Reports(before, after, e.rpc, r) else r == Unencodable && after == before
  {
    if e.encodes { CallReports(Run(s, es), e.rpc, e.params, e.script); }
  }

  /** Whatever happened before, a call that is answered read the answer to one of its own requests,
      the last the daemon received. */
  lemma RunAnswersOwn(s: Channel, es: seq<Event>, e: Event)
    requires Quiet(s) && e.Call? && Answered(Step(Run(s, es), e).1)
    ensures var before, after := Run(s, es), Step(Run(s, es), e).0;
            && |before.received| <= after.heard == |after.received| - 1
            && after.received[after.heard].rpc == e.rpc && after.received[after.heard].params == e.params
  {
    RunDeliversOnce(s, es);
    StepDelivers(Run(s, es), e);
    var before, after := Run(s, es), Step(Run(s, es), e).0;
    assert after.received[after.heard] == Delivered(before, after)[after.heard - |before.received|];
  }

  /** The attempts a run may make. */
  function Tries(es: seq<Event>): nat {
    if es == [] then 0
    else Tries(es[..|es| - 1]) + if es[|es| - 1].Call? then |es[|es| - 1].script| else 0
  }

  lemma RisingMore(a: seq<Request>, b: seq<Request>, n: nat, k: nat, l: nat)
    requires Rising(a, n, k) && Rising(b, k, l) && n <= k <= l
    ensures Rising(a + b, n, l)
  {
  }

  /** Over any run no two requests the daemon received carry the same number, until the counter
      comes round: each is higher than all before. */
  lemma {:induction false} RunNumbers(s: Channel, es: seq<Event>)
    requires s.nextID + Tries(es) <= MAX_UINT64
    ensures s.received <= Run(s, es).received && s.nextID <= Run(s, es).nextID <= s.nextID + Tries(es)
    ensures Rising(Delivered(s, Run(s, es)), s.nextID, Run(s, es).nextID)
    decreases |es|
  {
    if es == [] {
    } else {
      var s1, e := Run(s, es[..|es| - 1]), es[|es| - 1];
      RunNumbers(s, es[..|es| - 1]);
      if e.Call? && e.encodes { CallNumbers(s1, e.rpc, e.params, e.script); }
      assert Delivered(s, Run(s, es)) == Delivered(s, s1) + Delivered(s1, Run(s, es));
      RisingMore(Delivered(s, s1), Delivered(s1, Run(s, es)), s.nextID, s1.nextID, Run(s, es).nextID);
    }
  }

  // ------------------------------------------------------------ the client object

  class SidecarWallet {
    var open: bool
    var nextID: uint64
    ghost var received: seq<Request>
    ghost var lines: seq<Line>
    ghost var unread: seq<nat>
    ghost var heard: nat

    ghost function State(): Channel
      reads this
    {
      Channel(open, nextID, received, lines, unread, heard)
    }

    constructor ()
      ensures State() == Channel(false, 0, [], [], [], 0) && Quiet(State())
    {
      open, nextID := false, 0;
      received, lines, unread, heard := [], [], [], 0;
    }

    /** One round-trip: at most two attempts, the second only when the first provably did not
        reach the daemon or the method is read-only. */
    method Call(m: string, params: string, encodes: bool, script: seq<Attempt>) returns (r: Outcome)
      requires |script| == ATTEMPTS
      modifies this
      ensures (State(), r) == Step(old(State()), Event.Call(m, params, encodes, script))
    {
      if !encodes { return Unencodable; }
      var attempt := 0;
      while attempt < ATTEMPTS
        invariant 0 <= attempt <= ATTEMPTS
        invariant Attempts(State(), m, params, script[attempt..]) == Attempts(old(State()), m, params, script)
      {
        var a := script[attempt];
        assert script[attempt..][0] == a && script[attempt..][1..] == script[attempt + 1..];
        if !open {
          if !a.dials { return NotConnected; }
          open, unread := true, [];
        }
        nextID := Wrap64(nextID + 1);
        var written := false;
        if a.deadlineSet && a.writes {
          written := true;
          received, lines, unread := received + [Request(nextID, m, params)], lines + [a.line], unread + [|received|];
          if a.line.Refusal? || a.line.Success? {
            heard, unread := unread[0], unread[1..];
            if a.line.Refusal? { return Refused; }
            return if a.line.decodes then Done else Undecodable;
          }
        }
        open, unread := false, [];
        if written && m !in READ_ONLY { return Ambiguous(nextID); }
        attempt := attempt + 1;
      }
      return NotConnected;
    }

    method ShutdownConn()
      modifies this
      ensures State() == Closed(old(State()))
    {
      if open { open := false; }
      unread := [];
    }
  }
}
