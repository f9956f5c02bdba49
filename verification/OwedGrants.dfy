/** Claims of customers who paid and got no access: each is retried by a monitor of its own until
    it is applied or its window passes. The steps are the program's lock regions, in any order. */
module OwedGrants {
  import opened Basics
  import opened Words

  const BYTES_MAX_AGE: int := 24 * 3600 * SECOND

  datatype State = Owed | Granted | Expired

  /** `claim` is history: which claim the record under a reference stands for. */
  datatype Record = Record(claim: nat, state: State, processing: bool, deadline: int, attempts: nat)

  /** Where a monitor stands between two lock regions. */
  datatype Phase =
    | Idle
    | Checking(reference: string)
    | Expiring(reference: string)
    | Sleeping(reference: string)
    | Applying(reference: string, claim: nat)
    | Recording(reference: string, claim: nat)

  /** `applied` is history: how often access was applied for each claim. */
  datatype World = World(records: map<string, Record>, monitors: map<nat, Phase>, claims: nat, applied: map<nat, nat>)

  datatype Event =
    | RecordOwed(reference: string, deadline: int, monitor: nat)
    | Check(monitor: nat, now: int)
    | Expire(monitor: nat)
    | Wake(monitor: nat)
    | Apply(monitor: nat, ok: bool)
    | Finish(monitor: nat)

  // ------------------------------------------------------------ when a claim lapses

  /** A time grant is worthless after its window; a data grant is kept for a day. */
  function Deadline(createdAt: int, metric: Metric, allotment: uint64): int {
    if metric == Milliseconds then createdAt + SignedWrap64(allotment * MILLISECOND)
    else createdAt + BYTES_MAX_AGE
  }

  /** A time claim lapses exactly with the time paid for unless that time, in nanoseconds,
      overflows a 64-bit duration. */
  lemma DeadlineIff(createdAt: int, allotment: uint64)
    ensures Deadline(createdAt, Milliseconds, allotment) == createdAt + allotment * MILLISECOND
       <==> allotment <= MAX_DURATION / MILLISECOND
  {
    if allotment <= MAX_DURATION / MILLISECOND {
      assert 0 <= allotment * MILLISECOND <= MAX_DURATION;
    } else {
      assert allotment * MILLISECOND > MAX_DURATION;
    }
  }

  /** A data claim, of whatever size, lapses a day after it was made. */
  lemma DataClaimLasts(createdAt: int, metric: Metric, allotment: uint64)
    requires metric != Milliseconds
    ensures Deadline(createdAt, metric, allotment) == createdAt + 86_400 * SECOND
  {
  }

  /** The first allotment too long for a duration lapses before it was bought. */
  lemma WindowOverflows(createdAt: int)
    ensures Deadline(createdAt, Milliseconds, 9_223_372_036_855) < createdAt
  {
  }

  // ------------------------------------------------------------ the steps

  function At(w: World, monitor: nat): Phase {
    if monitor in w.monitors then w.monitors[monitor] else Idle
  }

  function Applied(w: World, claim: nat): nat {
    if claim in w.applied then w.applied[claim] else 0
  }

  function Goto(w: World, monitor: nat, p: Phase): World {
    w.(monitors := w.monitors[monitor := p])
  }

  predicate IsOwed(w: World, reference: string) {
    reference in w.records && w.records[reference].state == Owed
  }

  function Put(w: World, reference: string, r: Record): World {
    w.(records := w.records[reference := r])
  }

  /** A claim already owed is not recorded twice; any other reference starts a new claim and a
      monitor for it. */
  function Recorded(w: World, reference: string, deadline: int, monitor: nat): World {
    if reference == "" || IsOwed(w, reference) then w
    else
      Goto(Put(w, reference, Record(w.claims, Owed, false, deadline, 0)), monitor, Checking(reference))
        .(claims := w.claims + 1)
  }

  function Step(w: World, e: Event): World {
    match e
    case RecordOwed(reference, deadline, monitor) => Recorded(w, reference, deadline, monitor)
    case Check(monitor, now) =>
      if !At(w, monitor).Checking? then w
      else
        var reference := At(w, monitor).reference;
        if !IsOwed(w, reference) || w.records[reference].processing then Goto(w, monitor, Idle)
        else if now > w.records[reference].deadline then Goto(w, monitor, Expiring(reference))
        else Goto(w, monitor, Sleeping(reference))
    case Expire(monitor) =>
      if !At(w, monitor).Expiring? then w
      else
        var reference := At(w, monitor).reference;
        if !IsOwed(w, reference) then Goto(w, monitor, Idle)
        else Goto(Put(w, reference, w.records[reference].(state := Expired)), monitor, Idle)
    case Wake(monitor) =>
      if !At(w, monitor).Sleeping? then w
      else
        var reference := At(w, monitor).reference;
        if !IsOwed(w, reference) || w.records[reference].processing then Goto(w, monitor, Idle)
        else
          var r := w.records[reference];
          Goto(Put(w, reference, r.(processing := true)), monitor, Applying(reference, r.claim))
    case Apply(monitor, ok) =>
      if !At(w, monitor).Applying? then w
      else
        var p := At(w, monitor);
        if ok then
          Goto(w, monitor, Recording(p.reference, p.claim)).(applied := w.applied[p.claim := Applied(w, p.claim) + 1])
        else
          var failed := if IsOwed(w, p.reference)
                        then Put(w, p.reference, w.records[p.reference].(processing := false,
                                                   attempts := w.records[p.reference].attempts + 1))
                        else w;
          Goto(failed, monitor, Checking(p.reference))
    case Finish(monitor) =>
      if !At(w, monitor).Recording? then w
      else
        var reference := At(w, monitor).reference;
        var done := if reference in w.records
                    then Put(w, reference, w.records[reference].(state := Granted, processing := false)) else w;
        Goto(done, monitor, Idle)
  }

  /** A new monitor is a new goroutine. */
  predicate Allowed(w: World, e: Event) {
    e.RecordOwed? ==> e.monitor !in w.monitors
  }

  function Run(w: World, es: seq<Event>): World {
    if es == [] then w else Step(Run(w, es[..|es| - 1]), es[|es| - 1])
  }

  predicate AllowedRun(w: World, es: seq<Event>) {
    es != [] ==> AllowedRun(w, es[..|es| - 1]) && Allowed(Run(w, es[..|es| - 1]), es[|es| - 1])
  }

  const EMPTY: World := World(map[], map[], 0, map[])

  // ------------------------------------------------------------ the invariant

  predicate Serves(p: Phase, reference: string) { !p.Idle? && p.reference == reference }

  predicate OnDuty(w: World, reference: string) {
    exists monitor :: monitor in w.monitors && Serves(w.monitors[monitor], reference)
  }

  predicate MonitorOk(w: World, monitor: nat)
    requires monitor in w.monitors
  {
    var p := w.monitors[monitor];
    !p.Idle? ==>
      && IsOwed(w, p.reference)
      && var r := w.records[p.reference];
         && (r.processing <==> p.Applying? || p.Recording?)
         && (p.Applying? || p.Recording? ==> p.claim == r.claim)
         && Applied(w, r.claim) == if p.Recording? then 1 else 0
  }

  predicate OneMonitorEach(w: World) {
    forall a, b :: (a in w.monitors && b in w.monitors && !w.monitors[a].Idle?
                    && Serves(w.monitors[b], w.monitors[a].reference)) ==> a == b
  }

  predicate RecordOk(w: World, reference: string)
    requires reference in w.records
  {
    var r := w.records[reference];
    && r.claim < w.claims
    && (r.state == Owed ==> OnDuty(w, reference))
    && (r.state == Granted ==> Applied(w, r.claim) == 1)
    && (r.state == Expired ==> Applied(w, r.claim) == 0)
  }

  predicate OneRecordEach(w: World) {
    forall a, b :: a in w.records && b in w.records && w.records[a].claim == w.records[b].claim ==> a == b
  }

  predicate Inv(w: World) {
    && (forall monitor :: monitor in w.monitors ==> MonitorOk(w, monitor))
    && OneMonitorEach(w)
    && (forall reference :: reference in w.records ==> RecordOk(w, reference))
    && OneRecordEach(w)
    && (forall claim :: claim in w.applied ==> claim < w.claims && w.applied[claim] <= 1)
  }

  /** When one monitor moves on, a reference stays served unless that monitor left it. */
  lemma StaysOnDuty(w: World, w': World, monitor: nat, p: Phase)
    requires w'.monitors == w.monitors[monitor := p]
    ensures forall x :: OnDuty(w, x) && (Serves(At(w, monitor), x) ==> Serves(p, x)) ==> OnDuty(w', x)
    ensures forall x :: Serves(p, x) ==> OnDuty(w', x)
  {
    forall x | OnDuty(w, x) && (Serves(At(w, monitor), x) ==> Serves(p, x)) ensures OnDuty(w', x) {
      var v :| v in w.monitors && Serves(w.monitors[v], x);
      assert Serves(w'.monitors[v], x);
    }
    assert w'.monitors[monitor] == p;
  }

  lemma RecordKeeps(w: World, reference: string, deadline: int, monitor: nat)
    requires Inv(w) && monitor !in w.monitors
    ensures Inv(Recorded(w, reference, deadline, monitor))
  {
    var w' := Recorded(w, reference, deadline, monitor);
    if w' != w {
      StaysOnDuty(w, w', monitor, Checking(reference));
      forall v | v in w'.monitors ensures MonitorOk(w', v) {
        if v != monitor { assert MonitorOk(w, v); }
      }
      forall v | v in w.monitors ensures !Serves(w.monitors[v], reference) { assert MonitorOk(w, v); }
      forall x | x in w'.records ensures RecordOk(w', x) {
        if x != reference { assert RecordOk(w, x); }
      }
      forall a, b | a in w'.records && b in w'.records && w'.records[a].claim == w'.records[b].claim ensures a == b {
        if a != reference { assert RecordOk(w, a); }
        if b != reference { assert RecordOk(w, b); }
      }
    }
  }

  /** One monitor's step on the record it serves: the record keeps its claim, the monitor stays
      with it or leaves it settled, and the books of the two still agree. */
  lemma ServeKeeps(w: World, w': World, monitor: nat, p: Phase)
    requires Inv(w) && !At(w, monitor).Idle?
    requires w'.monitors == w.monitors[monitor := p] && w'.claims == w.claims
    requires var reference := At(w, monitor).reference;
             && (p.Idle? || p.reference == reference)
             && reference in w.records && reference in w'.records
             && w'.records == w.records[reference := w'.records[reference]]
             && w'.records[reference].claim == w.records[reference].claim
             && w'.applied.Keys <= w.applied.Keys + {w.records[reference].claim}
             && (forall c :: c != w.records[reference].claim ==> Applied(w', c) == Applied(w, c))
             && Applied(w', w.records[reference].claim) <= 1
             && MonitorOk(w', monitor)
             && (w'.records[reference].state == Owed ==> !p.Idle?)
             && (w'.records[reference].state == Granted ==> Applied(w', w.records[reference].claim) == 1)
             && (w'.records[reference].state == Expired ==> Applied(w', w.records[reference].claim) == 0)
    ensures Inv(w')
  {
    var reference := At(w, monitor).reference;
    StaysOnDuty(w, w', monitor, p);
    assert RecordOk(w, reference);
    forall v | v in w'.monitors ensures MonitorOk(w', v) {
      if v != monitor {
        assert MonitorOk(w, v);
        ServedApart(w, monitor, v);
      }
    }
    forall x | x in w'.records ensures RecordOk(w', x) { assert RecordOk(w, x); }
    forall c | c in w'.applied ensures c < w'.claims && w'.applied[c] <= 1 {
      if c != w.records[reference].claim { assert w'.applied[c] == Applied(w', c); }
    }
  }

  lemma ServedApart(w: World, monitor: nat, v: nat)
    requires Inv(w) && monitor in w.monitors && v in w.monitors && v != monitor
    requires !w.monitors[monitor].Idle?
    ensures !w.monitors[v].Idle? ==>
              && w.monitors[v].reference != w.monitors[monitor].reference
              && IsOwed(w, w.monitors[v].reference) && IsOwed(w, w.monitors[monitor].reference)
              && w.records[w.monitors[v].reference].claim != w.records[w.monitors[monitor].reference].claim
  {
    assert MonitorOk(w, v) && MonitorOk(w, monitor);
    assert !Serves(w.monitors[v], w.monitors[monitor].reference);
  }

  lemma StepKeeps(w: World, e: Event)
    requires Inv(w) && Allowed(w, e)
    ensures Inv(Step(w, e))
  {
    if e.RecordOwed? {
      RecordKeeps(w, e.reference, e.deadline, e.monitor);
    } else if Step(w, e) != w {
      assert MonitorOk(w, e.monitor) && RecordOk(w, At(w, e.monitor).reference);
      ServeKeeps(w, Step(w, e), e.monitor, Step(w, e).monitors[e.monitor]);
    }
  }

  lemma {:induction false} RunKeeps(w: World, es: seq<Event>)
    requires Inv(w) && AllowedRun(w, es)
    ensures Inv(Run(w, es))
  {
    if es == [] {
    } else {
      RunKeeps(w, es[..|es| - 1]);
      StepKeeps(Run(w, es[..|es| - 1]), es[|es| - 1]);
    }
  }

  // ------------------------------------------------------------ the guarantees

  /** Under every interleaving each claim is applied at most once; a record says granted exactly
      when its claim was applied and noted, and an expired one was never applied. */
  lemma AppliedAtMostOnce(es: seq<Event>, claim: nat)
    requires AllowedRun(EMPTY, es)
    ensures Applied(Run(EMPTY, es), claim) <= 1
    ensures forall r :: r in Run(EMPTY, es).records ==>
              var rec := Run(EMPTY, es).records[r];
              (rec.state == Granted ==> Applied(Run(EMPTY, es), rec.claim) == 1)
              && (rec.state == Expired ==> Applied(Run(EMPTY, es), rec.claim) == 0)
  {
    RunKeeps(EMPTY, es);
    var w := Run(EMPTY, es);
    forall r | r in w.records ensures RecordOk(w, r) {}
  }

  /** A claim that is owed always has exactly one monitor, and no other reference has any. */
  lemma OwedIffMonitored(es: seq<Event>, reference: string)
    requires AllowedRun(EMPTY, es)
    ensures IsOwed(Run(EMPTY, es), reference) <==> OnDuty(Run(EMPTY, es), reference)
    ensures forall a, b :: Serves(At(Run(EMPTY, es), a), reference) && Serves(At(Run(EMPTY, es), b), reference)
              ==> a == b
  {
    RunKeeps(EMPTY, es);
    var w := Run(EMPTY, es);
    if IsOwed(w, reference) { assert RecordOk(w, reference); }
    if OnDuty(w, reference) {
      var m :| m in w.monitors && Serves(w.monitors[m], reference);
      assert MonitorOk(w, m);
    }
  }

  /** Once settled, a claim's record never changes again except by a new claim taking its place. */
  lemma StepSettled(w: World, e: Event, reference: string)
    requires Inv(w) && Allowed(w, e) && reference in w.records && w.records[reference].state != Owed
    ensures reference in Step(w, e).records
    ensures var r, r' := w.records[reference], Step(w, e).records[reference];
            r' == r || (e.RecordOwed? && e.reference == reference && r'.claim == w.claims > r.claim)
    ensures Applied(Step(w, e), w.records[reference].claim) == Applied(w, w.records[reference].claim)
  {
    assert RecordOk(w, reference);
    if !e.RecordOwed? && !At(w, e.monitor).Idle? {
      assert MonitorOk(w, e.monitor);
    }
  }

  /** A claim that was never applied and whose record, if it still has one, is expired. */
  predicate Lapsed(w: World, claim: nat) {
    && claim < w.claims && Applied(w, claim) == 0
    && forall x :: x in w.records && w.records[x].claim == claim ==> w.records[x].state == Expired
  }

  lemma StepKeepsLapsed(w: World, e: Event, claim: nat)
    requires Inv(w) && Allowed(w, e) && Lapsed(w, claim)
    ensures Lapsed(Step(w, e), claim)
  {
    if !e.RecordOwed? && !At(w, e.monitor).Idle? {
      assert MonitorOk(w, e.monitor);
    }
  }

  /** No claim is ever applied after its record was marked expired, whatever takes its place. */
  lemma {:induction false} NeverAppliedAfterExpiry(w: World, es: seq<Event>, reference: string)
    requires Inv(w) && AllowedRun(w, es) && reference in w.records && w.records[reference].state == Expired
    ensures Lapsed(Run(w, es), w.records[reference].claim)
  {
    if es == [] {
      assert RecordOk(w, reference);
    } else {
      NeverAppliedAfterExpiry(w, es[..|es| - 1], reference);
      RunKeeps(w, es[..|es| - 1]);
      StepKeepsLapsed(Run(w, es[..|es| - 1]), es[|es| - 1], w.records[reference].claim);
    }
  }

  /** A claim is recorded exactly if it has a reference that is not owed already; it starts owed, not
      in work, with its own deadline and a monitor of its own, and no other record changes. */
  lemma ClaimRecorded(w: World, reference: string, deadline: int, monitor: nat)
    ensures var w' := Recorded(w, reference, deadline, monitor);
            && (w'.claims == w.claims <==> reference == "" || IsOwed(w, reference))
            && (w'.claims == w.claims ==> w' == w)
            && (w'.claims != w.claims ==>
                  && w'.claims == w.claims + 1 && w'.applied == w.applied
                  && w'.records == w.records[reference := Record(w.claims, Owed, false, deadline, 0)]
                  && w'.monitors == w.monitors[monitor := Checking(reference)])
  {
  }

  // ------------------------------------------------------------ no claim lapses early

  /** Some monitor of the run looked at the clock after the deadline. */
  predicate SeenLate(es: seq<Event>, deadline: int) {
    exists k :: 0 <= k < |es| && es[k].Check? && es[k].now > deadline
  }

  lemma SeenLateMore(es: seq<Event>, deadline: int)
    requires es != [] && (SeenLate(es[..|es| - 1], deadline) || (es[|es| - 1].Check? && es[|es| - 1].now > deadline))
    ensures SeenLate(es, deadline)
  {
    var before := es[..|es| - 1];
    if k :| 0 <= k < |before| && before[k].Check? && before[k].now > deadline { assert es[k] == before[k]; }
  }

  /** Whoever is about to expire a claim, and whatever has expired, is late. */
  ghost predicate Late(w: World, es: seq<Event>) {
    && (forall m :: At(w, m).Expiring? && At(w, m).reference in w.records ==>
          SeenLate(es, w.records[At(w, m).reference].deadline))
    && (forall r :: r in w.records && w.records[r].state == Expired ==> SeenLate(es, w.records[r].deadline))
  }

  lemma StepLate(w: World, es: seq<Event>, r: string)
    requires es != [] && Inv(w) && Allowed(w, es[|es| - 1]) && Late(w, es[..|es| - 1])
    requires r in Step(w, es[|es| - 1]).records && Step(w, es[|es| - 1]).records[r].state == Expired
    ensures SeenLate(es, Step(w, es[|es| - 1]).records[r].deadline)
  {
    SeenLateMore(es, Step(w, es[|es| - 1]).records[r].deadline);
  }

  lemma StepExpiring(w: World, es: seq<Event>, m: nat)
    requires es != [] && Inv(w) && Allowed(w, es[|es| - 1]) && Late(w, es[..|es| - 1])
    requires var w' := Step(w, es[|es| - 1]); At(w', m).Expiring? && At(w', m).reference in w'.records
    ensures var w' := Step(w, es[|es| - 1]); SeenLate(es, w'.records[At(w', m).reference].deadline)
  {
    var w', e := Step(w, es[|es| - 1]), es[|es| - 1];
    var r := At(w', m).reference;
    if At(w, m).Expiring? {
      assert MonitorOk(w, m);
      if !e.RecordOwed? && e.monitor != m && w' != w {
        assert MonitorOk(w, e.monitor);
        ServedApart(w, m, e.monitor);
      }
    }
    SeenLateMore(es, w'.records[r].deadline);
  }

  lemma {:induction false} RunLate(es: seq<Event>)
    requires AllowedRun(EMPTY, es)
    ensures Late(Run(EMPTY, es), es)
    decreases |es|
  {
    if es == [] {
    } else {
      var before := es[..|es| - 1];
      var w := Run(EMPTY, before);
      RunLate(before);
      RunKeeps(EMPTY, before);
      forall m | At(Run(EMPTY, es), m).Expiring? && At(Run(EMPTY, es), m).reference in Run(EMPTY, es).records
        ensures SeenLate(es, Run(EMPTY, es).records[At(Run(EMPTY, es), m).reference].deadline)
      {
        StepExpiring(w, es, m);
      }
      forall r | r in Run(EMPTY, es).records && Run(EMPTY, es).records[r].state == Expired
        ensures SeenLate(es, Run(EMPTY, es).records[r].deadline)
      {
        StepLate(w, es, r);
      }
    }
  }

  /** Over every run a claim is marked expired only after a monitor found its deadline past. */
  lemma NeverExpiredEarly(es: seq<Event>, reference: string)
    requires AllowedRun(EMPTY, es) && reference in Run(EMPTY, es).records
    requires Run(EMPTY, es).records[reference].state == Expired
    ensures exists k :: 0 <= k < |es| && es[k].Check? && es[k].now > Run(EMPTY, es).records[reference].deadline
  {
    RunLate(es);
    assert SeenLate(es, Run(EMPTY, es).records[reference].deadline);
  }
}
