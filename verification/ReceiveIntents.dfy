/** Receiving a customer's note: the in-flight mark that keeps two calls for one note apart, and
    the journal of intents that outlives the call. */
module ReceiveIntents {
  datatype State = Pending | Granted | Owed | Abandoned

  type Journal = map<string, State>

  /** What a caller learns from opening an intent: that it may move money, or what a prior
      attempt for the same note came to. */
  datatype Prior = First | Known(state: State)

  /** What NUT-07 says about the note, or that the mint could not be asked. */
  datatype Evidence = Spent | Unspent | Undecided

  // ------------------------------------------------------------ the mark and the journal

  /** The first to mark a note may go on; a note without a reference is never marked. */
  function BeginReceive(marks: set<string>, reference: string): (set<string>, bool) {
    if reference == "" then (marks, true)
    else if reference in marks then (marks, false)
    else (marks + {reference}, true)
  }

  function EndReceive(marks: set<string>, reference: string): set<string> {
    if reference == "" then marks else marks - {reference}
  }

  function BeginIntent(journal: Journal, reference: string): (Journal, Prior) {
    if reference == "" then (journal, First)
    else if reference in journal && journal[reference] != Abandoned then (journal, Known(journal[reference]))
    else (journal[reference := Pending], First)
  }

  function Resolve(journal: Journal, reference: string, to: State): Journal {
    if reference == "" || reference !in journal || journal[reference] != Pending then journal
    else journal[reference := to]
  }

  /** What evidence makes of a pending intent: spent is owed, unspent is abandoned, and without
      evidence, or without a price for what is owed, it stays pending. */
  function Decided(journal: Journal, reference: string, evidence: Evidence, priced: bool): Journal {
    match evidence
    case Spent => if priced then Resolve(journal, reference, Owed) else journal
    case Unspent => Resolve(journal, reference, Abandoned)
    case Undecided => journal
  }

  /** Granted and owed are final; pending may become anything; abandoned may be tried again. */
  predicate Onward(before: Journal, after: Journal, reference: string) {
    reference in before ==>
      && reference in after
      && (before[reference] == Granted || before[reference] == Owed ==> after[reference] == before[reference])
      && (before[reference] == Abandoned ==> after[reference] == Abandoned || after[reference] == Pending)
  }

  // ------------------------------------------------------------ who is at a note

  /** On whose behalf a note is reconciled or served: the call that took it in, the start-up that
      found its intent pending, or a resubmission that did. */
  datatype Role = OwnCall | StartUp | Resubmission

  /** Where a worker stands between two lock regions. Receiving and Late are live: the call to the
      mint is on the wire and its answer has not been consumed. Looking has found the intent pending
      and is about to read it again, without the lock. Settling has served the customer,
      and the journal does not say so yet; Asking is about to look whether the intent is pending,
      Waiting asks the mint, and Claiming has resolved the intent and has yet to open the claim. */
  datatype Phase =
    | Idle
    | Marked(reference: string)
    | Looking(reference: string)
    | Receiving(reference: string)
    | Late(reference: string)
    | Recording(reference: string)
    | Answered(reference: string)
    | Settling(reference: string, granted: bool)
    | Asking(reference: string, role: Role)
    | Waiting(reference: string, role: Role)
    | Claiming(reference: string, role: Role)
    | Closing(reference: string)

  /** What a customer gets: a session now, or a claim that is served later. */
  datatype Service = Session | Claim

  /** What the program does not keep. For each note: the calls made, those of them that are not in
      the journal, the attempts given up, how
      often it was served, by the sessions granted and the claims opened, and by which worker in
      which role. And (r, b, a): b began to reconcile r while a was at it. */
  datatype History = History(
    starts: map<string, nat>, unwritten: map<string, nat>, abandons: map<string, nat>,
    served: map<string, nat>,
    servers: map<(string, Role), nat>, met: set<(string, nat, nat)>)

  /** `restored` are the notes whose intents start-up found pending and has yet to reconcile,
      `claims` those for which an owed claim is open. */
  datatype World = World(marks: set<string>, journal: Journal, workers: map<nat, Phase>,
                         restored: set<string>, claims: set<string>, log: History)

  datatype Event =
    | Boot(worker: nat, reference: string)
    | Submit(worker: nat, reference: string)
    | Open(worker: nat)
    | Look(worker: nat)
    | Answer(worker: nat)
    | Deadline(worker: nat)
    | Grant(worker: nat)
    | Owe(worker: nat)
    | Settle(worker: nat)
    | Refuse(worker: nat)
    | Leave(worker: nat)
    | LateAnswer(worker: nat)
    | LateOwe(worker: nat)
    | Doubt(worker: nat)
    | Ask(worker: nat)
    | Hear(worker: nat, evidence: Evidence, priced: bool)
    | OpenClaim(worker: nat)
    | LateEnd(worker: nat)
    | ClaimEnds(reference: string)

  function At(w: World, worker: nat): Phase {
    if worker in w.workers then w.workers[worker] else Idle
  }

  function Count(m: map<string, nat>, reference: string): nat {
    if reference in m then m[reference] else 0
  }

  predicate IsPending(w: World, reference: string) {
    reference in w.journal && w.journal[reference] == Pending
  }

  /** Between the answer and the journal entry of a call, or between the start and the claim of a
      reconciliation. */
  predicate AtNote(p: Phase, reference: string) {
    (p.Answered? || p.Settling? || p.Waiting? || p.Claiming?) && p.reference == reference
  }

  // ------------------------------------------------------------ what a lock region does

  function Goto(w: World, worker: nat, p: Phase): World {
    w.(workers := w.workers[worker := p])
  }

  /** The journal moved on; an attempt that became abandoned is counted. */
  function Journaled(w: World, journal: Journal, reference: string): World {
    var gaveUp := IsPending(w, reference) && reference in journal && journal[reference] == Abandoned;
    w.(journal := journal,
       log := if gaveUp then w.log.(abandons := w.log.abandons[reference := Count(w.log.abandons, reference) + 1])
              else w.log)
  }

  function Resolved(w: World, reference: string, to: State): World {
    Journaled(w, Resolve(w.journal, reference, to), reference)
  }

  /** A claim for a note whose claim is open already is not recorded again, and a note without a
      reference cannot be claimed. */
  predicate IsNew(w: World, reference: string, s: Service) {
    s == Claim ==> reference != "" && reference !in w.claims
  }

  function Given(w: World, worker: nat, reference: string, role: Role, s: Service): World {
    if !IsNew(w, reference, s) then w
    else
      w.(claims := if s == Claim then w.claims + {reference} else w.claims,
         log := w.log.(served := w.log.served[reference := Count(w.log.served, reference) + 1],
                       servers := w.log.servers[(reference, role) := worker]))
  }

  /** A call begins. */
  function Started(w: World, worker: nat, reference: string, journal: Journal): World {
    Goto(w, worker, Receiving(reference)).(journal := journal,
      log := w.log.(starts := w.log.starts[reference := Count(w.log.starts, reference) + 1]))
  }

  /** A second look that finds the intent given up after all. */
  predicate SlipsIn(w: World, worker: nat) {
    && At(w, worker).Looking? && At(w, worker).reference in w.journal
    && w.journal[At(w, worker).reference] == Abandoned
  }

  /** It goes on to a call, and the journal is not told. */
  function Slipped(w: World, worker: nat, reference: string): World {
    var w1 := Started(w, worker, reference, w.journal);
    w1.(log := w1.log.(unwritten := w1.log.unwritten[reference := Count(w1.log.unwritten, reference) + 1]))
  }

  /** Who is at the note when `worker` begins to reconcile it. */
  function Beside(w: World, worker: nat, reference: string): set<(string, nat, nat)> {
    set a | a in w.workers && AtNote(w.workers[a], reference) :: (reference, worker, a)
  }

  /** What comes after a reconciliation: the recorder of a late answer has its mark to release,
      and a resubmission keeps the mark it set. */
  function Afterwards(reference: string, role: Role): Phase {
    if role == OwnCall then Closing(reference) else Idle
  }

  // ------------------------------------------------------------ the steps

  /** The first steps of a submission, and of the start-up. */
  function Enter(w: World, e: Event): World
    requires e.Boot? || e.Submit? || e.Open? || e.Look?
  {
    match e
    case Boot(worker, reference) =>
      if At(w, worker) != Idle || reference !in w.restored then w
      else Goto(w, worker, Asking(reference, StartUp)).(restored := w.restored - {reference})
    case Submit(worker, reference) =>
      if At(w, worker) != Idle then w
      else
        var (marks, first) := BeginReceive(w.marks, reference);
        if first then Goto(w, worker, Marked(reference)).(marks := marks) else w
    case Open(worker) =>
      if !At(w, worker).Marked? then w
      else
        var reference := At(w, worker).reference;
        var (journal, prior) := BeginIntent(w.journal, reference);
        if prior == First then Started(w, worker, reference, journal)
        else if prior == Known(Pending) then Goto(w, worker, Looking(reference))
        else Goto(w, worker, Idle)
    case Look(worker) =>
      if !At(w, worker).Looking? then w
      else if SlipsIn(w, worker) then Slipped(w, worker, At(w, worker).reference)
      else Goto(w, worker, Asking(At(w, worker).reference, Resubmission))
  }

  /** What becomes of an answer that came in time. The mark is dropped first; then the customer is
      served and, in a lock region of its own, the journal says so. */
  function Conclude(w: World, e: Event): World
    requires e.Answer? || e.Grant? || e.Owe? || e.Settle?
  {
    var worker, p := e.worker, At(w, e.worker);
    match e
    case Answer(_) =>
      if !p.Receiving? then w
      else Goto(w, worker, Answered(p.reference)).(marks := EndReceive(w.marks, p.reference))
    case Grant(_) =>
      if !p.Answered? then w
      else Given(Goto(w, worker, Settling(p.reference, true)), worker, p.reference, OwnCall, Session)
    case Owe(_) =>
      if !p.Answered? then w
      else Given(Goto(w, worker, Settling(p.reference, false)), worker, p.reference, OwnCall, Claim)
    case Settle(_) =>
      if !p.Settling? then w else Resolved(Goto(w, worker, Idle), p.reference, if p.granted then Granted else Owed)
  }

  /** What becomes of a call whose customer was told that the outcome is unknown, and of answers
      that bring nothing: a refusal abandons the intent, anything else leaves it. */
  function Follow(w: World, e: Event): World
    requires e.Deadline? || e.LateAnswer? || e.LateOwe? || e.Doubt? || e.Refuse? || e.Leave? || e.LateEnd?
  {
    var worker, p := e.worker, At(w, e.worker);
    match e
    case Deadline(_) => if p.Receiving? then Goto(w, worker, Late(p.reference)) else w
    case LateAnswer(_) => if p.Late? then Goto(w, worker, Recording(p.reference)) else w
    case LateOwe(_) =>
      if p.Recording? then Resolved(Goto(w, worker, Claiming(p.reference, OwnCall)), p.reference, Owed) else w
    case Doubt(_) => if p.Recording? then Goto(w, worker, Asking(p.reference, OwnCall)) else w
    case Refuse(_) =>
      if p.Answered? then Resolved(Goto(w, worker, Idle), p.reference, Abandoned)
      else if p.Recording? then Resolved(Goto(w, worker, Closing(p.reference)), p.reference, Abandoned)
      else w
    case Leave(_) =>
      if p.Answered? then Goto(w, worker, Idle)
      else if p.Recording? then Goto(w, worker, Closing(p.reference))
      else w
    case LateEnd(_) =>
      if p.Closing? then Goto(w, worker, Idle).(marks := EndReceive(w.marks, p.reference)) else w
  }

  /** A reconciliation: look whether the intent is pending, ask the mint, resolve the intent, and
      open a claim for a note found spent, whoever resolved its intent meanwhile. */
  function Reconcile(w: World, e: Event): World
    requires e.Ask? || e.Hear? || e.OpenClaim?
  {
    var worker, p := e.worker, At(w, e.worker);
    match e
    case Ask(_) =>
      if !p.Asking? then w
      else if !IsPending(w, p.reference) then Goto(w, worker, Afterwards(p.reference, p.role))
      else
        Goto(w, worker, Waiting(p.reference, p.role)).(
          log := w.log.(met := w.log.met + Beside(w, worker, p.reference)))
    case Hear(_, evidence, priced) =>
      if !p.Waiting? then w
      else
        var next := if evidence == Spent && priced then Claiming(p.reference, p.role)
                    else Afterwards(p.reference, p.role);
        Journaled(Goto(w, worker, next), Decided(w.journal, p.reference, evidence, priced), p.reference)
    case OpenClaim(_) =>
      if !p.Claiming? then w
      else Given(Goto(w, worker, Afterwards(p.reference, p.role)), worker, p.reference, p.role, Claim)
  }

  function Step(w: World, e: Event): World {
    match e
    case ClaimEnds(reference) => w.(claims := w.claims - {reference})
    case Boot(_, _) => Enter(w, e)
    case Submit(_, _) => Enter(w, e)
    case Open(_) => Enter(w, e)
    case Look(_) => Enter(w, e)
    case Answer(_) => Conclude(w, e)
    case Grant(_) => Conclude(w, e)
    case Owe(_) => Conclude(w, e)
    case Settle(_) => Conclude(w, e)
    case Ask(_) => Reconcile(w, e)
    case Hear(_, _, _) => Reconcile(w, e)
    case OpenClaim(_) => Reconcile(w, e)
    case _ => Follow(w, e)
  }

  function Run(w: World, es: seq<Event>): World {
    if es == [] then w else Step(Run(w, es[..|es| - 1]), es[|es| - 1])
  }

  /** A process that starts with the journal and the open claims of the one before. An intent that
      was not given up stands for the call behind it. */
  function Restarted(journal: Journal, claims: set<string>): World {
    var pending := set r | r in journal && journal[r] == Pending;
    var calls: map<string, nat> := map r | r in journal && journal[r] != Abandoned :: 1;
    World({}, journal, map[], pending, claims, History(calls, map[], map[], map[], map[], {}))
  }

  const EMPTY: World := Restarted(map[], {})
}
