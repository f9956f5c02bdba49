/** How often a customer is served for one note. Serving and noting it in the journal are two lock
    regions, and a resubmission may have the note reconciled in between: then it is served twice,
    and in no other way. */
module ReceiveService {
  import opened ReceiveIntents
  import opened ReceiveSafety

  // ------------------------------------------------------------ who does what at a note

  /** The part a worker plays at a note: its call, until it is settled, or a reconciliation. */
  predicate Plays(p: Phase, r: string, role: Role) {
    match p
    case Receiving(reference) => reference == r && role == OwnCall
    case Late(reference) => reference == r && role == OwnCall
    case Recording(reference) => reference == r && role == OwnCall
    case Answered(reference) => reference == r && role == OwnCall
    case Settling(reference, _) => reference == r && role == OwnCall
    case Asking(reference, part) => reference == r && role == part
    case Waiting(reference, part) => reference == r && role == part
    case Claiming(reference, part) => reference == r && role == part
    case _ => false
  }

  /** A reconciliation under way: begun on a pending intent, and not yet over. */
  predicate Begun(p: Phase, r: string, role: Role) {
    (p.Waiting? || p.Claiming?) && p.reference == r && p.role == role
  }

  predicate By(w: World, r: string, role: Role) {
    (r, role) in w.log.servers
  }

  predicate Server(w: World, r: string, role: Role, worker: nat) {
    By(w, r, role) && w.log.servers[(r, role)] == worker
  }

  /** The note is reconciled, or was and is served by it. */
  predicate Engaged(w: World, worker: nat, r: string, role: Role) {
    Begun(At(w, worker), r, role) || Server(w, r, role, worker)
  }

  predicate Calls(w: World, worker: nat, r: string) {
    Plays(At(w, worker), r, OwnCall) || Server(w, r, OwnCall, worker)
  }

  /** No call for the note can start. */
  ghost predicate Shut(w: World, r: string) {
    (r in w.journal && w.journal[r] != Abandoned) || Leaked(w, r)
  }

  // ------------------------------------------------------------ what every step keeps

  /** Each part is played by one worker at most, and by none after it has served. */
  ghost predicate OneEach(w: World, r: string) {
    && (forall a, b, role :: Plays(At(w, a), r, role) && Plays(At(w, b), r, role) ==> a == b)
    && (forall a, role :: Plays(At(w, a), r, role) ==> NotAgain(w, a, r, role))
  }

  predicate NotAgain(w: World, a: nat, r: string, role: Role) {
    By(w, r, role) ==> At(w, a).Settling? && Server(w, r, role, a)
  }

  /** While start-up has the note to see to, or once it has served it, there is no call. */
  ghost predicate StartUpAlone(w: World, r: string) {
    && (r in w.restored ==> !By(w, r, OwnCall) && !By(w, r, StartUp))
    && (forall a :: r in w.restored ==> !Plays(At(w, a), r, OwnCall) && !Plays(At(w, a), r, StartUp))
    && (forall a :: Plays(At(w, a), r, StartUp) ==> !By(w, r, OwnCall))
    && (forall a, b :: Plays(At(w, a), r, StartUp) ==> !Plays(At(w, b), r, OwnCall))
    && (forall a :: By(w, r, StartUp) ==> !Plays(At(w, a), r, OwnCall))
    && !(By(w, r, StartUp) && By(w, r, OwnCall))
  }

  /** Whoever is at the note, or has been of use, keeps new calls out; a resubmission for good. */
  ghost predicate KeepsOut(w: World, r: string) {
    && (r in w.restored || By(w, r, OwnCall) || By(w, r, StartUp) ==> Shut(w, r))
    && (forall a, role :: Plays(At(w, a), r, role) ==> Shut(w, r))
    && (forall a :: Plays(At(w, a), r, Resubmission) ==> Leaked(w, r))
    && (By(w, r, Resubmission) ==> Leaked(w, r))
  }

  /** Once the note is about to be claimed, or was served, its intent is not pending, but for the
      call that has served and not yet said so. */
  ghost predicate Noted(w: World, r: string) {
    && (forall a :: At(w, a).Claiming? && At(w, a).reference == r ==> !IsPending(w, r))
    && (By(w, r, StartUp) || By(w, r, Resubmission) ==> !IsPending(w, r))
    && (By(w, r, OwnCall) && IsPending(w, r) ==>
          var a := w.log.servers[(r, OwnCall)];
          At(w, a).Settling? && At(w, a).reference == r)
  }

  /** A resubmission began to reconcile beside the call, and beside start-up's reconciliation one
      way or the other. */
  ghost predicate Beheld(w: World, r: string) {
    && (forall b: nat, a: nat :: Engaged(w, b, r, Resubmission) && Calls(w, a, r) ==> (r, b, a) in w.log.met)
    && (forall b: nat, a: nat :: Engaged(w, b, r, Resubmission) && Engaged(w, a, r, StartUp) ==>
          (r, b, a) in w.log.met || (r, a, b) in w.log.met)
  }

  function One(b: bool): nat { if b then 1 else 0 }

  predicate Counted(w: World, r: string) {
    Count(w.log.served, r)
    == One(By(w, r, OwnCall)) + One(By(w, r, StartUp)) + One(By(w, r, Resubmission))
  }

  ghost predicate Story(w: World, r: string) {
    && r != ""
    && OneEach(w, r) && StartUpAlone(w, r) && KeepsOut(w, r) && Noted(w, r) && Beheld(w, r) && Counted(w, r)
  }

  // ------------------------------------------------------------ steps that serve nobody

  predicate SameServers(w: World, w': World, r: string) {
    && Count(w'.log.served, r) == Count(w.log.served, r)
    && (forall role :: By(w', r, role) <==> By(w, r, role))
    && (forall role :: By(w, r, role) ==> w'.log.servers[(r, role)] == w.log.servers[(r, role)])
  }

  ghost predicate SameMet(w: World, w': World, r: string) {
    forall b: nat, a: nat :: (r, b, a) in w'.log.met <==> (r, b, a) in w.log.met
  }

  /** The journal says the same of r, or that it is served. */
  predicate SameOrFinal(w: World, w': World, r: string) {
    (r in w'.journal <==> r in w.journal)
    && (r in w.journal ==> w'.journal[r] == w.journal[r] || IsFinal(w'.journal, r))
  }

  /** `worker` goes on to p in the part it plays at r, or quits, and nobody is served. */
  ghost predicate Continues(w: World, w': World, worker: nat, p: Phase, r: string) {
    && Moves(w, w', worker, p) && (Leaked(w, r) ==> Leaked(w', r))
    && SameServers(w, w', r) && SameMet(w, w', r)
    && (r in w'.restored ==> r in w.restored)
    && (forall role :: Plays(p, r, role) ==> Plays(At(w, worker), r, role))
    && (forall role :: Begun(p, r, role) && role != OwnCall ==> Begun(At(w, worker), r, role))
    && (Plays(p, r, OwnCall) && At(w, worker).Settling? ==> p == At(w, worker))
  }

  lemma ContinuesParts(w: World, w': World, worker: nat, p: Phase, r: string)
    requires Story(w, r) && Continues(w, w', worker, p, r)
    ensures OneEach(w', r)
  {
    forall a ensures At(w', a) == (if a == worker then p else At(w, a)) {}
    forall a, role | Plays(At(w', a), r, role) ensures Plays(At(w, a), r, role) {}
    forall a, role | Plays(At(w', a), r, role) ensures NotAgain(w', a, r, role) {
      assert Plays(At(w, a), r, role) && NotAgain(w, a, r, role);
    }
  }

  lemma ContinuesAlone(w: World, w': World, worker: nat, p: Phase, r: string)
    requires Story(w, r) && Continues(w, w', worker, p, r)
    ensures StartUpAlone(w', r)
  {
    forall a ensures At(w', a) == (if a == worker then p else At(w, a)) {}
    forall a, role | Plays(At(w', a), r, role) ensures Plays(At(w, a), r, role) {}
  }

  lemma ContinuesBeheld(w: World, w': World, worker: nat, p: Phase, r: string)
    requires Story(w, r) && Continues(w, w', worker, p, r)
    ensures Beheld(w', r) && Counted(w', r)
  {
    forall a ensures At(w', a) == (if a == worker then p else At(w, a)) {}
    forall a, role | role != OwnCall && Engaged(w', a, r, role) ensures Engaged(w, a, r, role) {}
    forall a | Calls(w', a, r) ensures Calls(w, a, r) {}
  }

  /** ... and the journal still says the same of r, or that it is served. */
  lemma GoesOn(w: World, w': World, worker: nat, p: Phase, r: string)
    requires Story(w, r) && Continues(w, w', worker, p, r) && SameOrFinal(w, w', r)
    requires p.Claiming? && p.reference == r ==> !IsPending(w', r)
    requires IsPending(w', r) && At(w, worker).Settling? && At(w, worker).reference == r ==> p == At(w, worker)
    ensures Story(w', r)
  {
    ContinuesParts(w, w', worker, p, r);
    ContinuesAlone(w, w', worker, p, r);
    ContinuesBeheld(w, w', worker, p, r);
    forall a ensures At(w', a) == (if a == worker then p else At(w, a)) {}
    forall a, role | Plays(At(w', a), r, role) ensures Plays(At(w, a), r, role) {}
  }

  /** ... or the worker quits and the intent is given up: only it was at the note, or the note is
      barred for good. */
  lemma GivesUp(w: World, w': World, worker: nat, p: Phase, r: string, role: Role)
    requires Story(w, r) && Continues(w, w', worker, p, r)
    requires Plays(At(w, worker), r, role) && !At(w, worker).Settling? && forall part :: !Plays(p, r, part)
    requires w'.journal == Resolve(w.journal, r, Abandoned)
    ensures Story(w', r)
  {
    ContinuesParts(w, w', worker, p, r);
    ContinuesAlone(w, w', worker, p, r);
    ContinuesBeheld(w, w', worker, p, r);
    forall a ensures At(w', a) == (if a == worker then p else At(w, a)) {}
    forall a, part | Plays(At(w', a), r, part) ensures Plays(At(w, a), r, part) && part != role {
      assert a != worker;
    }
  }

  // ------------------------------------------------------------ steps that serve

  /** The part that serves is over by that, or has yet to be noted. */
  ghost predicate ServesNow(w: World, w': World, worker: nat, p: Phase, r: string, role: Role) {
    && Moves(w, w', worker, p) && (Leaked(w, r) ==> Leaked(w', r))
    && w'.journal == w.journal && w'.restored == w.restored && w'.log.met == w.log.met
    && Count(w'.log.served, r) == Count(w.log.served, r) + 1
    && w'.log.servers == w.log.servers[(r, role) := worker]
    && (if role == OwnCall && At(w, worker).Answered?
        then At(w, worker).reference == r && p.Settling? && p.reference == r
        else At(w, worker) == Claiming(r, role) && p == Afterwards(r, role))
  }

  lemma ServesParts(w: World, w': World, worker: nat, p: Phase, r: string, role: Role)
    requires Story(w, r) && ServesNow(w, w', worker, p, r, role)
    ensures !By(w, r, role) && OneEach(w', r)
  {
    assert Plays(At(w, worker), r, role);
    forall a ensures At(w', a) == (if a == worker then p else At(w, a)) {}
    forall a, part | Plays(At(w', a), r, part) ensures Plays(At(w, a), r, part) {}
  }

  lemma ServesAlone(w: World, w': World, worker: nat, p: Phase, r: string, role: Role)
    requires Story(w, r) && ServesNow(w, w', worker, p, r, role)
    ensures StartUpAlone(w', r)
  {
    assert Plays(At(w, worker), r, role);
    forall a ensures At(w', a) == (if a == worker then p else At(w, a)) {}
    forall a, part | Plays(At(w', a), r, part) ensures Plays(At(w, a), r, part) {}
  }

  lemma ServesNoted(w: World, w': World, worker: nat, p: Phase, r: string, role: Role)
    requires Story(w, r) && ServesNow(w, w', worker, p, r, role)
    ensures KeepsOut(w', r) && Noted(w', r)
  {
    assert Plays(At(w, worker), r, role);
    forall a ensures At(w', a) == (if a == worker then p else At(w, a)) {}
    forall a, part | Plays(At(w', a), r, part) ensures Plays(At(w, a), r, part) {}
  }

  lemma ServesBeheld(w: World, w': World, worker: nat, p: Phase, r: string, role: Role)
    requires Story(w, r) && ServesNow(w, w', worker, p, r, role) && !By(w, r, role)
    ensures Beheld(w', r) && Counted(w', r)
  {
    assert Plays(At(w, worker), r, role);
    forall a ensures At(w', a) == (if a == worker then p else At(w, a)) {}
    forall a, part | part != OwnCall && Engaged(w', a, r, part) ensures Engaged(w, a, r, part) {}
    forall a | Calls(w', a, r) ensures Calls(w, a, r) {}
  }

  lemma ServesKeeps(w: World, w': World, worker: nat, p: Phase, r: string, role: Role)
    requires Story(w, r) && ServesNow(w, w', worker, p, r, role)
    ensures Story(w', r)
  {
    ServesParts(w, w', worker, p, r, role);
    ServesAlone(w, w', worker, p, r, role);
    ServesNoted(w, w', worker, p, r, role);
    ServesBeheld(w, w', worker, p, r, role);
  }

  // ------------------------------------------------------------ steps that begin something

  /** Nobody was at a note for which a call starts. */
  lemma NobodyThere(w: World, r: string)
    requires Story(w, r) && !Shut(w, r)
    ensures forall a, role :: !Plays(At(w, a), r, role)
    ensures forall role :: !By(w, r, role)
    ensures r !in w.restored
  {
    forall role ensures !By(w, r, role) {
      assert role == OwnCall || role == StartUp || role == Resubmission;
    }
  }

  lemma StartsKeeps(w: World, worker: nat, r: string)
    requires Inv(w) && Story(w, r) && At(w, worker) == Phase.Marked(r)
    requires BeginIntent(w.journal, r).1 == First
    ensures Story(Started(w, worker, r, BeginIntent(w.journal, r).0), r)
  {
    var w' := Started(w, worker, r, BeginIntent(w.journal, r).0);
    assert Holds(At(w, worker), r);
    NobodyThere(w, r);
    forall a ensures At(w', a) == (if a == worker then Receiving(r) else At(w, a)) {}
    forall a, role | Plays(At(w', a), r, role) ensures a == worker && role == OwnCall {}
  }

  /** A reconciliation is about to begin: a resubmission's, which keeps its mark, or start-up's. */
  ghost predicate Comes(w: World, w': World, worker: nat, r: string, role: Role) {
    && Moves(w, w', worker, Asking(r, role)) && w'.journal == w.journal && w'.log == w.log
    && if role == StartUp then
         At(w, worker) == Idle && r in w.restored && w'.restored == w.restored - {r}
         && (Leaked(w, r) ==> Leaked(w', r))
       else
         role == Resubmission && At(w, worker) == Looking(r) && w'.restored == w.restored && Leaked(w', r)
  }

  lemma ComesParts(w: World, w': World, worker: nat, r: string, role: Role)
    requires Story(w, r) && Comes(w, w', worker, r, role)
    ensures OneEach(w', r) && StartUpAlone(w', r)
  {
    forall a ensures At(w', a) == (if a == worker then Asking(r, role) else At(w, a)) {}
    assert role == Resubmission ==> Holds(At(w, worker), r) && !Leaked(w, r);
    forall a, part | Plays(At(w', a), r, part) ensures Plays(At(w, a), r, part) || (a == worker && part == role) {}
  }

  lemma ComesKeeps(w: World, w': World, worker: nat, r: string, role: Role)
    requires Story(w, r) && Comes(w, w', worker, r, role)
    ensures Story(w', r)
  {
    ComesParts(w, w', worker, r, role);
    forall a ensures At(w', a) == (if a == worker then Asking(r, role) else At(w, a)) {}
    assert role == Resubmission ==> Holds(At(w, worker), r) && !Leaked(w, r);
    forall a, part | Plays(At(w', a), r, part) ensures Plays(At(w, a), r, part) || (a == worker && part == role) {}
    forall a, part | Engaged(w', a, r, part) ensures Engaged(w, a, r, part) {}
    forall a | Calls(w', a, r) ensures Calls(w, a, r) {}
  }

  /** A reconciliation begins on a pending intent, beside whoever is at the note. */
  lemma BeginsParts(w: World, w': World, worker: nat, r: string, role: Role)
    requires Story(w, r) && At(w, worker) == Asking(r, role)
    requires Moves(w, w', worker, Waiting(r, role)) && w'.restored == w.restored
    requires w'.log == w.log.(met := w.log.met + Beside(w, worker, r))
    ensures OneEach(w', r) && StartUpAlone(w', r) && Counted(w', r)
  {
    forall a ensures At(w', a) == (if a == worker then Waiting(r, role) else At(w, a)) {}
    forall a, part | Plays(At(w', a), r, part) ensures Plays(At(w, a), r, part) {}
    forall a, part | Plays(At(w', a), r, part) ensures NotAgain(w', a, r, part) {
      assert Plays(At(w, a), r, part) && NotAgain(w, a, r, part);
    }
  }

  lemma BeginsNoted(w: World, w': World, worker: nat, r: string, role: Role)
    requires Story(w, r) && At(w, worker) == Asking(r, role)
    requires Moves(w, w', worker, Waiting(r, role)) && (Leaked(w, r) ==> Leaked(w', r))
    requires w'.journal == w.journal && w'.restored == w.restored
    requires w'.log == w.log.(met := w.log.met + Beside(w, worker, r))
    ensures KeepsOut(w', r) && Noted(w', r)
  {
    forall a ensures At(w', a) == (if a == worker then Waiting(r, role) else At(w, a)) {}
    forall a, part | Plays(At(w', a), r, part) ensures Plays(At(w, a), r, part) {}
  }

  lemma BeginsBeheld(w: World, w': World, worker: nat, r: string, role: Role)
    requires Story(w, r) && At(w, worker) == Asking(r, role) && IsPending(w, r)
    requires Moves(w, w', worker, Waiting(r, role))
    requires w'.log == w.log.(met := w.log.met + Beside(w, worker, r))
    ensures Beheld(w', r)
  {
    forall a ensures At(w', a) == (if a == worker then Waiting(r, role) else At(w, a)) {}
    forall a, part | Engaged(w', a, r, part) ensures Engaged(w, a, r, part) || (a == worker && part == role) {}
    forall a | Calls(w', a, r) ensures Calls(w, a, r) {}
    if role == Resubmission {
      forall a: nat | Calls(w, a, r) ensures (r, worker, a) in w'.log.met { CallIsBeside(w, worker, r, a); }
      forall a: nat | Engaged(w, a, r, StartUp) ensures (r, worker, a) in w'.log.met {
        assert AtNote(At(w, a), r) && a in w.workers;
      }
      assert !By(w, r, Resubmission);
    }
    if role == StartUp {
      forall a: nat | Engaged(w, a, r, Resubmission) ensures (r, worker, a) in w'.log.met {
        assert AtNote(At(w, a), r) && a in w.workers;
      }
    }
  }

  /** The mark is kept by nobody, so a call that is not over has its answer. */
  lemma CallIsBeside(w: World, worker: nat, r: string, a: nat)
    requires Story(w, r) && At(w, worker) == Asking(r, Resubmission) && IsPending(w, r) && Calls(w, a, r)
    ensures (r, worker, a) in Beside(w, worker, r)
  {
    assert Leaked(w, r) && !Holds(At(w, a), r);
    assert AtNote(At(w, a), r) && a in w.workers;
  }

  // ------------------------------------------------------------ steps elsewhere

  predicate AtRef(p: Phase, r: string) {
    !p.Idle? && p.reference == r
  }

  /** Nothing changes for the note. */
  ghost predicate SameFor(w: World, w': World, r: string) {
    && (Leaked(w, r) ==> Leaked(w', r))
    && (r in w'.journal <==> r in w.journal) && (r in w.journal ==> w'.journal[r] == w.journal[r])
    && (r in w'.restored <==> r in w.restored)
    && SameServers(w, w', r) && SameMet(w, w', r)
    && forall a :: At(w', a) == At(w, a) || (!AtRef(At(w, a), r) && !AtRef(At(w', a), r))
  }

  lemma SameForKeeps(w: World, w': World, r: string)
    requires Story(w, r) && SameFor(w, w', r)
    ensures Story(w', r)
  {
    forall a, role ensures Plays(At(w', a), r, role) <==> Plays(At(w, a), r, role) {}
    forall a, role | Engaged(w', a, r, role) ensures Engaged(w, a, r, role) {}
    forall a | Calls(w', a, r) ensures Calls(w, a, r) {}
  }

  /** The step is about another note, or none. */
  predicate Aside(w: World, e: Event, r: string) {
    match e
    case ClaimEnds(_) => true
    case Boot(worker, reference) => reference != r && !AtRef(At(w, worker), r)
    case Submit(worker, reference) => reference != r && !AtRef(At(w, worker), r)
    case _ => !AtRef(At(w, e.worker), r)
  }

  lemma AsideRecords(w: World, e: Event, r: string)
    requires Aside(w, e, r)
    ensures SameServers(w, Step(w, e), r) && SameMet(w, Step(w, e), r)
  {
    if e.Grant? || e.Owe? || e.OpenClaim? {
      AsideGives(w, e, r);
    } else if !e.Ask? {
      RecordsNothing(w, e);
    }
  }

  lemma AsideGives(w: World, e: Event, r: string)
    requires Aside(w, e, r) && (e.Grant? || e.Owe? || e.OpenClaim?)
    ensures SameServers(w, Step(w, e), r) && Step(w, e).log.met == w.log.met
  {
  }

  lemma RecordsNothing(w: World, e: Event)
    requires !e.Grant? && !e.Owe? && !e.OpenClaim? && !e.Ask?
    ensures var log := Step(w, e).log;
            log.served == w.log.served && log.servers == w.log.servers && log.met == w.log.met
  {
    if e.Boot? || e.Submit? || e.Open? || e.Look? {
      EnterRecordsNothing(w, e);
    } else if e.Refuse? || e.LateOwe? {
      FollowRecordsNothing(w, e);
    }
  }

  lemma EnterRecordsNothing(w: World, e: Event)
    requires e.Boot? || e.Submit? || e.Open? || e.Look?
    ensures var log := Enter(w, e).log;
            log.served == w.log.served && log.servers == w.log.servers && log.met == w.log.met
  {
  }

  lemma FollowRecordsNothing(w: World, e: Event)
    requires e.Refuse? || e.LateOwe?
    ensures var log := Follow(w, e).log;
            log.served == w.log.served && log.servers == w.log.servers && log.met == w.log.met
  {
  }

  lemma AsidePhases(w: World, e: Event, r: string)
    requires Aside(w, e, r)
    ensures var w' := Step(w, e);
            && (r in w'.journal <==> r in w.journal) && (r in w.journal ==> w'.journal[r] == w.journal[r])
            && (r in w'.restored <==> r in w.restored)
            && forall a :: At(w', a) == At(w, a) || (!AtRef(At(w, a), r) && !AtRef(At(w', a), r))
  {
    StepJournal(w, e);
  }

  lemma AsideKeeps(w: World, e: Event, r: string)
    requires Story(w, r) && Aside(w, e, r)
    ensures Story(Step(w, e), r)
  {
    AsideRecords(w, e, r);
    AsidePhases(w, e, r);
    if Leaked(w, r) { StepKeepsLeak(w, e, r); }
    SameForKeeps(w, Step(w, e), r);
  }

  // ------------------------------------------------------------ every step

  lemma EnterStory(w: World, e: Event, r: string)
    requires Inv(w) && Story(w, r) && !Aside(w, e, r) && (e.Boot? || e.Submit? || e.Open? || e.Look?)
    requires e.Look? ==> !SlipsIn(w, e.worker)
    requires Leaked(w, r) ==> Leaked(Enter(w, e), r)
    ensures Story(Enter(w, e), r)
  {
    var w', worker := Enter(w, e), e.worker;
    if w' != w {
      match e
      case Boot(_, _) => ComesKeeps(w, w', worker, r, StartUp);
      case Submit(_, _) => GoesOn(w, w', worker, Phase.Marked(r), r);
      case Open(_) =>
        var prior := BeginIntent(w.journal, r).1;
        if prior == First {
          StartsKeeps(w, worker, r);
        } else {
          GoesOn(w, w', worker, At(w', worker), r);
        }
      case Look(_) =>
        LookLeaks(w, worker);
        ComesKeeps(w, w', worker, r, Resubmission);
    }
  }

  lemma ConcludeStory(w: World, e: Event, r: string)
    requires e.Answer? || e.Grant? || e.Owe? || e.Settle?
    requires Story(w, r) && AtRef(At(w, e.worker), r)
    requires Leaked(w, r) ==> Leaked(Conclude(w, e), r)
    ensures Story(Conclude(w, e), r)
  {
    var w', worker, p := Conclude(w, e), e.worker, At(w, e.worker);
    match e {
      case Answer(_) => if p.Receiving? { GoesOn(w, w', worker, Answered(r), r); }
      case Grant(_) => if p.Answered? { AnswerServes(w, worker, r, true, Session); }
      case Owe(_) => if p.Answered? { AnswerServes(w, worker, r, false, Claim); }
      case Settle(_) => if p.Settling? { GoesOn(w, w', worker, Idle, r); }
    }
  }

  lemma AnswerServes(w: World, worker: nat, r: string, granted: bool, s: Service)
    requires Story(w, r) && At(w, worker) == Answered(r)
    requires var w' := Given(Goto(w, worker, Settling(r, granted)), worker, r, OwnCall, s);
             Leaked(w, r) ==> Leaked(w', r)
    ensures Story(Given(Goto(w, worker, Settling(r, granted)), worker, r, OwnCall, s), r)
  {
    var w' := Given(Goto(w, worker, Settling(r, granted)), worker, r, OwnCall, s);
    if IsNew(w, r, s) {
      ServesKeeps(w, w', worker, Settling(r, granted), r, OwnCall);
    } else {
      GoesOn(w, w', worker, Settling(r, granted), r);
    }
  }

  lemma FollowStory(w: World, e: Event, r: string)
    requires e.Deadline? || e.LateAnswer? || e.LateOwe? || e.Doubt? || e.Refuse? || e.Leave? || e.LateEnd?
    requires Story(w, r) && AtRef(At(w, e.worker), r)
    requires Leaked(w, r) ==> Leaked(Follow(w, e), r)
    ensures Story(Follow(w, e), r)
  {
    var w', worker := Follow(w, e), e.worker;
    if w' != w {
      if e.Refuse? {
        GivesUp(w, w', worker, At(w', worker), r, OwnCall);
      } else {
        FollowOn(w, w', e, r);
      }
    }
  }

  lemma FollowOn(w: World, w': World, e: Event, r: string)
    requires e.Deadline? || e.LateAnswer? || e.LateOwe? || e.Doubt? || e.Leave? || e.LateEnd?
    requires Story(w, r) && AtRef(At(w, e.worker), r) && w' == Follow(w, e) && w' != w
    requires Leaked(w, r) ==> Leaked(w', r)
    ensures Story(w', r)
  {
    if e.LateOwe? {
      GoesOn(w, w', e.worker, Claiming(r, OwnCall), r);
    } else {
      GoesOn(w, w', e.worker, At(w', e.worker), r);
    }
  }

  lemma ReconcileStory(w: World, e: Event, r: string)
    requires e.Ask? || e.Hear? || e.OpenClaim?
    requires Story(w, r) && AtRef(At(w, e.worker), r)
    requires Leaked(w, r) ==> Leaked(Reconcile(w, e), r)
    ensures Story(Reconcile(w, e), r)
  {
    var w', worker, p := Reconcile(w, e), e.worker, At(w, e.worker);
    match e {
      case Ask(_) =>
        if p.Asking? && IsPending(w, r) {
          BeginsParts(w, w', worker, r, p.role);
          BeginsNoted(w, w', worker, r, p.role);
          BeginsBeheld(w, w', worker, r, p.role);
        } else if p.Asking? {
          GoesOn(w, w', worker, Afterwards(r, p.role), r);
        }
      case Hear(_, evidence, priced) => if p.Waiting? { HearStory(w, worker, evidence, priced, r); }
      case OpenClaim(_) =>
        if p.Claiming? {
          if IsNew(w, r, Claim) {
            ServesKeeps(w, w', worker, Afterwards(r, p.role), r, p.role);
          } else {
            GoesOn(w, w', worker, Afterwards(r, p.role), r);
          }
        }
    }
  }

  lemma HearStory(w: World, worker: nat, evidence: Evidence, priced: bool, r: string)
    requires Story(w, r) && At(w, worker).Waiting? && At(w, worker).reference == r
    requires var w' := Reconcile(w, Hear(worker, evidence, priced)); Leaked(w, r) ==> Leaked(w', r)
    ensures Story(Reconcile(w, Hear(worker, evidence, priced)), r)
  {
    var w', role := Reconcile(w, Hear(worker, evidence, priced)), At(w, worker).role;
    if evidence == Unspent {
      GivesUp(w, w', worker, Afterwards(r, role), r, role);
    } else {
      GoesOn(w, w', worker, At(w', worker), r);
    }
  }

  /** The step makes a call for the note without telling the journal. */
  predicate Slips(w: World, e: Event, r: string) {
    e.Look? && SlipsIn(w, e.worker) && At(w, e.worker).reference == r
  }

  lemma StepStory(w: World, e: Event, r: string)
    requires Inv(w) && Story(w, r) && !Slips(w, e, r)
    ensures Story(Step(w, e), r)
  {
    if Aside(w, e, r) {
      AsideKeeps(w, e, r);
    } else {
      if Leaked(w, r) { StepKeepsLeak(w, e, r); }
      StepStoryHere(w, Step(w, e), e, r);
    }
  }

  lemma StepStoryHere(w: World, w': World, e: Event, r: string)
    requires Inv(w) && Story(w, r) && !Aside(w, e, r) && !Slips(w, e, r) && w' == Step(w, e)
    requires Leaked(w, r) ==> Leaked(w', r)
    ensures Story(w', r)
  {
    if e.Boot? || e.Submit? || e.Open? || e.Look? {
      assert w' == Enter(w, e);
      EnterStory(w, e, r);
    } else if e.Answer? || e.Grant? || e.Owe? || e.Settle? {
      assert w' == Conclude(w, e);
      ConcludeStory(w, e, r);
    } else if e.Ask? || e.Hear? || e.OpenClaim? {
      assert w' == Reconcile(w, e);
      ReconcileStory(w, e, r);
    } else {
      assert w' == Follow(w, e);
      FollowStory(w, e, r);
    }
  }

  lemma RestartedStory(journal: Journal, claims: set<string>, r: string)
    requires r != ""
    ensures Story(Restarted(journal, claims), r)
  {
  }

  /** Every call of the run for the note is in the journal. */
  predicate Written(w: World, es: seq<Event>, r: string) {
    es == [] || (Written(w, es[..|es| - 1], r) && !Slips(Run(w, es[..|es| - 1]), es[|es| - 1], r))
  }

  lemma {:induction false} RunStory(w: World, es: seq<Event>, r: string)
    requires Inv(w) && Story(w, r) && Written(w, es, r)
    ensures Inv(Run(w, es)) && Story(Run(w, es), r)
    decreases |es|
  {
    if es == [] {
    } else {
      RunStory(w, es[..|es| - 1], r);
      StepKeeps(Run(w, es[..|es| - 1]), es[|es| - 1]);
      StepStory(Run(w, es[..|es| - 1]), es[|es| - 1], r);
    }
  }
}
