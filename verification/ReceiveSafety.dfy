/** Any number of submissions, deadlines, late answers and reconciliations at once: at most one call
    per note is ever on the wire, and none starts once the note is granted or owed. */
module ReceiveSafety {
  import opened ReceiveIntents

  predicate Live(p: Phase) { p.Receiving? || p.Late? }

  /** The phases whose worker will release the mark it set. A resubmission that reconciles will
      not, and start-up sets none. */
  predicate Owner(p: Phase) {
    || p.Marked? || p.Looking? || p.Receiving? || p.Late? || p.Recording? || p.Closing?
    || ((p.Asking? || p.Waiting? || p.Claiming?) && p.role == OwnCall)
  }

  predicate Holds(p: Phase, reference: string) {
    Owner(p) && p.reference == reference
  }

  /** A mark is set for every note that a worker owns, and each note has one owner at most. */
  predicate Marked(w: World, v: nat) {
    Owner(At(w, v)) && At(w, v).reference != "" ==> At(w, v).reference in w.marks
  }

  ghost predicate OneOwner(w: World) {
    forall a, b :: Owner(At(w, a)) && Owner(At(w, b)) && At(w, a).reference == At(w, b).reference != "" ==> a == b
  }

  /** No worker but `worker` owns what it did not own before. */
  lemma OthersAsBefore(w: World, w': World, worker: nat, p: Phase)
    requires OneOwner(w) && Moves(w, w', worker, p)
    requires forall v :: v != worker && Owner(p) && p.reference != "" ==> !Holds(At(w, v), p.reference)
    ensures OneOwner(w')
  {
    forall a, b | Owner(At(w', a)) && Owner(At(w', b)) && At(w', a).reference == At(w', b).reference != ""
      ensures a == b
    {
      assert a != worker ==> At(w', a) == At(w, a);
      assert b != worker ==> At(w', b) == At(w, b);
    }
  }

  /** Every call made for a note that is in the journal is accounted for by an attempt given up,
      but for the last. */
  predicate Accounted(w: World, reference: string) {
    Count(w.log.starts, reference)
    == Count(w.log.unwritten, reference) + Count(w.log.abandons, reference)
       + if reference in w.journal && w.journal[reference] != Abandoned then 1 else 0
  }

  ghost predicate Inv(w: World) {
    && (forall v :: Marked(w, v))
    && OneOwner(w)
    && (forall reference :: reference != "" ==> Accounted(w, reference))
    && "" !in w.journal && "" !in w.restored
  }

  // ------------------------------------------------------------ one worker moves

  /** Only `worker` moves, to p. */
  predicate Moves(w: World, w': World, worker: nat, p: Phase) {
    w'.workers == w.workers[worker := p]
  }

  /** The same calls on the books. */
  predicate SameBooks(w: World, w': World) {
    w'.journal == w.journal && w'.log.starts == w.log.starts
    && w'.log.unwritten == w.log.unwritten && w'.log.abandons == w.log.abandons
    && w'.restored <= w.restored
  }

  lemma BooksKept(w: World, w': World)
    requires Inv(w) && SameBooks(w, w')
    ensures forall reference :: reference != "" ==> Accounted(w', reference)
    ensures "" !in w'.journal && "" !in w'.restored
  {
    forall r | r != "" ensures Accounted(w', r) { assert Accounted(w, r); }
  }

  /** A worker that moves on with no more marks than it had. */
  lemma MoveKeeps(w: World, w': World, worker: nat, p: Phase)
    requires Inv(w) && Moves(w, w', worker, p) && SameBooks(w, w') && w'.marks == w.marks
    requires Owner(p) ==> Owner(At(w, worker)) && p.reference == At(w, worker).reference
    ensures Inv(w')
  {
    BooksKept(w, w');
    forall v ensures Marked(w', v) { assert Marked(w, v) && Marked(w, worker); }
    forall v | v != worker && Owner(p) && p.reference != "" ensures !Holds(At(w, v), p.reference) {
      assert Owner(At(w, worker));
    }
    OthersAsBefore(w, w', worker, p);
  }

  /** A worker that drops its mark was the only one to have it. */
  lemma DropKeeps(w: World, w': World, worker: nat, p: Phase)
    requires Inv(w) && Moves(w, w', worker, p) && SameBooks(w, w') && !Owner(p)
    requires Owner(At(w, worker)) && w'.marks == EndReceive(w.marks, At(w, worker).reference)
    ensures Inv(w')
  {
    BooksKept(w, w');
    forall v ensures Marked(w', v) {
      assert Marked(w, v);
    }
    OthersAsBefore(w, w', worker, p);
  }

  lemma TakeKeeps(w: World, w': World, worker: nat, reference: string)
    requires Inv(w) && At(w, worker) == Idle && BeginReceive(w.marks, reference).1
    requires Moves(w, w', worker, Phase.Marked(reference)) && SameBooks(w, w')
    requires w'.marks == BeginReceive(w.marks, reference).0
    ensures Inv(w')
  {
    BooksKept(w, w');
    forall v ensures Marked(w', v) && (v != worker && reference != "" ==> !Holds(At(w, v), reference)) {
      assert Marked(w, v);
    }
    OthersAsBefore(w, w', worker, Phase.Marked(reference));
  }

  lemma JournalKeeps(w: World, journal: Journal, reference: string, to: State)
    requires Inv(w) && to != Pending
    requires journal == w.journal || journal == Resolve(w.journal, reference, to)
    ensures Inv(Journaled(w, journal, reference)) && Journaled(w, journal, reference).workers == w.workers
  {
    var w' := Journaled(w, journal, reference);
    forall v ensures Marked(w', v) { assert Marked(w, v); }
    forall r | r != "" ensures Accounted(w', r) { assert Accounted(w, r); }
    assert forall v :: At(w', v) == At(w, v);
  }

  /** What is given touches neither marks nor journal nor workers. */
  lemma GivenKeeps(w: World, worker: nat, reference: string, role: Role, s: Service)
    requires Inv(w)
    ensures Inv(Given(w, worker, reference, role, s))
  {
    var w' := Given(w, worker, reference, role, s);
    BooksKept(w, w');
    forall v ensures Marked(w', v) { assert Marked(w, v); }
    assert forall v :: At(w', v) == At(w, v);
  }

  lemma StartKeeps(w: World, worker: nat, reference: string, journal: Journal)
    requires Inv(w) && At(w, worker) == Phase.Marked(reference)
    requires (journal, First) == BeginIntent(w.journal, reference)
    ensures Inv(Started(w, worker, reference, journal))
  {
    var w' := Started(w, worker, reference, journal);
    var w1 := Goto(w, worker, Receiving(reference));
    MoveKeeps(w, w1, worker, Receiving(reference));
    forall v ensures Marked(w', v) { assert Marked(w1, v); }
    forall r | r != "" ensures Accounted(w', r) { assert Accounted(w, r); }
    assert forall v :: At(w', v) == At(w1, v);
  }

  lemma SlipKeeps(w: World, worker: nat)
    requires Inv(w) && SlipsIn(w, worker)
    ensures Inv(Slipped(w, worker, At(w, worker).reference))
  {
    var reference := At(w, worker).reference;
    var w' := Slipped(w, worker, reference);
    var w1 := Goto(w, worker, Receiving(reference));
    MoveKeeps(w, w1, worker, Receiving(reference));
    forall v ensures Marked(w', v) { assert Marked(w1, v); }
    forall r | r != "" ensures Accounted(w', r) { assert Accounted(w, r); }
    assert forall v :: At(w', v) == At(w1, v);
  }

  // ------------------------------------------------------------ every step

  lemma EnterKeeps(w: World, e: Event)
    requires Inv(w) && (e.Boot? || e.Submit? || e.Open? || e.Look?)
    ensures Inv(Enter(w, e))
  {
    var w', worker, p := Enter(w, e), e.worker, At(w, e.worker);
    if w' != w {
      match e
      case Boot(_, reference) => MoveKeeps(w, w', worker, Asking(reference, StartUp));
      case Submit(_, reference) => TakeKeeps(w, w', worker, reference);
      case Open(_) =>
        if BeginIntent(w.journal, p.reference).1 == First {
          StartKeeps(w, worker, p.reference, BeginIntent(w.journal, p.reference).0);
        } else {
          MoveKeeps(w, w', worker, At(w', worker));
        }
      case Look(_) =>
        if SlipsIn(w, worker) {
          SlipKeeps(w, worker);
        } else {
          MoveKeeps(w, w', worker, Asking(p.reference, Resubmission));
        }
    }
  }

  lemma ConcludeKeeps(w: World, e: Event)
    requires Inv(w) && (e.Answer? || e.Grant? || e.Owe? || e.Settle?)
    ensures Inv(Conclude(w, e))
  {
    var worker, p := e.worker, At(w, e.worker);
    match e
    case Answer(_) =>
      if p.Receiving? { DropKeeps(w, Conclude(w, e), worker, Answered(p.reference)); }
    case Grant(_) =>
      if p.Answered? { ServeKeeps(w, worker, Settling(p.reference, true), p.reference, Session); }
    case Owe(_) =>
      if p.Answered? { ServeKeeps(w, worker, Settling(p.reference, false), p.reference, Claim); }
    case Settle(_) =>
      if p.Settling? { ResolveKeeps(w, worker, Idle, p.reference, if p.granted then Granted else Owed); }
  }

  lemma ServeKeeps(w: World, worker: nat, p: Phase, reference: string, s: Service)
    requires Inv(w) && !Owner(p)
    ensures Inv(Given(Goto(w, worker, p), worker, reference, OwnCall, s))
  {
    MoveKeeps(w, Goto(w, worker, p), worker, p);
    GivenKeeps(Goto(w, worker, p), worker, reference, OwnCall, s);
  }

  lemma ResolveKeeps(w: World, worker: nat, p: Phase, reference: string, to: State)
    requires Inv(w) && to != Pending
    requires Owner(p) ==> Owner(At(w, worker)) && p.reference == At(w, worker).reference
    ensures Inv(Resolved(Goto(w, worker, p), reference, to))
  {
    MoveKeeps(w, Goto(w, worker, p), worker, p);
    JournalKeeps(Goto(w, worker, p), Resolve(w.journal, reference, to), reference, to);
  }

  lemma FollowKeeps(w: World, e: Event)
    requires Inv(w)
    requires e.Deadline? || e.LateAnswer? || e.LateOwe? || e.Doubt? || e.Refuse? || e.Leave? || e.LateEnd?
    ensures Inv(Follow(w, e))
  {
    var w', worker, p := Follow(w, e), e.worker, At(w, e.worker);
    match e {
      case LateOwe(_) => if p.Recording? { ResolveKeeps(w, worker, Claiming(p.reference, OwnCall), p.reference, Owed); }
      case Refuse(_) =>
        if p.Answered? { ResolveKeeps(w, worker, Idle, p.reference, Abandoned); }
        if p.Recording? { ResolveKeeps(w, worker, Closing(p.reference), p.reference, Abandoned); }
      case LateEnd(_) => if p.Closing? { DropKeeps(w, w', worker, Idle); }
      case _ => if w' != w { MoveKeeps(w, w', worker, At(w', worker)); }
    }
  }

  lemma ReconcileKeeps(w: World, e: Event)
    requires Inv(w) && (e.Ask? || e.Hear? || e.OpenClaim?)
    ensures Inv(Reconcile(w, e))
  {
    var w', worker, p := Reconcile(w, e), e.worker, At(w, e.worker);
    match e {
      case Ask(_) => if w' != w { MoveKeeps(w, w', worker, At(w', worker)); }
      case Hear(_, evidence, priced) => if p.Waiting? { HearKeeps(w, worker, evidence, priced); }
      case OpenClaim(_) =>
        if p.Claiming? {
          var w1 := Goto(w, worker, Afterwards(p.reference, p.role));
          MoveKeeps(w, w1, worker, Afterwards(p.reference, p.role));
          GivenKeeps(w1, worker, p.reference, p.role, Claim);
        }
    }
  }

  lemma HearKeeps(w: World, worker: nat, evidence: Evidence, priced: bool)
    requires Inv(w) && At(w, worker).Waiting?
    ensures Inv(Reconcile(w, Hear(worker, evidence, priced)))
  {
    var p := At(w, worker);
    var next := if evidence == Spent && priced then Claiming(p.reference, p.role) else Afterwards(p.reference, p.role);
    MoveKeeps(w, Goto(w, worker, next), worker, next);
    JournalKeeps(Goto(w, worker, next), Decided(w.journal, p.reference, evidence, priced), p.reference,
                 if evidence == Spent then Owed else Abandoned);
  }

  lemma StepKeeps(w: World, e: Event)
    requires Inv(w)
    ensures Inv(Step(w, e))
  {
    if e.ClaimEnds? {
      BooksKept(w, Step(w, e));
      forall v ensures Marked(Step(w, e), v) { assert Marked(w, v); }
      assert forall v :: At(Step(w, e), v) == At(w, v);
    } else if e.Boot? || e.Submit? || e.Open? || e.Look? {
      EnterKeeps(w, e);
    } else if e.Answer? || e.Grant? || e.Owe? || e.Settle? {
      ConcludeKeeps(w, e);
    } else if e.Ask? || e.Hear? || e.OpenClaim? {
      ReconcileKeeps(w, e);
    } else {
      FollowKeeps(w, e);
    }
  }

  lemma RestartedInv(journal: Journal, claims: set<string>)
    requires "" !in journal
    ensures Inv(Restarted(journal, claims))
  {
  }

  lemma {:induction false} RunKeeps(w: World, es: seq<Event>)
    requires Inv(w)
    ensures Inv(Run(w, es))
  {
    if es == [] {
    } else {
      RunKeeps(w, es[..|es| - 1]);
      StepKeeps(Run(w, es[..|es| - 1]), es[|es| - 1]);
    }
  }

  // ------------------------------------------------------------ the guarantees

  /** Two live calls for one note, in whatever interleaving and whatever was restored, are the same
      call; and a live call's note is marked. */
  lemma OneLiveCall(journal: Journal, claims: set<string>, es: seq<Event>, a: nat, b: nat)
    requires "" !in journal
    requires var w := Run(Restarted(journal, claims), es);
             Live(At(w, a)) && Live(At(w, b)) && At(w, a).reference == At(w, b).reference != ""
    ensures a == b
    ensures At(Run(Restarted(journal, claims), es), a).reference in Run(Restarted(journal, claims), es).marks
  {
    var w := Run(Restarted(journal, claims), es);
    RestartedInv(journal, claims);
    RunKeeps(Restarted(journal, claims), es);
    assert Marked(w, a) && Holds(At(w, b), At(w, a).reference);
  }

  /** Without a reference the guard is off: two calls can be live at once. */
  lemma EmptyReferenceTwoLive()
    ensures var w := Run(EMPTY, [Submit(0, ""), Open(0), Submit(1, ""), Open(1)]);
            Live(At(w, 0)) && Live(At(w, 1)) && At(w, 0).reference == At(w, 1).reference == ""
  {
    var s0, s1, s2 := [Submit(0, "")], [Submit(0, ""), Open(0)], [Submit(0, ""), Open(0), Submit(1, "")];
    var es := [Submit(0, ""), Open(0), Submit(1, ""), Open(1)];
    assert es[..3] == s2 && s2[..2] == s1 && s1[..1] == s0 && s0[..0] == [];
    assert Run(EMPTY, s0) == Step(EMPTY, Submit(0, ""));
    assert Run(EMPTY, s1) == Step(Run(EMPTY, s0), Open(0));
    assert Run(EMPTY, s2) == Step(Run(EMPTY, s1), Submit(1, ""));
    assert Run(EMPTY, es) == Step(Run(EMPTY, s2), Open(1));
  }

  /** What each step makes of the journal. */
  function JournalAfter(w: World, e: Event): Journal {
    match e
    case Open(worker) =>
      if At(w, worker).Marked? then BeginIntent(w.journal, At(w, worker).reference).0 else w.journal
    case Settle(worker) =>
      if At(w, worker).Settling?
      then Resolve(w.journal, At(w, worker).reference, if At(w, worker).granted then Granted else Owed)
      else w.journal
    case Refuse(worker) =>
      if At(w, worker).Answered? || At(w, worker).Recording?
      then Resolve(w.journal, At(w, worker).reference, Abandoned)
      else w.journal
    case LateOwe(worker) =>
      if At(w, worker).Recording? then Resolve(w.journal, At(w, worker).reference, Owed) else w.journal
    case Hear(worker, evidence, priced) =>
      if At(w, worker).Waiting? then Decided(w.journal, At(w, worker).reference, evidence, priced) else w.journal
    case _ => w.journal
  }

  lemma StepJournal(w: World, e: Event)
    ensures Step(w, e).journal == JournalAfter(w, e)
  {
  }

  /** The journal only moves onward. */
  lemma StepOnward(w: World, e: Event, reference: string)
    ensures Onward(w.journal, Step(w, e).journal, reference)
  {
    StepJournal(w, e);
  }

  /** A call starts only in a step that finds its note's intent absent or abandoned. It is in the
      journal, as pending, exactly if the step opened the intent; a second look that finds it given
      up tells the journal nothing. */
  lemma StartsOnlyFresh(w: World, e: Event, reference: string)
    requires reference != ""
    ensures Count(Step(w, e).log.starts, reference) != Count(w.log.starts, reference) ==>
              && (reference !in w.journal || w.journal[reference] == Abandoned)
              && (if e.Open?
                  then At(w, e.worker) == Phase.Marked(reference)
                       && Step(w, e).journal == w.journal[reference := Pending]
                  else e.Look? && At(w, e.worker) == Looking(reference) && Step(w, e).journal == w.journal)
              && Count(Step(w, e).log.starts, reference) == Count(w.log.starts, reference) + 1
  {
    if !e.Open? && !e.Look? { OthersStartNone(w, e); }
  }

  lemma OthersStartNone(w: World, e: Event)
    requires !e.Open? && !e.Look?
    ensures Step(w, e).log.starts == w.log.starts
  {
  }

  predicate IsFinal(journal: Journal, reference: string) {
    reference in journal && (journal[reference] == Granted || journal[reference] == Owed)
  }

  /** Once a note is granted or owed it stays so, and no call for it ever starts again. */
  lemma {:induction false} NoCallAfterFinal(w: World, es: seq<Event>, reference: string)
    requires reference != "" && IsFinal(w.journal, reference)
    ensures reference in Run(w, es).journal && Run(w, es).journal[reference] == w.journal[reference]
    ensures Count(Run(w, es).log.starts, reference) == Count(w.log.starts, reference)
  {
    if es == [] {
    } else {
      var mid := Run(w, es[..|es| - 1]);
      NoCallAfterFinal(w, es[..|es| - 1], reference);
      StepOnward(mid, es[|es| - 1], reference);
      StartsOnlyFresh(mid, es[|es| - 1], reference);
    }
  }

  /** Exactly: the calls ever made for a note are those not in the journal, the attempts given up,
      and one more if the note's last attempt was not. */
  lemma CallsAccounted(journal: Journal, claims: set<string>, es: seq<Event>, reference: string)
    requires "" !in journal && reference != ""
    ensures Accounted(Run(Restarted(journal, claims), es), reference)
  {
    RestartedInv(journal, claims);
    RunKeeps(Restarted(journal, claims), es);
  }

  // ------------------------------------------------------------ marks that are never released

  /** The mark is set and nobody will release it. */
  ghost predicate Leaked(w: World, reference: string) {
    reference != "" && reference in w.marks && forall v :: !Holds(At(w, v), reference)
  }

  /** A submission that finds its note granted or owed keeps its mark, and nobody holds it; one that
      finds the attempt pending looks again, and keeps it unless that was given up meanwhile. */
  lemma OpenLeaks(w: World, worker: nat)
    requires Inv(w) && At(w, worker).Marked? && At(w, worker).reference != ""
    ensures Leaked(Step(w, Open(worker)), At(w, worker).reference)
       <==> IsFinal(w.journal, At(w, worker).reference)
  {
    var reference := At(w, worker).reference;
    var w' := Step(w, Open(worker));
    assert Marked(w, worker) && At(w, worker).reference == reference;
    forall v | v != worker ensures !Holds(At(w', v), reference) {
      assert At(w', v) == At(w, v);
    }
    assert Holds(At(w', worker), reference) || At(w', worker) == Idle;
  }

  lemma LookLeaks(w: World, worker: nat)
    requires Inv(w) && At(w, worker).Looking? && At(w, worker).reference != ""
    ensures Leaked(Step(w, Look(worker)), At(w, worker).reference) <==> !SlipsIn(w, worker)
  {
    var reference := At(w, worker).reference;
    var w' := Step(w, Look(worker));
    assert Marked(w, worker);
    forall v | v != worker ensures !Holds(At(w', v), reference) {
      assert At(w', v) == At(w, v);
    }
    assert SlipsIn(w, worker) ==> Holds(At(w', worker), reference);
  }

  /** An owner that is one no more has released its mark, or has left it behind on meeting a prior
      attempt. */
  lemma OwnerLeaves(w: World, e: Event, v: nat, reference: string)
    requires reference != "" && Holds(At(w, v), reference) && !Holds(At(Step(w, e), v), reference)
    ensures !e.ClaimEnds? && e.worker == v
    ensures reference !in Step(w, e).marks
            || (e.Open? && At(w, v) == Phase.Marked(reference) && IsFinal(w.journal, reference))
            || (e.Look? && At(w, v) == Looking(reference) && !SlipsIn(w, v))
  {
  }

  lemma MarkTaken(w: World, e: Event, reference: string)
    requires reference != "" && reference !in w.marks && reference in Step(w, e).marks
    ensures e.Submit? && Holds(At(Step(w, e), e.worker), reference)
  {
  }

  /** A mark comes to have no owner in no other way: every call, refused, late or in doubt, releases
      its own. */
  lemma LeaksOnlyThere(w: World, e: Event, reference: string)
    requires !Leaked(w, reference) && Leaked(Step(w, e), reference)
    ensures (e.Open? && At(w, e.worker) == Phase.Marked(reference) && IsFinal(w.journal, reference))
            || (e.Look? && At(w, e.worker) == Looking(reference) && !SlipsIn(w, e.worker))
  {
    if reference !in w.marks {
      MarkTaken(w, e, reference);
    } else {
      var v :| Holds(At(w, v), reference);
      assert !Holds(At(Step(w, e), v), reference);
      OwnerLeaves(w, e, v, reference);
    }
  }

  /** Nobody comes to hold a mark that is set already. */
  lemma NobodyTakes(w: World, e: Event, worker: nat, reference: string)
    requires reference in w.marks && reference != "" && !Holds(At(w, worker), reference)
    ensures !Holds(At(Step(w, e), worker), reference)
  {
  }

  /** A mark is released only by its holder. */
  lemma MarkStays(w: World, e: Event, reference: string)
    requires reference in w.marks && reference != ""
    requires e.Answer? || e.LateEnd? ==> !Holds(At(w, e.worker), reference)
    ensures reference in Step(w, e).marks
  {
  }

  lemma StepKeepsLeak(w: World, e: Event, reference: string)
    requires Leaked(w, reference)
    ensures Leaked(Step(w, e), reference) && Count(Step(w, e).log.starts, reference) == Count(w.log.starts, reference)
  {
    forall v ensures !Holds(At(Step(w, e), v), reference) {
      assert !Holds(At(w, v), reference);
      NobodyTakes(w, e, v, reference);
    }
    if !e.ClaimEnds? { assert !Holds(At(w, e.worker), reference); }
    MarkStays(w, e, reference);
    StartsOnlyFresh(w, e, reference);
  }

  /** A leaked mark blocks its note for good: whatever the journal later says, abandoned
      included, no call for the note starts again while the process runs. */
  lemma {:induction false} LeakBlocksForever(w: World, es: seq<Event>, reference: string)
    requires Leaked(w, reference)
    ensures Leaked(Run(w, es), reference)
    ensures Count(Run(w, es).log.starts, reference) == Count(w.log.starts, reference)
  {
    if es == [] {
    } else {
      LeakBlocksForever(w, es[..|es| - 1], reference);
      StepKeepsLeak(Run(w, es[..|es| - 1]), es[|es| - 1], reference);
    }
  }
}
