/** When a note is served at most once: over every run, exactly when no reconciliation that began
    while another worker was at the note serves it together with that worker. */
module ReceiveOnce {
  import opened ReceiveIntents
  import opened ReceiveSafety
  import opened ReceiveService

  // ------------------------------------------------------------ steps that serve, and that begin

  /** The step grants a session for the note, or opens a claim for it. */
  predicate Serves(w: World, e: Event, r: string) {
    match e
    case Grant(worker) => At(w, worker) == Answered(r)
    case Owe(worker) => At(w, worker) == Answered(r) && IsNew(w, r, Claim)
    case OpenClaim(worker) => At(w, worker).Claiming? && At(w, worker).reference == r && IsNew(w, r, Claim)
    case _ => false
  }

  /** In which role. */
  function RoleOf(w: World, e: Event): Role {
    if e.OpenClaim? && At(w, e.worker).Claiming? then At(w, e.worker).role else OwnCall
  }

  /** The step begins to reconcile the note while worker a is at it: between its answer and its
      journal entry, or reconciling it as well. */
  predicate BeginsBeside(w: World, e: Event, r: string, a: nat) {
    && e.Ask? && At(w, e.worker).Asking? && At(w, e.worker).reference == r && IsPending(w, r)
    && AtNote(At(w, a), r)
  }

  lemma StepServes(w: World, e: Event, r: string)
    ensures Count(Step(w, e).log.served, r) == Count(w.log.served, r) + One(Serves(w, e, r))
  {
    if !e.Grant? && !e.Owe? && !e.OpenClaim? { OthersRecord(w, e); }
  }

  lemma OthersRecord(w: World, e: Event)
    requires !e.Grant? && !e.Owe? && !e.OpenClaim?
    ensures Step(w, e).log.served == w.log.served && Step(w, e).log.servers == w.log.servers
    ensures !e.Ask? ==> Step(w, e).log.met == w.log.met
  {
    if !e.Ask? { RecordsNothing(w, e); }
  }

  lemma StepServer(w: World, e: Event, r: string, role: Role, a: nat)
    requires Server(Step(w, e), r, role, a)
    ensures Server(w, r, role, a) || (Serves(w, e, r) && RoleOf(w, e) == role && e.worker == a)
  {
    if !e.Grant? && !e.Owe? && !e.OpenClaim? { OthersRecord(w, e); }
  }

  lemma StepMeets(w: World, e: Event, r: string, b: nat, a: nat)
    requires (r, b, a) in Step(w, e).log.met
    ensures (r, b, a) in w.log.met || (BeginsBeside(w, e, r, a) && e.worker == b)
  {
    if e.Grant? || e.Owe? || e.OpenClaim? {
    } else if !e.Ask? {
      RecordsNothing(w, e);
    }
  }

  // ------------------------------------------------------------ where in a run they are

  /** The world before step i. */
  function Before(w: World, es: seq<Event>, i: nat): World
    requires i <= |es|
  {
    Run(w, es[..i])
  }

  lemma BeforePrefix(w: World, es: seq<Event>, n: nat, i: nat)
    requires i <= n <= |es|
    ensures Before(w, es[..n], i) == Before(w, es, i)
  {
    assert es[..n][..i] == es[..i];
  }

  lemma {:induction false} WrittenPrefix(w: World, es: seq<Event>, r: string, j: nat)
    requires j < |es| && Written(w, es, r)
    ensures Written(w, es[..j], r) && !Slips(Before(w, es, j), es[j], r)
    decreases |es|
  {
    var last := |es| - 1;
    if j == last {
    } else {
      WrittenPrefix(w, es[..last], r, j);
      BeforePrefix(w, es, last, j);
      assert es[..last][..j] == es[..j];
    }
  }

  predicate ServesAt(w: World, es: seq<Event>, r: string, i: nat) {
    i < |es| && Serves(Before(w, es, i), es[i], r)
  }

  lemma {:induction false} FindServer(w: World, es: seq<Event>, r: string, role: Role, a: nat) returns (i: nat)
    requires w.log.servers == map[] && Server(Run(w, es), r, role, a)
    ensures ServesAt(w, es, r, i) && RoleOf(Before(w, es, i), es[i]) == role && es[i].worker == a
    decreases |es|
  {
    var last := |es| - 1;
    if Server(Run(w, es[..last]), r, role, a) {
      i := FindServer(w, es[..last], r, role, a);
      BeforePrefix(w, es, last, i);
    } else {
      i := last;
      StepServer(Run(w, es[..last]), es[last], r, role, a);
    }
  }

  lemma {:induction false} FindMeeting(w: World, es: seq<Event>, r: string, b: nat, a: nat) returns (k: nat)
    requires w.log.met == {} && (r, b, a) in Run(w, es).log.met
    ensures k < |es| && BeginsBeside(Before(w, es, k), es[k], r, a) && es[k].worker == b
    decreases |es|
  {
    var last := |es| - 1;
    if (r, b, a) in Run(w, es[..last]).log.met {
      k := FindMeeting(w, es[..last], r, b, a);
      BeforePrefix(w, es, last, k);
    } else {
      k := last;
      StepMeets(Run(w, es[..last]), es[last], r, b, a);
    }
  }

  /** Two steps that serve are two services. */
  lemma {:induction false} ServedSince(w: World, es: seq<Event>, r: string, i: nat)
    requires i <= |es|
    ensures Count(Run(w, es).log.served, r) >= Count(Before(w, es, i).log.served, r)
    ensures ServesAt(w, es, r, i) ==>
              Count(Run(w, es).log.served, r) >= Count(Before(w, es, i).log.served, r) + 1
    decreases |es|
  {
    if i == |es| {
      assert es[..i] == es;
    } else {
      var last := |es| - 1;
      ServedSince(w, es[..last], r, i);
      BeforePrefix(w, es, last, i);
      StepServes(Run(w, es[..last]), es[last], r);
    }
  }

  lemma TwoServed(w: World, es: seq<Event>, r: string, i: nat, j: nat)
    requires i < j && ServesAt(w, es, r, i) && ServesAt(w, es, r, j)
    ensures Count(Run(w, es).log.served, r) >= 2
  {
    ServedSince(w, es, r, j);
    ServedSince(w, es[..j], r, i);
    BeforePrefix(w, es, j, i);
  }

  // ------------------------------------------------------------ exactly when

  /** Step k begins to reconcile the note while the worker of step j is at it; that worker serves
      the note in step j, and the reconciliation in step i. */
  predicate Overlap(w: World, es: seq<Event>, r: string, k: nat, i: nat, j: nat) {
    && k < |es| && ServesAt(w, es, r, i) && ServesAt(w, es, r, j)
    && BeginsBeside(Before(w, es, k), es[k], r, es[j].worker) && es[i].worker == es[k].worker
  }

  lemma OverlapServesTwice(w: World, es: seq<Event>, r: string, k: nat, i: nat, j: nat)
    requires Overlap(w, es, r, k, i, j)
    ensures Count(Run(w, es).log.served, r) >= 2
  {
    assert i != j;
    if i < j { TwoServed(w, es, r, i, j); } else { TwoServed(w, es, r, j, i); }
  }

  /** What a note served twice was served by: its resubmission, and the call or start-up. */
  lemma TwiceHasOverlap(w: World, es: seq<Event>, r: string) returns (k: nat, i: nat, j: nat)
    requires w.log.servers == map[] && w.log.met == {}
    requires Story(Run(w, es), r) && Count(Run(w, es).log.served, r) >= 2
    ensures Overlap(w, es, r, k, i, j)
  {
    var now := Run(w, es);
    var other := if By(now, r, OwnCall) then OwnCall else StartUp;
    assert By(now, r, Resubmission) && By(now, r, other);
    var b, a := now.log.servers[(r, Resubmission)], now.log.servers[(r, other)];
    i := FindServer(w, es, r, Resubmission, b);
    j := FindServer(w, es, r, other, a);
    assert Engaged(now, b, r, Resubmission);
    if other == OwnCall { assert Calls(now, a, r); } else { assert Engaged(now, a, r, StartUp); }
    if (r, b, a) in now.log.met {
      k := FindMeeting(w, es, r, b, a);
    } else {
      k := FindMeeting(w, es, r, a, b);
      i, j := j, i;
    }
  }

  /** Under every interleaving of submissions, late answers, reconciliations and restored intents,
      a note is served at most once exactly when no reconciliation that began while another worker
      was at the note serves it together with that worker. */
  lemma ServedOnceIff(journal: Journal, claims: set<string>, es: seq<Event>, r: string)
    requires "" !in journal && r != "" && Written(Restarted(journal, claims), es, r)
    ensures var w := Restarted(journal, claims);
            Count(Run(w, es).log.served, r) <= 1 <==> !exists k, i, j :: Overlap(w, es, r, k, i, j)
  {
    var w := Restarted(journal, claims);
    RestartedInv(journal, claims);
    RestartedStory(journal, claims, r);
    RunStory(w, es, r);
    if Count(Run(w, es).log.served, r) >= 2 {
      var k, i, j := TwiceHasOverlap(w, es, r);
    }
    if k, i, j :| Overlap(w, es, r, k, i, j) {
      OverlapServesTwice(w, es, r, k, i, j);
    }
  }

  /** So a note whose reconciliations all begin while nobody else is at it is served once at most. */
  lemma AloneServedOnce(journal: Journal, claims: set<string>, es: seq<Event>, r: string)
    requires "" !in journal && r != "" && Written(Restarted(journal, claims), es, r)
    requires forall k, a :: 0 <= k < |es| ==> !BeginsBeside(Before(Restarted(journal, claims), es, k), es[k], r, a)
    ensures Count(Run(Restarted(journal, claims), es).log.served, r) <= 1
  {
    ServedOnceIff(journal, claims, es, r);
  }

  /** And it is never served a third time. */
  lemma NeverThrice(journal: Journal, claims: set<string>, es: seq<Event>, r: string)
    requires "" !in journal && r != "" && Written(Restarted(journal, claims), es, r)
    ensures Count(Run(Restarted(journal, claims), es).log.served, r) <= 2
  {
    RestartedInv(journal, claims);
    RestartedStory(journal, claims, r);
    RunStory(Restarted(journal, claims), es, r);
  }

  function RoleAt(w: World, es: seq<Event>, i: nat): Role
    requires i < |es|
  {
    RoleOf(Before(w, es, i), es[i])
  }

  /** The calls made for a note serve it once at most, and so do start-up and the one resubmission
      that finds its intent pending: of two steps that serve it, one is the resubmission's. */
  lemma OneIsResubmitted(journal: Journal, claims: set<string>, es: seq<Event>, r: string, i: nat, j: nat)
    requires "" !in journal && r != "" && Written(Restarted(journal, claims), es, r)
    requires i < j && ServesAt(Restarted(journal, claims), es, r, i) && ServesAt(Restarted(journal, claims), es, r, j)
    ensures var w := Restarted(journal, claims);
            RoleAt(w, es, i) != RoleAt(w, es, j)
            && (RoleAt(w, es, i) == Resubmission || RoleAt(w, es, j) == Resubmission)
  {
    var w := Restarted(journal, claims);
    RestartedInv(journal, claims);
    RestartedStory(journal, claims, r);
    WrittenPrefix(w, es, r, j);
    RunStory(w, es[..j], r);
    StepStory(Before(w, es, j), es[j], r);
    BeforePrefix(w, es, j, i);
    ServedStays(w, es[..j], r, i);
    NewRole(Before(w, es, j), es[j], r, RoleAt(w, es, i));
  }

  /** Whoever served a note has his role on record. */
  lemma {:induction false} ServedStays(w: World, es: seq<Event>, r: string, i: nat)
    requires ServesAt(w, es, r, i)
    ensures By(Run(w, es), r, RoleOf(Before(w, es, i), es[i]))
    decreases |es|
  {
    var last := |es| - 1;
    if i == last {
      RoleRecorded(Run(w, es[..last]), es[last], r);
    } else {
      BeforePrefix(w, es, last, i);
      ServedStays(w, es[..last], r, i);
      RecordStays(Run(w, es[..last]), es[last], r, RoleOf(Before(w, es, i), es[i]));
    }
  }

  lemma RoleRecorded(w: World, e: Event, r: string)
    requires Serves(w, e, r)
    ensures By(Step(w, e), r, RoleOf(w, e))
  {
  }

  lemma RecordStays(w: World, e: Event, r: string, role: Role)
    requires By(w, r, role)
    ensures By(Step(w, e), r, role)
  {
    if !e.Grant? && !e.Owe? && !e.OpenClaim? { OthersRecord(w, e); }
  }

  /** A service is the first in its role, and start-up's excludes the call's. */
  lemma NewRole(w: World, e: Event, r: string, role: Role)
    requires Story(w, r) && Story(Step(w, e), r) && Serves(w, e, r) && By(w, r, role)
    ensures role != RoleOf(w, e) && (role == Resubmission || RoleOf(w, e) == Resubmission)
  {
    assert Plays(At(w, e.worker), r, RoleOf(w, e)) && NotAgain(w, e.worker, r, RoleOf(w, e));
    RoleRecorded(w, e, r);
    RecordStays(w, e, r, role);
  }

  // ------------------------------------------------------------ two runs

  /** One more event. */
  lemma OneMore(before: seq<Event>, e: Event, es: seq<Event>) returns (w: World)
    requires es == before + [e]
    ensures w == Step(Run(EMPTY, before), e) && w == Run(EMPTY, es)
  {
    w := Step(Run(EMPTY, before), e);
    assert es[..|es| - 1] == before && es[|es| - 1] == e;
  }

  /** Where the two submissions stand, what the journal says, and how often the note was served. */
  predicate Stands(w: World, first: Phase, second: Phase, state: State, served: nat) {
    && At(w, 0) == first && At(w, 1) == second
    && "n" in w.journal && w.journal["n"] == state && Count(w.log.served, "n") == served
    && "n" !in w.claims
  }

  const CALL: seq<Event> := [Submit(0, "n"), Open(0), Answer(0)]
  const RESUBMITTED: seq<Event> := CALL + [Submit(1, "n")] + [Open(1)]
  const CHECKED: seq<Event> := RESUBMITTED + [Look(1)] + [Ask(1)]

  predicate JustMarked(w: World) {
    && At(w, 0) == Phase.Marked("n") && At(w, 1) == Idle
    && "n" !in w.journal && "n" !in w.claims && Count(w.log.served, "n") == 0
  }

  lemma SubmitsFirst()
    ensures JustMarked(Step(EMPTY, Submit(0, "n")))
  {
  }

  lemma OpensFirst(w: World)
    requires JustMarked(w)
    ensures Stands(Step(w, Open(0)), Receiving("n"), Idle, Pending, 0)
  {
  }

  lemma AnswersFirst(w: World)
    requires Stands(w, Receiving("n"), Idle, Pending, 0)
    ensures Stands(Step(w, Answer(0)), Answered("n"), Idle, Pending, 0) && "n" !in Step(w, Answer(0)).marks
  {
  }

  /** The first submission's answer is in and its mark dropped; the intent is pending. */
  lemma Called() returns (w: World)
    ensures w == Run(EMPTY, CALL) && Stands(w, Answered("n"), Idle, Pending, 0) && "n" !in w.marks
  {
    assert Run(EMPTY, []) == EMPTY;
    var w1 := OneMore([], Submit(0, "n"), [Submit(0, "n")]);
    SubmitsFirst();
    var w2 := OneMore([Submit(0, "n")], Open(0), [Submit(0, "n"), Open(0)]);
    OpensFirst(w1);
    w := OneMore([Submit(0, "n"), Open(0)], Answer(0), CALL);
    AnswersFirst(w2);
  }

  lemma SubmitsSecond(w: World)
    requires Stands(w, Answered("n"), Idle, Pending, 0) && "n" !in w.marks
    ensures Stands(Step(w, Submit(1, "n")), Answered("n"), Phase.Marked("n"), Pending, 0)
  {
  }

  lemma OpensSecond(w: World)
    requires Stands(w, Answered("n"), Phase.Marked("n"), Pending, 0)
    ensures Stands(Step(w, Open(1)), Answered("n"), Looking("n"), Pending, 0)
  {
  }

  lemma LooksSecond(w: World)
    requires Stands(w, Answered("n"), Looking("n"), Pending, 0)
    ensures Stands(Step(w, Look(1)), Answered("n"), Asking("n", Resubmission), Pending, 0)
  {
  }

  lemma AsksSecond(w: World)
    requires Stands(w, Answered("n"), Asking("n", Resubmission), Pending, 0)
    ensures Stands(Step(w, Ask(1)), Answered("n"), Waiting("n", Resubmission), Pending, 0)
  {
  }

  /** A resubmission has met the pending intent. */
  lemma Resubmitted() returns (w: World)
    ensures w == Run(EMPTY, RESUBMITTED) && Stands(w, Answered("n"), Looking("n"), Pending, 0)
  {
    var w0 := Called();
    var w1 := OneMore(CALL, Submit(1, "n"), CALL + [Submit(1, "n")]);
    SubmitsSecond(w0);
    w := OneMore(CALL + [Submit(1, "n")], Open(1), RESUBMITTED);
    OpensSecond(w1);
  }

  /** It asks the mint. */
  lemma Checked() returns (w: World)
    ensures w == Run(EMPTY, CHECKED) && Stands(w, Answered("n"), Waiting("n", Resubmission), Pending, 0)
    ensures Leaked(w, "n")
  {
    var w0 := Resubmitted();
    var w1 := OneMore(RESUBMITTED, Look(1), RESUBMITTED + [Look(1)]);
    LooksSecond(w0);
    w := OneMore(RESUBMITTED + [Look(1)], Ask(1), CHECKED);
    AsksSecond(w1);
    RestartedInv(map[], {});
    RunKeeps(EMPTY, RESUBMITTED);
    LookLeaks(w0, 1);
    StepKeepsLeak(w1, Ask(1), "n");
  }

  lemma GrantsFirst(w: World, second: Phase, state: State)
    requires Stands(w, Answered("n"), second, state, 0)
    ensures Stands(Step(w, Grant(0)), Settling("n", true), second, state, 1)
  {
  }

  lemma HearsSpent(w: World)
    requires Stands(w, Settling("n", true), Waiting("n", Resubmission), Pending, 1)
    ensures Stands(Step(w, Hear(1, Spent, true)), Settling("n", true), Claiming("n", Resubmission), Owed, 1)
  {
  }

  lemma ClaimsSecond(w: World)
    requires Stands(w, Settling("n", true), Claiming("n", Resubmission), Owed, 1)
    ensures var w' := Step(w, OpenClaim(1));
            && At(w', 0) == Settling("n", true) && At(w', 1) == Idle
            && "n" in w'.journal && w'.journal["n"] == Owed && Count(w'.log.served, "n") == 2
  {
  }

  const GRANTED: seq<Event> := CHECKED + [Grant(0)]
  const TWICE: seq<Event> := GRANTED + [Hear(1, Spent, true)] + [OpenClaim(1)] + [Settle(0)]

  /** A note served twice: while a resubmission asks the mint, the first submission grants its
      session; the note is found spent and a claim is opened; and the session comes too late for
      the journal. Both found the intent pending. */
  lemma ServedTwice()
    ensures var w := Run(EMPTY, TWICE);
            Count(w.log.served, "n") == 2 && "n" in w.journal && w.journal["n"] == Owed
  {
    var w0 := Checked();
    var w1 := OneMore(CHECKED, Grant(0), GRANTED);
    GrantsFirst(w0, Waiting("n", Resubmission), Pending);
    var w2 := OneMore(GRANTED, Hear(1, Spent, true), GRANTED + [Hear(1, Spent, true)]);
    HearsSpent(w1);
    var w3 := OneMore(GRANTED + [Hear(1, Spent, true)], OpenClaim(1),
                      GRANTED + [Hear(1, Spent, true)] + [OpenClaim(1)]);
    ClaimsSecond(w2);
    var w4 := OneMore(GRANTED + [Hear(1, Spent, true)] + [OpenClaim(1)], Settle(0), TWICE);
  }

  lemma HearsUnspent(w: World)
    requires Stands(w, Answered("n"), Waiting("n", Resubmission), Pending, 0)
    ensures Stands(Step(w, Hear(1, Unspent, true)), Answered("n"), Idle, Abandoned, 0)
  {
  }

  lemma SettlesInVain(w: World)
    requires Stands(w, Settling("n", true), Idle, Abandoned, 1)
    ensures Stands(Step(w, Settle(0)), Idle, Idle, Abandoned, 1)
  {
  }

  const GIVEN_UP: seq<Event> := CHECKED + [Hear(1, Unspent, true)]
  const ASTRAY: seq<Event> := GIVEN_UP + [Grant(0)] + [Settle(0)]

  /** A note served once whose intent says it was given up: the resubmission found it unspent
      before the session was granted. */
  lemma ServedOnceAstray()
    ensures Stands(Run(EMPTY, ASTRAY), Idle, Idle, Abandoned, 1)
  {
    var w0 := Checked();
    var w1 := OneMore(CHECKED, Hear(1, Unspent, true), GIVEN_UP);
    HearsUnspent(w0);
    var w2 := OneMore(GIVEN_UP, Grant(0), GIVEN_UP + [Grant(0)]);
    GrantsFirst(w1, Idle, Abandoned);
    var w3 := OneMore(GIVEN_UP + [Grant(0)], Settle(0), ASTRAY);
    SettlesInVain(w2);
  }

  lemma HearsNothing(w: World)
    requires Stands(w, Answered("n"), Waiting("n", Resubmission), Pending, 0)
    ensures Stands(Step(w, Hear(1, Undecided, true)), Answered("n"), Idle, Pending, 0)
  {
  }

  lemma RefusesBeside(w: World, second: Phase)
    requires Stands(w, Answered("n"), second, Pending, 0)
    ensures Stands(Step(w, Refuse(0)), Idle, second, Abandoned, 0)
  {
  }

  const UNDECIDED: seq<Event> := CHECKED + [Hear(1, Undecided, true)]

  /** A mark kept for good: a resubmission met the intent while it was pending and learned nothing,
      and then the mint's refusal gave the attempt up. The note could be tried again, and every
      submission of it is turned away. */
  lemma MarkKept(worker: nat)
    ensures var w := Run(EMPTY, UNDECIDED + [Refuse(0)]);
            && Leaked(w, "n") && Stands(w, Idle, Idle, Abandoned, 0)
            && Step(w, Submit(worker, "n")) == w
  {
    var w0 := Checked();
    var w1 := OneMore(CHECKED, Hear(1, Undecided, true), UNDECIDED);
    HearsNothing(w0);
    var w := OneMore(UNDECIDED, Refuse(0), UNDECIDED + [Refuse(0)]);
    RefusesBeside(w1, Idle);
    StepKeepsLeak(w0, Hear(1, Undecided, true), "n");
    StepKeepsLeak(w1, Refuse(0), "n");
  }

  lemma SlipsSecond(w: World)
    requires Stands(w, Idle, Looking("n"), Abandoned, 0)
    ensures Stands(Step(w, Look(1)), Idle, Receiving("n"), Abandoned, 0)
  {
  }

  /** A call that is not in the journal: the attempt a resubmission found pending is given up by
      the mint's refusal, the resubmission looks again, and money moves. */
  lemma CallUnwritten()
    ensures Stands(Run(EMPTY, RESUBMITTED + [Refuse(0)] + [Look(1)]), Idle, Receiving("n"), Abandoned, 0)
  {
    var w0 := Resubmitted();
    var w1 := OneMore(RESUBMITTED, Refuse(0), RESUBMITTED + [Refuse(0)]);
    RefusesBeside(w0, Looking("n"));
    var w2 := OneMore(RESUBMITTED + [Refuse(0)], Look(1), RESUBMITTED + [Refuse(0)] + [Look(1)]);
    SlipsSecond(w1);
  }
}
