/** What the journal's word is worth: no note is called granted or owed for nothing. */
module ReceiveBacked {
  import opened ReceiveIntents
  import opened ReceiveSafety
  import opened ReceiveService
  import opened ReceiveOnce

  predicate Served(w: World, r: string) {
    Count(w.log.served, r) > 0
  }

  predicate ClaimsNow(w: World, a: nat, r: string) {
    At(w, a).Claiming? && At(w, a).reference == r
  }

  predicate SettlesNow(w: World, a: nat, r: string) {
    At(w, a).Settling? && At(w, a).reference == r
  }

  /** A note not yet served has no open claim, nobody about to note a service, and is not called
      granted or owed, unless somebody is about to open its claim. */
  ghost predicate Backed(w: World, r: string) {
    Served(w, r) ||
    (&& r !in w.claims
     && (forall a :: !SettlesNow(w, a, r))
     && (IsFinal(w.journal, r) ==> exists a :: ClaimsNow(w, a, r)))
  }

  lemma StaysServed(w: World, e: Event, r: string)
    requires Served(w, r) || Serves(w, e, r)
    ensures Served(Step(w, e), r)
  {
    StepServes(w, e, r);
  }

  /** Nothing is claimed or settled but by a service, while there was none. */
  lemma NothingOpens(w: World, e: Event, r: string)
    requires r != "" && Backed(w, r) && !Served(w, r) && !Serves(w, e, r)
    ensures r !in Step(w, e).claims
  {
    if !e.Grant? && !e.Owe? && !e.OpenClaim? { OthersOpenNothing(w, e); }
  }

  lemma OthersOpenNothing(w: World, e: Event)
    requires !e.Grant? && !e.Owe? && !e.OpenClaim?
    ensures Step(w, e).claims <= w.claims
  {
  }

  lemma NobodySettles(w: World, e: Event, r: string, a: nat)
    requires r != "" && Backed(w, r) && !Served(w, r) && !Serves(w, e, r)
    ensures !SettlesNow(Step(w, e), a, r)
  {
    assert !SettlesNow(w, a, r);
  }

  /** A claim about to be opened stays so until it is. */
  lemma ClaimWaits(w: World, e: Event, r: string, a: nat)
    requires ClaimsNow(w, a, r) && !(e.OpenClaim? && e.worker == a)
    ensures ClaimsNow(Step(w, e), a, r)
  {
  }

  lemma SettlesNothing(w: World, e: Event, r: string)
    requires r != "" && Backed(w, r) && !Served(w, r) && e.Settle?
    ensures IsFinal(Step(w, e).journal, r) ==> IsFinal(w.journal, r)
  {
    StepJournal(w, e);
    assert !SettlesNow(w, e.worker, r);
  }

  /** Short of a settlement, a note is called granted or owed only by one about to open its claim. */
  lemma FinalClaims(w: World, e: Event, r: string)
    requires !e.Settle? && !IsFinal(w.journal, r) && IsFinal(Step(w, e).journal, r)
    ensures !e.ClaimEnds? && ClaimsNow(Step(w, e), e.worker, r)
  {
    StepJournal(w, e);
  }

  lemma StepBacked(w: World, e: Event, r: string)
    requires r != "" && Backed(w, r)
    ensures Backed(Step(w, e), r)
  {
    if Served(w, r) || Serves(w, e, r) {
      StaysServed(w, e, r);
    } else {
      NothingOpens(w, e, r);
      forall a ensures !SettlesNow(Step(w, e), a, r) { NobodySettles(w, e, r, a); }
      if e.Settle? { SettlesNothing(w, e, r); }
      if IsFinal(Step(w, e).journal, r) {
        if IsFinal(w.journal, r) {
          var a :| ClaimsNow(w, a, r);
          ClaimWaits(w, e, r, a);
        } else {
          FinalClaims(w, e, r);
        }
      }
    }
  }

  lemma {:induction false} RunBacked(w: World, es: seq<Event>, r: string)
    requires r != "" && Backed(w, r)
    ensures Backed(Run(w, es), r)
    decreases |es|
  {
    if es == [] {
    } else {
      RunBacked(w, es[..|es| - 1], r);
      StepBacked(Run(w, es[..|es| - 1]), es[|es| - 1], r);
    }
  }

  /** Over every run, whatever the mint and the gate do: a note that was neither granted nor owed
      nor claimed at the start is called so only once it was served, or while somebody is about to
      open the claim. */
  lemma NothingForNothing(journal: Journal, claims: set<string>, es: seq<Event>, r: string)
    requires r != "" && !IsFinal(journal, r) && r !in claims
    ensures var w := Run(Restarted(journal, claims), es);
            IsFinal(w.journal, r) ==> Served(w, r) || exists a :: ClaimsNow(w, a, r)
  {
    RunBacked(Restarted(journal, claims), es, r);
  }

  // ------------------------------------------------------------ no answer is lost

  /** A call on the wire stays there, its deadline passed or not, until its answer is taken up. */
  lemma AnswerNotLost(w: World, e: Event, a: nat)
    requires Live(At(w, a))
    ensures var p, p' := At(w, a), At(Step(w, e), a);
            || (Live(p') && p'.reference == p.reference)
            || (e == Answer(a) && p' == Answered(p.reference))
            || (e == LateAnswer(a) && p' == Recording(p.reference))
  {
  }

  /** A success in time: the session is granted, and the journal says so if it still waits. */
  lemma SuccessServed(w: World, a: nat, r: string)
    requires At(w, a) == Receiving(r) && r != ""
    ensures var w1 := Step(w, Answer(a));
            var w2 := Step(w1, Grant(a));
            var w3 := Step(w2, Settle(a));
            && r !in w1.marks && Served(w3, r) && At(w3, a) == Idle
            && (IsPending(w, r) ==> w3.journal == w.journal[r := Granted])
            && (!IsPending(w, r) ==> w3.journal == w.journal)
  {
  }

  /** A success whose session cannot be opened: a claim is open, and the journal says owed. */
  lemma SuccessOwed(w: World, a: nat, r: string)
    requires At(w, a) == Answered(r) && r != ""
    ensures var w1 := Step(w, Owe(a));
            var w2 := Step(w1, Settle(a));
            && r in w2.claims && At(w2, a) == Idle
            && w2.journal == if IsPending(w, r) then w.journal[r := Owed] else w.journal
  {
  }

  /** An answer after the deadline is taken up by the recorder, which still holds the mark. */
  lemma LateIsRecorded(w: World, a: nat, r: string)
    requires At(w, a) == Receiving(r)
    ensures var w2 := Step(Step(w, Deadline(a)), LateAnswer(a));
            At(w2, a) == Recording(r) && w2.journal == w.journal && w2.marks == w.marks && w2.claims == w.claims
  {
  }

  lemma LateIsClaimed(w: World, a: nat, r: string)
    requires At(w, a) == Recording(r) && r != ""
    ensures var w2 := Step(Step(w, LateOwe(a)), OpenClaim(a));
            && At(w2, a) == Closing(r) && r in w2.claims && w2.marks == w.marks
            && w2.journal == Resolve(w.journal, r, Owed)
  {
    assert At(Step(w, LateOwe(a)), a) == Claiming(r, OwnCall);
  }

  /** A success after the deadline: the journal says owed, a claim is open, and then the mark is
      released. */
  lemma LateSuccessOwed(w: World, a: nat, r: string)
    requires At(w, a) == Receiving(r) && r != ""
    ensures var recorded := Step(Step(w, Deadline(a)), LateAnswer(a));
            var claimed := Step(Step(recorded, LateOwe(a)), OpenClaim(a));
            var w' := Step(claimed, LateEnd(a));
            && r in w'.claims && r !in w'.marks && At(w', a) == Idle
            && w'.journal == if IsPending(w, r) then w.journal[r := Owed] else w.journal
  {
    LateIsRecorded(w, a, r);
    var recorded := Step(Step(w, Deadline(a)), LateAnswer(a));
    LateIsClaimed(recorded, a, r);
    MarkReleased(Step(Step(recorded, LateOwe(a)), OpenClaim(a)), a, r);
  }

  lemma MarkReleased(w: World, a: nat, r: string)
    requires At(w, a) == Closing(r) && r != ""
    ensures var w' := Step(w, LateEnd(a));
            r !in w'.marks && At(w', a) == Idle && w'.claims == w.claims && w'.journal == w.journal
  {
  }

  lemma DoubtAsks(w: World, a: nat, r: string)
    requires At(w, a) == Recording(r) && IsPending(w, r)
    ensures var w2 := Step(Step(w, Doubt(a)), Ask(a));
            At(w2, a) == Waiting(r, OwnCall) && w2.journal == w.journal
  {
  }

  /** A late answer in doubt is looked into: what the mint says decides, and without it the intent
      stays as it is. */
  lemma DoubtDecided(w: World, a: nat, r: string, evidence: Evidence, priced: bool)
    requires At(w, a) == Recording(r) && IsPending(w, r) && r != ""
    ensures var w' := Step(Step(Step(w, Doubt(a)), Ask(a)), Hear(a, evidence, priced));
            && w'.journal == (match evidence
                              case Spent => if priced then w.journal[r := Owed] else w.journal
                              case Unspent => w.journal[r := Abandoned]
                              case Undecided => w.journal)
            && At(w', a) == (if evidence == Spent && priced then Claiming(r, OwnCall) else Closing(r))
  {
    DoubtAsks(w, a, r);
    Heard(Step(Step(w, Doubt(a)), Ask(a)), a, r, OwnCall, evidence, priced);
  }

  lemma Heard(w: World, a: nat, r: string, role: Role, evidence: Evidence, priced: bool)
    requires At(w, a) == Waiting(r, role)
    ensures var w' := Step(w, Hear(a, evidence, priced));
            && w'.journal == Decided(w.journal, r, evidence, priced)
            && At(w', a) == (if evidence == Spent && priced then Claiming(r, role) else Afterwards(r, role))
  {
  }
}
