/** Asking a mint whether a token was spent, and when its replies decide the question
    (Cashu NUT-07): every answer must be about a proof that was asked about. */
module TokenEvidence {
  import opened Basics
  datatype ProofState = Spent | Unspent | Pending | Unrecognised

  datatype Answer = Answer(y: string, state: ProofState)

  datatype Token = Nil | Token(secrets: seq<string>)

  /** A hash of a secret, or no point on the curve. */
  datatype Point = Hashed(y: string) | NotOnCurve

  datatype Reply = Unreachable | Replied(states: seq<Answer>)

  datatype Error =
    | NilToken
    | NoProofs
    | HashFailed(secret: string)
    | MintUnreachable
    | NotAsked(y: string)
    | AnsweredTwice(y: string)
    | Undetermined(y: string)
    | StateNotKnown(y: string)
    | TooFewAnswers(answered: nat, asked: nat)

  datatype Verdict = Decided(spent: bool) | Failed(error: Error)

  // ------------------------------------------------------------ what counts as evidence

  /** Every question answered exactly once, with an answer that settles it, and nothing else said. */
  predicate Conclusive(ys: seq<string>, states: seq<Answer>) {
    && Distinct(ys)
    && (forall i, j :: 0 <= i < j < |states| ==> states[i].y != states[j].y)
    && (forall i :: 0 <= i < |states| ==> states[i].y in ys && (states[i].state == Spent || states[i].state == Unspent))
    && (forall k :: 0 <= k < |ys| ==> exists i :: 0 <= i < |states| && states[i].y == ys[k])
  }

  predicate SomeSpent(states: seq<Answer>) {
    exists i :: 0 <= i < |states| && states[i].state == Spent
  }

  /** Answer i names something that was not asked, or was answered before, or settles nothing. */
  predicate Faulty(ys: seq<string>, states: seq<Answer>, i: nat)
    requires i < |states|
  {
    || states[i].y !in ys
    || (exists j :: 0 <= j < i && states[j].y == states[i].y)
    || states[i].state == Pending || states[i].state == Unrecognised
  }

  /** The complaint about a faulty answer, by the order in which the answer is inspected. */
  function Complaint(ys: seq<string>, states: seq<Answer>, i: nat): Error
    requires i < |states|
  {
    var y := states[i].y;
    if y !in ys then NotAsked(y)
    else if exists j :: 0 <= j < i && states[j].y == y then AnsweredTwice(y)
    else if states[i].state == Pending then Undetermined(y)
    else StateNotKnown(y)
  }

  /** A fault is one of four, told apart by the question and the answers before. */
  lemma ComplaintTells(ys: seq<string>, states: seq<Answer>, i: nat)
    requires i < |states| && Faulty(ys, states, i)
    ensures var y := states[i].y;
            var twice := exists j :: 0 <= j < i && states[j].y == y;
            && (Complaint(ys, states, i) == NotAsked(y) <==> y !in ys)
            && (Complaint(ys, states, i) == AnsweredTwice(y) <==> y in ys && twice)
            && (Complaint(ys, states, i) == Undetermined(y) <==> y in ys && !twice && states[i].state == Pending)
            && (Complaint(ys, states, i) == StateNotKnown(y) <==> y in ys && !twice && states[i].state == Unrecognised)
  {
  }

  predicate FirstFault(ys: seq<string>, states: seq<Answer>, i: nat) {
    i < |states| && Faulty(ys, states, i) && forall j :: 0 <= j < i ==> !Faulty(ys, states, j)
  }

  function Elements(ys: seq<string>): set<string> {
    set y | y in ys
  }

  function About(states: seq<Answer>): set<string> {
    set i | 0 <= i < |states| :: states[i].y
  }

  lemma {:induction false} ElementsCount(ys: seq<string>)
    ensures |Elements(ys)| <= |ys|
    ensures |Elements(ys)| == |ys| <==> Distinct(ys)
  {
    if ys == [] {
    } else {
      var init, last := ys[..|ys| - 1], ys[|ys| - 1];
      ElementsCount(init);
      assert Elements(ys) == Elements(init) + {last};
      if last in init {
        assert !Distinct(ys);
      } else {
        assert Distinct(ys) <==> Distinct(init);
      }
    }
  }

  lemma SubsetNotSmaller(a: set<string>, b: set<string>)
    requires a <= b
    ensures |a| <= |b| && (|a| == |b| <==> a == b)
  {
    assert b == a + (b - a);
  }

  /** Answers without a fault settle the question exactly when they are as many as the questions. */
  lemma CountDecides(ys: seq<string>, states: seq<Answer>)
    requires forall i :: 0 <= i < |states| ==> !Faulty(ys, states, i)
    ensures Conclusive(ys, states) <==> |About(states)| >= |ys|
  {
    ElementsCount(ys);
    forall j | 0 <= j < |states|
      ensures states[j].y in ys && (states[j].state == Spent || states[j].state == Unspent)
      ensures forall i :: 0 <= i < j ==> states[i].y != states[j].y
    {
      assert !Faulty(ys, states, j);
    }
    assert About(states) <= Elements(ys);
    SubsetNotSmaller(About(states), Elements(ys));
    if |About(states)| >= |ys| {
      forall k | 0 <= k < |ys| ensures exists i :: 0 <= i < |states| && states[i].y == ys[k] {
        assert ys[k] in About(states);
      }
    }
    if Conclusive(ys, states) {
      forall y | y in Elements(ys) ensures y in About(states) {
        var k :| 0 <= k < |ys| && ys[k] == y;
      }
    }
  }

  lemma FaultNotConclusive(ys: seq<string>, states: seq<Answer>, i: nat)
    requires i < |states| && Faulty(ys, states, i)
    ensures !Conclusive(ys, states)
  {
  }

  // ------------------------------------------------------------ the program

  /** A verdict on complete evidence, and otherwise the complaint about the first fault, or about too
      few answers if there is none. */
  ghost predicate Settles(ys: seq<string>, states: seq<Answer>, v: Verdict) {
    && (v.Decided? <==> Conclusive(ys, states))
    && (v.Decided? ==> (v.spent <==> SomeSpent(states)))
    && (forall i: nat :: FirstFault(ys, states, i) ==> v == Failed(Complaint(ys, states, i)))
    && ((forall i: nat :: !FirstFault(ys, states, i)) && v.Failed? ==>
          v.error == TooFewAnswers(|About(states)|, |ys|))
  }

  /** The answers inspected in order: the first fault is reported; without one the number of
      distinct proofs answered for must reach the number asked about. */
  method Decide(ys: seq<string>, states: seq<Answer>) returns (v: Verdict)
    ensures Settles(ys, states, v)
  {
    var anySpent := false;
    var requested := set y | y in ys;
    var answered: set<string> := {};
    var i := 0;
    while i < |states|
      invariant 0 <= i <= |states|
      invariant forall j :: 0 <= j < i ==> !Faulty(ys, states, j)
      invariant answered == About(states[..i])
      invariant anySpent <==> SomeSpent(states[..i])
    {
      var st := states[i];
      assert st.y in answered <==> exists j :: 0 <= j < i && states[j].y == st.y by {
        assert forall j :: 0 <= j < i ==> states[..i][j] == states[j];
      }
      if Faulty(ys, states, i) {
        FaultNotConclusive(ys, states, i);
        assert FirstFault(ys, states, i);
      }
      if st.y !in requested { return Failed(NotAsked(st.y)); }
      if st.y in answered { return Failed(AnsweredTwice(st.y)); }
      answered := answered + {st.y};
      match st.state {
        case Spent => anySpent := true;
        case Unspent =>
        case Pending => return Failed(Undetermined(st.y));
        case Unrecognised => return Failed(StateNotKnown(st.y));
      }
      assert states[..i + 1] == states[..i] + [st];
      assert About(states[..i + 1]) == About(states[..i]) + {st.y};
      i := i + 1;
    }
    assert states[..i] == states;
    CountDecides(ys, states);
    if |answered| < |ys| { return Failed(TooFewAnswers(|answered|, |ys|)); }
    return Decided(anySpent);
  }

  /** The points of the secrets, or the first secret without one. */
  method HashSecrets(secrets: seq<string>, toCurve: string -> Point) returns (ys: seq<string>, bad: nat)
    ensures bad <= |secrets| && |ys| == bad
    ensures forall k :: 0 <= k < bad ==> toCurve(secrets[k]) == Hashed(ys[k])
    ensures bad < |secrets| ==> toCurve(secrets[bad]) == NotOnCurve
  {
    ys, bad := [], 0;
    while bad < |secrets|
      invariant bad <= |secrets| && |ys| == bad
      invariant forall k :: 0 <= k < bad ==> toCurve(secrets[k]) == Hashed(ys[k])
    {
      match toCurve(secrets[bad])
      case NotOnCurve => return;
      case Hashed(y) => ys := ys + [y];
      bad := bad + 1;
    }
  }

  predicate AllHashed(secrets: seq<string>, toCurve: string -> Point) {
    forall k :: 0 <= k < |secrets| ==> toCurve(secrets[k]).Hashed?
  }

  predicate FirstUnhashed(secrets: seq<string>, toCurve: string -> Point, k: int) {
    0 <= k < |secrets| && toCurve(secrets[k]) == NotOnCurve && forall j :: 0 <= j < k ==> toCurve(secrets[j]).Hashed?
  }

  function Points(secrets: seq<string>, toCurve: string -> Point): seq<string>
    requires AllHashed(secrets, toCurve)
  {
    seq(|secrets|, k requires 0 <= k < |secrets| => toCurve(secrets[k]).y)
  }

  /** Was the token spent? Decided only on complete evidence; then true exactly when the mint
      called one of its proofs spent. */
  method CheckTokenSpent(token: Token, toCurve: string -> Point, reply: Reply) returns (v: Verdict)
    ensures token.Nil? ==> v == Failed(NilToken)
    ensures token.Token? && token.secrets == [] ==> v == Failed(NoProofs)
    ensures v.Decided? <==>
              token.Token? && token.secrets != [] && AllHashed(token.secrets, toCurve) && reply.Replied?
              && Conclusive(Points(token.secrets, toCurve), reply.states)
    ensures v.Decided? ==> (v.spent <==> SomeSpent(reply.states))
    ensures token.Token? && token.secrets != [] ==>
              forall k :: FirstUnhashed(token.secrets, toCurve, k) ==> v == Failed(HashFailed(token.secrets[k]))
    ensures token.Token? && token.secrets != [] && AllHashed(token.secrets, toCurve) ==>
              match reply
              case Unreachable => v == Failed(MintUnreachable)
              case Replied(states) => Settles(Points(token.secrets, toCurve), states, v)
  {
    if token.Nil? { return Failed(NilToken); }
    if token.secrets == [] { return Failed(NoProofs); }
    var ys, bad := HashSecrets(token.secrets, toCurve);
    if bad < |token.secrets| { return Failed(HashFailed(token.secrets[bad])); }
    if reply.Unreachable? { return Failed(MintUnreachable); }
    assert ys == Points(token.secrets, toCurve);
    v := Decide(ys, reply.states);
  }
}
