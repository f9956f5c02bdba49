/** The receive guard as the program runs it: the set of in-flight marks and the journal of
    intents, each changed in place under its own lock. */
module ReceiveGuards {
  import R = ReceiveIntents

  class ReceiveGuard {
    var receiveInFlight: set<string>
    var receiveIntents: R.Journal

    constructor ()
      ensures receiveInFlight == {} && receiveIntents == map[]
    {
      receiveInFlight, receiveIntents := {}, map[];
    }

    method BeginReceive(reference: string) returns (first: bool)
      modifies this`receiveInFlight
      ensures (receiveInFlight, first) == R.BeginReceive(old(receiveInFlight), reference)
    {
      if reference == "" { return true; }
      if reference in receiveInFlight { return false; }
      receiveInFlight := receiveInFlight + {reference};
      return true;
    }

    method EndReceive(reference: string)
      modifies this`receiveInFlight
      ensures receiveInFlight == R.EndReceive(old(receiveInFlight), reference)
    {
      if reference == "" { return; }
      receiveInFlight := receiveInFlight - {reference};
    }

    /** Opens an intent; a prior attempt is reported unless it was abandoned. */
    method BeginReceiveIntent(reference: string) returns (prior: R.Prior)
      modifies this`receiveIntents
      ensures (receiveIntents, prior) == R.BeginIntent(old(receiveIntents), reference)
    {
      if reference == "" { return R.First; }
      if reference in receiveIntents {
        if receiveIntents[reference] == R.Abandoned {
          receiveIntents := receiveIntents[reference := R.Pending];
          return R.First;
        }
        return R.Known(receiveIntents[reference]);
      }
      receiveIntents := receiveIntents[reference := R.Pending];
      return R.First;
    }

    method ResolveReceiveIntent(reference: string, to: R.State)
      modifies this`receiveIntents
      ensures receiveIntents == R.Resolve(old(receiveIntents), reference, to)
    {
      if reference == "" { return; }
      if reference !in receiveIntents || receiveIntents[reference] != R.Pending { return; }
      receiveIntents := receiveIntents[reference := to];
    }

    /** The first lock region of a reconciliation: whether the intent is pending. */
    method LookUpPending(reference: string) returns (pending: bool)
      ensures pending <==> reference in receiveIntents && receiveIntents[reference] == R.Pending
    {
      if reference !in receiveIntents { return false; }
      return receiveIntents[reference] == R.Pending;
    }

    /** What a reconciliation does once the mint was asked, however the intent stands by then:
        resolve it if it is still pending, and report whether a claim is to be opened. */
    method ConcludeReconciliation(reference: string, evidence: R.Evidence, priced: bool) returns (claim: bool)
      modifies this`receiveIntents
      ensures receiveIntents == R.Decided(old(receiveIntents), reference, evidence, priced)
      ensures claim <==> evidence == R.Spent && priced
    {
      match evidence {
        case Undecided => return false;
        case Spent =>
          if !priced { return false; }
          ResolveReceiveIntent(reference, R.Owed);
          return true;
        case Unspent =>
          ResolveReceiveIntent(reference, R.Abandoned);
          return false;
      }
    }
  }
}
