// The work-item state machine of the ledger (worker/financial_backfill/states.py): the transitions every
// recorded event must follow, for discovery items and documents.
module ItemStates {
  import opened Prelude

  datatype Kind = FeedWindow | Listing | Document

  datatype State =
    | NoState | Pending | Requesting | Succeeded | Partial | Failed | RetryWait | Blocked | Abandoned
    | Discovered | Excluded | Processing | RetrievalFailed | CleanupFailed | Persisted | ConsumerFailed
    | Validated | Reconciled | NeedsValidation

  datatype Action = Create | Claim | Record | Expire | Promote | Resume | Requeue

  predicate InFlight(s: State) {
    s == Requesting || s == Processing
  }

  predicate DiscoveryAllows(f: State, t: State, a: Action) {
    match a
    case Create => f == NoState && t == Pending
    case Claim => f in {Pending, RetryWait} && t == Requesting
    case Record =>
      || (f == Requesting && t in {Succeeded, Partial, Failed, RetryWait, Blocked})
      || (f == RetryWait && t == Failed)
    case Expire => f == Requesting && t == Abandoned
    case Promote => f == Abandoned && t in {Pending, Succeeded, Partial}
    case Resume => f == Blocked && t == Pending
    case Requeue => f in {Succeeded, Partial, Failed} && t == Pending
  }

  predicate DocumentAllows(f: State, t: State, a: Action) {
    match a
    case Create => f == NoState && t in {Discovered, Excluded}
    case Claim => f in {Pending, RetryWait} && t == Requesting
    case Record =>
      || (f == Discovered && t == Excluded)
      || (f == Requesting && t in {Processing, RetryWait, RetrievalFailed, Blocked, CleanupFailed})
      || (f == Processing && t in {Persisted, ConsumerFailed, CleanupFailed, RetryWait, Failed})
      || (f == RetryWait && t in {RetrievalFailed, Failed})
    case Expire => InFlight(f) && t == Abandoned
    case Promote =>
      || (f == Discovered && t in {Pending, Persisted}) || (f in {Pending, RetryWait} && t == Persisted)
      || (f == Abandoned && t in {Pending, Persisted})
      || (f == Persisted && t in {Validated, NeedsValidation}) || (f == Validated && t in {Reconciled, NeedsValidation})
      || (f == Reconciled && t == NeedsValidation) || (f == NeedsValidation && t == Validated)
    case Resume => f == Blocked && t == Pending
    case Requeue => f in {Excluded, RetrievalFailed, ConsumerFailed, CleanupFailed, Failed} && t == Pending
  }

  predicate Allowed(k: Kind, f: State, t: State, a: Action) {
    if k == Document then DocumentAllows(f, t, a) else DiscoveryAllows(f, t, a)
  }

  ghost predicate StateOf(k: Kind, s: State) {
    exists f, a :: Allowed(k, f, s, a)
  }

  /** FINAL: a state that only an explicit operator re-queue leaves. */
  ghost predicate Final(k: Kind, s: State) {
    StateOf(k, s) && forall t, a :: Allowed(k, s, t, a) ==> a == Requeue
  }

  /** How a document leaves a state without an operator, where it can. */
  function DocumentExit(s: State): (exit: Option<(State, Action)>)
    ensures exit.Some? ==> DocumentAllows(s, exit.value.0, exit.value.1) && exit.value.1 != Requeue
  {
    match s
    case NoState => Some((Discovered, Create))
    case Discovered => Some((Pending, Promote))
    case Pending => Some((Requesting, Claim))
    case RetryWait => Some((Requesting, Claim))
    case Requesting => Some((Processing, Record))
    case Processing => Some((Persisted, Record))
    case Blocked => Some((Pending, Resume))
    case Abandoned => Some((Pending, Promote))
    case Persisted => Some((Validated, Promote))
    case Validated => Some((Reconciled, Promote))
    case Reconciled => Some((NeedsValidation, Promote))
    case NeedsValidation => Some((Validated, Promote))
    case _ => None
  }

  lemma {:induction false} DocumentFinals(s: State)
    ensures Final(Document, s) <==> s in {Excluded, RetrievalFailed, ConsumerFailed, CleanupFailed, Failed}
  {
    hide StateOf;
    if DocumentExit(s).Some? {
      assert Allowed(Document, s, DocumentExit(s).value.0, DocumentExit(s).value.1);
    } else {
      assert Final(Document, s) <==> StateOf(Document, s);
      DocumentStates(s);
    }
  }

  lemma {:induction false} DocumentStates(s: State)
    requires DocumentExit(s).None?
    ensures StateOf(Document, s) <==> s in {Excluded, RetrievalFailed, ConsumerFailed, CleanupFailed, Failed}
  {
    assert Allowed(Document, NoState, Excluded, Create) && Allowed(Document, Requesting, RetrievalFailed, Record);
    assert Allowed(Document, Requesting, CleanupFailed, Record)
           && Allowed(Document, Processing, ConsumerFailed, Record);
    assert Allowed(Document, Processing, Failed, Record);
  }

  lemma {:induction false} DiscoveryFinals(k: Kind, s: State)
    requires k != Document
    ensures Final(k, s) <==> s in {Succeeded, Partial, Failed}
  {
    assert Allowed(k, Requesting, Succeeded, Record) && Allowed(k, Requesting, Partial, Record);
    assert Allowed(k, Requesting, Failed, Record) && Allowed(k, Pending, Requesting, Claim);
    assert Allowed(k, RetryWait, Requesting, Claim) && Allowed(k, Blocked, Pending, Resume);
    assert Allowed(k, Abandoned, Pending, Promote);
  }

  /** The final states, computed from the table as the code computes them: a persisted document is not final. */
  lemma {:induction false} FinalStates(k: Kind, s: State)
    ensures Final(k, s) <==>
            if k == Document then s in {Excluded, RetrievalFailed, ConsumerFailed, CleanupFailed, Failed}
            else s in {Succeeded, Partial, Failed}
  {
    if k == Document {
      DocumentFinals(s);
    } else {
      DiscoveryFinals(k, s);
    }
  }

  /** No final state is in flight, abandoned, waiting or blocked. */
  lemma {:induction false} FinalIsSettled(k: Kind, s: State)
    requires Final(k, s)
    ensures !InFlight(s) && s !in {Abandoned, Pending, RetryWait, Blocked}
  {
    FinalStates(k, s);
  }
}
