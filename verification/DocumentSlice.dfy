// The document slice (worker/backfill_documents/worker.py): one claim per item, one pass loop per claim over the
// retrieval lifecycle's records, and the ledger's guard on every event it appends. The retrieval lifecycle enters
// through its lawful records only; everything else it meets is arbitrary.
module DocumentSlices {
  import opened Prelude
  import opened ItemStates
  import L = DocumentLifecycle
  import O = DocumentOutcomes

  // ---------------------------------------------------------------- the ledger

  /** One event of a document item; record: the retrieval record it names; blocked: it names its block. */
  datatype Event = Event(state: State, action: Action, lease: Option<nat>, record: Option<L.Record>, block: bool)

  function Last(es: seq<Event>): Event
    requires es != []
  {
    es[|es| - 1]
  }

  function StateAfter(es: seq<Event>): State {
    if es == [] then NoState else Last(es).state
  }

  /** The evidence a state claims (hb_item_event_guard). */
  predicate EvidenceOk(e: Event) {
    && (e.state == RetrievalFailed ==> e.record.Some? && e.record.value.outcome in O.RETRIEVAL_FAILED_OUTCOMES)
    && (e.state == ConsumerFailed ==> e.record.Some? && e.record.value.outcome == L.ConsumerFailed)
    && (e.state == CleanupFailed ==> e.record.Some? && e.record.value.outcome == L.CleanupFailed)
    && (e.state == Persisted && e.action == Record ==>
          e.record.Some? && e.record.value.outcome == L.Succeeded && e.record.value.consumer == L.ConsumerSucceeded)
    && (e.state == Blocked ==> e.block)
  }

  /** In-flight work exists, and is recorded, only under the live lease that claimed it. */
  predicate LeaseOk(es: seq<Event>, e: Event, live: Option<nat>) {
    && (InFlight(e.state) || (InFlight(StateAfter(es)) && e.action == Record) ==> live.Some? && e.lease == live)
    && (InFlight(StateAfter(es)) && e.action == Record ==> e.lease == Last(es).lease)
  }

  /** The ledger's guard on one new event. */
  predicate Accepts(es: seq<Event>, e: Event, live: Option<nat>) {
    Allowed(Document, StateAfter(es), e.state, e.action) && EvidenceOk(e) && LeaseOk(es, e, live)
  }

  /** ... on the events of one transaction. */
  predicate AcceptsAll(es: seq<Event>, more: seq<Event>, live: Option<nat>)
    decreases |more|
  {
    more == [] || (Accepts(es, more[0], live) && AcceptsAll(es + [more[0]], more[1..], live))
  }

  /** Every event followed the transition table from the one before it, with its evidence. */
  ghost predicate LegalPath(es: seq<Event>) {
    es == [] ||
    (var before := es[..|es| - 1];
     LegalPath(before) && Allowed(Document, StateAfter(before), Last(es).state, Last(es).action)
     && EvidenceOk(Last(es)))
  }

  function Claims(es: seq<Event>): nat {
    if es == [] then 0
    else if Last(es).action == Requeue then 0
    else (if Last(es).action == Claim then 1 else 0) + Claims(es[..|es| - 1])
  }

  lemma {:induction false} AcceptedIsLegal(es: seq<Event>, more: seq<Event>, live: Option<nat>)
    requires LegalPath(es) && AcceptsAll(es, more, live)
    ensures LegalPath(es + more)
    decreases |more|
  {
    hide EvidenceOk, LeaseOk, Allowed;
    if more == [] {
      assert es + more == es;
    } else {
      var next := es + [more[0]];
      assert next[..|next| - 1] == es;
      AcceptedIsLegal(next, more[1..], live);
      assert next + more[1..] == es + more;
    }
  }

  lemma {:induction false} ClaimsAfter(es: seq<Event>, e: Event)
    ensures Claims(es + [e]) == if e.action == Requeue then 0 else (if e.action == Claim then 1 else 0) + Claims(es)
  {
    assert (es + [e])[..|es + [e]| - 1] == es;
  }

  // ---------------------------------------------------------------- the environment

  predicate NoRequeue(more: seq<Event>) {
    forall k :: 0 <= k < |more| ==> more[k].action != Requeue
  }

  /** The log grew by events of its own, none of them an operator's re-queue. */
  ghost predicate Grown(before: seq<Event>, after: seq<Event>) {
    before <= after && NoRequeue(after[|before|..])
  }

  /** In flight only under this lease. */
  predicate OwnFlight(es: seq<Event>, lease: nat) {
    InFlight(StateAfter(es)) ==> es != [] && Last(es).lease == Some(lease)
  }

  /** A slice's ledger: every log legal, grown from what the slice found, and in flight only under the slice's lease. */
  ghost predicate LedgerOk(origin: map<nat, seq<Event>>, log: map<nat, seq<Event>>, lease: nat) {
    origin.Keys == log.Keys
    && forall i :: i in log ==> LegalPath(log[i]) && Grown(origin[i], log[i]) && OwnFlight(log[i], lease)
  }

  lemma {:induction false} AcceptedIsOwn(es: seq<Event>, more: seq<Event>, lease: nat, live: Option<nat>)
    requires OwnFlight(es, lease) && AcceptsAll(es, more, live) && (live.Some? ==> live.value == lease)
    ensures OwnFlight(es + more, lease)
    decreases |more|
  {
    hide EvidenceOk, Allowed;
    if more == [] {
      assert es + more == es;
    } else {
      var next := es + [more[0]];
      AcceptedIsOwn(next, more[1..], lease, live);
      assert next + more[1..] == es + more;
    }
  }

  lemma {:induction false} LedgerStays(origin: map<nat, seq<Event>>, log: map<nat, seq<Event>>, lease: nat, item: nat,
                                       more: seq<Event>, live: Option<nat>)
    requires LedgerOk(origin, log, lease) && item in log && NoRequeue(more) && (live.Some? ==> live.value == lease)
    requires AcceptsAll(log[item], more, live)
    ensures LedgerOk(origin, log[item := log[item] + more], lease)
  {
    hide LegalPath, AcceptsAll, OwnFlight;
    AcceptedIsLegal(log[item], more, live);
    AcceptedIsOwn(log[item], more, lease, live);
    var (o, es) := (origin[item], log[item]);
    assert (es + more)[|o|..] == es[|o|..] + more;
  }

  /** Claims are never taken back but by a re-queue. */
  lemma {:induction false} ClaimsOnlyGrow(before: seq<Event>, after: seq<Event>)
    requires Grown(before, after)
    ensures Claims(before) <= Claims(after)
    decreases |after|
  {
    if |after| > |before| {
      var rest := after[..|after| - 1];
      assert rest[|before|..] == after[|before|..][..|after| - 1 - |before|];
      assert Last(after) == after[|before|..][|after| - 1 - |before|];
      ClaimsOnlyGrow(before, rest);
    } else {
      assert before == after;
    }
  }

  datatype Fault = NoFault | Raises(kept: bool)

  datatype Stop = BlockedStop | CircuitOpen | Refused | DurabilityStop | CleanupFailure

  datatype Retrieved = F2Raises | F2Returns(rec: L.Record, leftovers: nat)

  /** One F2 pass: the free-space check before it, HB-2's refusal to start it, what
      process_batch does, the transport's stop after it, a refusal inside it, and what F5 leaves. */
  datatype Pass = Pass(noSpace: bool, refused: bool, got: Retrieved, stop: Option<Stop>,
                       refusedInside: bool, f5Result: bool, attachRaises: bool, persistFails: bool)

  /** What the lifecycle guarantees of a pass with a consumer, and the stops HB-2 knows. */
  ghost predicate LawfulPass(p: Pass) {
    (p.got.F2Returns? ==> L.LawfulRecord(p.got.rec, true)) && (p.stop.Some? ==> p.stop.value != CleanupFailure)
  }

  /** A pass in which something unexpected happens: exactly the exceptions process_one does not handle. */
  predicate Unexpected(p: Pass) {
    p.got.F2Raises? || (O.DispositionOf(p.got.rec, p.got.leftovers) == O.Persist && (!p.f5Result || p.attachRaises))
  }

  /** What one pass leads to: another pass, or how process_one ends. */
  datatype Exit = Continue | Done(state: State) | Stopped(stop: Stop) | Rejected | Raised

  class DocumentSlice {
    var log: map<nat, seq<Event>>
    var lease: nat
    var active: bool
    var max: nat
    var passesPerDocument: nat
    var cap: nat
    var documents: nat
    var attempted: set<nat>
    var skipped: set<nat>
    var outcomes: seq<(nat, State)>
    var stop: Option<Stop>
    var slStop: Option<Stop>
    var closed: bool
    var leaseKept: bool
    var faults: seq<Fault>
    ghost const origin: map<nat, seq<Event>>

    ghost predicate Valid()
      reads this
    {
      LedgerOk(origin, log, lease)
    }

    /** Opened under its lease, on the ledger as HB-2's expiry of dead leases left it. */
    constructor (log: map<nat, seq<Event>>, lease: nat, max: nat, passesPerDocument: nat, cap: nat, faults: seq<Fault>)
      requires forall i :: i in log ==> LegalPath(log[i]) && !InFlight(StateAfter(log[i]))
      ensures Valid() && active && !closed && this.log == log == origin && this.lease == lease && this.max == max
      ensures this.faults == faults && !leaseKept
      ensures this.passesPerDocument == passesPerDocument && this.cap == cap && documents == 0
      ensures attempted == {} && skipped == {} && stop == None && slStop == None && outcomes == []
    {
      this.log, this.lease, this.max, this.passesPerDocument, this.cap := log, lease, max, passesPerDocument, cap;
      origin := log;
      this.faults, active, documents, attempted, skipped := faults, true, 0, {}, {};
      outcomes, stop, slStop, closed, leaseKept := [], None, None, false, false;
    }

    function Live(): Option<nat>
      reads this
    {
      if active then Some(lease) else None
    }

    function Now(item: nat): State
      reads this
    {
      if item in log then StateAfter(log[item]) else NoState
    }

    /** One transaction of item events. The guard refuses it, or it commits, or the commit raises, kept or not. */
    method Commit(item: nat, more: seq<Event>) returns (ok: bool)
      requires Valid() && item in log && NoRequeue(more)
      modifies this`log, this`faults
      ensures Valid() && item in log && Others(old(log), log, item)
      ensures log[item] == old(log[item])
              || (log[item] == old(log[item]) + more && old(AcceptsAll(log[item], more, Live())))
      ensures ok ==> log[item] == old(log[item]) + more && old(AcceptsAll(log[item], more, Live()))
      ensures ok ==> !old(NextRaises(faults))
      ensures !ok ==> !old(AcceptsAll(log[item], more, Live())) || old(Faulty(faults))
      ensures !old(Faulty(faults)) ==> !Faulty(faults)
    {
      hide LedgerOk, AcceptsAll;
      ok := AcceptsAll(log[item], more, Live());
      if !ok {
        return;
      }
      var fault := if faults == [] then NoFault else faults[0];
      assert faults != [] ==> fault in faults;
      assert fault != NoFault ==> Faulty(faults);
      assert faults != [] ==> forall f :: f in faults[1..] ==> f in faults;
      faults := if faults == [] then [] else faults[1..];
      ok := fault == NoFault;
      if ok || fault.kept {
        LedgerStays(origin, log, lease, item, more, Live());
        log := log[item := log[item] + more];
      }
    }

    /** In flight under this slice's live lease, right after its claim. */
    ghost predicate Claimed(item: nat)
      reads this
    {
      && Valid() && active && item in log && log[item] != []
      && Last(log[item]).state == Requesting && Last(log[item]).lease == Some(lease)
    }

    /** How a pass or a request for the item ended: out of flight unless it is a DurabilityStop, whose attempt has no
        committed outcome, or an exception nothing handles. */
    ghost predicate Ended(item: nat, x: Exit)
      reads this
    {
      && Valid() && item in log
      && (x == Continue ==> Claimed(item))
      && (x.Done? ==>
            Now(item) == x.state && x.state in {Persisted, ConsumerFailed, RetryWait, RetrievalFailed, Failed})
      && (x.Stopped? && x.stop != DurabilityStop ==> !InFlight(Now(item)))
      && (x == Stopped(BlockedStop) ==> Now(item) == Blocked)
      && (x == Stopped(CleanupFailure) ==> Now(item) in {CleanupFailed, Failed})
      && (x == Stopped(DurabilityStop) ==> Claimed(item))
    }

    /** One transaction with the pass's retrieval record, leaving the item in the state its last event says; then the
        outcome, and the stop if there is one. */
    method Finish(item: nat, events: seq<Event>, how: Option<Stop>) returns (x: Exit)
      requires Claimed(item) && events != [] && AcceptsAll(log[item], events, Some(lease))
               && !InFlight(Last(events).state)
      requires how != Some(DurabilityStop) && NoRequeue(events)
      requires how.None? ==> Last(events).state in {Persisted, ConsumerFailed, RetryWait, RetrievalFailed, Failed}
      requires how == Some(BlockedStop) ==> Last(events).state == Blocked
      requires how == Some(CleanupFailure) ==> Last(events).state in {CleanupFailed, Failed}
      modifies this`log, this`faults, this`outcomes, this`stop
      ensures Ended(item, x) && Others(old(log), log, item) && x !in {Continue, Rejected}
      ensures x != Raised ==>
                log[item] == old(log[item]) + events && outcomes == old(outcomes) + [(item, Last(events).state)]
      ensures x != Raised ==> x == match how case None => Done(Last(events).state) case Some(s) => Stopped(s)
      ensures x == Raised ==> old(Faulty(faults))
      ensures !old(Faulty(faults)) ==> !Faulty(faults)
      ensures !x.Stopped? ==> stop == old(stop)
    {
      hide LedgerOk, AcceptsAll, Faulty, Others;
      var ok := Commit(item, events);
      if !ok {
        return Raised;
      }
      assert Last(log[item]) == Last(events);
      outcomes := outcomes + [(item, Last(events).state)];
      match how {
        case None => x := Done(Last(events).state);
        case Some(s) =>
          stop := how;
          x := Stopped(s);
      }
    }

    /** A local stop: a temporary document may remain on disk. */
    method StopLocally(item: nat, rec: L.Record, leftovers: nat, blocked: bool) returns (x: Exit)
      requires Claimed(item) && L.LawfulRecord(rec, true)
               && O.DispositionOf(rec, leftovers) in {O.CleanupStop, O.LeftoverStop}
      modifies this`log, this`faults, this`outcomes, this`stop
      ensures Ended(item, x) && Others(old(log), log, item)
      ensures x == Stopped(CleanupFailure) || (x == Raised && old(Faulty(faults)))
      ensures x != Raised ==>
                Now(item) == (if O.DispositionOf(rec, leftovers) == O.CleanupStop then CleanupFailed else Failed)
                && Last(log[item]).record == Some(rec)
      ensures x != Raised ==>
                log[item] == old(log[item])
                    + LocalStop(rec, lease, blocked, O.DispositionOf(rec, leftovers) == O.CleanupStop)
      ensures !old(Faulty(faults)) ==> !Faulty(faults)
      ensures x != Raised ==>
                Claims(log[item]) == Claims(old(log[item])) && outcomes == old(outcomes) + [(item, Now(item))]
      ensures !x.Stopped? ==> stop == old(stop)
    {
      hide L.LawfulRecord, LedgerOk, Claims;
      O.DispositionIsSound(rec, leftovers);
      var cleanup := O.DispositionOf(rec, leftovers) == O.CleanupStop;
      var final := Recorded(if cleanup then CleanupFailed else Failed, lease, Some(rec), blocked);
      var first := if O.ReachedConsumer(rec) then [Recorded(Processing, lease, Some(rec), false)]
                   else if !cleanup then [Recorded(RetryWait, lease, None, false)] else [];
      AcceptedFromRequesting(log[item], lease, if first == [] then final else first[0], final);
      RecordsKeepClaims(log[item], first + [final]);
      assert first == [] ==> first + [final] == [final];
      assert first != [] ==> first + [final] == [first[0], final];
      x := Finish(item, first + [final], Some(CleanupFailure));
    }

    /** F5's persistence and its event in one transaction; when it fails it is rolled back and recorded by itself. */
    method PersistOrRecord(item: nat, done: Event, undone: Event, fails: bool) returns (ok: bool, state: State)
      requires Valid() && item in log && AcceptsAll(log[item], [done], Live())
               && AcceptsAll(log[item], [undone], Live())
      requires done.state == Persisted && undone.state in {RetryWait, Failed} && done.action == Record
               && undone.action == Record
      modifies this`log, this`faults, this`outcomes
      ensures Valid() && Others(old(log), log, item) && item in log
      ensures ok ==>
                Now(item) == state && outcomes == old(outcomes) + [(item, state)]
                && Claims(log[item]) == Claims(old(log[item]))
      ensures ok ==> log[item] != [] && (if state == Persisted then Last(log[item]) == done && !fails
                                         else Last(log[item]) == undone && state == undone.state)
      ensures ok && state != Persisted ==> fails || old(Faulty(faults))
      ensures !ok ==> old(Faulty(faults))
      ensures !old(Faulty(faults)) ==> !Faulty(faults)
    {
      hide LedgerOk, Claims, AcceptsAll, Faulty, Others;
      ghost var before := log;
      RecordsKeepClaims(log[item], [done]);
      RecordsKeepClaims(log[item], [undone]);
      PersistedStays(log[item], done, undone, Live());
      OthersAfter(before, before, log, item);
      ok := false;
      if !fails {
        ok := Commit(item, [done]);
        state := Persisted;
      }
      if !ok {
        ghost var middle := log;
        ok := Commit(item, [undone]);
        state := undone.state;
        OthersAfter(before, middle, log, item);
      }
      if ok {
        outcomes := outcomes + [(item, state)];
      }
    }

    /** The pass's record and 'processing', after which the persistence and its failure are both acceptable. */
    method EnterProcessing(item: nat, rec: L.Record, leftovers: nat, undone: State) returns (ok: bool)
      requires Claimed(item) && L.LawfulRecord(rec, true) && O.DispositionOf(rec, leftovers) == O.Persist
      requires undone in {RetryWait, Failed}
      modifies this`log, this`faults
      ensures Valid() && Others(old(log), log, item) && item in log
      ensures ok ==> Claims(log[item]) == Claims(old(log[item]))
      ensures ok ==> AcceptsAll(log[item], [Recorded(Persisted, lease, Some(rec), false)], Live())
                     && AcceptsAll(log[item], [Recorded(undone, lease, Some(rec), false)], Live())
      ensures !ok ==> old(Faulty(faults))
      ensures Faulty(faults) ==> old(Faulty(faults))
    {
      hide L.LawfulRecord, LedgerOk, Claims, AcceptsAll, Faulty, O.DispositionOf, Others;
      var processing := Recorded(Processing, lease, Some(rec), false);
      PersistenceIsAccepted(log[item], lease, rec, leftovers, undone);
      RecordsKeepClaims(log[item], [processing]);
      ok := Commit(item, [processing]);
    }

    /** The document reached its consumer and its directory is gone. */
    method Persist(item: nat, p: Pass, claims: nat) returns (x: Exit)
      requires Claimed(item) && p.got.F2Returns? && L.LawfulRecord(p.got.rec, true) && p.f5Result
      requires O.DispositionOf(p.got.rec, p.got.leftovers) == O.Persist && SoftStop(p.stop)
      modifies this`log, this`faults, this`outcomes, this`stop
      ensures Ended(item, x) && Others(old(log), log, item) && x !in {Continue, Rejected, Stopped(CleanupFailure)}
      ensures x == Raised ==> old(Faulty(faults)) || p.attachRaises
      ensures x.Done? && x.state == Persisted ==> Last(log[item]).record == Some(p.got.rec) && !p.persistFails
      ensures x.Done? && x.state != Persisted ==>
                x.state == (if claims < max then RetryWait else Failed) && (p.persistFails || old(Faulty(faults)))
      ensures x.Stopped? ==> Now(item) == Persisted && p.stop == Some(x.stop) && !p.persistFails
      ensures x == Done(Persisted) ==> p.stop.None?
      ensures x != Raised ==> NamesItsPass(p, log[item])
      ensures !old(Faulty(faults)) ==> !Faulty(faults)
      ensures x != Raised ==>
                Claims(log[item]) == Claims(old(log[item])) && outcomes == old(outcomes) + [(item, Now(item))]
      ensures !x.Stopped? ==> stop == old(stop)
    {
      hide L.LawfulRecord, LedgerOk, Claims, AcceptsAll, Faulty, O.DispositionOf, Others;
      ghost var before := log;
      var done := Recorded(Persisted, lease, Some(p.got.rec), false);
      var undone := Recorded(if claims < max then RetryWait else Failed, lease, Some(p.got.rec), false);
      var ok := EnterProcessing(item, p.got.rec, p.got.leftovers, undone.state);
      x := Raised;
      if ok && !p.attachRaises {
        ghost var middle := log;
        var state;
        ok, state := PersistOrRecord(item, done, undone, p.persistFails);
        OthersAfter(before, middle, log, item);
        if ok {
          x := if state == Persisted && p.stop.Some? then Stopped(p.stop.value) else Done(state);
        }
      }
    }

    /** A retrieval failure: the item waits or has failed, or the next pass tries again. Only an open circuit, a
        refusal or the temporary root stop the slice. */
    method RecordFailure(item: nat, p: Pass, claims: nat, lastPass: bool) returns (x: Exit)
      requires Claimed(item) && p.got.F2Returns? && L.LawfulRecord(p.got.rec, true)
      requires O.DispositionOf(p.got.rec, p.got.leftovers) in {O.Terminal, O.Retryable, O.Local}
      requires SoftStop(p.stop)
      modifies this`log, this`faults, this`outcomes, this`stop
      ensures Ended(item, x) && Others(old(log), log, item) && x != Rejected && x != Stopped(CleanupFailure)
      ensures x == Raised ==> old(Faulty(faults))
      ensures x == Continue ==> !lastPass && Retried(p) && !old(NextRaises(faults))
      ensures x == Continue ==> log == old(log) && outcomes == old(outcomes)
      ensures x.Done? || x.Stopped? ==>
                Claims(log[item]) == Claims(old(log[item])) && outcomes == old(outcomes) + [(item, Now(item))]
      ensures x.Done? || x.Stopped? ==> Now(item) == FailureState(p, claims, max) && NamesItsPass(p, log[item])
      ensures x.Done? || x.Stopped? ==> !Retried(p) || lastPass
      ensures x.Done? || x.Stopped? ==>
                if O.DispositionOf(p.got.rec, p.got.leftovers) == O.Local && !p.refusedInside && p.stop != Some(Refused)
                then x == Stopped(Refused) else StopsAs(x, p.stop)
      ensures !old(Faulty(faults)) ==> !Faulty(faults)
      ensures !x.Stopped? ==> stop == old(stop)
    {
      hide L.LawfulRecord, LedgerOk, Claims, Others, Faulty, O.DispositionOf;
      var kind := O.DispositionOf(p.got.rec, p.got.leftovers);
      OthersAfter(log, log, log, item);
      if p.refusedInside || p.stop == Some(Refused) {
        x := RecordWaiting(item, None, p.stop);
        return;
      }
      if kind == O.Local {
        x := RecordWaiting(item, Some(p.got.rec), Some(Refused));
        return;
      }
      if kind == O.Terminal || p.stop == Some(CircuitOpen) || lastPass {
        x := RecordDecision(item, p, claims);
        return;
      }
      ghost var before := log;
      assert log[item] + [] == log[item];
      var ok := Commit(item, []);
      OthersSame(before, log, item);
      x := if ok then Continue else Raised;
    }

    /** The pass's own verdict, at the item's last pass of this claim or for good. */
    method RecordDecision(item: nat, p: Pass, claims: nat) returns (x: Exit)
      requires Claimed(item) && p.got.F2Returns? && L.LawfulRecord(p.got.rec, true)
      requires O.DispositionOf(p.got.rec, p.got.leftovers) in {O.Terminal, O.Retryable}
      requires SoftStop(p.stop)
      modifies this`log, this`faults, this`outcomes, this`stop
      ensures Ended(item, x) && Others(old(log), log, item) && x !in {Continue, Rejected, Stopped(CleanupFailure)}
      ensures x == Raised ==> old(Faulty(faults))
      ensures x != Raised ==>
                Claims(log[item]) == Claims(old(log[item])) && outcomes == old(outcomes) + [(item, Now(item))]
                              && Now(item) == FailureState(p, claims, max) && NamesItsPass(p, log[item])
      ensures x != Raised ==> StopsAs(x, p.stop)
      ensures !old(Faulty(faults)) ==> !Faulty(faults)
      ensures !x.Stopped? ==> stop == old(stop)
    {
      hide L.LawfulRecord, LedgerOk, Claims, Others, Faulty, AcceptsAll;
      var e := Recorded(FailureState(p, claims, max), lease, Some(p.got.rec), false);
      O.DispositionIsSound(p.got.rec, p.got.leftovers);
      AcceptedFromRequesting(log[item], lease, e, e);
      RecordsKeepClaims(log[item], [e]);
      x := Finish(item, [e], p.stop);
    }

    method RecordWaiting(item: nat, rec: Option<L.Record>, how: Option<Stop>) returns (x: Exit)
      requires Claimed(item) && SoftStop(how)
      modifies this`log, this`faults, this`outcomes, this`stop
      ensures Ended(item, x) && Others(old(log), log, item)
              && x !in {Continue, Rejected, Stopped(CleanupFailure), Done(Persisted)}
      ensures x == Raised ==> old(Faulty(faults))
      ensures x != Raised ==> StopsAs(x, how)
      ensures x != Raised ==> log[item] != [] && Last(log[item]).record == rec && !Last(log[item]).block
      ensures x != Raised ==> Claims(log[item]) == Claims(old(log[item])) && Now(item) == RetryWait
                              && outcomes == old(outcomes) + [(item, RetryWait)]
      ensures !old(Faulty(faults)) ==> !Faulty(faults)
      ensures !x.Stopped? ==> stop == old(stop)
    {
      hide LedgerOk, Claims, Others;
      var e := Recorded(RetryWait, lease, rec, false);
      AcceptedFromRequesting(log[item], lease, e, e);
      RecordsKeepClaims(log[item], [e]);
      x := Finish(item, [e], how);
    }

    /** What follows one F2 pass that returned. */
    method AfterPass(item: nat, p: Pass, claims: nat, lastPass: bool) returns (x: Exit)
      requires Claimed(item) && p.got.F2Returns? && LawfulPass(p)
      modifies this`log, this`faults, this`outcomes, this`stop
      ensures Ended(item, x) && Others(old(log), log, item) && x != Rejected
      ensures x == Raised ==> old(Faulty(faults)) || Unexpected(p)
      ensures x == Continue ==>
                !lastPass && Retried(p) && log == old(log) && outcomes == old(outcomes) && !old(NextRaises(faults))
      ensures x == Stopped(DurabilityStop) <==> p.stop == Some(DurabilityStop)
      ensures x == Stopped(CleanupFailure) ==>
                O.DispositionOf(p.got.rec, p.got.leftovers) in {O.CleanupStop, O.LeftoverStop}
      ensures x.Stopped? ==> p.stop.Some? || StopsItself(p)
      ensures x.Done? || (x.Stopped? && x.stop != DurabilityStop) ==>
                Explains(p, claims, max, lastPass, old(Faulty(faults)), Now(item), x) && NamesItsPass(p, log[item])
      ensures !old(Faulty(faults)) ==> !Faulty(faults)
      ensures x.Done? || (x.Stopped? && x.stop != DurabilityStop) ==>
                Claims(log[item]) == Claims(old(log[item])) && outcomes == old(outcomes) + [(item, Now(item))]
      ensures !x.Stopped? ==> stop == old(stop)
    {
      hide L.LawfulRecord, LedgerOk, Claims, Others, Faulty, O.DispositionOf;
      OthersAfter(log, log, log, item);
      if p.stop == Some(DurabilityStop) {
        return Stopped(DurabilityStop);
      }
      var kind := O.DispositionOf(p.got.rec, p.got.leftovers);
      if kind == O.Persist && !p.f5Result {
        return Raised;
      }
      if kind in {O.CleanupStop, O.LeftoverStop} {
        x := StopLocally(item, p.got.rec, p.got.leftovers, p.stop == Some(BlockedStop));
      } else if p.stop == Some(BlockedStop) {
        var e := Recorded(Blocked, lease, Some(p.got.rec), true);
        AcceptedFromRequesting(log[item], lease, e, e);
        RecordsKeepClaims(log[item], [e]);
        x := Finish(item, [e], p.stop);
      } else if kind == O.Persist {
        x := Persist(item, p, claims);
      } else if kind == O.Consumer {
        x := RecordConsumerFailure(item, p);
      } else {
        x := RecordFailure(item, p, claims, lastPass);
      }
    }

    method RecordConsumerFailure(item: nat, p: Pass) returns (x: Exit)
      requires Claimed(item) && p.got.F2Returns? && L.LawfulRecord(p.got.rec, true)
      requires O.DispositionOf(p.got.rec, p.got.leftovers) == O.Consumer
      requires SoftStop(p.stop)
      modifies this`log, this`faults, this`outcomes, this`stop
      ensures Ended(item, x) && Others(old(log), log, item)
              && x !in {Continue, Rejected, Stopped(CleanupFailure), Done(Persisted)}
      ensures x == Raised ==> old(Faulty(faults))
      ensures x != Raised ==> StopsAs(x, p.stop) && NamesItsPass(p, log[item])
      ensures x != Raised ==> Claims(log[item]) == Claims(old(log[item])) && Now(item) == ConsumerFailed
                              && outcomes == old(outcomes) + [(item, ConsumerFailed)]
      ensures !old(Faulty(faults)) ==> !Faulty(faults)
      ensures !x.Stopped? ==> stop == old(stop)
    {
      hide L.LawfulRecord, LedgerOk, Claims, Others;
      O.DispositionIsSound(p.got.rec, p.got.leftovers);
      var first := Recorded(Processing, lease, Some(p.got.rec), false);
      var second := Recorded(ConsumerFailed, lease, Some(p.got.rec), false);
      AcceptedFromRequesting(log[item], lease, first, second);
      RecordsKeepClaims(log[item], [first, second]);
      x := Finish(item, [first, second], p.stop);
    }

    /** Before the pass: the free space, and HB-2's leave to start it. A pass that may not start leaves the item
        waiting. */
    method StartPass(item: nat, k: nat, p: Pass) returns (x: Exit)
      requires Claimed(item) && k >= 1
      modifies this`log, this`faults, this`outcomes, this`stop, this`documents, this`slStop
      ensures Ended(item, x) && Others(old(log), log, item)
      ensures x in {Continue, Done(RetryWait), Stopped(Refused), Raised}
      ensures x == Continue <==> !NotStarted(p, k, passesPerDocument, old(documents) >= cap)
      ensures x == Continue ==> log == old(log) && outcomes == old(outcomes) && faults == old(faults)
                                && documents == old(documents) + 1 && slStop == old(slStop)
      ensures x != Continue ==> documents == old(documents)
      ensures x == Raised ==> old(Faulty(faults))
      ensures x in {Done(RetryWait), Stopped(Refused)} ==>
                (x.Stopped? <==> (k > 1 && p.noSpace) || p.refused || documents >= cap)
      ensures x.Done? ==> slStop == old(slStop)
      ensures slStop in {old(slStop), Some(Refused)}
      ensures x.Done? || x.Stopped? ==> Now(item) == RetryWait && Claims(log[item]) == Claims(old(log[item]))
                                        && outcomes == old(outcomes) + [(item, Now(item))]
      ensures !old(Faulty(faults)) ==> !Faulty(faults)
      ensures !x.Stopped? ==> stop == old(stop)
    {
      hide LedgerOk, Claims, Others, Faulty;
      OthersAfter(log, log, log, item);
      if k > 1 && p.noSpace {
        x := RecordWaiting(item, None, Some(Refused));
        return;
      }
      if p.refused || documents >= cap {
        slStop := Some(Refused);
        x := RecordWaiting(item, None, Some(Refused));
        return;
      }
      if k > passesPerDocument {
        x := RecordWaiting(item, None, None);
        return;
      }
      documents := documents + 1;
      x := Continue;
    }

    /** How many passes one claim may make; one pass that may not start counts too. */
    function PassBound(): nat
      reads this
    {
      if passesPerDocument == 0 then 1 else passesPerDocument
    }

    /** What bounds the passes of a claim. */
    function Bounds(): Limits
      reads this
    {
      Limits(max, passesPerDocument, cap, documents)
    }

    /** Pass n of a claim, with what it means for the whole claim. */
    method NextPass(item: nat, claims: nat, passes: nat -> Pass, n: nat, ghost limits: Limits) returns (x: Exit)
      requires Claimed(item) && slStop.None? && n >= 1 && LawfulPass(passes(n))
      requires limits == Bounds().(documents := limits.documents) && documents == limits.documents + n - 1
      modifies this`log, this`faults, this`outcomes, this`stop, this`documents, this`slStop
      ensures Ended(item, x) && Others(old(log), log, item) && x != Rejected
      ensures x == Continue ==> n < passesPerDocument && Retried(passes(n)) && log == old(log) && slStop.None?
                                && outcomes == old(outcomes) && documents == old(documents) + 1
      ensures x == Raised ==> old(Faulty(faults)) || SomePassIsUnexpected(passes, n)
      ensures x == Stopped(DurabilityStop) ==> SomePassIsNotDurable(passes, n)
      ensures x.Stopped? ==> documents >= cap || SomePassStops(passes, n)
      ensures x.Done? ==> slStop.None? || SomePassStops(passes, n)
      ensures x.Done? || (x.Stopped? && x.stop != DurabilityStop) ==>
                && Claims(log[item]) == Claims(old(log[item])) && outcomes == old(outcomes) + [(item, Now(item))]
                && LastPassExplains(passes, n, claims, limits, old(Faulty(faults)), Now(item), x)
      ensures old(documents) <= documents <= old(documents) + 1 && (!old(Faulty(faults)) ==> !Faulty(faults))
      ensures !x.Stopped? ==> stop == old(stop)
    {
      hide LedgerOk, Claims, Others, Faulty, Unexpected, LawfulPass, O.DispositionOf, Explains, NotStarted, Retried,
           SomePassIsUnexpected, SomePassIsNotDurable, SomePassStops;
      ghost var (before, faulty) := (log, Faulty(faults));
      var p := passes(n);
      x := StartPass(item, n, p);
      if x != Continue {
        WhyNotStarted(passes, n, limits, x, documents >= cap);
        return;
      }
      WhyStopped(passes, n);
      if p.got.F2Raises? {
        OthersAfter(before, before, before, item);
        return Raised;
      }
      x := AfterPass(item, p, claims, n >= passesPerDocument);
      slStop := p.stop;
      RetriedHasNoStop(p);
    }

    /** The pass loop of one claim: every pass before the last is one that may be tried again, and the last one explains
        where the item is left. */
    method Passes(item: nat, claims: nat, passes: nat -> Pass) returns (x: Exit, n: nat)
      requires Claimed(item) && slStop.None? && forall k: nat :: LawfulPass(passes(k))
      modifies this`log, this`faults, this`outcomes, this`stop, this`documents, this`slStop
      ensures Ended(item, x) && Others(old(log), log, item) && x !in {Continue, Rejected}
      ensures 1 <= n <= PassBound()
      ensures documents <= old(documents) + n && (forall k: nat :: 1 <= k < n ==> Retried(passes(k)))
      ensures x == Raised ==> old(Faulty(faults)) || SomePassIsUnexpected(passes, n)
      ensures x == Stopped(DurabilityStop) ==> SomePassIsNotDurable(passes, n)
      ensures x.Stopped? ==> documents >= cap || SomePassStops(passes, n)
      ensures x.Done? ==> slStop.None? || SomePassStops(passes, n)
      ensures x.Done? || (x.Stopped? && x.stop != DurabilityStop) ==>
                && Claims(log[item]) == Claims(old(log[item])) && outcomes == old(outcomes) + [(item, Now(item))]
                && LastPassExplains(passes, n, claims, old(Bounds()), old(Faulty(faults)), Now(item), x)
      ensures old(documents) <= documents && (!old(Faulty(faults)) ==> !Faulty(faults))
      ensures !x.Stopped? ==> stop == old(stop)
    {
      hide LedgerOk, Claims, Others, Faulty, LawfulPass, Retried, LastPassExplains, SomePassStops, SomePassIsUnexpected,
           SomePassIsNotDurable;
      n := 0;
      ghost var (before, limits, faulty) := (log, Bounds(), Faulty(faults));
      OthersAfter(before, before, before, item);
      while true
        invariant Claimed(item) && log == before && outcomes == old(outcomes) && documents == old(documents) + n
        invariant (Faulty(faults) ==> faulty) && (forall k: nat :: 1 <= k <= n ==> Retried(passes(k)))
        invariant (n == 0 || n < passesPerDocument) && slStop.None? && stop == old(stop)
        decreases passesPerDocument + 1 - n
      {
        n := n + 1;
        ghost var still := Faulty(faults);
        x := NextPass(item, claims, passes, n, limits);
        if x != Continue {
          ExplainsMore(passes, n, claims, limits, still, faulty, Now(item), x);
          return;
        }
      }
    }

    /** HB-2, the free space or the slice's own cap refuse the item before it is claimed. */
    predicate RefusedFirst(item: nat, noSpace: bool, claimRefused: bool)
      reads this
    {
      documents >= cap || noSpace || claimRefused || slStop.Some? || (item in log && Claims(log[item]) >= max)
    }

    method ClaimFor(item: nat) returns (ok: bool)
      requires Valid() && item in log && active
      modifies this`log, this`faults
      ensures Valid() && Others(old(log), log, item) && item in log
      ensures ok ==> Claimed(item) && Claims(log[item]) == old(Claims(log[item])) + 1
      ensures !ok ==> old(Faulty(faults)) || old(Now(item)) !in {Pending, RetryWait}
      ensures !old(Faulty(faults)) ==> !Faulty(faults)
    {
      hide LedgerOk, Claims, Others, Faulty;
      var e := Event(Requesting, Claim, Some(lease), None, false);
      assert [e][1..] == [];
      ClaimsAfter(log[item], e);
      ok := Commit(item, [e]);
    }

    /** From the claim to the end of its passes. */
    method ClaimAndRun(item: nat, passes: nat -> Pass) returns (x: Exit, n: nat)
      requires Valid() && item in log && active && slStop.None? && forall k: nat :: LawfulPass(passes(k))
      requires item !in attempted
      modifies this`log, this`faults, this`outcomes, this`stop, this`documents, this`slStop, this`attempted
      ensures Valid() && Others(old(log), log, item) && x !in {Continue, Rejected}
      ensures old(attempted) <= attempted <= old(attempted) + {item}
      ensures x != Raised ==> item in attempted && Ended(item, x)
      ensures x.Done? || (x.Stopped? && x.stop != DurabilityStop) ==>
                && Claims(log[item]) == old(Claims(log[item])) + 1 && outcomes == old(outcomes) + [(item, Now(item))]
                && LastPassExplains(passes, n, old(Claims(log[item])) + 1, old(Bounds()), old(Faulty(faults)),
                    Now(item), x)
      ensures x == Stopped(DurabilityStop) ==> SomePassIsNotDurable(passes, n)
      ensures x.Stopped? ==> documents >= cap || SomePassStops(passes, n)
      ensures x.Done? ==> slStop.None? || SomePassStops(passes, n)
      ensures x == Raised ==>
                old(Faulty(faults)) || SomePassIsUnexpected(passes, n) || old(Now(item)) !in {Pending, RetryWait}
      ensures n <= PassBound()
      ensures old(documents) <= documents <= old(documents) + n && (!old(Faulty(faults)) ==> !Faulty(faults))
      ensures item !in attempted - old(attempted) ==> n == 0
      ensures !x.Stopped? ==> stop == old(stop)
    {
      hide LedgerOk, Claims, Others, Faulty, LawfulPass, AcceptsAll, LastPassExplains, SomePassStops,
           SomePassIsNotDurable, SomePassIsUnexpected;
      ghost var before := log;
      var ok := ClaimFor(item);
      if !ok {
        return Raised, 0;
      }
      ghost var middle := log;
      attempted := attempted + {item};
      ghost var still := Faulty(faults);
      x, n := Passes(item, Claims(log[item]), passes);
      ExplainsMore(passes, n, Claims(middle[item]), old(Bounds()), still, old(Faulty(faults)), Now(item), x);
      OthersAfter(before, middle, log, item);
    }

    /** process_one: one eligible document item, claimed at most once per slice. It is claimed unless something
        refuses it first. Every normal return and every handled stop ends with the item out of flight; only a
        DurabilityStop, a missing F5 result or another unexpected exception leaves it in flight; the passes are
        bounded by the arming. */
    method ProcessOne(item: nat, eligible: bool, noSpace: bool, claimRefused: bool, passes: nat -> Pass)
      returns (x: Exit, n: nat)
      requires Valid() && item in log && active && forall k: nat :: LawfulPass(passes(k))
      modifies this`log, this`faults, this`outcomes, this`stop, this`documents, this`slStop, this`attempted,
               this`skipped
      ensures Valid() && Others(old(log), log, item) && x != Continue
      ensures x == Rejected <==> old(closed || item in attempted || (documents < cap && !eligible))
      ensures x == Rejected ==> log == old(log) && attempted == old(attempted) && slStop == old(slStop)
                                && (item in skipped || old(closed) || item in attempted)
      ensures old(attempted) <= attempted <= old(attempted) + {item} && old(skipped) <= skipped <= old(skipped) + {item}
      ensures item in skipped - old(skipped) ==> !eligible
      ensures x != Rejected && old(RefusedFirst(item, noSpace, claimRefused)) ==>
                x == Stopped(Refused) && log == old(log) && attempted == old(attempted)
      ensures x.Done? ==> !old(RefusedFirst(item, noSpace, claimRefused))
      ensures x != Rejected && x != Raised && !old(RefusedFirst(item, noSpace, claimRefused)) ==>
                item in attempted && Ended(item, x)
      ensures x.Done? || (x.Stopped? && x.stop != DurabilityStop && !old(RefusedFirst(item, noSpace, claimRefused))) ==>
                && Claims(log[item]) == old(Claims(log[item])) + 1 && outcomes == old(outcomes) + [(item, Now(item))]
                && LastPassExplains(passes, n, old(Claims(log[item])) + 1, old(Bounds()), old(Faulty(faults)),
                    Now(item), x)
      ensures x.Stopped? && !old(RefusedFirst(item, noSpace, claimRefused)) ==>
                documents >= cap || SomePassStops(passes, n)
      ensures x == Stopped(DurabilityStop) ==> SomePassIsNotDurable(passes, n)
      ensures x.Done? ==> slStop.None? || SomePassStops(passes, n)
      ensures x == Raised ==>
                old(Faulty(faults)) || SomePassIsUnexpected(passes, n) || old(Now(item)) !in {Pending, RetryWait}
      ensures n <= PassBound()
      ensures old(documents) <= documents <= old(documents) + n && (!old(Faulty(faults)) ==> !Faulty(faults))
      ensures item !in attempted - old(attempted) ==> n == 0
      ensures !x.Stopped? ==> stop == old(stop)
      ensures x == Stopped(Refused) && old(documents >= cap || (eligible && noSpace)) ==> stop == Some(Refused)
      ensures x == Rejected ==> outcomes == old(outcomes)
    {
      hide LedgerOk, Claims, Others, Faulty, LawfulPass, AcceptsAll, LastPassExplains, SomePassStops,
           SomePassIsNotDurable, SomePassIsUnexpected;
      n := 0;
      OthersAfter(log, log, log, item);
      if closed || item in attempted {
        return Rejected, 0;
      }
      if documents >= cap {
        stop := Some(Refused);
        return Stopped(Refused), 0;
      }
      if !eligible {
        skipped := skipped + {item};
        return Rejected, 0;
      }
      if noSpace {
        stop := Some(Refused);
        return Stopped(Refused), 0;
      }
      if claimRefused || slStop.Some? || Claims(log[item]) >= max {
        return Stopped(Refused), 0;
      }
      x, n := ClaimAndRun(item, passes);
    }

    // -------------------------------------------------------------- the run of a slice

    /** candidates and next_item: the first waiting item this slice has neither tried nor skipped, whose path version is
        current; one at the armed maximum is skipped. */
    method NextItem(rows: seq<nat>, current: set<nat>) returns (next: Option<nat>)
      modifies this`skipped
      ensures old(skipped) <= skipped
      ensures forall i :: i in skipped && i !in old(skipped) ==> i in rows && i in log && Claims(log[i]) >= max
      ensures next.Some? ==>
                && next.value in rows && next.value in current && next.value !in attempted && next.value !in skipped
                && next.value in log && Now(next.value) in {Pending, RetryWait} && Claims(log[next.value]) < max
      ensures next.None? ==>
                forall i :: i in rows && i in current && Now(i) in {Pending, RetryWait} ==>
                  i in attempted || i in skipped
    {
      for k := 0 to |rows|
        invariant old(skipped) <= skipped
        invariant forall i :: i in skipped && i !in old(skipped) ==> i in rows && i in log && Claims(log[i]) >= max
        invariant forall i :: i in rows[..k] && i in current && Now(i) in {Pending, RetryWait} ==>
                    i in attempted || i in skipped
      {
        var i := rows[k];
        assert rows[..k + 1] == rows[..k] + [i];
        if Now(i) in {Pending, RetryWait} && i !in attempted && i !in skipped && i in current {
          if Claims(log[i]) < max {
            return Some(i);
          }
          skipped := skipped + {i};
        }
      }
      next := None;
    }

    /** One turn of the loop. */
    method Turn(i: nat, env: Surroundings, ghost before: map<nat, seq<Event>>, ghost tried: set<nat>) returns (x: Exit)
      requires Valid() && active && !closed && i in log && i !in attempted
               && EachTriedOnce(before, tried, log, attempted)
      requires Now(i) in {Pending, RetryWait} && Claims(log[i]) < max && forall k: nat :: LawfulPass(env.passes(i, k))
      modifies this`log, this`faults, this`outcomes, this`stop, this`documents, this`slStop, this`attempted,
               this`skipped
      ensures Valid() && Others(old(log), log, i) && x != Continue
      ensures old(attempted) <= attempted <= old(attempted) + {i} && old(skipped) <= skipped <= old(skipped) + {i}
      ensures x.Done? ==> i in attempted && |outcomes| == |old(outcomes)| + 1
      ensures x == Rejected ==> outcomes == old(outcomes)
      ensures x == Rejected ==> i in skipped && log == old(log) && slStop == old(slStop)
      ensures i in skipped - old(skipped) ==> !env.eligible(i)
      ensures x != Raised && x != Stopped(DurabilityStop) ==> EachTriedOnce(before, tried, log, attempted)
      ensures x == Raised ==> old(Faulty(faults)) || !Clear(env, i)
      ensures x.Stopped? ==> documents >= cap || old(slStop).Some? || !Clear(env, i)
      ensures x.Done? ==> old(slStop).None? && (Clear(env, i) ==> slStop.None?)
      ensures documents <= old(documents) + (if i in attempted then PassBound() else 0)
      ensures !old(Faulty(faults)) ==> !Faulty(faults)
      ensures !x.Stopped? ==> stop == old(stop)
    {
      hide LedgerOk, Claims, LawfulPass, Faulty, EachTriedOnce, SomePassIsUnexpected, SomePassIsNotDurable,
           SomePassStops, Others, LastPassExplains, Clear;
      ghost var (middle, done, wasStopped) := (log, attempted, slStop);
      var n;
      x, n := ProcessOne(i, env.eligible(i), env.noSpace(i), env.claimRefused(i), (k: nat) => env.passes(i, k));
      ClearGoesOn(env, i, (k: nat) => env.passes(i, k), n);
      if x != Raised && x != Stopped(DurabilityStop) {
        TriedOneMore(before, tried, middle, done, log, attempted, i);
      }
    }

    function Moved(): Progress
      reads this
    {
      Progress(log, attempted, skipped, documents)
    }

    /** The next item and its turn, if there is one. */
    method NextTurn(rows: seq<nat>, current: set<nat>, env: Surroundings, ghost start: Progress)
      returns (x: Option<Exit>)
      requires Valid() && active && !closed && (forall i :: i in rows ==> i in log)
      requires forall i: nat, k: nat :: LawfulPass(env.passes(i, k))
      requires Advanced(start, Moved(), Among(rows), max, env, PassBound())
      requires EachTriedOnce(start.log, start.attempted, log, attempted)
      modifies this`log, this`faults, this`outcomes, this`stop, this`documents, this`slStop, this`attempted,
               this`skipped
      ensures Valid() && log.Keys == old(log.Keys) && Advanced(start, Moved(), Among(rows), max, env, PassBound())
      ensures x != Some(Raised) && x != Some(Stopped(DurabilityStop)) ==>
                EachTriedOnce(start.log, start.attempted, log, attempted)
      ensures x.None? ==>
                forall i :: i in rows && i in current && Now(i) in {Pending, RetryWait} ==>
                      i in attempted || i in skipped
      ensures x.Some? ==> x.value.Done? || x.value.Stopped? || x.value in {Rejected, Raised}
      ensures x.Some? && (x.value.Done? || x.value == Rejected) ==>
                Among(rows) - attempted - skipped < old(Among(rows) - attempted - skipped)
      ensures x == Some(Raised) ==> old(Faulty(faults)) || Unclear(rows, env)
      ensures x.Some? && x.value.Stopped? ==> documents >= cap || old(slStop).Some? || Unclear(rows, env)
      ensures x.None? || x.value.Done? || x.value == Rejected ==> slStop == old(slStop) || Unclear(rows, env)
      ensures !old(Faulty(faults)) ==> !Faulty(faults)
      ensures x.None? || !x.value.Stopped? ==> stop == old(stop)
      ensures x.Some? && x.value.Done? ==> |outcomes| == |old(outcomes)| + 1
      ensures x.Some? && x.value == Rejected ==> outcomes == old(outcomes)
    {
      hide LedgerOk, Claims, LawfulPass, Faulty, EachTriedOnce, Others, SomePassIsUnexpected, SomePassIsNotDurable,
           Clear, Advanced;
      ghost var (over, all) := (Moved(), Among(rows));
      var item := NextItem(rows, current);
      SkipsAdvance(start, over, Moved(), all, max, env, PassBound());
      if item.None? {
        return None;
      }
      var i := item.value;
      assert i in all - attempted - skipped;
      ghost var middle := Moved();
      var end := Turn(i, env, start.log, start.attempted);
      OthersKeys(middle.log, log, i);
      TurnAdvances(start, middle, Moved(), i, all, max, env, PassBound());
      assert i !in all - attempted - skipped || end.Stopped? || end == Raised;
      x := Some(end);
    }

    /** run: claims eligible items one by one until none is left, a bound is hit, a stop ends the slice, or an
        exception leaves it; it terminates because every turn tries or skips another item. Where nothing raises and
        nothing refuses or stops a document, only the slice's own cap ends it early. */
    method RunSlice(maxItems: Option<nat>, rows: seq<nat>, current: set<nat>, env: Surroundings)
      returns (raised: bool, bounded: bool, stopped: Option<Stop>)
      requires Valid() && active && !closed && (forall i :: i in rows ==> i in log)
      requires forall i: nat, k: nat :: LawfulPass(env.passes(i, k))
      modifies this`log, this`faults, this`outcomes, this`stop, this`documents, this`slStop, this`attempted,
               this`skipped
      ensures Valid() && Advanced(old(Moved()), Moved(), Among(rows), max, env, PassBound())
      ensures !raised && stopped != Some(DurabilityStop) ==> EachTriedOnce(old(log), old(attempted), log, attempted)
      ensures stopped.Some? ==> stop == stopped
      ensures !raised && !bounded && stopped == None ==>
                forall i :: i in rows && i in current && Now(i) in {Pending, RetryWait} ==>
                      i in attempted || i in skipped
      ensures bounded ==> maxItems.Some? && |outcomes| == |old(outcomes)| + maxItems.value
      ensures raised ==> old(Faulty(faults)) || Unclear(rows, env)
      ensures stopped.Some? ==> documents >= cap || old(slStop).Some? || Unclear(rows, env)
      ensures !old(Faulty(faults)) ==> !Faulty(faults)
      ensures stopped.None? ==> stop == old(stop)
    {
      hide LedgerOk, Claims, LawfulPass, Faulty, EachTriedOnce, Unclear, Advanced, Among;
      raised, bounded, stopped := false, false, None;
      ghost var (start, faulty, wasStopped) := (Moved(), Faulty(faults), slStop);
      var n := 0;
      NoneTried(log, attempted);
      NoAdvance(start, Among(rows), max, env, PassBound());
      while true
        invariant |outcomes| == |old(outcomes)| + n && (maxItems.Some? ==> n <= maxItems.value)
        invariant Valid() && !raised && !bounded && stopped.None? && (Faulty(faults) ==> faulty)
        invariant log.Keys == start.log.Keys && EachTriedOnce(start.log, start.attempted, log, attempted)
        invariant Advanced(start, Moved(), Among(rows), max, env, PassBound())
        invariant (slStop == wasStopped || Unclear(rows, env)) && stop == old(stop)
        decreases Among(rows) - attempted - skipped
      {
        if maxItems.Some? && n >= maxItems.value {
          bounded := true;
          return;
        }
        var x := NextTurn(rows, current, env, start);
        if x.None? {
          return;
        }
        match x.value {
          case Done(_) => n := n + 1;
          case Rejected =>
          case Stopped(s) =>
            stop, stopped := Some(s), Some(s);
            return;
          case Raised =>
            raised := true;
            return;
        }
      }
    }

    // -------------------------------------------------------------- reconciliation and closing

    /** terminalise (G10): one transaction, no request. Evidence wins; otherwise the item fails, from 'pending'
        through a terminal claim under the live lease. None when it does not wait at the armed maximum or has an open
        attempt. */
    method Terminalise(item: nat, persisted: bool, openAttempts: bool) returns (ok: bool, final: Option<State>)
      requires Valid() && item in log && active
      modifies this`log, this`faults
      ensures Valid() && Others(old(log), log, item) && item in log
      ensures ok ==> (final.None? <==> openAttempts || !old(WaitsAtMaximum(log, item, max)))
      ensures (ok && final.None?) || old(Now(item)) !in {Pending, RetryWait} ==> log == old(log)
      ensures ok ==> FinalisedAs(old(log), log, item, max, persisted, openAttempts)
      ensures ok && final.Some? ==> final.value == (if persisted then Persisted else Failed) && Now(item) == final.value
      ensures !ok ==> old(Faulty(faults))
      ensures !old(Faulty(faults)) ==> !Faulty(faults)
    {
      hide LedgerOk, Claims, Others, Faulty;
      OthersAfter(log, log, log, item);
      if Now(item) !in {Pending, RetryWait} || Claims(log[item]) < max || openAttempts {
        return true, None;
      }
      var failed := Event(Failed, Record, None, None, false);
      var events :=
        if persisted then [Event(Persisted, ItemStates.Promote, None, None, false)]
        else if Now(item) == Pending
        then [Event(Requesting, Claim, Some(lease), None, false), Recorded(RetryWait, lease, None, false), failed]
        else [failed];
      TerminalAccepted(log[item], lease, persisted);
      ok := Commit(item, events);
      final := Some(if persisted then Persisted else Failed);
    }

    /** An abandoned item, from evidence: to 'persisted' by an F5 run of the document, else back to 'pending'. */
    method Promote(item: nat, persisted: bool) returns (ok: bool)
      requires Valid() && item in log && Now(item) == Abandoned
      modifies this`log, this`faults
      ensures Valid() && Others(old(log), log, item) && item in log
      ensures ok ==>
                Now(item) == (if persisted then Persisted else Pending) && Claims(log[item]) == old(Claims(log[item]))
      ensures !ok ==> old(Faulty(faults))
      ensures !old(Faulty(faults)) ==> !Faulty(faults)
    {
      hide LedgerOk, Claims, Faulty, Others;
      var e := Event(if persisted then Persisted else Pending, ItemStates.Promote, None, None, false);
      assert [e][1..] == [];
      ClaimsAfter(log[item], e);
      ok := Commit(item, [e]);
    }

    /** reconcile: abandoned items from evidence, then G10. Every item ends as the evidence, its claims and its attempts
        say, or is not touched; so no item stays abandoned, and none waits at the armed maximum unless it has an open
        attempt. */
    method Reconcile(rows: seq<nat>, persisted: nat -> bool, openAttempts: set<nat>) returns (ok: bool)
      requires Valid() && active && forall i :: i in rows <==> i in log
      modifies this`log, this`faults
      ensures Valid() && log.Keys == old(log.Keys)
      ensures ok ==> forall i :: i in log ==>
                EndsReconciled(old(log), log, i, max, persisted(i), i in openAttempts)
      ensures ok ==> forall i :: i in log ==> Now(i) != Abandoned && (WaitsAtMaximum(log, i, max) ==> i in openAttempts)
      ensures OnlyStates(old(log), log, {Abandoned, Pending, RetryWait}) && (ok ==> NoNewFlight(old(log), log))
      ensures !ok ==> old(Faulty(faults))
      ensures !old(Faulty(faults)) ==> !Faulty(faults)
    {
      hide LedgerOk, Claims, Faulty, Others, OnlyStates, NoNewFlight, PromotedAs, FinalisedAs, EndsReconciled;
      ghost var before := log;
      ok := PromoteAll(rows, persisted);
      if ok {
        ghost var promoted := log;
        ok := TerminaliseAll(rows, persisted, openAttempts);
        StatesChain(before, promoted, log, {Abandoned, Pending, RetryWait}, {Pending, RetryWait});
        FlightChain(before, promoted, log);
        if ok {
          BothPhases(before, promoted, log, max, persisted, openAttempts);
        }
      }
    }

    /** Every abandoned item, and no other. */
    method PromoteAll(rows: seq<nat>, persisted: nat -> bool) returns (ok: bool)
      requires Valid() && active && forall i :: i in rows <==> i in log
      modifies this`log, this`faults
      ensures Valid() && log.Keys == old(log.Keys)
      ensures ok ==> forall i :: i in log ==> Now(i) != Abandoned && PromotedAs(old(log), log, i, persisted(i))
      ensures OnlyStates(old(log), log, {Abandoned, Pending, RetryWait}) && (ok ==> NoNewFlight(old(log), log))
      ensures !ok ==> old(Faulty(faults))
      ensures !old(Faulty(faults)) ==> !Faulty(faults)
    {
      hide LedgerOk, Claims, Faulty, Others, OnlyStates, NoNewFlight, PromotedAs;
      ok := true;
      ghost var before := log;
      NoneOfStates(log, {Abandoned, Pending, RetryWait});
      NoFlightYet(log);
      for k := 0 to |rows|
        invariant Valid() && log.Keys == before.Keys && (Faulty(faults) ==> old(Faulty(faults)))
        invariant forall i :: i in rows[..k] ==> Now(i) != Abandoned && PromotedAs(before, log, i, persisted(i))
        invariant forall i :: i in log && i !in rows[..k] ==> log[i] == before[i]
        invariant OnlyStates(before, log, {Abandoned, Pending, RetryWait}) && NoNewFlight(before, log)
      {
        assert rows[..k + 1] == rows[..k] + [rows[k]];
        ghost var middle := log;
        if Now(rows[k]) == Abandoned {
          ok := Promote(rows[k], persisted(rows[k]));
          OthersKeys(middle, log, rows[k]);
          OneMoreOfStates(before, middle, log, rows[k], {Abandoned, Pending, RetryWait});
          if !ok {
            return;
          }
          OthersStates(middle, log, rows[k]);
          OneMoreNotInFlight(before, middle, log, rows[k]);
        }
        OneMorePromoted(before, middle, log, rows, k, persisted);
      }
      assert rows[..|rows|] == rows;
    }

    /** G10 for every item that waits at the armed maximum without an open attempt, and for no other. */
    method TerminaliseAll(rows: seq<nat>, persisted: nat -> bool, openAttempts: set<nat>) returns (ok: bool)
      requires Valid() && active && (forall i :: i in rows <==> i in log)
               && forall i :: i in log ==> Now(i) != Abandoned
      modifies this`log, this`faults
      ensures Valid() && log.Keys == old(log.Keys)
      ensures ok ==> forall i :: i in log ==> Now(i) != Abandoned && (WaitsAtMaximum(log, i, max) ==> i in openAttempts)
      ensures ok ==> forall i :: i in log ==> FinalisedAs(old(log), log, i, max, persisted(i), i in openAttempts)
      ensures OnlyStates(old(log), log, {Pending, RetryWait}) && (ok ==> NoNewFlight(old(log), log))
      ensures !ok ==> old(Faulty(faults))
      ensures !old(Faulty(faults)) ==> !Faulty(faults)
    {
      hide LedgerOk, Claims, Faulty, Others, OnlyStates, NoNewFlight, FinalisedAs, WaitsAtMaximum, FinalisedSoFar;
      ok := true;
      ghost var before := log;
      NoneFinalised(log, rows, max, persisted, openAttempts);
      for k := 0 to |rows|
        invariant Valid() && log.Keys == before.Keys && (Faulty(faults) ==> old(Faulty(faults)))
        invariant FinalisedSoFar(before, log, rows[..k], max, persisted, openAttempts)
      {
        ghost var middle := log;
        var final;
        ok, final := Terminalise(rows[k], persisted(rows[k]), rows[k] in openAttempts);
        if !ok {
          LastOfStates(before, middle, log, rows, k, max, persisted, openAttempts);
          return;
        }
        OneMoreFinalised(before, middle, log, rows, k, max, persisted, openAttempts);
      }
      AllFinalised(before, log, rows, max, persisted, openAttempts);
    }

    /** in_flight_items: whether an item claimed under the lease is in flight. */
    method Busy() returns (busy: bool)
      ensures busy <==> exists i :: i in log && InFlightUnder(log[i], lease)
    {
      hide InFlightUnder;
      var items := set i | i in log && InFlightUnder(log[i], lease);
      assert items != {} ==> exists i :: i in items;
      assert forall i :: i in log && InFlightUnder(log[i], lease) ==> i in items;
      busy := items != {};
    }

    /** close (G2): the lease is released only when no item claimed under it is in flight; the release may raise, kept
        or not. */
    method Close(unexpected: bool, unreadable: bool, openAttempts: bool) returns (raised: bool)
      requires Valid()
      modifies this`active, this`closed, this`leaseKept, this`faults
      ensures Valid() && closed
      ensures !old(closed) && !raised ==>
                (leaseKept <==> unexpected || unreadable || openAttempts || stop == Some(DurabilityStop)
                                || exists i :: i in log && InFlightUnder(log[i], lease))
      ensures !old(closed) && !raised ==> active == (old(active) && leaseKept)
      ensures raised ==> old(Faulty(faults)) && !leaseKept && forall i :: i in log ==> !InFlightUnder(log[i], lease)
      ensures active ==> old(active)
      ensures old(closed) ==> !raised && active == old(active) && leaseKept == old(leaseKept)
    {
      hide LedgerOk, InFlightUnder;
      raised := false;
      if closed {
        return;
      }
      closed := true;
      var busy := Busy();
      leaseKept := unexpected || unreadable || busy || openAttempts || stop == Some(DurabilityStop);
      if !leaseKept {
        var fault := if faults == [] then NoFault else faults[0];
        assert faults != [] ==> fault in faults;
        faults := if faults == [] then [] else faults[1..];
        raised := fault != NoFault;
        active := active && raised && !fault.kept;
      }
    }
  }

  /** What becomes of a document in the reconciliation. Abandoned, it is persisted if an F5 run of it is, and otherwise
      pending, or failed at the maximum without an open attempt; waiting at the maximum without an open attempt it is
      persisted if an F5 run of it is, and otherwise failed; any other item keeps its log. */
  ghost predicate EndsReconciled(before: map<nat, seq<Event>>, after: map<nat, seq<Event>>, i: nat, max: nat,
                                 persisted: bool, open: bool) {
    i in before && i in after &&
    var (was, ends, due) := (StateAfter(before[i]), StateAfter(after[i]), Claims(before[i]) >= max && !open);
    if was == Abandoned then ends == (if persisted then Persisted else if due then Failed else Pending)
    else if was in {Pending, RetryWait} && due then ends == if persisted then Persisted else Failed
    else after[i] == before[i]
  }

  /** The first phase. */
  ghost predicate PromotedAs(before: map<nat, seq<Event>>, after: map<nat, seq<Event>>, i: nat, persisted: bool) {
    i in before && i in after &&
    if StateAfter(before[i]) == Abandoned then
      StateAfter(after[i]) == (if persisted then Persisted else Pending) && Claims(after[i]) == Claims(before[i])
    else after[i] == before[i]
  }

  /** The second phase. */
  ghost predicate FinalisedAs(before: map<nat, seq<Event>>, after: map<nat, seq<Event>>, i: nat, max: nat,
                              persisted: bool, open: bool) {
    i in before && i in after &&
    if WaitsAtMaximum(before, i, max) && !open then StateAfter(after[i]) == if persisted then Persisted else Failed
    else after[i] == before[i]
  }

  lemma {:induction false} OneMorePromoted(before: map<nat, seq<Event>>, middle: map<nat, seq<Event>>,
                                           after: map<nat, seq<Event>>, rows: seq<nat>, k: nat, persisted: nat -> bool)
    requires k < |rows| && rows[k] in middle && before.Keys == middle.Keys == after.Keys
    requires forall i :: i in rows[..k] ==>
               PromotedAs(before, middle, i, persisted(i)) && StateAfter(middle[i]) != Abandoned
    requires forall i :: i in middle && i !in rows[..k] ==> middle[i] == before[i]
    requires forall i :: i in middle && i != rows[k] ==> after[i] == middle[i]
    requires if StateAfter(middle[rows[k]]) == Abandoned
             then StateAfter(after[rows[k]]) == (if persisted(rows[k]) then Persisted else Pending)
                  && Claims(after[rows[k]]) == Claims(middle[rows[k]])
             else after == middle
    ensures forall i :: i in rows[..k + 1] ==>
              PromotedAs(before, after, i, persisted(i)) && StateAfter(after[i]) != Abandoned
    ensures forall i :: i in after && i !in rows[..k + 1] ==> after[i] == before[i]
  {
    hide Claims;
    assert rows[..k + 1] == rows[..k] + [rows[k]];
    forall i | i in rows[..k + 1] ensures PromotedAs(before, after, i, persisted(i)) {
      assert i in rows[..k] ==> PromotedAs(before, middle, i, persisted(i));
    }
  }

  /** These rows are through the second phase, and the other items are as they were. */
  ghost predicate FinalisedSoFar(before: map<nat, seq<Event>>, log: map<nat, seq<Event>>, rows: seq<nat>, max: nat,
                                 persisted: nat -> bool, openAttempts: set<nat>) {
    && before.Keys == log.Keys && (forall i :: i in before ==> StateAfter(before[i]) != Abandoned)
    && (forall i :: i in rows ==> FinalisedAs(before, log, i, max, persisted(i), i in openAttempts))
    && (forall i :: i in log && i !in rows ==> log[i] == before[i])
  }

  lemma {:induction false} NoneFinalised(log: map<nat, seq<Event>>, rows: seq<nat>, max: nat, persisted: nat -> bool,
                                         openAttempts: set<nat>)
    requires forall i :: i in log ==> StateAfter(log[i]) != Abandoned
    ensures FinalisedSoFar(log, log, rows[..0], max, persisted, openAttempts)
  {
  }

  lemma {:induction false} OneMoreFinalised(before: map<nat, seq<Event>>, middle: map<nat, seq<Event>>,
                                            after: map<nat, seq<Event>>, rows: seq<nat>, k: nat, max: nat,
                                            persisted: nat -> bool, openAttempts: set<nat>)
    requires k < |rows| && rows[k] in middle && Others(middle, after, rows[k])
    requires FinalisedSoFar(before, middle, rows[..k], max, persisted, openAttempts)
    requires FinalisedAs(middle, after, rows[k], max, persisted(rows[k]), rows[k] in openAttempts)
    ensures FinalisedSoFar(before, after, rows[..k + 1], max, persisted, openAttempts) && after.Keys == before.Keys
  {
    hide Claims;
    assert rows[..k + 1] == rows[..k] + [rows[k]];
    forall i | i in rows[..k + 1] ensures FinalisedAs(before, after, i, max, persisted(i), i in openAttempts) {
      assert i in rows[..k] ==> FinalisedAs(before, middle, i, max, persisted(i), i in openAttempts);
    }
  }

  /** A commit that raised may have been kept; it has touched no item but a waiting one. */
  lemma {:induction false} LastOfStates(before: map<nat, seq<Event>>, middle: map<nat, seq<Event>>,
                                        after: map<nat, seq<Event>>, rows: seq<nat>, k: nat, max: nat,
                                        persisted: nat -> bool, openAttempts: set<nat>)
    requires k < |rows| && rows[k] in middle && Others(middle, after, rows[k])
    requires FinalisedSoFar(before, middle, rows[..k], max, persisted, openAttempts)
    requires StateAfter(middle[rows[k]]) !in {Pending, RetryWait} ==> after == middle
    ensures OnlyStates(before, after, {Pending, RetryWait}) && after.Keys == before.Keys
  {
    hide Claims;
    forall i | i in before && StateAfter(before[i]) !in {Pending, RetryWait} ensures after[i] == before[i] {
      assert i in rows[..k] ==> FinalisedAs(before, middle, i, max, persisted(i), i in openAttempts);
    }
  }

  lemma {:induction false} AllFinalised(before: map<nat, seq<Event>>, log: map<nat, seq<Event>>, rows: seq<nat>,
                                        max: nat, persisted: nat -> bool, openAttempts: set<nat>)
    requires FinalisedSoFar(before, log, rows[..|rows|], max, persisted, openAttempts)
    requires forall i :: i in log ==> i in rows
    ensures forall i :: i in log ==>
              && FinalisedAs(before, log, i, max, persisted(i), i in openAttempts)
              && StateAfter(log[i]) != Abandoned && (WaitsAtMaximum(log, i, max) ==> i in openAttempts)
    ensures OnlyStates(before, log, {Pending, RetryWait}) && NoNewFlight(before, log)
  {
    hide Claims;
    assert rows[..|rows|] == rows;
    forall i | i in log ensures FinalisedAs(before, log, i, max, persisted(i), i in openAttempts) {
    }
  }

  /** The two phases together. */
  lemma {:induction false} BothPhases(before: map<nat, seq<Event>>, middle: map<nat, seq<Event>>,
                                      after: map<nat, seq<Event>>, max: nat, persisted: nat -> bool,
                                      openAttempts: set<nat>)
    requires forall i :: i in middle ==> PromotedAs(before, middle, i, persisted(i))
    requires middle.Keys == after.Keys
    requires forall i :: i in after ==> FinalisedAs(middle, after, i, max, persisted(i), i in openAttempts)
    ensures forall i :: i in after ==> EndsReconciled(before, after, i, max, persisted(i), i in openAttempts)
  {
    hide Claims;
    forall i | i in after ensures EndsReconciled(before, after, i, max, persisted(i), i in openAttempts) {
      assert PromotedAs(before, middle, i, persisted(i));
      assert FinalisedAs(middle, after, i, max, persisted(i), i in openAttempts);
    }
  }

  /** Something refuses, stops or breaks one of these documents. */
  ghost predicate Unclear(rows: seq<nat>, env: Surroundings) {
    exists i :: i in rows && !Clear(env, i)
  }

  function Among(rows: seq<nat>): set<nat> {
    set i | i in rows
  }

  /** What the run of a slice changes. */
  datatype Progress = Progress(log: map<nat, seq<Event>>, attempted: set<nat>, skipped: set<nat>, documents: nat)

  /** Only waiting items of these rows have moved; what was skipped is at the armed maximum or not eligible; and each
      item tried made no more passes than one claim may. */
  ghost predicate Advanced(a: Progress, b: Progress, all: set<nat>, max: nat, env: Surroundings, bound: nat) {
    && OnlyStates(a.log, b.log, {Pending, RetryWait})
    && SkippedForCause(a.skipped, b.skipped, b.log, max, env)
    && a.attempted <= b.attempted <= a.attempted + all
    && b.documents <= a.documents + PassesOf(b.attempted - a.attempted, bound)
  }

  lemma {:induction false} NoAdvance(a: Progress, all: set<nat>, max: nat, env: Surroundings, bound: nat)
    ensures Advanced(a, a, all, max, env, bound)
  {
    hide Claims;
    assert a.attempted - a.attempted == {};
  }

  lemma {:induction false} SkipsAdvance(start: Progress, a: Progress, b: Progress, all: set<nat>, max: nat,
                                        env: Surroundings, bound: nat)
    requires Advanced(start, a, all, max, env, bound) && b == a.(skipped := b.skipped)
    requires forall i :: i in b.skipped && i !in a.skipped ==> i in b.log && Claims(b.log[i]) >= max
    ensures Advanced(start, b, all, max, env, bound)
  {
    hide Claims, PassesOf;
  }

  lemma {:induction false} TurnAdvances(start: Progress, a: Progress, b: Progress, i: nat, all: set<nat>, max: nat,
                                        env: Surroundings, bound: nat)
    requires Advanced(start, a, all, max, env, bound) && i in all && i in a.log && i !in a.attempted && i !in a.skipped
    requires StateAfter(a.log[i]) in {Pending, RetryWait} && Others(a.log, b.log, i)
    requires a.attempted <= b.attempted <= a.attempted + {i} && a.skipped <= b.skipped <= a.skipped + {i}
    requires i in b.skipped ==> !env.eligible(i)
    requires b.documents <= a.documents + if i in b.attempted then bound else 0
    ensures Advanced(start, b, all, max, env, bound)
  {
    hide Claims, PassesOf;
    OneMoreOfStates(start.log, a.log, b.log, i, {Pending, RetryWait});
    if i !in start.attempted {
      CountedOnce(a.attempted - start.attempted, b.attempted - start.attempted, i, bound);
    }
  }

  /** Skipped in this slice: at the armed maximum, or not eligible. */
  ghost predicate SkippedForCause(before: set<nat>, skipped: set<nat>, log: map<nat, seq<Event>>, max: nat,
                                  env: Surroundings) {
    forall i :: i in skipped && i !in before ==> !env.eligible(i) || (i in log && Claims(log[i]) >= max)
  }

  /** Some commit raises. */
  ghost predicate Faulty(faults: seq<Fault>) {
    exists f :: f in faults && f != NoFault
  }

  /** The next commit raises. */
  predicate NextRaises(faults: seq<Fault>) {
    faults != [] && faults[0] != NoFault
  }

  /** Only items that were in one of these states have changed. */
  ghost predicate OnlyStates(before: map<nat, seq<Event>>, after: map<nat, seq<Event>>, states: set<State>) {
    before.Keys == after.Keys && forall i :: i in before && StateAfter(before[i]) !in states ==> after[i] == before[i]
  }

  lemma {:induction false} NoneOfStates(log: map<nat, seq<Event>>, states: set<State>)
    ensures OnlyStates(log, log, states)
  {
  }

  lemma {:induction false} OneMoreOfStates(before: map<nat, seq<Event>>, middle: map<nat, seq<Event>>,
                                           after: map<nat, seq<Event>>, i: nat, states: set<State>)
    requires OnlyStates(before, middle, states) && i in middle && StateAfter(middle[i]) in states
    requires middle == after || Others(middle, after, i)
    ensures OnlyStates(before, after, states)
  {
  }

  /** Nothing has come in flight. */
  ghost predicate NoNewFlight(before: map<nat, seq<Event>>, after: map<nat, seq<Event>>) {
    before.Keys == after.Keys
    && forall i :: i in after && InFlight(StateAfter(after[i])) ==> InFlight(StateAfter(before[i]))
  }

  lemma {:induction false} NoFlightYet(log: map<nat, seq<Event>>)
    ensures NoNewFlight(log, log)
  {
  }

  lemma {:induction false} OneMoreNotInFlight(before: map<nat, seq<Event>>, middle: map<nat, seq<Event>>,
                                              after: map<nat, seq<Event>>, i: nat)
    requires NoNewFlight(before, middle) && i in middle
    requires middle == after || (Others(middle, after, i) && !InFlight(StateAfter(after[i])))
    ensures NoNewFlight(before, after)
  {
  }

  lemma {:induction false} FlightChain(before: map<nat, seq<Event>>, middle: map<nat, seq<Event>>,
                                       after: map<nat, seq<Event>>)
    requires NoNewFlight(before, middle)
    ensures NoNewFlight(middle, after) ==> NoNewFlight(before, after)
  {
  }

  lemma {:induction false} StatesChain(before: map<nat, seq<Event>>, middle: map<nat, seq<Event>>,
                                       after: map<nat, seq<Event>>, states: set<State>, more: set<State>)
    requires OnlyStates(before, middle, states) && OnlyStates(middle, after, more) && more <= states
    ensures OnlyStates(before, after, states)
  {
  }

  /** Only this item's log differs. */
  ghost predicate Others(before: map<nat, seq<Event>>, after: map<nat, seq<Event>>, item: nat) {
    before.Keys == after.Keys && forall i :: i in before && i != item ==> before[i] == after[i]
  }

  /** The events of a local stop: 'processing' first if the document reached its consumer; a leftover of a document that
      did not waits first, naming no record, because the table has no other way from 'requesting' to 'failed'. */
  function LocalStop(rec: L.Record, lease: nat, blocked: bool, cleanup: bool): seq<Event> {
    var final := Recorded(if cleanup then CleanupFailed else Failed, lease, Some(rec), blocked);
    if rec.consumer != L.NotRun then [Recorded(Processing, lease, Some(rec), false), final]
    else if cleanup then [final] else [Recorded(RetryWait, lease, None, false), final]
  }

  function Recorded(state: State, lease: nat, record: Option<L.Record>, block: bool): Event {
    Event(state, Record, Some(lease), record, block)
  }

  /** From 'requesting', what the guard accepts in one and in two steps. */
  lemma {:induction false} AcceptedFromRequesting(es: seq<Event>, lease: nat, a: Event, b: Event)
    requires es != [] && Last(es).state == Requesting && Last(es).lease == Some(lease)
    requires a.lease == Some(lease) && a.action == Record && EvidenceOk(a) && b.lease == Some(lease)
             && b.action == Record && EvidenceOk(b)
    ensures a.state in {Processing, RetryWait, RetrievalFailed, Blocked, CleanupFailed} ==>
              AcceptsAll(es, [a], Some(lease))
    ensures a.state == Processing && b.state in {Persisted, ConsumerFailed, CleanupFailed, RetryWait, Failed} ==>
              AcceptsAll(es, [a, b], Some(lease)) && AcceptsAll(es + [a], [b], Some(lease))
    ensures a.state == RetryWait && b.state in {RetrievalFailed, Failed} ==> AcceptsAll(es, [a, b], Some(lease))
  {
    assert [a][1..] == [] && [a, b][1..] == [b] && [b][1..] == [];
  }

  lemma {:induction false} RecordsKeepClaims(es: seq<Event>, more: seq<Event>)
    requires |more| <= 2 && forall e :: e in more ==> e.action == Record
    ensures Claims(es + more) == Claims(es)
  {
    if |more| == 1 {
      ClaimsAfter(es, more[0]);
      assert es + more == es + [more[0]];
    } else if |more| == 2 {
      ClaimsAfter(es, more[0]);
      ClaimsAfter(es + [more[0]], more[1]);
      assert es + more == es + [more[0]] + [more[1]];
    } else {
      assert es + more == es;
    }
  }

  lemma {:induction false} PersistenceIsAccepted(es: seq<Event>, lease: nat, rec: L.Record, leftovers: nat,
                                                 state: State)
    requires es != [] && Last(es).state == Requesting && Last(es).lease == Some(lease)
    requires L.LawfulRecord(rec, true) && O.DispositionOf(rec, leftovers) == O.Persist && state in {RetryWait, Failed}
    ensures var processing := Recorded(Processing, lease, Some(rec), false);
            && AcceptsAll(es, [processing], Some(lease))
            && AcceptsAll(es + [processing], [Recorded(Persisted, lease, Some(rec), false)], Some(lease))
            && AcceptsAll(es + [processing], [Recorded(state, lease, Some(rec), false)], Some(lease))
  {
    hide LegalPath, Claims, AcceptsAll;
    O.DispositionIsSound(rec, leftovers);
    var processing := Recorded(Processing, lease, Some(rec), false);
    AcceptedFromRequesting(es, lease, processing, Recorded(Persisted, lease, Some(rec), false));
    AcceptedFromRequesting(es, lease, processing, Recorded(state, lease, Some(rec), false));
  }

  /** A document persisted by a transaction whose commit raised is not recorded a second time. */
  lemma {:induction false} PersistedStays(es: seq<Event>, done: Event, undone: Event, live: Option<nat>)
    requires done.state == Persisted && undone.state in {RetryWait, Failed} && undone.action == Record
    ensures !AcceptsAll(es + [done], [undone], live)
  {
  }

  lemma {:induction false} OthersAfter(a: map<nat, seq<Event>>, b: map<nat, seq<Event>>, c: map<nat, seq<Event>>,
                                       item: nat)
    requires (a == b || Others(a, b, item)) && (b == c || Others(b, c, item))
    ensures Others(a, c, item)
  {
  }

  /** Where a pass leaves its item and how it ends: first what may remain on disk, then a block, then what the record
      is; faulty: some commit may have raised. */
  ghost predicate Explains(p: Pass, claims: nat, max: nat, lastPass: bool, faulty: bool, state: State, x: Exit)
    requires p.got.F2Returns?
  {
    var kind := O.DispositionOf(p.got.rec, p.got.leftovers);
    if kind == O.CleanupStop then state == CleanupFailed && x == Stopped(CleanupFailure)
    else if kind == O.LeftoverStop then state == Failed && x == Stopped(CleanupFailure)
    else if p.stop == Some(BlockedStop) then state == Blocked && x == Stopped(BlockedStop)
    else match kind
      case Persist =>
        || (state == Persisted && !p.persistFails && StopsAs(x, p.stop))
        || (state == (if claims < max then RetryWait else Failed) && (p.persistFails || faulty) && x == Done(state))
      case Consumer => state == ConsumerFailed && StopsAs(x, p.stop)
      case _ =>
        if p.refusedInside || p.stop == Some(Refused) then state == RetryWait && StopsAs(x, p.stop)
        else match kind
          case Local => state == RetryWait && x == Stopped(Refused)
          case Terminal => state == RetrievalFailed && StopsAs(x, p.stop)
          case _ =>
            (lastPass || p.stop == Some(CircuitOpen)) && StopsAs(x, p.stop)
            && state == if claims < max then RetryWait else RetrievalFailed
  }

  /** The item's last event names the pass's record, but not for a refusal, and the block if there is one. */
  ghost predicate NamesItsPass(p: Pass, es: seq<Event>)
    requires p.got.F2Returns?
  {
    && es != [] && (Last(es).block <==> p.stop == Some(BlockedStop))
    && (Last(es).record == Some(p.got.rec)
        || (Last(es).record == None && Last(es).state == RetryWait && (p.refusedInside || p.stop == Some(Refused))))
  }

  /** Done without a stop, and stopped by it with one. */
  predicate StopsAs(x: Exit, how: Option<Stop>) {
    match how case None => x.Done? case Some(stop) => x == Stopped(stop)
  }

  /** A pass after which the next one tries again. */
  predicate Retried(p: Pass) {
    p.got.F2Returns? && O.DispositionOf(p.got.rec, p.got.leftovers) == O.Retryable && p.stop.None? && !p.refusedInside
  }

  /** A pass that HB-2, the free space or the arming does not let begin; full: the slice started its documents. */
  predicate NotStarted(p: Pass, k: nat, passesPerDocument: nat, full: bool) {
    (k > 1 && p.noSpace) || p.refused || full || k > passesPerDocument
  }

  /** The worker stops the slice by itself: a document may remain on disk, or the temporary root fails. */
  predicate StopsItself(p: Pass) {
    p.got.F2Returns? && O.DispositionOf(p.got.rec, p.got.leftovers) in {O.CleanupStop, O.LeftoverStop, O.Local}
  }

  /** A pass that may end the slice. */
  predicate PassStops(p: Pass) {
    p.stop.Some? || p.noSpace || p.refused || StopsItself(p)
  }

  ghost predicate SomePassStops(passes: nat -> Pass, n: nat) {
    exists k: nat :: 1 <= k <= n && PassStops(passes(k))
  }

  /** The arming's bounds, and the documents started before. */
  datatype Limits = Limits(max: nat, passesPerDocument: nat, cap: nat, documents: nat)

  /** What a slice meets, item by item. */
  datatype Surroundings = Surroundings(eligible: nat -> bool, noSpace: nat -> bool, claimRefused: nat -> bool,
                                       passes: (nat, nat) -> Pass)

  /** Nothing refuses or stops this document's passes, and nothing unexpected happens in them. */
  ghost predicate Clear(env: Surroundings, i: nat) {
    !env.noSpace(i) && !env.claimRefused(i)
    && forall k: nat :: !PassStops(env.passes(i, k)) && !Unexpected(env.passes(i, k))
  }

  lemma {:induction false} ClearGoesOn(env: Surroundings, i: nat, passes: nat -> Pass, n: nat)
    requires forall k: nat :: passes(k) == env.passes(i, k)
    ensures Clear(env, i) ==> !SomePassStops(passes, n) && !SomePassIsUnexpected(passes, n)
    ensures Clear(env, i) ==> !env.noSpace(i) && !env.claimRefused(i)
  {
    hide PassStops, Unexpected;
    if Clear(env, i) {
      forall k: nat ensures !PassStops(passes(k)) && !Unexpected(passes(k)) {
        assert passes(k) == env.passes(i, k);
      }
    }
  }

  lemma {:induction false} WhyNotStarted(passes: nat -> Pass, n: nat, bounds: Limits, x: Exit, full: bool)
    requires n >= 1 && NotStarted(passes(n), n, bounds.passesPerDocument, bounds.documents + n - 1 >= bounds.cap)
    requires full == (bounds.documents + n - 1 >= bounds.cap)
    requires x == Raised || x == if (n > 1 && passes(n).noSpace) || passes(n).refused || full
                                then Stopped(Refused) else Done(RetryWait)
    ensures x.Stopped? ==> full || SomePassStops(passes, n)
    ensures x != Raised ==>
              forall claims: nat, faulty :: LastPassExplains(passes, n, claims, bounds, faulty, RetryWait, x)
  {
    hide O.DispositionOf, Explains;
    if x.Stopped? && !full {
      assert PassStops(passes(n));
    }
  }

  lemma {:induction false} RetriedHasNoStop(p: Pass)
    ensures Retried(p) ==> p.stop == None
  {
  }

  lemma {:induction false} WhyStopped(passes: nat -> Pass, n: nat)
    requires n >= 1
    ensures passes(n).stop.Some? || StopsItself(passes(n)) ==> SomePassStops(passes, n)
    ensures passes(n).stop == Some(DurabilityStop) ==> SomePassIsNotDurable(passes, n)
    ensures Unexpected(passes(n)) || passes(n).got.F2Raises? ==> SomePassIsUnexpected(passes, n)
  {
    hide O.DispositionOf;
    if passes(n).stop.Some? || StopsItself(passes(n)) {
      assert PassStops(passes(n));
    }
  }

  lemma {:induction false} ExplainsMore(passes: nat -> Pass, n: nat, claims: nat, limits: Limits, a: bool, b: bool,
                                        state: State, x: Exit)
    requires a ==> b
    ensures LastPassExplains(passes, n, claims, limits, a, state, x) ==>
              LastPassExplains(passes, n, claims, limits, b, state, x)
  {
    hide O.DispositionOf, NotStarted;
  }

  /** Where a retrieval failure leaves its item. */
  function FailureState(p: Pass, claims: nat, max: nat): State
    requires p.got.F2Returns? && O.DispositionOf(p.got.rec, p.got.leftovers) in {O.Terminal, O.Retryable, O.Local}
  {
    if p.refusedInside || p.stop == Some(Refused) then RetryWait
    else match O.LiveState(O.DispositionOf(p.got.rec, p.got.leftovers), claims, max)
      case RetryWait => RetryWait
      case RetrievalFailed => RetrievalFailed
  }

  /** No stop, or one that leaves the item's own event to the pass. */
  predicate SoftStop(stop: Option<Stop>) {
    stop.None? || stop.value == CircuitOpen || stop.value == Refused
  }

  ghost predicate SomePassIsUnexpected(passes: nat -> Pass, n: nat) {
    exists k: nat :: 1 <= k <= n && Unexpected(passes(k))
  }

  /** The last pass leaves the item as it is, unless it was not allowed to begin: then the item waits, and the slice
      stops unless only the passes of the claim were used up. */
  ghost predicate LastPassExplains(passes: nat -> Pass, n: nat, claims: nat, bounds: Limits, faulty: bool,
                                   state: State, x: Exit) {
    n >= 1 &&
    var full := bounds.documents + n - 1 >= bounds.cap;
    if NotStarted(passes(n), n, bounds.passesPerDocument, full) then
      state == RetryWait
      && x == if (n > 1 && passes(n).noSpace) || passes(n).refused || full then Stopped(Refused) else Done(RetryWait)
    else passes(n).got.F2Returns?
         && Explains(passes(n), claims, bounds.max, n >= bounds.passesPerDocument, faulty, state, x)
  }

  ghost predicate SomePassIsNotDurable(passes: nat -> Pass, n: nat) {
    exists k: nat :: 1 <= k <= n && passes(k).stop == Some(DurabilityStop)
  }

  /** Each item this slice tried was claimed once and is out of flight; every other item is as it was. */
  ghost predicate EachTriedOnce(before: map<nat, seq<Event>>, tried: set<nat>, log: map<nat, seq<Event>>,
                                attempted: set<nat>) {
    && before.Keys == log.Keys && tried <= attempted
    && (forall i :: i in before && i !in attempted - tried ==> log[i] == before[i])
    && (forall i :: i in attempted - tried ==>
          i in before && !InFlight(StateAfter(log[i])) && Claims(log[i]) == Claims(before[i]) + 1)
  }

  lemma {:induction false} NoneTried(log: map<nat, seq<Event>>, tried: set<nat>)
    ensures EachTriedOnce(log, tried, log, tried)
  {
  }

  lemma {:induction false} TriedOneMore(before: map<nat, seq<Event>>, tried: set<nat>, log: map<nat, seq<Event>>,
                                        attempted: set<nat>,
                                        newLog: map<nat, seq<Event>>, newAttempted: set<nat>, item: nat)
    requires EachTriedOnce(before, tried, log, attempted) && item in log && item !in attempted
             && Others(log, newLog, item)
    requires attempted <= newAttempted <= attempted + {item}
    requires if item in newAttempted
             then !InFlight(StateAfter(newLog[item])) && Claims(newLog[item]) == Claims(log[item]) + 1
             else newLog == log
    ensures EachTriedOnce(before, tried, newLog, newAttempted)
  {
  }

  predicate InFlightUnder(es: seq<Event>, lease: nat) {
    es != [] && InFlight(Last(es).state) && Last(es).lease == Some(lease)
  }

  lemma {:induction false} OthersSame(before: map<nat, seq<Event>>, after: map<nat, seq<Event>>, item: nat)
    requires item in before && Others(before, after, item)
    ensures item in after && (before[item] == after[item] ==> before == after)
  {
  }

  /** The most passes these items make, one claim each. */
  function PassesOf(items: set<nat>, bound: nat): nat {
    |items| * bound
  }

  lemma {:induction false} CountedOnce(a: set<nat>, b: set<nat>, i: nat, bound: nat)
    requires i !in a && a <= b <= a + {i}
    ensures PassesOf(a, bound) + (if i in b then bound else 0) == PassesOf(b, bound)
  {
    if i in b {
      assert b == a + {i};
      assert (|a| + 1) * bound == |a| * bound + bound;
    } else {
      assert b == a;
    }
  }

  lemma {:induction false} OthersStates(before: map<nat, seq<Event>>, after: map<nat, seq<Event>>, item: nat)
    requires Others(before, after, item)
    ensures before.Keys == after.Keys && forall i :: i in before && i != item ==> after[i] == before[i]
  {
  }

  lemma {:induction false} OthersKeys(before: map<nat, seq<Event>>, after: map<nat, seq<Event>>, item: nat)
    requires Others(before, after, item)
    ensures before.Keys == after.Keys
  {
  }

  predicate WaitsAtMaximum(log: map<nat, seq<Event>>, item: nat, max: nat) {
    item in log && StateAfter(log[item]) in {Pending, RetryWait} && Claims(log[item]) >= max
  }

  lemma {:induction false} TerminalAccepted(es: seq<Event>, lease: nat, persisted: bool)
    requires StateAfter(es) in {Pending, RetryWait}
    ensures persisted ==> AcceptsAll(es, [Event(Persisted, Promote, None, None, false)], Some(lease))
    ensures StateAfter(es) == RetryWait ==> AcceptsAll(es, [Event(Failed, Record, None, None, false)], Some(lease))
    ensures StateAfter(es) == Pending ==>
              AcceptsAll(es, [Event(Requesting, Claim, Some(lease), None, false),
                              Recorded(RetryWait, lease, None, false), Event(Failed, Record, None, None, false)],
                         Some(lease))
  {
    var a := Event(Requesting, Claim, Some(lease), None, false);
    var b := Recorded(RetryWait, lease, None, false);
    var c := Event(Failed, Record, None, None, false);
    var p := Event(Persisted, Promote, None, None, false);
    assert [p][1..] == [] && [c][1..] == [] && [b, c][1..] == [c] && [a, b, c][1..] == [b, c];
    assert AcceptsAll(es + [a] + [b], [c], Some(lease));
    assert AcceptsAll(es + [a], [b, c], Some(lease)) <== StateAfter(es) == Pending;
  }
}
