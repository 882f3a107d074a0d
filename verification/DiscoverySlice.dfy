// The discovery slice as the worker runs it (worker/backfill_discovery/discovery.py, DiscoverySlice and its
// reconciliation), one object whose methods commit the protocol's steps one at a time. Every commit may raise,
// whether or not the database kept it; the history proves that whatever happens is a run of the protocol.
module DiscoverySlices {
  import opened Prelude
  import opened ItemStates
  import opened DiscoveryLedger
  import opened DiscoveryRuns
  import opened DiscoveryTheorems

  /** What a commit does: it returns, or it raises with or without having been kept. */
  datatype Fault = NoFault | Raises(kept: bool)

  datatype Stop = Blocked | CircuitOpen | Refused | DurabilityStop

  type Verdict = s: RunStatus | s != Running witness RunFailed

  /** What meets one governed request: a refusal by HB-2 (before the claim, at the admission, before the intent), a
      journal that cannot be written, or an answer. spooled: its record reached the spool; circuit: it trips the
      circuit breaker. */
  datatype Reply =
    | RefusedClaim
    | RefusedAdmission
    | RefusedRequest
    | NoJournal
    | Answer(cls: OutcomeClass, verdict: Verdict, spooled: bool, circuit: bool)

  /** How discover_one ends: the item's event is recorded, a TransportStop, a DiscoveryRefused, another exception. */
  datatype Exit = Recorded(state: State) | Stopped(stop: Stop) | Rejected | Raised

  /** What the attempt's outcome row holds for this answer. */
  function OutcomeOf(reply: Reply): Outcome
    requires reply.NoJournal? || reply.Answer?
  {
    match reply
    case NoJournal => SpoolFailed(false)
    case Answer(cls, verdict, spooled, _) => if cls == Ok && !spooled then SpoolFailed(true) else Response(cls, verdict)
  }

  /** The stop the request raises after its outcome is recorded. */
  function StopOf(reply: Reply): Option<Stop>
    requires reply.NoJournal? || reply.Answer?
  {
    if reply.NoJournal? then Some(DurabilityStop)
    else if reply.cls == BlockClass then Some(Stop.Blocked)
    else if !reply.spooled then Some(DurabilityStop)
    else if reply.cls != Ok && reply.circuit then Some(CircuitOpen)
    else None
  }

  /** What the ledger holds for the item when its request ended so: an answer is recorded by its class and F1's status,
      a refusal after the claim by the claims; the evidence is never beaten by a failure. */
  ghost predicate EventFits(reply: Reply, x: Exit, claims: nat, max: nat, db: Db, item: nat) {
    && (x.Recorded? || x in {Stopped(CircuitOpen), Stopped(Stop.Blocked)} ==>
          reply.Answer? && AnswerState(db.runs, item, reply.cls, reply.verdict, claims, max, Current(db, item)))
    && (x == Stopped(Refused) ==> RefusalState(db.runs, item, claims, max, Current(db, item)))
  }

  /** Only this item's log differs. */
  ghost predicate OnlyItem(before: Db, after: Db, item: nat) {
    before.log.Keys == after.log.Keys && forall i :: i in before.log && i != item ==> before.log[i] == after.log[i]
  }

  /** What the attempt holds of an answer whose record did not reach the spool: a request not sent, or a success that
      cannot be ingested; any other answer is in the journal. */
  predicate Undurable(reply: Reply, outcome: Option<Outcome>) {
    match reply
    case NoJournal => outcome == Some(SpoolFailed(false))
    case Answer(cls, verdict, _, _) =>
      outcome == Some(if cls == Ok then SpoolFailed(true) else Response(cls, verdict))
    case _ => false
  }

  /** How a request that was claimed ends when every commit returns. */
  predicate ExitFits(reply: Reply, x: Exit) {
    match reply
    case RefusedClaim => x == Stopped(Refused)
    case RefusedAdmission => x == Stopped(Refused)
    case RefusedRequest => x == Stopped(Refused)
    case NoJournal => x == Stopped(DurabilityStop)
    case Answer(cls, _, spooled, circuit) =>
      && (x == Stopped(Stop.Blocked) <==> cls == BlockClass)
      && (x == Stopped(DurabilityStop) <==> cls != BlockClass && !spooled)
      && (x == Stopped(CircuitOpen) <==> cls in {RetryableClass, TerminalClass} && spooled && circuit)
      && (x.Recorded? <==> cls != BlockClass && spooled && (cls == Ok || !circuit))
  }

  /** No commit raises. */
  ghost predicate Quiet(faults: seq<Fault>) {
    forall k :: 0 <= k < |faults| ==> faults[k] == NoFault
  }

  predicate Waits(db: Db, item: nat) {
    item in db.log && Current(db, item) in {Pending, RetryWait}
  }

  /** HB-2 refuses the claim itself, at the armed maximum or for reasons of its own. */
  predicate RefusedAtClaim(m: Machine, item: nat, reply: Reply) {
    reply.RefusedClaim? || (m.slice.Some? && item in m.db.log && Claims(m.db.log[item]) >= m.slice.value.max)
  }

  predicate IsOperators(s: Step) {
    s.RequeueItem? || s.ResumeItem?
  }

  class DiscoverySlice {
    var db: Db
    var sl: Option<Slice>
    var plan: set<nat>
    var outcomes: seq<(nat, State)>
    var stop: Option<Stop>
    var closed: bool
    var leaseKept: bool
    var faults: seq<Fault>
    ghost var ms: seq<Machine>
    ghost var ss: seq<Step>
    ghost const before: seq<Machine>
    ghost const done: seq<Step>

    function M(): Machine
      reads this
    {
      Machine(db, sl)
    }

    /** Everything the ledger holds came about by a run of the protocol, and this slice only added steps of its own. */
    ghost predicate Valid()
      reads this
    {
      && Behaviour(ms, ss) && ms[|ms| - 1] == M()
      && before <= ms && done <= ss && |before| == |done| + 1 && before[|done|].slice.None?
      && forall k :: |done| <= k < |ss| ==> !IsOperators(ss[k])
    }

    /** On the database that earlier runs, crashed or not, have left. */
    constructor (db: Db, plan: set<nat>, faults: seq<Fault>, ghost ms: seq<Machine>, ghost ss: seq<Step>)
      requires Behaviour(ms, ss) && ms[|ms| - 1] == Machine(db, None)
      ensures Valid() && this.db == db && sl == None && this.plan == plan && !closed && stop == None && outcomes == []
      ensures this.faults == faults && this.ms == ms == before && this.ss == ss == done
    {
      this.db, this.plan, this.faults, this.ms, this.ss, before, done := db, plan, faults, ms, ss, ms, ss;
      sl, outcomes, stop, closed, leaseKept := None, [], None, false, false;
    }

    /** The protocol's next step. */
    method Advance(after: Machine, ghost s: Step)
      requires Valid() && Enabled(M(), s) && after == Do(M(), s) && !IsOperators(s)
      modifies this`db, this`sl, this`ms, this`ss
      ensures Valid() && M() == after && old(ms) <= ms && old(ss) <= ss
    {
      hide Enabled, Do, Behaviour;
      Continues(ms, ss, s, after) by {
        assert Follows(M(), s, after);
      }
      BehaviourLength(ms, ss);
      db, sl := after.db, after.slice;
      ms, ss := ms + [after], ss + [s];
    }

    /** One transaction: the step, kept if it returns. */
    method Commit(after: Machine, ghost s: Step) returns (ok: bool)
      requires Valid() && Enabled(M(), s) && after == Do(M(), s) && !IsOperators(s)
      modifies this`db, this`sl, this`faults, this`ms, this`ss
      ensures Valid() && old(ms) <= ms && old(ss) <= ss
      ensures ok ==> M() == after
      ensures !ok ==> M() == after || M() == old(M())
      ensures old(Quiet(faults)) ==> ok && Quiet(faults)
    {
      hide Enabled, Do, Behaviour;
      var fault := if faults == [] then NoFault else faults[0];
      faults := if faults == [] then [] else faults[1..];
      ok := fault == NoFault;
      if ok || fault.kept {
        Advance(after, s);
      }
    }

    lemma {:induction false} Invariant()
      requires Valid()
      ensures Inv(M())
    {
      InvAlways(ms, ss, |ms| - 1);
    }

    // -------------------------------------------------------------- one request

    method ClaimFor(item: nat) returns (ok: bool)
      requires Valid() && Enabled(M(), ClaimItem(item))
      modifies this`db, this`sl, this`faults, this`ms, this`ss
      ensures Valid() && OnlyItem(old(db), db, item) && SameSlice(old(sl), sl) && item in db.log
      ensures ok ==> sl.value.work == Claimed(item, old(db.now)) && sl.value.decision.None?
                     && sl.value.attempted == old(sl.value.attempted) + {item}
                     && Claims(db.log[item]) == Claims(old(db.log[item])) + 1
      ensures old(Quiet(faults)) ==> ok && Quiet(faults)
    {
      hide Behaviour, Quiet;
      var s := sl.value;
      var e := Event(Requesting, Claim, Some(s.lease), db.now, None, None, false);
      Appended(db.log[item], e);
      var after := Machine(Append(db, item, e).(claimed := db.claimed[db.now := ClaimRecord(item, s.lease)]),
                           Some(s.(attempted := s.attempted + {item}, work := Claimed(item, db.now))));
      ok := Commit(after, ClaimItem(item));
    }

    /** The F1 run, begun at the claim's own time. */
    method Begin() returns (ok: bool)
      requires Valid() && Enabled(M(), BeginRun)
      modifies this`db, this`sl, this`faults, this`ms, this`ss
      ensures Valid() && db.log == old(db.log) && SameSlice(old(sl), sl) && sl.value.decision.None?
      ensures ok ==> sl.value.work == Begun(old(sl.value.work.item), old(sl.value.work.at), old(|db.runs|))
                     && sl.value.work.run < |db.runs|
      ensures old(Quiet(faults)) ==> ok && Quiet(faults)
    {
      hide Behaviour, Quiet;
      var (s, w) := (sl.value, sl.value.work);
      ok := Commit(Machine(db.(runs := db.runs + [Run(w.item, w.at, Running, false, None)]),
                           Some(s.(work := Begun(w.item, w.at, |db.runs|)))), BeginRun);
    }

    method RecordIntent() returns (ok: bool)
      requires Valid() && Enabled(M(), Intent)
      modifies this`db, this`sl, this`faults, this`ms, this`ss
      ensures Valid() && db.log == old(db.log) && SameSlice(old(sl), sl) && sl.value.decision.None?
      ensures var w := old(sl.value.work);
              ok ==> sl.value.work == Asked(w.item, w.at, w.run, old(|db.attempts|))
      ensures old(Quiet(faults)) ==> ok && Quiet(faults)
    {
      hide Behaviour, Quiet;
      var (s, w) := (sl.value, sl.value.work);
      ok := Commit(Machine(db.(attempts := db.attempts + [Attempt(w.item, s.lease, None, w.run)]),
                           Some(s.(work := Asked(w.item, w.at, w.run, |db.attempts|)))), Intent);
    }

    method StoreOutcome(outcome: Outcome) returns (ok: bool)
      requires Valid() && Enabled(M(), RecordOutcome(outcome))
      modifies this`db, this`sl, this`faults, this`ms, this`ss
      ensures Valid() && db.log == old(db.log) && SameSlice(old(sl), sl) && sl.value.decision.None?
      ensures sl.value.work != Idle && sl.value.work.item == old(sl.value.work.item)
      ensures var w := old(sl.value.work);
              ok ==> sl.value.work == Answered(w.item, w.at, w.run, w.attempt) && w.attempt < |db.attempts|
                     && db.attempts[w.attempt].outcome == Some(outcome)
      ensures old(Quiet(faults)) ==> ok && Quiet(faults)
    {
      hide Behaviour, Quiet;
      Invariant();
      AskedHasAttempt(M());
      var (s, w) := (sl.value, sl.value.work);
      var answered := db.attempts[w.attempt].(outcome := Some(outcome));
      ok := Commit(Machine(db.(attempts := db.attempts[w.attempt := answered]),
                           Some(s.(work := Answered(w.item, w.at, w.run, w.attempt)))), RecordOutcome(outcome));
    }

    /** finish_from_ledger, for the run and the attempt of this claim. */
    method FinishRun() returns (ok: bool)
      requires Valid() && Enabled(M(), Ingest)
      modifies this`db, this`sl, this`faults, this`ms, this`ss
      ensures Valid() && db.log == old(db.log) && db.attempts == old(db.attempts) && SameSlice(old(sl), sl)
      ensures sl.value.decision.None?
      ensures var w := old(sl.value.work);
              ok ==> sl.value.work == Ingested(w.item, w.at, w.run, w.attempt)
                     && w.run < |db.runs| && w.attempt < |db.attempts|
      ensures old(Quiet(faults)) ==> ok && Quiet(faults)
    {
      hide Behaviour, Quiet;
      Invariant();
      AskedHasAttempt(M());
      var (s, w) := (sl.value, sl.value.work);
      ok := Commit(Machine(FinishFromLedger(db, w.run, w.attempt),
                           Some(s.(work := Ingested(w.item, w.at, w.run, w.attempt)))), Ingest);
    }

    /** What _final_or_retry reads before it writes: a failure gives way to a successful run of the request; the event
        names the winner, or the claim's own run when that run supports it. */
    method Resolve(kind: DecisionKind, item: nat, state: State, run: Option<nat>, attempt: Option<nat>)
      returns (d: Decision)
      requires item in db.log && (run.Some? ==> run.value < |db.runs|)
      requires state in {Succeeded, Partial} ==> run.Some? && IsSuccess(db.runs[run.value].status)
      ensures d == OutcomeDecision(db, kind, item, state, run, attempt)
    {
      hide AttemptOfRun;
      var (st, named, at) := (state, run, attempt);
      if st == Failed {
        var won := SuccessRun(db, item);
        if won.Some? {
          st, named := StateFor(db.runs[won.value].status), won;
          at := AttemptOfRun(db, item, db.log[item], won.value);
        }
      }
      if named.Some? && !(st in {Succeeded, Partial} || db.runs[named.value].status == RunFailed) {
        named := None;
      }
      d := Decision(kind, item, st, named, at);
    }

    /** The decision for this claim, read from the evidence and not committed yet. */
    method Conclude(kind: DecisionKind, item: nat, state: State, run: Option<nat>, attempt: Option<nat>)
      returns (d: Decision)
      requires Valid() && Undecided(M(), false) && kind in {ForAnswer, ForRefusal} && Decides(M(), kind, item)
      requires Chooses(M(), kind, item, state, run, attempt)
      modifies this`db, this`sl, this`ms, this`ss
      ensures Valid() && d.item == item && item in old(db.log)
      ensures M() == Machine(old(db), Some(old(sl.value).(decision := Some(d))))
      ensures Enabled(M(), RecordEvent)
      ensures Do(M(), RecordEvent) ==
              Machine(Append(db, item, EventOf(d, Record, Some(sl.value.lease), db.now)),
                      Some(sl.value.(work := Idle, decision := None)))
      ensures if state == Failed then FailedOrBetter(db.runs, item, d.state) else d.state == state
    {
      hide Behaviour, HasSuccess, FailedOrBetter, Inv, Enabled, Do, Claims, OutcomeDecision, Decides, Chooses,
           DecisionOk;
      Invariant();
      DecisionIsSound(M(), kind, item);
      ChoiceIsTheDecision(M(), kind, item, state, run, attempt);
      ghost var start := M();
      d := Resolve(kind, item, state, run, attempt);
      OutcomeWins(start, kind, item, state, run, attempt);
      DecideIs(start, kind, item, d);
      Advance(Machine(db, Some(sl.value.(decision := Some(d)))), Decide(kind, item));
      RecordIs(start, M(), d);
    }

    /** _final_or_retry: the item's event for this claim, decided from the evidence and then committed. A failure gives
        way exactly when a run of the request succeeded. */
    method FinalOrRetry(kind: DecisionKind, item: nat, state: State, run: Option<nat>, attempt: Option<nat>)
      returns (ok: bool, final: State)
      requires Valid() && Undecided(M(), false) && kind in {ForAnswer, ForRefusal} && Decides(M(), kind, item)
      requires Chooses(M(), kind, item, state, run, attempt)
      modifies this`db, this`sl, this`faults, this`ms, this`ss, this`outcomes
      ensures Valid() && OnlyItem(old(db), db, item) && SameSlice(old(sl), sl) && item in db.log
      ensures sl.value.attempted == old(sl.value.attempted) && db.runs == old(db.runs)
      ensures ok ==> sl.value.work == Idle && sl.value.decision.None? && Current(db, item) == final
                     && outcomes == old(outcomes) + [(item, final)]
      ensures ok ==> Claims(db.log[item]) == old(Claims(db.log[item]))
      ensures ok ==> if state == Failed then FailedOrBetter(db.runs, item, final) else final == state
      ensures old(Quiet(faults)) ==> ok && Quiet(faults)
    {
      hide Behaviour, HasSuccess, Enabled, Do, Claims, Quiet, Decides, Chooses, OnlyItem, SameSlice;
      ghost var start := M();
      var d := Conclude(kind, item, state, run, attempt);
      ghost var decided := M();
      var e := EventOf(d, Record, Some(sl.value.lease), db.now);
      ok := Commit(Machine(Append(db, item, e), Some(sl.value.(work := Idle, decision := None))), RecordEvent);
      RecordedOnly(start, decided, M(), d);
      final := d.state;
      if ok {
        outcomes := outcomes + [(item, final)];
      }
    }

    /** Ready for the next request: opened, reconciled, and nothing of this slice in flight. */
    ghost predicate Ready()
      reads this
    {
      Valid() && !closed && Undecided(M(), false) && sl.value.work == Idle
    }

    /** How a request for the item ended, having started from this state: whatever is recorded, and every handled stop,
        leaves the item out of flight; a DurabilityStop leaves it in flight under the kept lease. */
    ghost predicate Ended(start: Machine, item: nat, claims: nat, x: Exit)
      reads this
    {
      && Valid() && OnlyItem(start.db, db, item) && SameSlice(start.slice, sl) && x != Rejected
      && (x.Recorded? || (x.Stopped? && x.stop != DurabilityStop) ==>
            Ready() && item in sl.value.attempted && item in db.log && Claims(db.log[item]) == claims)
      && (x.Recorded? ==> Current(db, item) == x.state && x.state in {Succeeded, Partial, Failed, RetryWait}
                          && (x.state == RetryWait ==> claims < sl.value.max))
      && (x == Stopped(CircuitOpen) || x == Stopped(Refused) ==>
            Current(db, item) in {Succeeded, Partial, Failed, RetryWait})
      && (x == Stopped(Stop.Blocked) ==> Current(db, item) == State.Blocked)
      && (x == Stopped(DurabilityStop) ==> InFlightUnder(db, item, sl.value.lease))
    }

    /** Refused after the claim and before any intent. */
    method Refuse(item: nat) returns (x: Exit)
      requires Valid() && !closed && Undecided(M(), false) && Decides(M(), ForRefusal, item)
      requires item in sl.value.attempted
      modifies this`db, this`sl, this`faults, this`ms, this`ss, this`outcomes, this`stop
      ensures item in old(db.log) && Ended(old(M()), item, Claims(old(db.log[item])), x)
      ensures x == Raised ||
              (x == Stopped(Refused) && |outcomes| == |old(outcomes)| + 1 && stop == Some(Refused))
      ensures EventFits(RefusedRequest, x, Claims(old(db.log[item])), old(sl.value.max), db, item)
      ensures x == Raised ==> stop == old(stop)
      ensures old(Quiet(faults)) ==> x != Raised && Quiet(faults)
    {
      hide Behaviour, Do, Enabled, Decides, HasSuccess, Claims, OnlyItem, SameSlice, Inv, Chooses, Quiet;
      RefusalChooses(M(), item);
      var run := if sl.value.work.Begun? then Some(sl.value.work.run) else None;
      var state := if Claims(db.log[item]) >= sl.value.max then Failed else RetryWait;
      ghost var start := M();
      SameSliceIsReflexive(start);
      var ok, final := FinalOrRetry(ForRefusal, item, state, run, None);
      OnlyItemAfter(start, start, M(), item);
      if !ok {
        return Raised;
      }
      stop := Some(Refused);
      x := Stopped(Refused);
    }

    /** json_request: the intent, the one attempt and its outcome, then F1 from the ledger; or how it ended early. A
        journal that cannot be written is recorded outside any handler, an answer inside one. */
    method SendRequest(item: nat, reply: Reply) returns (early: Option<Exit>)
      requires Valid() && Enabled(M(), Intent) && item == sl.value.work.item && (reply.NoJournal? || reply.Answer?)
      modifies this`db, this`sl, this`faults, this`ms, this`ss, this`stop
      ensures Valid() && db.log == old(db.log) && SameSlice(old(sl), sl) && sl.value.decision.None?
      ensures early.Some? ==> early.value in {Raised, Stopped(DurabilityStop)}
      ensures early != Some(Stopped(DurabilityStop)) ==> stop == old(stop)
      ensures early == Some(Stopped(DurabilityStop)) ==> InFlightUnder(db, item, sl.value.lease)
      ensures early == Some(Stopped(DurabilityStop)) && old(Quiet(faults)) ==>
                sl.value.work.Answered? && sl.value.work.attempt < |db.attempts|
                && Undurable(reply, db.attempts[sl.value.work.attempt].outcome)
      ensures early.None? ==>
                && reply.Answer? && StopOf(reply) != Some(DurabilityStop)
                && sl.value.work.Ingested? && sl.value.work.item == item && sl.value.work.attempt < |db.attempts|
                && db.attempts[sl.value.work.attempt].outcome == Some(Response(reply.cls, reply.verdict))
      ensures old(Quiet(faults)) ==>
                && Quiet(faults)
                && early == if StopOf(reply) == Some(DurabilityStop) then Some(Stopped(DurabilityStop)) else None
    {
      hide Behaviour, Do, TablesOk, Unique, Inv, HasSuccess, Enabled, Quiet;
      IntentNext(M());
      var ok := RecordIntent();
      if !ok {
        return Some(Raised);
      }
      OutcomeNext(M(), OutcomeOf(reply));
      ok := StoreOutcome(OutcomeOf(reply));
      if !ok && reply.NoJournal? {
        return Some(Raised);
      }
      if !ok || StopOf(reply) == Some(DurabilityStop) {
        Invariant();
        WorkIsInFlight(M());
        stop := Some(DurabilityStop);
        return Some(Stopped(DurabilityStop));
      }
      IngestNext(M());
      ok := FinishRun();
      early := if ok then None else Some(Raised);
    }

    /** The item's event for an ingested answer: what the answer says, unless that is a failure and the evidence says
        better. */
    method AnswerEvent(item: nat, reply: Reply) returns (ok: bool, final: State)
      requires Valid() && Undecided(M(), false) && sl.value.work.Ingested?
      requires item == sl.value.work.item && item in db.log && reply.Answer?
      requires sl.value.work.attempt < |db.attempts|
      requires db.attempts[sl.value.work.attempt].outcome == Some(Response(reply.cls, reply.verdict))
      modifies this`db, this`sl, this`faults, this`ms, this`ss, this`outcomes
      ensures Valid() && OnlyItem(old(db), db, item) && SameSlice(old(sl), sl) && item in db.log
      ensures sl.value.attempted == old(sl.value.attempted)
      ensures ok ==> sl.value.work == Idle && sl.value.decision.None? && Current(db, item) == final
                     && outcomes == old(outcomes) + [(item, final)]
      ensures ok ==> Claims(db.log[item]) == old(Claims(db.log[item]))
      ensures ok ==> AnswerState(db.runs, item, reply.cls, reply.verdict, Claims(old(db.log[item])), old(sl.value.max),
                                 final)
      ensures old(Quiet(faults)) ==> ok && Quiet(faults)
    {
      hide Behaviour, Inv, Decides, HasSuccess, Claims, OnlyItem, SameSlice, Chooses, Quiet, FailedOrBetter, LiveState,
           AnswerState;
      Invariant();
      var w := sl.value.work;
      AnswerChooses(M(), item);
      ghost var (claims, max) := (Claims(db.log[item]), sl.value.max);
      var live := if StopOf(reply) == Some(Stop.Blocked) then State.Blocked
                  else LiveState(reply.cls, db.runs[w.run].status, Claims(db.log[item]), sl.value.max);
      BlocksLive(reply, reply.verdict, claims, max);
      ok, final := FinalOrRetry(ForAnswer, item, live, Some(w.run), Some(w.attempt));
      if ok {
        AnswerRecorded(reply, live, claims, max, db.runs, item, final);
      }
    }

    /** The item's event for an ingested answer, and the stop that answer raises. */
    method RecordAnswer(item: nat, reply: Reply) returns (x: Exit)
      requires Valid() && !closed && Undecided(M(), false) && sl.value.work.Ingested?
      requires item == sl.value.work.item && item in sl.value.attempted && item in db.log && reply.Answer?
      requires sl.value.work.attempt < |db.attempts| && StopOf(reply) != Some(DurabilityStop)
      requires db.attempts[sl.value.work.attempt].outcome == Some(Response(reply.cls, reply.verdict))
      modifies this`db, this`sl, this`faults, this`ms, this`ss, this`outcomes, this`stop
      ensures Ended(old(M()), item, Claims(old(db.log[item])), x)
      ensures EventFits(reply, x, Claims(old(db.log[item])), old(sl.value.max), db, item)
      ensures x == Raised || ExitFits(reply, x)
      ensures x.Recorded? ==> outcomes == old(outcomes) + [(item, x.state)]
      ensures !x.Stopped? ==> stop == old(stop)
      ensures old(Quiet(faults)) ==> x != Raised && Quiet(faults)
    {
      hide Behaviour, Do, Inv, Enabled, Claims, OnlyItem, SameSlice, Quiet, FailedOrBetter;
      ghost var start := M();
      SameSliceIsReflexive(start);
      var ok, state := AnswerEvent(item, reply);
      OnlyItemAfter(start, start, M(), item);
      SuccessOrFailure(db.runs, item, state);
      x := Raised;
      if ok && StopOf(reply).Some? {
        stop := StopOf(reply);
        x := Stopped(stop.value);
      } else if ok {
        x := Recorded(state);
      }
    }

    /** The request of a claim whose F1 run has begun, and the item's event. */
    method Ask(item: nat, reply: Reply) returns (x: Exit)
      requires Valid() && !closed && Enabled(M(), Intent) && item == sl.value.work.item && item in sl.value.attempted
      requires item in db.log && (reply.NoJournal? || reply.Answer?)
      modifies this`db, this`sl, this`faults, this`ms, this`ss, this`outcomes, this`stop
      ensures Ended(old(M()), item, Claims(old(db.log[item])), x)
      ensures EventFits(reply, x, Claims(old(db.log[item])), old(sl.value.max), db, item)
      ensures x in {Raised, Stopped(DurabilityStop)} || ExitFits(reply, x)
      ensures x.Recorded? ==> outcomes == old(outcomes) + [(item, x.state)]
      ensures !x.Stopped? ==> stop == old(stop)
      ensures old(Quiet(faults)) ==> ExitFits(reply, x) && Quiet(faults)
    {
      hide Behaviour, Do, Inv, HasSuccess, Enabled, Claims, OnlyItem, SameSlice, Quiet;
      IntentNext(M());
      ghost var start := M();
      var early := SendRequest(item, reply);
      OnlyItemAfter(start, M(), M(), item);
      if early.Some? {
        return early.value;
      }
      ghost var middle := M();
      x := RecordAnswer(item, reply);
      OnlyItemAfter(start, middle, M(), item);
    }

    /** The admitted request of a claim, from its F1 run to the item's event. */
    method BeginAndAsk(item: nat, reply: Reply) returns (x: Exit)
      requires Valid() && !closed && Enabled(M(), BeginRun) && item == sl.value.work.item && item in sl.value.attempted
      requires item in db.log && !reply.RefusedClaim? && !reply.RefusedAdmission?
      modifies this`db, this`sl, this`faults, this`ms, this`ss, this`outcomes, this`stop
      ensures Ended(old(M()), item, Claims(old(db.log[item])), x)
      ensures EventFits(reply, x, Claims(old(db.log[item])), old(sl.value.max), db, item)
      ensures x in {Raised, Stopped(DurabilityStop)} || ExitFits(reply, x)
      ensures x.Recorded? ==> outcomes == old(outcomes) + [(item, x.state)]
      ensures !x.Stopped? ==> stop == old(stop)
      ensures old(Quiet(faults)) ==> ExitFits(reply, x) && Quiet(faults)
    {
      hide Behaviour, Do, Claims, OnlyItem, SameSlice, EventFits, HasSuccess, Inv, Enabled, Quiet, Decides;
      BeginNext(M());
      ghost var start := M();
      var ok := Begin();
      ghost var begun := M();
      OnlyItemAfter(start, begun, begun, item);
      if !ok {
        NothingRecorded(reply, Claims(db.log[item]), sl.value.max, db, item);
        return Raised;
      }
      BegunNext(M());
      if reply.RefusedRequest? {
        x := Refuse(item);
      } else {
        x := Ask(item, reply);
      }
      OnlyItemAfter(start, begun, M(), item);
    }

    /** From the claim to the item's event. */
    method ClaimAndAsk(item: nat, reply: Reply) returns (x: Exit)
      requires Ready() && Enabled(M(), ClaimItem(item)) && !reply.RefusedClaim?
      modifies this`db, this`sl, this`faults, this`ms, this`ss, this`outcomes, this`stop
      ensures item in old(db.log) && Ended(old(M()), item, Claims(old(db.log[item])) + 1, x)
      ensures EventFits(reply, x, Claims(old(db.log[item])) + 1, old(sl.value.max), db, item)
      ensures x.Stopped? ==> item in sl.value.attempted
      ensures x in {Raised, Stopped(DurabilityStop)} || ExitFits(reply, x)
      ensures x.Recorded? ==> outcomes == old(outcomes) + [(item, x.state)]
      ensures !x.Stopped? ==> stop == old(stop)
      ensures old(Quiet(faults)) ==> ExitFits(reply, x) && Quiet(faults)
    {
      hide Behaviour, Do, Claims, OnlyItem, SameSlice, EventFits, HasSuccess, Inv, Enabled, Quiet, Decides;
      ClaimNext(M(), item);
      ghost var start := M();
      var ok := ClaimFor(item);
      ghost var middle := M();
      ClaimedSlice(start, middle);
      if !ok {
        NothingRecorded(reply, Claims(start.db.log[item]) + 1, sl.value.max, db, item);
        return Raised;
      }
      RefuseNext(M());
      if reply.RefusedAdmission? {
        x := Refuse(item);
        RefusedFits(reply, x, Claims(start.db.log[item]) + 1, middle.slice.value.max, db, item);
      } else {
        x := BeginAndAsk(item, reply);
      }
      ChainAfter(start, middle, M(), item);
    }

    /** discover_one: one governed request for one item of the plan, at most once per slice. A request that HB-2 does
        not refuse at the claim is claimed; handled stops record the item's event before they end the slice; every
        other exception, and there is one only when a commit raises, propagates from some state of the protocol, which
        the next slice recovers. */
    method DiscoverOne(item: nat, reply: Reply) returns (x: Exit)
      requires Valid() && (closed || sl.None? || Ready())
      modifies this`db, this`sl, this`faults, this`ms, this`ss, this`outcomes, this`stop
      ensures Valid() && OnlyItem(old(db), db, item) && (old(sl).Some? ==> SameSlice(old(sl), sl))
      ensures x == Rejected <==> old(closed || sl.None? || item !in plan || item in sl.value.attempted)
      ensures x == Rejected ==> M() == old(M())
      ensures x != Rejected ==> sl.Some?
      ensures x != Rejected && old(RefusedAtClaim(M(), item, reply)) ==>
                x == Stopped(Refused) && M() == old(M()) && stop == old(stop)
      ensures x != Rejected && !old(RefusedAtClaim(M(), item, reply)) && !old(Waits(db, item)) ==>
                x == Raised && M() == old(M())
      ensures x != Rejected && !old(RefusedAtClaim(M(), item, reply)) && old(Waits(db, item)) ==>
                && Ended(old(M()), item, Claims(old(db.log[item])) + 1, x)
                && EventFits(reply, x, Claims(old(db.log[item])) + 1, old(sl.value.max), db, item)
                && (x.Stopped? ==> item in sl.value.attempted)
                && (x in {Raised, Stopped(DurabilityStop)} || ExitFits(reply, x))
                && (old(Quiet(faults)) ==> ExitFits(reply, x))
      ensures old(Quiet(faults)) ==> Quiet(faults)
      ensures x.Recorded? ==> outcomes == old(outcomes) + [(item, x.state)]
      ensures !x.Stopped? ==> stop == old(stop)
    {
      hide Behaviour, Do, EventFits, HasSuccess, Claims, Inv, Quiet, ExitFits;
      if closed || sl.None? || item !in plan || item in sl.value.attempted {
        return Rejected;
      }
      if reply.RefusedClaim? || (item in db.log && Claims(db.log[item]) >= sl.value.max) {
        return Stopped(Refused);
      }
      if item !in db.log || Current(db, item) !in {Pending, RetryWait} {
        return Raised;
      }
      x := ClaimAndAsk(item, reply);
    }

    // -------------------------------------------------------------- the run of a slice

    ghost predicate Reconciled()
      reads this
    {
      IsReconciled(M())
    }

    method ItemRows() returns (rows: seq<nat>)
      ensures forall i :: i in rows <==> i in db.log
    {
      var rest := db.log.Keys;
      rows := [];
      while rest != {}
        invariant rest <= db.log.Keys
        invariant forall i :: i in rows <==> i in db.log && i !in rest
        decreases |rest|
      {
        var i: nat :| i in rest;
        rows := rows + [i];
        rest := rest - {i};
      }
    }

    /** eligible: plan items that may be claimed now. */
    method Eligible() returns (todo: seq<nat>)
      requires sl.Some?
      ensures forall i :: i in todo <==>
                i in plan && i !in sl.value.attempted && Waits(db, i) && Claims(db.log[i]) < sl.value.max
    {
      var rows := ItemRows();
      todo := [];
      for k := 0 to |rows|
        invariant forall i :: i in todo <==>
                    i in rows[..k] && i in plan && i !in sl.value.attempted && Waits(db, i)
                    && Claims(db.log[i]) < sl.value.max
      {
        var i := rows[k];
        if i in plan && i !in sl.value.attempted && Waits(db, i) && Claims(db.log[i]) < sl.value.max {
          todo := todo + [i];
        }
      }
    }

    lemma {:induction false} DrainedIsSettled(todo: seq<nat>)
      requires Ready() && Reconciled() && todo == []
      requires forall i :: i in todo <==>
                 i in plan && i !in sl.value.attempted && Waits(db, i) && Claims(db.log[i]) < sl.value.max
      ensures forall i :: i in db.log && i in plan ==> i in sl.value.attempted || Settled(db, i)
    {
      hide Behaviour, Claims;
      Invariant();
      forall i | i in db.log && i in plan && i !in sl.value.attempted ensures Settled(db, i) {
        assert !WaitsAtMaximum(db, i, sl.value.max);
        assert i !in todo;
        IdleIsSettledOrWaiting(M(), i);
      }
    }

    lemma {:induction false} RecordedKeeps(middle: Machine, item: nat, claims: nat, x: Exit)
      requires IsReconciled(middle) && x.Recorded? && Ended(middle, item, claims, x)
      ensures Reconciled() && Ready() && item in sl.value.attempted
    {
      hide Behaviour, Claims;
      forall i | i in db.log && i !in sl.value.attempted ensures !WaitsAtMaximum(db, i, sl.value.max) {
        assert i != item && db.log[i] == middle.db.log[i] && i !in middle.slice.value.attempted;
        assert !WaitsAtMaximum(middle.db, i, middle.slice.value.max);
      }
    }

    /** The next item of the plan and its request, in a slice that goes on. */
    method Turn(item: nat, reply: Reply) returns (x: Exit)
      requires Ready() && Reconciled() && stop == None && item in plan && item !in sl.value.attempted
      requires Waits(db, item) && Claims(db.log[item]) < sl.value.max
      modifies this`db, this`sl, this`faults, this`ms, this`ss, this`outcomes, this`stop
      ensures Valid() && OnlyItem(old(db), db, item) && SameSlice(old(sl), sl)
      ensures x.Recorded? || x.Stopped? || x == Raised
      ensures x.Recorded? ==> Ready() && Reconciled() && stop == None && item in sl.value.attempted
                              && outcomes == old(outcomes) + [(item, x.state)]
      ensures x.Stopped? ==> stop == Some(x.stop) && (x.stop != DurabilityStop ==> Ready())
      ensures x == Raised ==> stop == None
      ensures x == Stopped(DurabilityStop) || x == Raised || ExitFits(reply, x)
      ensures old(Quiet(faults)) ==> Quiet(faults) && ExitFits(reply, x)
    {
      hide Behaviour, EventFits, HasSuccess, Claims, OnlyItem, SameSlice, Quiet, ExitFits, IsReconciled;
      ghost var start := M();
      RefusalFits(reply);
      x := DiscoverOne(item, reply);
      if x.Recorded? {
        RecordedKeeps(start, item, Claims(start.db.log[item]) + 1, x);
      }
      if x.Stopped? {
        stop := Some(x.stop);
      }
    }

    /** run: one claim per item, until the plan is drained, a bound is hit, a stop ends the slice, or an exception
        leaves it. Drained, every item of the plan was claimed in this slice or is final or blocked; and it is drained
        whenever no commit raises, nothing bounds it, and no reply stops it. */
    method RunSlice(maxItems: Option<nat>, replies: nat -> Reply) returns (raised: bool, bounded: bool)
      requires Ready() && Reconciled() && stop == None
      modifies this`db, this`sl, this`faults, this`ms, this`ss, this`outcomes, this`stop
      ensures Valid() && SameSlice(old(sl), sl) && db.log.Keys == old(db.log.Keys)
      ensures !raised && stop != Some(DurabilityStop) ==> Ready()
      ensures !raised && !bounded && stop == None ==>
                forall i :: i in db.log && i in plan ==> i in sl.value.attempted || Settled(db, i)
      ensures bounded ==> maxItems.Some? && |outcomes| == |old(outcomes)| + maxItems.value
      ensures stop.Some? ==>
                SomeReplyStops(replies, stop.value) || (stop == Some(DurabilityStop) && !old(Quiet(faults)))
      ensures raised ==> !old(Quiet(faults))
      ensures old(Quiet(faults)) ==> Quiet(faults)
    {
      hide Behaviour, Ended, OnlyItem, IsReconciled, EventFits, HasSuccess, Settled, Claims, Quiet, SameSlice,
           ExitFits, Waits;
      raised, bounded := false, false;
      var n := 0;
      ghost var start := M();
      ghost var quiet := Quiet(faults);
      SameSliceIsReflexive(start);
      while true
        invariant Ready() && Reconciled() && stop == None && !raised && !bounded && (quiet ==> Quiet(faults))
        invariant SameSlice(start.slice, sl) && db.log.Keys == start.db.log.Keys
        invariant |outcomes| == |old(outcomes)| + n && (maxItems.Some? ==> n <= maxItems.value)
        decreases plan - sl.value.attempted
      {
        if maxItems.Some? && n >= maxItems.value {
          bounded := true;
          return;
        }
        var todo := Eligible();
        if todo == [] {
          DrainedIsSettled(todo);
          return;
        }
        var item := todo[0];
        ghost var middle := M();
        var x := Turn(item, replies(n));
        StillSame(start, middle, M(), item);
        TriedMore(middle.slice, sl);
        if !x.Recorded? {
          raised := x == Raised;
          StopsOrRaises(replies, n, x, quiet);
          return;
        }
        n := n + 1;
      }
    }

    /** A drained slice serves every item of its plan, in the sense in which three slices and one more settle it. */
    lemma {:induction false} DrainedServes(item: nat)
      requires Valid() && sl.Some? && (item in sl.value.attempted || Settled(db, item))
      ensures Served(ms, ss, |before| - 1, |ms| - 1, item)
    {
      BehaviourLength(ms, ss);
      assert !Tried(ms[|before| - 1], item);
      if item in sl.value.attempted {
        TriedWasClaimed(ms, ss, |before| - 1, |ms| - 1, item);
      }
    }

    // -------------------------------------------------------------- reconciliation

    /** open_slice: the dead lease is expired, spool first, and then this slice's own lease is opened. */
    method Open(max: nat, spool: map<nat, Outcome>) returns (ok: bool)
      requires Valid() && sl.None? && !closed && 1 <= max <= ITEM_MAX_ATTEMPTS && SpoolOk(spool)
      modifies this`db, this`sl, this`faults, this`ms, this`ss
      ensures Valid() && db.log.Keys == old(db.log.Keys)
      ensures ok ==> sl == Some(Slice(old(|db.leases|), max, {}, true, Idle, None))
      ensures !ok && sl.Some? ==> sl.value.work == Idle
      ensures old(Quiet(faults)) ==> ok && Quiet(faults)
    {
      hide Behaviour, Do, Quiet;
      ghost var quiet := Quiet(faults);
      for l := 0 to |db.leases|
        invariant Valid() && sl.None? && |db.leases| == old(|db.leases|) && (quiet ==> Quiet(faults))
        invariant db.log.Keys == old(db.log.Keys)
        invariant forall k :: 0 <= k < l ==> db.leases[k] != Active
      {
        if db.leases[l] == Active {
          var after := Machine(db.(leases := db.leases[l := Expired], attempts := Recovered(db.attempts, l, spool),
                                   log := AbandonAll(db, l), now := db.now + 1), None);
          ExpireIs(M(), l, spool, after);
          ok := Commit(after, ExpireLease(l, spool));
          if !ok {
            return;
          }
        }
      }
      var lease := |db.leases|;
      var after := Machine(db.(leases := db.leases + [Active]), Some(Slice(lease, max, {}, true, Idle, None)));
      OpenIs(M(), max, after);
      ok := Commit(after, OpenLease(max));
    }

    /** reconcile: abandoned items from evidence, then G10. Afterwards no item is abandoned, and none waits at the armed
        maximum: nothing is skipped. Every item ends as its own evidence and claims say, or is not touched. */
    method Reconcile() returns (ok: bool)
      requires Valid() && Undecided(M(), true)
      modifies this`db, this`sl, this`faults, this`ms, this`ss
      ensures Valid() && SameSlice(old(sl), sl) && db.log.Keys == old(db.log.Keys)
      ensures ok ==> sl == old(sl) && Reconciled() && forall i :: i in db.log ==> !WaitsAtMaximum(db, i, sl.value.max)
      ensures ok ==> forall i :: i in db.log ==> EndsReconciled(old(db), db, i, sl.value.max)
      ensures old(Quiet(faults)) ==> ok && Quiet(faults)
    {
      hide Behaviour, Claims, Quiet, EndsReconciled, PromotedAs, OnlyRunsOf, OnlyItem;
      ghost var (start, quiet) := (db, Quiet(faults));
      SameSliceIsReflexive(M());
      var rows := ItemRows();
      NothingPromoted(db);
      for k := 0 to |rows|
        invariant Valid() && sl == old(sl) && db.log.Keys == start.log.Keys && (quiet ==> Quiet(faults))
        invariant forall i :: i in rows[..k] ==> Current(db, i) != Abandoned
        invariant forall i :: i in db.log ==> PromotedAs(start, db, i, i in rows[..k])
      {
        assert rows[..k + 1] == rows[..k] + [rows[k]];
        ghost var middle := db;
        if Current(db, rows[k]) == Abandoned {
          ok := ReconcileAbandoned(rows[k]);
          KeysAfter(middle, db, rows[k]);
          if !ok {
            return;
          }
          StillElsewhere(middle, db, rows[k]);
          OneMorePromoted(start, middle, db, rows, k);
        } else {
          NoneMorePromoted(start, db, rows, k);
        }
      }
      ghost var middle := db;
      AllPromoted(start, middle, rows);
      ok := TerminaliseAll(rows);
      if ok {
        BothPhases(start, middle, db, sl.value.max);
      }
    }

    /** G10 for every item that waits at the armed maximum, and for no other. */
    method TerminaliseAll(rows: seq<nat>) returns (ok: bool)
      requires Valid() && Undecided(M(), true) && (forall i :: i in rows <==> i in db.log)
      requires forall i :: i in db.log ==> Current(db, i) != Abandoned
      modifies this`db, this`sl, this`faults, this`ms, this`ss
      ensures Valid() && SameSlice(old(sl), sl) && db.log.Keys == old(db.log.Keys)
      ensures ok ==> sl == old(sl) && db.runs == old(db.runs)
      ensures ok ==> forall i :: i in db.log ==> Current(db, i) != Abandoned && !WaitsAtMaximum(db, i, sl.value.max)
      ensures ok ==> forall i :: i in db.log ==> FinalisedAs(old(db), db, i, sl.value.max)
      ensures old(Quiet(faults)) ==> ok && Quiet(faults)
    {
      hide Behaviour, Claims, OnlyItem, WaitsAtMaximum, Quiet, FinalisedAs, FailedOrBetter;
      ghost var (first, quiet) := (db, Quiet(faults));
      SameSliceIsReflexive(M());
      NothingFinalised(db, sl.value.max);
      for k := 0 to |rows|
        invariant Valid() && sl == old(sl) && db.log.Keys == first.log.Keys && (quiet ==> Quiet(faults))
        invariant Processed(db, rows[..k], sl.value.max) && db.runs == first.runs
        invariant forall i :: i in db.log ==> FinalisedAs(first, db, i, sl.value.max) || db.log[i] == first.log[i]
      {
        ghost var start := db;
        DueIs(db, rows[k], sl.value.max);
        if Waits(db, rows[k]) && Claims(db.log[rows[k]]) >= sl.value.max {
          var final;
          ok, final := Terminalise(rows[k]);
          KeysAfter(start, db, rows[k]);
          if !ok {
            return;
          }
          DueIs(db, rows[k], sl.value.max);
          OneMoreFinalised(first, start, db, rows[k], sl.value.max);
        }
        OneMoreProcessed(start, db, rows, k, sl.value.max);
      }
      assert rows[..|rows|] == rows;
      AllFinalised(first, db, rows, sl.value.max);
      ok := true;
    }

    /** The runs of an abandoned item's claims are finished from their responses, oldest claim first. */
    method FinishClaims(item: nat) returns (ok: bool)
      requires Valid() && Undecided(M(), true) && Current(db, item) == Abandoned
      modifies this`db, this`sl, this`faults, this`ms, this`ss
      ensures Valid() && db.log == old(db.log) && sl == old(sl) && OnlyRunsOf(old(db.runs), db.runs, item)
      ensures ok ==> ClaimEvents(db.log[item]) != [] && ClaimIngested(db, item, Last(ClaimEvents(db.log[item])))
      ensures ok ==> Last(ClaimEvents(db.log[item])).lease == Last(db.log[item]).lease
      ensures old(Quiet(faults)) ==> ok && Quiet(faults)
    {
      hide Behaviour, Inv, HasSuccess, EvidenceSettled, ClaimIngested, Do, Enabled, Quiet;
      ghost var quiet := Quiet(faults);
      var claims := ClaimEvents(db.log[item]);
      for k := 0 to |claims|
        invariant Valid() && sl == old(sl) && db.log == old(db.log) && (quiet ==> Quiet(faults))
        invariant OnlyRunsOf(old(db.runs), db.runs, item)
        invariant k > 0 && !claims[k - 1].terminal ==> ClaimIngested(db, item, claims[k - 1])
      {
        Invariant();
        var e := claims[k];
        var r := FindRun(db.runs, item, e.at, |db.runs|);
        var a := if e.lease.Some? then LastAttempt(db.attempts, item, e.lease.value, |db.attempts|) else None;
        if !e.terminal {
          ClaimIsIngested(M(), item, k);
        }
        if r.Some? && db.runs[r.value].status == Running && a.Some? {
          FinishAbandonedNext(M(), item, k);
          ok := Commit(Machine(FinishFromLedger(db, r.value, a.value), sl), FinishAbandoned(item, r.value, a.value));
          if !ok {
            return;
          }
        }
      }
      Invariant();
      AbandonedHasAClaim(M(), item);
      ok := true;
    }

    /** _reconcile_abandoned: after that the item is promoted to what the evidence says, or back to pending. */
    method ReconcileAbandoned(item: nat) returns (ok: bool)
      requires Valid() && Undecided(M(), true) && Current(db, item) == Abandoned
      modifies this`db, this`sl, this`faults, this`ms, this`ss
      ensures Valid() && OnlyItem(old(db), db, item) && SameSlice(old(sl), sl)
      ensures ok ==> sl == old(sl) && item in db.log && Current(db, item) in {Pending, Succeeded, Partial}
      ensures ok ==> if HasSuccess(db, item) then EvidenceSays(db.runs, item, Current(db, item))
                     else Current(db, item) == Pending
      ensures ok ==> Claims(db.log[item]) == Claims(old(db.log[item])) && OnlyRunsOf(old(db.runs), db.runs, item)
      ensures old(Quiet(faults)) ==> ok && Quiet(faults)
    {
      hide Behaviour, Inv, HasSuccess, OnlyItem, SameSlice, ClaimIngested, Do, Enabled, Quiet, Decides, PromoteDecision;
      SameSliceIsReflexive(M());
      ghost var start := M();
      ok := FinishClaims(item);
      ghost var middle := M();
      OnlyItemAfter(start, middle, middle, item);
      if !ok {
        return;
      }
      var d := PromoteDecision(db, item);
      PromoteNext(M(), item, d);
      Advance(Machine(db, Some(sl.value.(decision := Some(d)))), Decide(ForPromotion, item));
      PromoteIs(middle, M(), item, d);
      ghost var decided := M();
      ok := Commit(Machine(Append(db, item, EventOf(d, ItemStates.Promote, None, db.now)),
                           Some(sl.value.(decision := None))), PromoteItem(item));
      PromotedOnly(middle, decided, M(), item, d);
      OnlyItemAfter(start, middle, M(), item);
    }

    /** terminalise: G10 in one transaction and without a request; None when a precondition fails. */
    method Terminalise(item: nat) returns (ok: bool, final: Option<State>)
      requires Valid() && Undecided(M(), true) && item in db.log
      modifies this`db, this`sl, this`faults, this`ms, this`ss
      ensures Valid() && OnlyItem(old(db), db, item) && SameSlice(old(sl), sl)
      ensures ok ==> sl == old(sl) && (final.Some? <==> old(WaitsAtMaximum(db, item, sl.value.max)))
      ensures ok && final.Some? ==> Current(db, item) == final.value && final.value in {Succeeded, Partial, Failed}
                                    && (final.value == Failed <==> !HasSuccess(db, item))
                                    && FailedOrBetter(db.runs, item, final.value)
      ensures ok ==> db.runs == old(db.runs)
      ensures ok && final.None? ==> M() == old(M())
      ensures old(Quiet(faults)) ==> ok && Quiet(faults)
    {
      hide Behaviour, Inv, HasSuccess, OnlyItem, SameSlice, Claims, Do, Enabled, FinalDecision, OpenAttempts, Quiet,
           Decides;
      SameSliceIsReflexive(M());
      UnchangedIsOnly(M(), item);
      if Current(db, item) !in {Pending, RetryWait} || Claims(db.log[item]) < sl.value.max {
        return true, None;
      }
      Invariant();
      NoOpenAttempts(M(), item);
      if OpenAttempts(db, item) != {} {
        return true, None;
      }
      ghost var start := M();
      var (state, run) := FinalDecision(db, item);
      var d := Decision(ForTerminal, item, state, run, None);
      TerminalNext(M(), item, d);
      Advance(Machine(db, Some(sl.value.(decision := Some(d)))), Decide(ForTerminal, item));
      ghost var decided := M();
      TerminalIs(start, decided, item, d);
      var after := db;
      if Current(db, item) == Pending || state in {Succeeded, Partial} {
        after := Append(after, item, Event(Requesting, Claim, Some(sl.value.lease), after.now, None, None, true));
        after := Append(after, item, Event(state, Record, Some(sl.value.lease), after.now, run, None, false));
      } else {
        after := Append(after, item, Event(state, Record, None, after.now, run, None, false));
      }
      ok := Commit(Machine(after, Some(sl.value.(decision := None))), TerminalClaim(item));
      TerminalKeeps(start, decided, M(), item, d);
      final := Some(state);
    }

    // -------------------------------------------------------------- entering and closing

    /** __enter__: open the slice and reconcile; a slice that cannot be reconciled is closed at once. */
    method Enter(max: nat, spool: map<nat, Outcome>) returns (ok: bool)
      requires Valid() && sl.None? && !closed && stop == None && 1 <= max <= ITEM_MAX_ATTEMPTS && SpoolOk(spool)
      modifies this
      ensures Valid() && db.log.Keys == old(db.log.Keys) && plan == old(plan)
      ensures ok ==> Ready() && Reconciled() && stop == None && sl.value.attempted == {} && sl.value.max == max
      ensures ok ==> forall i :: i in db.log ==>
                Settled(db, i) || (Current(db, i) in {Pending, RetryWait} && Claims(db.log[i]) < max)
      ensures !ok ==> (closed <==> sl.Some?)
      ensures old(Quiet(faults)) ==> ok && Quiet(faults)
    {
      hide Behaviour, Claims, Do, Inv, IsReconciled, WaitsAtMaximum, Quiet;
      ok := Open(max, spool);
      if ok {
        ok := Reconcile();
        if ok {
          Start(max);
        } else {
          var _ := Close(true, false);
        }
      } else {
        closed := sl.Some?;
      }
    }

    /** The reconciliation is over: the slice may claim. */
    method Start(max: nat)
      requires Valid() && Undecided(M(), true) && !closed && sl.value.work == Idle && sl.value.max == max
      requires Reconciled() && forall i :: i in db.log ==> !WaitsAtMaximum(db, i, max)
      modifies this`db, this`sl, this`ms, this`ss
      ensures Ready() && Reconciled() && sl == Some(old(sl).value.(reconciling := false)) && db == old(db)
      ensures forall i :: i in db.log ==>
                Settled(db, i) || (Current(db, i) in {Pending, RetryWait} && Claims(db.log[i]) < max)
    {
      hide Behaviour, Claims, Do, Inv;
      EndNext(M());
      Advance(Machine(db, Some(sl.value.(reconciling := false))), EndReconcile);
      Invariant();
      forall i | i in db.log
        ensures Settled(db, i) || (Current(db, i) in {Pending, RetryWait} && Claims(db.log[i]) < max)
      {
        IdleIsSettledOrWaiting(M(), i);
        assert !WaitsAtMaximum(db, i, max);
      }
    }

    /** in_flight_items and open_attempts: whether the lease may not be released. */
    method Busy(lease: nat) returns (busy: bool)
      ensures busy <==> LeaseBusy(db, lease)
    {
      var inFlight := set i | i in db.log && InFlightUnder(db, i, lease);
      var open := set a: nat | a < |db.attempts| && db.attempts[a].lease == lease && db.attempts[a].outcome == None;
      InFlightSet(db, lease, inFlight);
      OpenSet(db, lease, open);
      busy := inFlight != {} || open != {};
    }

    /** close (G2): the lease is released exactly when nothing of it is in flight and every attempt has an outcome, as
        far as can be verified, and neither a DurabilityStop nor another exception ended the slice. Otherwise it stays
        active for the next slice to expire. */
    method Close(unexpected: bool, unreadable: bool) returns (raised: bool)
      requires Valid()
      modifies this`db, this`sl, this`faults, this`ms, this`ss, this`closed, this`leaseKept
      ensures Valid() && (old(sl).Some? ==> closed) && db.log == old(db.log) && old(ms) <= ms && old(ss) <= ss
      ensures old(closed) || old(sl).None? ==> M() == old(M()) && !raised
      ensures unexpected || unreadable || stop == Some(DurabilityStop) ==> !raised
      ensures !old(closed) && old(sl).Some? && !raised ==>
                (leaseKept <==> unexpected || unreadable || stop == Some(DurabilityStop)
                                || LeaseBusy(old(db), old(sl).value.lease))
      ensures !old(closed) && old(sl).Some? && !raised && leaseKept ==> M() == old(M())
      ensures !old(closed) && old(sl).Some? && !raised && !leaseKept ==>
                sl.None? && ReleasedOnly(old(db), db, old(sl).value.lease)
      ensures old(Quiet(faults)) ==> !raised && Quiet(faults)
    {
      hide Behaviour, Do, Inv, LeaseBusy, InFlightUnder, Enabled, Quiet;
      raised := false;
      if closed || sl.None? {
        return;
      }
      closed := true;
      Invariant();
      var busy := Busy(sl.value.lease);
      if unreadable || busy || unexpected || stop == Some(DurabilityStop) {
        leaseKept := true;
        return;
      }
      CloseNext(M());
      var ok := Commit(Machine(db.(leases := db.leases[sl.value.lease := Released]), None), CloseSlice);
      leaseKept := false;
      raised := !ok;
    }

    ghost predicate ServesPlan()
      reads this
    {
      0 < |before| <= |ms| && forall i :: i in db.log && i in plan ==> Served(ms, ss, |before| - 1, |ms| - 1, i)
    }

    /** The run of a slice without a bound, and what it serves when nothing ends it. */
    method RunWhole(replies: nat -> Reply) returns (raised: bool)
      requires Ready() && Reconciled() && stop == None
      modifies this`db, this`sl, this`faults, this`ms, this`ss, this`outcomes, this`stop
      ensures Valid() && sl.Some? && db.log.Keys == old(db.log.Keys)
      ensures !raised && stop == None ==> ServesPlan() && !LeaseBusy(db, sl.value.lease)
      ensures old(Quiet(faults)) && (forall n: nat :: Goes(replies(n))) ==> !raised && stop == None && Quiet(faults)
    {
      hide Behaviour, Inv, IsReconciled, Quiet, LeaseBusy, Served, Settled, SomeReplyStops;
      var bounded;
      raised, bounded := RunSlice(None, replies);
      if (forall n: nat :: Goes(replies(n))) && stop.Some? {
        AllGo(replies, stop.value);
      }
      if !raised && stop == None {
        Invariant();
        IdleIsNotBusy(M());
        HistoryLength();
        forall i | i in db.log && i in plan ensures Served(ms, ss, |before| - 1, |ms| - 1, i) {
          DrainedServes(i);
        }
      }
    }

    /** The whole slice: entered, run without a bound, closed. If no commit raises and no reply stops it, it serves
        every item of its plan and releases its lease. */
    method Work(max: nat, spool: map<nat, Outcome>, replies: nat -> Reply, unreadable: bool) returns (whole: bool)
      requires Valid() && sl.None? && !closed && stop == None && 1 <= max <= ITEM_MAX_ATTEMPTS && SpoolOk(spool)
      modifies this
      ensures Valid() && db.log.Keys == old(db.log.Keys) && plan == old(plan)
      ensures whole ==> sl.None? && ServesPlan()
      ensures old(Quiet(faults)) && !unreadable && (forall n: nat :: Goes(replies(n))) ==> whole
    {
      hide Behaviour, Claims, IsReconciled, Quiet, LeaseBusy, Served, Settled, ReleasedOnly;
      whole := Enter(max, spool);
      if !whole {
        return;
      }
      var raised := RunWhole(replies);
      whole := !raised && stop == None;
      ghost var (was, steps) := (ms, ss);
      var threw := Close(raised, unreadable);
      whole := whole && !threw && sl.None?;
      if whole {
        HistoryLength();
        forall i | i in db.log && i in plan ensures Served(ms, ss, |before| - 1, |ms| - 1, i) {
          ServedStays(was, steps, ms, ss, |before| - 1, i);
        }
      }
    }

    lemma {:induction false} HistoryLength()
      requires Valid()
      ensures |before| >= 1 && |ms| >= |before| && |ms| == |ss| + 1
    {
      BehaviourLength(ms, ss);
    }
  }

  /** What a slice served stays served when it closes. */
  lemma {:induction false} ServedStays(ms: seq<Machine>, ss: seq<Step>, ns: seq<Machine>, ts: seq<Step>, i: nat,
                                       item: nat)
    requires Behaviour(ms, ss) && Behaviour(ns, ts) && ms <= ns && ss <= ts && i < |ms|
    requires Served(ms, ss, i, |ms| - 1, item) && ns[|ns| - 1].db.log == ms[|ms| - 1].db.log
    ensures Served(ns, ts, i, |ns| - 1, item)
  {
    if ClaimedIn(ss, i, |ms| - 1, item) {
      var k :| i <= k < |ms| - 1 <= |ss| && ss[k] == ClaimItem(item);
      assert ts[k] == ClaimItem(item);
    }
  }

  predicate Tried(m: Machine, item: nat) {
    m.slice.Some? && item in m.slice.value.attempted
  }

  lemma {:induction false} TriedWasClaimed(ms: seq<Machine>, ss: seq<Step>, i: nat, j: nat, item: nat)
    requires Behaviour(ms, ss) && i <= j < |ms| && !Tried(ms[i], item) && Tried(ms[j], item)
    ensures ClaimedIn(ss, i, j, item)
    decreases j
  {
    assert Follows(ms[j - 1], ss[j - 1], ms[j - 1 + 1]);
    if Tried(ms[j - 1], item) {
      TriedWasClaimed(ms, ss, i, j - 1, item);
    } else {
      OnlyAClaimTries(ms[j - 1], ss[j - 1], item);
    }
  }

  lemma {:induction false} OnlyAClaimTries(m: Machine, s: Step, item: nat)
    requires Enabled(m, s) && !Tried(m, item) && Tried(Do(m, s), item)
    ensures s == ClaimItem(item)
  {
  }

  /** No run but this request's differs. */
  ghost predicate OnlyRunsOf(before: seq<Run>, after: seq<Run>, request: nat) {
    |before| == |after| && forall r: nat :: r < |before| ==>
      after[r].request == before[r].request && (before[r].request != request ==> after[r] == before[r])
  }

  /** What becomes of an item in the reconciliation. Abandoned below the maximum it ends as its evidence says, or
      pending if there is none; abandoned or waiting at the maximum it fails, unless the evidence says better; any
      other item keeps its log. */
  ghost predicate EndsReconciled(before: Db, after: Db, i: nat, max: nat) {
    i in before.log && i in after.log &&
    var (was, ends, claims) := (Current(before, i), Current(after, i), Claims(before.log[i]));
    if was == Abandoned && claims < max then
      if HasSuccess(after, i) then EvidenceSays(after.runs, i, ends) else ends == Pending
    else if was in {Abandoned, Pending, RetryWait} && claims >= max then FailedOrBetter(after.runs, i, ends)
    else after.log[i] == before.log[i]
  }

  /** The first phase, for an item that had its turn or not. */
  ghost predicate PromotedAs(before: Db, after: Db, i: nat, done: bool) {
    i in before.log && i in after.log &&
    if done && Current(before, i) == Abandoned then
      && Claims(after.log[i]) == Claims(before.log[i])
      && if HasSuccess(after, i) then EvidenceSays(after.runs, i, Current(after, i)) else Current(after, i) == Pending
    else after.log[i] == before.log[i]
  }

  /** The second phase. */
  ghost predicate FinalisedAs(before: Db, after: Db, i: nat, max: nat) {
    i in before.log && i in after.log &&
    if WaitsAtMaximum(before, i, max) then FailedOrBetter(after.runs, i, Current(after, i))
    else after.log[i] == before.log[i]
  }

  lemma {:induction false} NothingPromoted(db: Db)
    ensures forall i :: i in db.log ==> PromotedAs(db, db, i, false)
  {
  }

  lemma {:induction false} StillElsewhere(before: Db, after: Db, item: nat)
    requires OnlyItem(before, after, item) && OnlyRunsOf(before.runs, after.runs, item)
    ensures before.log.Keys == after.log.Keys
    ensures forall i :: i in before.log && i != item ==>
              after.log[i] == before.log[i] && SameEvidence(before, after, i)
  {
    forall i | i in before.log && i != item ensures SameEvidence(before, after, i) {
      OthersEvidence(before, after, item, i);
    }
  }

  ghost predicate SameEvidence(before: Db, after: Db, i: nat) {
    && HasSuccess(after, i) == HasSuccess(before, i)
    && EvidenceSays(after.runs, i, Succeeded) == EvidenceSays(before.runs, i, Succeeded)
    && EvidenceSays(after.runs, i, Partial) == EvidenceSays(before.runs, i, Partial)
  }

  lemma {:induction false} OthersEvidence(before: Db, after: Db, item: nat, i: nat)
    requires OnlyRunsOf(before.runs, after.runs, item) && i != item
    ensures SameEvidence(before, after, i)
  {
    forall r: nat ensures IsEvidence(before.runs, i, r) == IsEvidence(after.runs, i, r) {
    }
  }

  lemma {:induction false} OneMorePromoted(start: Db, middle: Db, after: Db, rows: seq<nat>, k: nat)
    requires k < |rows| && (forall i :: i in middle.log ==> PromotedAs(start, middle, i, i in rows[..k]))
    requires rows[k] in middle.log && Current(middle, rows[k]) == Abandoned
    requires forall i :: i in rows[..k] ==> Current(middle, i) != Abandoned
    requires after.log.Keys == middle.log.Keys == start.log.Keys
    requires forall i :: i in middle.log && i != rows[k] ==>
               after.log[i] == middle.log[i] && SameEvidence(middle, after, i)
    requires Claims(after.log[rows[k]]) == Claims(middle.log[rows[k]])
    requires if HasSuccess(after, rows[k]) then EvidenceSays(after.runs, rows[k], Current(after, rows[k]))
             else Current(after, rows[k]) == Pending
    ensures forall i :: i in after.log ==> PromotedAs(start, after, i, i in rows[..k + 1])
  {
    hide Claims, HasSuccess;
    assert rows[..k + 1] == rows[..k] + [rows[k]];
    forall i | i in after.log ensures PromotedAs(start, after, i, i in rows[..k + 1]) {
      assert PromotedAs(start, middle, i, i in rows[..k]);
    }
  }

  lemma {:induction false} NoneMorePromoted(start: Db, db: Db, rows: seq<nat>, k: nat)
    requires k < |rows| && (forall i :: i in db.log ==> PromotedAs(start, db, i, i in rows[..k]))
    requires rows[k] in db.log && Current(db, rows[k]) != Abandoned
    ensures forall i :: i in db.log ==> PromotedAs(start, db, i, i in rows[..k + 1])
  {
    hide Claims, HasSuccess, EvidenceSays;
    assert rows[..k + 1] == rows[..k] + [rows[k]];
    forall i | i in db.log ensures PromotedAs(start, db, i, i in rows[..k + 1]) {
      assert PromotedAs(start, db, i, i in rows[..k]);
    }
  }

  lemma {:induction false} AllPromoted(start: Db, db: Db, rows: seq<nat>)
    requires forall i :: i in rows <==> i in start.log
    requires start.log.Keys == db.log.Keys
    requires forall i :: i in db.log ==> PromotedAs(start, db, i, i in rows[..|rows|])
    ensures forall i :: i in db.log ==> PromotedAs(start, db, i, true)
  {
    hide PromotedAs;
    assert rows[..|rows|] == rows;
  }

  lemma {:induction false} NothingFinalised(db: Db, max: nat)
    ensures forall i :: i in db.log && !WaitsAtMaximum(db, i, max) ==> FinalisedAs(db, db, i, max)
  {
  }

  lemma {:induction false} OneMoreFinalised(first: Db, start: Db, after: Db, item: nat, max: nat)
    requires OnlyItem(start, after, item) && after.runs == start.runs
    requires first.log.Keys == start.log.Keys && item in start.log && WaitsAtMaximum(start, item, max)
    requires FailedOrBetter(after.runs, item, Current(after, item))
    requires forall i :: i in start.log ==> FinalisedAs(first, start, i, max) || start.log[i] == first.log[i]
    ensures forall i :: i in after.log ==> FinalisedAs(first, after, i, max) || after.log[i] == first.log[i]
  {
    hide Claims, FailedOrBetter;
  }

  lemma {:induction false} AllFinalised(first: Db, db: Db, rows: seq<nat>, max: nat)
    requires first.log.Keys == db.log.Keys && Processed(db, rows, max) && forall i :: i in rows <==> i in db.log
    requires forall i :: i in db.log ==> FinalisedAs(first, db, i, max) || db.log[i] == first.log[i]
    ensures forall i :: i in db.log ==> FinalisedAs(first, db, i, max)
  {
    hide Claims, FailedOrBetter;
  }

  /** The two phases together. */
  lemma {:induction false} BothPhases(before: Db, middle: Db, after: Db, max: nat)
    requires before.log.Keys == middle.log.Keys == after.log.Keys && middle.runs == after.runs
    requires forall i :: i in middle.log ==> PromotedAs(before, middle, i, true)
    requires forall i :: i in after.log ==> FinalisedAs(middle, after, i, max)
    ensures forall i :: i in after.log ==> EndsReconciled(before, after, i, max)
  {
    hide Claims, FailedOrBetter, EvidenceSays;
    forall i | i in after.log ensures EndsReconciled(before, after, i, max) {
      assert PromotedAs(before, middle, i, true) && FinalisedAs(middle, after, i, max);
      PhasesOf(before, middle, after, i, max);
    }
  }

  lemma {:induction false} PhasesOf(before: Db, middle: Db, after: Db, i: nat, max: nat)
    requires i in after.log && middle.runs == after.runs
    requires PromotedAs(before, middle, i, true) && FinalisedAs(middle, after, i, max)
    ensures EndsReconciled(before, after, i, max)
  {
    hide Claims, HasSuccess, IsEvidence;
    SameRunsSameEvidence(middle, after, i);
    SuccessIsEvidence(middle, i);
  }

  /** No item is abandoned, and none of these waits at the maximum. */
  ghost predicate Processed(db: Db, rows: seq<nat>, max: nat) {
    (forall i :: i in db.log ==> Current(db, i) != Abandoned) && (forall i :: i in rows ==> !WaitsAtMaximum(db, i, max))
  }

  lemma {:induction false} OneMoreProcessed(before: Db, after: Db, rows: seq<nat>, k: nat, max: nat)
    requires k < |rows| && Processed(before, rows[..k], max) && (before == after || OnlyItem(before, after, rows[k]))
    requires Current(after, rows[k]) != Abandoned && !WaitsAtMaximum(after, rows[k], max)
    ensures Processed(after, rows[..k + 1], max)
  {
    assert rows[..k + 1] == rows[..k] + [rows[k]];
    forall i | i in rows[..k + 1] ensures !WaitsAtMaximum(after, i, max) {
      assert i in rows[..k] ==> !WaitsAtMaximum(before, i, max);
    }
  }

  lemma {:induction false} DueIs(db: Db, item: nat, max: nat)
    requires item in db.log
    ensures WaitsAtMaximum(db, item, max) <==> Current(db, item) in {Pending, RetryWait} && Claims(db.log[item]) >= max
  {
  }

  lemma {:induction false} KeysAfter(before: Db, after: Db, item: nat)
    requires OnlyItem(before, after, item)
    ensures before.log.Keys == after.log.Keys
  {
  }

  predicate WaitsAtMaximum(db: Db, item: nat, max: nat) {
    item in db.log && Current(db, item) in {Pending, RetryWait} && Claims(db.log[item]) >= max
  }

  /** What the reconciliation leaves and every request keeps: no item is abandoned, and one that waits at the armed
      maximum was tried in this slice. */
  ghost predicate IsReconciled(m: Machine) {
    && m.slice.Some? && (forall i :: i in m.db.log ==> Current(m.db, i) != Abandoned)
    && forall i :: i in m.db.log && i !in m.slice.value.attempted ==> !WaitsAtMaximum(m.db, i, m.slice.value.max)
  }

  /** While a slice is idle an item is settled, abandoned or waiting. */
  lemma {:induction false} IdleIsSettledOrWaiting(m: Machine, i: nat)
    requires Inv(m) && m.slice.Some? && m.slice.value.work == Idle && i in m.db.log
    ensures Settled(m.db, i) || Current(m.db, i) in {Pending, RetryWait, Abandoned}
  {
    hide EventOk, RunOk, AttemptOk, Unique, Claims, RequestClaims;
    assert LogOk(m.db, i);
  }

  ghost predicate SameSlice(before: Option<Slice>, after: Option<Slice>) {
    before.Some? && after.Some? && before.value.lease == after.value.lease && before.value.max == after.value.max
    && before.value.reconciling == after.value.reconciling && before.value.attempted <= after.value.attempted
  }

  /** The state, run and attempt the code passes to _final_or_retry on this occasion. */
  ghost predicate Chooses(m: Machine, kind: DecisionKind, item: nat, state: State, run: Option<nat>,
                          attempt: Option<nat>) {
    && m.slice.Some? && item in m.db.log && (run.Some? ==> run.value < |m.db.runs|)
    && var (w, claims, max) := (m.slice.value.work, Claims(m.db.log[item]), m.slice.value.max);
       match kind
       case ForAnswer =>
         && w.Ingested? && run == Some(w.run) && attempt == Some(w.attempt) && w.attempt < |m.db.attempts|
         && Ingestible(m.db.attempts[w.attempt].outcome)
         && state == LiveState(m.db.attempts[w.attempt].outcome.value.cls, m.db.runs[w.run].status, claims, max)
       case ForRefusal =>
         && run == (if w.Begun? then Some(w.run) else None) && attempt == None
         && state == if claims >= max then Failed else RetryWait
       case _ => false
  }

  /** The decision the code takes is the protocol's. */
  lemma {:induction false} ChoiceIsTheDecision(m: Machine, kind: DecisionKind, item: nat, state: State,
                                               run: Option<nat>, attempt: Option<nat>)
    requires Inv(m) && Decides(m, kind, item) && Chooses(m, kind, item, state, run, attempt)
    ensures DecisionNow(m, kind, item) == OutcomeDecision(m.db, kind, item, state, run, attempt)
    ensures m.slice.value.work != Idle && m.slice.value.work.item == item && item in m.db.log && m.db.log[item] != []
    ensures state in {Succeeded, Partial, Failed, RetryWait, State.Blocked} && (run.Some? ==> run.value < |m.db.runs|)
    ensures state in {Succeeded, Partial} ==> run.Some? && IsSuccess(m.db.runs[run.value].status)
  {
    hide TablesOk, Unique, OutcomeDecision, Claims, DecisionOk;
  }

  /** Evidence wins over a failure exactly when there is some. */
  lemma {:induction false} OutcomeWins(m: Machine, kind: DecisionKind, item: nat, state: State, run: Option<nat>,
                                       attempt: Option<nat>)
    requires item in m.db.log && (run.Some? ==> run.value < |m.db.runs|)
    ensures var d := OutcomeDecision(m.db, kind, item, state, run, attempt);
            && d.kind == kind && d.item == item
            && if state == Failed then FailedOrBetter(m.db.runs, item, d.state) else d.state == state
  {
    hide HasSuccess, AttemptOfRun, FailedOrBetter;
    SuccessIsEvidence(m.db, item);
  }

  /** What a recorded decision changes: its item's log, by one event, and nothing of the evidence. */
  lemma {:induction false} RecordedOnly(start: Machine, m: Machine, n: Machine, d: Decision)
    requires start.slice.Some? && m == Machine(start.db, Some(start.slice.value.(decision := Some(d))))
    requires d.item in m.db.log
    requires n == m || n == Machine(Append(m.db, d.item, EventOf(d, Record, Some(m.slice.value.lease), m.db.now)),
                                    Some(m.slice.value.(work := Idle, decision := None)))
    ensures OnlyItem(start.db, n.db, d.item) && SameSlice(start.slice, n.slice) && d.item in n.db.log
    ensures n.slice.value.attempted == start.slice.value.attempted && n.db.runs == start.db.runs
    ensures n.slice.value.decision.None? ==>
              n.slice.value.work == Idle && Current(n.db, d.item) == d.state
              && Claims(n.db.log[d.item]) == Claims(start.db.log[d.item])
    ensures HasSuccess(n.db, d.item) == HasSuccess(start.db, d.item)
  {
    hide HasSuccess;
    Appended(m.db.log[d.item], EventOf(d, Record, Some(m.slice.value.lease), m.db.now));
    SameRunsSameEvidence(start.db, n.db, d.item);
  }

  lemma {:induction false} DecideIs(m: Machine, kind: DecisionKind, item: nat, d: Decision)
    requires m.slice.Some? && m.slice.value.decision.None? && Decides(m, kind, item) && d == DecisionNow(m, kind, item)
    ensures Enabled(m, Decide(kind, item))
    ensures Do(m, Decide(kind, item)) == Machine(m.db, Some(m.slice.value.(decision := Some(d))))
  {
    hide Decides, DecisionNow;
  }

  lemma {:induction false} RecordIs(start: Machine, m: Machine, d: Decision)
    requires start.slice.Some? && m == Machine(start.db, Some(start.slice.value.(decision := Some(d))))
    requires d.kind in {ForAnswer, ForRefusal} && m.slice.value.work != Idle && m.slice.value.work.item == d.item
    requires d.item in m.db.log && m.db.log[d.item] != [] && (d.state == Failed ==> !HasSuccess(m.db, d.item))
    ensures Enabled(m, RecordEvent)
    ensures Do(m, RecordEvent) ==
            Machine(Append(m.db, d.item, EventOf(d, Record, Some(m.slice.value.lease), m.db.now)),
                    Some(m.slice.value.(work := Idle, decision := None)))
  {
    hide HasSuccess;
  }

  // ---------------------------------------------------------------- what each point of the request allows next

  lemma {:induction false} IntentNext(m: Machine)
    requires Enabled(m, Intent)
    ensures Undecided(m, false) && m.slice.value.work.Begun?
  {
  }

  lemma {:induction false} OutcomeNext(m: Machine, outcome: Outcome)
    requires Undecided(m, false) && m.slice.value.work.Asked? && (outcome.Response? ==> outcome.verdict != Running)
    ensures Enabled(m, RecordOutcome(outcome))
  {
  }

  lemma {:induction false} IngestNext(m: Machine)
    requires Undecided(m, false) && m.slice.value.work.Answered?
    ensures Enabled(m, Ingest)
  {
  }

  lemma {:induction false} AskedHasAttempt(m: Machine)
    requires Inv(m) && m.slice.Some? && (m.slice.value.work.Asked? || m.slice.value.work.Answered?)
    ensures m.slice.value.work.run < |m.db.runs| && m.slice.value.work.attempt < |m.db.attempts|
  {
    hide TablesOk, Unique, DecisionOk;
  }

  lemma {:induction false} WorkIsInFlight(m: Machine)
    requires Inv(m) && m.slice.Some? && m.slice.value.work != Idle
    ensures InFlightUnder(m.db, m.slice.value.work.item, m.slice.value.lease)
  {
    hide TablesOk, Unique, DecisionOk;
  }

  lemma {:induction false} RefusalChooses(m: Machine, item: nat)
    requires Decides(m, ForRefusal, item)
    ensures item in m.db.log && m.slice.Some?
    ensures Chooses(m, ForRefusal, item, if Claims(m.db.log[item]) >= m.slice.value.max then Failed else RetryWait,
                    if m.slice.value.work.Begun? then Some(m.slice.value.work.run) else None, None)
  {
    hide Claims;
  }

  /** F1 made of the response what it makes of it: the run's status is the answer's verdict. */
  lemma {:induction false} AnswerChooses(m: Machine, item: nat)
    requires Inv(m) && Undecided(m, false) && m.slice.value.work.Ingested? && m.slice.value.work.item == item
    requires m.slice.value.work.attempt < |m.db.attempts|
    requires Ingestible(m.db.attempts[m.slice.value.work.attempt].outcome)
    ensures Decides(m, ForAnswer, item) && item in m.db.log
    ensures var (db, w) := (m.db, m.slice.value.work);
            && w.run < |db.runs| && db.runs[w.run].status == db.attempts[w.attempt].outcome.value.verdict
            && Chooses(m, ForAnswer, item,
                       LiveState(db.attempts[w.attempt].outcome.value.cls, db.runs[w.run].status, Claims(db.log[item]),
                                 m.slice.value.max), Some(w.run), Some(w.attempt))
  {
    hide TablesOk, Unique, Claims, DecisionOk, NamesOk, OutcomeDecision, HasSuccess;
    assert Decides(m, ForAnswer, item);
    AnswerNames(m, item);
  }

  lemma {:induction false} OnlyItemAfter(a: Machine, b: Machine, c: Machine, item: nat)
    requires a.db.log == b.db.log && SameSlice(a.slice, b.slice)
             && (b == c || (OnlyItem(b.db, c.db, item) && SameSlice(b.slice, c.slice)))
    ensures OnlyItem(a.db, c.db, item) && SameSlice(a.slice, c.slice) && a.slice.Some? && c.slice.Some?
    ensures a.slice.value.attempted <= c.slice.value.attempted && a.slice.value.reconciling == c.slice.value.reconciling
    ensures a.slice.value.max == c.slice.value.max && a.slice.value.lease == c.slice.value.lease
    ensures c.db.log.Keys == a.db.log.Keys
  {
  }

  lemma {:induction false} SameSliceIsReflexive(m: Machine)
    requires m.slice.Some?
    ensures SameSlice(m.slice, m.slice)
  {
  }

  lemma {:induction false} SameRunsSameEvidence(a: Db, b: Db, item: nat)
    requires a.runs == b.runs
    ensures HasSuccess(a, item) == HasSuccess(b, item)
  {
  }

  lemma {:induction false} StillSame(a: Machine, b: Machine, c: Machine, item: nat)
    requires SameSlice(a.slice, b.slice) && a.db.log.Keys == b.db.log.Keys
    requires b == c || (OnlyItem(b.db, c.db, item) && SameSlice(b.slice, c.slice))
    ensures SameSlice(a.slice, c.slice) && a.db.log.Keys == c.db.log.Keys
  {
  }

  lemma {:induction false} ClaimNext(m: Machine, item: nat)
    requires Enabled(m, ClaimItem(item))
    ensures m.slice.Some? && !m.slice.value.reconciling && item in m.db.log
  {
  }

  lemma {:induction false} ClaimedSlice(a: Machine, b: Machine)
    requires SameSlice(a.slice, b.slice)
    ensures a.slice.Some? && b.slice.Some? && a.slice.value.reconciling == b.slice.value.reconciling
            && a.slice.value.max == b.slice.value.max
  {
  }

  lemma {:induction false} RefuseNext(m: Machine)
    requires Undecided(m, false) && m.slice.value.work.Claimed? && m.slice.value.work.item in m.db.log
    ensures Decides(m, ForRefusal, m.slice.value.work.item) && Enabled(m, BeginRun)
  {
  }

  lemma {:induction false} BeginNext(m: Machine)
    requires Enabled(m, BeginRun)
    ensures Undecided(m, false) && m.slice.value.work.Claimed?
  {
  }

  lemma {:induction false} BegunNext(m: Machine)
    requires Undecided(m, false) && m.slice.value.work.Begun? && m.slice.value.work.item in m.db.log
    requires m.slice.value.work.run < |m.db.runs|
    ensures Decides(m, ForRefusal, m.slice.value.work.item) && Enabled(m, Intent)
  {
  }

  lemma {:induction false} BlocksLive(reply: Reply, status: RunStatus, claims: nat, max: nat)
    requires reply.Answer?
    ensures StopOf(reply) == Some(Stop.Blocked) <==> LiveState(reply.cls, status, claims, max) == State.Blocked
  {
  }

  /** An answer whose failure gives way to the evidence is recorded as the answer, the claims and the evidence say. */
  lemma {:induction false} AnswerRecorded(reply: Reply, live: State, claims: nat, max: nat, runs: seq<Run>, item: nat,
                                          final: State)
    requires reply.Answer? && live == LiveState(reply.cls, reply.verdict, claims, max)
    requires if live == Failed then FailedOrBetter(runs, item, final) else final == live
    ensures AnswerState(runs, item, reply.cls, reply.verdict, claims, max, final)
  {
    hide FailedOrBetter;
    SuccessOrFailure(runs, item, final);
  }

  lemma {:induction false} NothingRecorded(reply: Reply, claims: nat, max: nat, db: Db, item: nat)
    ensures EventFits(reply, Raised, claims, max, db, item)
  {
  }

  lemma {:induction false} RefusedFits(reply: Reply, x: Exit, claims: nat, max: nat, db: Db, item: nat)
    requires x in {Raised, Stopped(Refused)} && EventFits(RefusedRequest, x, claims, max, db, item)
    ensures EventFits(reply, x, claims, max, db, item)
  {
  }

  ghost predicate SomeReplyStops(replies: nat -> Reply, stop: Stop) {
    exists n: nat :: ExitFits(replies(n), Stopped(stop))
  }

  lemma {:induction false} RefusalFits(reply: Reply)
    ensures reply.RefusedClaim? ==> ExitFits(reply, Stopped(Refused))
  {
  }

  /** An answer that lets the slice go on. */
  predicate Goes(reply: Reply) {
    reply.Answer? && StopOf(reply).None?
  }

  lemma {:induction false} StopsOrRaises(replies: nat -> Reply, n: nat, x: Exit, quiet: bool)
    requires x.Stopped? || x == Raised
    requires x == Stopped(DurabilityStop) || x == Raised || ExitFits(replies(n), x)
    requires quiet ==> ExitFits(replies(n), x)
    ensures x.Stopped? ==> SomeReplyStops(replies, x.stop) || (x.stop == DurabilityStop && !quiet)
    ensures x == Raised ==> !quiet
  {
  }

  lemma {:induction false} AllGo(replies: nat -> Reply, stop: Stop)
    requires forall n: nat :: Goes(replies(n))
    ensures !SomeReplyStops(replies, stop)
  {
    forall n: nat ensures !ExitFits(replies(n), Stopped(stop)) {
      assert Goes(replies(n));
    }
  }

  lemma {:induction false} TriedMore(a: Option<Slice>, b: Option<Slice>)
    requires SameSlice(a, b)
    ensures a.Some? && b.Some? && a.value.attempted <= b.value.attempted
  {
  }

  lemma {:induction false} ChainAfter(a: Machine, b: Machine, c: Machine, item: nat)
    requires OnlyItem(a.db, b.db, item) && SameSlice(a.slice, b.slice) && OnlyItem(b.db, c.db, item)
             && SameSlice(b.slice, c.slice)
    ensures OnlyItem(a.db, c.db, item) && SameSlice(a.slice, c.slice) && c.slice.Some?
    ensures b.slice.value.attempted <= c.slice.value.attempted
  {
  }

  // ---------------------------------------------------------------- recovery

  predicate SpoolOk(spool: map<nat, Outcome>) {
    forall a :: a in spool ==> spool[a].Response? ==> spool[a].verdict != Running
  }

  lemma {:induction false} ExpireIs(m: Machine, l: nat, spool: map<nat, Outcome>, after: Machine)
    requires m.slice.None? && l < |m.db.leases| && m.db.leases[l] == Active && SpoolOk(spool)
    requires after == Machine(m.db.(leases := m.db.leases[l := Expired], attempts := Recovered(m.db.attempts, l, spool),
                                    log := AbandonAll(m.db, l), now := m.db.now + 1), None)
    ensures Enabled(m, ExpireLease(l, spool)) && Do(m, ExpireLease(l, spool)) == after
  {
  }

  lemma {:induction false} OpenIs(m: Machine, max: nat, after: Machine)
    requires m.slice.None? && 1 <= max <= ITEM_MAX_ATTEMPTS
    requires forall l: nat :: l < |m.db.leases| ==> m.db.leases[l] != Active
    requires after ==
             Machine(m.db.(leases := m.db.leases + [Active]), Some(Slice(|m.db.leases|, max, {}, true, Idle, None)))
    ensures Enabled(m, OpenLease(max)) && Do(m, OpenLease(max)) == after
  {
  }

  /** Every response under this claim of the item has been ingested. */
  ghost predicate ClaimIngested(db: Db, item: nat, e: Event) {
    forall a: nat ::
      (a < |db.attempts| && IsAttemptUnder(db.attempts[a], item, e.lease) && Ingestible(db.attempts[a].outcome)) ==>
            IngestedFrom(db, a)
  }

  function RunOfClaim(db: Db, item: nat, e: Event): Option<nat> {
    FindRun(db.runs, item, e.at, |db.runs|)
  }

  function AttemptOfClaim(db: Db, item: nat, e: Event): Option<nat> {
    if e.lease.Some? then LastAttempt(db.attempts, item, e.lease.value, |db.attempts|) else None
  }

  lemma {:induction false} ClaimIsLogged(db: Db, item: nat, k: nat)
    requires TablesOk(db) && item in db.log && k < |ClaimEvents(db.log[item])|
    ensures var e := ClaimEvents(db.log[item])[k];
            EventOk(db, item, e) && e.action == Claim
  {
    hide LogOk, RunOk, AttemptOk, EventOk;
    var e := ClaimEvents(db.log[item])[k];
    ClaimEventsAreLogged(db.log[item]);
    ClaimEventsAreClaims(db.log[item]);
    assert e in ClaimEvents(db.log[item]);
    var p: nat :| p < |db.log[item]| && db.log[item][p] == e;
    assert EventOk(db, item, db.log[item][p]);
  }

  lemma {:induction false} ClaimEventsAreClaims(es: seq<Event>)
    ensures forall e :: e in ClaimEvents(es) ==> e.action == Claim
  {
    if es != [] {
      ClaimEventsAreClaims(es[..|es| - 1]);
    }
  }

  /** The run and the attempt found for a claim are that claim's own, so finishing the one from the other ingests the
      claim's response, and nothing remains to be ingested if the run is not running. */
  lemma {:induction false} ClaimIsIngested(m: Machine, item: nat, k: nat)
    requires Inv(m) && item in m.db.log && k < |ClaimEvents(m.db.log[item])| && !ClaimEvents(m.db.log[item])[k].terminal
    ensures var e := ClaimEvents(m.db.log[item])[k];
            var (r, a) := (RunOfClaim(m.db, item, e), AttemptOfClaim(m.db, item, e));
            ClaimIngested(if r.Some? && a.Some? then FinishFromLedger(m.db, r.value, a.value) else m.db, item, e)
  {
    hide LogOk, EventOk, RunOk, AttemptOk, WorkOk;
    var db := m.db;
    ClaimIsLogged(db, item, k);
    var e := ClaimEvents(db.log[item])[k];
    var (r, a) := (RunOfClaim(db, item, e), AttemptOfClaim(db, item, e));
    forall b: nat | b < |db.attempts| && IsAttemptUnder(db.attempts[b], item, e.lease)
        && Ingestible(db.attempts[b].outcome)
      ensures r.Some? && a == Some(b) && IngestedFrom(FinishFromLedger(db, r.value, b), b)
    {
      OwnRunAndAttempt(db, item, e, b);
    }
    FinishKeepsAttemptsTable(db, r, a);
  }

  lemma {:induction false} FinishKeepsAttemptsTable(db: Db, r: Option<nat>, a: Option<nat>)
    requires (r.Some? ==> r.value < |db.runs|) && (a.Some? ==> a.value < |db.attempts|)
    ensures r.Some? && a.Some? ==> FinishFromLedger(db, r.value, a.value).attempts == db.attempts
  {
  }

  lemma {:induction false} OwnRunAndAttempt(db: Db, item: nat, e: Event, b: nat)
    requires TablesOk(db) && Unique(db) && EventOk(db, item, e) && e.action == Claim && !e.terminal
    requires b < |db.attempts| && IsAttemptUnder(db.attempts[b], item, e.lease) && Ingestible(db.attempts[b].outcome)
    ensures RunOfClaim(db, item, e) == Some(db.attempts[b].run) && AttemptOfClaim(db, item, e) == Some(b)
    ensures db.attempts[b].run < |db.runs| && IngestedFrom(FinishFromLedger(db, db.attempts[b].run, b), b)
  {
    hide LogOk;
    assert AttemptOk(db, b);
    var q := db.attempts[b].run;
    assert RunOk(db, q);
    assert db.runs[q].startedAt == e.at;
    var r := RunOfClaim(db, item, e);
    assert r.Some?;
    AttemptRunIsTheClaimsRun(db, b, r.value);
    SameClaimSameAttempt(db, AttemptOfClaim(db, item, e).value, b);
    if db.runs[q].status != Running {
      OneAttemptPerRun(db, db.runs[q].source.value, b);
    }
  }

  lemma {:induction false} FinishAbandonedNext(m: Machine, item: nat, k: nat)
    requires Inv(m) && Undecided(m, true) && Current(m.db, item) == Abandoned && k < |ClaimEvents(m.db.log[item])|
    requires var e := ClaimEvents(m.db.log[item])[k];
             RunOfClaim(m.db, item, e).Some? && AttemptOfClaim(m.db, item, e).Some?
    ensures var e := ClaimEvents(m.db.log[item])[k];
            var s := FinishAbandoned(item, RunOfClaim(m.db, item, e).value, AttemptOfClaim(m.db, item, e).value);
            Enabled(m, s) && Do(m, s) == Machine(FinishFromLedger(m.db, s.run, s.attempt), m.slice)
  {
    hide LogOk, RunOk, AttemptOk, WorkOk, Unique;
    ClaimIsLogged(m.db, item, k);
  }

  /** The last of an abandoned item's claims is the one whose lease expired. */
  lemma {:induction false} AbandonedHasAClaim(m: Machine, item: nat)
    requires Inv(m) && Current(m.db, item) == Abandoned
    ensures var claims := ClaimEvents(m.db.log[item]);
            && claims != [] && !Last(claims).terminal && Last(claims).lease == Last(m.db.log[item]).lease
  {
    hide EventOk, RunOk, AttemptOk, Unique, WorkOk, Claims, RequestClaims;
    var es := m.db.log[item];
    assert LogOk(m.db, item);
    assert Last(es).action == Expire;
    assert es == es[..|es| - 1] + [Last(es)];
    Appended(es[..|es| - 1], Last(es));
    assert Last(es[..|es| - 1]) == es[|es| - 2];
  }

  lemma {:induction false} PromoteNext(m: Machine, item: nat, d: Decision)
    requires Undecided(m, true) && Current(m.db, item) == Abandoned && d == PromoteDecision(m.db, item)
    requires ClaimEvents(m.db.log[item]) != [] && ClaimIngested(m.db, item, Last(ClaimEvents(m.db.log[item])))
    requires Last(ClaimEvents(m.db.log[item])).lease == Last(m.db.log[item]).lease
    ensures Enabled(m, Decide(ForPromotion, item))
    ensures Do(m, Decide(ForPromotion, item)) == Machine(m.db, Some(m.slice.value.(decision := Some(d))))
  {
    hide PromoteDecision;
  }

  lemma {:induction false} PromoteIs(start: Machine, m: Machine, item: nat, d: Decision)
    requires start.slice.Some? && m == Machine(start.db, Some(start.slice.value.(decision := Some(d))))
    requires Current(m.db, item) == Abandoned && d == PromoteDecision(m.db, item)
    ensures Enabled(m, PromoteItem(item))
    ensures Do(m, PromoteItem(item)) ==
            Machine(Append(m.db, item, EventOf(d, ItemStates.Promote, None, m.db.now)),
                    Some(m.slice.value.(decision := None)))
  {
    hide HasSuccess, AttemptOfRun;
  }

  lemma {:induction false} PromotedOnly(start: Machine, m: Machine, n: Machine, item: nat, d: Decision)
    requires Undecided(start, true) && m == Machine(start.db, Some(start.slice.value.(decision := Some(d))))
    requires Current(m.db, item) == Abandoned && d == PromoteDecision(m.db, item)
    requires n == m || n == Machine(Append(m.db, item, EventOf(d, ItemStates.Promote, None, m.db.now)),
                                    Some(m.slice.value.(decision := None)))
    ensures OnlyItem(start.db, n.db, item) && SameSlice(start.slice, n.slice)
    ensures n.slice.value.decision.None? ==>
              && n.slice == start.slice && item in n.db.log && Current(n.db, item) in {Pending, Succeeded, Partial}
              && (if HasSuccess(n.db, item) then EvidenceSays(n.db.runs, item, Current(n.db, item))
                  else Current(n.db, item) == Pending)
              && Claims(n.db.log[item]) == Claims(start.db.log[item])
    ensures n.db.runs == start.db.runs
  {
    hide HasSuccess, AttemptOfRun, EvidenceSays, FailedOrBetter, IsEvidence;
    SuccessRunIsExact(m.db, item);
    SuccessIsEvidence(m.db, item);
    Appended(m.db.log[item], EventOf(d, ItemStates.Promote, None, m.db.now));
    SameRunsSameEvidence(m.db, n.db, item);
  }

  lemma {:induction false} NoOpenAttempts(m: Machine, item: nat)
    requires Inv(m) && Current(m.db, item) in {Pending, RetryWait}
    ensures OpenAttempts(m.db, item) == {}
  {
    hide LogOk, EventOk, RunOk, Unique, WorkOk;
    forall a: nat | a < |m.db.attempts| && m.db.attempts[a].item == item ensures m.db.attempts[a].outcome.Some? {
      assert AttemptOk(m.db, a);
    }
  }

  lemma {:induction false} TerminalNext(m: Machine, item: nat, d: Decision)
    requires Undecided(m, true) && WaitsAtMaximum(m.db, item, m.slice.value.max) && OpenAttempts(m.db, item) == {}
    requires d == Decision(ForTerminal, item, FinalDecision(m.db, item).0, FinalDecision(m.db, item).1, None)
    ensures Enabled(m, Decide(ForTerminal, item))
    ensures Do(m, Decide(ForTerminal, item)) == Machine(m.db, Some(m.slice.value.(decision := Some(d))))
  {
    hide OpenAttempts, FinalDecision, Claims;
  }

  lemma {:induction false} TerminalIs(start: Machine, m: Machine, item: nat, d: Decision)
    requires start.slice.Some? && m == Machine(start.db, Some(start.slice.value.(decision := Some(d))))
    requires Current(m.db, item) in {Pending, RetryWait}
    requires d == Decision(ForTerminal, item, FinalDecision(m.db, item).0, FinalDecision(m.db, item).1, None)
    ensures Enabled(m, TerminalClaim(item)) && d.state in {Succeeded, Partial, Failed}
    ensures Do(m, TerminalClaim(item)) ==
            Machine(Terminalised(m.db, d, m.slice.value.lease), Some(m.slice.value.(decision := None)))
  {
    hide Terminalised, HasSuccess, LastClaimRun;
    SuccessRunIsExact(m.db, item);
  }

  lemma {:induction false} UnchangedIsOnly(m: Machine, item: nat)
    requires m.slice.Some?
    ensures OnlyItem(m.db, m.db, item) && SameSlice(m.slice, m.slice)
  {
  }

  lemma {:induction false} TerminalKeeps(start: Machine, m: Machine, n: Machine, item: nat, d: Decision)
    requires Undecided(start, true) && m == Machine(start.db, Some(start.slice.value.(decision := Some(d))))
    requires Current(m.db, item) in {Pending, RetryWait}
    requires d == Decision(ForTerminal, item, FinalDecision(m.db, item).0, FinalDecision(m.db, item).1, None)
    requires n == m || n == Machine(Terminalised(m.db, d, m.slice.value.lease), Some(m.slice.value.(decision := None)))
    ensures OnlyItem(start.db, n.db, item) && SameSlice(start.slice, n.slice)
    ensures n.slice.value.decision.None? ==>
              && n.slice == start.slice && Current(n.db, item) == d.state && d.state in {Succeeded, Partial, Failed}
              && (d.state == Failed <==> !HasSuccess(n.db, item)) && FailedOrBetter(n.db.runs, item, d.state)
    ensures n.db.runs == start.db.runs
  {
    hide HasSuccess, LastClaimRun, FailedOrBetter, IsEvidence, EvidenceSays;
    SuccessRunIsExact(m.db, item);
    SuccessIsEvidence(m.db, item);
    SameRunsSameEvidence(m.db, n.db, item);
  }

  // ---------------------------------------------------------------- closing

  ghost predicate OpenUnder(db: Db, lease: nat) {
    exists a: nat :: a < |db.attempts| && db.attempts[a].lease == lease && db.attempts[a].outcome == None
  }

  lemma {:induction false} InFlightSet(db: Db, lease: nat, inFlight: set<nat>)
    requires inFlight == set i | i in db.log && InFlightUnder(db, i, lease)
    ensures (exists i: nat :: InFlightUnder(db, i, lease)) <==> inFlight != {}
  {
    if inFlight != {} {
      var i :| i in inFlight;
      assert InFlightUnder(db, i, lease);
    }
    forall i | InFlightUnder(db, i, lease) ensures i in inFlight {
    }
  }

  lemma {:induction false} OpenSet(db: Db, lease: nat, open: set<nat>)
    requires open == set a: nat | a < |db.attempts| && db.attempts[a].lease == lease && db.attempts[a].outcome == None
    ensures OpenUnder(db, lease) <==> open != {}
  {
    if OpenUnder(db, lease) {
      var a: nat :| a < |db.attempts| && db.attempts[a].lease == lease && db.attempts[a].outcome == None;
      assert a in open;
    }
    if open != {} {
      var a :| a in open;
      assert db.attempts[a].outcome == None;
    }
  }

  ghost predicate LeaseBusy(db: Db, lease: nat) {
    (exists i: nat :: InFlightUnder(db, i, lease)) || OpenUnder(db, lease)
  }

  ghost predicate ReleasedOnly(before: Db, after: Db, lease: nat) {
    lease < |before.leases| && after == before.(leases := before.leases[lease := Released])
  }

  lemma {:induction false} EndNext(m: Machine)
    requires Undecided(m, true)
    ensures Enabled(m, EndReconcile) && Do(m, EndReconcile) == m.(slice := Some(m.slice.value.(reconciling := false)))
  {
  }

  /** A slice between two requests holds nothing. */
  lemma {:induction false} IdleIsNotBusy(m: Machine)
    requires Inv(m) && m.slice.Some? && m.slice.value.work == Idle
    ensures !LeaseBusy(m.db, m.slice.value.lease)
  {
    hide EventOk, RunOk, Unique, DecisionOk, Claims, RequestClaims, LegalLog;
    var (db, lease) := (m.db, m.slice.value.lease);
    forall i: nat ensures !InFlightUnder(db, i, lease) {
      if InFlightUnder(db, i, lease) {
        assert LogOk(db, i);
        DiscoveryInFlight(db.kinds[i], db.log[i]);
      }
    }
    forall a: nat | a < |db.attempts| ensures db.attempts[a].outcome.Some? {
      assert AttemptOk(db, a);
    }
  }

  lemma {:induction false} CloseNext(m: Machine)
    requires Inv(m) && m.slice.Some? && !LeaseBusy(m.db, m.slice.value.lease)
    ensures Enabled(m, CloseSlice) && m.slice.value.lease < |m.db.leases|
    ensures Do(m, CloseSlice) == Machine(m.db.(leases := m.db.leases[m.slice.value.lease := Released]), None)
  {
    hide TablesOk, Unique;
  }
}
