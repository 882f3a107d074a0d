// Every run of the discovery protocol keeps its invariant, whatever crashes; and what follows from it.
module DiscoveryRuns {
  import opened Prelude
  import opened ItemStates
  import opened DiscoveryLedger

  // ---------------------------------------------------------------- one item's log grows

  lemma {:induction false} LegalExtension(k: Kind, es: seq<Event>, e: Event)
    requires LegalLog(k, es)
    requires Allowed(k, if es == [] then NoState else Last(es).state, e.state, e.action)
    ensures LegalLog(k, es + [e])
  {
    assert (es + [e])[..|es + [e]| - 1] == es;
  }

  /** A discovery item is never 'processing', so in flight means requesting. */
  lemma {:induction false} DiscoveryInFlight(k: Kind, es: seq<Event>)
    requires k != Document && LegalLog(k, es) && es != []
    ensures Last(es).state != Processing
  {
  }

  lemma {:induction false} RequestClaimsAreClaims(es: seq<Event>)
    ensures RequestClaims(es) <= Claims(es)
    ensures RequestLeases(es) <= ClaimLeases(es)
    ensures |RequestLeases(es)| <= RequestClaims(es)
  {
    if es != [] {
      RequestClaimsAreClaims(es[..|es| - 1]);
    }
  }

  /** New events for one item that leave it settled: neither requesting nor abandoned. */
  ghost predicate Settles(db: Db, item: nat, es: seq<Event>, now: nat) {
    && item in db.log && es != [] && db.now <= now
    && Last(es).state !in {Requesting, Abandoned}
    && (forall e :: e in es ==> NamesOk(db, item, e) && e.at < now && NewClaimOk(db, e))
    && item in db.kinds && LegalLog(db.kinds[item], db.log[item] + es)
    && RequestClaims(db.log[item] + es) <= ITEM_MAX_ATTEMPTS
    && Claims(db.log[item] + es) <= RequestClaims(db.log[item] + es)
        + (if Last(es).state in {Succeeded, Partial, Failed} then 1 else 0)
    && (forall a: nat :: a < |db.attempts| && db.attempts[a].item == item ==> AttemptSettled(db, a, db.log[item] + es))
  }

  ghost predicate NewClaimOk(db: Db, e: Event) {
    e.action == Claim ==> e.terminal && e.at !in db.claimed && NoRunAt(db, e.at)
  }

  ghost predicate AttemptSettled(db: Db, a: nat, es: seq<Event>)
    requires a < |db.attempts|
  {
    && db.attempts[a].outcome.Some? && (Ingestible(db.attempts[a].outcome) ==> IngestedFrom(db, a))
    && (db.attempts[a].lease in ClaimLeases(es) ==> db.attempts[a].lease in RequestLeases(es))
  }

  function Extended(db: Db, item: nat, es: seq<Event>, now: nat): Db
    requires item in db.log
  {
    db.(log := db.log[item := db.log[item] + es], now := now)
  }

  lemma {:induction false} SettlingKeepsLogs(db: Db, item: nat, es: seq<Event>, now: nat, i: nat)
    requires TablesOk(db) && Settles(db, item, es, now) && i in db.log
    ensures LogOk(Extended(db, item, es, now), i)
  {
    hide LegalLog, Claims, RequestClaims, AttemptOk, EventOk, RunOk, AttemptSettled, NamesOk, NewClaimOk;
    assert LogOk(db, i);
    var all := db.log[item] + es;
    assert all[|all| - 1] == Last(es);
  }

  lemma {:induction false} SettlingKeepsEvents(db: Db, item: nat, es: seq<Event>, now: nat, i: nat, p: nat)
    requires TablesOk(db) && Settles(db, item, es, now) && i in db.log && p < |Extended(db, item, es, now).log[i]|
    ensures EventOk(Extended(db, item, es, now), i, Extended(db, item, es, now).log[i][p])
  {
    hide LegalLog, Claims, RequestClaims, AttemptOk, LogOk, RunOk, AttemptSettled;
    var d := Extended(db, item, es, now);
    var e := d.log[i][p];
    if i == item && p >= |db.log[item]| {
      assert e == es[p - |db.log[item]|] && e in es;
    } else {
      assert e == db.log[i][p];
      assert EventOk(db, i, e);
    }
  }

  lemma {:induction false} SettlingKeepsAttempts(db: Db, item: nat, es: seq<Event>, now: nat, a: nat)
    requires TablesOk(db) && Settles(db, item, es, now) && a < |db.attempts|
    ensures AttemptOk(Extended(db, item, es, now), a)
  {
    hide LegalLog, Claims, RequestClaims, LogOk, RunOk, EventOk, NamesOk, NewClaimOk, ClaimLeases, RequestLeases;
    assert AttemptOk(db, a);
    if db.attempts[a].item == item {
      assert AttemptSettled(db, a, db.log[item] + es);
    }
  }

  lemma {:induction false} SettlingKeeps(db: Db, item: nat, es: seq<Event>, now: nat)
    requires TablesOk(db) && Unique(db) && Settles(db, item, es, now)
    ensures TablesOk(Extended(db, item, es, now)) && Unique(Extended(db, item, es, now))
  {
    var d := Extended(db, item, es, now);
    forall i | i in d.log ensures LogOk(d, i) { SettlingKeepsLogs(db, item, es, now, i); }
    forall i, p: nat | i in d.log && p < |d.log[i]| ensures EventOk(d, i, d.log[i][p]) {
      SettlingKeepsEvents(db, item, es, now, i, p);
    }
    forall a: nat | a < |d.attempts| ensures AttemptOk(d, a) { SettlingKeepsAttempts(db, item, es, now, a); }
    forall r: nat | r < |d.runs| ensures RunOk(d, r) { assert RunOk(db, r); }
  }

  /** The slice's work after item is settled: nothing of it if it was the slice's own item, and otherwise unchanged. */
  lemma {:induction false} SettlingKeepsWork(m: Machine, item: nat, es: seq<Event>, now: nat, after: Slice)
    requires Inv(m) && m.slice.Some? && Settles(m.db, item, es, now)
    requires TablesOk(Extended(m.db, item, es, now))
    requires var sl := m.slice.value;
             after.(decision := None) ==
             (if sl.work != Idle && sl.work.item == item then sl.(work := Idle) else sl).(decision := None)
    ensures WorkBase(Extended(m.db, item, es, now), after)
  {
    hide LegalLog, Claims, RequestClaims, ClaimLeases, RequestLeases, EventOk, LogOk, AttemptOk, RunOk, NamesOk,
         NewClaimOk, AttemptSettled, Unique, DecisionOk;
    var d := Extended(m.db, item, es, now);
    var w := m.slice.value.work;
    assert d.log[item][|d.log[item]| - 1] == Last(es);
    forall i | i in d.log && d.log[i] != [] && Last(d.log[i]).state == Requesting
      ensures i != item && w != Idle && w.item == i
    {
      assert i != item;
      assert LogOk(m.db, i);
    }
  }

  // ---------------------------------------------------------------- which run and which attempt an event names

  lemma {:induction false} AttemptRunIsTheClaimsRun(db: Db, a: nat, r: nat)
    requires TablesOk(db) && Unique(db) && a < |db.attempts| && r < |db.runs|
    requires db.runs[r].startedAt in db.claimed
    requires db.claimed[db.runs[r].startedAt] == ClaimRecord(db.attempts[a].item, db.attempts[a].lease)
    ensures db.attempts[a].run == r && !db.runs[r].foreign && db.runs[r].request == db.attempts[a].item
  {
    hide LegalLog, LogOk, EventOk, WorkOk;
    assert AttemptOk(db, a) && RunOk(db, r);
    var q := db.attempts[a].run;
    assert db.runs[q].startedAt == db.runs[r].startedAt;
  }

  lemma {:induction false} OneAttemptPerRun(db: Db, a: nat, b: nat)
    requires Unique(db) && a < |db.attempts| && b < |db.attempts| && db.attempts[a].run == db.attempts[b].run
    ensures a == b
  {
  }

  lemma {:induction false} ClaimEventsAreLogged(es: seq<Event>)
    ensures forall e :: e in ClaimEvents(es) ==> e in es
  {
    if es != [] {
      ClaimEventsAreLogged(es[..|es| - 1]);
    }
  }

  /** The claim behind a finished run of the item, found by its time: the run is not foreign, and the attempt found
      through it is the one whose response finished the run. */
  lemma {:induction false} AttemptOfRunIsItsSource(db: Db, item: nat, claims: seq<Event>, r: nat)
    requires TablesOk(db) && Unique(db) && item in db.log && (forall e :: e in claims ==> e in db.log[item])
    requires r < |db.runs| && db.runs[r].status != Running
    ensures AttemptOfRun(db, item, claims, r).Some? ==> db.runs[r].source == AttemptOfRun(db, item, claims, r)
  {
    hide LegalLog, LogOk, AttemptOk, NamesOk, WorkOk;
    if AttemptOfRun(db, item, claims, r).Some? {
      var at := db.runs[r].startedAt;
      var lease := ClaimAt(claims, at);
      var e :| e in claims && e.action == Claim && e.at == at && e.lease == lease;
      var p: nat :| p < |db.log[item]| && db.log[item][p] == e;
      assert EventOk(db, item, db.log[item][p]);
      assert RunOk(db, r);
      assert db.claimed[at] == ClaimRecord(item, lease.value);
      var a := AttemptOfRun(db, item, claims, r).value;
      AttemptRunIsTheClaimsRun(db, a, r);
      OneAttemptPerRun(db, a, db.runs[r].source.value);
    }
  }

  lemma {:induction false} WinnerIsNamed(db: Db, item: nat, claims: seq<Event>)
    requires TablesOk(db) && Unique(db) && item in db.log && (forall e :: e in claims ==> e in db.log[item])
    requires SuccessRun(db, item).Some?
    ensures var won := SuccessRun(db, item).value;
            var attempt := AttemptOfRun(db, item, claims, won);
            && won < |db.runs| && db.runs[won].request == item && IsSuccess(db.runs[won].status)
            && (attempt.Some? ==> db.runs[won].source == attempt)
  {
    hide TablesOk, Unique;
    AttemptOfRunIsItsSource(db, item, claims, SuccessRun(db, item).value);
  }

  // ---------------------------------------------------------------- an item out of flight is settled

  /** Outside requesting and abandoned, every attempt has an outcome and every response is ingested. */
  lemma {:induction false} OutOfFlightIsSettled(db: Db, item: nat, es: seq<Event>)
    requires TablesOk(db) && item in db.log && db.log[item] != []
             && Last(db.log[item]).state !in {Requesting, Abandoned}
    requires ClaimLeases(db.log[item] + es) == ClaimLeases(db.log[item]) || ClaimLeases(db.log[item] + es) == {}
    requires RequestLeases(db.log[item] + es) == RequestLeases(db.log[item]) || ClaimLeases(db.log[item] + es) == {}
    ensures forall a: nat :: a < |db.attempts| && db.attempts[a].item == item ==>
              AttemptSettled(db, a, db.log[item] + es)
  {
    hide LegalLog, LogOk, EventOk, RunOk, ClaimLeases, RequestLeases;
    forall a: nat | a < |db.attempts| && db.attempts[a].item == item ensures AttemptSettled(db, a, db.log[item] + es) {
      assert AttemptOk(db, a);
    }
  }

  // ---------------------------------------------------------------- what the code decides is evidence

  /** What a decision names is all that makes its event sound, whatever the event's action, lease and time. */
  lemma {:induction false} NamesFollow(db: Db, item: nat, e: Event, f: Event)
    requires NamesOk(db, item, e) && e.state == f.state && e.run == f.run && e.attempt == f.attempt
    ensures NamesOk(db, item, f)
  {
  }

  /** The event of a claim may name the claim's own run: one that failed, or one that supports the success. */
  predicate Supports(db: Db, r: nat, state: State)
    requires r < |db.runs|
  {
    db.runs[r].status == RunFailed || (state in {Succeeded, Partial} && db.runs[r].status in {RunSucceeded, RunPartial})
  }

  /** What _final_or_retry decides names nothing wrong, and is a failure only when no run of the request succeeded. */
  lemma {:induction false} OutcomeNames(db: Db, kind: DecisionKind, item: nat, state: State, run: Option<nat>,
                                        attempt: Option<nat>)
    requires TablesOk(db) && Unique(db) && item in db.log
    requires run.Some? ==> run.value < |db.runs| && db.runs[run.value].request == item
    requires state in {Succeeded, Partial, Failed, RetryWait, Blocked}
    requires state in {Succeeded, Partial} ==>
               run.Some? && IsSuccess(db.runs[run.value].status) && state == StateFor(db.runs[run.value].status)
               && (attempt.Some? ==> db.runs[run.value].source == attempt)
    ensures var d := OutcomeDecision(db, kind, item, state, run, attempt);
            && d.kind == kind && d.item == item
            && NamesOk(db, item, EventOf(d, Record, None, db.now))
            && (d.state == state || (state == Failed && d.state in {Succeeded, Partial}))
            && (state == Failed ==> (d.state == Failed <==> !HasSuccess(db, item)))
            && (state == Failed ==> FailedOrBetter(db.runs, item, d.state))
            && (d.state != state ==> d.run.Some? && IsEvidence(db.runs, item, d.run.value))
            && (d.state == state ==> d.attempt == attempt && d.run == if run.Some? && Supports(db, run.value, state)
                                                                      then run else None)
  {
    hide TablesOk, Unique, AttemptOfRun, IsEvidence, FailedOrBetter, EvidenceSays;
    SuccessRunIsExact(db, item);
    SuccessIsEvidence(db, item);
    if SuccessRun(db, item).Some? {
      WinnerIsNamed(db, item, db.log[item]);
    }
  }

  lemma {:induction false} AnswerNames(m: Machine, item: nat)
    requires Inv(m) && Decides(m, ForAnswer, item)
    ensures var (db, w, d) := (m.db, m.slice.value.work, DecisionNow(m, ForAnswer, item));
            && db.runs[w.run].source == Some(w.attempt) && db.runs[w.run].request == item
            && db.runs[w.run].status == db.attempts[w.attempt].outcome.value.verdict
            && NamesOk(db, item, EventOf(d, Record, None, db.now)) && d.kind == ForAnswer && d.item == item
            && d.state in {Succeeded, Partial, Failed, RetryWait, Blocked}
            && (d.state == Failed ==> !HasSuccess(db, item))
            && (d.state == Failed ==> d.run == if db.runs[w.run].status == RunFailed then Some(w.run) else None)
  {
    hide LegalLog, LogOk, EventOk, Unique, NamesOk, OutcomeDecision, HasSuccess, DecisionOk;
    var (db, sl) := (m.db, m.slice.value);
    var w := sl.work;
    assert RunOk(db, w.run) && AttemptOk(db, w.attempt);
    var cls := db.attempts[w.attempt].outcome.value.cls;
    var state := LiveState(cls, db.runs[w.run].status, Claims(db.log[w.item]), sl.max);
    OutcomeNames(db, ForAnswer, w.item, state, Some(w.run), Some(w.attempt));
  }

  /** The decision for an answer: the state is what its class, F1's status of it, the claims and the evidence make of
      it; the event names this claim's attempt, and its run if that supports the state, or else the winning run. */
  lemma {:induction false} AnswerDecision(m: Machine, item: nat)
    requires Inv(m) && Decides(m, ForAnswer, item)
    ensures var (db, w, d) := (m.db, m.slice.value.work, DecisionNow(m, ForAnswer, item));
            var Response(cls, verdict) := db.attempts[w.attempt].outcome.value;
            && AnswerState(db.runs, item, cls, verdict, Claims(db.log[item]), m.slice.value.max, d.state)
            && (if d.state in {Failed, RetryWait, Blocked} || (cls == Ok && verdict in {RunSucceeded, RunPartial})
                then d.attempt == Some(w.attempt) && d.run == if Supports(db, w.run, d.state) then Some(w.run) else None
                else d.run.Some? && IsEvidence(db.runs, item, d.run.value))
  {
    hide LegalLog, LogOk, EventOk, Unique, NamesOk, OutcomeDecision, HasSuccess, DecisionOk, Claims, FailedOrBetter,
         IsEvidence;
    var (db, sl) := (m.db, m.slice.value);
    var w := sl.work;
    assert RunOk(db, w.run) && AttemptOk(db, w.attempt);
    var cls := db.attempts[w.attempt].outcome.value.cls;
    var state := LiveState(cls, db.runs[w.run].status, Claims(db.log[item]), sl.max);
    OutcomeNames(db, ForAnswer, item, state, Some(w.run), Some(w.attempt));
    SuccessOrFailure(db.runs, item, DecisionNow(m, ForAnswer, item).state);
  }

  lemma {:induction false} SuccessOrFailure(runs: seq<Run>, request: nat, state: State)
    ensures FailedOrBetter(runs, request, state) ==> state in {Succeeded, Partial, Failed}
  {
  }

  lemma {:induction false} RefusalNames(m: Machine, item: nat)
    requires Inv(m) && Decides(m, ForRefusal, item)
    ensures var (db, d) := (m.db, DecisionNow(m, ForRefusal, item));
            && NamesOk(db, item, EventOf(d, Record, None, db.now)) && d.kind == ForRefusal && d.item == item
            && d.state in {Succeeded, Partial, Failed, RetryWait}
            && (d.state == Failed ==> !HasSuccess(db, item) && d.run == None)
            && RefusalState(db.runs, item, Claims(db.log[item]), m.slice.value.max, d.state)
  {
    hide TablesOk, Unique, NamesOk, OutcomeDecision, HasSuccess, DecisionOk, FailedOrBetter, Claims;
    SuccessOrFailure(m.db.runs, item, DecisionNow(m, ForRefusal, item).state);
    var (db, sl) := (m.db, m.slice.value);
    var w := sl.work;
    OutcomeNames(db, ForRefusal, w.item, if Claims(db.log[w.item]) >= sl.max then Failed else RetryWait,
                 if w.Begun? then Some(w.run) else None, None);
  }

  lemma {:induction false} PromotionNames(db: Db, item: nat)
    requires TablesOk(db) && Unique(db) && item in db.log
    ensures var d := PromoteDecision(db, item);
            && NamesOk(db, item, EventOf(d, Record, None, db.now)) && d.kind == ForPromotion && d.item == item
            && d.state in {Succeeded, Partial, Pending} && (d.state == Pending <==> !HasSuccess(db, item))
            && (d.state != Pending ==> EvidenceSays(db.runs, item, d.state) && IsEvidence(db.runs, item, d.run.value))
  {
    hide TablesOk, Unique, IsEvidence;
    ClaimEventsAreLogged(db.log[item]);
    SuccessIsEvidence(db, item);
    if SuccessRun(db, item).Some? {
      WinnerIsNamed(db, item, ClaimEvents(db.log[item]));
    }
  }

  /** This is the run of the item's last claim, and it failed. */
  predicate LastClaimFailed(db: Db, item: nat, r: nat)
    requires item in db.log
  {
    var claims := ClaimEvents(db.log[item]);
    && claims != [] && r < |db.runs| && db.runs[r].request == item && db.runs[r].startedAt == Last(claims).at
    && db.runs[r].status == RunFailed
  }

  /** The last claim's own run is named exactly when it failed. */
  lemma {:induction false} FinalNames(db: Db, item: nat, d: Decision)
    requires TablesOk(db) && Unique(db) && item in db.log
    requires d == Decision(ForTerminal, item, FinalDecision(db, item).0, FinalDecision(db, item).1, None)
    ensures NamesOk(db, item, EventOf(d, Record, None, db.now)) && d.state in {Succeeded, Partial, Failed}
    ensures d.state == Failed <==> !HasSuccess(db, item)
    ensures d.state == Failed && d.run.Some? ==> d.run.value < |db.runs| && db.runs[d.run.value].status == RunFailed
    ensures FailedOrBetter(db.runs, item, d.state)
    ensures d.state != Failed ==> d.run.Some? && IsEvidence(db.runs, item, d.run.value)
    ensures d.state == Failed ==> forall r: nat :: d.run == Some(r) <==> LastClaimFailed(db, item, r)
  {
    hide TablesOk, IsEvidence, FailedOrBetter;
    SuccessIsEvidence(db, item);
    SuccessRunIsExact(db, item);
  }

  /** Whatever the occasion: the decision is sound, and it is a failure only when no run of the request succeeded. */
  lemma {:induction false} DecisionIsSound(m: Machine, kind: DecisionKind, item: nat)
    requires Inv(m) && Decides(m, kind, item)
    ensures DecisionOk(m, DecisionNow(m, kind, item)) && DecisionNow(m, kind, item).item == item
    ensures DecisionNow(m, kind, item).state == Failed ==> !HasSuccess(m.db, item)
  {
    hide TablesOk, Unique, WorkOk, NamesOk, HasSuccess, OutcomeDecision, PromoteDecision, FinalDecision;
    match kind
    case ForAnswer => AnswerNames(m, item);
    case ForRefusal => RefusalNames(m, item);
    case ForPromotion => PromotionNames(m.db, item);
    case ForTerminal => FinalNames(m.db, item, DecisionNow(m, kind, item));
  }

  lemma {:induction false} DecideKeeps(m: Machine, kind: DecisionKind, item: nat)
    requires Inv(m) && Enabled(m, Decide(kind, item))
    ensures Inv(Do(m, Decide(kind, item)))
  {
    hide TablesOk, Unique, NamesOk, Decides, DecisionNow, WorkBase;
    DecisionIsSound(m, kind, item);
    var n := Do(m, Decide(kind, item));
    SameDecides(m, n, kind, item);
    SameWork(m.db, m.slice.value, n.slice.value);
    assert DecisionNow(m, kind, item).kind == kind by { KindOfDecision(m, kind, item); }
  }

  lemma {:induction false} KindOfDecision(m: Machine, kind: DecisionKind, item: nat)
    requires Decides(m, kind, item)
    ensures DecisionNow(m, kind, item).kind == kind
  {
  }

  lemma {:induction false} SameDecides(m: Machine, n: Machine, kind: DecisionKind, item: nat)
    requires Decides(m, kind, item) && m.db == n.db && n.slice.Some?
    requires n.slice.value.(decision := None) == m.slice.value.(decision := None)
    ensures Decides(n, kind, item)
  {
    hide EvidenceSettled, OpenAttempts, Claims;
  }

  lemma {:induction false} SameWork(db: Db, a: Slice, b: Slice)
    requires WorkBase(db, a) && a.(decision := None) == b.(decision := None)
    ensures WorkBase(db, b)
  {
    hide Claims;
  }

  /** Runs only begin and finish: nothing else of a run changes, and a finished one not at all. */
  ghost predicate RunsOnward(before: Db, after: Db) {
    && |before.runs| <= |after.runs|
    && forall r: nat :: r < |before.runs| ==> Onward(before.runs[r], after.runs[r])
  }

  predicate Onward(before: Run, after: Run) {
    && after == before.(status := after.status)
    && (before.status != Running ==> after == before)
  }

  /** A waiting decision stands while others act: runs begin and finish, and other items move. */
  lemma {:induction false} DecisionKept(m: Machine, n: Machine, d: Decision)
    requires DecisionOk(m, d) && m.slice == n.slice && n.db.attempts == m.db.attempts && RunsOnward(m.db, n.db)
    requires d.item in m.db.log ==> d.item in n.db.log && n.db.log[d.item] == m.db.log[d.item]
    ensures DecisionOk(n, d)
  {
    hide Claims, NamesOk;
    NamesKept(m.db, n.db, d.item, EventOf(d, Record, None, m.db.now));
    NamesFollow(n.db, d.item, EventOf(d, Record, None, m.db.now), EventOf(d, Record, None, n.db.now));
  }

  lemma {:induction false} DecisionStays(m: Machine, n: Machine)
    requires Inv(m) && m.slice == n.slice && n.db.attempts == m.db.attempts && RunsOnward(m.db, n.db)
    requires forall i :: i in m.db.log ==> i in n.db.log && n.db.log[i] == m.db.log[i]
    ensures n.slice.Some? && n.slice.value.decision.Some? ==>
              DecisionOk(Machine(n.db, Some(n.slice.value)), n.slice.value.decision.value)
  {
    hide TablesOk, Unique, DecisionOk, WorkBase, RunsOnward;
    if n.slice.Some? && n.slice.value.decision.Some? {
      assert WorkOk(m, m.slice.value);
      assert m == Machine(m.db, Some(m.slice.value)) && n == Machine(n.db, Some(n.slice.value));
      DecisionKept(m, n, m.slice.value.decision.value);
    }
  }

  lemma {:induction false} NamesKept(a: Db, b: Db, item: nat, e: Event)
    requires NamesOk(a, item, e) && RunsOnward(a, b)
    ensures NamesOk(b, item, e)
  {
    if e.run.Some? {
      assert Onward(a.runs[e.run.value], b.runs[e.run.value]);
    }
  }

  /** The item of a waiting decision is at none of the places an operator acts on. */
  lemma {:induction false} DecidedIsNotAtRest(m: Machine, d: Decision)
    requires Inv(m) && Decides(m, d.kind, d.item)
    ensures Current(m.db, d.item) in {Requesting, Abandoned, Pending, RetryWait}
  {
    hide TablesOk, Unique, DecisionOk, EvidenceSettled, Claims, OpenAttempts;
  }

  // ---------------------------------------------------------------- one lemma per step

  lemma {:induction false} PromotionSettles(db: Db, item: nat, e: Event)
    requires TablesOk(db) && Unique(db) && Current(db, item) == Abandoned && item in db.log && db.log[item] != []
    requires EvidenceSettled(db, item) && NamesOk(db, item, e)
    requires e.state in {Succeeded, Partial, Pending} && e.action == Promote && e.at == db.now && !e.terminal
    ensures Settles(db, item, [e], db.now + 1)
  {
    hide RunOk, EventOk, Unique, NamesOk;
    var es := db.log[item];
    assert LogOk(db, item);
    Appended(es, e);
    LegalExtension(db.kinds[item], es, e);
    forall a: nat | a < |db.attempts| && db.attempts[a].item == item ensures AttemptSettled(db, a, es + [e]) {
      assert AttemptOk(db, a);
    }
  }

  lemma {:induction false} PromoteKeeps(m: Machine, item: nat)
    requires Inv(m) && Enabled(m, PromoteItem(item))
    ensures Inv(Do(m, PromoteItem(item)))
  {
    hide TablesOk, Unique, WorkBase, EvidenceSettled, Settles, NamesOk;
    var d := m.slice.value.decision.value;
    var e := EventOf(d, Promote, None, m.db.now);
    NamesFollow(m.db, item, EventOf(d, Record, None, m.db.now), e);
    PromotionSettles(m.db, item, e);
    SettlingKeeps(m.db, item, [e], m.db.now + 1);
    ReconcilingIsIdle(m);
    SettlingKeepsWork(m, item, [e], m.db.now + 1, Do(m, PromoteItem(item)).slice.value);
  }

  lemma {:induction false} ReconcilingIsIdle(m: Machine)
    requires Inv(m) && InSlice(m, true)
    ensures m.slice.value.work == Idle
  {
  }

  lemma {:induction false} RequeueKeeps(m: Machine, item: nat)
    requires Inv(m) && Enabled(m, RequeueItem(item))
    ensures Inv(Do(m, RequeueItem(item)))
  {
    hide Inv;
    var e := Event(Pending, Requeue, None, m.db.now, None, None, false);
    RestKeeps(m, item, e);
  }

  lemma {:induction false} ResumeKeeps(m: Machine, item: nat)
    requires Inv(m) && Enabled(m, ResumeItem(item))
    ensures Inv(Do(m, ResumeItem(item)))
  {
    hide Inv;
    var e := Event(Pending, Resume, None, m.db.now, None, None, false);
    RestKeeps(m, item, e);
  }

  /** An operator's event on an item at rest. */
  lemma {:induction false} RestKeeps(m: Machine, item: nat, e: Event)
    requires Inv(m) && Current(m.db, item) in {Succeeded, Partial, Failed, Blocked}
    requires e.state == Pending && e.run == None && e.at == m.db.now && e.action in {Requeue, Resume}
    requires Allowed(Listing, Current(m.db, item), e.state, e.action)
    ensures Inv(m.(db := Append(m.db, item, e)))
  {
    hide TablesOk, Unique, Settles, WorkBase, DecisionOk;
    RestSettles(m.db, item, e);
    SettlingKeeps(m.db, item, [e], m.db.now + 1);
    var n := m.(db := Append(m.db, item, e));
    if m.slice.Some? {
      assert WorkOk(m, m.slice.value);
      RestIsNotOwn(m, item);
      SettlingKeepsWork(m, item, [e], m.db.now + 1, m.slice.value);
      if m.slice.value.decision.Some? {
        RestIsNotDecided(m, item);
        DecisionKept(m, n, m.slice.value.decision.value);
      }
    }
  }

  lemma {:induction false} RestIsNotOwn(m: Machine, item: nat)
    requires Inv(m) && m.slice.Some? && Current(m.db, item) != Requesting
    ensures m.slice.value.work != Idle ==> m.slice.value.work.item != item
  {
    hide TablesOk, Unique, DecisionOk, Claims;
  }

  lemma {:induction false} RestIsNotDecided(m: Machine, item: nat)
    requires Inv(m) && m.slice.Some? && m.slice.value.decision.Some?
    requires Current(m.db, item) in {Succeeded, Partial, Failed, Blocked}
    ensures m.slice.value.decision.value.item != item && DecisionOk(m, m.slice.value.decision.value)
  {
    hide TablesOk, Unique, Decides, NamesOk;
    DecidedIsNotAtRest(m, m.slice.value.decision.value);
  }

  lemma {:induction false} RestSettles(db: Db, item: nat, e: Event)
    requires TablesOk(db) && Current(db, item) in {Succeeded, Partial, Failed, Blocked}
    requires e.state == Pending && e.run == None && e.at == db.now && e.action in {Requeue, Resume}
    requires Allowed(Listing, Current(db, item), e.state, e.action)
    ensures Settles(db, item, [e], db.now + 1)
  {
    hide AttemptOk, EventOk, RunOk, LegalLog, Claims, RequestClaims, ClaimLeases, RequestLeases, AttemptSettled;
    var es := db.log[item];
    assert LogOk(db, item);
    Appended(es, e);
    LegalExtension(db.kinds[item], es, e);
    OutOfFlightIsSettled(db, item, [e]);
  }

  lemma {:induction false} TerminalClaimKeeps(m: Machine, item: nat)
    requires Inv(m) && Enabled(m, TerminalClaim(item))
    ensures Inv(Do(m, TerminalClaim(item)))
  {
    hide TablesOk, Unique, WorkBase, Settles, NamesOk, OpenAttempts, Claims;
    var d := m.slice.value.decision.value;
    if Last(m.db.log[item]).state == Pending || d.state != Failed {
      TwoEventTerminal(m, item);
    } else {
      var e := EventOf(d, Record, None, m.db.now);
      FailureSettles(m.db, item, e);
      SettlingKeeps(m.db, item, [e], m.db.now + 1);
      ReconcilingIsIdle(m);
      SettlingKeepsWork(m, item, [e], m.db.now + 1, Do(m, TerminalClaim(item)).slice.value);
    }
  }

  lemma {:induction false} FailureSettles(db: Db, item: nat, e: Event)
    requires TablesOk(db) && Unique(db) && Current(db, item) == RetryWait && NamesOk(db, item, e)
    requires e.state == Failed && e.action == Record && e.at == db.now && !e.terminal
    ensures Settles(db, item, [e], db.now + 1)
  {
    hide AttemptOk, EventOk, RunOk, Unique, NamesOk, LegalLog, Claims, RequestClaims, ClaimLeases, RequestLeases,
         NoRunAt, AttemptSettled;
    var es := db.log[item];
    assert LogOk(db, item);
    Appended(es, e);
    LegalExtension(db.kinds[item], es, e);
    OutOfFlightIsSettled(db, item, [e]);
  }

  /** The two events of a terminal claim. */
  function TerminalEvents(db: Db, d: Decision, lease: nat): seq<Event> {
    [Event(Requesting, Claim, Some(lease), db.now, None, None, true), EventOf(d, Record, Some(lease), db.now + 1)]
  }

  lemma {:induction false} TwoEventCounts(es: seq<Event>, c: Event, e: Event)
    requires c.action == Claim && c.terminal && c.lease.Some? && e.action == Record
    ensures Claims(es + [c, e]) == Claims(es) + 1 && RequestClaims(es + [c, e]) == RequestClaims(es)
    ensures ClaimLeases(es + [c, e]) == ClaimLeases(es) + {c.lease.value}
            && RequestLeases(es + [c, e]) == RequestLeases(es)
  {
    Appended(es, c);
    Appended(es + [c], e);
    assert es + [c] + [e] == es + [c, e];
  }

  lemma {:induction false} TwoEventsAreLegal(k: Kind, es: seq<Event>, c: Event, e: Event)
    requires k != Document && LegalLog(k, es) && es != [] && Last(es).state in {Pending, RetryWait}
    requires c.state == Requesting && c.action == Claim && e.action == Record && e.state in {Succeeded, Partial, Failed}
    ensures LegalLog(k, es + [c, e])
  {
    LegalExtension(k, es, c);
    LegalExtension(k, es + [c], e);
    assert es + [c] + [e] == es + [c, e];
  }

  lemma {:induction false} TwoEventsSettle(m: Machine, item: nat)
    requires Inv(m) && Enabled(m, TerminalClaim(item))
    ensures Settles(m.db, item, TerminalEvents(m.db, m.slice.value.decision.value, m.slice.value.lease), m.db.now + 2)
  {
    hide AttemptOk, EventOk, RunOk, Unique, WorkBase, NamesOk, LegalLog, Claims, RequestClaims, ClaimLeases,
         RequestLeases, NoRunAt, AttemptSettled, OpenAttempts;
    var (db, es, d, lease) := (m.db, m.db.log[item], m.slice.value.decision.value, m.slice.value.lease);
    var two := TerminalEvents(db, d, lease);
    assert LogOk(db, item);
    NamesFollow(db, item, EventOf(d, Record, None, db.now), two[1]);
    UnnamedIsOk(db, item, two[0]);
    TwoEventCounts(es, two[0], two[1]);
    TwoEventsAreLegal(db.kinds[item], es, two[0], two[1]);
    TerminalClaimSettles(m, item, two);
    NothingAtNow(db);
  }

  lemma {:induction false} TwoEventTerminal(m: Machine, item: nat)
    requires Inv(m) && Enabled(m, TerminalClaim(item))
    requires Last(m.db.log[item]).state == Pending || m.slice.value.decision.value.state != Failed
    ensures Inv(Do(m, TerminalClaim(item)))
  {
    hide TablesOk, Unique, WorkBase, Settles, NamesOk, OpenAttempts, Claims;
    var (db, d, lease) := (m.db, m.slice.value.decision.value, m.slice.value.lease);
    var two := TerminalEvents(db, d, lease);
    TwoEventsSettle(m, item);
    SettlingKeeps(db, item, two, db.now + 2);
    ReconcilingIsIdle(m);
    SettlingKeepsWork(m, item, two, db.now + 2, m.slice.value.(decision := None));
    assert db.log[item] + [two[0]] + [two[1]] == db.log[item] + two;
    assert Terminalised(db, d, lease) == Extended(db, item, two, db.now + 2);
  }

  lemma {:induction false} UnnamedIsOk(db: Db, item: nat, e: Event)
    requires e.run == None && e.state !in {Succeeded, Partial}
    ensures NamesOk(db, item, e)
  {
  }

  lemma {:induction false} NothingAtNow(db: Db)
    requires TablesOk(db) && Unique(db)
    ensures db.now !in db.claimed && NoRunAt(db, db.now)
  {
    hide LogOk, EventOk, AttemptOk;
    forall r: nat | r < |db.runs| ensures db.runs[r].startedAt != db.now {
      assert RunOk(db, r);
    }
  }

  /** A terminal claim's lease has made no attempt of the item: the slice is still reconciling. */
  lemma {:induction false} TerminalClaimSettles(m: Machine, item: nat, es: seq<Event>)
    requires Inv(m) && Enabled(m, TerminalClaim(item))
    requires ClaimLeases(m.db.log[item] + es) == ClaimLeases(m.db.log[item]) + {m.slice.value.lease}
    requires RequestLeases(m.db.log[item] + es) == RequestLeases(m.db.log[item])
    ensures forall a: nat :: a < |m.db.attempts| && m.db.attempts[a].item == item ==>
              AttemptSettled(m.db, a, m.db.log[item] + es)
  {
    hide LegalLog, LogOk, EventOk, RunOk, ClaimLeases, RequestLeases;
    forall a: nat | a < |m.db.attempts| && m.db.attempts[a].item == item
      ensures AttemptSettled(m.db, a, m.db.log[item] + es)
    {
      assert AttemptOk(m.db, a);
    }
  }

  /** The slice's own attempts of its item: only the one of this claim is not older. */
  lemma {:induction false} AttemptUnderOwnClaim(m: Machine, a: nat)
    requires Inv(m) && m.slice.Some? && m.slice.value.work != Idle
    requires a < |m.db.attempts| && m.db.attempts[a].item == m.slice.value.work.item
    requires m.db.attempts[a].lease == m.slice.value.lease
    ensures m.db.attempts[a].run < |m.db.runs| && m.db.runs[m.db.attempts[a].run].startedAt == m.slice.value.work.at
    ensures !m.slice.value.work.Claimed? && m.db.attempts[a].run == m.slice.value.work.run
  {
    hide LegalLog, LogOk, EventOk, RunOk;
    assert AttemptOk(m.db, a);
    var (db, w) := (m.db, m.slice.value.work);
    assert db.runs[db.attempts[a].run].startedAt == w.at;
    assert !w.Claimed?;
    AttemptRunIsTheClaimsRun(db, a, w.run);
  }

  lemma {:induction false} AnsweredIsSettled(m: Machine, e: Event)
    requires Inv(m) && m.slice.Some? && m.slice.value.work.Ingested? && e.action == Record
    ensures forall a: nat :: a < |m.db.attempts| && m.db.attempts[a].item == m.slice.value.work.item ==>
                               AttemptSettled(m.db, a, m.db.log[m.slice.value.work.item] + [e])
  {
    hide LegalLog, LogOk, EventOk, RunOk, ClaimLeases, RequestLeases;
    var (db, w) := (m.db, m.slice.value.work);
    Appended(db.log[w.item], e);
    forall a: nat | a < |db.attempts| && db.attempts[a].item == w.item
      ensures AttemptSettled(db, a, db.log[w.item] + [e])
    {
      assert AttemptOk(db, a);
      if db.attempts[a].lease == m.slice.value.lease {
        AttemptUnderOwnClaim(m, a);
        OneAttemptPerRun(db, a, w.attempt);
      }
    }
  }

  lemma {:induction false} RefusedIsSettled(m: Machine, e: Event)
    requires Inv(m) && m.slice.Some? && (m.slice.value.work.Claimed? || m.slice.value.work.Begun?) && e.action == Record
    ensures forall a: nat :: a < |m.db.attempts| && m.db.attempts[a].item == m.slice.value.work.item ==>
                               AttemptSettled(m.db, a, m.db.log[m.slice.value.work.item] + [e])
  {
    hide LegalLog, LogOk, EventOk, RunOk, ClaimLeases, RequestLeases;
    var (db, w) := (m.db, m.slice.value.work);
    Appended(db.log[w.item], e);
    forall a: nat | a < |db.attempts| && db.attempts[a].item == w.item
      ensures AttemptSettled(db, a, db.log[w.item] + [e])
    {
      assert AttemptOk(db, a);
      if db.attempts[a].lease == m.slice.value.lease {
        AttemptUnderOwnClaim(m, a);
        assert false;
      }
    }
  }

  /** One record for the item the slice holds. */
  lemma {:induction false} RecordSettles(m: Machine, e: Event)
    requires Inv(m) && m.slice.Some? && m.slice.value.work != Idle
    requires NamesOk(m.db, m.slice.value.work.item, e) && e.state in {Succeeded, Partial, Failed, RetryWait, Blocked}
    requires e.at == m.db.now && e.action == Record
    requires forall a: nat :: a < |m.db.attempts| && m.db.attempts[a].item == m.slice.value.work.item ==>
                                AttemptSettled(m.db, a, m.db.log[m.slice.value.work.item] + [e])
    ensures var w := m.slice.value.work;
            && Settles(m.db, w.item, [e], m.db.now + 1)
            && Inv(Machine(Append(m.db, w.item, e), Some(m.slice.value.(work := Idle, decision := None))))
  {
    hide TablesOk, Unique, Settles, NamesOk, AttemptSettled, WorkBase, DecisionOk;
    var (db, w) := (m.db, m.slice.value.work);
    OwnItemSettles(m, e);
    SettlingKeeps(db, w.item, [e], db.now + 1);
    SettlingKeepsWork(m, w.item, [e], db.now + 1, m.slice.value.(work := Idle, decision := None));
  }

  lemma {:induction false} OwnItemSettles(m: Machine, e: Event)
    requires Inv(m) && m.slice.Some? && m.slice.value.work != Idle
    requires NamesOk(m.db, m.slice.value.work.item, e) && e.state in {Succeeded, Partial, Failed, RetryWait, Blocked}
    requires e.at == m.db.now && e.action == Record
    requires forall a: nat :: a < |m.db.attempts| && m.db.attempts[a].item == m.slice.value.work.item ==>
                                AttemptSettled(m.db, a, m.db.log[m.slice.value.work.item] + [e])
    ensures m.slice.value.work.item in m.db.log && Settles(m.db, m.slice.value.work.item, [e], m.db.now + 1)
  {
    hide AttemptOk, EventOk, RunOk, Unique, NamesOk, AttemptSettled, LegalLog, Claims, RequestClaims, NoRunAt;
    var (db, w) := (m.db, m.slice.value.work);
    assert LogOk(db, w.item);
    Appended(db.log[w.item], e);
    LegalExtension(db.kinds[w.item], db.log[w.item], e);
  }

  lemma {:induction false} RecordEventKeeps(m: Machine)
    requires Inv(m) && Enabled(m, RecordEvent)
    ensures Inv(Do(m, RecordEvent))
  {
    hide TablesOk, Unique, NamesOk, Settles, AttemptSettled, WorkBase;
    var (d, w) := (m.slice.value.decision.value, m.slice.value.work);
    var e := EventOf(d, Record, Some(m.slice.value.lease), m.db.now);
    NamesFollow(m.db, w.item, EventOf(d, Record, None, m.db.now), e);
    if d.kind == ForAnswer {
      AnsweredIsSettled(m, e);
    } else {
      RefusedIsSettled(m, e);
    }
    RecordSettles(m, e);
  }

  // ---------------------------------------------------------------- F1 runs begin and finish

  /** A running run is finished: by its own attempt's response, or, begun elsewhere, by whoever began it. */
  ghost predicate Finishes(db: Db, r: nat, status: RunStatus, source: Option<nat>) {
    && r < |db.runs| && db.runs[r].status == Running && status != Running
    && (if db.runs[r].foreign then source == None
        else source.Some? && source.value < |db.attempts| && db.attempts[source.value].run == r
             && Ingestible(db.attempts[source.value].outcome)
             && db.attempts[source.value].outcome.value.verdict == status)
  }

  function Finished(db: Db, r: nat, status: RunStatus, source: Option<nat>): Db
    requires r < |db.runs|
  {
    db.(runs := db.runs[r := db.runs[r].(status := status, source := source)])
  }

  lemma {:induction false} FinishKeepsEvents(db: Db, r: nat, status: RunStatus, source: Option<nat>, item: nat, p: nat)
    requires TablesOk(db) && Finishes(db, r, status, source) && item in db.log && p < |db.log[item]|
    ensures EventOk(Finished(db, r, status, source), item, db.log[item][p])
  {
    hide LogOk, AttemptOk, RunOk;
    assert EventOk(db, item, db.log[item][p]);
    var d := Finished(db, r, status, source);
    assert forall q: nat :: q < |d.runs| ==> d.runs[q].startedAt == db.runs[q].startedAt;
  }

  lemma {:induction false} FinishKeepsAttempts(db: Db, r: nat, status: RunStatus, source: Option<nat>, a: nat)
    requires TablesOk(db) && Finishes(db, r, status, source) && a < |db.attempts|
    ensures AttemptOk(Finished(db, r, status, source), a)
  {
    hide LogOk, EventOk;
    assert AttemptOk(db, a) && RunOk(db, r);
  }

  lemma {:induction false} FinishKeepsRun(db: Db, r: nat, status: RunStatus, source: Option<nat>, q: nat)
    requires TablesOk(db) && Finishes(db, r, status, source) && q < |db.runs|
    ensures RunOk(Finished(db, r, status, source), q)
  {
    hide LogOk, EventOk, AttemptOk;
    assert RunOk(db, q);
  }

  lemma {:induction false} FinishKeeps(db: Db, r: nat, status: RunStatus, source: Option<nat>)
    requires TablesOk(db) && Unique(db) && Finishes(db, r, status, source)
    ensures TablesOk(Finished(db, r, status, source)) && Unique(Finished(db, r, status, source))
  {
    hide EventOk, AttemptOk, RunOk, LegalLog;
    var d := Finished(db, r, status, source);
    forall i | i in d.log ensures LogOk(d, i) { assert LogOk(db, i); }
    forall i, p: nat | i in d.log && p < |d.log[i]| ensures EventOk(d, i, d.log[i][p]) {
      FinishKeepsEvents(db, r, status, source, i, p);
    }
    forall a: nat | a < |d.attempts| ensures AttemptOk(d, a) { FinishKeepsAttempts(db, r, status, source, a); }
    forall q: nat | q < |d.runs| ensures RunOk(d, q) { FinishKeepsRun(db, r, status, source, q); }
  }

  lemma {:induction false} FinishFromLedgerKeeps(db: Db, r: nat, a: nat)
    requires TablesOk(db) && Unique(db) && r < |db.runs| && a < |db.attempts| && db.attempts[a].run == r
             && !db.runs[r].foreign
    ensures TablesOk(FinishFromLedger(db, r, a)) && Unique(FinishFromLedger(db, r, a))
  {
    hide TablesOk, Unique;
    if FinishFromLedger(db, r, a) != db {
      FinishKeeps(db, r, db.attempts[a].outcome.value.verdict, Some(a));
    }
  }

  lemma {:induction false} FinishAbandonedKeeps(m: Machine, item: nat, run: nat, attempt: nat)
    requires Inv(m) && Enabled(m, FinishAbandoned(item, run, attempt))
    ensures Inv(Do(m, FinishAbandoned(item, run, attempt)))
  {
    hide TablesOk, Unique, DecisionOk;
    AttemptRunIsTheClaimsRun(m.db, attempt, run);
    FinishFromLedgerKeeps(m.db, run, attempt);
    ReconcilingIsIdle(m);
  }

  lemma {:induction false} IngestKeeps(m: Machine)
    requires Inv(m) && Enabled(m, Ingest)
    ensures Inv(Do(m, Ingest))
  {
    hide LogOk, EventOk, Unique, RunOk;
    var w := m.slice.value.work;
    assert AttemptOk(m.db, w.attempt);
    IngestKeepsTables(m);
  }

  lemma {:induction false} IngestKeepsTables(m: Machine)
    requires Inv(m) && Enabled(m, Ingest)
    ensures TablesOk(Do(m, Ingest).db) && Unique(Do(m, Ingest).db)
  {
    hide TablesOk, Unique;
    FinishFromLedgerKeeps(m.db, m.slice.value.work.run, m.slice.value.work.attempt);
  }

  lemma {:induction false} ForeignFinishKeeps(m: Machine, run: nat, status: RunStatus)
    requires Inv(m) && Enabled(m, ForeignFinish(run, status))
    ensures Inv(Do(m, ForeignFinish(run, status)))
  {
    hide LogOk, EventOk, AttemptOk, Unique, DecisionOk;
    DecisionStays(m, Do(m, ForeignFinish(run, status)));
    assert RunOk(m.db, run);
    FinishKeeps(m.db, run, status, None);
    assert m.db.runs[run].(status := status) == m.db.runs[run].(status := status, source := None);
  }

  predicate IsTerminalClaim(e: Event) {
    e.action == Claim && e.terminal
  }

  ghost predicate NoTerminalClaimAt(db: Db, at: nat) {
    forall item, p: nat :: item in db.log && p < |db.log[item]| ==>
          !(IsTerminalClaim(db.log[item][p]) && db.log[item][p].at == at)
  }

  /** A run begins: for a claim no run was begun for yet, or elsewhere. */
  ghost predicate Begins(db: Db, run: Run, now: nat) {
    && run.status == Running && run.source == None && run.startedAt < now && db.now <= now && NoRunAt(db, run.startedAt)
    && NoTerminalClaimAt(db, run.startedAt)
    && (if run.foreign then run.startedAt !in db.claimed
        else run.startedAt in db.claimed && db.claimed[run.startedAt].item == run.request)
  }

  lemma {:induction false} BeginKeeps(db: Db, run: Run, now: nat)
    requires TablesOk(db) && Unique(db) && Begins(db, run, now)
    ensures TablesOk(db.(runs := db.runs + [run], now := now)) && Unique(db.(runs := db.runs + [run], now := now))
  {
    hide LegalLog, EventOk, AttemptOk, RunOk;
    var d := db.(runs := db.runs + [run], now := now);
    forall i | i in d.log ensures LogOk(d, i) { assert LogOk(db, i); }
    forall i, p: nat | i in d.log && p < |d.log[i]| ensures EventOk(d, i, d.log[i][p]) {
      BeginKeepsEvents(db, run, now, i, p);
    }
    forall a: nat | a < |d.attempts| ensures AttemptOk(d, a) { BeginKeepsAttempts(db, run, now, a); }
    forall q: nat | q < |d.runs| ensures RunOk(d, q) { BeginKeepsRuns(db, run, now, q); }
  }

  lemma {:induction false} BeginKeepsEvents(db: Db, run: Run, now: nat, item: nat, p: nat)
    requires TablesOk(db) && Begins(db, run, now) && item in db.log && p < |db.log[item]|
    ensures EventOk(db.(runs := db.runs + [run], now := now), item, db.log[item][p])
  {
    hide LogOk, AttemptOk, RunOk;
    assert EventOk(db, item, db.log[item][p]);
  }

  lemma {:induction false} BeginKeepsAttempts(db: Db, run: Run, now: nat, a: nat)
    requires TablesOk(db) && a < |db.attempts|
    ensures AttemptOk(db.(runs := db.runs + [run], now := now), a)
  {
    hide LogOk, EventOk, RunOk;
    assert AttemptOk(db, a);
  }

  lemma {:induction false} BeginKeepsRuns(db: Db, run: Run, now: nat, q: nat)
    requires TablesOk(db) && Begins(db, run, now) && q < |db.runs| + 1
    ensures RunOk(db.(runs := db.runs + [run], now := now), q)
  {
    hide LogOk, EventOk, AttemptOk;
    if q < |db.runs| {
      assert RunOk(db, q);
    }
  }

  lemma {:induction false} NotATerminalClaim(db: Db, at: nat)
    requires TablesOk(db) && Unique(db) && (at in db.claimed || at == db.now)
    ensures NoTerminalClaimAt(db, at)
  {
    hide LogOk, AttemptOk, RunOk;
    forall item, p: nat | item in db.log && p < |db.log[item]|
      ensures !(IsTerminalClaim(db.log[item][p]) && db.log[item][p].at == at)
    {
      assert EventOk(db, item, db.log[item][p]);
    }
  }

  lemma {:induction false} BeginRunKeeps(m: Machine)
    requires Inv(m) && Enabled(m, BeginRun)
    ensures Inv(Do(m, BeginRun))
  {
    hide LogOk, EventOk, Unique, RunOk;
    var (db, w) := (m.db, m.slice.value.work);
    NotATerminalClaim(db, w.at);
    ClaimTimesArePast(db, w.at);
    BeginKeeps(db, Run(w.item, w.at, Running, false, None), db.now);
    forall a: nat | a < |db.attempts| ensures db.attempts[a].run < |db.runs| {
      assert AttemptOk(db, a);
    }
  }

  lemma {:induction false} ClaimTimesArePast(db: Db, t: nat)
    requires Unique(db) && t in db.claimed
    ensures t < db.now && db.claimed[t].lease < |db.leases|
  {
  }

  lemma {:induction false} ForeignBeginKeeps(m: Machine, request: nat)
    requires Inv(m)
    ensures Inv(Do(m, ForeignBegin(request)))
  {
    hide LogOk, EventOk, Unique, RunOk, AttemptOk, DecisionOk;
    DecisionStays(m, Do(m, ForeignBegin(request)));
    NotATerminalClaim(m.db, m.db.now);
    NothingAtNow(m.db);
    BeginKeeps(m.db, Run(request, m.db.now, Running, true, None), m.db.now + 1);
    assert m.slice.Some? ==> m.slice.value.work != Idle ==> m.slice.value.work.at in m.db.claimed;
  }

  // ---------------------------------------------------------------- claims, intents and outcomes

  function ClaimEvent(db: Db, lease: nat): Event {
    Event(Requesting, Claim, Some(lease), db.now, None, None, false)
  }

  /** The tables after a claim. */
  function AfterClaim(db: Db, item: nat, lease: nat): Db
    requires item in db.log
  {
    Append(db, item, ClaimEvent(db, lease)).(claimed := db.claimed[db.now := ClaimRecord(item, lease)])
  }

  /** What a claim needs of the ledger. */
  ghost predicate MayClaim(db: Db, item: nat, lease: nat) {
    && item in db.log && db.log[item] != [] && Last(db.log[item]).state in {Pending, RetryWait}
    && RequestClaims(db.log[item]) < ITEM_MAX_ATTEMPTS && lease < |db.leases| && db.leases[lease] == Active
    && (forall t :: t in db.claimed ==> db.claimed[t] != ClaimRecord(item, lease))
  }

  lemma {:induction false} ClaimKeepsOtherLogs(db: Db, item: nat, lease: nat, i: nat)
    requires TablesOk(db) && Unique(db) && MayClaim(db, item, lease) && i in db.log && i != item
    ensures LogOk(AfterClaim(db, item, lease), i)
  {
    hide EventOk, AttemptOk, RunOk, LegalLog, Claims, RequestClaims, MayClaim;
    assert LogOk(db, i);
  }

  lemma {:induction false} ClaimKeepsOwnLog(db: Db, item: nat, lease: nat)
    requires TablesOk(db) && MayClaim(db, item, lease)
    ensures LogOk(AfterClaim(db, item, lease), item)
  {
    hide EventOk, AttemptOk, RunOk, LegalLog, Claims, RequestClaims;
    assert LogOk(db, item);
    LegalExtension(db.kinds[item], db.log[item], ClaimEvent(db, lease));
    Appended(db.log[item], ClaimEvent(db, lease));
  }

  lemma {:induction false} ClaimKeepsEvents(db: Db, item: nat, lease: nat, i: nat, p: nat)
    requires TablesOk(db) && Unique(db) && MayClaim(db, item, lease) && i in db.log
             && p < |AfterClaim(db, item, lease).log[i]|
    ensures EventOk(AfterClaim(db, item, lease), i, AfterClaim(db, item, lease).log[i][p])
  {
    hide LogOk, AttemptOk, RunOk, MayClaim;
    if p < |db.log[i]| {
      assert EventOk(db, i, db.log[i][p]);
    } else {
      assert MayClaim(db, item, lease) ==> lease < |db.leases| by { MayClaimHasLease(db, item, lease); }
    }
  }

  lemma {:induction false} MayClaimHasLease(db: Db, item: nat, lease: nat)
    requires MayClaim(db, item, lease)
    ensures lease < |db.leases|
  {
  }

  lemma {:induction false} ClaimKeepsAttempts(db: Db, item: nat, lease: nat, a: nat)
    requires TablesOk(db) && Unique(db) && MayClaim(db, item, lease) && a < |db.attempts|
    ensures AttemptOk(AfterClaim(db, item, lease), a)
  {
    hide EventOk, LogOk, RunOk, LegalLog, ClaimLeases, RequestLeases;
    assert AttemptOk(db, a);
    Appended(db.log[item], ClaimEvent(db, lease));
  }

  lemma {:induction false} ClaimKeeps(db: Db, item: nat, lease: nat)
    requires TablesOk(db) && Unique(db) && MayClaim(db, item, lease)
    ensures TablesOk(AfterClaim(db, item, lease)) && Unique(AfterClaim(db, item, lease))
  {
    hide EventOk, AttemptOk, LogOk, LegalLog;
    var d := AfterClaim(db, item, lease);
    forall i | i in d.log ensures LogOk(d, i) {
      if i == item {
        ClaimKeepsOwnLog(db, item, lease);
      } else {
        ClaimKeepsOtherLogs(db, item, lease, i);
      }
    }
    forall i, p: nat | i in d.log && p < |d.log[i]| ensures EventOk(d, i, d.log[i][p]) {
      ClaimKeepsEvents(db, item, lease, i, p);
    }
    forall a: nat | a < |d.attempts| ensures AttemptOk(d, a) { ClaimKeepsAttempts(db, item, lease, a); }
    forall r: nat | r < |d.runs| ensures RunOk(d, r) { assert RunOk(db, r); }
  }

  lemma {:induction false} ClaimItemMay(m: Machine, item: nat)
    requires Inv(m) && Enabled(m, ClaimItem(item))
    ensures MayClaim(m.db, item, m.slice.value.lease)
  {
    hide AttemptOk, EventOk, RunOk, LegalLog;
    assert LogOk(m.db, item);
    RequestClaimsAreClaims(m.db.log[item]);
  }

  lemma {:induction false} ClaimItemKeeps(m: Machine, item: nat)
    requires Inv(m) && Enabled(m, ClaimItem(item))
    ensures Inv(Do(m, ClaimItem(item)))
  {
    hide TablesOk, Unique, MayClaim, LogOk, EventOk, RunOk, AttemptOk, DecisionOk;
    var (db, lease) := (m.db, m.slice.value.lease);
    ClaimItemMay(m, item);
    ClaimKeeps(db, item, lease);
    NothingAtNow(db);
    Appended(db.log[item], ClaimEvent(db, lease));
    assert WorkOk(Do(m, ClaimItem(item)), Do(m, ClaimItem(item)).slice.value);
  }

  lemma {:induction false} IntentKeeps(m: Machine)
    requires Inv(m) && Enabled(m, Intent)
    ensures Inv(Do(m, Intent))
  {
    hide LogOk, EventOk, AttemptOk, RunOk, Unique;
    var (db, w) := (m.db, m.slice.value.work);
    IntentKeepsTables(m);
    IntentKeepsUnique(m);
  }

  lemma {:induction false} IntentKeepsUnique(m: Machine)
    requires Inv(m) && Enabled(m, Intent)
    ensures Unique(Do(m, Intent).db)
  {
    hide TablesOk;
  }

  lemma {:induction false} LastClaimIsARequest(es: seq<Event>)
    requires es != [] && Last(es).action == Claim && !Last(es).terminal && Last(es).lease.Some?
    ensures Last(es).lease.value in RequestLeases(es)
  {
  }

  lemma {:induction false} IntentKeepsAttempt(m: Machine, a: nat)
    requires Inv(m) && Enabled(m, Intent) && a < |m.db.attempts| + 1
    ensures AttemptOk(Do(m, Intent).db, a)
  {
    hide EventOk, RunOk, LegalLog, Claims, RequestClaims, ClaimLeases, RequestLeases, DecisionOk;
    var (db, w) := (m.db, m.slice.value.work);
    if a < |db.attempts| {
      assert AttemptOk(db, a);
    } else {
      assert LogOk(db, w.item);
      LastClaimIsARequest(db.log[w.item]);
    }
  }

  lemma {:induction false} IntentKeepsTables(m: Machine)
    requires Inv(m) && Enabled(m, Intent)
    ensures TablesOk(Do(m, Intent).db)
  {
    hide AttemptOk, WorkOk, Unique, LegalLog;
    var (db, d) := (m.db, Do(m, Intent).db);
    forall i | i in d.log ensures LogOk(d, i) { assert LogOk(db, i); }
    forall i, p: nat | i in d.log && p < |d.log[i]| ensures EventOk(d, i, d.log[i][p]) {
      assert EventOk(db, i, db.log[i][p]);
    }
    forall a: nat | a < |d.attempts| ensures AttemptOk(d, a) { IntentKeepsAttempt(m, a); }
    forall r: nat | r < |d.runs| ensures RunOk(d, r) { assert RunOk(db, r); }
  }

  lemma {:induction false} RecordOutcomeKeepsAttempt(m: Machine, outcome: Outcome, a: nat)
    requires Inv(m) && Enabled(m, RecordOutcome(outcome)) && a < |m.db.attempts|
    ensures AttemptOk(Do(m, RecordOutcome(outcome)).db, a)
  {
    hide LogOk, EventOk, RunOk, LegalLog, Claims, DecisionOk;
    assert AttemptOk(m.db, a);
  }

  lemma {:induction false} RecordOutcomeKeepsRun(m: Machine, outcome: Outcome, r: nat)
    requires Inv(m) && Enabled(m, RecordOutcome(outcome)) && r < |m.db.runs|
    ensures RunOk(Do(m, RecordOutcome(outcome)).db, r)
  {
    hide LogOk, EventOk, AttemptOk, LegalLog, Claims;
    assert RunOk(m.db, r);
  }

  lemma {:induction false} RecordOutcomeKeepsTables(m: Machine, outcome: Outcome)
    requires Inv(m) && Enabled(m, RecordOutcome(outcome))
    ensures TablesOk(Do(m, RecordOutcome(outcome)).db)
  {
    hide AttemptOk, RunOk, LegalLog, Claims, RequestClaims, WorkOk, Unique;
    var (db, d) := (m.db, Do(m, RecordOutcome(outcome)).db);
    forall i | i in d.log ensures LogOk(d, i) { assert LogOk(db, i); }
    forall i, p: nat | i in d.log && p < |d.log[i]| ensures EventOk(d, i, d.log[i][p]) {
      assert EventOk(db, i, db.log[i][p]);
    }
    forall a: nat | a < |d.attempts| ensures AttemptOk(d, a) { RecordOutcomeKeepsAttempt(m, outcome, a); }
    forall r: nat | r < |d.runs| ensures RunOk(d, r) { RecordOutcomeKeepsRun(m, outcome, r); }
  }

  lemma {:induction false} RecordOutcomeKeeps(m: Machine, outcome: Outcome)
    requires Inv(m) && Enabled(m, RecordOutcome(outcome))
    ensures Inv(Do(m, RecordOutcome(outcome)))
  {
    hide TablesOk, Claims, DecisionOk;
    RecordOutcomeKeepsTables(m, outcome);
  }

  // ---------------------------------------------------------------- leases, crashes and new items

  /** Without an active lease nothing is in flight. */
  lemma {:induction false} OpenLeaseKeeps(m: Machine, max: nat)
    requires Inv(m) && Enabled(m, OpenLease(max))
    ensures Inv(Do(m, OpenLease(max)))
  {
    hide AttemptOk, RunOk, EventOk, LegalLog, Claims, RequestClaims;
    var (db, d) := (m.db, Do(m, OpenLease(max)).db);
    forall i | i in d.log ensures LogOk(d, i) && Last(d.log[i]).state != Requesting { assert LogOk(db, i); }
    LeasesKeepTheRest(db, d.leases);
  }

  /** The rest of the tables does not depend on the state of the leases. */
  lemma {:induction false} LeasesKeepTheRest(db: Db, leases: seq<LeaseState>)
    requires TablesOk(db) && |db.leases| <= |leases|
    ensures var d := db.(leases := leases);
            && (forall i, p: nat :: i in d.log && p < |d.log[i]| ==> EventOk(d, i, d.log[i][p]))
            && (forall a: nat :: a < |d.attempts| ==> AttemptOk(d, a))
            && (forall r: nat :: r < |d.runs| ==> RunOk(d, r))
  {
    hide LogOk;
    var d := db.(leases := leases);
    forall i, p: nat | i in d.log && p < |d.log[i]| ensures EventOk(d, i, d.log[i][p]) {
      assert EventOk(db, i, db.log[i][p]);
    }
    forall a: nat | a < |d.attempts| ensures AttemptOk(d, a) { assert AttemptOk(db, a); }
    forall r: nat | r < |d.runs| ensures RunOk(d, r) { assert RunOk(db, r); }
  }

  lemma {:induction false} CloseSliceKeeps(m: Machine)
    requires Inv(m) && Enabled(m, CloseSlice)
    ensures Inv(Do(m, CloseSlice))
  {
    hide AttemptOk, RunOk, EventOk, LegalLog, Claims, RequestClaims;
    var (db, d, lease) := (m.db, Do(m, CloseSlice).db, m.slice.value.lease);
    forall i | i in d.log ensures LogOk(d, i) {
      assert LogOk(db, i);
      assert !InFlightUnder(db, i, lease);
    }
    LeasesKeepTheRest(db, d.leases);
  }

  lemma {:induction false} ExpireKeepsLogs(m: Machine, lease: nat, recovered: map<nat, Outcome>, i: nat)
    requires Inv(m) && Enabled(m, ExpireLease(lease, recovered)) && i in m.db.log
    ensures LogOk(Do(m, ExpireLease(lease, recovered)).db, i)
  {
    if InFlightUnder(m.db, i, lease) {
      ExpireAbandons(m, lease, recovered, i);
    } else {
      ExpireKeepsOtherLogs(m, lease, recovered, i);
    }
  }

  lemma {:induction false} ExpireAbandons(m: Machine, lease: nat, recovered: map<nat, Outcome>, i: nat)
    requires Inv(m) && Enabled(m, ExpireLease(lease, recovered)) && InFlightUnder(m.db, i, lease)
    ensures LogOk(Do(m, ExpireLease(lease, recovered)).db, i)
  {
    hide AttemptOk, RunOk, EventOk, LegalLog, Claims, RequestClaims, Unique, WorkOk;
    var e := Event(Abandoned, Expire, Some(lease), m.db.now, None, None, false);
    assert LogOk(m.db, i);
    DiscoveryInFlight(m.db.kinds[i], m.db.log[i]);
    LegalExtension(m.db.kinds[i], m.db.log[i], e);
    Appended(m.db.log[i], e);
  }

  /** Only one lease was active, so whatever is requesting was under it. */
  lemma {:induction false} ExpireKeepsOtherLogs(m: Machine, lease: nat, recovered: map<nat, Outcome>, i: nat)
    requires Inv(m) && Enabled(m, ExpireLease(lease, recovered)) && i in m.db.log && !InFlightUnder(m.db, i, lease)
    ensures LogOk(Do(m, ExpireLease(lease, recovered)).db, i)
  {
    hide AttemptOk, RunOk, EventOk, LegalLog, Claims, RequestClaims, WorkOk;
    assert LogOk(m.db, i);
  }

  lemma {:induction false} ExpireKeepsEvents(m: Machine, lease: nat, recovered: map<nat, Outcome>, i: nat, p: nat)
    requires Inv(m) && Enabled(m, ExpireLease(lease, recovered)) && i in m.db.log
    requires p < |Do(m, ExpireLease(lease, recovered)).db.log[i]|
    ensures EventOk(Do(m, ExpireLease(lease, recovered)).db, i, Do(m, ExpireLease(lease, recovered)).db.log[i][p])
  {
    hide AttemptOk, RunOk, LogOk;
    if p < |m.db.log[i]| {
      assert EventOk(m.db, i, m.db.log[i][p]);
    }
  }

  lemma {:induction false} ExpireKeepsAttempts(m: Machine, lease: nat, recovered: map<nat, Outcome>, a: nat)
    requires Inv(m) && Enabled(m, ExpireLease(lease, recovered)) && a < |m.db.attempts|
    ensures AttemptOk(Do(m, ExpireLease(lease, recovered)).db, a)
  {
    hide LogOk, RunOk, EventOk, LegalLog, ClaimLeases, RequestLeases;
    assert AttemptOk(m.db, a);
    var e := Event(Abandoned, Expire, Some(lease), m.db.now, None, None, false);
    Appended(m.db.log[m.db.attempts[a].item], e);
  }

  lemma {:induction false} ExpireKeepsRuns(m: Machine, lease: nat, recovered: map<nat, Outcome>, r: nat)
    requires Inv(m) && Enabled(m, ExpireLease(lease, recovered)) && r < |m.db.runs|
    ensures RunOk(Do(m, ExpireLease(lease, recovered)).db, r)
  {
    hide LogOk, AttemptOk, EventOk, LegalLog;
    assert RunOk(m.db, r);
  }

  lemma {:induction false} ExpireLeaseKeeps(m: Machine, lease: nat, recovered: map<nat, Outcome>)
    requires Inv(m) && Enabled(m, ExpireLease(lease, recovered))
    ensures Inv(Do(m, ExpireLease(lease, recovered)))
  {
    hide LogOk, AttemptOk, EventOk, RunOk, InFlightUnder;
    var d := Do(m, ExpireLease(lease, recovered)).db;
    forall i | i in d.log ensures LogOk(d, i) { ExpireKeepsLogs(m, lease, recovered, i); }
    forall i, p: nat | i in d.log && p < |d.log[i]| ensures EventOk(d, i, d.log[i][p]) {
      ExpireKeepsEvents(m, lease, recovered, i, p);
    }
    forall a: nat | a < |d.attempts| ensures AttemptOk(d, a) { ExpireKeepsAttempts(m, lease, recovered, a); }
    forall r: nat | r < |d.runs| ensures RunOk(d, r) { ExpireKeepsRuns(m, lease, recovered, r); }
  }

  lemma {:induction false} CreatedLogOk(m: Machine, item: nat, kind: Kind)
    requires Enabled(m, CreateItem(item, kind))
    ensures LogOk(Do(m, CreateItem(item, kind)).db, item)
  {
    var e := Event(Pending, Create, None, m.db.now, None, None, false);
    LegalExtension(kind, [], e);
    Appended([], e);
    assert [] + [e] == [e];
  }

  lemma {:induction false} CreateKeepsLogs(m: Machine, item: nat, kind: Kind, i: nat)
    requires Inv(m) && Enabled(m, CreateItem(item, kind)) && (i in m.db.log || i == item)
    ensures LogOk(Do(m, CreateItem(item, kind)).db, i)
  {
    hide RunOk, AttemptOk, EventOk, Unique, WorkOk, Claims, RequestClaims, LegalLog;
    if i == item {
      CreatedLogOk(m, item, kind);
    } else {
      assert LogOk(m.db, i);
    }
  }

  lemma {:induction false} CreateItemKeeps(m: Machine, item: nat, kind: Kind)
    requires Inv(m) && Enabled(m, CreateItem(item, kind))
    ensures Inv(Do(m, CreateItem(item, kind)))
  {
    hide RunOk, AttemptOk, EventOk, LogOk, Claims, DecisionOk;
    var d := Do(m, CreateItem(item, kind)).db;
    DecisionStays(m, Do(m, CreateItem(item, kind)));
    forall i | i in d.log ensures LogOk(d, i) { CreateKeepsLogs(m, item, kind, i); }
    CreateKeepsTheRest(m, item, kind);
  }

  lemma {:induction false} CreateKeepsTheRest(m: Machine, item: nat, kind: Kind)
    requires Inv(m) && Enabled(m, CreateItem(item, kind))
    ensures var d := Do(m, CreateItem(item, kind)).db;
            && (forall i, p: nat :: i in d.log && p < |d.log[i]| ==> EventOk(d, i, d.log[i][p]))
            && (forall a: nat :: a < |d.attempts| ==> AttemptOk(d, a))
            && (forall r: nat :: r < |d.runs| ==> RunOk(d, r))
  {
    hide LogOk, Unique, WorkOk;
    var (db, d) := (m.db, Do(m, CreateItem(item, kind)).db);
    forall i, p: nat | i in d.log && p < |d.log[i]| ensures EventOk(d, i, d.log[i][p]) {
      if i != item {
        assert EventOk(db, i, db.log[i][p]);
      }
    }
    forall a: nat | a < |d.attempts| ensures AttemptOk(d, a) { assert AttemptOk(db, a); }
    forall r: nat | r < |d.runs| ensures RunOk(d, r) { assert RunOk(db, r); }
  }

  lemma {:induction false} SliceOnlyKeeps(m: Machine, s: Step)
    requires Inv(m) && Enabled(m, s) && (s.EndReconcile? || s.Crash?)
    ensures Inv(Do(m, s))
  {
    hide TablesOk, Unique;
  }

  /** Every committed step of the protocol, a crash included, keeps the invariant. */
  lemma {:induction false} InvStep(m: Machine, s: Step)
    requires Inv(m) && Enabled(m, s)
    ensures Inv(Do(m, s))
  {
    hide Inv, Enabled, Do;
    match s
    case CreateItem(item, kind) => CreateItemKeeps(m, item, kind);
    case ExpireLease(lease, recovered) => ExpireLeaseKeeps(m, lease, recovered);
    case OpenLease(max) => OpenLeaseKeeps(m, max);
    case FinishAbandoned(item, run, attempt) => FinishAbandonedKeeps(m, item, run, attempt);
    case Decide(kind, item) => DecideKeeps(m, kind, item);
    case PromoteItem(item) => PromoteKeeps(m, item);
    case TerminalClaim(item) => TerminalClaimKeeps(m, item);
    case EndReconcile => SliceOnlyKeeps(m, s);
    case ClaimItem(item) => ClaimItemKeeps(m, item);
    case BeginRun => BeginRunKeeps(m);
    case Intent => IntentKeeps(m);
    case RecordOutcome(outcome) => RecordOutcomeKeeps(m, outcome);
    case Ingest => IngestKeeps(m);
    case RecordEvent => RecordEventKeeps(m);
    case CloseSlice => CloseSliceKeeps(m);
    case Crash => SliceOnlyKeeps(m, s);
    case ForeignBegin(request) => ForeignBeginKeeps(m, request);
    case ForeignFinish(run, status) => ForeignFinishKeeps(m, run, status);
    case RequeueItem(item) => RequeueKeeps(m, item);
    case ResumeItem(item) => ResumeKeeps(m, item);
  }
}
