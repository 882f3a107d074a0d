// The crash-safe discovery protocol as a machine (worker/backfill_discovery/discovery.py, f1_cycle.py and
// accounting.py over the ledger of worker/financial_backfill and worker/backfill_transport). Each step is one
// transaction, the reading of the evidence included; a crash may fall between any two. The tables are the ledger's
// own; the fields marked as history are not columns, they only let the theorems speak about provenance.
module DiscoveryLedger {
  import opened Prelude
  import opened ItemStates

  const ITEM_MAX_ATTEMPTS: nat := 3

  // ---------------------------------------------------------------- tables

  /** One row of the item's event log; at is its occurred_at, terminal marks a G10 claim. */
  datatype Event = Event(state: State, action: Action, lease: Option<nat>, at: nat, run: Option<nat>,
                         attempt: Option<nat>, terminal: bool)

  datatype LeaseState = Active | Released | Expired

  datatype RunStatus = Running | RunSucceeded | RunPartial | RunFailed

  datatype OutcomeClass = Ok | RetryableClass | TerminalClass | BlockClass

  /** A recorded outcome: a durable response (its class, and what F1 makes of it), or none that F1 may ingest. */
  datatype Outcome = Response(cls: OutcomeClass, verdict: RunStatus) | Unrecorded | SpoolFailed(sent: bool)

  predicate Ingestible(o: Option<Outcome>) {
    o.Some? && o.value.Response?
  }

  /** run (history): the F1 run begun before this attempt's intent. */
  datatype Attempt = Attempt(item: nat, lease: nat, outcome: Option<Outcome>, run: nat)

  /** A discovery item and its request determine each other, so a run names its request by the item. foreign: begun
      outside this protocol. source (history): the attempt whose response finished it. */
  datatype Run = Run(request: nat, startedAt: nat, status: RunStatus, foreign: bool, source: Option<nat>)

  /** claimed (history): which item and lease each claim time belongs to, G10 claims excepted. */
  datatype ClaimRecord = ClaimRecord(item: nat, lease: nat)

  datatype Db = Db(kinds: map<nat, Kind>, log: map<nat, seq<Event>>, leases: seq<LeaseState>, attempts: seq<Attempt>,
                   runs: seq<Run>, now: nat, claimed: map<nat, ClaimRecord>)

  function Last(es: seq<Event>): Event
    requires es != []
  {
    es[|es| - 1]
  }

  function Current(db: Db, item: nat): State {
    if item in db.log && db.log[item] != [] then Last(db.log[item]).state else NoState
  }

  // ---------------------------------------------------------------- accounting (accounting.py)

  /** C: claims since the last re-queue. */
  function Claims(es: seq<Event>): nat {
    if es == [] then 0
    else
      var e, rest := es[|es| - 1], es[..|es| - 1];
      if e.action == Requeue then 0 else if e.action == Claim then 1 + Claims(rest) else Claims(rest)
  }

  /** The claims among them that are followed by a request: all but G10's terminal claims. */
  function RequestClaims(es: seq<Event>): nat {
    if es == [] then 0
    else
      var e, rest := es[|es| - 1], es[..|es| - 1];
      if e.action == Requeue then 0
      else if e.action == Claim && !e.terminal then 1 + RequestClaims(rest) else RequestClaims(rest)
  }

  /** claim_events: the claims since the last re-queue, oldest first. */
  function ClaimEvents(es: seq<Event>): seq<Event> {
    if es == [] then []
    else
      var e, rest := es[|es| - 1], es[..|es| - 1];
      if e.action == Requeue then [] else if e.action == Claim then ClaimEvents(rest) + [e] else ClaimEvents(rest)
  }

  function ClaimLeases(es: seq<Event>): set<nat> {
    if es == [] then {}
    else
      var e, rest := es[|es| - 1], es[..|es| - 1];
      if e.action == Requeue then {}
      else if e.action == Claim && e.lease.Some? then ClaimLeases(rest) + {e.lease.value} else ClaimLeases(rest)
  }

  function RequestLeases(es: seq<Event>): set<nat> {
    if es == [] then {}
    else
      var e, rest := es[|es| - 1], es[..|es| - 1];
      if e.action == Requeue then {}
      else if e.action == Claim && !e.terminal && e.lease.Some? then RequestLeases(rest) + {e.lease.value}
      else RequestLeases(rest)
  }

  /** A: the item's HTTP attempts under the leases of its claims since the last re-queue, except one proven unsent. */
  function HttpAttempts(db: Db, item: nat): set<nat>
    requires item in db.log
  {
    set a: nat | a < |db.attempts| && db.attempts[a].item == item && db.attempts[a].lease in ClaimLeases(db.log[item])
                 && db.attempts[a].outcome != Some(SpoolFailed(false))
  }

  function OpenAttempts(db: Db, item: nat): set<nat> {
    set a: nat | a < |db.attempts| && db.attempts[a].item == item && db.attempts[a].outcome == None
  }

  predicate InFlightUnder(db: Db, item: nat, lease: nat) {
    item in db.log && db.log[item] != [] && InFlight(Last(db.log[item]).state)
    && Last(db.log[item]).lease == Some(lease)
  }

  /** Appending one event changes each count only by that event. */
  lemma {:induction false} Appended(es: seq<Event>, e: Event)
    ensures (es + [e])[..|es + [e]| - 1] == es && Last(es + [e]) == e
    ensures Claims(es + [e]) ==
            if e.action == Requeue then 0 else if e.action == Claim then 1 + Claims(es) else Claims(es)
    ensures RequestClaims(es + [e]) ==
            if e.action == Requeue then 0
            else if e.action == Claim && !e.terminal then 1 + RequestClaims(es) else RequestClaims(es)
    ensures ClaimLeases(es + [e]) ==
            if e.action == Requeue then {}
            else if e.action == Claim && e.lease.Some? then ClaimLeases(es) + {e.lease.value} else ClaimLeases(es)
    ensures RequestLeases(es + [e]) ==
            if e.action == Requeue then {}
            else if e.action == Claim && !e.terminal && e.lease.Some? then RequestLeases(es) + {e.lease.value}
            else RequestLeases(es)
    ensures ClaimEvents(es + [e]) ==
            if e.action == Requeue then [] else if e.action == Claim then ClaimEvents(es) + [e] else ClaimEvents(es)
  {
    assert (es + [e])[..|es + [e]| - 1] == es;
  }

  // ---------------------------------------------------------------- evidence

  predicate IsSuccess(s: RunStatus) {
    s == RunSucceeded || s == RunPartial
  }

  function StateFor(s: RunStatus): State
    requires IsSuccess(s)
  {
    if s == RunSucceeded then Succeeded else Partial
  }

  ghost predicate HasSuccess(db: Db, request: nat) {
    exists r: nat :: r < |db.runs| && db.runs[r].request == request && IsSuccess(db.runs[r].status)
  }

  /** This run is the request's evidence: no later run of it succeeded, fully or in part. */
  ghost predicate IsEvidence(runs: seq<Run>, request: nat, r: nat) {
    && r < |runs| && runs[r].request == request && runs[r].status in {RunSucceeded, RunPartial}
    && forall q: nat :: q < |runs| && runs[q].request == request && runs[q].status in {RunSucceeded, RunPartial} ==>
         runs[q].startedAt <= runs[r].startedAt
  }

  /** What the evidence says of the request's item. */
  ghost predicate EvidenceSays(runs: seq<Run>, request: nat, state: State) {
    || (state == Succeeded && exists r: nat :: IsEvidence(runs, request, r) && runs[r].status == RunSucceeded)
    || (state == Partial && exists r: nat :: IsEvidence(runs, request, r) && runs[r].status == RunPartial)
  }

  /** The state recorded for an answer, by its class and F1's status of it: a block blocks, a success is what F1 made of
      it, a retryable answer waits below the maximum, and any other answer fails its item, unless the evidence says
      better. */
  ghost predicate AnswerState(runs: seq<Run>, request: nat, cls: OutcomeClass, verdict: RunStatus, claims: nat,
                              max: nat, state: State) {
    && (state == Blocked <==> cls == BlockClass)
    && (state == RetryWait <==> cls == RetryableClass && claims < max)
    && (cls == Ok && verdict == RunSucceeded ==> state == Succeeded)
    && (cls == Ok && verdict == RunPartial ==> state == Partial)
    && ((cls == TerminalClass || (cls == RetryableClass && claims >= max)
         || (cls == Ok && verdict !in {RunSucceeded, RunPartial})) ==> FailedOrBetter(runs, request, state))
  }

  /** Failed, exactly when no run of the request succeeded or partially succeeded; otherwise what the evidence says. */
  ghost predicate FailedOrBetter(runs: seq<Run>, request: nat, state: State) {
    && (state == Failed <==>
          forall r: nat :: r < |runs| && runs[r].request == request ==> runs[r].status in {Running, RunFailed})
    && (state != Failed ==> EvidenceSays(runs, request, state))
  }

  /** The state recorded for a refusal that comes after the claim. */
  ghost predicate RefusalState(runs: seq<Run>, request: nat, claims: nat, max: nat, state: State) {
    && (state == RetryWait <==> claims < max)
    && (claims >= max ==> FailedOrBetter(runs, request, state))
  }

  /** success_run: the latest successful run of the request among the first n runs. */
  function LatestSuccess(runs: seq<Run>, request: nat, n: nat): (won: Option<nat>)
    requires n <= |runs|
    ensures won.Some? ==> won.value < n && runs[won.value].request == request && IsSuccess(runs[won.value].status)
    ensures won.Some? ==> forall r: nat ::
              r < n && runs[r].request == request && IsSuccess(runs[r].status) ==>
                    runs[r].startedAt <= runs[won.value].startedAt
    ensures won.None? ==> forall r: nat :: r < n && runs[r].request == request ==> !IsSuccess(runs[r].status)
  {
    if n == 0 then None
    else
      var before := LatestSuccess(runs, request, n - 1);
      var r := runs[n - 1];
      if r.request == request && IsSuccess(r.status) && (before.None? || runs[before.value].startedAt <= r.startedAt)
      then Some(n - 1) else before
  }

  function SuccessRun(db: Db, request: nat): Option<nat> {
    LatestSuccess(db.runs, request, |db.runs|)
  }

  lemma {:induction false} SuccessRunIsExact(db: Db, request: nat)
    ensures SuccessRun(db, request).Some? <==> HasSuccess(db, request)
  {
  }

  /** A failure that gives way to that run ends as the evidence says. */
  lemma {:induction false} SuccessIsEvidence(db: Db, request: nat)
    ensures SuccessRun(db, request).Some? ==>
              var won := SuccessRun(db, request).value;
              && IsEvidence(db.runs, request, won)
              && FailedOrBetter(db.runs, request, StateFor(db.runs[won].status))
              && EvidenceSays(db.runs, request, StateFor(db.runs[won].status))
    ensures SuccessRun(db, request).None? ==> FailedOrBetter(db.runs, request, Failed)
    ensures HasSuccess(db, request) <==>
            !(forall r: nat :: r < |db.runs| && db.runs[r].request == request ==>
                db.runs[r].status in {Running, RunFailed})
  {
    hide LatestSuccess;
    var won := SuccessRun(db, request);
    if won.Some? {
      assert IsEvidence(db.runs, request, won.value);
    }
  }

  /** find_run: the run begun for the claim at this time, if any. */
  function FindRun(runs: seq<Run>, request: nat, at: nat, n: nat): (found: Option<nat>)
    requires n <= |runs|
    ensures found.Some? ==> found.value < n && runs[found.value].request == request && runs[found.value].startedAt == at
    ensures found.None? ==> forall r: nat :: r < n && runs[r].request == request ==> runs[r].startedAt != at
  {
    if n == 0 then None
    else
      var before := FindRun(runs, request, at, n - 1);
      if before.Some? then before
      else if runs[n - 1].request == request && runs[n - 1].startedAt == at then Some(n - 1) else None
  }

  /** finish_from_ledger: a running run is finished from its attempt's durable response; nothing is invented. */
  function FinishFromLedger(db: Db, r: nat, a: nat): Db
    requires r < |db.runs| && a < |db.attempts|
  {
    if db.runs[r].status == Running && Ingestible(db.attempts[a].outcome)
        && db.attempts[a].outcome.value.verdict != Running
    then db.(runs := db.runs[r := db.runs[r].(status := db.attempts[a].outcome.value.verdict, source := Some(a))])
    else db
  }

  // ---------------------------------------------------------------- the machine

  /** Where the slice is inside its one request. */
  datatype Work = Idle
                | Claimed(item: nat, at: nat)
                | Begun(item: nat, at: nat, run: nat)
                | Asked(item: nat, at: nat, run: nat, attempt: nat)
                | Answered(item: nat, at: nat, run: nat, attempt: nat)
                | Ingested(item: nat, at: nat, run: nat, attempt: nat)

  /** What the slice has decided to record about an item and not committed yet. The decision is read from the evidence
      in a transaction of its own, before the one that commits it: others may act in between. */
  datatype DecisionKind = ForAnswer | ForRefusal | ForPromotion | ForTerminal
  datatype Decision = Decision(kind: DecisionKind, item: nat, state: State, run: Option<nat>, attempt: Option<nat>)

  datatype Slice = Slice(lease: nat, max: nat, attempted: set<nat>, reconciling: bool, work: Work,
                         decision: Option<Decision>)

  datatype Machine = Machine(db: Db, slice: Option<Slice>)

  function Append(db: Db, item: nat, e: Event): Db
    requires item in db.log
  {
    db.(log := db.log[item := db.log[item] + [e]], now := db.now + 1)
  }

  /** live_state: the item's state after one recorded attempt. */
  function LiveState(cls: OutcomeClass, status: RunStatus, claims: nat, max: nat): State {
    if cls == BlockClass then Blocked
    else if cls == Ok && IsSuccess(status) then StateFor(status)
    else if cls == RetryableClass && claims < max then RetryWait
    else Failed
  }

  /** The final_or_retry rule: a failure is recorded only when no run of the request succeeded. */
  function EvidenceWins(db: Db, item: nat, state: State): (State, Option<nat>) {
    var won := SuccessRun(db, item);
    if state == Failed && won.Some? then (StateFor(db.runs[won.value].status), won) else (state, None)
  }

  /** The F1 run the event names: the winner, or the claim's own run when it supports the state; never a running one. */
  function NamedRun(db: Db, won: Option<nat>, state: State, run: Option<nat>): Option<nat>
    requires run.Some? ==> run.value < |db.runs|
  {
    if won.Some? then won
    else if run.Some? && (db.runs[run.value].status == RunFailed ||
                          (state in {Succeeded, Partial} && IsSuccess(db.runs[run.value].status)))
    then run else None
  }

  datatype Step =
    | CreateItem(item: nat, kind: Kind)
    | ExpireLease(lease: nat, recovered: map<nat, Outcome>)
    | OpenLease(max: nat)
    | FinishAbandoned(item: nat, run: nat, attempt: nat)
    | Decide(occasion: DecisionKind, item: nat)
    | PromoteItem(item: nat)
    | TerminalClaim(item: nat)
    | EndReconcile
    | ClaimItem(item: nat)
    | BeginRun
    | Intent
    | RecordOutcome(outcome: Outcome)
    | Ingest
    | RecordEvent
    | CloseSlice
    | Crash
    | ForeignBegin(request: nat)
    | ForeignFinish(run: nat, status: RunStatus)
    | RequeueItem(item: nat)
    | ResumeItem(item: nat)

  /** Every ingestible attempt of the abandoned item's dead claim has been ingested. */
  ghost predicate EvidenceSettled(db: Db, item: nat)
    requires item in db.log && db.log[item] != []
  {
    var lease := Last(db.log[item]).lease;
    forall a: nat ::
      (a < |db.attempts| && IsAttemptUnder(db.attempts[a], item, lease) && Ingestible(db.attempts[a].outcome)) ==>
            IngestedFrom(db, a)
  }

  predicate IsAttemptUnder(a: Attempt, item: nat, lease: Option<nat>) {
    a.item == item && lease == Some(a.lease)
  }

  ghost predicate IngestedFrom(db: Db, a: nat)
    requires a < |db.attempts|
  {
    db.attempts[a].run < |db.runs| && db.runs[db.attempts[a].run].source == Some(a)
  }

  ghost predicate InSlice(m: Machine, reconciling: bool) {
    m.slice.Some? && m.slice.value.reconciling == reconciling
  }

  /** In the slice, with no decision waiting to be committed. */
  ghost predicate Undecided(m: Machine, reconciling: bool) {
    InSlice(m, reconciling) && m.slice.value.decision.None?
  }

  /** When the code decides: on an ingested answer, on a refusal before any intent, on an abandoned item whose
      evidence is ingested, and on an item that waits at the armed maximum with every attempt closed. */
  ghost predicate Decides(m: Machine, kind: DecisionKind, item: nat) {
    var db := m.db;
    m.slice.Some? &&
    match kind
    case ForAnswer =>
      var w := m.slice.value.work;
      !m.slice.value.reconciling && w.Ingested? && w.item == item && item in db.log && w.run < |db.runs|
      && w.attempt < |db.attempts| && Ingestible(db.attempts[w.attempt].outcome)
    case ForRefusal =>
      var w := m.slice.value.work;
      !m.slice.value.reconciling && (w.Claimed? || w.Begun?) && w.item == item && item in db.log
      && (w.Begun? ==> w.run < |db.runs|)
    case ForPromotion => m.slice.value.reconciling && Current(db, item) == Abandoned && EvidenceSettled(db, item)
    case ForTerminal =>
      m.slice.value.reconciling && Current(db, item) in {Pending, RetryWait}
      && Claims(db.log[item]) >= m.slice.value.max && OpenAttempts(db, item) == {}
  }

  /** The ledger's own guard on a failure: one that names no run is refused while a run of the request has succeeded. */
  ghost predicate GuardAccepts(db: Db, d: Decision) {
    d.state == Failed && d.run.None? ==> !HasSuccess(db, d.item)
  }

  ghost predicate Decided(m: Machine, kinds: set<DecisionKind>, item: nat) {
    && m.slice.Some? && m.slice.value.decision.Some?
    && m.slice.value.decision.value.kind in kinds && m.slice.value.decision.value.item == item
    && item in m.db.log && m.db.log[item] != [] && GuardAccepts(m.db, m.slice.value.decision.value)
  }

  /** When each transaction can commit: the ledger's guards, and the order in which the code issues them. */
  ghost predicate Enabled(m: Machine, s: Step) {
    var db := m.db;
    match s
    case CreateItem(item, kind) => item !in db.log && kind != Document
    case ExpireLease(lease, recovered) =>
      m.slice.None? && lease < |db.leases| && db.leases[lease] == Active
      && (forall a :: a in recovered ==> recovered[a].Response? ==> recovered[a].verdict != Running)
    case OpenLease(max) =>
      m.slice.None? && 1 <= max <= ITEM_MAX_ATTEMPTS && forall l: nat :: l < |db.leases| ==> db.leases[l] != Active
    case FinishAbandoned(item, run, attempt) =>
      Undecided(m, true) && Current(db, item) == Abandoned && run < |db.runs| && attempt < |db.attempts|
      && db.attempts[attempt].item == item && db.runs[run].request == item
      && db.runs[run].startedAt in db.claimed
      && db.claimed[db.runs[run].startedAt] == ClaimRecord(item, db.attempts[attempt].lease)
    case Decide(kind, item) => m.slice.Some? && m.slice.value.decision.None? && Decides(m, kind, item)
    case PromoteItem(item) => Decided(m, {ForPromotion}, item)
    case TerminalClaim(item) => Decided(m, {ForTerminal}, item)
    case EndReconcile => Undecided(m, true)
    case ClaimItem(item) =>
      Undecided(m, false) && m.slice.value.work == Idle && Current(db, item) in {Pending, RetryWait}
      && Claims(db.log[item]) < m.slice.value.max && item !in m.slice.value.attempted
    case BeginRun => Undecided(m, false) && m.slice.value.work.Claimed?
    case Intent => Undecided(m, false) && m.slice.value.work.Begun?
    case RecordOutcome(outcome) =>
      Undecided(m, false) && m.slice.value.work.Asked? && (outcome.Response? ==> outcome.verdict != Running)
    case Ingest => Undecided(m, false) && m.slice.value.work.Answered?
    case RecordEvent =>
      m.slice.Some? && m.slice.value.work != Idle && Decided(m, {ForAnswer, ForRefusal}, m.slice.value.work.item)
    case CloseSlice =>
      m.slice.Some? && (forall item: nat :: !InFlightUnder(db, item, m.slice.value.lease))
      && forall a: nat :: a < |db.attempts| && db.attempts[a].lease == m.slice.value.lease ==>
            db.attempts[a].outcome.Some?
    case Crash => m.slice.Some?
    case ForeignBegin(request) => true
    case ForeignFinish(run, status) =>
      run < |db.runs| && db.runs[run].foreign && db.runs[run].status == Running && status != Running
    case RequeueItem(item) => Current(db, item) in {Succeeded, Partial, Failed}
    case ResumeItem(item) => Current(db, item) == Blocked
  }

  /** The last attempt of an item under a lease. */
  function LastAttempt(attempts: seq<Attempt>, item: nat, lease: nat, n: nat): (found: Option<nat>)
    requires n <= |attempts|
    ensures found.Some? ==>
              found.value < n && attempts[found.value].item == item && attempts[found.value].lease == lease
    ensures found.None? ==> forall a: nat :: a < n && attempts[a].item == item ==> attempts[a].lease != lease
  {
    if n == 0 then None
    else if attempts[n - 1].item == item && attempts[n - 1].lease == lease then Some(n - 1)
    else LastAttempt(attempts, item, lease, n - 1)
  }

  /** The lease of the claim made at this time. */
  function ClaimAt(es: seq<Event>, at: nat): (lease: Option<nat>)
    ensures lease.Some? ==> exists e :: e in es && e.action == Claim && e.at == at && e.lease == lease
  {
    if es == [] then None
    else if Last(es).action == Claim && Last(es).at == at then Last(es).lease else ClaimAt(es[..|es| - 1], at)
  }

  /** attempt_of_run, and its form in the recovery: the attempt behind a run begun for one of these claims. */
  function AttemptOfRun(db: Db, item: nat, claims: seq<Event>, r: nat): Option<nat>
    requires r < |db.runs|
  {
    var lease := ClaimAt(claims, db.runs[r].startedAt);
    if lease.Some? then LastAttempt(db.attempts, item, lease.value, |db.attempts|) else None
  }

  /** What _final_or_retry decides to record for this claim. */
  function OutcomeDecision(db: Db, kind: DecisionKind, item: nat, state: State, run: Option<nat>, attempt: Option<nat>)
    : Decision
    requires item in db.log && (run.Some? ==> run.value < |db.runs|)
  {
    var (final, won) := EvidenceWins(db, item, state);
    Decision(kind, item, final, NamedRun(db, won, final, run),
             if won.Some? then AttemptOfRun(db, item, db.log[item], won.value) else attempt)
  }

  /** To the successful run's status, or back to pending. */
  function PromoteDecision(db: Db, item: nat): Decision
    requires item in db.log
  {
    var won := SuccessRun(db, item);
    Decision(ForPromotion, item, if won.Some? then StateFor(db.runs[won.value].status) else Pending, won,
             if won.Some? then AttemptOfRun(db, item, ClaimEvents(db.log[item]), won.value) else None)
  }

  /** The last claim's own run, named by a G10 failure only when it failed. */
  function LastClaimRun(db: Db, item: nat): Option<nat>
    requires item in db.log
  {
    var claims := ClaimEvents(db.log[item]);
    if claims == [] then None
    else
      var r := FindRun(db.runs, item, claims[|claims| - 1].at, |db.runs|);
      if r.Some? && db.runs[r.value].status == RunFailed then r else None
  }

  /** terminalise: the final state and the run it names. */
  function FinalDecision(db: Db, item: nat): (State, Option<nat>)
    requires item in db.log
  {
    var won := SuccessRun(db, item);
    if won.Some? then (StateFor(db.runs[won.value].status), won) else (Failed, LastClaimRun(db, item))
  }

  /** The decision the code takes now. */
  function DecisionNow(m: Machine, kind: DecisionKind, item: nat): Decision
    requires Decides(m, kind, item)
  {
    var (db, w) := (m.db, m.slice.value.work);
    match kind
    case ForAnswer =>
      OutcomeDecision(db, kind, item, LiveState(db.attempts[w.attempt].outcome.value.cls, db.runs[w.run].status,
                                                Claims(db.log[item]), m.slice.value.max),
                      Some(w.run), Some(w.attempt))
    case ForRefusal =>
      OutcomeDecision(db, kind, item, if Claims(db.log[item]) >= m.slice.value.max then Failed else RetryWait,
                      if w.Begun? then Some(w.run) else None, None)
    case ForPromotion => PromoteDecision(db, item)
    case ForTerminal =>
      var (final, run) := FinalDecision(db, item);
      Decision(ForTerminal, item, final, run, None)
  }

  /** The event that commits a decision at this time. */
  function EventOf(d: Decision, action: Action, lease: Option<nat>, at: nat): Event {
    Event(d.state, action, lease, at, d.run, d.attempt, false)
  }

  /** G10 in one transaction: from pending (or to a success) a terminal claim and the record; otherwise the record. */
  function Terminalised(db: Db, d: Decision, lease: nat): Db
    requires d.item in db.log && db.log[d.item] != []
  {
    if Last(db.log[d.item]).state == Pending || d.state != Failed then
      var claimed := Append(db, d.item, Event(Requesting, Claim, Some(lease), db.now, None, None, true));
      Append(claimed, d.item, EventOf(d, Record, Some(lease), claimed.now))
    else Append(db, d.item, EventOf(d, Record, None, db.now))
  }

  /** One dead lease's expiry: its open attempts get outcomes (from the spool, or 'unrecorded'), its in-flight item is
      abandoned. */
  function Recovered(attempts: seq<Attempt>, lease: nat, recovered: map<nat, Outcome>): seq<Attempt> {
    seq(|attempts|, i requires 0 <= i < |attempts| =>
      if attempts[i].lease == lease && attempts[i].outcome == None
      then attempts[i].(outcome := Some(if i in recovered then recovered[i] else Unrecorded)) else attempts[i])
  }

  function AbandonAll(db: Db, lease: nat): map<nat, seq<Event>> {
    map item | item in db.log ::
      if InFlightUnder(db, item, lease)
      then db.log[item] + [Event(Abandoned, Expire, Some(lease), db.now, None, None, false)] else db.log[item]
  }

  function Do(m: Machine, s: Step): Machine
    requires Enabled(m, s)
  {
    var db := m.db;
    match s
    case CreateItem(item, kind) =>
      m.(db := db.(kinds := db.kinds[item := kind], now := db.now + 1,
                   log := db.log[item := [Event(Pending, Create, None, db.now, None, None, false)]]))
    case ExpireLease(lease, recovered) =>
      m.(db := db.(leases := db.leases[lease := Expired], attempts := Recovered(db.attempts, lease, recovered),
                   log := AbandonAll(db, lease), now := db.now + 1))
    case OpenLease(max) =>
      Machine(db.(leases := db.leases + [Active]), Some(Slice(|db.leases|, max, {}, true, Idle, None)))
    case FinishAbandoned(item, run, attempt) => m.(db := FinishFromLedger(db, run, attempt))
    case Decide(kind, item) => m.(slice := Some(m.slice.value.(decision := Some(DecisionNow(m, kind, item)))))
    case PromoteItem(item) =>
      Machine(Append(db, item, EventOf(m.slice.value.decision.value, Promote, None, db.now)),
              Some(m.slice.value.(decision := None)))
    case TerminalClaim(item) =>
      Machine(Terminalised(db, m.slice.value.decision.value, m.slice.value.lease),
              Some(m.slice.value.(decision := None)))
    case EndReconcile => m.(slice := Some(m.slice.value.(reconciling := false)))
    case ClaimItem(item) =>
      var sl := m.slice.value;
      Machine(Append(db, item, Event(Requesting, Claim, Some(sl.lease), db.now, None, None, false))
                .(claimed := db.claimed[db.now := ClaimRecord(item, sl.lease)]),
              Some(sl.(attempted := sl.attempted + {item}, work := Claimed(item, db.now))))
    case BeginRun =>
      var w := m.slice.value.work;
      Machine(db.(runs := db.runs + [Run(w.item, w.at, Running, false, None)]),
              Some(m.slice.value.(work := Begun(w.item, w.at, |db.runs|))))
    case Intent =>
      var w := m.slice.value.work;
      Machine(db.(attempts := db.attempts + [Attempt(w.item, m.slice.value.lease, None, w.run)]),
              Some(m.slice.value.(work := Asked(w.item, w.at, w.run, |db.attempts|))))
    case RecordOutcome(outcome) =>
      var w := m.slice.value.work;
      if w.attempt >= |db.attempts| then m
      else Machine(db.(attempts := db.attempts[w.attempt := db.attempts[w.attempt].(outcome := Some(outcome))]),
                   Some(m.slice.value.(work := Answered(w.item, w.at, w.run, w.attempt))))
    case Ingest =>
      var w := m.slice.value.work;
      if w.run >= |db.runs| || w.attempt >= |db.attempts| then m
      else Machine(FinishFromLedger(db, w.run, w.attempt),
                   Some(m.slice.value.(work := Ingested(w.item, w.at, w.run, w.attempt))))
    case RecordEvent =>
      var sl := m.slice.value;
      Machine(Append(db, sl.work.item, EventOf(sl.decision.value, Record, Some(sl.lease), db.now)),
              Some(sl.(work := Idle, decision := None)))
    case CloseSlice =>
      var lease := m.slice.value.lease;
      Machine(db.(leases := if lease < |db.leases| then db.leases[lease := Released] else db.leases), None)
    case Crash => m.(slice := None)
    case ForeignBegin(request) =>
      m.(db := db.(runs := db.runs + [Run(request, db.now, Running, true, None)], now := db.now + 1))
    case ForeignFinish(run, status) => m.(db := db.(runs := db.runs[run := db.runs[run].(status := status)]))
    case RequeueItem(item) => m.(db := Append(db, item, Event(Pending, Requeue, None, db.now, None, None, false)))
    case ResumeItem(item) => m.(db := Append(db, item, Event(Pending, Resume, None, db.now, None, None, false)))
  }

  // ---------------------------------------------------------------- what every run keeps

  ghost predicate LegalLog(k: Kind, es: seq<Event>) {
    es == [] ||
    (LegalLog(k, es[..|es| - 1]) &&
     Allowed(k, if |es| == 1 then NoState else es[|es| - 2].state, Last(es).state, Last(es).action))
  }

  /** An in-flight or abandoned item stands right after the claim that took it, under that claim's lease. */
  ghost predicate ClaimShape(db: Db, item: nat, es: seq<Event>)
    requires es != []
  {
    && (Last(es).state == Requesting ==> IsClaimOf(db, item, Last(es)))
    && (Last(es).state == Abandoned ==>
          |es| >= 2 && IsClaimOf(db, item, es[|es| - 2]) && Last(es).lease == es[|es| - 2].lease)
  }

  ghost predicate IsClaimOf(db: Db, item: nat, e: Event) {
    && e.action == Claim && !e.terminal && e.lease.Some? && e.lease.value < |db.leases|
    && e.at in db.claimed && db.claimed[e.at] == ClaimRecord(item, e.lease.value)
  }

  ghost predicate LogOk(db: Db, item: nat)
    requires item in db.log
  {
    var es := db.log[item];
    && es != [] && item in db.kinds && db.kinds[item] != Document && LegalLog(db.kinds[item], es)
    && ClaimShape(db, item, es)
    && (Last(es).state == Requesting ==> db.leases[Last(es).lease.value] == Active)
    && RequestClaims(es) <= ITEM_MAX_ATTEMPTS
    && Claims(es) <= RequestClaims(es) + (if Last(es).state in {Succeeded, Partial, Failed} then 1 else 0)
  }

  ghost predicate RunOk(db: Db, r: nat)
    requires r < |db.runs|
  {
    var run := db.runs[r];
    && run.startedAt < db.now
    && (run.foreign ==> run.startedAt !in db.claimed && run.source == None)
    && (!run.foreign ==> run.startedAt in db.claimed && db.claimed[run.startedAt].item == run.request)
    && (!run.foreign ==> (run.status != Running <==> run.source.Some?))
    && (run.source.Some? ==>
          var a := run.source.value;
          a < |db.attempts| && db.attempts[a].run == r && Ingestible(db.attempts[a].outcome)
          && db.attempts[a].outcome.value.verdict == run.status)
  }

  ghost predicate AttemptOk(db: Db, a: nat)
    requires a < |db.attempts|
  {
    var att := db.attempts[a];
    && att.run < |db.runs| && !db.runs[att.run].foreign && db.runs[att.run].request == att.item
    && db.runs[att.run].startedAt in db.claimed
    && db.claimed[db.runs[att.run].startedAt] == ClaimRecord(att.item, att.lease)
    && (Ingestible(att.outcome) ==> att.outcome.value.verdict != Running)
    && att.item in db.log && db.log[att.item] != []
    && (att.outcome == None ==>
          Last(db.log[att.item]).state == Requesting && Last(db.log[att.item]).lease == Some(att.lease))
    && (Ingestible(att.outcome) && !IngestedFrom(db, a) ==>
          Last(db.log[att.item]).state in {Requesting, Abandoned} && Last(db.log[att.item]).lease == Some(att.lease))
    && (att.lease in ClaimLeases(db.log[att.item]) ==> att.lease in RequestLeases(db.log[att.item]))
  }

  /** What an event names: a success its run, and only ever a finished run of the same request that supports the state;
      with a success, no attempt but the one whose response finished that run. */
  ghost predicate NamesOk(db: Db, item: nat, e: Event) {
    && (e.state in {Succeeded, Partial} ==> e.run.Some?)
    && (e.run.Some? ==> NamedRunOk(db, item, e))
  }

  ghost predicate NamedRunOk(db: Db, item: nat, e: Event)
    requires e.run.Some?
  {
    && e.run.value < |db.runs| && db.runs[e.run.value].request == item && db.runs[e.run.value].status != Running
    && (e.state == Failed ==> db.runs[e.run.value].status == RunFailed)
    && (e.state in {Succeeded, Partial} ==>
          && IsSuccess(db.runs[e.run.value].status) && e.state == StateFor(db.runs[e.run.value].status)
          && (e.attempt.Some? ==> db.runs[e.run.value].source == e.attempt))
  }

  ghost predicate NoRunAt(db: Db, at: nat) {
    forall r: nat :: r < |db.runs| ==> db.runs[r].startedAt != at
  }

  ghost predicate EventOk(db: Db, item: nat, e: Event) {
    && NamesOk(db, item, e)
    && e.at < db.now
    && (e.action == Claim && !e.terminal ==> IsClaimOf(db, item, e))
    && (e.action == Claim && e.terminal ==> e.at !in db.claimed && NoRunAt(db, e.at))
  }

  ghost predicate TablesOk(db: Db) {
    && (forall item :: item in db.log ==> LogOk(db, item))
    && (forall item, p: nat :: item in db.log && p < |db.log[item]| ==> EventOk(db, item, db.log[item][p]))
    && (forall r: nat :: r < |db.runs| ==> RunOk(db, r))
    && (forall a: nat :: a < |db.attempts| ==> AttemptOk(db, a))
  }

  /** No two runs share a start time, no two claims a lease and an item, no two attempts a claim. */
  ghost predicate Unique(db: Db) {
    && (forall r: nat, q: nat :: r < q < |db.runs| ==> db.runs[r].startedAt != db.runs[q].startedAt)
    && (forall t, u :: t in db.claimed && u in db.claimed && db.claimed[t] == db.claimed[u] ==> t == u)
    && (forall t :: t in db.claimed ==> t < db.now && db.claimed[t].lease < |db.leases| && db.claimed[t].item in db.log)
    && (forall a: nat, b: nat :: a < b < |db.attempts| ==> db.attempts[a].run != db.attempts[b].run)
    && (forall l: nat, k: nat ::
          l < |db.leases| && k < |db.leases| && db.leases[l] == Active && db.leases[k] == Active ==> l == k)
  }

  /** A waiting decision: its occasion still stands, and what it names is still evidence. */
  ghost predicate DecisionOk(m: Machine, d: Decision) {
    && Decides(m, d.kind, d.item)
    && NamesOk(m.db, d.item, EventOf(d, Record, None, m.db.now))
    && match d.kind
       case ForAnswer => d.state in {Succeeded, Partial, Failed, RetryWait, Blocked}
       case ForRefusal => d.state in {Succeeded, Partial, Failed, RetryWait}
       case ForPromotion => d.state in {Succeeded, Partial, Pending}
       case ForTerminal => d.state in {Succeeded, Partial, Failed}
  }

  /** Where the slice's work stands in the tables. */
  ghost predicate WorkBase(db: Db, sl: Slice) {
    var w := sl.work;
    && sl.lease < |db.leases| && db.leases[sl.lease] == Active && 1 <= sl.max <= ITEM_MAX_ATTEMPTS
    && (sl.reconciling ==> w == Idle && forall t :: t in db.claimed ==> db.claimed[t].lease != sl.lease)
    && (forall t :: t in db.claimed && db.claimed[t].lease == sl.lease ==> db.claimed[t].item in sl.attempted)
    && (forall item :: item in db.log && db.log[item] != [] && Last(db.log[item]).state == Requesting
                       ==> w != Idle && w.item == item)
    && (w != Idle ==>
          && w.item in db.log && db.log[w.item] != [] && Last(db.log[w.item]).state == Requesting
          && Last(db.log[w.item]).lease == Some(sl.lease) && Last(db.log[w.item]).at == w.at
          && w.at in db.claimed && db.claimed[w.at] == ClaimRecord(w.item, sl.lease)
          && Claims(db.log[w.item]) <= sl.max)
    && (w.Claimed? ==> NoRunAt(db, w.at))
    && (w.Begun? || w.Asked? || w.Answered? || w.Ingested? ==>
          w.run < |db.runs| && db.runs[w.run].request == w.item && db.runs[w.run].startedAt == w.at
          && !db.runs[w.run].foreign)
    && (w.Begun? ==>
          db.runs[w.run].status == Running && forall a: nat :: a < |db.attempts| ==> db.attempts[a].run != w.run)
    && (w.Asked? || w.Answered? || w.Ingested? ==>
          w.attempt < |db.attempts| && db.attempts[w.attempt].item == w.item && db.attempts[w.attempt].lease == sl.lease
          && db.attempts[w.attempt].run == w.run)
    && (w.Asked? ==> db.attempts[w.attempt].outcome == None && db.runs[w.run].status == Running)
    && (w.Answered? ==> db.attempts[w.attempt].outcome.Some? && db.runs[w.run].status == Running)
    && (w.Ingested? ==> db.attempts[w.attempt].outcome.Some?
                        && (Ingestible(db.attempts[w.attempt].outcome) ==> db.runs[w.run].source == Some(w.attempt)))
  }

  ghost predicate WorkOk(m: Machine, sl: Slice) {
    WorkBase(m.db, sl) && (sl.decision.Some? ==> DecisionOk(Machine(m.db, Some(sl)), sl.decision.value))
  }

  /** The invariant of the protocol: it holds initially and after every committed step of every run. */
  ghost predicate Inv(m: Machine) {
    TablesOk(m.db) && Unique(m.db) && (m.slice.Some? ==> WorkOk(m, m.slice.value))
  }

  const EMPTY := Machine(Db(map[], map[], [], [], [], 0, map[]), None)

  lemma {:induction false} InvInitially()
    ensures Inv(EMPTY)
  {
  }
}
