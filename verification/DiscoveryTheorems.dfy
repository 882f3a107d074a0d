// What the invariant of the discovery protocol means over whole runs: nothing in flight without its lease, no
// response lost or ingested twice, bounded requests, when exactly a failure stands against evidence, and every item
// settled after finitely many slices. A run is any sequence of committed steps with crashes anywhere between them.
module DiscoveryTheorems {
  import opened Prelude
  import opened ItemStates
  import opened DiscoveryLedger
  import opened DiscoveryRuns

  ghost predicate Behaviour(ms: seq<Machine>, ss: seq<Step>) {
    |ms| == |ss| + 1 && ms[0] == EMPTY && forall i :: 0 <= i < |ss| ==> Follows(ms[i], ss[i], ms[i + 1])
  }

  ghost predicate Follows(m: Machine, s: Step, n: Machine) {
    Enabled(m, s) && n == Do(m, s)
  }

  lemma {:induction false} InvAlways(ms: seq<Machine>, ss: seq<Step>, i: nat)
    requires Behaviour(ms, ss) && i < |ms|
    ensures Inv(ms[i])
  {
    hide Inv, Enabled, Do;
    if i == 0 {
      InvInitially();
    } else {
      InvAlways(ms, ss, i - 1);
      assert Follows(ms[i - 1], ss[i - 1], ms[i - 1 + 1]);
      InvStep(ms[i - 1], ss[i - 1]);
    }
  }

  // ---------------------------------------------------------------- leases

  /** In every reachable state an item in flight is under a lease that is still active, taken by a claim of its own. */
  lemma {:induction false} InFlightUnderActiveLease(ms: seq<Machine>, ss: seq<Step>, i: nat, item: nat, lease: nat)
    requires Behaviour(ms, ss) && i < |ms| && InFlightUnder(ms[i].db, item, lease)
    ensures lease < |ms[i].db.leases| && ms[i].db.leases[lease] == Active
    ensures Last(ms[i].db.log[item]).action == Claim && !Last(ms[i].db.log[item]).terminal
  {
    InvAlways(ms, ss, i);
    assert LogOk(ms[i].db, item);
    DiscoveryInFlight(ms[i].db.kinds[item], ms[i].db.log[item]);
  }

  /** A lease that is released or expired has nothing in flight, and all its attempts have outcomes. */
  lemma {:induction false} EndedLeaseIsEmpty(ms: seq<Machine>, ss: seq<Step>, i: nat, lease: nat)
    requires Behaviour(ms, ss) && i < |ms| && lease < |ms[i].db.leases| && ms[i].db.leases[lease] != Active
    ensures forall item: nat :: !InFlightUnder(ms[i].db, item, lease)
    ensures forall a: nat :: a < |ms[i].db.attempts| && ms[i].db.attempts[a].lease == lease ==>
              ms[i].db.attempts[a].outcome.Some?
  {
    InvAlways(ms, ss, i);
    var db := ms[i].db;
    forall item: nat ensures !InFlightUnder(db, item, lease) {
      if InFlightUnder(db, item, lease) {
        InFlightUnderActiveLease(ms, ss, i, item, lease);
      }
    }
    forall a: nat | a < |db.attempts| && db.attempts[a].lease == lease ensures db.attempts[a].outcome.Some? {
      assert AttemptOk(db, a);
      assert LogOk(db, db.attempts[a].item);
    }
  }

  // ---------------------------------------------------------------- no response lost, none ingested twice

  /** Once an item is neither in flight nor abandoned, each response under its claims has finished the run begun for
      that claim, with what F1 made of that response. */
  lemma {:induction false} NoResponseIsLost(ms: seq<Machine>, ss: seq<Step>, i: nat, a: nat)
    requires Behaviour(ms, ss) && i < |ms| && a < |ms[i].db.attempts| && Ingestible(ms[i].db.attempts[a].outcome)
    requires Current(ms[i].db, ms[i].db.attempts[a].item) !in {Requesting, Abandoned}
    ensures var (db, att) := (ms[i].db, ms[i].db.attempts[a]);
            && att.run < |db.runs| && db.runs[att.run].request == att.item
            && db.runs[att.run].source == Some(a) && db.runs[att.run].status == att.outcome.value.verdict
            && db.runs[att.run].startedAt in db.claimed
            && db.claimed[db.runs[att.run].startedAt] == ClaimRecord(att.item, att.lease)
  {
    hide LogOk, EventOk, Unique;
    InvAlways(ms, ss, i);
    assert AttemptOk(ms[i].db, a);
    assert RunOk(ms[i].db, ms[i].db.attempts[a].run);
  }

  /** Each claim begins at most one run and makes at most one attempt; each attempt finishes at most one run. */
  lemma {:induction false} OneRunPerClaim(ms: seq<Machine>, ss: seq<Step>, i: nat)
    requires Behaviour(ms, ss) && i < |ms|
    ensures var db := ms[i].db;
            && (forall r: nat, q: nat :: r < q < |db.runs| && !db.runs[r].foreign && !db.runs[q].foreign
                  ==> db.runs[r].startedAt in db.claimed && db.runs[q].startedAt in db.claimed
                      && db.claimed[db.runs[r].startedAt] != db.claimed[db.runs[q].startedAt])
            && (forall a: nat, b: nat :: a < b < |db.attempts| && db.attempts[a].item == db.attempts[b].item
                  ==> db.attempts[a].lease != db.attempts[b].lease)
            && (forall r: nat, q: nat :: r < q < |db.runs| && db.runs[r].source.Some? ==>
                  db.runs[r].source != db.runs[q].source)
  {
    InvAlways(ms, ss, i);
    OneRunPerClaimIn(ms[i].db);
  }

  lemma {:induction false} OneRunPerClaimIn(db: Db)
    requires TablesOk(db) && Unique(db)
    ensures forall r: nat, q: nat :: r < q < |db.runs| && !db.runs[r].foreign && !db.runs[q].foreign
              ==> db.runs[r].startedAt in db.claimed && db.runs[q].startedAt in db.claimed
                  && db.claimed[db.runs[r].startedAt] != db.claimed[db.runs[q].startedAt]
    ensures forall a: nat, b: nat :: a < b < |db.attempts| && db.attempts[a].item == db.attempts[b].item
              ==> db.attempts[a].lease != db.attempts[b].lease
    ensures forall r: nat, q: nat :: r < q < |db.runs| && db.runs[r].source.Some? ==>
              db.runs[r].source != db.runs[q].source
  {
    hide LogOk, EventOk;
    forall r: nat, q: nat | r < q < |db.runs| && !db.runs[r].foreign && !db.runs[q].foreign
      ensures db.runs[r].startedAt in db.claimed && db.runs[q].startedAt in db.claimed
              && db.claimed[db.runs[r].startedAt] != db.claimed[db.runs[q].startedAt]
    {
      assert RunOk(db, r) && RunOk(db, q);
    }
    forall a: nat, b: nat | a < b < |db.attempts| && db.attempts[a].item == db.attempts[b].item
      ensures db.attempts[a].lease != db.attempts[b].lease
    {
      SameClaimSameAttempt(db, a, b);
    }
    forall r: nat, q: nat | r < q < |db.runs| && db.runs[r].source.Some?
      ensures db.runs[r].source != db.runs[q].source
    {
      assert RunOk(db, r) && RunOk(db, q);
    }
  }

  lemma {:induction false} SameClaimSameAttempt(db: Db, a: nat, b: nat)
    requires TablesOk(db) && Unique(db) && a < |db.attempts| && b < |db.attempts|
    requires db.attempts[a].item == db.attempts[b].item
    ensures db.attempts[a].lease == db.attempts[b].lease ==> a == b
  {
    hide LogOk, EventOk, RunOk;
    if db.attempts[a].lease == db.attempts[b].lease {
      assert AttemptOk(db, b);
      AttemptRunIsTheClaimsRun(db, a, db.attempts[b].run);
      OneAttemptPerRun(db, a, b);
    }
  }

  /** A run, once finished, is never finished again: no later step changes it. */
  lemma {:induction false} FinishedOnce(ms: seq<Machine>, ss: seq<Step>, i: nat, j: nat, r: nat)
    requires Behaviour(ms, ss) && i <= j < |ms| && r < |ms[i].db.runs| && ms[i].db.runs[r].status != Running
    ensures r < |ms[j].db.runs| && ms[j].db.runs[r] == ms[i].db.runs[r]
    decreases j
  {
    hide Inv, Enabled, Do;
    if i < j {
      FinishedOnce(ms, ss, i, j - 1, r);
      assert Follows(ms[j - 1], ss[j - 1], ms[j - 1 + 1]);
      InvAlways(ms, ss, j - 1);
      FinishedStays(ms[j - 1], ss[j - 1], r);
    }
  }

  lemma {:induction false} FinishedStays(m: Machine, s: Step, r: nat)
    requires Inv(m) && Enabled(m, s) && r < |m.db.runs| && m.db.runs[r].status != Running
    ensures r < |Do(m, s).db.runs| && Do(m, s).db.runs[r] == m.db.runs[r]
  {
    hide Inv;
  }

  // ---------------------------------------------------------------- how one step changes one item's log

  function Waiting(m: Machine): Option<Decision> {
    if m.slice.Some? then m.slice.value.decision else None
  }

  function Added(m: Machine, s: Step, item: nat): seq<Event>
    requires item in m.db.log
  {
    var db := m.db;
    match s
    case ExpireLease(lease, _) =>
      if InFlightUnder(db, item, lease) then [Event(Abandoned, Expire, Some(lease), db.now, None, None, false)] else []
    case PromoteItem(i) =>
      if i == item && Waiting(m).Some? then [EventOf(Waiting(m).value, Promote, None, db.now)] else []
    case TerminalClaim(i) =>
      if i != item || Waiting(m).None? || db.log[item] == [] then []
      else if Last(db.log[item]).state == Pending || Waiting(m).value.state != Failed
      then TerminalEvents(db, Waiting(m).value, m.slice.value.lease)
      else [EventOf(Waiting(m).value, Record, None, db.now)]
    case ClaimItem(i) => if i == item && m.slice.Some? then [ClaimEvent(db, m.slice.value.lease)] else []
    case RecordEvent =>
      if Waiting(m).Some? && m.slice.value.work != Idle && m.slice.value.work.item == item
      then [EventOf(Waiting(m).value, Record, Some(m.slice.value.lease), db.now)] else []
    case RequeueItem(i) => if i == item then [Event(Pending, Requeue, None, db.now, None, None, false)] else []
    case ResumeItem(i) => if i == item then [Event(Pending, Resume, None, db.now, None, None, false)] else []
    case _ => []
  }

  lemma {:induction false} LogGrows(m: Machine, s: Step, item: nat)
    requires Enabled(m, s) && item in m.db.log
    ensures item in Do(m, s).db.log && Do(m, s).db.log[item] == m.db.log[item] + Added(m, s, item)
  {
    hide EventOf, Claims, Decides, DecisionNow, OpenAttempts, GuardAccepts;
    if s.TerminalClaim? && s.item == item && |Added(m, s, item)| == 2 {
      var two := Added(m, s, item);
      assert m.db.log[item] + [two[0]] + [two[1]] == m.db.log[item] + two;
    }
  }

  // ---------------------------------------------------------------- evidence wins, and where it does not

  /** On every finalising path (a live response, a refusal, recovery, G10) the code decides a failure only while no F1
      run of the request has succeeded. */
  lemma {:induction false} FailureIsDecidedOnEvidence(ms: seq<Machine>, ss: seq<Step>, i: nat, kind: DecisionKind,
                                                      item: nat)
    requires Behaviour(ms, ss) && i < |ss| && ss[i] == Decide(kind, item)
    ensures Waiting(ms[i + 1]).Some? && Waiting(ms[i + 1]).value.item == item
    ensures Waiting(ms[i + 1]).value.state == Failed ==> !HasSuccess(ms[i].db, item)
  {
    hide Inv, Decides, DecisionNow, HasSuccess;
    InvAlways(ms, ss, i);
    assert Follows(ms[i], ss[i], ms[i + 1]);
    DecisionIsSound(ms[i], kind, item);
  }

  /** Step i writes event p of the item's log. */
  ghost predicate Writes(ms: seq<Machine>, i: nat, item: nat, p: nat)
    requires i + 1 < |ms|
  {
    item in ms[i].db.log && item in ms[i + 1].db.log && |ms[i].db.log[item]| <= p < |ms[i + 1].db.log[item]|
  }

  /** Whatever is decided when: a failure that names no run is committed only while no run of the request has succeeded,
      and a log is only appended to. */
  lemma {:induction false} UnnamedFailureNeverBeatsEvidence(ms: seq<Machine>, ss: seq<Step>, i: nat, item: nat, p: nat)
    requires Behaviour(ms, ss) && i < |ss| && Writes(ms, i, item, p)
    ensures ms[i].db.log[item] <= ms[i + 1].db.log[item]
    ensures ms[i + 1].db.log[item][p].state == Failed && ms[i + 1].db.log[item][p].run.None? ==>
              !HasSuccess(ms[i].db, item)
  {
    hide Enabled, Do, HasSuccess, Added;
    assert Follows(ms[i], ss[i], ms[i + 1]);
    LogGrows(ms[i], ss[i], item);
    var e := ms[i + 1].db.log[item][p];
    assert e == Added(ms[i], ss[i], item)[p - |ms[i].db.log[item]|];
    if e.state == Failed {
      FailureIsTheDecision(ms[i], ss[i], item, e);
    }
  }

  /** A failure is only ever written from the waiting decision about its item. */
  lemma {:induction false} FailureIsTheDecision(m: Machine, s: Step, item: nat, e: Event)
    requires Enabled(m, s) && item in m.db.log && e in Added(m, s, item) && e.state == Failed
    ensures Waiting(m).Some? && Waiting(m).value.item == item && GuardAccepts(m.db, Waiting(m).value)
    ensures e.run == Waiting(m).value.run && Waiting(m).value.state == Failed
  {
    hide GuardAccepts;
  }

  /** The step that took the decision waiting in state i. */
  ghost function DecidedAt(ms: seq<Machine>, ss: seq<Step>, i: nat): (j: nat)
    requires Behaviour(ms, ss) && i < |ms| && Waiting(ms[i]).Some?
    ensures j < i && ss[j].Decide? && ss[j].item == Waiting(ms[i]).value.item
    ensures forall k :: j < k <= i ==> Waiting(ms[k]) == Waiting(ms[i])
    decreases i
  {
    assert i > 0;
    assert Follows(ms[i - 1], ss[i - 1], ms[i - 1 + 1]);
    OnlyDecidingDecides(ms[i - 1], ss[i - 1]);
    if ss[i - 1].Decide? then i - 1 else DecidedAt(ms, ss, i - 1)
  }

  lemma {:induction false} OnlyDecidingDecides(m: Machine, s: Step)
    requires Enabled(m, s) && Waiting(Do(m, s)).Some?
    ensures if s.Decide? then Waiting(Do(m, s)).value.item == s.item else Waiting(m) == Waiting(Do(m, s))
  {
    hide Decides, Claims, EvidenceWins, NamedRun, AttemptOfRun, SuccessRun, FinalDecision;
  }

  /** This step finishes a run begun by another user of F1 as a success of the item's request. */
  ghost predicate SucceedsAbroad(m: Machine, s: Step, item: nat) {
    s.ForeignFinish? && s.run < |m.db.runs| && m.db.runs[s.run].request == item && IsSuccess(s.status)
  }

  /** Some step after step j and before state i does. */
  ghost predicate SucceededAbroad(ms: seq<Machine>, ss: seq<Step>, j: nat, i: nat, item: nat) {
    exists k :: j < k < i && k < |ss| && k < |ms| && SucceedsAbroad(ms[k], ss[k], item)
  }

  /** While a decision waits only another user's run can bring new evidence. */
  lemma {:induction false} WaitingBringsNoEvidence(m: Machine, s: Step, item: nat)
    requires Enabled(m, s) && Waiting(m).Some? && Waiting(Do(m, s)).Some?
    ensures HasSuccess(Do(m, s).db, item) <==> HasSuccess(m.db, item) || SucceedsAbroad(m, s, item)
  {
    hide Decides, Claims;
    var (a, b) := (m.db, Do(m, s).db);
    if SucceedsAbroad(m, s, item) {
      assert b.runs[s.run].request == item && IsSuccess(b.runs[s.run].status);
    }
    forall r: nat | r < |a.runs| && a.runs[r].request == item && IsSuccess(a.runs[r].status)
      ensures HasSuccess(b, item)
    {
      assert b.runs[r] == a.runs[r];
    }
    forall r: nat | r < |b.runs| && b.runs[r].request == item && IsSuccess(b.runs[r].status)
      ensures HasSuccess(a, item) || SucceedsAbroad(m, s, item)
    {
      if !SucceedsAbroad(m, s, item) {
        assert r < |a.runs| && b.runs[r] == a.runs[r];
      }
    }
  }

  lemma {:induction false} EvidenceSince(ms: seq<Machine>, ss: seq<Step>, j: nat, i: nat, item: nat)
    requires Behaviour(ms, ss) && j < i < |ms| && forall k :: j < k <= i ==> Waiting(ms[k]).Some?
    ensures HasSuccess(ms[i].db, item) <==> HasSuccess(ms[j + 1].db, item) || SucceededAbroad(ms, ss, j, i, item)
    decreases i
  {
    hide Enabled, Do, HasSuccess, SucceedsAbroad;
    if j + 1 < i {
      EvidenceSince(ms, ss, j, i - 1, item);
      assert Follows(ms[i - 1], ss[i - 1], ms[i - 1 + 1]);
      WaitingBringsNoEvidence(ms[i - 1], ss[i - 1], item);
      assert SucceedsAbroad(ms[i - 1], ss[i - 1], item) ==> SucceededAbroad(ms, ss, j, i, item);
      assert SucceededAbroad(ms, ss, j, i - 1, item) ==> SucceededAbroad(ms, ss, j, i, item);
      assert SucceededAbroad(ms, ss, j, i, item) ==>
               SucceededAbroad(ms, ss, j, i - 1, item) || SucceedsAbroad(ms[i - 1], ss[i - 1], item);
    }
  }

  /** A committed failure stands against a successful run of its request exactly when another user's run of the request
      succeeded after the code read the evidence and before it committed, and only when the failure names a run: the
      claim's own failed one. */
  lemma {:induction false} FailureAgainstEvidence(ms: seq<Machine>, ss: seq<Step>, i: nat, item: nat, p: nat)
    requires Behaviour(ms, ss) && i < |ss| && Writes(ms, i, item, p) && ms[i + 1].db.log[item][p].state == Failed
    ensures Waiting(ms[i]).Some?
    ensures HasSuccess(ms[i].db, item) <==> SucceededAbroad(ms, ss, DecidedAt(ms, ss, i), i, item)
    ensures HasSuccess(ms[i].db, item) ==>
              var r := ms[i + 1].db.log[item][p].run;
              r.Some? && r.value < |ms[i].db.runs| && ms[i].db.runs[r.value].request == item
              && ms[i].db.runs[r.value].status == RunFailed
  {
    hide Enabled, Do, HasSuccess, Added, Inv, SucceededAbroad, GuardAccepts;
    assert Follows(ms[i], ss[i], ms[i + 1]);
    LogGrows(ms[i], ss[i], item);
    var e := ms[i + 1].db.log[item][p];
    assert e == Added(ms[i], ss[i], item)[p - |ms[i].db.log[item]|];
    FailureIsTheDecision(ms[i], ss[i], item, e);
    UnnamedFailureNeverBeatsEvidence(ms, ss, i, item, p);
    var j := DecidedAt(ms, ss, i);
    FailureIsDecidedOnEvidence(ms, ss, j, ss[j].occasion, item);
    DecidingWritesNothing(ms, ss, j);
    EvidenceSince(ms, ss, j, i, item);
    InvAlways(ms, ss, i);
    WaitingNamesEvidence(ms[i]);
  }

  lemma {:induction false} DecidingWritesNothing(ms: seq<Machine>, ss: seq<Step>, j: nat)
    requires Behaviour(ms, ss) && j < |ss| && ss[j].Decide?
    ensures ms[j + 1].db == ms[j].db
  {
    assert Follows(ms[j], ss[j], ms[j + 1]);
  }

  lemma {:induction false} WaitingNamesEvidence(m: Machine)
    requires Inv(m) && Waiting(m).Some?
    ensures var d := Waiting(m).value;
            d.state == Failed && d.run.Some? ==>
              d.run.value < |m.db.runs| && m.db.runs[d.run.value].request == d.item
              && m.db.runs[d.run.value].status == RunFailed
  {
    hide TablesOk, Unique, Decides;
  }

  // ---------------------------------------------------------------- a failure committed against evidence

  const CREATED := Event(Pending, Create, None, 0, None, None, false)
  const CLAIMED := Event(Requesting, Claim, Some(0), 1, None, None, false)
  const REFUTED := Decision(ForAnswer, 0, Failed, Some(0), Some(0))

  /** One slice with an armed maximum of one, at work on item 0. */
  function AtWork(attempts: seq<Attempt>, runs: seq<Run>, now: nat, work: Work, decision: Option<Decision>): Machine {
    Machine(Db(map[0 := Listing], map[0 := [CREATED, CLAIMED]], [Active], attempts, runs, now,
               map[1 := ClaimRecord(0, 0)]),
            Some(Slice(0, 1, {0}, false, work, decision)))
  }

  lemma {:induction false} Continues(ms: seq<Machine>, ss: seq<Step>, s: Step, n: Machine)
    requires Behaviour(ms, ss) && Follows(ms[|ms| - 1], s, n)
    ensures Behaviour(ms + [n], ss + [s])
  {
    hide Enabled, Do;
    var (ns, ts) := (ms + [n], ss + [s]);
    forall i | 0 <= i < |ts| ensures Follows(ns[i], ts[i], ns[i + 1]) {
      if i < |ss| {
        assert Follows(ms[i], ss[i], ms[i + 1]);
      }
    }
  }

  ghost predicate Reaches(ms: seq<Machine>, ss: seq<Step>, m: Machine) {
    Behaviour(ms, ss) && ms[|ms| - 1] == m
  }

  ghost predicate Reachable(m: Machine) {
    exists ms, ss :: Reaches(ms, ss, m)
  }

  lemma {:induction false} ReachableNext(m: Machine, s: Step, n: Machine)
    requires Reachable(m) && Follows(m, s, n)
    ensures Reachable(n)
  {
    hide Behaviour, Enabled, Do;
    var ms, ss :| Reaches(ms, ss, m);
    Continues(ms, ss, s, n);
    assert Reaches(ms + [n], ss + [s], n);
  }

  /** Step i commits a failure against a successful run of the item's request. */
  ghost predicate BeatsEvidence(ms: seq<Machine>, ss: seq<Step>, i: nat, item: nat, p: nat) {
    Behaviour(ms, ss) && i < |ss| && Writes(ms, i, item, p) && ms[i + 1].db.log[item][p].state == Failed
    && HasSuccess(ms[i].db, item)
  }

  /** The slice claims the item and begins its run, and another user begins one of the same request. */
  lemma {:induction false} RaceBegins()
    ensures Reachable(AtWork([], [Run(0, 1, Running, false, None), Run(0, 2, Running, true, None)], 3,
                             Begun(0, 1, 0), None))
  {
    hide Reachable;
    var m1 := Machine(Db(map[0 := Listing], map[0 := [CREATED]], [], [], [], 1, map[]), None);
    var m2 := Machine(m1.db.(leases := [Active]), Some(Slice(0, 1, {}, true, Idle, None)));
    var m3 := m2.(slice := Some(Slice(0, 1, {}, false, Idle, None)));
    var m4 := AtWork([], [], 2, Claimed(0, 1), None);
    var m5 := AtWork([], [Run(0, 1, Running, false, None)], 2, Begun(0, 1, 0), None);
    var m6 := AtWork([], [Run(0, 1, Running, false, None), Run(0, 2, Running, true, None)], 3, Begun(0, 1, 0), None);
    EmptyIsReachable();
    assert Follows(EMPTY, CreateItem(0, Listing), m1);
    ReachableNext(EMPTY, CreateItem(0, Listing), m1);
    assert Follows(m1, OpenLease(1), m2);
    ReachableNext(m1, OpenLease(1), m2);
    assert Follows(m2, EndReconcile, m3);
    ReachableNext(m2, EndReconcile, m3);
    RaceClaims();
    ReachableNext(m3, ClaimItem(0), m4);
    assert Follows(m4, BeginRun, m5);
    ReachableNext(m4, BeginRun, m5);
    assert Follows(m5, ForeignBegin(0), m6);
    ReachableNext(m5, ForeignBegin(0), m6);
  }

  /** The same slice before its claim. */
  function BeforeClaim(): Machine {
    Machine(Db(map[0 := Listing], map[0 := [CREATED]], [Active], [], [], 1, map[]),
            Some(Slice(0, 1, {}, false, Idle, None)))
  }

  lemma {:induction false} RaceMayClaim()
    ensures Enabled(BeforeClaim(), ClaimItem(0))
  {
    Appended([], CREATED);
    assert [] + [CREATED] == [CREATED];
  }

  lemma {:induction false} RaceClaims()
    ensures Follows(BeforeClaim(), ClaimItem(0), AtWork([], [], 2, Claimed(0, 1), None))
  {
    hide Enabled;
    RaceMayClaim();
    var n := Do(BeforeClaim(), ClaimItem(0));
    assert n.db.log[0] == [CREATED] + [CLAIMED] == [CREATED, CLAIMED];
    assert n.db.log.Keys == {0};
    assert n.db.log == map[0 := [CREATED, CLAIMED]];
    assert n.db.claimed == map[1 := ClaimRecord(0, 0)];
    assert n.slice.value.attempted == {0};
  }

  lemma {:induction false} EmptyIsReachable()
    ensures Reachable(EMPTY)
  {
    assert Reaches([EMPTY], [], EMPTY);
  }

  const ANSWERED := Attempt(0, 0, Some(Response(TerminalClass, RunFailed)), 0)
  const OWN_FAILED := Run(0, 1, RunFailed, false, Some(0))
  const ABROAD := Run(0, 2, Running, true, None)

  /** The request fails for good, and F1 finishes the claim's run as failed. */
  lemma {:induction false} RaceAnswers()
    ensures Reachable(AtWork([ANSWERED], [OWN_FAILED, ABROAD], 3, Ingested(0, 1, 0, 0), None))
  {
    hide Reachable;
    var own := Run(0, 1, Running, false, None);
    var m6 := AtWork([], [own, ABROAD], 3, Begun(0, 1, 0), None);
    var m7 := AtWork([Attempt(0, 0, None, 0)], [own, ABROAD], 3, Asked(0, 1, 0, 0), None);
    var m8 := AtWork([ANSWERED], [own, ABROAD], 3, Answered(0, 1, 0, 0), None);
    var m9 := AtWork([ANSWERED], [OWN_FAILED, ABROAD], 3, Ingested(0, 1, 0, 0), None);
    RaceBegins();
    assert Follows(m6, Intent, m7);
    ReachableNext(m6, Intent, m7);
    assert Follows(m7, RecordOutcome(Response(TerminalClass, RunFailed)), m8);
    ReachableNext(m7, RecordOutcome(Response(TerminalClass, RunFailed)), m8);
    assert Follows(m8, Ingest, m9);
    ReachableNext(m8, Ingest, m9);
  }

  /** The code decides to record the failure; then the other user's run succeeds. */
  lemma {:induction false} RaceIsOn()
    ensures Reachable(AtWork([ANSWERED], [OWN_FAILED, ABROAD.(status := RunSucceeded)], 3, Ingested(0, 1, 0, 0),
                             Some(REFUTED)))
  {
    hide Reachable;
    var m9 := AtWork([ANSWERED], [OWN_FAILED, ABROAD], 3, Ingested(0, 1, 0, 0), None);
    var m10 := AtWork([ANSWERED], [OWN_FAILED, ABROAD], 3, Ingested(0, 1, 0, 0), Some(REFUTED));
    RaceAnswers();
    RaceDecides();
    ReachableNext(m9, Decide(ForAnswer, 0), m10);
    var m11 := AtWork([ANSWERED], [OWN_FAILED, ABROAD.(status := RunSucceeded)], 3, Ingested(0, 1, 0, 0),
                      Some(REFUTED));
    assert Follows(m10, ForeignFinish(1, RunSucceeded), m11);
    ReachableNext(m10, ForeignFinish(1, RunSucceeded), m11);
  }

  lemma {:induction false} RaceDecides()
    ensures Follows(AtWork([ANSWERED], [OWN_FAILED, ABROAD], 3, Ingested(0, 1, 0, 0), None), Decide(ForAnswer, 0),
                    AtWork([ANSWERED], [OWN_FAILED, ABROAD], 3, Ingested(0, 1, 0, 0), Some(REFUTED)))
  {
    hide AttemptOfRun;
    var m := AtWork([ANSWERED], [OWN_FAILED, ABROAD], 3, Ingested(0, 1, 0, 0), None);
    assert SuccessRun(m.db, 0).None?;
    assert LiveState(TerminalClass, RunFailed, Claims(m.db.log[0]), 1) == Failed;
    assert DecisionNow(m, ForAnswer, 0) == REFUTED;
  }

  /** The documented rule that an item is never failed against a successful run does not hold of the code: this run of
      the protocol commits such a failure. */
  lemma {:induction false} FailureCanBeatEvidence()
    ensures exists ms, ss, i, p :: BeatsEvidence(ms, ss, i, 0, p)
  {
    hide Behaviour;
    RaceIsOn();
    var m := AtWork([ANSWERED], [OWN_FAILED, ABROAD.(status := RunSucceeded)], 3, Ingested(0, 1, 0, 0), Some(REFUTED));
    var ms, ss :| Reaches(ms, ss, m);
    var n := Do(m, RecordEvent);
    assert Follows(m, RecordEvent, n);
    Continues(ms, ss, RecordEvent, n);
    BehaviourLength(ms, ss);
    assert IsSuccess(m.db.runs[1].status) && m.db.runs[1].request == 0;
    assert (ms + [n])[|ss|] == m && (ms + [n])[|ss| + 1] == n;
    assert n.db.log[0] == [CREATED, CLAIMED, EventOf(REFUTED, Record, Some(0), 3)];
    assert BeatsEvidence(ms + [n], ss + [RecordEvent], |ss|, 0, 2);
  }

  /** No event ever names a running run; a success names a successful run of the same request, and a failure a failed
      one; the attempt named with a success is the one whose response finished that run. */
  lemma {:induction false} NamesAreEvidence(ms: seq<Machine>, ss: seq<Step>, i: nat, item: nat, p: nat)
    requires Behaviour(ms, ss) && i < |ms| && item in ms[i].db.log && p < |ms[i].db.log[item]|
    ensures NamesOk(ms[i].db, item, ms[i].db.log[item][p])
  {
    hide LogOk, RunOk, AttemptOk, NamesOk;
    InvAlways(ms, ss, i);
    assert EventOk(ms[i].db, item, ms[i].db.log[item][p]);
  }

  // ---------------------------------------------------------------- bounded requests

  lemma {:induction false} InjectionBounds(s: set<nat>, t: set<nat>, f: map<nat, nat>)
    requires forall x :: x in s ==> x in f && f[x] in t
    requires forall x, y :: x in s && y in s && f[x] == f[y] ==> x == y
    ensures |s| <= |t|
    decreases |s|
  {
    if s != {} {
      var x :| x in s;
      InjectionBounds(s - {x}, t - {f[x]}, f);
    }
  }

  /** A <= C <= the armed maximum: an item's HTTP attempts since its last re-queue number no more than its claims that
      are followed by a request, so no more than its claims, and at most three. */
  lemma {:induction false} RequestsAreBounded(ms: seq<Machine>, ss: seq<Step>, i: nat, item: nat)
    requires Behaviour(ms, ss) && i < |ms| && item in ms[i].db.log
    ensures var (db, es) := (ms[i].db, ms[i].db.log[item]);
            |HttpAttempts(db, item)| <= RequestClaims(es) <= Claims(es) && RequestClaims(es) <= ITEM_MAX_ATTEMPTS
  {
    InvAlways(ms, ss, i);
    AttemptsInjectIntoClaims(ms[i].db, item);
    RequestClaimsAreClaims(ms[i].db.log[item]);
    assert LogOk(ms[i].db, item);
  }

  lemma {:induction false} AttemptsInjectIntoClaims(db: Db, item: nat)
    requires TablesOk(db) && Unique(db) && item in db.log
    ensures |HttpAttempts(db, item)| <= |RequestLeases(db.log[item])|
  {
    hide LogOk, EventOk, RunOk, Unique, RequestLeases, ClaimLeases;
    var s := HttpAttempts(db, item);
    var f := map a: nat | a in s :: db.attempts[a].lease;
    forall a | a in s ensures f[a] in RequestLeases(db.log[item]) {
      assert AttemptOk(db, a);
    }
    forall a, b | a in s && b in s && f[a] == f[b] ensures a == b {
      SameClaimSameAttempt(db, a, b);
    }
    InjectionBounds(s, RequestLeases(db.log[item]), f);
  }

  /** While a slice works on an item, the item's claims, and so its HTTP attempts, are within that slice's armed
      maximum. */
  lemma {:induction false} WithinTheArmedMaximum(ms: seq<Machine>, ss: seq<Step>, i: nat)
    requires Behaviour(ms, ss) && i < |ms| && ms[i].slice.Some? && ms[i].slice.value.work != Idle
    ensures var (db, item) := (ms[i].db, ms[i].slice.value.work.item);
            item in db.log && |HttpAttempts(db, item)| <= Claims(db.log[item]) <= ms[i].slice.value.max
  {
    hide TablesOk, Unique, HttpAttempts;
    InvAlways(ms, ss, i);
    RequestsAreBounded(ms, ss, i, ms[i].slice.value.work.item);
  }

  /** Only a terminal claim pushes claims past the requests an item may make, and no state shows one by itself: it is
      committed together with the final state. */
  lemma {:induction false} TerminalClaimsCommitFinal(ms: seq<Machine>, ss: seq<Step>, i: nat, item: nat)
    requires Behaviour(ms, ss) && i < |ms| && item in ms[i].db.log
    ensures var es := ms[i].db.log[item];
            && es != [] && !IsTerminalClaim(Last(es))
            && (Claims(es) > RequestClaims(es) ==>
                  Claims(es) == RequestClaims(es) + 1 && Last(es).state in {Succeeded, Partial, Failed})
  {
    InvAlways(ms, ss, i);
    assert LogOk(ms[i].db, item);
    RequestClaimsAreClaims(ms[i].db.log[item]);
    if Last(ms[i].db.log[item]).action == Claim {
      ClaimEventsRequest(ms[i].db.kinds[item], ms[i].db.log[item]);
    }
  }

  lemma {:induction false} ClaimEventsRequest(k: Kind, es: seq<Event>)
    requires k != Document && LegalLog(k, es) && es != [] && Last(es).action == Claim
    ensures Last(es).state == Requesting
  {
  }

  // ---------------------------------------------------------------- every item settles

  predicate Settled(db: Db, item: nat) {
    Current(db, item) in {Succeeded, Partial, Failed, Blocked}
  }

  predicate OperatorStep(s: Step, item: nat) {
    s == RequeueItem(item) || s == ResumeItem(item)
  }

  /** Without an operator's step each claim counts once, no other step counts, and a settled item stays as it is. */
  lemma {:induction false} StepCounts(m: Machine, s: Step, item: nat)
    requires Inv(m) && Enabled(m, s) && item in m.db.log && !OperatorStep(s, item)
    ensures item in Do(m, s).db.log
    ensures RequestClaims(Do(m, s).db.log[item]) == RequestClaims(m.db.log[item])
            + (if s == ClaimItem(item) then 1 else 0)
    ensures Settled(m.db, item) ==> Settled(Do(m, s).db, item)
  {
    hide Inv, Enabled, Do, Added, RequestClaims;
    LogGrows(m, s, item);
    if Added(m, s, item) == [] {
      NoClaimAdded(m, s, item);
      assert Do(m, s).db.log[item] == m.db.log[item];
    } else {
      AddedCounts(m, s, item);
    }
  }

  lemma {:induction false} NoClaimAdded(m: Machine, s: Step, item: nat)
    requires Inv(m) && Enabled(m, s) && item in m.db.log && Added(m, s, item) == []
    ensures s != ClaimItem(item)
  {
    hide Inv;
  }

  lemma {:induction false} AddedCounts(m: Machine, s: Step, item: nat)
    requires Inv(m) && Enabled(m, s) && item in m.db.log && Added(m, s, item) != [] && !OperatorStep(s, item)
    ensures RequestClaims(m.db.log[item] + Added(m, s, item)) == RequestClaims(m.db.log[item])
            + (if s == ClaimItem(item) then 1 else 0)
    ensures !Settled(m.db, item)
  {
    hide TablesOk, Unique, RequestClaims;
    var (es, more) := (m.db.log[item], Added(m, s, item));
    if |more| == 2 {
      TwoEventCounts(es, more[0], more[1]);
    } else {
      Appended(es, more[0]);
      assert es + more == es + [more[0]];
      AddedAction(m, s, item);
    }
  }

  lemma {:induction false} AddedAction(m: Machine, s: Step, item: nat)
    requires Inv(m) && Enabled(m, s) && item in m.db.log && |Added(m, s, item)| == 1 && !OperatorStep(s, item)
    ensures Added(m, s, item)[0].action != Requeue
    ensures Added(m, s, item)[0].action == Claim && !Added(m, s, item)[0].terminal <==> s == ClaimItem(item)
  {
    hide Inv;
  }

  /** The operator leaves the item alone from state i to state j. */
  ghost predicate Undisturbed(ss: seq<Step>, i: nat, j: nat, item: nat) {
    i <= j <= |ss| && forall k :: i <= k < j ==> !OperatorStep(ss[k], item)
  }

  ghost predicate ClaimedIn(ss: seq<Step>, i: nat, j: nat, item: nat) {
    exists k :: i <= k < j <= |ss| && ss[k] == ClaimItem(item)
  }

  lemma {:induction false} SegmentCounts(ms: seq<Machine>, ss: seq<Step>, i: nat, j: nat, item: nat)
    requires Behaviour(ms, ss) && Undisturbed(ss, i, j, item) && item in ms[i].db.log
    ensures item in ms[j].db.log
    ensures RequestClaims(ms[j].db.log[item]) >= RequestClaims(ms[i].db.log[item])
            + (if ClaimedIn(ss, i, j, item) then 1 else 0)
    ensures Settled(ms[i].db, item) ==> Settled(ms[j].db, item)
    decreases j
  {
    hide Inv, Enabled, Do, RequestClaims, Settled;
    if i < j {
      SegmentCounts(ms, ss, i, j - 1, item);
      assert Follows(ms[j - 1], ss[j - 1], ms[j - 1 + 1]);
      InvAlways(ms, ss, j - 1);
      StepCounts(ms[j - 1], ss[j - 1], item);
      assert ClaimedIn(ss, i, j, item) ==> ClaimedIn(ss, i, j - 1, item) || ss[j - 1] == ClaimItem(item);
    }
  }

  /** The item is served by the slice that ends in state j: it is claimed in it, or settled when it ends. */
  ghost predicate Served(ms: seq<Machine>, ss: seq<Step>, i: nat, j: nat, item: nat)
    requires i <= j < |ms|
  {
    ClaimedIn(ss, i, j, item) || Settled(ms[j].db, item)
  }

  ghost predicate Ends(ms: seq<Machine>, ss: seq<Step>, ends: seq<nat>, item: nat) {
    && (forall k :: 0 <= k < |ends| ==> ends[k] < |ms|)
    && (forall k :: 0 < k < |ends| ==>
          Undisturbed(ss, ends[k - 1], ends[k], item) && Served(ms, ss, ends[k - 1], ends[k], item))
  }

  lemma {:induction false} ClaimsAccumulate(ms: seq<Machine>, ss: seq<Step>, ends: seq<nat>, item: nat, n: nat)
    requires Behaviour(ms, ss) && Ends(ms, ss, ends, item) && n < |ends| && item in ms[ends[0]].db.log
    ensures item in ms[ends[n]].db.log
            && (Settled(ms[ends[n]].db, item) || RequestClaims(ms[ends[n]].db.log[item]) >= n)
    decreases n
  {
    hide Behaviour, Settled, RequestClaims, ClaimedIn;
    if n > 0 {
      ClaimsAccumulate(ms, ss, ends, item, n - 1);
      assert Undisturbed(ss, ends[n - 1], ends[n], item) && Served(ms, ss, ends[n - 1], ends[n], item);
      BehaviourLength(ms, ss);
      SegmentCounts(ms, ss, ends[n - 1], ends[n], item);
    }
  }

  lemma {:induction false} BehaviourLength(ms: seq<Machine>, ss: seq<Step>)
    requires Behaviour(ms, ss)
    ensures |ms| == |ss| + 1
  {
  }

  /** Without re-queues, whatever crashes: once three slices and one more have served an item, it is final or
      blocked. */
  lemma {:induction false} EveryItemSettles(ms: seq<Machine>, ss: seq<Step>, ends: seq<nat>, item: nat)
    requires Behaviour(ms, ss) && Ends(ms, ss, ends, item) && |ends| == ITEM_MAX_ATTEMPTS + 2
             && item in ms[ends[0]].db.log
    ensures Settled(ms[ends[|ends| - 1]].db, item)
  {
    hide Behaviour, Inv;
    ClaimsAccumulate(ms, ss, ends, item, ITEM_MAX_ATTEMPTS + 1);
    RequestsAreBounded(ms, ss, ends[|ends| - 1], item);
  }

  // ---------------------------------------------------------------- expiry

  /** The expiry of a dead lease: no outcome already recorded changes, what reached the spool is recovered from it,
      every other open attempt of the lease is closed as unrecorded, and attempts of other leases are left alone. */
  lemma {:induction false} ExpiryRecoversTheSpool(ms: seq<Machine>, ss: seq<Step>, i: nat, lease: nat,
                                                  spool: map<nat, Outcome>, a: nat)
    requires Behaviour(ms, ss) && i < |ss| && ss[i] == ExpireLease(lease, spool) && a < |ms[i].db.attempts|
    ensures var (before, after) := (ms[i].db, ms[i + 1].db);
            && |after.attempts| == |before.attempts|
            && after.attempts[a] == before.attempts[a].(outcome := after.attempts[a].outcome)
            && (before.attempts[a].outcome.Some? || before.attempts[a].lease != lease ==>
                  after.attempts[a].outcome == before.attempts[a].outcome)
            && (before.attempts[a].outcome.None? ==> before.attempts[a].lease == lease)
            && (before.attempts[a].outcome.None? && a in spool ==> after.attempts[a].outcome == Some(spool[a]))
            && (before.attempts[a].outcome.None? && a !in spool ==> after.attempts[a].outcome == Some(Unrecorded))
  {
    hide Inv;
    InvAlways(ms, ss, i);
    assert Follows(ms[i], ss[i], ms[i + 1]);
    if ms[i].db.attempts[a].outcome.None? {
      OpenAttemptsAreUnderTheDeadLease(ms[i], lease, a);
    }
  }

  lemma {:induction false} OpenAttemptsAreUnderTheDeadLease(m: Machine, lease: nat, a: nat)
    requires Inv(m) && m.slice.None? && lease < |m.db.leases| && m.db.leases[lease] == Active
    requires a < |m.db.attempts| && m.db.attempts[a].outcome.None?
    ensures m.db.attempts[a].lease == lease
  {
    hide EventOk, RunOk, LegalLog, Claims, RequestClaims, ClaimLeases, RequestLeases;
    assert AttemptOk(m.db, a);
    assert LogOk(m.db, m.db.attempts[a].item);
  }
}
