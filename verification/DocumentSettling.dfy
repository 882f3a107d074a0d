// One document slice after another on the same ledger, each with its own faults, refusals and crashes: what is in
// flight stands under the lease the last slice left active, and once more clean slices than a document may be claimed
// have run, every document of the plan is at rest.
module DocumentSettling {
  import opened Prelude
  import opened ItemStates
  import opened DocumentSlices

  /** How a slice opens: it is refused before the expiry of dead leases, or after it, or it opens. */
  datatype Opening = RefusedFirst | RefusedAfterExpiry | Opens

  /** What one slice meets. crashes: its process ends before it can close. */
  datatype Script = Script(faults: seq<Fault>, max: nat, passesPerDocument: nat, cap: nat, maxItems: Option<nat>,
                           current: set<nat>, env: Surroundings, persisted: nat -> bool, openAttempts: set<nat>,
                           unreadable: bool, opening: Opening, crashes: bool)

  ghost predicate Runnable(s: Script) {
    forall i: nat, k: nat :: LawfulPass(s.env.passes(i, k))
  }

  /** No commit raises, nothing refuses, stops or breaks a document, and the slice may start as many documents as there
      are (count). */
  ghost predicate Clean(s: Script, count: nat) {
    && !Faulty(s.faults) && s.maxItems.None? && s.openAttempts == {} && !s.unreadable && s.opening.Opens? && !s.crashes
    && (forall i: nat :: Clear(s.env, i) && s.env.eligible(i))
    && count * (if s.passesPerDocument == 0 then 1 else s.passesPerDocument) < s.cap
  }

  ghost function CleanSlices(scripts: seq<Script>, count: nat): nat {
    if scripts == [] then 0
    else CleanSlices(scripts[..|scripts| - 1], count) + if Clean(scripts[|scripts| - 1], count) then 1 else 0
  }

  /** Neither waiting nor in flight nor abandoned. */
  predicate AtRest(es: seq<Event>) {
    StateAfter(es) !in {Requesting, Processing, Abandoned, Pending, RetryWait}
  }

  /** Between two slices: every log legal, and in flight only under the lease that is still active. */
  ghost predicate Between(log: map<nat, seq<Event>>, kept: Option<nat>) {
    forall i :: i in log ==>
      LegalPath(log[i]) && (InFlight(StateAfter(log[i])) ==> kept.Some? && InFlightUnder(log[i], kept.value))
  }

  function ExpireEvent(lease: nat): Event {
    Event(Abandoned, Expire, Some(lease), None, false)
  }

  /** HB-2 expires the dead lease: what was in flight under it is abandoned. */
  function Expired(log: map<nat, seq<Event>>, kept: Option<nat>): map<nat, seq<Event>> {
    map i | i in log ::
      if kept.Some? && InFlightUnder(log[i], kept.value) then log[i] + [ExpireEvent(kept.value)] else log[i]
  }

  lemma {:induction false} ExpiryEndsFlight(log: map<nat, seq<Event>>, kept: Option<nat>, i: nat)
    requires Between(log, kept) && i in log
    ensures var es := Expired(log, kept)[i];
            && LegalPath(es) && !InFlight(StateAfter(es)) && Grown(log[i], es) && Claims(es) == Claims(log[i])
            && (AtRest(log[i]) ==> es == log[i])
            && if InFlight(StateAfter(log[i])) then StateAfter(es) == Abandoned else es == log[i]
  {
    if kept.Some? && InFlightUnder(log[i], kept.value) {
      var (es, e) := (log[i], ExpireEvent(kept.value));
      assert (es + [e])[..|es + [e]| - 1] == es;
      assert (es + [e])[|es|..] == [e];
      ClaimsAfter(es, e);
    }
  }

  lemma {:induction false} GrownChain(a: seq<Event>, b: seq<Event>, c: seq<Event>)
    requires Grown(a, b) && Grown(b, c)
    ensures Grown(a, c)
  {
    assert c[|a|..] == b[|a|..] + c[|b|..];
  }

  /** What a slice that drained its plan made of one of its documents. */
  ghost predicate Moved(before: seq<Event>, after: seq<Event>, max: nat) {
    AtRest(after) || (Claims(before) < max && Claims(after) > Claims(before))
  }

  /** What the next whole slice makes of a document that a dead slice left in flight, that is abandoned, or that waits
      at the maximum: with an F5 run it is persisted, and never retrieved again; without one it fails at the
      maximum. */
  ghost predicate Recovered(before: seq<Event>, after: seq<Event>, max: nat, persisted: bool) {
    var was := StateAfter(before);
    && (persisted && (InFlight(was) || was == Abandoned || (was in {Pending, RetryWait} && Claims(before) >= max)) ==>
          StateAfter(after) == Persisted)
    && (!persisted && (InFlight(was) || was in {Abandoned, Pending, RetryWait}) && Claims(before) >= max ==>
          StateAfter(after) == Failed)
  }

  lemma {:induction false} RecoveredBySlice(first: map<nat, seq<Event>>, middle: map<nat, seq<Event>>,
                                            log: map<nat, seq<Event>>, i: nat, max: nat, persisted: bool)
    requires EndsReconciled(first, middle, i, max, persisted, false) && OnlyStates(middle, log, {Pending, RetryWait})
    requires !InFlight(StateAfter(first[i]))
    ensures i in log && Recovered(first[i], log[i], max, persisted)
  {
    hide Claims;
  }

  lemma {:induction false} RecoveredFrom(a: seq<Event>, b: seq<Event>, c: seq<Event>, max: nat, persisted: bool)
    requires Recovered(b, c, max, persisted) && Claims(a) == Claims(b)
    requires if InFlight(StateAfter(a)) then StateAfter(b) == Abandoned else a == b
    ensures Recovered(a, c, max, persisted)
  {
    hide Claims;
  }

  /** What any slice makes of any document: its log grows without a re-queue, and at rest it stays. */
  ghost predicate Kept(before: seq<Event>, after: seq<Event>) {
    Grown(before, after) && (AtRest(before) ==> after == before)
  }

  /** One slice: dead leases expired, the ledger reconciled, documents claimed, and the lease released or kept. */
  method RunOne(log: map<nat, seq<Event>>, kept: Option<nat>, lease: nat, s: Script, ghost items: set<nat>)
    returns (after: map<nat, seq<Event>>, left: Option<nat>, whole: bool)
    requires Between(log, kept) && Runnable(s)
    requires forall i :: i in items ==> i in s.current && s.env.eligible(i)
    ensures Between(after, left) && after.Keys == log.Keys
    ensures if s.opening == RefusedFirst then after == log && left == kept && !whole
            else left.Some? ==> left == Some(lease) && s.opening.Opens?
    ensures forall i :: i in log ==> Kept(log[i], after[i])
    ensures whole ==> left.None? && forall i :: i in log && i in items ==> Moved(log[i], after[i], s.max)
    ensures whole ==> forall i :: i in log ==> Recovered(log[i], after[i], s.max, s.persisted(i))
    ensures Clean(s, |log.Keys|) ==> whole
  {
    hide LegalPath, Claims, Grown, AtRest, InFlightUnder, Moved, Kept, LawfulPass, Clean, Faulty, Recovered;
    CleanMeans(s, |log.Keys|);
    if s.opening == RefusedFirst {
      forall i | i in log ensures Kept(log[i], log[i]) {
        NothingKept(log[i]);
      }
      return log, kept, false;
    }
    var expired := Expired(log, kept);
    forall i | i in log
      ensures LegalPath(expired[i]) && !InFlight(StateAfter(expired[i])) && Kept(log[i], expired[i])
    {
      ExpiryEndsFlight(log, kept, i);
      KeptIs(log[i], expired[i]);
    }
    if s.opening == RefusedAfterExpiry {
      return expired, None, false;
    }
    var slice := new DocumentSlice(expired, lease, s.max, s.passesPerDocument, s.cap, s.faults);
    after, left, whole := RunOpen(slice, s, items);
    forall i | i in log
      ensures Kept(log[i], after[i]) && (whole && i in items ==> Moved(log[i], after[i], s.max))
      ensures whole ==> Recovered(log[i], after[i], s.max, s.persisted(i))
    {
      ExpiryEndsFlight(log, kept, i);
      KeptChain(log[i], expired[i], after[i]);
      if whole {
        RecoveredFrom(log[i], expired[i], after[i], s.max, s.persisted(i));
      }
      if whole && i in items {
        MovedFrom(log[i], expired[i], after[i], s.max);
      }
    }
  }

  lemma {:induction false} CleanMeans(s: Script, count: nat)
    ensures Clean(s, count) ==>
              !Faulty(s.faults) && s.opening.Opens? && !s.crashes && !s.unreadable && s.openAttempts == {}
              && s.maxItems.None?
  {
  }

  lemma {:induction false} KeptIs(a: seq<Event>, b: seq<Event>)
    requires Grown(a, b) && (AtRest(a) ==> b == a)
    ensures Kept(a, b)
  {
  }

  lemma {:induction false} KeptChain(a: seq<Event>, b: seq<Event>, c: seq<Event>)
    requires Kept(a, b) && Kept(b, c)
    ensures Kept(a, c)
  {
    hide Grown, AtRest;
    GrownChain(a, b, c);
  }

  lemma {:induction false} MovedFrom(a: seq<Event>, b: seq<Event>, c: seq<Event>, max: nat)
    requires Claims(a) == Claims(b) && Moved(b, c, max)
    ensures Moved(a, c, max)
  {
  }

  method Rows(log: map<nat, seq<Event>>) returns (rows: seq<nat>)
    ensures (forall i :: i in rows <==> i in log) && Among(rows) == log.Keys
  {
    var rest := log.Keys;
    rows := [];
    while rest != {}
      invariant rest <= log.Keys
      invariant forall i :: i in rows <==> i in log && i !in rest
      decreases |rest|
    {
      var i: nat :| i in rest;
      rows := rows + [i];
      rest := rest - {i};
    }
  }

  lemma {:induction false} KeptBySlice(first: map<nat, seq<Event>>, middle: map<nat, seq<Event>>,
                                       log: map<nat, seq<Event>>, lease: nat, i: nat)
    requires LedgerOk(first, log, lease) && i in log && OnlyStates(first, middle, {Abandoned, Pending, RetryWait})
    requires OnlyStates(middle, log, {Pending, RetryWait})
    ensures Kept(first[i], log[i])
  {
    hide LegalPath, OwnFlight;
  }

  lemma {:induction false} BetweenAfter(first: map<nat, seq<Event>>, log: map<nat, seq<Event>>, lease: nat,
                                        left: Option<nat>)
    requires LedgerOk(first, log, lease)
    requires left == Some(lease) || forall i :: i in log ==> !InFlightUnder(log[i], lease)
    ensures Between(log, left)
  {
    hide LegalPath, Grown;
  }

  lemma {:induction false} NothingInFlight(first: map<nat, seq<Event>>, middle: map<nat, seq<Event>>,
                                           log: map<nat, seq<Event>>, attempted: set<nat>, lease: nat)
    requires forall i :: i in first ==> !InFlight(StateAfter(first[i]))
    requires NoNewFlight(first, middle) && EachTriedOnce(middle, {}, log, attempted)
    ensures forall i :: i in log ==> !InFlight(StateAfter(log[i])) && !InFlightUnder(log[i], lease)
  {
    hide Claims;
  }

  /** Every waiting document of the plan was tried or skipped; so each was claimed, or rests. */
  lemma {:induction false} DrainedMoves(first: map<nat, seq<Event>>, middle: map<nat, seq<Event>>,
                                        log: map<nat, seq<Event>>, attempted: set<nat>, skipped: set<nat>, lease: nat,
                                        s: Script, i: nat)
    requires LedgerOk(first, middle, lease) && i in middle && s.env.eligible(i)
    requires StateAfter(middle[i]) != Abandoned && !WaitsAtMaximum(middle, i, s.max)
    requires EachTriedOnce(middle, {}, log, attempted) && OnlyStates(middle, log, {Pending, RetryWait})
    requires SkippedForCause({}, skipped, log, s.max, s.env) && !InFlight(StateAfter(log[i]))
    requires StateAfter(log[i]) in {Pending, RetryWait} ==> i in attempted || i in skipped
    ensures Moved(first[i], log[i], s.max)
  {
    hide LegalPath, OwnFlight, Claims, Grown;
    ClaimsOnlyGrow(first[i], middle[i]);
    if i in attempted {
      assert Claims(log[i]) == Claims(middle[i]) + 1;
      assert log[i] != middle[i];
    } else {
      assert log[i] == middle[i];
    }
  }

  lemma {:induction false} CleanRuns(s: Script, count: nat, rows: seq<nat>, attempted: set<nat>, documents: nat)
    requires Clean(s, count) && |Among(rows)| == count && attempted <= Among(rows)
    requires documents <= PassesOf(attempted, if s.passesPerDocument == 0 then 1 else s.passesPerDocument)
    ensures !Unclear(rows, s.env) && documents < s.cap
  {
    hide Clear;
    Subset(attempted, Among(rows));
    var bound := if s.passesPerDocument == 0 then 1 else s.passesPerDocument;
    assert |attempted| * bound <= count * bound;
  }

  lemma {:induction false} Subset(a: set<nat>, b: set<nat>)
    requires a <= b
    ensures |a| <= |b|
  {
    assert b == a + (b - a);
  }

  /** The run of a reconciled slice: whether an exception left it, and whether it drained the plan. */
  method RunReconciled(slice: DocumentSlice, s: Script, rows: seq<nat>, ghost items: set<nat>)
    returns (raised: bool, drained: bool)
    requires slice.Valid() && slice.active && !slice.closed && Runnable(s) && Among(rows) == slice.log.Keys
    requires forall i :: i in items ==> i in s.current && s.env.eligible(i)
    requires forall i :: i in slice.origin ==> !InFlight(StateAfter(slice.origin[i]))
    requires slice.attempted == {} && slice.skipped == {} && slice.documents == 0
    requires slice.stop == None && slice.slStop == None
    requires slice.max == s.max && slice.passesPerDocument == s.passesPerDocument && slice.cap == s.cap
    requires NoNewFlight(slice.origin, slice.log)
    requires forall i :: i in slice.log ==>
               StateAfter(slice.log[i]) != Abandoned && (WaitsAtMaximum(slice.log, i, s.max) ==> i in s.openAttempts)
    modifies slice`log, slice`faults, slice`outcomes, slice`stop, slice`documents, slice`slStop, slice`attempted,
             slice`skipped
    ensures slice.Valid() && OnlyStates(old(slice.log), slice.log, {Pending, RetryWait})
    ensures drained ==> slice.stop == None && forall i :: i in slice.log ==> !InFlightUnder(slice.log[i], slice.lease)
    ensures drained && s.openAttempts == {} ==>
              forall i :: i in slice.log && i in items ==> Moved(slice.origin[i], slice.log[i], s.max)
    ensures Clean(s, |slice.log.Keys|) && !old(Faulty(slice.faults)) ==> drained && !raised && !Faulty(slice.faults)
  {
    hide LedgerOk, LegalPath, Claims, Grown, InFlightUnder, Moved, Kept, LawfulPass, Clean, Faulty, EachTriedOnce,
         OnlyStates, NoNewFlight, Between, Unclear, SkippedForCause, PassesOf;
    ghost var (first, middle) := (slice.origin, slice.log);
    RowsAreLogged(rows, slice.log);
    var bounded, stopped;
    raised, bounded, stopped := slice.RunSlice(s.maxItems, rows, s.current, s.env);
    drained := !raised && !bounded && stopped.None?;
    OnlyStatesKeys(middle, slice.log);
    LedgerKeys(first, slice.log, slice.lease);
    assert slice.attempted - {} == slice.attempted;
    if Clean(s, |slice.log.Keys|) {
      CleanMeans(s, |slice.log.Keys|);
      CleanRuns(s, |slice.log.Keys|, rows, slice.attempted, slice.documents);
    }
    if drained {
      NothingInFlight(first, middle, slice.log, slice.attempted, slice.lease);
      forall i | i in slice.log && i in items && s.openAttempts == {} ensures Moved(first[i], slice.log[i], s.max) {
        DrainedMoves(first, middle, slice.log, slice.attempted, slice.skipped, slice.lease, s, i);
      }
    }
  }

  lemma {:induction false} RowsAreLogged(rows: seq<nat>, log: map<nat, seq<Event>>)
    requires Among(rows) == log.Keys
    ensures forall i :: i in rows <==> i in log
  {
    assert forall i :: i in rows <==> i in Among(rows);
  }

  lemma {:induction false} OnlyStatesKeys(before: map<nat, seq<Event>>, after: map<nat, seq<Event>>)
    requires OnlyStates(before, after, {Pending, RetryWait})
    ensures before.Keys == after.Keys
  {
  }

  /** The end of a slice: its close, or the crash of its process. */
  method End(slice: DocumentSlice, s: Script, raised: bool) returns (left: Option<nat>)
    requires slice.Valid() && slice.active && !slice.closed
    modifies slice`active, slice`closed, slice`leaseKept, slice`faults
    ensures slice.Valid() && Between(slice.log, left) && (left.Some? ==> left == Some(slice.lease))
    ensures (Clean(s, |slice.log.Keys|) && !old(Faulty(slice.faults)) && !raised && slice.stop == None
             && forall i :: i in slice.log ==> !InFlightUnder(slice.log[i], slice.lease)) ==> left.None?
  {
    hide LedgerOk, LegalPath, InFlightUnder, Clean, Faulty, Between;
    CleanMeans(s, |slice.log.Keys|);
    if !s.crashes {
      var threw := slice.Close(raised, s.unreadable, s.openAttempts != {});
    }
    left := if slice.active then Some(slice.lease) else None;
    BetweenAfter(slice.origin, slice.log, slice.lease, left);
  }

  /** An opened slice, to its close or its crash. */
  method RunOpen(slice: DocumentSlice, s: Script, ghost items: set<nat>)
    returns (after: map<nat, seq<Event>>, left: Option<nat>, whole: bool)
    requires slice.Valid() && slice.active && !slice.closed && slice.log == slice.origin && Runnable(s)
    requires forall i :: i in items ==> i in s.current && s.env.eligible(i)
    requires forall i :: i in slice.log ==> !InFlight(StateAfter(slice.log[i]))
    requires slice.attempted == {} && slice.skipped == {} && slice.documents == 0
    requires slice.stop == None && slice.slStop == None && slice.faults == s.faults && !slice.leaseKept
    requires slice.max == s.max && slice.passesPerDocument == s.passesPerDocument && slice.cap == s.cap
    modifies slice
    ensures Between(after, left) && after.Keys == slice.origin.Keys && (left.Some? ==> left == Some(old(slice.lease)))
    ensures forall i :: i in slice.origin ==> Kept(slice.origin[i], after[i])
    ensures whole ==> left.None? && forall i :: i in slice.origin && i in items ==>
              Moved(slice.origin[i], after[i], s.max)
    ensures whole ==> forall i :: i in slice.origin ==> Recovered(slice.origin[i], after[i], s.max, s.persisted(i))
    ensures Clean(s, |slice.origin.Keys|) ==> whole
  {
    hide LedgerOk, LegalPath, Claims, Grown, InFlightUnder, Moved, Kept, LawfulPass, Clean, Faulty, OnlyStates,
         NoNewFlight, Between, Among, WaitsAtMaximum, EndsReconciled, Recovered;
    CleanMeans(s, |slice.log.Keys|);
    var rows := Rows(slice.log);
    var ok := slice.Reconcile(rows, s.persisted, s.openAttempts);
    ghost var middle := slice.log;
    NoneOfStates(middle, {Pending, RetryWait});
    var raised, drained := !ok, false;
    if ok {
      raised, drained := RunReconciled(slice, s, rows, items);
    }
    after := slice.log;
    LedgerKeys(slice.origin, after, slice.lease);
    forall i | i in slice.origin ensures Kept(slice.origin[i], after[i]) {
      KeptBySlice(slice.origin, middle, after, slice.lease, i);
    }
    left := End(slice, s, raised);
    whole := drained && s.openAttempts == {} && left.None?;
    forall i | i in slice.origin && whole ensures Recovered(slice.origin[i], after[i], s.max, s.persisted(i)) {
      RecoveredBySlice(slice.origin, middle, after, i, s.max, s.persisted(i));
    }
  }

  lemma {:induction false} LedgerKeys(first: map<nat, seq<Event>>, log: map<nat, seq<Event>>, lease: nat)
    requires LedgerOk(first, log, lease)
    ensures first.Keys == log.Keys
  {
  }

  /** Slices one after another. Whatever they meet, the invariant of the ledger holds between them; and once more clean
      slices than a document may be claimed have run, each document that is eligible in all of them is at rest. */
  method RunSlices(start: map<nat, seq<Event>>, active: Option<nat>, scripts: seq<Script>, bound: nat,
                   ghost items: set<nat>)
    returns (log: map<nat, seq<Event>>, kept: Option<nat>)
    requires Between(start, active)
    requires forall s :: s in scripts ==> Runnable(s) && s.max <= bound
    requires forall s, i :: s in scripts && i in items ==> i in s.current && s.env.eligible(i)
    ensures Between(log, kept) && log.Keys == start.Keys
    ensures forall i :: i in start ==> Kept(start[i], log[i])
    ensures CleanSlices(scripts, |start.Keys|) > bound ==> forall i :: i in log && i in items ==> AtRest(log[i])
  {
    hide Between, LegalPath, Claims, Kept, Clean, AtRest;
    log, kept := start, active;
    forall i | i in start ensures Kept(start[i], start[i]) {
      NothingKept(start[i]);
    }
    for k := 0 to |scripts|
      invariant Between(log, kept) && log.Keys == start.Keys && forall i :: i in start ==> Kept(start[i], log[i])
      invariant forall i :: i in log && i in items ==>
                  OnTheWay(log[i], CleanSlices(scripts[..k], |start.Keys|), bound)
    {
      ghost var (before, n) := (log, CleanSlices(scripts[..k], |start.Keys|));
      assert scripts[..k + 1][..|scripts[..k + 1]| - 1] == scripts[..k];
      assert scripts[k] in scripts;
      var whole;
      log, kept, whole := RunOne(log, kept, k, scripts[k], items);
      forall i | i in start ensures Kept(start[i], log[i]) {
        KeptChain(start[i], before[i], log[i]);
      }
      forall i | i in log && i in items ensures OnTheWay(log[i], CleanSlices(scripts[..k + 1], |start.Keys|), bound) {
        StillOnTheWay(before[i], log[i], n, bound, scripts[k].max, whole);
      }
    }
    assert scripts[..|scripts|] == scripts;
  }

  /** After n clean slices: at rest, or claimed n times. */
  ghost predicate OnTheWay(es: seq<Event>, n: nat, bound: nat) {
    AtRest(es) || (n <= Claims(es) && n <= bound)
  }

  lemma {:induction false} NothingKept(es: seq<Event>)
    ensures Kept(es, es)
  {
  }

  lemma {:induction false} StillOnTheWay(before: seq<Event>, after: seq<Event>, n: nat, bound: nat, max: nat,
                                         whole: bool)
    requires OnTheWay(before, n, bound) && Kept(before, after) && max <= bound && (whole ==> Moved(before, after, max))
    ensures OnTheWay(after, n, bound) && (whole ==> OnTheWay(after, n + 1, bound))
  {
    hide Claims, Grown;
    ClaimsOnlyGrow(before, after);
  }
}
