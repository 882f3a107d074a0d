// One discovery slice after another, each with its own faults and replies: however many of them fail, stop or crash,
// once more slices than an item may be claimed have run clean, every item of the plan is final or blocked.
module DiscoverySettling {
  import opened Prelude
  import opened ItemStates
  import opened DiscoveryLedger
  import opened DiscoveryRuns
  import opened DiscoveryTheorems
  import opened DiscoverySlices

  /** What one slice meets. */
  datatype Script = Script(faults: seq<Fault>, max: nat, spool: map<nat, Outcome>, replies: nat -> Reply,
                           unreadable: bool)

  ghost predicate Runnable(s: Script) {
    1 <= s.max <= ITEM_MAX_ATTEMPTS && SpoolOk(s.spool)
  }

  /** No commit raises, the ledger can be read at the end, and every request is answered without a stop. */
  ghost predicate Clean(s: Script) {
    Quiet(s.faults) && !s.unreadable && forall n: nat :: Goes(s.replies(n))
  }

  ghost function CleanSlices(scripts: seq<Script>): nat {
    if scripts == [] then 0
    else CleanSlices(scripts[..|scripts| - 1]) + if Clean(scripts[|scripts| - 1]) then 1 else 0
  }

  ghost predicate NoOperator(ss: seq<Step>, start: nat) {
    forall k :: start <= k < |ss| ==> !IsOperators(ss[k])
  }

  /** These ends serve every item of the plan, one after the other. */
  ghost predicate ServesPlan(ms: seq<Machine>, ss: seq<Step>, ends: seq<nat>, items: set<nat>) {
    && (forall i :: i in items ==> Ends(ms, ss, ends, i))
    && ends != [] && ends[|ends| - 1] < |ms|
  }

  lemma {:induction false} ServesLonger(ms: seq<Machine>, ss: seq<Step>, ns: seq<Machine>, ts: seq<Step>,
                                        ends: seq<nat>, items: set<nat>)
    requires Behaviour(ms, ss) && Behaviour(ns, ts) && ms <= ns && ss <= ts && ServesPlan(ms, ss, ends, items)
    ensures ServesPlan(ns, ts, ends, items)
  {
    forall i | i in items ensures Ends(ns, ts, ends, i) {
      EndsLonger(ms, ss, ns, ts, ends, i);
    }
  }

  lemma {:induction false} EndsLonger(ms: seq<Machine>, ss: seq<Step>, ns: seq<Machine>, ts: seq<Step>, ends: seq<nat>,
                                      item: nat)
    requires Behaviour(ms, ss) && Behaviour(ns, ts) && ms <= ns && ss <= ts && Ends(ms, ss, ends, item)
    ensures Ends(ns, ts, ends, item)
  {
    hide Settled;
    forall k | 0 < k < |ends|
      ensures Undisturbed(ts, ends[k - 1], ends[k], item) && Served(ns, ts, ends[k - 1], ends[k], item)
    {
      assert Undisturbed(ss, ends[k - 1], ends[k], item) && Served(ms, ss, ends[k - 1], ends[k], item);
      ClaimedLonger(ss, ts, ends[k - 1], ends[k - 1], ends[k], item);
    }
  }

  lemma {:induction false} ClaimedLonger(ss: seq<Step>, ts: seq<Step>, h: nat, i: nat, j: nat, item: nat)
    requires ss <= ts && h <= i
    ensures ClaimedIn(ss, i, j, item) ==> ClaimedIn(ts, h, j, item)
  {
    if ClaimedIn(ss, i, j, item) {
      var k :| i <= k < j <= |ss| && ss[k] == ClaimItem(item);
      assert ts[k] == ClaimItem(item);
    }
  }

  /** A clean slice is one more end. */
  lemma {:induction false} OneMoreEnd(ms: seq<Machine>, ss: seq<Step>, ends: seq<nat>, items: set<nat>, i: nat)
    requires Behaviour(ms, ss) && ServesPlan(ms, ss, ends, items) && ends[|ends| - 1] <= i < |ms|
    requires NoOperator(ss, ends[|ends| - 1]) && forall x :: x in items ==> Served(ms, ss, i, |ms| - 1, x)
    ensures ServesPlan(ms, ss, ends + [|ms| - 1], items)
  {
    hide Settled;
    var (e, j, more) := (ends[|ends| - 1], |ms| - 1, ends + [|ms| - 1]);
    forall x | x in items ensures Ends(ms, ss, more, x) {
      assert Ends(ms, ss, ends, x) && Served(ms, ss, i, j, x);
      ClaimedLonger(ss, ss, e, i, j, x);
      assert Undisturbed(ss, e, j, x) && Served(ms, ss, e, j, x);
      forall k | 0 < k < |more|
        ensures Undisturbed(ss, more[k - 1], more[k], x) && Served(ms, ss, more[k - 1], more[k], x)
      {
        if k < |ends| {
          assert Undisturbed(ss, ends[k - 1], ends[k], x) && Served(ms, ss, ends[k - 1], ends[k], x);
        }
      }
    }
  }

  /** Served often enough, and not disturbed since. */
  lemma {:induction false} EnoughEndsSettle(ms: seq<Machine>, ss: seq<Step>, ends: seq<nat>, items: set<nat>, item: nat)
    requires Behaviour(ms, ss) && ServesPlan(ms, ss, ends, items) && item in items && |ends| > ITEM_MAX_ATTEMPTS + 1
    requires NoOperator(ss, ends[0]) && item in ms[ends[0]].db.log
    requires forall k :: 0 <= k < |ends| ==> ends[0] <= ends[k]
    ensures Settled(ms[|ms| - 1].db, item)
  {
    hide Settled, Served;
    var first := ends[..ITEM_MAX_ATTEMPTS + 2];
    assert Ends(ms, ss, ends, item);
    forall k | 0 < k < |first|
      ensures Undisturbed(ss, first[k - 1], first[k], item) && Served(ms, ss, first[k - 1], first[k], item)
    {
      assert Undisturbed(ss, ends[k - 1], ends[k], item) && Served(ms, ss, ends[k - 1], ends[k], item);
    }
    EveryItemSettles(ms, ss, first, item);
    var e := first[|first| - 1];
    ItemStaysLogged(ms, ss, first, item);
    assert Undisturbed(ss, e, |ms| - 1, item);
    SegmentCounts(ms, ss, e, |ms| - 1, item);
  }

  lemma {:induction false} ItemStaysLogged(ms: seq<Machine>, ss: seq<Step>, ends: seq<nat>, item: nat)
    requires Behaviour(ms, ss) && Ends(ms, ss, ends, item) && ends != [] && item in ms[ends[0]].db.log
    ensures item in ms[ends[|ends| - 1]].db.log
  {
    ClaimsAccumulate(ms, ss, ends, item, |ends| - 1);
  }

  /** Slices one after another on the same ledger; a slice that is left open is a crashed one. Whatever the others meet,
      once more clean slices than an item may be claimed have run, every item of the plan is final or blocked. */
  method RunSlices(start: Db, plan: set<nat>, scripts: seq<Script>, ghost before: seq<Machine>, ghost done: seq<Step>)
    returns (db: Db, ghost ms: seq<Machine>, ghost ss: seq<Step>)
    requires Behaviour(before, done) && before[|before| - 1] == Machine(start, None)
    requires forall s :: s in scripts ==> Runnable(s)
    ensures Behaviour(ms, ss) && ms[|ms| - 1] == Machine(db, None) && before <= ms && done <= ss
    ensures db.log.Keys == start.log.Keys
    ensures CleanSlices(scripts) > ITEM_MAX_ATTEMPTS ==> forall i :: i in db.log && i in plan ==> Settled(db, i)
  {
    hide Behaviour, Settled, Clean, Ends;
    db, ms, ss := start, before, done;
    ghost var items := start.log.Keys * plan;
    BehaviourLength(before, done);
    ghost var ends: seq<nat> := [|before| - 1];
    FirstEnd(ms, ss, items);
    for k := 0 to |scripts|
      invariant Behaviour(ms, ss) && |ms| == |ss| + 1 && ms[|ms| - 1] == Machine(db, None) && before <= ms && done <= ss
      invariant db.log.Keys == start.log.Keys && NoOperator(ss, |done|)
      invariant ServesPlan(ms, ss, ends, items) && |ends| >= 1 + CleanSlices(scripts[..k]) && ends[0] == |done|
      invariant forall j :: 0 <= j < |ends| ==> |done| <= ends[j]
    {
      assert scripts[..k + 1][..|scripts[..k + 1]| - 1] == scripts[..k];
      ghost var (oms, oss) := (ms, ss);
      var whole;
      whole, db, ms, ss := RunOne(db, plan, scripts[k], ms, ss);
      BehaviourLength(oms, oss);
      BehaviourLength(ms, ss);
      StillNoOperator(oss, ss, |done|);
      ServesLonger(oms, oss, ms, ss, ends, items);
      if whole {
        OneMoreEnd(ms, ss, ends, items, |oms| - 1);
        ends := ends + [|ms| - 1];
      }
    }
    assert scripts[..|scripts|] == scripts;
    if CleanSlices(scripts) > ITEM_MAX_ATTEMPTS {
      forall i | i in db.log && i in plan ensures Settled(db, i) {
        EnoughEndsSettle(ms, ss, ends, items, i);
      }
    }
  }

  lemma {:induction false} FirstEnd(ms: seq<Machine>, ss: seq<Step>, items: set<nat>)
    requires Behaviour(ms, ss)
    ensures ServesPlan(ms, ss, [|ms| - 1], items)
  {
  }

  lemma {:induction false} StillNoOperator(ss: seq<Step>, ts: seq<Step>, start: nat)
    requires NoOperator(ss, start) && ss <= ts && NoOperator(ts, |ss|)
    ensures NoOperator(ts, start)
  {
  }

  /** One slice, and the crash that ends it if it is left open. */
  method RunOne(start: Db, plan: set<nat>, script: Script, ghost before: seq<Machine>, ghost done: seq<Step>)
    returns (whole: bool, db: Db, ghost ms: seq<Machine>, ghost ss: seq<Step>)
    requires Behaviour(before, done) && before[|before| - 1] == Machine(start, None) && Runnable(script)
    ensures Behaviour(ms, ss) && ms[|ms| - 1] == Machine(db, None) && before <= ms && done <= ss
    ensures db.log.Keys == start.log.Keys && NoOperator(ss, |done|)
    ensures whole ==> forall i :: i in db.log && i in plan ==> Served(ms, ss, |before| - 1, |ms| - 1, i)
    ensures Clean(script) ==> whole
  {
    hide Behaviour, Settled, Served, Quiet;
    var slice := new DiscoverySlice(start, plan, script.faults, before, done);
    whole := slice.Work(script.max, script.spool, script.replies, script.unreadable);
    db, ms, ss := slice.db, slice.ms, slice.ss;
    if slice.sl.Some? {
      var n := Machine(db, None);
      assert Follows(slice.M(), Crash, n);
      Continues(ms, ss, Crash, n);
      BehaviourLength(ms, ss);
      ms, ss := ms + [n], ss + [Crash];
    }
  }
}
