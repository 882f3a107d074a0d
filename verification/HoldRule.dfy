// The hold rule HB-I-HOLD (worker/backfill_discovery/identity.py): before a batch of observations is
// recorded, the guard is simulated on recorded + batch, and every observation whose secId would become
// disputed only for missing evidence is held back.
module HoldRule {
  import opened Prelude
  import opened IssuerIdentity

  type Batch = seq<Observation>

  // ---------------------------------------------------------------- by_symbol and the union

  /** by_symbol: observations without a symbol are dropped. */
  function BySymbol(batch: Batch): History {
    if batch == [] then map[]
    else
      var h, o := BySymbol(batch[..|batch| - 1]), batch[|batch| - 1];
      if o.symbol.None? then h
      else h[o.symbol.value := (if o.symbol.value in h then h[o.symbol.value] else []) + [o]]
  }

  function Union(a: History, b: History): History {
    map s | s in a.Keys + b.Keys :: (if s in a then a[s] else []) + (if s in b then b[s] else [])
  }

  /** The history after a batch is recorded. */
  function After(recorded: History, batch: Batch): History {
    Union(recorded, BySymbol(batch))
  }

  /** What a batch claims for security s on secId sec. */
  ghost function BatchClaims(batch: Batch, s: Symbol, sec: SecId): set<Observation> {
    set o | o in batch && o.symbol == Some(s) && o.sec == Some(sec)
  }

  lemma {:induction false} BySymbolClaims(batch: Batch, s: Symbol, sec: SecId)
    ensures Claims(BySymbol(batch), s, sec) == BatchClaims(batch, s, sec)
  {
    if batch != [] {
      var rest, o := batch[..|batch| - 1], batch[|batch| - 1];
      BySymbolClaims(rest, s, sec);
      assert forall x :: x in batch <==> x in rest || x == o by {
        assert batch == rest + [o];
      }
      if o.symbol.Some? {
        BySymbolOneMore(BySymbol(rest), o, s, sec);
      }
    }
  }

  lemma {:induction false} BySymbolOneMore(h: History, o: Observation, s: Symbol, sec: SecId)
    requires o.symbol.Some?
    ensures var t := o.symbol.value;
            Claims(h[t := (if t in h then h[t] else []) + [o]], s, sec) ==
            Claims(h, s, sec) + (if t == s && o.sec == Some(sec) then {o} else {})
  {
  }

  lemma {:induction false} AfterClaims(recorded: History, batch: Batch, s: Symbol, sec: SecId)
    ensures Claims(After(recorded, batch), s, sec) == Claims(recorded, s, sec) + BatchClaims(batch, s, sec)
  {
    BySymbolClaims(batch, s, sec);
    UnionClaims(recorded, BySymbol(batch), s, sec);
  }

  lemma {:induction false} UnionClaims(a: History, b: History, s: Symbol, sec: SecId)
    ensures Claims(Union(a, b), s, sec) == Claims(a, s, sec) + Claims(b, s, sec)
  {
  }

  // ---------------------------------------------------------------- held_sec_ids

  ghost predicate InsufficientOnly(d: Dispute) {
    && (exists s, f :: s in d && f in d[s])
    && (forall s, f :: s in d && f in d[s] ==> f.kind == EvidenceInsufficient)
  }

  /** secId -> dispute for every dispute that is new with the batch and rests only on missing evidence. */
  ghost function Held(recorded: History, batch: Batch): map<SecId, Dispute> {
    map sec | sec in Disputes(After(recorded, batch)) && sec !in Disputes(recorded)
              && InsufficientOnly(Disputes(After(recorded, batch))[sec])
            :: Disputes(After(recorded, batch))[sec]
  }

  predicate AllInsufficient(failures: set<Failure>) {
    forall f :: f in failures ==> f.kind == EvidenceInsufficient
  }

  method GroupBySymbol(batch: Batch) returns (h: History)
    ensures h == BySymbol(batch)
  {
    h := map[];
    for i := 0 to |batch|
      invariant h == BySymbol(batch[..i])
    {
      var o := batch[i];
      assert batch[..i + 1][..i] == batch[..i];
      if o.symbol.Some? {
        var s := o.symbol.value;
        h := h[s := (if s in h then h[s] else []) + [o]];
      }
    }
    assert batch[..|batch|] == batch;
  }

  /** Two claimants of the secId, or one with itself, that are not told to be one issuer. */
  ghost predicate Unsettled(h: History, sec: SecId, a: Symbol, b: Symbol) {
    exists kind :: DisputedBy(h, sec, a, b, kind)
  }

  /** Two different claimants of which one carries no code and one no name to compare. */
  ghost predicate NothingToCompare(h: History, sec: SecId, a: Symbol, b: Symbol) {
    && a in Claimants(h, sec) && b in Claimants(h, sec) && a != b
    && !(HasCode(h, sec, a) && HasCode(h, sec, b)) && !(HasName(h, sec, a) && HasName(h, sec, b))
  }

  /** A secId is held, from the observations alone: no pair of its claimants is unsettled before the batch, some pair is
      with it, and every such pair lacks a comparable code and a comparable name. */
  ghost predicate HeldByObservations(recorded: History, batch: Batch, sec: SecId) {
    && (forall a, b :: !Unsettled(recorded, sec, a, b))
    && (exists a, b :: Unsettled(After(recorded, batch), sec, a, b))
    && (forall a, b :: Unsettled(After(recorded, batch), sec, a, b) ==>
          NothingToCompare(After(recorded, batch), sec, a, b))
  }

  lemma {:induction false} NothingToCompareIs(h: History, sec: SecId, a: Symbol, b: Symbol)
    ensures NothingToCompare(h, sec, a, b) <==> DisputedBy(h, sec, a, b, EvidenceInsufficient)
    ensures NothingToCompare(h, sec, a, b) ==> forall kind :: DisputedBy(h, sec, a, b, kind) ==>
              kind == EvidenceInsufficient
  {
    hide HasCode, HasName, CodesAgree, NamesAgree, Claimants;
  }

  /** The disputes of a history that rest only on missing evidence. */
  lemma {:induction false} InsufficientAsObserved(h: History, sec: SecId)
    ensures sec in Disputes(h) <==> exists a, b :: Unsettled(h, sec, a, b)
    ensures sec in Disputes(h) ==>
              (InsufficientOnly(Disputes(h)[sec]) <==>
                 forall a, b :: Unsettled(h, sec, a, b) ==> NothingToCompare(h, sec, a, b))
  {
    hide Disputes, Claimants, FailsBy, NothingToCompare;
    DisputesAsObserved(h, sec);
    forall a, b
      ensures NothingToCompare(h, sec, a, b) <==> DisputedBy(h, sec, a, b, EvidenceInsufficient)
      ensures NothingToCompare(h, sec, a, b) ==> forall kind :: DisputedBy(h, sec, a, b, kind) ==>
                kind == EvidenceInsufficient
    {
      NothingToCompareIs(h, sec, a, b);
    }
    if a, b :| Unsettled(h, sec, a, b) {
      assert exists kind :: DisputedBy(h, sec, a, b, kind);
    }
    if a, b, kind :| DisputedBy(h, sec, a, b, kind) {
      assert Unsettled(h, sec, a, b);
    }
    if sec in Disputes(h) {
      var d := Disputes(h)[sec];
      forall a, b, kind | DisputedBy(h, sec, a, b, kind) ensures Failure(kind, b) in d[a] {
      }
      if forall a, b :: Unsettled(h, sec, a, b) ==> NothingToCompare(h, sec, a, b) {
        forall s, f: Failure | s in d && f in d[s] ensures f.kind == EvidenceInsufficient {
          assert DisputedBy(h, sec, s, f.other, f.kind) && Unsettled(h, sec, s, f.other);
        }
      }
    }
  }

  lemma {:induction false} HeldAsObserved(recorded: History, batch: Batch, sec: SecId)
    ensures sec in Held(recorded, batch) <==> HeldByObservations(recorded, batch, sec)
  {
    hide Disputes, After, Unsettled, NothingToCompare, InsufficientOnly;
    InsufficientAsObserved(recorded, sec);
    InsufficientAsObserved(After(recorded, batch), sec);
  }

  /** held_sec_ids: the new disputes of recorded and batch together that rest only on missing evidence. */
  method HeldSecIds(recorded: History, batch: Batch) returns (held: map<SecId, Dispute>)
    ensures held == Held(recorded, batch)
    ensures forall sec :: sec in held <==> HeldByObservations(recorded, batch, sec)
  {
    hide Disputes, After, HeldByObservations, Held, DisputedBy, Claimants;
    var grouped := GroupBySymbol(batch);
    var before := DisputedSecIds(recorded);
    var after := DisputedSecIds(Union(recorded, grouped));
    AfterIsUnion(recorded, batch);
    held := map[];
    var secs := Listed(after.Keys);
    for i := 0 to |secs|
      invariant forall sec :: sec in held <==> sec in secs[..i] && sec !in before && InsufficientOnly(after[sec])
      invariant forall sec :: sec in held ==> sec in after && held[sec] == after[sec]
    {
      var sec := secs[i];
      assert secs[..i + 1] == secs[..i] + [sec];
      if sec in before {
        continue;
      }
      var failures := after[sec];
      var some := exists s :: s in failures && failures[s] != {};
      var all := forall s :: s in failures ==> AllInsufficient(failures[s]);
      ReasonsAsRead(failures);
      if some && all {
        held := held[sec := failures];
      }
    }
    assert secs[..|secs|] == secs;
    HeldIsComplete(recorded, batch, before, after, held);
    forall sec ensures sec in held <==> HeldByObservations(recorded, batch, sec) {
      HeldAsObserved(recorded, batch, sec);
    }
  }

  lemma {:induction false} AfterIsUnion(recorded: History, batch: Batch)
    ensures After(recorded, batch) == Union(recorded, BySymbol(batch))
  {
  }

  lemma {:induction false} ReasonsAsRead(d: Dispute)
    ensures InsufficientOnly(d) <==>
            (exists s :: s in d && d[s] != {}) && (forall s :: s in d ==> AllInsufficient(d[s]))
  {
    if s :| s in d && d[s] != {} {
      var f :| f in d[s];
      assert s in d && f in d[s];
    }
  }

  lemma {:induction false} HeldIsComplete(recorded: History, batch: Batch, before: map<SecId, Dispute>,
                                          after: map<SecId, Dispute>, held: map<SecId, Dispute>)
    requires before == Disputes(recorded) && after == Disputes(After(recorded, batch))
    requires forall sec :: sec in held <==> sec in after && sec !in before && InsufficientOnly(after[sec])
    requires forall sec :: sec in held ==> sec in after && held[sec] == after[sec]
    ensures held == Held(recorded, batch)
  {
    hide Disputes, After, InsufficientOnly;
    assert held.Keys == Held(recorded, batch).Keys;
  }

  // ---------------------------------------------------------------- split_batch

  predicate IsHeld(held: set<SecId>, o: Observation) {
    o.symbol.Some? && o.sec.Some? && o.sec.value in held
  }

  function Kept(held: set<SecId>, batch: Batch): Batch {
    if batch == [] then [] else (if IsHeld(held, batch[0]) then [] else [batch[0]]) + Kept(held, batch[1..])
  }

  function HeldBack(held: set<SecId>, batch: Batch): Batch {
    if batch == [] then [] else (if IsHeld(held, batch[0]) then [batch[0]] else []) + HeldBack(held, batch[1..])
  }

  lemma {:induction false} SplitMembers(held: set<SecId>, batch: Batch)
    ensures forall o :: o in Kept(held, batch) <==> o in batch && !IsHeld(held, o)
    ensures forall o :: o in HeldBack(held, batch) <==> o in batch && IsHeld(held, o)
  {
    if batch != [] {
      SplitMembers(held, batch[1..]);
      assert forall o :: o in batch <==> o == batch[0] || o in batch[1..] by {
        assert batch == [batch[0]] + batch[1..];
      }
    }
  }

  lemma {:induction false} SplitAppend(held: set<SecId>, a: Batch, o: Observation)
    ensures Kept(held, a + [o]) == Kept(held, a) + (if IsHeld(held, o) then [] else [o])
    ensures HeldBack(held, a + [o]) == HeldBack(held, a) + (if IsHeld(held, o) then [o] else [])
  {
    if a == [] {
      assert [o][1..] == [];
    } else {
      assert (a + [o])[1..] == a[1..] + [o];
      SplitAppend(held, a[1..], o);
    }
  }

  lemma {:induction false} SplitNothing(held: set<SecId>)
    ensures Kept(held, []) == [] && HeldBack(held, []) == []
  {
  }

  /** split_batch: every observation is either recorded or held with its dispute; the order is kept. */
  method SplitBatch(recorded: History, batch: Batch) returns (record: Batch, hold: Batch, held: map<SecId, Dispute>)
    ensures held == Held(recorded, batch)
    ensures record == Kept(held.Keys, batch) && hold == HeldBack(held.Keys, batch)
    ensures multiset(record) + multiset(hold) == multiset(batch)
    ensures forall o :: o in hold <==>
              o in batch && o.symbol.Some? && o.sec.Some? && HeldByObservations(recorded, batch, o.sec.value)
  {
    hide Held, Kept, HeldBack, HeldByObservations, After;
    held := HeldSecIds(recorded, batch);
    SplitNothing(held.Keys);
    record, hold := [], [];
    for i := 0 to |batch|
      invariant record == Kept(held.Keys, batch[..i]) && hold == HeldBack(held.Keys, batch[..i])
      invariant multiset(record) + multiset(hold) == multiset(batch[..i])
    {
      var o := batch[i];
      assert batch[..i + 1] == batch[..i] + [o];
      SplitAppend(held.Keys, batch[..i], o);
      if IsHeld(held.Keys, o) {
        hold := hold + [o];
      } else {
        record := record + [o];
      }
    }
    assert batch[..|batch|] == batch;
    SplitMembers(held.Keys, batch);
  }

  // ---------------------------------------------------------------- the hold theorems

  /** On a held secId recording the rest of the batch leaves the claims as they were. */
  lemma {:induction false} KeptClaimsOfHeld(recorded: History, batch: Batch, held: set<SecId>, sec: SecId, s: Symbol)
    requires sec in held
    ensures Claims(After(recorded, Kept(held, batch)), s, sec) == Claims(recorded, s, sec)
  {
    AfterClaims(recorded, Kept(held, batch), s, sec);
    SplitMembers(held, batch);
    assert BatchClaims(Kept(held, batch), s, sec) == {};
  }

  /** On every other secId it claims what the whole batch claims. */
  lemma {:induction false} KeptClaimsOfOthers(recorded: History, batch: Batch, held: set<SecId>, sec: SecId, s: Symbol)
    requires sec !in held
    ensures Claims(After(recorded, Kept(held, batch)), s, sec) == Claims(After(recorded, batch), s, sec)
  {
    AfterClaims(recorded, Kept(held, batch), s, sec);
    AfterClaims(recorded, batch, s, sec);
    SplitMembers(held, batch);
    assert BatchClaims(Kept(held, batch), s, sec) == BatchClaims(batch, s, sec);
  }

  lemma {:induction false} SameDispute(h1: History, h2: History, sec: SecId)
    requires forall s :: Claims(h1, s, sec) == Claims(h2, s, sec)
    ensures sec in Disputes(h1) <==> sec in Disputes(h2)
    ensures sec in Disputes(h1) ==> Disputes(h1)[sec] == Disputes(h2)[sec]
  {
    SameClaimsSameDispute(h1, h2, sec);
  }

  /** Hold rule exactness: recording the kept part of a batch produces exactly the disputes the whole batch would
      have produced, minus the held secIds. */
  lemma {:induction false} HoldIsExact(recorded: History, batch: Batch)
    ensures var held := Held(recorded, batch);
            Disputes(After(recorded, Kept(held.Keys, batch))) == Disputes(After(recorded, batch)) - held.Keys
  {
    hide Disputes, After, Kept, Held;
    var held := Held(recorded, batch);
    var kept := After(recorded, Kept(held.Keys, batch));
    var whole := After(recorded, batch);
    forall sec ensures sec in Disputes(kept) <==> sec in Disputes(whole) && sec !in held {
      OneSecId(recorded, batch, sec);
    }
    forall sec | sec in Disputes(kept) ensures Disputes(kept)[sec] == Disputes(whole)[sec] {
      OneSecId(recorded, batch, sec);
    }
  }

  lemma {:induction false} OneSecId(recorded: History, batch: Batch, sec: SecId)
    ensures var held := Held(recorded, batch);
            var kept, whole := After(recorded, Kept(held.Keys, batch)), After(recorded, batch);
            && (sec in held ==> sec !in Disputes(kept))
            && (sec !in held ==> (sec in Disputes(kept) <==> sec in Disputes(whole)))
            && (sec !in held && sec in Disputes(kept) ==> Disputes(kept)[sec] == Disputes(whole)[sec])
  {
    hide Disputes;
    var held := Held(recorded, batch).Keys;
    var kept, whole := After(recorded, Kept(held, batch)), After(recorded, batch);
    if sec in held {
      forall s ensures Claims(kept, s, sec) == Claims(recorded, s, sec) {
        KeptClaimsOfHeld(recorded, batch, held, sec, s);
      }
      SameDispute(kept, recorded, sec);
    } else {
      forall s ensures Claims(kept, s, sec) == Claims(whole, s, sec) {
        KeptClaimsOfOthers(recorded, batch, held, sec, s);
      }
      SameDispute(kept, whole, sec);
    }
  }

  /** So recording never creates a new dispute made only of missing evidence. */
  lemma {:induction false} NoNewInsufficientDispute(recorded: History, batch: Batch, sec: SecId)
    requires sec in Disputes(After(recorded, Kept(Held(recorded, batch).Keys, batch)))
    ensures sec in Disputes(recorded) ||
            !InsufficientOnly(Disputes(After(recorded, Kept(Held(recorded, batch).Keys, batch)))[sec])
  {
    hide Disputes, InsufficientOnly, After;
    OneSecId(recorded, batch, sec);
  }

  /** Re-running the same batch after its kept part was recorded holds exactly the same secIds, with the same
      failures. */
  lemma {:induction false} RerunHoldsTheSame(recorded: History, batch: Batch)
    ensures var held := Held(recorded, batch);
            Held(After(recorded, Kept(held.Keys, batch)), batch) == held
  {
    hide Held, After, Kept;
    var held := Held(recorded, batch);
    var again := Held(After(recorded, Kept(held.Keys, batch)), batch);
    forall sec ensures sec in again <==> sec in held {
      RerunOneSecId(recorded, batch, sec);
    }
    forall sec | sec in held ensures again[sec] == held[sec] {
      RerunOneSecId(recorded, batch, sec);
    }
  }

  lemma {:induction false} RerunOneSecId(recorded: History, batch: Batch, sec: SecId)
    ensures var held := Held(recorded, batch);
            var again := Held(After(recorded, Kept(held.Keys, batch)), batch);
            (sec in again <==> sec in held) && (sec in held ==> again[sec] == held[sec])
  {
    hide Disputes, InsufficientOnly;
    var held := Held(recorded, batch).Keys;
    var kept := After(recorded, Kept(held, batch));
    var twice, whole := After(kept, batch), After(recorded, batch);
    forall s ensures Claims(twice, s, sec) == Claims(whole, s, sec) {
      AfterClaims(kept, batch, s, sec);
      AfterClaims(recorded, Kept(held, batch), s, sec);
      AfterClaims(recorded, batch, s, sec);
      SplitMembers(held, batch);
      assert BatchClaims(Kept(held, batch), s, sec) <= BatchClaims(batch, s, sec);
    }
    SameDispute(twice, whole, sec);
    OneSecId(recorded, batch, sec);
    if sec in held {
      forall s ensures Claims(kept, s, sec) == Claims(recorded, s, sec) {
        KeptClaimsOfHeld(recorded, batch, held, sec, s);
      }
      SameDispute(kept, recorded, sec);
    }
  }

  // ---------------------------------------------------------------- record_batch

  /** record_observations: an observation already recorded is not added again. */
  function AddNew(rows: Batch, more: Batch): Batch
    decreases |more|
  {
    if more == [] then rows
    else AddNew(if more[0] in rows then rows else rows + [more[0]], more[1..])
  }

  lemma {:induction false} AddNewMembers(rows: Batch, more: Batch)
    ensures forall o :: o in AddNew(rows, more) <==> o in rows || o in more
    ensures rows <= AddNew(rows, more)
    decreases |more|
  {
    if more != [] {
      AddNewMembers(if more[0] in rows then rows else rows + [more[0]], more[1..]);
      assert forall o :: o in more <==> o == more[0] || o in more[1..] by {
        assert more == [more[0]] + more[1..];
      }
    }
  }

  lemma {:induction false} AddNothingNew(rows: Batch, more: Batch)
    requires forall o :: o in more ==> o in rows
    ensures AddNew(rows, more) == rows
  {
    if more != [] {
      AddNothingNew(rows, more[1..]);
    }
  }

  function Without(batch: Batch, pinned: set<Observation>): Batch {
    if batch == [] then [] else (if batch[0] in pinned then [] else [batch[0]]) + Without(batch[1..], pinned)
  }

  lemma {:induction false} WithoutMembers(batch: Batch, pinned: set<Observation>)
    ensures forall o :: o in Without(batch, pinned) <==> o in batch && o !in pinned
  {
    if batch != [] {
      WithoutMembers(batch[1..], pinned);
      assert forall o :: o in batch <==> o == batch[0] || o in batch[1..] by {
        assert batch == [batch[0]] + batch[1..];
      }
    }
  }

  /** The recorded rows and the holds; released: holds the owner resolved other than keep_held. */
  datatype Ledger = Ledger(rows: Batch, holds: set<Observation>, released: set<Observation>)

  function SetOf(batch: Batch): set<Observation> {
    set o | o in batch
  }

  ghost function FreePart(l: Ledger, batch: Batch): Batch {
    Without(batch, l.holds - l.released)
  }

  ghost function HeldNow(l: Ledger, batch: Batch): set<SecId> {
    Held(BySymbol(l.rows), FreePart(l, batch)).Keys
  }

  /** What one record_batch holds back, in the order of its holds. */
  ghost function HoldList(l: Ledger, batch: Batch): Batch {
    HeldBack(HeldNow(l, batch), FreePart(l, batch))
  }

  /** One record_batch: each hold in a transaction of its own, then the rest in one. */
  ghost function RecordedBatch(l: Ledger, batch: Batch): Ledger {
    l.(rows := AddNew(l.rows, Kept(HeldNow(l, batch), FreePart(l, batch))),
       holds := l.holds + SetOf(HoldList(l, batch)))
  }

  /** A record_batch that ended after committing these holds. */
  function Interrupted(l: Ledger, done: set<Observation>): Ledger {
    l.(holds := l.holds + done)
  }

  class IdentityStore {
    var rows: Batch
    var holds: set<Observation>
    var released: set<Observation>

    ghost function State(): Ledger
      reads this
    {
      Ledger(rows, holds, released)
    }

    constructor ()
      ensures State() == Ledger([], {}, {})
    {
      rows, holds, released := [], {}, {};
    }

    /** record_batch, in a process that dies before its next commit once it has made this many: the holds one by one,
        then the rest. */
    method RecordBatch(batch: Batch, commits: nat) returns (completed: bool, held: map<SecId, Dispute>)
      modifies this
      ensures held == Held(BySymbol(old(rows)), FreePart(old(State()), batch))
      ensures completed <==> commits > |HoldList(old(State()), batch)|
      ensures completed ==> State() == RecordedBatch(old(State()), batch)
      ensures !completed ==> State() == Interrupted(old(State()), SetOf(HoldList(old(State()), batch)[..commits]))
    {
      hide Held, After, Disputes, Without, Kept, HeldBack, AddNew, BySymbol;
      var free := Free(batch);
      var recorded := GroupBySymbol(rows);
      var record, hold;
      record, hold, held := SplitBatch(recorded, free);
      assert hold == HoldList(State(), batch);
      ghost var before := State();
      for i := 0 to |hold|
        invariant i <= commits && rows == before.rows && released == before.released
        invariant holds == before.holds + SetOf(hold[..i])
      {
        if i == commits {
          return false, held;
        }
        assert hold[..i + 1] == hold[..i] + [hold[i]];
        holds := holds + {hold[i]};
      }
      assert hold[..|hold|] == hold;
      completed := commits > |hold|;
      if completed {
        AddAll(record);
      }
    }

    /** The batch without what is held and not released. */
    method Free(batch: Batch) returns (free: Batch)
      ensures free == FreePart(State(), batch)
    {
      var pinned := holds - released;
      free := [];
      for i := 0 to |batch|
        invariant free + Without(batch[i..], pinned) == Without(batch, pinned)
      {
        WithoutNext(batch, pinned, i);
        if batch[i] !in pinned {
          free := free + [batch[i]];
        }
      }
      assert batch[|batch|..] == [];
    }

    method AddAll(record: Batch)
      modifies this`rows
      ensures rows == AddNew(old(rows), record)
    {
      for i := 0 to |record|
        invariant AddNew(rows, record[i..]) == AddNew(old(rows), record)
      {
        if record[i] !in rows {
          rows := rows + [record[i]];
        }
        assert record[i..][1..] == record[i + 1..];
      }
      assert record[|record|..] == [];
    }
  }

  lemma {:induction false} WithoutNext(batch: Batch, pinned: set<Observation>, i: nat)
    requires i < |batch|
    ensures Without(batch[i..], pinned) == (if batch[i] in pinned then [] else [batch[i]])
            + Without(batch[i + 1..], pinned)
  {
    assert batch[i..][1..] == batch[i + 1..];
  }

  lemma {:induction false} NothingNewToHoldFor(rows: Batch, free: Batch, sec: SecId)
    requires forall o :: o in free ==> o in rows
    ensures sec !in Held(BySymbol(rows), free)
  {
    hide Disputes, DisputeOf, After, BySymbol;
    forall s ensures Claims(After(BySymbol(rows), free), s, sec) == Claims(BySymbol(rows), s, sec) {
      SameClaimsAfter(rows, free, s, sec);
    }
    SameDispute(After(BySymbol(rows), free), BySymbol(rows), sec);
  }

  lemma {:induction false} SameClaimsAfter(rows: Batch, free: Batch, s: Symbol, sec: SecId)
    requires forall o :: o in free ==> o in rows
    ensures Claims(After(BySymbol(rows), free), s, sec) == Claims(BySymbol(rows), s, sec)
  {
    hide After, BySymbol, Claims;
    AfterClaims(BySymbol(rows), free, s, sec);
    BySymbolClaims(rows, s, sec);
  }

  lemma {:induction false} NothingHeldKeepsAll(batch: Batch)
    ensures Kept({}, batch) == batch && HeldBack({}, batch) == []
  {
    if batch != [] {
      NothingHeldKeepsAll(batch[1..]);
    }
  }

  // ---------------------------------------------------------------- the store and the hold theorem

  lemma {:induction false} RowsClaims(rows: Batch, more: Batch, s: Symbol, sec: SecId)
    ensures Claims(BySymbol(AddNew(rows, more)), s, sec) == Claims(After(BySymbol(rows), more), s, sec)
    ensures Claims(BySymbol(AddNew(rows, more)), s, sec) == Claims(BySymbol(rows), s, sec) + BatchClaims(more, s, sec)
  {
    hide After, BySymbol, Claims, AddNew;
    AddNewMembers(rows, more);
    BySymbolClaims(AddNew(rows, more), s, sec);
    BySymbolClaims(rows, s, sec);
    AfterClaims(BySymbol(rows), more, s, sec);
  }

  /** The hold theorem carried to the store: a dispute of the recorded rows after a batch was there before it, or
      rests on more than missing evidence. */
  lemma {:induction false} RowsGainNoInsufficientDispute(l: Ledger, batch: Batch, sec: SecId)
    requires sec in Disputes(BySymbol(RecordedBatch(l, batch).rows))
    ensures sec in Disputes(BySymbol(l.rows))
            || !InsufficientOnly(Disputes(BySymbol(RecordedBatch(l, batch).rows))[sec])
  {
    hide Disputes, InsufficientOnly, After, BySymbol, AddNew, Kept, Held, Claims;
    var free := FreePart(l, batch);
    var kept := Kept(HeldNow(l, batch), free);
    forall s ensures Claims(BySymbol(AddNew(l.rows, kept)), s, sec) == Claims(After(BySymbol(l.rows), kept), s, sec) {
      RowsClaims(l.rows, kept, s, sec);
    }
    SameDispute(BySymbol(AddNew(l.rows, kept)), After(BySymbol(l.rows), kept), sec);
    NoNewInsufficientDispute(BySymbol(l.rows), free, sec);
  }

  // ---------------------------------------------------------------- reruns

  /** Whether sec is held depends only on its claims. */
  lemma {:induction false} SameClaimsSameHold(a: Batch, x: Batch, b: Batch, y: Batch, sec: SecId)
    requires forall s :: Claims(BySymbol(a), s, sec) == Claims(BySymbol(b), s, sec)
    requires forall s :: Claims(BySymbol(a), s, sec) + BatchClaims(x, s, sec) ==
                         Claims(BySymbol(b), s, sec) + BatchClaims(y, s, sec)
    ensures sec in Held(BySymbol(a), x) <==> sec in Held(BySymbol(b), y)
  {
    hide Disputes, InsufficientOnly, After, BySymbol, Claims, BatchClaims;
    forall s ensures Claims(After(BySymbol(a), x), s, sec) == Claims(After(BySymbol(b), y), s, sec) {
      AfterClaims(BySymbol(a), x, s, sec);
      AfterClaims(BySymbol(b), y, s, sec);
    }
    SameDispute(After(BySymbol(a), x), After(BySymbol(b), y), sec);
    SameDispute(BySymbol(a), BySymbol(b), sec);
  }

  lemma {:induction false} FreeMembers(l: Ledger, batch: Batch)
    ensures forall o :: o in FreePart(l, batch) <==> o in batch && (o !in l.holds || o in l.released)
    ensures forall o :: o in SetOf(HoldList(l, batch)) <==> o in FreePart(l, batch) && IsHeld(HeldNow(l, batch), o)
  {
    hide Held, Without, HeldBack;
    WithoutMembers(batch, l.holds - l.released);
    SplitMembers(HeldNow(l, batch), FreePart(l, batch));
  }

  /** After some of its holds, a rerun holds no secId that the first run did not. */
  lemma {:induction false} HoldsOnlyShrink(l: Ledger, batch: Batch, done: set<Observation>)
    requires done <= SetOf(HoldList(l, batch))
    ensures HeldNow(Interrupted(l, done), batch) <= HeldNow(l, batch)
  {
    hide Held, HoldList, FreePart;
    forall sec | sec !in HeldNow(l, batch) ensures sec !in HeldNow(Interrupted(l, done), batch) {
      forall s ensures BatchClaims(FreePart(Interrupted(l, done), batch), s, sec) ==
                       BatchClaims(FreePart(l, batch), s, sec)
      {
        FreeMembers(l, batch);
        FreeMembers(Interrupted(l, done), batch);
      }
      SameClaimsSameHold(l.rows, FreePart(l, batch), l.rows, FreePart(Interrupted(l, done), batch), sec);
    }
  }

  /** Two selections from a batch that agree on what is not recorded yet record the same rows. */
  lemma {:induction false} SameRows(rows: Batch, batch: Batch, h: set<SecId>, p: set<Observation>, k: set<SecId>,
                                    q: set<Observation>)
    requires forall o :: o in batch && o !in rows ==> ((o !in p && !IsHeld(h, o)) <==> (o !in q && !IsHeld(k, o)))
    ensures AddNew(rows, Kept(h, Without(batch, p))) == AddNew(rows, Kept(k, Without(batch, q)))
    decreases |batch|
  {
    if batch != [] {
      var o, rest := batch[0], batch[1..];
      var next := if o in rows || o in p || IsHeld(h, o) then rows else rows + [o];
      SameRows(next, rest, h, p, k, q);
      SelectOne(rows, batch, h, p);
      SelectOne(rows, batch, k, q);
    }
  }

  lemma {:induction false} SelectOne(rows: Batch, batch: Batch, h: set<SecId>, p: set<Observation>)
    requires batch != []
    ensures AddNew(rows, Kept(h, Without(batch, p))) ==
            AddNew(if batch[0] in rows || batch[0] in p || IsHeld(h, batch[0]) then rows else rows + [batch[0]],
                   Kept(h, Without(batch[1..], p)))
  {
    var o, rest := batch[0], Without(batch[1..], p);
    assert Without(batch, p) == (if o in p then [] else [o]) + rest;
    if o in p {
      assert [] + rest == rest;
    } else {
      assert ([o] + rest)[1..] == rest;
      var kept := Kept(h, rest);
      assert Kept(h, [o] + rest) == (if IsHeld(h, o) then [] else [o]) + kept;
      assert [] + kept == kept && ([o] + kept)[1..] == kept && ([o] + kept)[0] == o;
    }
  }

  /** What an interrupted run leaves to be decided again: not yet held for good, and not settled by being recorded. */
  predicate LeftOver(l: Ledger, done: set<Observation>, o: Observation) {
    (o !in done || o in l.released) && (o !in l.rows || (o !in done && o !in l.holds))
  }

  /** Everything a rerun decides again of the secIds first held is held again. */
  ghost predicate RestStaysHeld(l: Ledger, batch: Batch, done: set<Observation>) {
    forall o :: o in FreePart(l, batch) && LeftOver(l, done, o) && IsHeld(HeldNow(l, batch), o)
                ==> IsHeld(HeldNow(Interrupted(l, done), batch), o)
  }

  /** A run that ended between two of its holds, or between its holds and its rows, and is then run again, ends as if it
      had not been interrupted exactly when what remains of the held secIds is still held without the holds already
      committed. */
  lemma {:induction false} InterruptedRunIsCompleted(l: Ledger, batch: Batch, done: set<Observation>)
    requires done <= SetOf(HoldList(l, batch))
    ensures RecordedBatch(Interrupted(l, done), batch) == RecordedBatch(l, batch) <==> RestStaysHeld(l, batch, done)
  {
    hide Held, HoldList, FreePart, AddNew, Kept;
    HoldsOnlyShrink(l, batch, done);
    if RestStaysHeld(l, batch, done) {
      RestHeldCompletes(l, batch, done);
    } else {
      CompletedRestIsHeld(l, batch, done);
    }
  }

  lemma {:induction false} RestHeldCompletes(l: Ledger, batch: Batch, done: set<Observation>)
    requires done <= SetOf(HoldList(l, batch)) && RestStaysHeld(l, batch, done)
    requires HeldNow(Interrupted(l, done), batch) <= HeldNow(l, batch)
    ensures RecordedBatch(Interrupted(l, done), batch) == RecordedBatch(l, batch)
  {
    hide Held, HoldList, AddNew, Kept, Without, HeldNow;
    var mid := Interrupted(l, done);
    FreeMembers(l, batch);
    FreeMembers(mid, batch);
    SameRows(l.rows, batch, HeldNow(mid, batch), mid.holds - mid.released, HeldNow(l, batch), l.holds - l.released);
    assert l.holds + done + SetOf(HoldList(mid, batch)) == l.holds + SetOf(HoldList(l, batch));
  }

  lemma {:induction false} CompletedRestIsHeld(l: Ledger, batch: Batch, done: set<Observation>)
    requires done <= SetOf(HoldList(l, batch)) && !RestStaysHeld(l, batch, done)
    ensures RecordedBatch(Interrupted(l, done), batch) != RecordedBatch(l, batch)
  {
    hide Held, HoldList, AddNew, Kept, FreePart, HeldNow;
    var mid := Interrupted(l, done);
    var o :| o in FreePart(l, batch) && LeftOver(l, done, o) && IsHeld(HeldNow(l, batch), o)
             && !IsHeld(HeldNow(mid, batch), o);
    FreeMembers(l, batch);
    FreeMembers(mid, batch);
    SplitMembers(HeldNow(l, batch), FreePart(l, batch));
    SplitMembers(HeldNow(mid, batch), FreePart(mid, batch));
    AddNewMembers(l.rows, Kept(HeldNow(l, batch), FreePart(l, batch)));
    AddNewMembers(l.rows, Kept(HeldNow(mid, batch), FreePart(mid, batch)));
    assert o in RecordedBatch(mid, batch).rows;
  }

  /** The batch's observations whose hold the owner released. */
  function ReleasedPart(l: Ledger, batch: Batch): Batch {
    Without(batch, SetOf(batch) - l.released)
  }

  /** The released and unrecorded observations of the secIds that are held would be held by themselves too. */
  ghost predicate ReleasedStayHeld(l: Ledger, batch: Batch) {
    forall o :: o in batch && o in l.released && o !in l.rows && IsHeld(HeldNow(l, batch), o)
                ==> IsHeld(Held(BySymbol(l.rows), ReleasedPart(l, batch)).Keys, o)
  }

  /** Once every hold is committed, what is left of a held secId is its released part; and recording the rest of the
      batch changes nothing about it. */
  lemma {:induction false} AfterAllHolds(l: Ledger, batch: Batch, sec: SecId)
    requires sec in HeldNow(l, batch)
    ensures var mid, once := Interrupted(l, SetOf(HoldList(l, batch))), RecordedBatch(l, batch);
            && (sec in HeldNow(mid, batch) <==> sec in Held(BySymbol(l.rows), ReleasedPart(l, batch)))
            && (sec in HeldNow(once, batch) <==> sec in HeldNow(mid, batch))
  {
    hide Held, HoldList, FreePart, AddNew, Kept, Without;
    var mid, once := Interrupted(l, SetOf(HoldList(l, batch))), RecordedBatch(l, batch);
    var kept := Kept(HeldNow(l, batch), FreePart(l, batch));
    FreeMembers(l, batch);
    FreeMembers(mid, batch);
    FreeMembers(once, batch);
    WithoutMembers(batch, SetOf(batch) - l.released);
    SplitMembers(HeldNow(l, batch), FreePart(l, batch));
    forall s ensures BatchClaims(FreePart(mid, batch), s, sec) == BatchClaims(ReleasedPart(l, batch), s, sec)
                     && BatchClaims(FreePart(once, batch), s, sec) == BatchClaims(FreePart(mid, batch), s, sec)
                     && Claims(BySymbol(once.rows), s, sec) == Claims(BySymbol(l.rows), s, sec)
    {
      RowsClaims(l.rows, kept, s, sec);
      assert BatchClaims(kept, s, sec) == {};
    }
    SameClaimsSameHold(l.rows, FreePart(mid, batch), l.rows, ReleasedPart(l, batch), sec);
    SameClaimsSameHold(once.rows, FreePart(once, batch), l.rows, FreePart(mid, batch), sec);
  }

  /** Running the same batch again adds nothing exactly when the released and unrecorded observations of the secIds it
      holds would be held by themselves too. */
  lemma {:induction false} RerunAddsNothing(l: Ledger, batch: Batch)
    ensures RecordedBatch(RecordedBatch(l, batch), batch) == RecordedBatch(l, batch) <==> ReleasedStayHeld(l, batch)
  {
    hide Held, HoldList, AddNew, Kept, ReleasedPart;
    var once := RecordedBatch(l, batch);
    RerunHoldsWithin(l, batch);
    RerunDecides(l, batch);
    forall o | IsHeld(HeldNow(l, batch), o)
      ensures IsHeld(HeldNow(once, batch), o) <==> IsHeld(Held(BySymbol(l.rows), ReleasedPart(l, batch)).Keys, o)
    {
      AfterAllHolds(l, batch, o.sec.value);
    }
  }

  /** The rerun holds no secId that the first run did not. */
  lemma {:induction false} RerunHoldsWithin(l: Ledger, batch: Batch)
    ensures HeldNow(RecordedBatch(l, batch), batch) <= HeldNow(l, batch)
  {
    hide Held, HoldList, FreePart, AddNew, Kept;
    var once := RecordedBatch(l, batch);
    forall sec | sec !in HeldNow(l, batch) ensures sec !in HeldNow(once, batch) {
      RerunHoldsNoOther(l, batch, sec);
    }
  }

  lemma {:induction false} RerunHoldsNoOther(l: Ledger, batch: Batch, sec: SecId)
    requires sec !in HeldNow(l, batch)
    ensures sec !in HeldNow(RecordedBatch(l, batch), batch)
  {
    hide Held, HoldList, FreePart, AddNew, Kept;
    var once := RecordedBatch(l, batch);
    var kept := Kept(HeldNow(l, batch), FreePart(l, batch));
    FreeMembers(l, batch);
    FreeMembers(once, batch);
    SplitMembers(HeldNow(l, batch), FreePart(l, batch));
    forall s ensures Claims(BySymbol(once.rows), s, sec) + BatchClaims(FreePart(once, batch), s, sec) ==
                     Claims(BySymbol(once.rows), s, sec) + BatchClaims([], s, sec)
    {
      RowsClaims(l.rows, kept, s, sec);
      assert BatchClaims(FreePart(once, batch), s, sec) <= BatchClaims(kept, s, sec);
    }
    SameClaimsSameHold(once.rows, FreePart(once, batch), once.rows, [], sec);
    NothingNewToHoldFor(once.rows, [], sec);
  }

  /** Of what the rerun decides again, only a released and unrecorded observation of a held secId is not settled. */
  lemma {:induction false} RerunDecides(l: Ledger, batch: Batch)
    requires HeldNow(RecordedBatch(l, batch), batch) <= HeldNow(l, batch)
    ensures var once := RecordedBatch(l, batch);
            RecordedBatch(once, batch) == once <==>
            (forall o :: o in batch && o in l.released && o !in l.rows && IsHeld(HeldNow(l, batch), o)
                         ==> IsHeld(HeldNow(once, batch), o))
  {
    hide Held, HoldList, AddNew, Kept, FreePart, HeldNow;
    var once := RecordedBatch(l, batch);
    var more := Kept(HeldNow(once, batch), FreePart(once, batch));
    FreeMembers(l, batch);
    FreeMembers(once, batch);
    SplitMembers(HeldNow(l, batch), FreePart(l, batch));
    SplitMembers(HeldNow(once, batch), FreePart(once, batch));
    AddNewMembers(l.rows, Kept(HeldNow(l, batch), FreePart(l, batch)));
    AddNewMembers(once.rows, more);
    assert once.holds + SetOf(HoldList(once, batch)) == once.holds;
    if forall o :: o in more ==> o in once.rows {
      AddNothingNew(once.rows, more);
    }
  }

  /** ... and so does a run that ended after its last hold: completing it has the same condition. */
  lemma {:induction false} RunAfterAllHoldsIsCompleted(l: Ledger, batch: Batch)
    ensures RecordedBatch(Interrupted(l, SetOf(HoldList(l, batch))), batch) == RecordedBatch(l, batch)
            <==> ReleasedStayHeld(l, batch)
  {
    hide Held, HoldList, AddNew, Kept, ReleasedPart, RecordedBatch, FreePart;
    var done := SetOf(HoldList(l, batch));
    InterruptedRunIsCompleted(l, batch, done);
    FreeMembers(l, batch);
    forall o | IsHeld(HeldNow(l, batch), o)
      ensures IsHeld(HeldNow(Interrupted(l, done), batch), o)
              <==> IsHeld(Held(BySymbol(l.rows), ReleasedPart(l, batch)).Keys, o)
    {
      AfterAllHolds(l, batch, o.sec.value);
    }
  }

  // ---------------------------------------------------------------- where reruns differ

  const NOTHING_RECORDED := Ledger([], {}, {})

  /** An observation of security s on secId 7 that offers nothing to compare. */
  predicate Bare(o: Observation, s: Symbol) {
    o == Observation(o.key, Some(s), Some(SecId(7)), None, None)
  }

  /** A rerun can record something: a and c are held together, the owner releases a, and b arrives. The batch of a and b
      is held; run again, only a is left to decide, and alone it is recorded. */
  lemma {:induction false} RerunCanRecordAReleasedHold(a: Observation, b: Observation, c: Observation)
    requires Bare(a, "A") && Bare(b, "B") && Bare(c, "C")
    ensures var before := RecordedBatch(NOTHING_RECORDED, [a, c]);
            var l := before.(released := {a});
            var once := RecordedBatch(l, [a, b]);
            && before == Ledger([], {a, c}, {})
            && once == Ledger([], {a, b, c}, {a})
            && RecordedBatch(once, [a, b]) == Ledger([a], {a, b, c}, {a})
  {
    hide RecordedBatch;
    PairIsHeldBack(NOTHING_RECORDED, a, "A", c, "C");
    PairIsHeldBack(Ledger([], {a, c}, {a}), a, "A", b, "B");
    LoneIsRecorded(Ledger([], {a, b, c}, {a}), a, "A", b, [a, b]);
  }

  /** A run that ends between its holds of a and b is not completed by a rerun: with a already held, b is alone on its
      secId, and is recorded. */
  lemma {:induction false} InterruptedRunCanRecordAHeldBack(a: Observation, b: Observation)
    requires Bare(a, "A") && Bare(b, "B")
    ensures RecordedBatch(NOTHING_RECORDED, [a, b]) == Ledger([], {a, b}, {})
    ensures RecordedBatch(Interrupted(NOTHING_RECORDED, {a}), [a, b]) == Ledger([b], {a}, {})
  {
    hide RecordedBatch;
    PairIsHeldBack(NOTHING_RECORDED, a, "A", b, "B");
    LoneIsRecorded(Ledger([], {a}, {}), b, "B", a, [a, b]);
    assert {} + {a} == {a};
  }

  lemma {:induction false} PairIsHeldBack(l: Ledger, a: Observation, s: Symbol, b: Observation, t: Symbol)
    requires Bare(a, s) && Bare(b, t) && s != t && l.rows == [] && a !in l.holds - l.released
             && b !in l.holds - l.released
    ensures RecordedBatch(l, [a, b]) == l.(holds := l.holds + {a, b})
  {
    hide Held, Without, HeldBack, AddNew, BySymbol;
    HeldPair(a, s, b, t);
    SpelledOut(a, b, l.holds - l.released);
    assert FreePart(l, [a, b]) == [a, b] && HeldNow(l, [a, b]) == {SecId(7)};
    assert HoldList(l, [a, b]) == [a, b] && Kept({SecId(7)}, [a, b]) == [];
    assert SetOf([a, b]) == {a, b};
    NothingToAdd(l.rows);
  }

  lemma {:induction false} NothingToAdd(rows: Batch)
    ensures AddNew(rows, []) == rows
  {
  }

  /** With its companion held for good, one of the two is recorded. */
  lemma {:induction false} LoneIsRecorded(l: Ledger, o: Observation, s: Symbol, companion: Observation, batch: Batch)
    requires Bare(o, s) && companion != o && (batch == [o, companion] || batch == [companion, o]) && l.rows == []
    requires o !in l.holds - l.released && companion in l.holds - l.released
    ensures RecordedBatch(l, batch) == l.(rows := [o])
  {
    hide Held, Kept, HeldBack, BySymbol;
    HeldAlone(o, s);
    NothingHeldKeepsAll([o]);
    LoneIsFree(l, o, companion, batch);
    assert HeldNow(l, batch) == {};
    assert HoldList(l, batch) == [] && SetOf([]) == {};
    AddOne(o);
  }

  lemma {:induction false} AddOne(o: Observation)
    ensures AddNew([], [o]) == [o]
  {
    assert [o][1..] == [] && [] + [o] == [o];
    NothingToAdd([o]);
  }

  lemma {:induction false} LoneIsFree(l: Ledger, o: Observation, companion: Observation, batch: Batch)
    requires batch == [o, companion] || batch == [companion, o]
    requires o !in l.holds - l.released && companion in l.holds - l.released
    ensures FreePart(l, batch) == [o]
  {
    var pinned := l.holds - l.released;
    assert [o, companion][1..] == [companion] && [companion, o][1..] == [o] && [o][1..] == [] && [companion][1..] == [];
    assert Without([companion], pinned) == [] + Without([companion][1..], pinned);
    assert Without([o], pinned) == [o] + Without([o][1..], pinned);
  }

  /** The list operations of the examples, evaluated. */
  lemma {:induction false} SpelledOut(a: Observation, b: Observation, pinned: set<Observation>)
    requires a.symbol.Some? && b.symbol.Some? && a.sec == Some(SecId(7)) && b.sec == Some(SecId(7))
    requires a !in pinned && b !in pinned
    ensures Without([a, b], pinned) == [a, b]
    ensures Kept({SecId(7)}, [a, b]) == [] && HeldBack({SecId(7)}, [a, b]) == [a, b]
  {
    assert [a, b][1..] == [b] && [b][1..] == [];
    assert Without([b], pinned) == [b] + Without([b][1..], pinned);
    assert Kept({SecId(7)}, [b]) == [] + Kept({SecId(7)}, [b][1..]);
    assert HeldBack({SecId(7)}, [b]) == [b] + HeldBack({SecId(7)}, [b][1..]);
  }

  lemma {:induction false} HeldPair(a: Observation, s: Symbol, b: Observation, t: Symbol)
    requires Bare(a, s) && Bare(b, t) && s != t
    ensures Held(BySymbol([]), [a, b]).Keys == {SecId(7)}
  {
    var h := After(BySymbol([]), [a, b]);
    forall x, sec ensures Claims(h, x, sec) == OfPair(a, s, b, t, x, sec) {
      AfterClaims(BySymbol([]), [a, b], x, sec);
    }
    PairIsInsufficient(h, a, s, b, t);
    NothingDisputedYet();
  }

  function OfPair(a: Observation, s: Symbol, b: Observation, t: Symbol, x: Symbol, sec: SecId): set<Observation> {
    if sec != SecId(7) then {} else if x == s then {a} else if x == t then {b} else {}
  }

  lemma {:induction false} NothingDisputedYet()
    ensures Disputes(BySymbol([])) == map[]
  {
    forall sec ensures sec !in Disputes(BySymbol([])) {
    }
  }

  /** Two claimants of one secId with nothing to compare: the only dispute, for missing evidence alone. */
  lemma {:induction false} PairIsInsufficient(h: History, a: Observation, s: Symbol, b: Observation, t: Symbol)
    requires Bare(a, s) && Bare(b, t) && s != t
    requires forall x, sec :: Claims(h, x, sec) == OfPair(a, s, b, t, x, sec)
    ensures Disputes(h).Keys == {SecId(7)} && InsufficientOnly(Disputes(h)[SecId(7)])
  {
    hide PairFailure, Claims, Codes, Names, Claimants, OfPair, SecIds;
    var sec := SecId(7);
    PairFails(h, a, s, b, t);
    assert s in Claimants(h, sec) && t in Claimants(h, sec) && PairFailure(h, sec, s, t).Some?;
    assert Disputed(h, sec);
    DisputedHasClaimants(h, sec);
    assert Failure(EvidenceInsufficient, t) in DisputeOf(h, sec)[s];
    forall other | other in Disputes(h) ensures other == sec {
      OnlyClaimedSecId(h, other);
    }
  }

  lemma {:induction false} PairFails(h: History, a: Observation, s: Symbol, b: Observation, t: Symbol)
    requires Bare(a, s) && Bare(b, t) && s != t
    requires forall x, sec :: Claims(h, x, sec) == OfPair(a, s, b, t, x, sec)
    ensures Claimants(h, SecId(7)) == {s, t}
    ensures forall x, y :: x in {s, t} && y in {s, t} ==>
              PairFailure(h, SecId(7), x, y) == if x == y then None else Some(EvidenceInsufficient)
    ensures forall x, other :: other != SecId(7) ==> Claims(h, x, other) == {}
  {
    NoIsinNoCode();
    NoNameNoName();
    assert Claims(h, s, SecId(7)) == {a} && Claims(h, t, SecId(7)) == {b};
    assert Codes({a}) == {} && Codes({b}) == {} && Names({a}) == {} && Names({b}) == {};
    forall x ensures x in Claimants(h, SecId(7)) <==> x == s || x == t {
      assert Claims(h, x, SecId(7)) == OfPair(a, s, b, t, x, SecId(7));
    }
  }

  lemma {:induction false} OnlyClaimedSecId(h: History, sec: SecId)
    requires forall s, other :: other != SecId(7) ==> Claims(h, s, other) == {}
    requires Disputed(h, sec)
    ensures sec == SecId(7)
  {
    var s :| s in Claimants(h, sec);
  }

  lemma {:induction false} HeldAlone(o: Observation, t: Symbol)
    requires Bare(o, t)
    ensures Held(BySymbol([]), [o]).Keys == {}
  {
    var h := After(BySymbol([]), [o]);
    forall s, sec ensures Claims(h, s, sec) == if sec == SecId(7) && s == t then {o} else {} {
      AfterClaims(BySymbol([]), [o], s, sec);
    }
    NoIsinNoCode();
    NoNameNoName();
    assert Codes({o}) == {} && Names({o}) == {};
    forall sec ensures sec !in Disputes(h) {
      forall x, y | x in Claimants(h, sec) && y in Claimants(h, sec) ensures PairFailure(h, sec, x, y) == None {
        assert x == t && y == t && sec == SecId(7);
      }
    }
  }
}
