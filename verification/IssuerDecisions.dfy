// The decisions taken from the reuse guard (worker/issuer_identity.py): which issuer a security and a
// filing belong to.
module IssuerDecisions {
  import opened Prelude
  import opened IssuerIdentity

  datatype SecurityDecision = SecurityDecision(evidenced: bool, sec: Option<SecId>, observed: set<SecId>,
                                               disputed: set<SecId>)

  // ---------------------------------------------------------------- securities

  ghost function Observed(h: History, s: Symbol): set<SecId> {
    if s in h then set o | o in h[s] && o.sec.Some? :: o.sec.value else {}
  }

  ghost function DisputedOf(h: History, s: Symbol): set<SecId> {
    set sec | sec in Observed(h, s) && Disputed(h, sec)
  }

  /** The decision for one security, as a property of the history: evidenced on the one secId ever observed
      for it, provided that secId is undisputed; otherwise a conflict. */
  ghost predicate DecidedAs(h: History, s: Symbol, d: SecurityDecision) {
    && d.observed == Observed(h, s) != {}
    && d.disputed == DisputedOf(h, s)
    && (d.evidenced <==> |d.observed| == 1 && d.disputed == {})
    && (d.evidenced ==> d.sec.Some? && d.observed == {d.sec.value})
    && (!d.evidenced ==> d.sec == None)
  }

  lemma {:induction false} ObservedByClaims(h: History, s: Symbol, sec: SecId)
    ensures sec in Observed(h, s) <==> s in Claimants(h, sec)
  {
    if sec in Observed(h, s) {
      var o :| o in h[s] && o.sec.Some? && o.sec.value == sec;
      assert o in Claims(h, s, sec);
    }
    if s in Claimants(h, sec) {
      var o :| o in Claims(h, s, sec);
    }
  }

  /** decide_security: the per-security step, before the guard. */
  method DecideSecurity(obs: seq<Observation>) returns (d: Option<SecurityDecision>)
    ensures var secs := set o | o in obs && o.sec.Some? :: o.sec.value;
            && (d.None? <==> secs == {})
            && (d.Some? ==> d.value.observed == secs && d.value.disputed == {} && (d.value.evidenced <==> |secs| == 1)
                            && (d.value.evidenced ==> d.value.sec.Some? && secs == {d.value.sec.value})
                            && (!d.value.evidenced ==> d.value.sec == None))
  {
    var secs := set o | o in obs && o.sec.Some? :: o.sec.value;
    if secs == {} {
      d := None;
    } else if |secs| == 1 {
      var sec :| sec in secs;
      SubsetOfSingleton({sec}, secs);
      d := Some(SecurityDecision(true, Some(sec), secs, {}));
    } else {
      d := Some(SecurityDecision(false, None, secs, {}));
    }
  }

  /** decide_securities: one decision per security with a secId, the guard applied. The result is determined by
      the history's contents: it does not depend on the order of securities or observations. */
  method DecideSecurities(h: History) returns (out: map<Symbol, SecurityDecision>)
    ensures forall s :: s in out <==> Observed(h, s) != {}
    ensures forall s :: s in out ==> DecidedAs(h, s, out[s])
  {
    hide Disputed, Claims, DisputedBy, Disputes, Claimants, DisputedOf;
    var symbols := Listed(h.Keys);
    var disputes := DisputedSecIds(h);
    out := map[];
    for i := 0 to |symbols|
      invariant forall s :: s in out <==> s in symbols[..i] && Observed(h, s) != {}
      invariant forall s :: s in out ==> DecidedAs(h, s, out[s])
    {
      var s := symbols[i];
      var d := DecideSecurity(h[s]);
      assert Observed(h, s) == set o | o in h[s] && o.sec.Some? :: o.sec.value;
      if d.Some? {
        var secs := set sec | sec in d.value.observed && sec in disputes && s in disputes[sec];
        GuardedSecIds(h, s, d.value.observed, disputes);
        var guarded := if secs == {} then d.value else SecurityDecision(false, None, d.value.observed, secs);
        assert DecidedAs(h, s, guarded);
        out := out[s := guarded];
      }
      assert symbols[..i + 1] == symbols[..i] + [s];
    }
    assert symbols[..|symbols|] == symbols;
  }

  lemma {:induction false} GuardedSecIds(h: History, s: Symbol, observed: set<SecId>, disputes: map<SecId, Dispute>)
    requires observed == Observed(h, s) && disputes == Disputes(h)
    ensures (set sec | sec in observed && sec in disputes && s in disputes[sec]) == DisputedOf(h, s)
  {
    forall sec | sec in observed ensures sec in disputes && s in disputes[sec] <==> Disputed(h, sec) {
      ObservedByClaims(h, s, sec);
      ClaimantsHaveSecId(h, sec);
    }
  }

  /** The same securities with the same observations, in any order. */
  ghost predicate Reordered(h1: History, h2: History) {
    h1.Keys == h2.Keys && forall s :: s in h1 ==> multiset(h1[s]) == multiset(h2[s])
  }

  /** The history's contents determine each decision: however the observations are ordered, it is the same one. */
  lemma {:induction false} DecisionIsUnique(h1: History, h2: History, s: Symbol, d: SecurityDecision,
                                            e: SecurityDecision)
    requires Reordered(h1, h2) && DecidedAs(h1, s, d)
    ensures DecidedAs(h2, s, e) <==> d == e
  {
    SameObserved(h1, h2, s);
    SameDisputedOf(h1, h2, s);
    if DecidedAs(h2, s, e) && d.evidenced {
      assert d.sec.value in {e.sec.value};
    }
  }

  lemma {:induction false} SameObserved(h1: History, h2: History, s: Symbol)
    requires Reordered(h1, h2)
    ensures Observed(h1, s) == Observed(h2, s)
  {
    if s in h1 {
      forall o ensures o in h1[s] <==> o in h2[s] {
        assert o in multiset(h1[s]) <==> o in multiset(h2[s]);
      }
    }
  }

  lemma {:induction false} SameDisputedOf(h1: History, h2: History, s: Symbol)
    requires Reordered(h1, h2)
    ensures DisputedOf(h1, s) == DisputedOf(h2, s)
  {
    hide Observed, Disputed, DisputeOf;
    SameObserved(h1, h2, s);
    ObservationOrderIsIrrelevant(h1, h2);
    forall sec | sec in Observed(h1, s) ensures Disputed(h1, sec) <==> Disputed(h2, sec) {
      DisputedHasClaimants(h1, sec);
      DisputedHasClaimants(h2, sec);
      assert sec in Disputes(h1) <==> sec in Disputes(h2);
    }
  }

  /** Two evidenced securities that share a secId pass the identity comparison. */
  lemma {:induction false} EvidencedSecuritiesAreOneIssuer(h: History, a: Symbol, b: Symbol, da: SecurityDecision,
                                                           db: SecurityDecision)
    requires DecidedAs(h, a, da) && DecidedAs(h, b, db) && da.evidenced && db.evidenced && da.sec == db.sec
    ensures PairFailure(h, da.sec.value, a, b) == None
  {
    var sec := da.sec.value;
    ObservedByClaims(h, a, sec);
    ObservedByClaims(h, b, sec);
    assert sec in da.observed && sec in db.observed && sec !in da.disputed;
  }

  /** Every claimant of a disputed secId is in conflict, whichever was observed first. */
  lemma {:induction false} ClaimantsOfDisputeConflict(h: History, sec: SecId, s: Symbol, d: SecurityDecision)
    requires Disputed(h, sec) && s in Claimants(h, sec) && DecidedAs(h, s, d)
    ensures !d.evidenced && d.sec == None && sec in d.disputed
  {
    ObservedByClaims(h, s, sec);
  }

  /** A security is evidenced exactly when every secId ever observed for it is one value and no claimant of that
      value fails against another. */
  lemma {:induction false} EvidencedExactly(h: History, s: Symbol, d: SecurityDecision, sec: SecId)
    requires DecidedAs(h, s, d)
    ensures d.evidenced && d.sec == Some(sec) <==>
            Observed(h, s) == {sec} &&
            forall a, b :: a in Claimants(h, sec) && b in Claimants(h, sec) ==> PairFailure(h, sec, a, b) == None
  {
    if d.evidenced && d.sec == Some(sec) {
      assert sec in d.observed && sec !in d.disputed;
    }
    if Observed(h, s) == {sec} && !Disputed(h, sec) {
      assert d.disputed == {};
      assert sec in d.observed;
      if d.evidenced { assert d.sec.value in {sec}; }
    }
  }

  // ---------------------------------------------------------------- filings

  datatype FilingStatus = FilingEvidenced | FilingConflict | FilingUnresolved
  datatype Basis = Both | DocumentPathPrefix | ListingSymbolSecId | NoBasis
  datatype FilingReason = ListingSymbolWithoutEvidence(s: Symbol) | NoDocumentPathPrefix | ListingSecurityInConflict
                        | SecIdsDisagree | SecIdIdentityDisputed | NoIssuerForSecId
  datatype FilingDecision = FilingDecision(status: FilingStatus, basis: Basis, sec: Option<SecId>, issuer: Option<nat>,
                                           listing: set<SecId>, conflicts: set<Symbol>, reasons: seq<FilingReason>)

  /** The secIds the listing symbols' evidenced decisions name. */
  ghost function ListingSecIds(symbols: set<Symbol>, links: map<Symbol, SecurityDecision>): set<SecId> {
    set s | s in symbols && s in links && links[s].evidenced && links[s].sec.Some? :: links[s].sec.value
  }

  ghost function ConflictingSymbols(symbols: set<Symbol>, links: map<Symbol, SecurityDecision>): set<Symbol> {
    set s | s in symbols && s in links && !links[s].evidenced
  }

  ghost function AllSecIds(path: Option<SecId>, listing: set<SecId>): set<SecId> {
    listing + if path.Some? then {path.value} else {}
  }

  ghost predicate LinksComplete(links: map<Symbol, SecurityDecision>) {
    forall s :: s in links ==> (links[s].evidenced <==> links[s].sec.Some?)
  }

  /** What a filing's decision means: evidenced exactly on one undisputed secId with an issuer and no conflicting
      listing symbol, in conflict exactly on disagreement or dispute. */
  ghost predicate FilingDecidedAs(path: Option<SecId>, listing: set<SecId>, conflicts: set<Symbol>,
                                  issuers: map<SecId, nat>, disputed: set<SecId>, d: FilingDecision)
  {
    var all := AllSecIds(path, listing);
    && d.listing == listing && d.conflicts == conflicts
    && (d.status == FilingEvidenced <==>
          conflicts == {} && exists sec :: all == {sec} && sec !in disputed && sec in issuers)
    && (d.status == FilingEvidenced ==>
          d.sec.Some? && all == {d.sec.value} && d.sec.value in issuers && d.issuer == Some(issuers[d.sec.value]))
    && (d.status != FilingEvidenced ==> d.issuer == None)
    && (d.status == FilingConflict <==>
          conflicts != {} || |all| > 1 || exists sec :: all == {sec} && sec in disputed)
    && d.basis == (if path.Some? && listing != {} then Both else if path.Some? then DocumentPathPrefix
                   else if listing != {} then ListingSymbolSecId else NoBasis)
    && (d.sec.Some? <==> conflicts == {} && |all| == 1) && (d.sec.Some? ==> all == {d.sec.value})
    && ReasonsAre(path, conflicts, all, issuers, disputed, d.reasons)
  }

  /** Each reason is given exactly when it holds; the first that decides the status keeps the later ones out. */
  ghost predicate ReasonsAre(path: Option<SecId>, conflicts: set<Symbol>, all: set<SecId>, issuers: map<SecId, nat>,
                             disputed: set<SecId>, reasons: seq<FilingReason>)
  {
    && (NoDocumentPathPrefix in reasons <==> path.None?)
    && (ListingSecurityInConflict in reasons <==> conflicts != {})
    && (SecIdsDisagree in reasons <==> conflicts == {} && |all| > 1)
    && (SecIdIdentityDisputed in reasons <==> conflicts == {} && exists sec :: all == {sec} && sec in disputed)
    && (NoIssuerForSecId in reasons <==>
          conflicts == {} && exists sec :: all == {sec} && sec !in disputed && sec !in issuers)
  }

  /** decide_filing. path is the secId of the document path's prefix, if it has one. */
  method DecideFiling(path: Option<SecId>, symbols: set<Symbol>, links: map<Symbol, SecurityDecision>,
                      issuers: map<SecId, nat>, disputed: set<SecId>) returns (d: FilingDecision)
    requires LinksComplete(links)
    ensures FilingDecidedAs(path, ListingSecIds(symbols, links), ConflictingSymbols(symbols, links), issuers,
            disputed, d)
    ensures forall s :: ListingSymbolWithoutEvidence(s) in d.reasons <==> s in symbols && s !in links
  {
    hide FilingDecidedAs;
    var listed := Listed(symbols);
    var listing: set<SecId>, conflicts: set<Symbol>, reasons: seq<FilingReason> := {}, {}, [];
    for i := 0 to |listed|
      invariant listing == set s | s in listed[..i] && s in links && links[s].evidenced
                && links[s].sec.Some? :: links[s].sec.value
      invariant OnlyMissing(reasons)
      invariant forall s :: ListingSymbolWithoutEvidence(s) in reasons <==> s in listed[..i] && s !in links
      invariant conflicts == set s | s in listed[..i] && s in links && !links[s].evidenced
    {
      var s := listed[i];
      assert listed[..i + 1] == listed[..i] + [s];
      if s !in links {
        reasons := reasons + [ListingSymbolWithoutEvidence(s)];
      } else if !links[s].evidenced {
        conflicts := conflicts + {s};
      } else {
        listing := listing + {links[s].sec.value};
      }
    }
    assert listed[..|listed|] == listed;
    assert listing == ListingSecIds(symbols, links);
    assert conflicts == ConflictingSymbols(symbols, links);
    d := FinishFiling(path, listing, conflicts, reasons, issuers, disputed);
  }

  predicate OnlyMissing(reasons: seq<FilingReason>) {
    forall r :: r in reasons ==> r.ListingSymbolWithoutEvidence?
  }

  /** The filing's decision once its listing evidence is collected. */
  method FinishFiling(path: Option<SecId>, listing: set<SecId>, conflicts: set<Symbol>, collected: seq<FilingReason>,
                      issuers: map<SecId, nat>, disputed: set<SecId>) returns (d: FilingDecision)
    requires OnlyMissing(collected)
    ensures FilingDecidedAs(path, listing, conflicts, issuers, disputed, d)
    ensures forall s :: ListingSymbolWithoutEvidence(s) in d.reasons <==> ListingSymbolWithoutEvidence(s) in collected
  {
    var reasons := collected;
    var secs := listing + if path.Some? then {path.value} else {};
    assert secs == AllSecIds(path, listing);
    if path.None? {
      reasons := reasons + [NoDocumentPathPrefix];
    }
    var basis := if path.Some? && listing != {} then Both else if path.Some? then DocumentPathPrefix
                 else if listing != {} then ListingSymbolSecId else NoBasis;
    d := FilingDecision(FilingUnresolved, basis, None, None, listing, conflicts, reasons);
    forall x | secs == {x} ensures |secs| == 1 {
    }
    if conflicts != {} {
      d := d.(status := FilingConflict, reasons := reasons + [ListingSecurityInConflict]);
    } else if |secs| > 1 {
      d := d.(status := FilingConflict, reasons := reasons + [SecIdsDisagree]);
    } else if |secs| == 1 {
      var sec :| sec in secs;
      SubsetOfSingleton({sec}, secs);
      d := d.(sec := Some(sec));
      if sec in disputed {
        d := d.(status := FilingConflict, reasons := reasons + [SecIdIdentityDisputed]);
      } else if sec in issuers {
        d := d.(status := FilingEvidenced, issuer := Some(issuers[sec]));
      } else {
        d := d.(reasons := reasons + [NoIssuerForSecId]);
      }
      assert forall x :: secs == {x} ==> x == sec by {
        forall x | secs == {x} ensures x == sec {
          assert x in secs && sec in {x};
        }
      }
    }
  }

  /** Identity soundness over the whole pipeline: when the links are the history's own decisions and `disputed` its
      disputes, a filing that is decided evidenced rests on one undisputed secId with an issuer, every listing symbol
      with evidence is evidenced on that secId, and any two of them pass the identity comparison. */
  lemma {:induction false} EvidencedFilingIsSound(h: History, path: Option<SecId>, symbols: set<Symbol>,
                                                  links: map<Symbol, SecurityDecision>, issuers: map<SecId, nat>,
                                                  d: FilingDecision)
    requires forall s :: s in links ==> DecidedAs(h, s, links[s])
    requires FilingDecidedAs(path, ListingSecIds(symbols, links), ConflictingSymbols(symbols, links), issuers,
                             Disputes(h).Keys, d)
    requires d.status == FilingEvidenced
    ensures d.sec.Some? && !Disputed(h, d.sec.value)
    ensures d.sec.value in issuers && d.issuer == Some(issuers[d.sec.value])
    ensures path.Some? ==> path == d.sec
    ensures forall s :: s in symbols && s in links ==> links[s].evidenced && links[s].sec == d.sec
    ensures forall a, b :: a in symbols && b in symbols && a in links && b in links ==>
              PairFailure(h, d.sec.value, a, b) == None
  {
    hide DecidedAs, PairFailure;
    var listing := ListingSecIds(symbols, links);
    EvidencedOnOne(path, listing, ConflictingSymbols(symbols, links), issuers, Disputes(h).Keys, d);
    var sec := d.sec.value;
    DisputedHasClaimants(h, sec);
    assert path.Some? ==> path.value in {sec};
    forall s | s in symbols && s in links ensures links[s].evidenced && links[s].sec == Some(sec) {
      assert s !in ConflictingSymbols(symbols, links);
      EvidencedHasSecId(h, s, links[s]);
      assert links[s].sec.value in listing;
      assert links[s].sec.value in {sec};
    }
    forall a, b | a in symbols && b in symbols && a in links && b in links ensures PairFailure(h, sec, a, b) == None {
      EvidencedSecuritiesAreOneIssuer(h, a, b, links[a], links[b]);
    }
  }

  lemma {:induction false} EvidencedHasSecId(h: History, s: Symbol, d: SecurityDecision)
    requires DecidedAs(h, s, d) && d.evidenced
    ensures d.sec.Some?
  {
  }

  lemma {:induction false} EvidencedOnOne(path: Option<SecId>, listing: set<SecId>, conflicts: set<Symbol>,
                                          issuers: map<SecId, nat>, disputed: set<SecId>, d: FilingDecision)
    requires FilingDecidedAs(path, listing, conflicts, issuers, disputed, d) && d.status == FilingEvidenced
    ensures conflicts == {} && d.sec.Some? && AllSecIds(path, listing) == {d.sec.value}
    ensures d.sec.value in issuers && d.issuer == Some(issuers[d.sec.value]) && d.sec.value !in disputed
  {
    var sec :| AllSecIds(path, listing) == {sec} && sec !in disputed && sec in issuers;
    assert sec in {d.sec.value};
  }
}
