// One-to-one matching of value columns to period anchors in a statement header
// (worker/statement_extraction.py, build_columns): greedy, nearest pair first.
module ColumnMatching {
  import opened Prelude

  const AMBIGUITY_MARGIN := 2.0

  datatype Column = Column(right: real, x0: real, x1: real, tolerance: real, underNote: bool)
  datatype Anchor = Anchor(x0: real, x1: real)
  datatype Pair = Pair(distance: real, col: nat, anchor: nat)

  function Distance(c: Column, a: Anchor): real {
    Abs(c.right - a.x1)
  }

  /** The anchor's right edge is within the column's tolerance, or its centre inside the column. */
  predicate Fits(c: Column, a: Anchor) {
    Distance(c, a) <= c.tolerance || c.x0 - 2.0 <= (a.x0 + a.x1) / 2.0 <= c.x1 + 2.0
  }

  /** Python's tuple order on (distance, column, anchor). */
  predicate PairLe(a: Pair, b: Pair) {
    a.distance < b.distance ||
    (a.distance == b.distance && (a.col < b.col || (a.col == b.col && a.anchor <= b.anchor)))
  }

  ghost predicate FittingPair(cols: seq<Column>, anchors: seq<Anchor>, p: Pair) {
    && p.col < |cols| && p.anchor < |anchors|
    && Fits(cols[p.col], anchors[p.anchor])
    && p.distance == Distance(cols[p.col], anchors[p.anchor])
  }

  ghost predicate Candidates(cols: seq<Column>, anchors: seq<Anchor>, pairs: seq<Pair>) {
    && (forall i :: 0 <= i < |pairs| ==> FittingPair(cols, anchors, pairs[i]))
    && (forall p :: FittingPair(cols, anchors, p) ==> p in pairs)
    && SortedBy(PairLe, pairs)
  }

  /** A column and an anchor whose right edges are within the column's tolerance, or the anchor's centre within the
      column widened by two points; the distance is that of the right edges. */
  ghost predicate AnchorFits(cols: seq<Column>, anchors: seq<Anchor>, p: Pair) {
    && p.col < |cols| && p.anchor < |anchors|
    && var (c, a) := (cols[p.col], anchors[p.anchor]);
       && p.distance == (if c.right >= a.x1 then c.right - a.x1 else a.x1 - c.right)
       && (p.distance <= c.tolerance || 2.0 * c.x0 - 4.0 <= a.x0 + a.x1 <= 2.0 * c.x1 + 4.0)
  }

  method FittingPairs(cols: seq<Column>, anchors: seq<Anchor>) returns (pairs: seq<Pair>)
    ensures Candidates(cols, anchors, pairs)
    ensures forall p :: p in pairs <==> AnchorFits(cols, anchors, p)
    ensures forall i, j :: 0 <= i < j < |pairs| ==>
              var (p, q) := (pairs[i], pairs[j]);
              p.distance < q.distance
              || (p.distance == q.distance && (p.col < q.col || (p.col == q.col && p.anchor <= q.anchor)))
  {
    var found: seq<Pair> := [];
    for ci := 0 to |cols|
      invariant forall p :: p in found <==> FittingPair(cols, anchors, p) && p.col < ci
    {
      for li := 0 to |anchors|
        invariant forall p :: p in found <==>
                    FittingPair(cols, anchors, p) && (p.col < ci || (p.col == ci && p.anchor < li))
      {
        if Fits(cols[ci], anchors[li]) {
          found := found + [Pair(Distance(cols[ci], anchors[li]), ci, li)];
        }
      }
    }
    pairs := Sort(PairLe, found);
    SortSorts(PairLe, found);
    forall p ensures p in pairs <==> p in found {
      assert p in multiset(pairs) <==> p in multiset(found);
    }
  }

  /** The column is matched, at no greater distance than d. */
  ghost predicate ColumnTakenWithin(cols: seq<Column>, anchors: seq<Anchor>, m: map<nat, nat>, ci: nat, d: real) {
    ci in m && ci < |cols| && m[ci] < |anchors| && Distance(cols[ci], anchors[m[ci]]) <= d
  }

  /** The anchor is matched, to a column at no greater distance than d. */
  ghost predicate AnchorTakenWithin(cols: seq<Column>, anchors: seq<Anchor>, m: map<nat, nat>, li: nat, d: real) {
    exists ci :: ci in m && m[ci] == li && ColumnTakenWithin(cols, anchors, m, ci, d)
  }

  /** Why a fitting pair may be left unmatched. */
  ghost predicate Blocked(cols: seq<Column>, anchors: seq<Anchor>, m: map<nat, nat>, ambiguous: set<nat>, p: Pair)
    requires p.col < |cols|
  {
    || cols[p.col].underNote
    || p.col in ambiguous
    || ColumnTakenWithin(cols, anchors, m, p.col, p.distance)
    || AnchorTakenWithin(cols, anchors, m, p.anchor, p.distance)
  }

  ghost predicate OneToOne(m: map<nat, nat>) {
    forall a, b :: a in m && b in m && m[a] == m[b] ==> a == b
  }

  /** Every rival anchor of the matched pair p that is free is at least the margin farther. */
  ghost predicate ClearOfRivals(cols: seq<Column>, anchors: seq<Anchor>, used: set<nat>, ci: nat, li: nat) {
    forall p :: FittingPair(cols, anchors, p) && p.col == ci && p.anchor != li && p.anchor !in used && li < |anchors|
                ==> p.distance - Distance(cols[ci], anchors[li]) >= AMBIGUITY_MARGIN
  }

  ghost predicate MatchedProperly(cols: seq<Column>, anchors: seq<Anchor>, used: set<nat>, ci: nat, li: nat) {
    && ci < |cols| && li < |anchors| && Fits(cols[ci], anchors[li]) && !cols[ci].underNote && li in used
    && ClearOfRivals(cols, anchors, used, ci, li)
  }

  /** An ambiguous column really has two fitting anchors closer together than the margin. */
  ghost predicate TrulyAmbiguous(cols: seq<Column>, anchors: seq<Anchor>, ci: nat) {
    exists p, q :: FittingPair(cols, anchors, p) && FittingPair(cols, anchors, q) && p.col == q.col == ci
                   && p.anchor != q.anchor && 0.0 <= q.distance - p.distance < AMBIGUITY_MARGIN
  }

  /** Rivals of pair (ci, li): the distances of the column's other fitting anchors still free. */
  function Rivals(pairs: seq<Pair>, ci: nat, li: nat, used: set<nat>): (r: seq<Pair>)
    ensures forall p :: p in r <==> p in pairs && p.col == ci && p.anchor != li && p.anchor !in used
  {
    if pairs == [] then []
    else
      var p := pairs[0];
      (if p.col == ci && p.anchor != li && p.anchor !in used then [p] else []) + Rivals(pairs[1..], ci, li, used)
  }

  function Nearest(r: seq<Pair>): (p: Pair)
    requires r != []
    ensures p in r && forall q :: q in r ==> p.distance <= q.distance
  {
    if |r| == 1 then r[0]
    else var p := Nearest(r[1..]); if r[0].distance <= p.distance then r[0] else p
  }

  /** What holds after the first k pairs: the matching so far, and why each earlier pair is matched or not. */
  ghost predicate GoodSoFar(cols: seq<Column>, anchors: seq<Anchor>, pairs: seq<Pair>, k: nat, m: map<nat, nat>,
                            ambiguous: set<nat>)
  {
    && Candidates(cols, anchors, pairs) && k <= |pairs|
    && OneToOne(m) && m.Keys !! ambiguous
    && (forall ci :: ci in m ==> MatchedProperly(cols, anchors, m.Values, ci, m[ci]))
    && (forall ci :: ci in m ==> MatchedEarlier(pairs, k, m, ci))
    && (forall i :: 0 <= i < k ==> Settled(cols, anchors, m, ambiguous, pairs[i]))
    && (forall ci :: ci in ambiguous ==> TrulyAmbiguous(cols, anchors, ci))
  }

  ghost predicate Settled(cols: seq<Column>, anchors: seq<Anchor>, m: map<nat, nat>, ambiguous: set<nat>, p: Pair) {
    p.col < |cols| && ((p.col in m && m[p.col] == p.anchor) || Blocked(cols, anchors, m, ambiguous, p))
  }

  ghost predicate MatchedEarlier(pairs: seq<Pair>, k: nat, m: map<nat, nat>, ci: nat)
    requires ci in m && k <= |pairs|
  {
    exists i :: 0 <= i < k && pairs[i].col == ci && pairs[i].anchor == m[ci]
  }

  /** A pair skipped because a side is taken: what took it came earlier, so it is no farther away. */
  lemma {:induction false} SkippedPairIsSettled(cols: seq<Column>, anchors: seq<Anchor>, pairs: seq<Pair>, k: nat,
                                                m: map<nat, nat>, ambiguous: set<nat>)
    requires GoodSoFar(cols, anchors, pairs, k, m, ambiguous) && k < |pairs|
    requires pairs[k].col in m || pairs[k].anchor in m.Values || pairs[k].col in ambiguous
             || (pairs[k].col < |cols| && cols[pairs[k].col].underNote)
    ensures Settled(cols, anchors, m, ambiguous, pairs[k])
  {
    hide Settled, MatchedProperly, TrulyAmbiguous;
    var p := pairs[k];
    assert FittingPair(cols, anchors, p);
    if p.col !in ambiguous && !cols[p.col].underNote {
      var ci :| ci in m && (ci == p.col || m[ci] == p.anchor);
      assert MatchedEarlier(pairs, k, m, ci);
      var i :| 0 <= i < k && pairs[i].col == ci && pairs[i].anchor == m[ci];
      assert FittingPair(cols, anchors, pairs[i]) && PairLe(pairs[i], pairs[k]);
      TakenIsSettled(cols, anchors, m, ambiguous, p, ci);
    } else {
      ExcusedIsSettled(cols, anchors, m, ambiguous, p);
    }
  }

  lemma {:induction false} TakenIsSettled(cols: seq<Column>, anchors: seq<Anchor>, m: map<nat, nat>,
                                          ambiguous: set<nat>, p: Pair, ci: nat)
    requires p.col < |cols| && ci in m && (ci == p.col || m[ci] == p.anchor)
             && ColumnTakenWithin(cols, anchors, m, ci, p.distance)
    ensures Settled(cols, anchors, m, ambiguous, p)
  {
  }

  lemma {:induction false} ExcusedIsSettled(cols: seq<Column>, anchors: seq<Anchor>, m: map<nat, nat>,
                                            ambiguous: set<nat>, p: Pair)
    requires p.col < |cols| && (p.col in ambiguous || cols[p.col].underNote)
    ensures Settled(cols, anchors, m, ambiguous, p)
  {
  }

  lemma {:induction false} SkippedIsSettled(cols: seq<Column>, anchors: seq<Anchor>, pairs: seq<Pair>, k: nat,
                                            m: map<nat, nat>, ambiguous: set<nat>)
    requires GoodSoFar(cols, anchors, pairs, k, m, ambiguous) && k < |pairs|
    requires pairs[k].col in m || pairs[k].anchor in m.Values || pairs[k].col in ambiguous
             || (pairs[k].col < |cols| && cols[pairs[k].col].underNote)
    ensures GoodSoFar(cols, anchors, pairs, k + 1, m, ambiguous)
  {
    hide Settled, MatchedProperly, TrulyAmbiguous, Candidates;
    SkippedPairIsSettled(cols, anchors, pairs, k, m, ambiguous);
    forall ci | ci in m ensures MatchedEarlier(pairs, k + 1, m, ci) {
      assert MatchedEarlier(pairs, k, m, ci);
    }
  }

  /** A free rival of the pair being considered has not been considered yet. */
  lemma {:induction false} RivalComesLater(cols: seq<Column>, anchors: seq<Anchor>, pairs: seq<Pair>, k: nat,
                                           m: map<nat, nat>, ambiguous: set<nat>, q: Pair)
    requires GoodSoFar(cols, anchors, pairs, k, m, ambiguous) && k < |pairs|
    requires pairs[k].col !in m && pairs[k].col !in ambiguous
    requires pairs[k].col < |cols| && !cols[pairs[k].col].underNote
    requires q in pairs && q.col == pairs[k].col && q.anchor != pairs[k].anchor && q.anchor !in m.Values
    ensures pairs[k].distance <= q.distance
  {
    assert !AnchorTakenWithin(cols, anchors, m, q.anchor, q.distance);
    assert !Settled(cols, anchors, m, ambiguous, q);
    var j :| 0 <= j < |pairs| && pairs[j] == q;
    assert j > k ==> PairLe(pairs[k], pairs[j]);
  }

  lemma {:induction false} AmbiguousIsSettled(cols: seq<Column>, anchors: seq<Anchor>, pairs: seq<Pair>, k: nat,
                                              m: map<nat, nat>, ambiguous: set<nat>, q: Pair)
    requires GoodSoFar(cols, anchors, pairs, k, m, ambiguous) && k < |pairs|
    requires pairs[k].col !in m && pairs[k].col !in ambiguous
    requires pairs[k].col < |cols| && !cols[pairs[k].col].underNote
    requires q in pairs && q.col == pairs[k].col && q.anchor != pairs[k].anchor && q.anchor !in m.Values
    requires q.distance - pairs[k].distance < AMBIGUITY_MARGIN
    ensures GoodSoFar(cols, anchors, pairs, k + 1, m, ambiguous + {pairs[k].col})
  {
    RivalComesLater(cols, anchors, pairs, k, m, ambiguous, q);
    assert FittingPair(cols, anchors, pairs[k]) && FittingPair(cols, anchors, q);
    assert TrulyAmbiguous(cols, anchors, pairs[k].col);
    var more := ambiguous + {pairs[k].col};
    forall i | 0 <= i < k + 1 ensures Settled(cols, anchors, m, more, pairs[i]) {
      assert i < k ==> Settled(cols, anchors, m, ambiguous, pairs[i]);
    }
    forall ci | ci in m ensures MatchedEarlier(pairs, k + 1, m, ci) {
      assert MatchedEarlier(pairs, k, m, ci);
    }
  }

  lemma {:induction false} ValuesAfterMatch(m: map<nat, nat>, p: Pair)
    requires p.col !in m
    ensures m[p.col := p.anchor].Values == m.Values + {p.anchor}
  {
    var m' := m[p.col := p.anchor];
    forall li ensures li in m'.Values <==> li in m.Values || li == p.anchor {
      if li in m.Values {
        var ci :| ci in m && m[ci] == li;
        assert ci in m' && m'[ci] == li;
      }
      assert p.col in m' && m'[p.col] == p.anchor;
    }
  }

  lemma {:induction false} StillClear(cols: seq<Column>, anchors: seq<Anchor>, used: set<nat>, more: set<nat>, ci: nat,
                                      li: nat)
    requires MatchedProperly(cols, anchors, used, ci, li) && used <= more
    ensures MatchedProperly(cols, anchors, more, ci, li)
  {
  }

  lemma {:induction false} NewMatchIsClear(cols: seq<Column>, anchors: seq<Anchor>, pairs: seq<Pair>, k: nat,
                                           m: map<nat, nat>)
    requires Candidates(cols, anchors, pairs) && k < |pairs|
    requires pairs[k].col < |cols| && !cols[pairs[k].col].underNote
    requires forall q :: q in Rivals(pairs, pairs[k].col, pairs[k].anchor, m.Values) ==>
               q.distance - pairs[k].distance >= AMBIGUITY_MARGIN
    ensures MatchedProperly(cols, anchors, m.Values + {pairs[k].anchor}, pairs[k].col, pairs[k].anchor)
  {
    var p, used := pairs[k], m.Values + {pairs[k].anchor};
    assert FittingPair(cols, anchors, p);
    forall q | FittingPair(cols, anchors, q) && q.col == p.col && q.anchor != p.anchor && q.anchor !in used
      ensures q.distance - p.distance >= AMBIGUITY_MARGIN
    {
      assert q in Rivals(pairs, p.col, p.anchor, m.Values);
    }
  }

  lemma {:induction false} MatchIsSettled(cols: seq<Column>, anchors: seq<Anchor>, pairs: seq<Pair>, k: nat,
                                          m: map<nat, nat>, ambiguous: set<nat>)
    requires GoodSoFar(cols, anchors, pairs, k, m, ambiguous) && k < |pairs|
    requires pairs[k].col !in m && pairs[k].col !in ambiguous && pairs[k].anchor !in m.Values
    requires pairs[k].col < |cols| && !cols[pairs[k].col].underNote
    requires forall q :: q in Rivals(pairs, pairs[k].col, pairs[k].anchor, m.Values) ==>
               q.distance - pairs[k].distance >= AMBIGUITY_MARGIN
    ensures GoodSoFar(cols, anchors, pairs, k + 1, m[pairs[k].col := pairs[k].anchor], ambiguous)
  {
    hide Blocked, MatchedProperly, SortedBy;
    var p := pairs[k];
    assert FittingPair(cols, anchors, p);
    var m' := m[p.col := p.anchor];
    ValuesAfterMatch(m, p);
    forall ci | ci in m' ensures MatchedProperly(cols, anchors, m'.Values, ci, m'[ci]) {
      if ci == p.col {
        NewMatchIsClear(cols, anchors, pairs, k, m);
      } else {
        StillClear(cols, anchors, m.Values, m'.Values, ci, m[ci]);
      }
    }
    forall ci | ci in m' ensures MatchedEarlier(pairs, k + 1, m', ci) {
      if ci != p.col {
        assert MatchedEarlier(pairs, k, m, ci);
      }
    }
    forall i | 0 <= i < k + 1 ensures Settled(cols, anchors, m', ambiguous, pairs[i]) {
      if i < k {
        StaysSettled(cols, anchors, m, p, ambiguous, pairs[i]);
      }
    }
  }

  lemma {:induction false} StaysSettled(cols: seq<Column>, anchors: seq<Anchor>, m: map<nat, nat>, p: Pair,
                                        ambiguous: set<nat>, q: Pair)
    requires Settled(cols, anchors, m, ambiguous, q) && p.col !in m
    ensures Settled(cols, anchors, m[p.col := p.anchor], ambiguous, q)
  {
    var m' := m[p.col := p.anchor];
    if AnchorTakenWithin(cols, anchors, m, q.anchor, q.distance) {
      var ci :| ci in m && m[ci] == q.anchor && ColumnTakenWithin(cols, anchors, m, ci, q.distance);
      assert ColumnTakenWithin(cols, anchors, m', ci, q.distance);
    }
  }

  /** build_columns' matching. It is one-to-one, every match is clear of its free rivals, and it is stable:
      no fitting pair was skipped unless its column is ambiguous, under a note header, or one side was
      already matched at least as close. */
  method MatchColumns(cols: seq<Column>, anchors: seq<Anchor>) returns (m: map<nat, nat>, ambiguous: set<nat>)
    ensures OneToOne(m) && m.Keys !! ambiguous
    ensures forall ci :: ci in m ==> MatchedProperly(cols, anchors, m.Values, ci, m[ci])
    ensures forall p :: FittingPair(cols, anchors, p) ==> Settled(cols, anchors, m, ambiguous, p)
    ensures forall ci :: ci in ambiguous ==> TrulyAmbiguous(cols, anchors, ci)
  {
    var pairs := FittingPairs(cols, anchors);
    m, ambiguous := map[], {};
    for k := 0 to |pairs|
      invariant GoodSoFar(cols, anchors, pairs, k, m, ambiguous)
    {
      var p := pairs[k];
      assert FittingPair(cols, anchors, p);
      if p.col in m || p.anchor in m.Values || p.col in ambiguous {
        SkippedIsSettled(cols, anchors, pairs, k, m, ambiguous);
        continue;
      }
      if cols[p.col].underNote {
        SkippedIsSettled(cols, anchors, pairs, k, m, ambiguous);
        continue;
      }
      var rivals := Rivals(pairs, p.col, p.anchor, m.Values);
      if rivals != [] && Nearest(rivals).distance - p.distance < AMBIGUITY_MARGIN {
        AmbiguousIsSettled(cols, anchors, pairs, k, m, ambiguous, Nearest(rivals));
        ambiguous := ambiguous + {p.col};
        continue;
      }
      MatchIsSettled(cols, anchors, pairs, k, m, ambiguous);
      m := m[p.col := p.anchor];
    }
    forall p | FittingPair(cols, anchors, p) ensures Settled(cols, anchors, m, ambiguous, p) {
      assert p in pairs;
    }
  }
}
