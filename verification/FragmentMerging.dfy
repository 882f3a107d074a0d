// Merging of letter-spaced numeric fragments on one visual line (worker/financial_values.py,
// merge_numeric_fragments): nested index loops over the words sorted by their left edge.
module FragmentMerging {
  import opened Prelude
  import opened ValueParsing

  datatype Word = Word(text: string, x0: real, y0: real, x1: real, y1: real, fragments: nat)

  predicate IsFragment(text: string) {
    text != [] && forall i :: 0 <= i < |text| ==> IsMinus(text[i]) || IsNumberChar(text[i]) || text[i] in "()%"
  }

  predicate XLe(a: Word, b: Word) {
    a.x0 <= b.x0
  }

  /** next continues the run whose last word is prev: a fragment, close enough, and not to its left. */
  predicate Joins(prev: Word, next: Word, gapRatio: real) {
    && IsFragment(next.text)
    && next.x0 - prev.x1 <= gapRatio * Max(1.0, Min(prev.y1 - prev.y0, next.y1 - next.y0))
    && next.x0 >= prev.x0
  }

  function Concat(words: seq<Word>): string {
    if words == [] then [] else words[0].text + Concat(words[1..])
  }

  function Total(words: seq<Word>): nat {
    if words == [] then 0 else words[0].fragments + Total(words[1..])
  }

  predicate IsValue(text: string) {
    IsValueClass(ParseValue(text).cls)
  }

  /** The k words from i on, concatenated, read as a value. */
  predicate ReadsAsValue(words: seq<Word>, i: nat, k: nat)
    requires i + k <= |words|
  {
    IsValue(Concat(words[i..i + k]))
  }

  /** A maximal run of joining fragments starts at i and is n words long. */
  ghost predicate RunAt(words: seq<Word>, i: nat, n: nat, gapRatio: real) {
    && n >= 1 && i + n <= |words|
    && (forall k :: i < k < i + n ==> Joins(words[k - 1], words[k], gapRatio))
    && (i + n < |words| ==> !Joins(words[i + n - 1], words[i + n], gapRatio))
  }

  /** How many words the loop takes at i: one, or the longest prefix of the run that reads as a value. */
  ghost predicate TakesBest(words: seq<Word>, i: nat, best: nat, gapRatio: real) {
    && 1 <= best && i + best <= |words|
    && (!IsFragment(words[i].text) ==> best == 1)
    && (IsFragment(words[i].text) ==>
          exists n :: RunAt(words, i, n, gapRatio) && best <= n
                      && (best > 1 ==> ReadsAsValue(words, i, best))
                      && (forall k :: best < k <= n ==> !ReadsAsValue(words, i, k)))
  }

  ghost predicate Covers(w: Word, pieces: seq<Word>) {
    && (forall p :: p in pieces ==> w.x0 <= p.x0 && w.y0 <= p.y0 && p.x1 <= w.x1 && p.y1 <= w.y1)
    && (exists p :: p in pieces && p.x0 == w.x0) && (exists p :: p in pieces && p.y0 == w.y0)
    && (exists p :: p in pieces && p.x1 == w.x1) && (exists p :: p in pieces && p.y1 == w.y1)
  }

  /** An output word stands for the pieces it replaced: unchanged when single, otherwise the same text, the
      same fragment total, and the pieces' bounding box. */
  ghost predicate StandsFor(w: Word, pieces: seq<Word>) {
    && pieces != []
    && (|pieces| == 1 ==> w == pieces[0])
    && w.text == Concat(pieces) && w.fragments == Total(pieces)
    && Covers(w, pieces)
  }

  /** The output is the sorted input cut into consecutive stretches; cuts[k] is where stretch k starts. */
  ghost predicate CutInto(words: seq<Word>, out: seq<Word>, cuts: seq<nat>, gapRatio: real) {
    && |cuts| == |out| + 1 && cuts[0] == 0
    && (forall k :: 0 <= k < |cuts| ==> cuts[k] <= |words|)
    && forall k :: 0 <= k < |out| ==> Cut(words, out, cuts, k, gapRatio)
  }

  ghost predicate Cut(words: seq<Word>, out: seq<Word>, cuts: seq<nat>, k: nat, gapRatio: real)
    requires |cuts| == |out| + 1 && k < |out|
  {
    && cuts[k] < cuts[k + 1] <= |words|
    && StandsFor(out[k], words[cuts[k]..cuts[k + 1]])
    && TakesBest(words, cuts[k], cuts[k + 1] - cuts[k], gapRatio)
  }

  /** The smallest left and top edges and the largest right and bottom edges of a stretch of words. */
  method Merge(pieces: seq<Word>) returns (w: Word)
    requires |pieces| > 1
    ensures w.text == Concat(pieces) && w.fragments == Total(pieces) && Covers(w, pieces)
  {
    hide Covers;
    w := pieces[0];
    CoversItself(w, pieces);
    for i := 1 to |pieces|
      invariant w.text + Concat(pieces[i..]) == Concat(pieces)
      invariant w.fragments + Total(pieces[i..]) == Total(pieces)
      invariant Covers(w, pieces[..i])
    {
      var p := pieces[i];
      ghost var before := w;
      OneMorePiece(w.text, pieces, i);
      assert pieces[..i + 1] == pieces[..i] + [p];
      w := Word(w.text + p.text, Min(w.x0, p.x0), Min(w.y0, p.y0), Max(w.x1, p.x1), Max(w.y1, p.y1),
                w.fragments + p.fragments);
      CoversOneMore(before, w, pieces[..i], p);
    }
    assert pieces[|pieces|..] == [] && pieces[..|pieces|] == pieces;
  }

  lemma {:induction false} CoversItself(w: Word, pieces: seq<Word>)
    requires pieces != [] && w == pieces[0]
    ensures Covers(w, pieces[..1])
  {
    assert pieces[..1] == [w];
  }

  lemma {:induction false} OneMorePiece(text: string, pieces: seq<Word>, i: nat)
    requires i < |pieces|
    ensures text + Concat(pieces[i..]) == text + pieces[i].text + Concat(pieces[i + 1..])
    ensures Total(pieces[i..]) == pieces[i].fragments + Total(pieces[i + 1..])
  {
    assert pieces[i..][1..] == pieces[i + 1..];
  }

  lemma {:induction false} CoversOneMore(before: Word, w: Word, pieces: seq<Word>, p: Word)
    requires Covers(before, pieces)
    requires w.x0 == Min(before.x0, p.x0) && w.y0 == Min(before.y0, p.y0)
    requires w.x1 == Max(before.x1, p.x1) && w.y1 == Max(before.y1, p.y1)
    ensures Covers(w, pieces + [p])
  {
    assert forall q :: q in pieces + [p] <==> q in pieces || q == p;
  }

  /** The maximal run of joining fragments that starts at word i. */
  method RunLength(words: seq<Word>, i: nat, gapRatio: real) returns (n: nat)
    requires i < |words|
    ensures RunAt(words, i, n, gapRatio)
  {
    var j := i + 1;
    while j < |words|
      invariant i < j <= |words|
      invariant forall k :: i < k < j ==> Joins(words[k - 1], words[k], gapRatio)
    {
      if !Joins(words[j - 1], words[j], gapRatio) {
        break;
      }
      j := j + 1;
    }
    n := j - i;
  }

  /** The longest prefix, of at least two words, of the run that reads as a value; 1 when there is none. */
  method LongestValue(words: seq<Word>, i: nat, n: nat) returns (best: nat)
    requires n >= 1 && i + n <= |words|
    ensures 1 <= best <= n
    ensures best > 1 ==> ReadsAsValue(words, i, best)
    ensures forall k :: best < k <= n ==> !ReadsAsValue(words, i, k)
  {
    hide ReadsAsValue;
    var k := n;
    while k > 1
      invariant 1 <= k <= n
      invariant forall m :: k < m <= n ==> !ReadsAsValue(words, i, m)
    {
      if ReadsAsValue(words, i, k) {
        return k;
      }
      k := k - 1;
    }
    best := 1;
  }

  lemma {:induction false} NoCutYet(words: seq<Word>, gapRatio: real)
    ensures CutInto(words, [], [0], gapRatio)
  {
  }

  lemma {:induction false} AddCut(words: seq<Word>, out: seq<Word>, cuts: seq<nat>, gapRatio: real, w: Word, best: nat)
    requires CutInto(words, out, cuts, gapRatio)
    requires cuts[|out|] + best <= |words| && best >= 1
    requires StandsFor(w, words[cuts[|out|]..cuts[|out|] + best])
    requires TakesBest(words, cuts[|out|], best, gapRatio)
    ensures CutInto(words, out + [w], cuts + [cuts[|out|] + best], gapRatio)
  {
    hide StandsFor, TakesBest;
    var out', cuts' := out + [w], cuts + [cuts[|out|] + best];
    forall k | 0 <= k < |out'| ensures Cut(words, out', cuts', k, gapRatio) {
      if k < |out| {
        assert Cut(words, out, cuts, k, gapRatio);
      }
    }
  }

  /** The words of the line with this left edge, in order. */
  function WithEdge(words: seq<Word>, x: real): seq<Word> {
    if words == [] then [] else (if words[0].x0 == x then [words[0]] else []) + WithEdge(words[1..], x)
  }

  lemma {:induction false} InsertIsStable(w: Word, words: seq<Word>, x: real)
    ensures WithEdge(Insert(XLe, w, words), x) == (if w.x0 == x then [w] else []) + WithEdge(words, x)
  {
    if words != [] && !XLe(w, words[0]) {
      var more := Insert(XLe, w, words[1..]);
      assert ([words[0]] + more)[1..] == more;
      InsertIsStable(w, words[1..], x);
    } else {
      assert ([w] + words)[1..] == words;
    }
  }

  lemma {:induction false} SortIsStable(line: seq<Word>, x: real)
    ensures WithEdge(Sort(XLe, line), x) == WithEdge(line, x)
  {
    if line != [] {
      SortIsStable(line[1..], x);
      InsertIsStable(line[0], Sort(XLe, line[1..]), x);
    }
  }

  /** The words of the line from left to right; those with one left edge keep their order. */
  ghost predicate InOrder(line: seq<Word>, words: seq<Word>) {
    && multiset(words) == multiset(line)
    && (forall i, j :: 0 <= i < j < |words| ==> words[i].x0 <= words[j].x0)
    && forall x :: WithEdge(words, x) == WithEdge(line, x)
  }

  lemma {:induction false} SortIsInOrder(line: seq<Word>)
    ensures InOrder(line, Sort(XLe, line))
  {
    hide Sort, WithEdge;
    var words := Sort(XLe, line);
    SortSorts(XLe, line);
    forall i, j | 0 <= i < j < |words| ensures words[i].x0 <= words[j].x0 {
      assert XLe(words[i], words[j]);
    }
    forall x ensures WithEdge(words, x) == WithEdge(line, x) {
      SortIsStable(line, x);
    }
  }

  /** merge_numeric_fragments: the sorted line, cut into consecutive stretches; each stretch is one untouched
      word, or the longest prefix of a joining run that reads as a value. */
  method MergeNumericFragments(line: seq<Word>, gapRatio: real)
    returns (out: seq<Word>, words: seq<Word>, cuts: seq<nat>)
    ensures InOrder(line, words)
    ensures |cuts| == |out| + 1 && CutInto(words, out, cuts, gapRatio) && cuts[|out|] == |words|
  {
    hide ReadsAsValue, StandsFor, TakesBest, Sort, RunAt, Joins, CutInto, Cut, InOrder;
    words := Sort(XLe, line);
    SortIsInOrder(line);
    out, cuts := [], [0];
    NoCutYet(words, gapRatio);
    var i := 0;
    while i < |words|
      invariant |cuts| == |out| + 1 && cuts[|out|] == i <= |words|
      invariant CutInto(words, out, cuts, gapRatio)
      decreases |words| - i
    {
      var best := 1;
      if IsFragment(words[i].text) {
        var n := RunLength(words, i, gapRatio);
        best := LongestValue(words, i, n);
        RunGivesBest(words, i, n, best, gapRatio);
      } else {
        PlainWordAlone(words, i, gapRatio);
      }
      var piece := words[i..i + best];
      var w := words[i];
      if best > 1 {
        w := Merge(piece);
      }
      PieceStands(w, piece);
      AddCut(words, out, cuts, gapRatio, w, best);
      out, cuts, i := out + [w], cuts + [i + best], i + best;
    }
  }

  lemma {:induction false} RunGivesBest(words: seq<Word>, i: nat, n: nat, best: nat, gapRatio: real)
    requires i < |words| && IsFragment(words[i].text) && RunAt(words, i, n, gapRatio) && 1 <= best <= n
    requires best > 1 ==> ReadsAsValue(words, i, best)
    requires forall k :: best < k <= n ==> !ReadsAsValue(words, i, k)
    ensures TakesBest(words, i, best, gapRatio)
  {
  }

  lemma {:induction false} PlainWordAlone(words: seq<Word>, i: nat, gapRatio: real)
    requires i < |words| && !IsFragment(words[i].text)
    ensures TakesBest(words, i, 1, gapRatio)
  {
  }

  lemma {:induction false} PieceStands(w: Word, piece: seq<Word>)
    requires piece != []
    requires |piece| == 1 ==> w == piece[0]
    requires |piece| > 1 ==> w.text == Concat(piece) && w.fragments == Total(piece) && Covers(w, piece)
    ensures StandsFor(w, piece)
  {
    if |piece| == 1 {
      assert Concat(piece[1..]) == [] && Total(piece[1..]) == 0;
      assert w in piece;
    }
  }

  // ---------------------------------------------------------------- conservation

  lemma {:induction false} ConcatAppend(a: seq<Word>, b: seq<Word>)
    ensures Concat(a + b) == Concat(a) + Concat(b) && Total(a + b) == Total(a) + Total(b)
  {
    if a == [] {
      assert a + b == b;
    } else {
      assert (a + b)[1..] == a[1..] + b;
      ConcatAppend(a[1..], b);
    }
  }

  lemma {:induction false} ConcatOne(w: Word)
    ensures Concat([w]) == w.text && Total([w]) == w.fragments
  {
    assert [w][1..] == [];
  }

  lemma {:induction false} NothingMerged(words: seq<Word>, out: seq<Word>, cuts: seq<nat>)
    requires cuts != [] && cuts[0] == 0
    ensures Concat(out[..0]) == Concat(words[..cuts[0]]) && Total(out[..0]) == Total(words[..cuts[0]])
  {
  }

  /** Nothing is lost, duplicated or reordered: any such cut has the line's text and fragment total. */
  lemma {:induction false} MergingConserves(words: seq<Word>, out: seq<Word>, cuts: seq<nat>, gapRatio: real, k: nat)
    requires CutInto(words, out, cuts, gapRatio) && k <= |out|
    ensures Concat(out[..k]) == Concat(words[..cuts[k]]) && Total(out[..k]) == Total(words[..cuts[k]])
  {
    hide TakesBest, Covers, Concat, Total;
    if k > 0 {
      assert Cut(words, out, cuts, k - 1, gapRatio);
      MergingConserves(words, out, cuts, gapRatio, k - 1);
      assert out[..k] == out[..k - 1] + [out[k - 1]];
      assert words[..cuts[k]] == words[..cuts[k - 1]] + words[cuts[k - 1]..cuts[k]];
      ConcatAppend(out[..k - 1], [out[k - 1]]);
      ConcatAppend(words[..cuts[k - 1]], words[cuts[k - 1]..cuts[k]]);
      ConcatOne(out[k - 1]);
    } else {
      NothingMerged(words, out, cuts);
    }
  }

  lemma {:induction false} RunsAgree(words: seq<Word>, i: nat, n: nat, m: nat, gapRatio: real)
    requires RunAt(words, i, n, gapRatio) && RunAt(words, i, m, gapRatio)
    ensures n == m
  {
    hide Joins;
  }

  /** Two cuts of the same line are the same cut: the result is determined by the sorted words. */
  lemma {:induction false} CutIsUnique(words: seq<Word>, i: nat, a: nat, b: nat, gapRatio: real)
    requires i < |words| && TakesBest(words, i, a, gapRatio) && TakesBest(words, i, b, gapRatio)
    ensures a == b
  {
    hide ReadsAsValue, Joins;
    if IsFragment(words[i].text) {
      var n :| RunAt(words, i, n, gapRatio) && a <= n && (a > 1 ==> ReadsAsValue(words, i, a))
               && forall k :: a < k <= n ==> !ReadsAsValue(words, i, k);
      var m :| RunAt(words, i, m, gapRatio) && b <= m && (b > 1 ==> ReadsAsValue(words, i, b))
               && forall k :: b < k <= m ==> !ReadsAsValue(words, i, k);
      RunsAgree(words, i, n, m, gapRatio);
    }
  }
}
