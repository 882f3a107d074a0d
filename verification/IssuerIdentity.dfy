// Stage F5's issuer identity (worker/issuer_identity.py): the secId reuse guard, the per-security
// decision, and the filing decision. Observations are append-only; every rule is read from all of them.
module IssuerIdentity {
  import opened Prelude

  type Symbol = string

  /** CSE's issuer-level identifier. */
  datatype SecId = SecId(number: int)

  /** One recorded identifier observation: the security it names (if any), the issuer secId it carries (if
      any), its ISIN and name, and the key under which it is recorded once. */
  datatype Observation = Observation(key: nat, symbol: Option<Symbol>, sec: Option<SecId>, isin: Option<string>,
                                     name: Option<string>)

  /** observations_by_symbol */
  type History = map<Symbol, seq<Observation>>

  // ---------------------------------------------------------------- comparable evidence

  function Upper(s: string): string {
    if s == [] then [] else [if 'a' <= s[0] <= 'z' then 'A' + (s[0] - 'a') else s[0]] + Upper(s[1..])
  }

  predicate IsBlank(c: char) {
    '\t' <= c <= '\r' || '\U{1C}' <= c <= ' '
  }

  function Trim(s: string): string {
    if s != [] && IsBlank(s[0]) then Trim(s[1..])
    else if s != [] && IsBlank(s[|s| - 1]) then Trim(s[..|s| - 1])
    else s
  }

  predicate Digit(c: char) { '0' <= c <= '9' }

  predicate DigitsIn(s: string, low: nat, high: nat)
    requires high <= |s|
  {
    forall i :: low <= i < high ==> Digit(s[i])
  }

  /** The issuer code of a CSE ISIN: LK, four digits, a class letter, five digits; None for any other shape. */
  function IsinIssuerCode(isin: Option<string>): Option<string> {
    var s := Upper(Trim(if isin.Some? then isin.value else ""));
    if |s| == 12 && s[..2] == "LK" && DigitsIn(s, 2, 6) && 'A' <= s[6] <= 'Z' && DigitsIn(s, 7, 12)
    then Some(s[2..6]) else None
  }

  predicate NameChar(c: char) {
    Digit(c) || 'A' <= c <= 'Z'
  }

  /** Runs of anything but letters and digits become one space. */
  function Collapse(s: string): string {
    if s == [] then []
    else if NameChar(s[0]) then [s[0]] + Collapse(s[1..])
    else if |s| > 1 && !NameChar(s[1]) then Collapse(s[1..])
    else " " + Collapse(s[1..])
  }

  function NormaliseName(name: Option<string>): Option<string> {
    var s := Trim(Collapse(Upper(if name.Some? then name.value else "")));
    if s == [] then None else Some(s)
  }

  // ---------------------------------------------------------------- what counts as comparable

  predicate AllBlank(s: string) {
    forall i :: 0 <= i < |s| ==> s[i] as int in {9, 10, 11, 12, 13, 28, 29, 30, 31, 32}
  }

  lemma {:induction false} OneMoreBlank(c: char, s: string)
    requires IsBlank(c) && AllBlank(s)
    ensures AllBlank([c] + s) && AllBlank(s + [c])
  {
  }

  lemma {:induction false} TrimSplits(s: string) returns (before: string, after: string)
    ensures s == before + Trim(s) + after && AllBlank(before) && AllBlank(after)
    ensures Trim(s) == [] || (!IsBlank(Trim(s)[0]) && !IsBlank(Trim(s)[|Trim(s)| - 1]))
  {
    hide IsBlank, AllBlank;
    before, after := "", "";
    assert AllBlank("") by { NoBlank(); }
    if s != [] && IsBlank(s[0]) {
      var inner;
      inner, after := TrimSplits(s[1..]);
      before := [s[0]] + inner;
      OneMoreBlank(s[0], inner);
      assert s == [s[0]] + s[1..] == before + Trim(s) + after;
    } else if s != [] && IsBlank(s[|s| - 1]) {
      var (last, rest) := (s[|s| - 1], s[..|s| - 1]);
      var inner;
      before, inner := TrimSplits(rest);
      after := inner + [last];
      OneMoreBlank(last, inner);
      assert s == rest + [last] == before + Trim(s) + after;
    } else {
      assert s == before + s + after;
    }
  }

  lemma {:induction false} NoBlank()
    ensures AllBlank("")
  {
  }

  lemma {:induction false} TrimDrops(before: string, t: string, after: string)
    requires AllBlank(before) && AllBlank(after) && t != [] && !IsBlank(t[0]) && !IsBlank(t[|t| - 1])
    ensures Trim(before + t + after) == t
    decreases |before| + |after|
  {
    var s := before + t + after;
    if before != [] {
      assert s[1..] == before[1..] + t + after;
      TrimDrops(before[1..], t, after);
    } else if after != [] {
      assert s[..|s| - 1] == before + t + after[..|after| - 1];
      TrimDrops(before, t, after[..|after| - 1]);
    } else {
      assert s == t;
    }
  }

  predicate InCodes(c: char, low: int, high: int) {
    low <= c as int <= high
  }

  /** A small letter's capital, and any other character itself. */
  function Capital(c: char): char {
    if InCodes(c, 97, 122) then (c as int - 32) as char else c
  }

  predicate IsinShape(t: string) {
    && |t| == 12 && (t[0] == 'L' || t[0] == 'l') && (t[1] == 'K' || t[1] == 'k')
    && (InCodes(t[6], 65, 90) || InCodes(t[6], 97, 122))
    && forall i :: 2 <= i < 12 && i != 6 ==> InCodes(t[i], 48, 57)
  }

  lemma {:induction false} UpperAt(s: string)
    ensures |Upper(s)| == |s|
    ensures forall i :: 0 <= i < |s| ==> Upper(s)[i] == Capital(s[i])
  {
    if s != [] {
      UpperAt(s[1..]);
    }
  }

  lemma {:induction false} ShapeOfUpper(t: string)
    ensures IsinShape(t) <==>
            var s := Upper(t);
            |s| == 12 && s[..2] == "LK" && DigitsIn(s, 2, 6) && 'A' <= s[6] <= 'Z' && DigitsIn(s, 7, 12)
    ensures IsinShape(t) ==> Upper(t)[2..6] == t[2..6]
  {
    UpperAt(t);
    var s := Upper(t);
    forall i | 0 <= i < |t|
      ensures Digit(s[i]) <==> InCodes(t[i], 48, 57)
      ensures InCodes(t[i], 48, 57) ==> s[i] == t[i]
    {
    }
    if |t| == 12 {
      assert s[..2] == "LK" <==> s[0] == 'L' && s[1] == 'K';
      assert IsinShape(t) ==> s[2..6] == t[2..6];
    }
  }

  predicate PrintedIsin(isin: string, before: string, t: string, after: string) {
    isin == before + t + after && AllBlank(before) && AllBlank(after) && IsinShape(t)
  }

  /** The issuer code of an ISIN: four digits after 'LK', in either case, before a letter and five digits, with nothing
      around but blanks; any other text carries none. */
  lemma {:induction false} IssuerCodeIs(isin: string, code: string)
    ensures IsinIssuerCode(Some(isin)) == Some(code) <==>
            exists before, t, after :: PrintedIsin(isin, before, t, after) && t[2..6] == code
  {
    hide Upper, Trim;
    ShapeOfUpper(Trim(isin));
    if IsinIssuerCode(Some(isin)) == Some(code) {
      var before, after := TrimSplits(isin);
      assert PrintedIsin(isin, before, Trim(isin), after);
    }
    if before, t, after :| PrintedIsin(isin, before, t, after) && t[2..6] == code {
      TrimDrops(before, t, after);
    }
  }

  predicate IsWordChar(c: char) {
    InCodes(c, 48, 57) || InCodes(c, 65, 90) || InCodes(c, 97, 122)
  }

  /** The words of a name: its longest runs of letters and digits, in capitals. */
  function Words(s: string): (ws: seq<string>)
    ensures s != [] && IsWordChar(s[0]) ==> ws != []
    ensures forall w :: w in ws ==> w != []
  {
    if s == [] then []
    else if !IsWordChar(s[0]) then Words(s[1..])
    else
      var (c, rest) := (Capital(s[0]), Words(s[1..]));
      if |s| > 1 && IsWordChar(s[1]) then
        assert forall w :: w in rest[1..] ==> w in rest;
        [[c] + rest[0]] + rest[1..]
      else [[c]] + rest
  }

  function Spaced(ws: seq<string>): string {
    if ws == [] then "" else if |ws| == 1 then ws[0] else ws[0] + " " + Spaced(ws[1..])
  }

  lemma {:induction false} NameCharOfUpper(c: char)
    ensures NameChar(Capital(c)) <==> IsWordChar(c)
  {
  }

  lemma {:induction false} SpacedFirst(c: string, ws: seq<string>)
    requires ws != []
    ensures Spaced([c + ws[0]] + ws[1..]) == c + Spaced(ws)
  {
    assert ([c + ws[0]] + ws[1..])[1..] == ws[1..];
    if |ws| > 1 {
      assert (c + ws[0]) + (" " + Spaced(ws[1..])) == c + (ws[0] + (" " + Spaced(ws[1..])));
    }
  }

  lemma {:induction false} SpacedMore(w: string, ws: seq<string>)
    ensures Spaced([w] + ws) == w + if ws == [] then "" else " " + Spaced(ws)
  {
    assert ([w] + ws)[1..] == ws;
  }

  /** Whether the text before its first word, and after its last one, is not empty. */
  function Before(s: string): string {
    if s != [] && !IsWordChar(s[0]) then " " else ""
  }

  function Behind(s: string): string {
    if Words(s) != [] && !IsWordChar(s[|s| - 1]) then " " else ""
  }

  lemma {:induction false} CollapsedIs(s: string)
    ensures Collapse(Upper(s)) == Before(s) + Spaced(Words(s)) + Behind(s)
  {
    if s != [] {
      var (u, rest) := (Upper(s), s[1..]);
      UpperAt(s);
      UpperAt(rest);
      NameCharOfUpper(s[0]);
      assert u[1..] == Upper(rest);
      CollapsedIs(rest);
      if rest != [] {
        NameCharOfUpper(rest[0]);
        assert s[|s| - 1] == rest[|rest| - 1];
      }
      if |s| > 1 && IsWordChar(s[0]) && IsWordChar(s[1]) {
        WordGoesOn(s);
      } else if IsWordChar(s[0]) {
        WordEnds(s);
      } else {
        NotOfWord(s);
      }
    }
  }

  lemma {:induction false} NotOfWord(s: string)
    requires s != [] && !IsWordChar(s[0])
    requires Upper(s)[1..] == Upper(s[1..]) && !NameChar(Upper(s)[0]) && |Upper(s)| == |s|
    requires |s| > 1 ==> (NameChar(Upper(s)[1]) <==> IsWordChar(s[1]))
    requires Collapse(Upper(s[1..])) == Before(s[1..]) + Spaced(Words(s[1..])) + Behind(s[1..])
    ensures Collapse(Upper(s)) == Before(s) + Spaced(Words(s)) + Behind(s)
  {
    hide Upper, Spaced, IsWordChar, NameChar;
    if |s| == 1 {
      assert Upper(s[1..]) == [];
      assert Words(s[1..]) == [];
      assert Spaced([]) == "" by { SpacedNothing(); }
    } else if IsWordChar(s[1]) {
      assert " " + ("" + Spaced(Words(s[1..])) + Behind(s[1..])) == " " + Spaced(Words(s)) + Behind(s);
    }
  }

  lemma {:induction false} SpacedNothing()
    ensures Spaced([]) == ""
  {
  }

  lemma {:induction false} WordGoesOn(s: string)
    requires |s| > 1 && IsWordChar(s[0]) && IsWordChar(s[1])
    requires Upper(s)[1..] == Upper(s[1..]) && NameChar(Upper(s)[0]) && |Upper(s)| == |s|
    requires Upper(s)[0] == Capital(s[0])
    requires Collapse(Upper(s[1..])) == Before(s[1..]) + Spaced(Words(s[1..])) + Behind(s[1..])
    ensures Collapse(Upper(s)) == Before(s) + Spaced(Words(s)) + Behind(s)
  {
    hide Upper, Spaced, IsWordChar, NameChar;
    var (c, rest) := ([Upper(s)[0]], s[1..]);
    SpacedFirst(c, Words(rest));
    Regroup(c, "", Spaced(Words(rest)), Behind(rest));
  }

  lemma {:induction false} Regroup(c: string, gap: string, x: string, y: string)
    ensures c + (gap + x + y) == "" + (c + (gap + x)) + y
    ensures "" + x == x
  {
  }

  lemma {:induction false} WordEnds(s: string)
    requires s != [] && IsWordChar(s[0]) && (|s| > 1 ==> !IsWordChar(s[1]))
    requires Upper(s)[1..] == Upper(s[1..]) && NameChar(Upper(s)[0]) && |Upper(s)| == |s|
    requires Upper(s)[0] == Capital(s[0])
    requires Collapse(Upper(s[1..])) == Before(s[1..]) + Spaced(Words(s[1..])) + Behind(s[1..])
    ensures Collapse(Upper(s)) == Before(s) + Spaced(Words(s)) + Behind(s)
  {
    hide Upper, Spaced, IsWordChar, NameChar;
    var (c, rest) := ([Upper(s)[0]], s[1..]);
    SpacedMore(c, Words(rest));
    if Words(rest) == [] {
      SpacedNothing();
      NoWordsNoChars(rest);
    } else {
      Regroup(c, " ", Spaced(Words(rest)), Behind(rest));
    }
  }

  lemma {:induction false} NoWordsNoChars(s: string)
    requires Words(s) == []
    ensures forall i :: 0 <= i < |s| ==> !IsWordChar(s[i])
  {
    if s != [] {
      NoWordsNoChars(s[1..]);
    }
  }

  lemma {:induction false} WordChars(s: string)
    ensures forall w, i :: w in Words(s) && 0 <= i < |w| ==> NameChar(w[i])
  {
    if s != [] {
      WordChars(s[1..]);
      NameCharOfUpper(s[0]);
    }
  }

  lemma {:induction false} SpacedEnds(ws: seq<string>)
    requires ws != [] && (forall w :: w in ws ==> w != []) && forall w, i :: w in ws && 0 <= i < |w| ==> NameChar(w[i])
    ensures Spaced(ws) != [] && NameChar(Spaced(ws)[0]) && NameChar(Spaced(ws)[|Spaced(ws)| - 1])
  {
    assert ws[0] in ws && NameChar(ws[0][0]) && NameChar(ws[0][|ws[0]| - 1]);
    if |ws| > 1 {
      forall w | w in ws[1..] ensures w in ws {
      }
      SpacedEnds(ws[1..]);
    }
  }

  /** A normalised name is its words in capitals with one space between; a text without a word is none. So two names are
      one exactly when their words are. */
  lemma {:induction false} NormalisedNameIs(name: string)
    ensures NormaliseName(Some(name)) == if Words(name) == [] then None else Some(Spaced(Words(name)))
  {
    hide Upper, Collapse, Spaced, Words;
    CollapsedIs(name);
    var ws := Words(name);
    if ws == [] {
      SpacedNothing();
      assert Collapse(Upper(name)) == Before(name);
      assert Trim(" ") == Trim(" "[1..]) == "";
    } else {
      WordChars(name);
      SpacedEnds(ws);
      TrimDrops(Before(name), Spaced(ws), Behind(name));
    }
  }

  // ---------------------------------------------------------------- the claimants of a secId

  /** The observations with which security s claims secId sec. */
  ghost function Claims(h: History, s: Symbol, sec: SecId): set<Observation> {
    if s in h then set o | o in h[s] && o.sec == Some(sec) else {}
  }

  ghost function Claimants(h: History, sec: SecId): set<Symbol> {
    set s | s in h && Claims(h, s, sec) != {}
  }

  ghost function Codes(claims: set<Observation>): set<string> {
    set o | o in claims && IsinIssuerCode(o.isin).Some? :: IsinIssuerCode(o.isin).value
  }

  ghost function Names(claims: set<Observation>): set<string> {
    set o | o in claims && NormaliseName(o.name).Some? :: NormaliseName(o.name).value
  }

  datatype FailureKind = IsinCodeDiffers | NameDiffers | EvidenceInsufficient
  datatype Failure = Failure(kind: FailureKind, other: Symbol)

  /** _same_issuer on two identities: None when the evidence establishes one issuer. */
  function SameIssuer(codesA: set<string>, namesA: set<string>, codesB: set<string>, namesB: set<string>,
                      sameSecurity: bool): Option<FailureKind> {
    if codesA != {} && codesB != {} then
      if |codesA + codesB| == 1 then None else Some(IsinCodeDiffers)
    else if namesA != {} && namesB != {} then
      if |namesA + namesB| == 1 then None else Some(NameDiffers)
    else if sameSecurity then None else Some(EvidenceInsufficient)
  }

  ghost function PairFailure(h: History, sec: SecId, a: Symbol, b: Symbol): Option<FailureKind> {
    SameIssuer(Codes(Claims(h, a, sec)), Names(Claims(h, a, sec)), Codes(Claims(h, b, sec)), Names(Claims(h, b, sec)),
               a == b)
  }

  /** Every failure claimant s has, against every claimant, itself included. */
  ghost function FailuresOf(h: History, sec: SecId, s: Symbol): set<Failure> {
    set b | b in Claimants(h, sec) && PairFailure(h, sec, s, b).Some? :: Failure(PairFailure(h, sec, s, b).value, b)
  }

  ghost predicate Disputed(h: History, sec: SecId) {
    exists a, b :: a in Claimants(h, sec) && b in Claimants(h, sec) && PairFailure(h, sec, a, b).Some?
  }

  ghost function SecIds(h: History): set<SecId> {
    set s, o | s in h && o in h[s] && o.sec.Some? :: o.sec.value
  }

  type Dispute = map<Symbol, set<Failure>>

  ghost function DisputeOf(h: History, sec: SecId): Dispute {
    map s | s in Claimants(h, sec) :: FailuresOf(h, sec, s)
  }

  /** What disputed_sec_ids returns, as a function of the history's contents alone. */
  ghost function Disputes(h: History): map<SecId, Dispute> {
    map sec | sec in SecIds(h) && Disputed(h, sec) :: DisputeOf(h, sec)
  }

  lemma {:induction false} ClaimantsHaveSecId(h: History, sec: SecId)
    requires Claimants(h, sec) != {}
    ensures sec in SecIds(h)
  {
    var s :| s in Claimants(h, sec);
    var o :| o in Claims(h, s, sec);
    assert s in h && o in h[s] && o.sec.Some? && o.sec.value == sec;
  }

  /** The guard reads nothing but the claims: two histories with the same claims on a secId agree about it. */
  lemma {:induction false} SameClaimsSameDispute(h1: History, h2: History, sec: SecId)
    requires forall s :: Claims(h1, s, sec) == Claims(h2, s, sec)
    ensures Claimants(h1, sec) == Claimants(h2, sec)
    ensures Disputed(h1, sec) == Disputed(h2, sec)
    ensures DisputeOf(h1, sec) == DisputeOf(h2, sec)
    ensures sec in Disputes(h1) <==> sec in Disputes(h2)
  {
    forall s ensures s in Claimants(h1, sec) <==> s in Claimants(h2, sec) {
      assert Claims(h1, s, sec) == Claims(h2, s, sec);
      assert s in Claimants(h1, sec) ==> s in h1 && s in h2;
    }
    SamePairFailures(h1, h2, sec);
    if Disputed(h1, sec) || Disputed(h2, sec) {
      DisputedHasClaimants(h1, sec);
      DisputedHasClaimants(h2, sec);
    }
    forall s | s in Claimants(h1, sec) ensures FailuresOf(h1, sec, s) == FailuresOf(h2, sec, s) {
      forall b ensures PairFailure(h1, sec, s, b) == PairFailure(h2, sec, s, b) {
      }
    }
  }

  lemma {:induction false} SamePairFailures(h1: History, h2: History, sec: SecId)
    requires forall s :: Claims(h1, s, sec) == Claims(h2, s, sec)
    ensures forall a, b :: PairFailure(h1, sec, a, b) == PairFailure(h2, sec, a, b)
  {
    forall a, b ensures PairFailure(h1, sec, a, b) == PairFailure(h2, sec, a, b) {
      assert Claims(h1, a, sec) == Claims(h2, a, sec) && Claims(h1, b, sec) == Claims(h2, b, sec);
    }
  }

  lemma {:induction false} DisputedHasClaimants(h: History, sec: SecId)
    ensures Disputed(h, sec) ==> sec in SecIds(h)
  {
    if Disputed(h, sec) {
      ClaimantsHaveSecId(h, sec);
    }
  }

  // ---------------------------------------------------------------- the linear form of the guard

  ghost function AllCodes(h: History, sec: SecId): set<string> {
    set a, c | a in Claimants(h, sec) && c in Codes(Claims(h, a, sec)) :: c
  }

  ghost function AllNames(h: History, sec: SecId): set<string> {
    set a, n | a in Claimants(h, sec) && n in Names(Claims(h, a, sec)) :: n
  }

  ghost predicate EveryClaimantHasCode(h: History, sec: SecId) {
    forall a :: a in Claimants(h, sec) ==> Codes(Claims(h, a, sec)) != {}
  }

  ghost predicate EveryClaimantHasName(h: History, sec: SecId) {
    forall a :: a in Claimants(h, sec) ==> Names(Claims(h, a, sec)) != {}
  }

  lemma {:induction false} SingletonUnion<T>(a: set<T>, b: set<T>)
    requires a != {} && b != {}
    ensures |a + b| == 1 <==> a == b && |a| == 1
  {
    if |a + b| == 1 {
      var x :| x in a;
      SubsetOfSingleton(a, a + b);
      SubsetOfSingleton(b, a + b);
    } else if a == b {
      assert a + b == a;
    }
  }

  lemma {:induction false} SubsetOfSingleton<T>(a: set<T>, s: set<T>)
    requires a != {} && a <= s && |s| == 1
    ensures a == s && |a| == 1
  {
    var x :| x in a;
    assert |s - {x}| == 0;
    assert s == {x} && a == {x};
  }

  lemma {:induction false} SubsetSize<T>(a: set<T>, b: set<T>)
    requires a <= b
    ensures |a| <= |b|
  {
    assert |b - a| + |a| == |b| by { assert a + (b - a) == b; }
  }

  /** At most one value in a set is the same as any two members being equal. */
  lemma {:induction false} AtMostOne<T>(s: set<T>)
    ensures |s| <= 1 <==> forall x, y :: x in s && y in s ==> x == y
  {
    if |s| <= 1 {
      forall x, y | x in s && y in s ensures x == y {
        SubsetSize({x, y}, s);
      }
    } else {
      var x :| x in s;
      assert |s - {x}| >= 1;
      var y :| y in s - {x};
      assert x in s && y in s && x != y;
    }
  }

  /** When nothing is disputed, two claimants that both have codes carry the same single code; the same holds
      for names when one of them has no code. */
  lemma {:induction false} UndisputedPair(h: History, sec: SecId, a: Symbol, b: Symbol)
    requires !Disputed(h, sec) && a in Claimants(h, sec) && b in Claimants(h, sec)
    ensures var (ca, cb) := (Codes(Claims(h, a, sec)), Codes(Claims(h, b, sec)));
            ca != {} && cb != {} ==> ca == cb && |ca| == 1
    ensures var (ca, cb) := (Codes(Claims(h, a, sec)), Codes(Claims(h, b, sec)));
            var (na, nb) := (Names(Claims(h, a, sec)), Names(Claims(h, b, sec)));
            ca == {} || cb == {} ==>
                  (a != b ==> na != {} && nb != {}) && (na != {} && nb != {} ==> na == nb && |na| == 1)
  {
    assert PairFailure(h, sec, a, b).None?;
    var (ca, cb) := (Codes(Claims(h, a, sec)), Codes(Claims(h, b, sec)));
    var (na, nb) := (Names(Claims(h, a, sec)), Names(Claims(h, b, sec)));
    if ca != {} && cb != {} { SingletonUnion(ca, cb); }
    if na != {} && nb != {} { SingletonUnion(na, nb); }
  }

  ghost predicate OneCode(h: History, sec: SecId) {
    |AllCodes(h, sec)| <= 1
  }

  ghost predicate OneName(h: History, sec: SecId) {
    |AllNames(h, sec)| <= 1
  }

  lemma {:induction false} UndisputedIsUniform(h: History, sec: SecId)
    requires !Disputed(h, sec) && |Claimants(h, sec)| >= 2
    ensures OneCode(h, sec)
    ensures EveryClaimantHasCode(h, sec) || (EveryClaimantHasName(h, sec) && OneName(h, sec))
  {
    forall x, y | x in AllCodes(h, sec) && y in AllCodes(h, sec) ensures x == y {
      var a :| a in Claimants(h, sec) && x in Codes(Claims(h, a, sec));
      var b :| b in Claimants(h, sec) && y in Codes(Claims(h, b, sec));
      UndisputedPair(h, sec, a, b);
      AtMostOne(Codes(Claims(h, a, sec)));
    }
    AtMostOne(AllCodes(h, sec));
    if !EveryClaimantHasCode(h, sec) {
      var c :| c in Claimants(h, sec) && Codes(Claims(h, c, sec)) == {};
      UndisputedAgreesWith(h, sec, c);
    }
  }

  /** A claimant without a code forces every claimant to carry the one name it carries. */
  lemma {:induction false} UndisputedAgreesWith(h: History, sec: SecId, c: Symbol)
    requires !Disputed(h, sec) && |Claimants(h, sec)| >= 2
    requires c in Claimants(h, sec) && Codes(Claims(h, c, sec)) == {}
    ensures EveryClaimantHasName(h, sec) && OneName(h, sec)
  {
    var others := Claimants(h, sec) - {c};
    assert |others| >= 1;
    var d :| d in others;
    UndisputedPair(h, sec, c, d);
    forall a | a in Claimants(h, sec) ensures Names(Claims(h, a, sec)) == Names(Claims(h, c, sec)) != {} {
      UndisputedPair(h, sec, c, a);
    }
    forall x, y | x in AllNames(h, sec) && y in AllNames(h, sec) ensures x == y {
      AtMostOne(Names(Claims(h, c, sec)));
    }
    AtMostOne(AllNames(h, sec));
  }

  lemma {:induction false} UniformIsUndisputed(h: History, sec: SecId)
    requires OneCode(h, sec)
    requires EveryClaimantHasCode(h, sec) || (EveryClaimantHasName(h, sec) && OneName(h, sec))
    ensures !Disputed(h, sec)
  {
    forall a, b | a in Claimants(h, sec) && b in Claimants(h, sec) ensures PairFailure(h, sec, a, b).None? {
      UniformPairAgrees(h, sec, a, b);
    }
  }

  lemma {:induction false} UniformPairAgrees(h: History, sec: SecId, a: Symbol, b: Symbol)
    requires OneCode(h, sec) && a in Claimants(h, sec) && b in Claimants(h, sec)
    requires EveryClaimantHasCode(h, sec) || (EveryClaimantHasName(h, sec) && OneName(h, sec))
    ensures PairFailure(h, sec, a, b).None?
  {
    var (ca, cb) := (Codes(Claims(h, a, sec)), Codes(Claims(h, b, sec)));
    var (na, nb) := (Names(Claims(h, a, sec)), Names(Claims(h, b, sec)));
    if ca != {} && cb != {} {
      assert ca + cb <= AllCodes(h, sec);
      NonEmptyWithin(ca + cb, AllCodes(h, sec));
    } else {
      assert !EveryClaimantHasCode(h, sec);
      assert na + nb <= AllNames(h, sec);
      NonEmptyWithin(na + nb, AllNames(h, sec));
    }
  }

  lemma {:induction false} NonEmptyWithin<T>(a: set<T>, b: set<T>)
    requires a != {} && a <= b && |b| <= 1
    ensures |a| == 1
  {
    SubsetSize(a, b);
    assert |a| != 0;
  }

  /** The quadratic guard is a linear one: a secId with two or more claimants is undisputed exactly when all the
      codes seen form at most one code and either every claimant has a code, or every claimant has a name and
      all names seen are one name. */
  lemma {:induction false} ReuseGuardIsLinear(h: History, sec: SecId)
    requires |Claimants(h, sec)| >= 2
    ensures !Disputed(h, sec) <==>
            OneCode(h, sec) &&
            (EveryClaimantHasCode(h, sec) || (EveryClaimantHasName(h, sec) && OneName(h, sec)))
  {
    if !Disputed(h, sec) {
      UndisputedIsUniform(h, sec);
    }
    if OneCode(h, sec) && (EveryClaimantHasCode(h, sec) || (EveryClaimantHasName(h, sec) && OneName(h, sec))) {
      UniformIsUndisputed(h, sec);
    }
  }

  /** One claimant is disputed only against itself: it has two codes, or no code and two names. */
  lemma {:induction false} SoleClaimantGuard(h: History, sec: SecId, a: Symbol)
    requires Claimants(h, sec) == {a}
    ensures Disputed(h, sec) <==>
            |Codes(Claims(h, a, sec))| > 1 || (Codes(Claims(h, a, sec)) == {} && |Names(Claims(h, a, sec))| > 1)
  {
    var c, n := Codes(Claims(h, a, sec)), Names(Claims(h, a, sec));
    assert c + c == c && n + n == n;
    assert Disputed(h, sec) <==> PairFailure(h, sec, a, a).Some?;
    assert c != {} <==> |c| >= 1;
    assert n != {} <==> |n| >= 1;
  }

  // ---------------------------------------------------------------- the failures, from the observations

  /** Security s claims the secId with an observation that carries an issuer code. */
  ghost predicate HasCode(h: History, sec: SecId, s: Symbol) {
    exists o :: o in Claims(h, s, sec) && IsinIssuerCode(o.isin).Some?
  }

  ghost predicate HasName(h: History, sec: SecId, s: Symbol) {
    exists o :: o in Claims(h, s, sec) && NormaliseName(o.name).Some?
  }

  /** Every two of both securities' observations that carry a code carry the same one. */
  ghost predicate CodesAgree(h: History, sec: SecId, a: Symbol, b: Symbol) {
    var both := Claims(h, a, sec) + Claims(h, b, sec);
    forall o, p :: o in both && p in both && IsinIssuerCode(o.isin).Some? && IsinIssuerCode(p.isin).Some? ==>
      IsinIssuerCode(o.isin) == IsinIssuerCode(p.isin)
  }

  ghost predicate NamesAgree(h: History, sec: SecId, a: Symbol, b: Symbol) {
    var both := Claims(h, a, sec) + Claims(h, b, sec);
    forall o, p :: o in both && p in both && NormaliseName(o.name).Some? && NormaliseName(p.name).Some? ==>
      NormaliseName(o.name) == NormaliseName(p.name)
  }

  /** Two securities do not pass as one issuer, for this reason: codes are compared if both carry one, else names if
      both carry one, and without either two different securities are not told to be one issuer. */
  ghost predicate FailsBy(h: History, sec: SecId, a: Symbol, b: Symbol, kind: FailureKind) {
    var (codes, names) := (HasCode(h, sec, a) && HasCode(h, sec, b), HasName(h, sec, a) && HasName(h, sec, b));
    match kind
    case IsinCodeDiffers => codes && !CodesAgree(h, sec, a, b)
    case NameDiffers => !codes && names && !NamesAgree(h, sec, a, b)
    case EvidenceInsufficient => !codes && !names && a != b
  }

  lemma {:induction false} CodesAsObserved(h: History, sec: SecId, a: Symbol, b: Symbol)
    ensures var (ca, cb) := (Codes(Claims(h, a, sec)), Codes(Claims(h, b, sec)));
            (ca != {} <==> HasCode(h, sec, a)) && (ca != {} ==> (|ca + cb| == 1 <==> CodesAgree(h, sec, a, b)))
  {
    var (both, ca, cb) := (Claims(h, a, sec) + Claims(h, b, sec), Codes(Claims(h, a, sec)), Codes(Claims(h, b, sec)));
    if o :| o in Claims(h, a, sec) && IsinIssuerCode(o.isin).Some? {
      assert IsinIssuerCode(o.isin).value in ca;
    }
    forall o | o in both && IsinIssuerCode(o.isin).Some? ensures IsinIssuerCode(o.isin).value in ca + cb {
    }
    forall x | x in ca + cb ensures exists o :: o in both && IsinIssuerCode(o.isin) == Some(x) {
    }
    AtMostOne(ca + cb);
    OneOrMore(ca, cb);
  }

  lemma {:induction false} NamesAsObserved(h: History, sec: SecId, a: Symbol, b: Symbol)
    ensures var (na, nb) := (Names(Claims(h, a, sec)), Names(Claims(h, b, sec)));
            (na != {} <==> HasName(h, sec, a)) && (na != {} ==> (|na + nb| == 1 <==> NamesAgree(h, sec, a, b)))
  {
    var (both, na, nb) := (Claims(h, a, sec) + Claims(h, b, sec), Names(Claims(h, a, sec)), Names(Claims(h, b, sec)));
    if o :| o in Claims(h, a, sec) && NormaliseName(o.name).Some? {
      assert NormaliseName(o.name).value in na;
    }
    forall o | o in both && NormaliseName(o.name).Some? ensures NormaliseName(o.name).value in na + nb {
    }
    forall x | x in na + nb ensures exists o :: o in both && NormaliseName(o.name) == Some(x) {
    }
    AtMostOne(na + nb);
    OneOrMore(na, nb);
  }

  lemma {:induction false} OneOrMore<T>(a: set<T>, b: set<T>)
    ensures a != {} ==> |a + b| >= 1
  {
    assert a != {} ==> a + b != {};
  }

  /** _same_issuer, from the observations of the two securities alone: which failure it finds, if any. */
  lemma {:induction false} PairFailureIs(h: History, sec: SecId, a: Symbol, b: Symbol, kind: FailureKind)
    ensures PairFailure(h, sec, a, b) == Some(kind) <==> FailsBy(h, sec, a, b, kind)
  {
    CodesAsObserved(h, sec, a, b);
    CodesAsObserved(h, sec, b, a);
    NamesAsObserved(h, sec, a, b);
    NamesAsObserved(h, sec, b, a);
    hide Claims, Codes, Names, HasCode, HasName, CodesAgree, NamesAgree;
  }

  ghost predicate DisputedBy(h: History, sec: SecId, a: Symbol, b: Symbol, kind: FailureKind) {
    a in Claimants(h, sec) && b in Claimants(h, sec) && FailsBy(h, sec, a, b, kind)
  }

  /** The disputes, from the observations alone. */
  lemma {:induction false} DisputesAsObserved(h: History, sec: SecId)
    ensures sec in Disputes(h) <==> exists a, b, kind :: DisputedBy(h, sec, a, b, kind)
    ensures sec in Disputes(h) ==> Disputes(h)[sec].Keys == Claimants(h, sec)
    ensures sec in Disputes(h) ==>
              forall s, f :: s in Claimants(h, sec) ==>
                (f in Disputes(h)[sec][s] <==> DisputedBy(h, sec, s, f.other, f.kind))
  {
    hide FailsBy, PairFailure, Claimants, SecIds;
    DisputedHasClaimants(h, sec);
    forall a, b, kind ensures PairFailure(h, sec, a, b) == Some(kind) <==> FailsBy(h, sec, a, b, kind) {
      PairFailureIs(h, sec, a, b, kind);
    }
    if Disputed(h, sec) {
      var a, b :| a in Claimants(h, sec) && b in Claimants(h, sec) && PairFailure(h, sec, a, b).Some?;
      assert DisputedBy(h, sec, a, b, PairFailure(h, sec, a, b).value);
    }
    if a, b, kind :| DisputedBy(h, sec, a, b, kind) {
      assert PairFailure(h, sec, a, b) == Some(kind);
    }
  }

  // ---------------------------------------------------------------- what appending can and cannot undo

  ghost predicate Extends(h: History, more: History) {
    forall s, sec :: Claims(h, s, sec) <= Claims(more, s, sec)
  }

  /** A disagreement of ISIN issuer codes survives every append. */
  lemma {:induction false} IsinDisagreementIsPermanent(h: History, more: History, sec: SecId, a: Symbol, b: Symbol)
    requires Extends(h, more) && a in Claimants(h, sec) && b in Claimants(h, sec)
    requires PairFailure(h, sec, a, b) == Some(IsinCodeDiffers)
    ensures a in Claimants(more, sec) && b in Claimants(more, sec)
    ensures PairFailure(more, sec, a, b) == Some(IsinCodeDiffers) && Disputed(more, sec)
  {
    assert Claims(h, a, sec) <= Claims(more, a, sec) && Claims(h, b, sec) <= Claims(more, b, sec);
    var (ca, cb) := (Codes(Claims(h, a, sec)), Codes(Claims(h, b, sec)));
    var (da, db) := (Codes(Claims(more, a, sec)), Codes(Claims(more, b, sec)));
    assert ca <= da && cb <= db && ca + cb <= da + db;
    SubsetSize(ca + cb, da + db);
    assert |ca + cb| != 0;
  }

  ghost predicate HasIsinDisagreement(h: History, sec: SecId) {
    exists a, b :: a in Claimants(h, sec) && b in Claimants(h, sec)
        && PairFailure(h, sec, a, b) == Some(IsinCodeDiffers)
  }

  const SAMPLE_ISIN := "LK0000N00000"

  lemma {:induction false} SampleCode()
    ensures IsinIssuerCode(Some(SAMPLE_ISIN)) == Some("0000")
  {
    hide IsinIssuerCode;
    CodeOfShape(SAMPLE_ISIN);
    assert SAMPLE_ISIN[2..6] == "0000";
  }

  lemma {:induction false} CodeOfShape(s: string)
    requires |s| == 12 && s[0] == 'L' && s[1] == 'K' && (forall i :: 2 <= i < 6 ==> Digit(s[i])) && 'A' <= s[6] <= 'Z'
    requires forall i :: 7 <= i < 12 ==> Digit(s[i])
    ensures IsinIssuerCode(Some(s)) == Some(s[2..6])
  {
    UpperOfUpper(s);
    assert Trim(s) == s;
    assert s[..2] == "LK";
  }

  lemma {:induction false} UpperOfUpper(s: string)
    requires forall i :: 0 <= i < |s| ==> !('a' <= s[i] <= 'z')
    ensures Upper(s) == s
  {
    if s != [] {
      UpperOfUpper(s[1..]);
    }
  }

  /** The history in which every claimant of sec is observed once more, with the given ISIN. */
  ghost function WithIsin(h: History, sec: SecId, isin: string): History {
    map s | s in h :: if s in Claimants(h, sec) then h[s] + [Observation(0, Some(s), Some(sec), Some(isin), None)]
        else h[s]
  }

  lemma {:induction false} WithIsinClaims(h: History, sec: SecId, isin: string, s: Symbol, other: SecId)
    ensures var extra := Observation(0, Some(s), Some(sec), Some(isin), None);
            Claims(WithIsin(h, sec, isin), s, other) ==
            Claims(h, s, other) + (if other == sec && s in Claimants(h, sec) then {extra} else {})
  {
  }

  /** Without an ISIN disagreement the codes seen are at most one code. */
  lemma {:induction false} NoDisagreementOneCode(h: History, sec: SecId)
    requires !HasIsinDisagreement(h, sec)
    ensures OneCode(h, sec)
  {
    forall x, y | x in AllCodes(h, sec) && y in AllCodes(h, sec) ensures x == y {
      var a :| a in Claimants(h, sec) && x in Codes(Claims(h, a, sec));
      var b :| b in Claimants(h, sec) && y in Codes(Claims(h, b, sec));
      assert PairFailure(h, sec, a, b) != Some(IsinCodeDiffers);
      SingletonUnion(Codes(Claims(h, a, sec)), Codes(Claims(h, b, sec)));
      AtMostOne(Codes(Claims(h, a, sec)));
    }
    AtMostOne(AllCodes(h, sec));
  }

  /** An ISIN whose code does not disagree with any code already seen. */
  lemma {:induction false} CompatibleIsin(h: History, sec: SecId) returns (isin: string)
    requires OneCode(h, sec)
    ensures IsinIssuerCode(Some(isin)).Some?
    ensures AllCodes(h, sec) <= {IsinIssuerCode(Some(isin)).value}
  {
    if AllCodes(h, sec) == {} {
      SampleCode();
      isin := SAMPLE_ISIN;
    } else {
      var c :| c in AllCodes(h, sec);
      var a :| a in Claimants(h, sec) && c in Codes(Claims(h, a, sec));
      var o :| o in Claims(h, a, sec) && IsinIssuerCode(o.isin) == Some(c);
      AtMostOne(AllCodes(h, sec));
      if o.isin == None { NoIsinNoCode(); }
      isin := o.isin.value;
    }
  }

  lemma {:induction false} NoIsinNoCode()
    ensures IsinIssuerCode(None) == None
  {
    assert Trim("") == "" && Upper("") == "";
  }

  lemma {:induction false} CodesClearTheDispute(h: History, sec: SecId, isin: string)
    requires IsinIssuerCode(Some(isin)).Some? && AllCodes(h, sec) <= {IsinIssuerCode(Some(isin)).value}
    ensures Extends(h, WithIsin(h, sec, isin)) && !Disputed(WithIsin(h, sec, isin), sec)
  {
    var more, code := WithIsin(h, sec, isin), IsinIssuerCode(Some(isin)).value;
    forall s, other ensures Claims(h, s, other) <= Claims(more, s, other) {
      WithIsinClaims(h, sec, isin, s, other);
    }
    forall s ensures s in Claimants(more, sec) <==> s in Claimants(h, sec) {
      WithIsinClaims(h, sec, isin, s, sec);
    }
    forall a | a in Claimants(more, sec) ensures Codes(Claims(more, a, sec)) == {code} {
      WithIsinClaims(h, sec, isin, a, sec);
      var extra := Observation(0, Some(a), Some(sec), Some(isin), None);
      assert extra in Claims(more, a, sec);
      forall c | c in Codes(Claims(more, a, sec)) ensures c == code {
        assert c == code || c in Codes(Claims(h, a, sec));
        assert c in Codes(Claims(h, a, sec)) ==> c in AllCodes(h, sec);
      }
    }
    AtMostOne(AllCodes(more, sec));
    UniformIsUndisputed(more, sec);
  }

  /** Exactly which disputes are permanent. The module describes a dispute as irrevocable; it is, for every
      append of observations, if and only if two claimants carry different ISIN issuer codes. */
  lemma {:induction false} PermanentDisputes(h: History, sec: SecId)
    ensures (forall more :: Extends(h, more) ==> Disputed(more, sec)) <==> HasIsinDisagreement(h, sec)
  {
    if HasIsinDisagreement(h, sec) {
      var a, b :| a in Claimants(h, sec) && b in Claimants(h, sec)
      && PairFailure(h, sec, a, b) == Some(IsinCodeDiffers);
      forall more | Extends(h, more) ensures Disputed(more, sec) {
        IsinDisagreementIsPermanent(h, more, sec, a, b);
      }
    } else {
      NoDisagreementOneCode(h, sec);
      var isin := CompatibleIsin(h, sec);
      CodesClearTheDispute(h, sec, isin);
    }
  }

  /** A concrete dispute that reverts: two securities share a secId with nothing to compare, and a later ISIN on
      each settles it. */
  lemma {:induction false} InsufficiencyDisputeReverts()
    ensures var h: History := map["A" := [Observation(1, Some("A"), Some(SecId(7)), None, None)],
                                  "B" := [Observation(2, Some("B"), Some(SecId(7)), None, None)]];
            Disputed(h, SecId(7)) && exists more :: Extends(h, more) && !Disputed(more, SecId(7))
  {
    var a, b := Observation(1, Some("A"), Some(SecId(7)), None, None),
        Observation(2, Some("B"), Some(SecId(7)), None, None);
    var h: History := map["A" := [a], "B" := [b]];
    NoIsinNoCode();
    NoNameNoName();
    assert a in Claims(h, "A", SecId(7)) && b in Claims(h, "B", SecId(7));
    assert Claims(h, "A", SecId(7)) == {a} && Claims(h, "B", SecId(7)) == {b};
    assert Codes({a}) == {} && Codes({b}) == {} && Names({a}) == {} && Names({b}) == {};
    assert PairFailure(h, SecId(7), "A", "B") == Some(EvidenceInsufficient);
    forall c ensures c !in AllCodes(h, SecId(7)) {
      assert forall s :: s in h ==> s == "A" || s == "B";
    }
    SampleCode();
    CodesClearTheDispute(h, SecId(7), SAMPLE_ISIN);
  }

  lemma {:induction false} NoNameNoName()
    ensures NormaliseName(None) == None
  {
    assert Upper("") == "" && Collapse("") == "" && Trim("") == "";
  }

  // ---------------------------------------------------------------- disputed_sec_ids, as it runs

  function Identity(obs: seq<Observation>): (set<string>, set<string>) {
    (set o | o in obs && IsinIssuerCode(o.isin).Some? :: IsinIssuerCode(o.isin).value,
     set o | o in obs && NormaliseName(o.name).Some? :: NormaliseName(o.name).value)
  }

  function Kind(ident: map<Symbol, (set<string>, set<string>)>, a: Symbol, b: Symbol): Option<FailureKind>
    requires a in ident && b in ident
  {
    SameIssuer(ident[a].0, ident[a].1, ident[b].0, ident[b].1, a == b)
  }

  lemma {:induction false} KindIsSymmetric(ident: map<Symbol, (set<string>, set<string>)>, a: Symbol, b: Symbol)
    requires a in ident && b in ident
    ensures Kind(ident, a, b) == Kind(ident, b, a)
  {
    assert ident[a].0 + ident[b].0 == ident[b].0 + ident[a].0;
    assert ident[a].1 + ident[b].1 == ident[b].1 + ident[a].1;
  }

  /** The keys of a dictionary, in some order, each once. */
  method Listed<T(==)>(keys: set<T>) returns (s: seq<T>)
    ensures forall x :: x in s <==> x in keys
    ensures forall i, j :: 0 <= i < j < |s| ==> s[i] != s[j]
  {
    s := [];
    var rest := keys;
    while rest != {}
      invariant rest <= keys
      invariant forall x :: x in s <==> x in keys && x !in rest
      invariant forall i, j :: 0 <= i < j < |s| ==> s[i] != s[j]
      decreases rest
    {
      var x :| x in rest;
      s, rest := s + [x], rest - {x};
    }
  }

  /** The claimants found so far are exactly those of the part of the history read so far. */
  ghost predicate GroupedClaims(claimants: map<SecId, map<Symbol, seq<Observation>>>, h: History) {
    && claimants.Keys == SecIds(h)
    && forall sec :: sec in claimants ==> GroupedFor(claimants[sec], h, sec)
  }

  ghost predicate GroupedFor(ev: map<Symbol, seq<Observation>>, h: History, sec: SecId) {
    && ev.Keys == Claimants(h, sec)
    && forall s :: s in ev ==> (forall o :: o in ev[s] <==> o in Claims(h, s, sec))
  }

  /** What reading one more observation of security s adds to the claims. */
  lemma {:induction false} ClaimsOneMore(h: History, s: Symbol, read: seq<Observation>, o: Observation, t: Symbol,
                                         sec: SecId)
    requires s in h && h[s] == read
    ensures Claims(h[s := read + [o]], t, sec) == Claims(h, t, sec) + (if t == s && o.sec == Some(sec) then {o} else {})
  {
  }

  lemma {:induction false} GroupIgnores(claimants: map<SecId, map<Symbol, seq<Observation>>>, h: History, more: History)
    requires GroupedClaims(claimants, h) && forall t, sec :: Claims(more, t, sec) == Claims(h, t, sec)
    ensures GroupedClaims(claimants, more)
  {
    hide Claims;
    forall sec ensures sec in SecIds(more) <==> sec in SecIds(h) {
      SecIdsByClaims(h, sec);
      SecIdsByClaims(more, sec);
    }
    forall sec | sec in claimants ensures GroupedFor(claimants[sec], more, sec) {
      assert GroupedFor(claimants[sec], h, sec);
      SameClaimsSameDispute(h, more, sec);
    }
  }

  ghost predicate TakesOne(h: History, more: History, s: Symbol, sec: SecId, o: Observation) {
    forall t, other :: Claims(more, t, other) == Claims(h, t, other) + (if t == s && other == sec then {o} else {})
  }

  lemma {:induction false} SecIdsTakeOne(h: History, more: History, s: Symbol, sec: SecId, o: Observation)
    requires TakesOne(h, more, s, sec, o)
    ensures SecIds(more) == SecIds(h) + {sec}
  {
    hide Claims, Claimants, SecIds;
    forall other ensures other in SecIds(more) <==> other in SecIds(h) || other == sec {
      SecIdsByClaims(h, other);
      SecIdsByClaims(more, other);
      assert other == sec ==> o in Claims(more, s, other);
      assert other != sec ==> forall t :: Claims(more, t, other) == Claims(h, t, other);
    }
  }

  lemma {:induction false} GroupTakes(claimants: map<SecId, map<Symbol, seq<Observation>>>, h: History, more: History,
                                      s: Symbol, sec: SecId, o: Observation)
    requires GroupedClaims(claimants, h) && TakesOne(h, more, s, sec, o)
    ensures var ev := if sec in claimants then claimants[sec] else map[];
            GroupedClaims(claimants[sec := ev[s := (if s in ev then ev[s] else []) + [o]]], more)
  {
    var ev := if sec in claimants then claimants[sec] else map[];
    SecIdsTakeOne(h, more, s, sec, o);
    forall other | other in claimants && other != sec ensures GroupedFor(claimants[other], more, other) {
      OtherSecIdUntouched(claimants[other], h, more, s, sec, o, other);
    }
    assert GroupedFor(ev, h, sec) by {
      SecIdsByClaims(h, sec);
      assert sec in claimants ==> GroupedFor(claimants[sec], h, sec);
    }
    hide GroupedFor, Claims, Claimants, SecIds, TakesOne;
    assert forall t :: Claims(more, t, sec) == Claims(h, t, sec) + (if t == s then {o} else {}) by {
      ClaimsOfTaker(h, more, s, sec, o);
    }
    GroupedForTakes(ev, h, more, s, sec, o);
  }

  lemma {:induction false} ClaimsOfTaker(h: History, more: History, s: Symbol, sec: SecId, o: Observation)
    requires TakesOne(h, more, s, sec, o)
    ensures forall t :: Claims(more, t, sec) == Claims(h, t, sec) + (if t == s then {o} else {})
  {
    hide Claims;
  }

  lemma {:induction false} OtherSecIdUntouched(ev: map<Symbol, seq<Observation>>, h: History, more: History, s: Symbol,
                                               sec: SecId, o: Observation, other: SecId)
    requires GroupedFor(ev, h, other) && TakesOne(h, more, s, sec, o) && other != sec
    ensures GroupedFor(ev, more, other)
  {
    hide Claims;
    assert forall t :: Claims(more, t, other) == Claims(h, t, other);
    SameClaimsSameDispute(h, more, other);
  }

  lemma {:induction false} GroupedForTakes(ev: map<Symbol, seq<Observation>>, h: History, more: History, s: Symbol,
                                           sec: SecId, o: Observation)
    requires GroupedFor(ev, h, sec)
    requires forall t :: Claims(more, t, sec) == Claims(h, t, sec) + (if t == s then {o} else {})
    ensures GroupedFor(ev[s := (if s in ev then ev[s] else []) + [o]], more, sec)
  {
    forall t ensures t in Claimants(more, sec) <==> t in Claimants(h, sec) || t == s {
      assert Claims(more, t, sec) == Claims(h, t, sec) + (if t == s then {o} else {});
    }
  }

  /** One observation read: grouped under its secId when it carries one, otherwise ignored. */
  method ReadOne(claimants: map<SecId, map<Symbol, seq<Observation>>>, ghost h: History, s: Symbol,
                 ghost read: seq<Observation>, o: Observation)
    returns (after: map<SecId, map<Symbol, seq<Observation>>>)
    requires s in h && h[s] == read && GroupedClaims(claimants, h)
    ensures GroupedClaims(after, h[s := read + [o]])
  {
    forall t, sec
      ensures Claims(h[s := read + [o]], t, sec) == Claims(h, t, sec)
              + (if t == s && o.sec == Some(sec) then {o} else {})
    {
      ClaimsOneMore(h, s, read, o, t, sec);
    }
    hide GroupedClaims, Claims;
    after := claimants;
    if o.sec.Some? {
      var sec := o.sec.value;
      var ev := if sec in claimants then claimants[sec] else map[];
      after := claimants[sec := ev[s := (if s in ev then ev[s] else []) + [o]]];
      GroupTakes(claimants, h, h[s := read + [o]], s, sec, o);
    } else {
      GroupIgnores(claimants, h, h[s := read + [o]]);
    }
  }

  lemma {:induction false} SecIdsByClaims(h: History, sec: SecId)
    ensures sec in SecIds(h) <==> Claimants(h, sec) != {}
    ensures sec in SecIds(h) <==> exists s :: Claims(h, s, sec) != {}
  {
    if sec in SecIds(h) {
      var s, o :| s in h && o in h[s] && o.sec.Some? && o.sec.value == sec;
      assert o in Claims(h, s, sec) && s in Claimants(h, sec);
    }
    if s :| Claims(h, s, sec) != {} {
      assert s in Claimants(h, sec);
      ClaimantsHaveSecId(h, sec);
    }
  }

  lemma {:induction false} NothingRead()
    ensures GroupedClaims(map[], map[])
  {
  }

  method GroupClaims(h: History) returns (claimants: map<SecId, map<Symbol, seq<Observation>>>)
    ensures GroupedClaims(claimants, h)
  {
    hide GroupedClaims;
    claimants := map[];
    var symbols := Listed(h.Keys);
    NothingRead();
    ghost var read: History := map[];
    for i := 0 to |symbols|
      invariant read == map s | s in symbols[..i] :: h[s]
      invariant GroupedClaims(claimants, read)
    {
      var s := symbols[i];
      var obs := h[s];
      var before := read;
      read := read[s := []];
      StartSymbol(claimants, before, s);
      for j := 0 to |obs|
        invariant read == before[s := obs[..j]]
        invariant GroupedClaims(claimants, read)
      {
        claimants := ReadOne(claimants, read, s, obs[..j], obs[j]);
        assert obs[..j + 1] == obs[..j] + [obs[j]];
        assert read[s := obs[..j] + [obs[j]]] == before[s := obs[..j + 1]];
        read := before[s := obs[..j + 1]];
      }
      assert obs[..|obs|] == obs;
      assert symbols[..i + 1] == symbols[..i] + [s];
    }
    assert symbols[..|symbols|] == symbols;
    assert read == h;
  }

  lemma {:induction false} StartSymbol(claimants: map<SecId, map<Symbol, seq<Observation>>>, h: History, s: Symbol)
    requires GroupedClaims(claimants, h) && s !in h
    ensures GroupedClaims(claimants, h[s := []])
  {
    forall t, sec ensures Claims(h[s := []], t, sec) == Claims(h, t, sec) {
    }
    GroupIgnores(claimants, h, h[s := []]);
  }

  /** Whether the pair of positions x, y has been compared once the loops reached (i, j). */
  predicate Compared(x: nat, y: nat, i: nat, j: nat) {
    if x <= y then x < i || (x == i && y < j) else y < i || (y == i && x < j)
  }

  type Identities = map<Symbol, (set<string>, set<string>)>

  ghost predicate AllKnown(symbols: seq<Symbol>, ident: Identities) {
    && (forall x :: 0 <= x < |symbols| ==> symbols[x] in ident)
    && (forall x, y :: 0 <= x < y < |symbols| ==> symbols[x] != symbols[y])
  }

  /** The failure of one ordered pair, if any. */
  function PairOf(symbols: seq<Symbol>, ident: Identities, x: nat, y: nat): set<Failure>
    requires x < |symbols| && y < |symbols| && symbols[x] in ident && symbols[y] in ident
  {
    var kind := Kind(ident, symbols[x], symbols[y]);
    if kind.Some? then {Failure(kind.value, symbols[y])} else {}
  }

  ghost function RowFailures(symbols: seq<Symbol>, ident: Identities, x: nat, i: nat, j: nat): set<Failure>
    requires AllKnown(symbols, ident) && x < |symbols|
  {
    set y: nat, f | y < |symbols| && Compared(x, y, i, j) && f in PairOf(symbols, ident, x, y) :: f
  }

  ghost predicate FailuresSoFar(symbols: seq<Symbol>, ident: Identities, failures: Dispute, i: nat, j: nat)
    requires AllKnown(symbols, ident)
  {
    && (forall s :: s in failures <==> s in symbols)
    && forall x: nat :: x < |symbols| ==> failures[symbols[x]] == RowFailures(symbols, ident, x, i, j)
  }

  lemma {:induction false} ComparedOneMore(x: nat, y: nat, i: nat, j: nat)
    requires i <= j
    ensures Compared(x, y, i, j + 1) <==> Compared(x, y, i, j) || (x == i && y == j) || (x == j && y == i)
  {
  }

  lemma {:induction false} RowOneMore(symbols: seq<Symbol>, ident: Identities, x: nat, i: nat, j: nat)
    requires AllKnown(symbols, ident) && x < |symbols| && i <= j < |symbols|
    ensures RowFailures(symbols, ident, x, i, j + 1) ==
            RowFailures(symbols, ident, x, i, j)
            + (if x == i then PairOf(symbols, ident, i, j) else {})
                + (if x == j then PairOf(symbols, ident, j, i) else {})
  {
    hide PairOf;
    forall y: nat
      ensures Compared(x, y, i, j + 1) <==> Compared(x, y, i, j) || (x == i && y == j) || (x == j && y == i)
    {
      ComparedOneMore(x, y, i, j);
    }
  }

  lemma {:induction false} RowNext(symbols: seq<Symbol>, ident: Identities, x: nat, i: nat)
    requires AllKnown(symbols, ident) && x < |symbols| && i < |symbols|
    ensures RowFailures(symbols, ident, x, i, |symbols|) == RowFailures(symbols, ident, x, i + 1, i + 1)
  {
    hide PairOf;
    assert forall y: nat :: y < |symbols| ==> (Compared(x, y, i, |symbols|) <==> Compared(x, y, i + 1, i + 1));
  }

  /** Row x after comparing the pair (i, j). */
  function WithPair(symbols: seq<Symbol>, ident: Identities, failures: Dispute, i: nat, j: nat, x: nat): set<Failure>
    requires i < |symbols| && j < |symbols| && x < |symbols| && symbols[x] in failures
    requires symbols[i] in ident && symbols[j] in ident
  {
    failures[symbols[x]] + (if x == i then PairOf(symbols, ident, i, j) else {})
                         + (if x == j then PairOf(symbols, ident, j, i) else {})
  }

  lemma {:induction false} CompareOneMore(symbols: seq<Symbol>, ident: Identities, failures: Dispute, after: Dispute,
                                          i: nat, j: nat)
    requires AllKnown(symbols, ident) && i <= j < |symbols| && FailuresSoFar(symbols, ident, failures, i, j)
    requires after.Keys == failures.Keys
    requires forall x: nat :: x < |symbols| ==> after[symbols[x]] == WithPair(symbols, ident, failures, i, j, x)
    ensures FailuresSoFar(symbols, ident, after, i, j + 1)
  {
    hide RowFailures, PairOf;
    forall x: nat | x < |symbols| ensures after[symbols[x]] == RowFailures(symbols, ident, x, i, j + 1) {
      RowOneMore(symbols, ident, x, i, j);
    }
  }

  /** One comparison of the inner loop: the kind, when there is one, is recorded on both sides. */
  method ComparePair(symbols: seq<Symbol>, ident: Identities, failures: Dispute, i: nat, j: nat)
    returns (after: Dispute)
    requires AllKnown(symbols, ident) && i <= j < |symbols| && FailuresSoFar(symbols, ident, failures, i, j)
    ensures FailuresSoFar(symbols, ident, after, i, j + 1)
  {
    var a, b := symbols[i], symbols[j];
    KindIsSymmetric(ident, a, b);
    hide RowFailures, SameIssuer;
    var kind := Kind(ident, a, b);
    after := failures;
    if kind.Some? {
      after := after[a := after[a] + {Failure(kind.value, b)}];
      after := after[b := after[b] + {Failure(kind.value, a)}];
    }
    CompareOneMore(symbols, ident, failures, after, i, j);
  }

  /** The double loop over one secId's claimants. */
  method CompareClaimants(ev: map<Symbol, seq<Observation>>, ghost h: History, ghost sec: SecId)
    returns (failures: Dispute, any: bool)
    requires GroupedFor(ev, h, sec)
    ensures failures == DisputeOf(h, sec)
    ensures any <==> Disputed(h, sec)
  {
    hide Identity, Kind, FailuresSoFar, GroupedFor;
    var symbols := Listed(ev.Keys);
    var ident := map s | s in ev :: Identity(ev[s]);
    failures := map s | s in ev :: {};
    NothingCompared(symbols, ident, failures);
    for i := 0 to |symbols|
      invariant FailuresSoFar(symbols, ident, failures, i, i)
    {
      for j := i to |symbols|
        invariant FailuresSoFar(symbols, ident, failures, i, j)
      {
        failures := ComparePair(symbols, ident, failures, i, j);
      }
      RowsNext(symbols, ident, failures, i);
    }
    AllCompared(symbols, ident, failures, ev, h, sec);
    any := exists s :: s in failures && failures[s] != {};
  }

  lemma {:induction false} RowsNext(symbols: seq<Symbol>, ident: Identities, failures: Dispute, i: nat)
    requires AllKnown(symbols, ident) && i < |symbols| && FailuresSoFar(symbols, ident, failures, i, |symbols|)
    ensures FailuresSoFar(symbols, ident, failures, i + 1, i + 1)
  {
    hide RowFailures;
    forall x: nat | x < |symbols| ensures failures[symbols[x]] == RowFailures(symbols, ident, x, i + 1, i + 1) {
      RowNext(symbols, ident, x, i);
    }
  }

  lemma {:induction false} NothingCompared(symbols: seq<Symbol>, ident: Identities, failures: Dispute)
    requires AllKnown(symbols, ident)
    requires (forall s :: s in failures <==> s in symbols) && forall s :: s in failures ==> failures[s] == {}
    ensures FailuresSoFar(symbols, ident, failures, 0, 0)
  {
  }

  lemma {:induction false} AllCompared(symbols: seq<Symbol>, ident: Identities, failures: Dispute,
                                       ev: map<Symbol, seq<Observation>>, h: History, sec: SecId)
    requires AllKnown(symbols, ident) && GroupedFor(ev, h, sec) && (forall x :: x in symbols <==> x in ev)
    requires ident == map s | s in ev :: Identity(ev[s])
    requires FailuresSoFar(symbols, ident, failures, |symbols|, |symbols|)
    ensures failures == DisputeOf(h, sec)
    ensures (exists s :: s in failures && failures[s] != {}) <==> Disputed(h, sec)
  {
    forall x: nat | x < |symbols| ensures failures[symbols[x]] == FailuresOf(h, sec, symbols[x]) {
      CompleteRow(symbols, ident, ev, h, sec, x);
    }
    hide RowFailures, FailuresOf, GroupedFor;
    forall s | s in failures ensures failures[s] == FailuresOf(h, sec, s) {
      var x: nat :| x < |symbols| && symbols[x] == s;
    }
    assert failures.Keys == Claimants(h, sec) by {
      FailureKeys(ev, h, sec);
    }
    SomeFailure(h, sec);
  }

  lemma {:induction false} FailureKeys(ev: map<Symbol, seq<Observation>>, h: History, sec: SecId)
    requires GroupedFor(ev, h, sec)
    ensures ev.Keys == Claimants(h, sec)
  {
  }

  lemma {:induction false} SomeFailure(h: History, sec: SecId)
    ensures Disputed(h, sec) <==> exists s :: s in Claimants(h, sec) && FailuresOf(h, sec, s) != {}
  {
    if Disputed(h, sec) {
      var a, b :| a in Claimants(h, sec) && b in Claimants(h, sec) && PairFailure(h, sec, a, b).Some?;
      assert Failure(PairFailure(h, sec, a, b).value, b) in FailuresOf(h, sec, a);
    }
    if s :| s in Claimants(h, sec) && FailuresOf(h, sec, s) != {} {
      var f :| f in FailuresOf(h, sec, s);
      assert PairFailure(h, sec, s, f.other).Some?;
    }
  }

  lemma {:induction false} CompleteRow(symbols: seq<Symbol>, ident: Identities, ev: map<Symbol, seq<Observation>>,
                                       h: History, sec: SecId, x: nat)
    requires AllKnown(symbols, ident) && GroupedFor(ev, h, sec) && (forall s :: s in symbols <==> s in ev)
    requires ident == map s | s in ev :: Identity(ev[s])
    requires x < |symbols|
    ensures RowFailures(symbols, ident, x, |symbols|, |symbols|) == FailuresOf(h, sec, symbols[x])
  {
    var a := symbols[x];
    forall b | b in ev ensures Kind(ident, a, b) == PairFailure(h, sec, a, b) {
      IdentityOfClaims(ev[a], Claims(h, a, sec));
      IdentityOfClaims(ev[b], Claims(h, b, sec));
    }
    hide Kind, PairFailure, Identity;
    var row := RowFailures(symbols, ident, x, |symbols|, |symbols|);
    forall f ensures f in row <==> f in FailuresOf(h, sec, a) {
      if f in FailuresOf(h, sec, a) {
        var y: nat :| y < |symbols| && symbols[y] == f.other;
        assert Compared(x, y, |symbols|, |symbols|) && f in PairOf(symbols, ident, x, y);
      }
      if f in row {
        var y: nat :| y < |symbols| && f in PairOf(symbols, ident, x, y);
        assert symbols[y] in ev && f == Failure(PairFailure(h, sec, a, symbols[y]).value, symbols[y]);
      }
    }
  }

  lemma {:induction false} IdentityOfClaims(obs: seq<Observation>, claims: set<Observation>)
    requires forall o :: o in obs <==> o in claims
    ensures Identity(obs).0 == Codes(claims) && Identity(obs).1 == Names(claims)
  {
  }

  /** disputed_sec_ids: whatever order the dictionary and its lists are read in, the result is the disputes of
      the history's contents. */
  method DisputedSecIds(h: History) returns (out: map<SecId, Dispute>)
    ensures out == Disputes(h)
    ensures forall sec :: sec in out <==> exists a, b, kind :: DisputedBy(h, sec, a, b, kind)
    ensures forall sec :: sec in out ==> out[sec].Keys == Claimants(h, sec)
    ensures forall sec, s, f :: sec in out && s in out[sec] ==>
              (f in out[sec][s] <==> DisputedBy(h, sec, s, f.other, f.kind))
  {
    hide GroupedFor, DisputeOf, Disputed, DisputedBy, Claimants, SecIds, Disputes;
    var claimants := GroupClaims(h);
    var secs := Listed(claimants.Keys);
    out := map[];
    for i := 0 to |secs|
      invariant forall sec :: sec in out <==> sec in secs[..i] && Disputed(h, sec)
      invariant forall sec :: sec in out ==> out[sec] == DisputeOf(h, sec)
    {
      var sec := secs[i];
      var failures, any := CompareClaimants(claimants[sec], h, sec);
      if any {
        out := out[sec := failures];
      }
      assert secs[..i + 1] == secs[..i] + [sec];
    }
    assert secs[..|secs|] == secs;
    CompleteDisputes(h, out);
    forall sec
      ensures sec in out <==> exists a, b, kind :: DisputedBy(h, sec, a, b, kind)
      ensures sec in out ==> out[sec].Keys == Claimants(h, sec)
      ensures sec in out ==>
                forall s, f :: s in out[sec] ==> (f in out[sec][s] <==> DisputedBy(h, sec, s, f.other, f.kind))
    {
      DisputesAsObserved(h, sec);
    }
  }

  lemma {:induction false} CompleteDisputes(h: History, out: map<SecId, Dispute>)
    requires forall sec :: sec in out <==> sec in SecIds(h) && Disputed(h, sec)
    requires forall sec :: sec in out ==> out[sec] == DisputeOf(h, sec)
    ensures out == Disputes(h)
  {
    hide DisputeOf, Disputed, SecIds;
    var all := Disputes(h);
    assert out.Keys == all.Keys;
    forall sec | sec in out ensures out[sec] == all[sec] {
    }
  }

  /** The order of a security's observations never matters. */
  lemma {:induction false} ObservationOrderIsIrrelevant(h1: History, h2: History)
    requires h1.Keys == h2.Keys && forall s :: s in h1 ==> multiset(h1[s]) == multiset(h2[s])
    ensures Disputes(h1) == Disputes(h2)
  {
    forall s, sec ensures Claims(h1, s, sec) == Claims(h2, s, sec) {
      if s in h1 {
        forall o ensures o in h1[s] <==> o in h2[s] {
          assert o in multiset(h1[s]) <==> o in multiset(h2[s]);
        }
      }
    }
    forall sec ensures sec in Disputes(h1) <==> sec in Disputes(h2) {
      SameClaimsSameDispute(h1, h2, sec);
    }
    forall sec | sec in Disputes(h1) ensures Disputes(h1)[sec] == Disputes(h2)[sec] {
      SameClaimsSameDispute(h1, h2, sec);
    }
  }
}
