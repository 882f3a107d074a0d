// Stage F1's filing store (worker/report_discovery.py and worker/report_filings_store.py): an append-only
// versioned store whose merged row is a function of the current versions, implemented twice.
module FilingStore {
  import opened Prelude

  // ---------------------------------------------------------------- listing entries

  /** A JSON scalar of a listing entry. */
  datatype Value = Null | Flag(b: bool) | Number(n: int) | Str(s: string) | Structured(json: string)

  /** A raw listing entry. */
  type Item = map<string, Value>

  const HASH_FIELDS :=
    {"id", "path", "path2", "manualDate", "uploadedDate", "authorizedDate", "fileText", "name", "symbol"}

  datatype Column = FileText | Path | Path2 | ManualDateRaw | UploadedAt | AuthorizedAt | SourceName | SourceSymbol

  /** FIELD_KEYS: the listing key that feeds a column. */
  function FieldKey(c: Column): string {
    match c
    case FileText => "fileText"
    case Path => "path"
    case Path2 => "path2"
    case ManualDateRaw => "manualDate"
    case UploadedAt => "uploadedDate"
    case AuthorizedAt => "authorizedDate"
    case SourceName => "name"
    case SourceSymbol => "symbol"
  }

  const COLUMNS := [FileText, Path, Path2, ManualDateRaw, UploadedAt, AuthorizedAt, SourceName, SourceSymbol]

  /** metadata_hash, taken to be injective on HASH_FIELDS: the hash is the hashed part itself. */
  type Hash = Item

  function MetadataHash(item: Item): Hash {
    map k | k in item && k in HASH_FIELDS :: item[k]
  }

  lemma {:induction false} ColumnsAreHashed(c: Column)
    ensures FieldKey(c) in HASH_FIELDS
  {
  }

  /** How a listing value becomes a column value, and when two column values differ. Timestamp parsing is left
      abstract; two timestamps less than a second apart do not differ. */
  datatype Rules = Rules(parse: (Column, Value) -> Value, same: (Column, Value, Value) -> bool)

  // ---------------------------------------------------------------- source keys

  function SourceKey(endpoint: string, bucket: string, symbol: Option<string>): string {
    endpoint + "|" + bucket + "|" + (if symbol.Some? then symbol.value else "")
  }

  function BarAt(s: string): (d: nat)
    ensures d <= |s|
    ensures forall i :: 0 <= i < d ==> s[i] != '|'
    ensures d < |s| ==> s[d] == '|'
  {
    if s == [] || s[0] == '|' then 0 else 1 + BarAt(s[1..])
  }

  datatype Source = Source(endpoint: string, bucket: string, symbol: Option<string>)

  /** key.split("|", 2); None when there are fewer than two separators, where the unpacking raises. */
  function SplitSourceKey(key: string): Option<Source> {
    var a := BarAt(key);
    if a == |key| then None
    else
      var rest := key[a + 1..];
      var b := BarAt(rest);
      if b == |rest| then None
      else Some(Source(key[..a], rest[..b], if rest[b + 1..] == "" then None else Some(rest[b + 1..])))
  }

  lemma {:induction false} FirstBar(a: string, b: string)
    requires '|' !in a
    ensures BarAt(a + "|" + b) == |a|
  {
    var s := a + "|" + b;
    assert forall i :: 0 <= i < |a| ==> s[i] == a[i];
    assert s[|a|] == '|';
  }

  lemma {:induction false} CleanSplits(endpoint: string, bucket: string, tail: string)
    requires '|' !in endpoint && '|' !in bucket
    ensures SplitSourceKey(endpoint + "|" + bucket + "|" + tail) ==
            Some(Source(endpoint, bucket, if tail == "" then None else Some(tail)))
  {
    hide BarAt;
    var key := endpoint + "|" + bucket + "|" + tail;
    assert key == endpoint + "|" + (bucket + "|" + tail);
    FirstBar(endpoint, bucket + "|" + tail);
    var rest := key[|endpoint| + 1..];
    assert key[..|endpoint|] == endpoint && rest == bucket + "|" + tail;
    FirstBar(bucket, tail);
    assert rest[..|bucket|] == bucket && rest[|bucket| + 1..] == tail;
  }

  lemma {:induction false} UncleanNeverSplitsBack(endpoint: string, bucket: string, tail: string)
    requires '|' in endpoint || '|' in bucket
    ensures var s := SplitSourceKey(endpoint + "|" + bucket + "|" + tail);
            s.Some? ==> s.value.endpoint != endpoint || s.value.bucket != bucket
  {
    hide BarAt;
    var key := endpoint + "|" + bucket + "|" + tail;
    assert key == endpoint + "|" + (bucket + "|" + tail);
    if '|' in endpoint {
      BarIsEarlier(endpoint, bucket + "|" + tail);
    } else {
      FirstBar(endpoint, bucket + "|" + tail);
      assert key[|endpoint| + 1..] == bucket + "|" + tail;
      BarIsEarlier(bucket, tail);
    }
  }

  /** split_source_key undoes source_key exactly when endpoint and bucket carry no separator and the query symbol
      is not the empty string. */
  lemma {:induction false} SplitUndoesSourceKey(endpoint: string, bucket: string, symbol: Option<string>)
    ensures SplitSourceKey(SourceKey(endpoint, bucket, symbol)) == Some(Source(endpoint, bucket, symbol)) <==>
            '|' !in endpoint && '|' !in bucket && symbol != Some("")
  {
    hide SplitSourceKey;
    var tail := if symbol.Some? then symbol.value else "";
    if '|' !in endpoint && '|' !in bucket {
      CleanSplits(endpoint, bucket, tail);
    } else {
      UncleanNeverSplitsBack(endpoint, bucket, tail);
    }
  }

  lemma {:induction false} BarIsEarlier(a: string, b: string)
    requires '|' in a
    ensures BarAt(a + "|" + b) < |a|
  {
    var i :| 0 <= i < |a| && a[i] == '|';
    assert (a + "|" + b)[i] == '|';
  }

  // ---------------------------------------------------------------- precedence

  const LISTING_ENDPOINT := "financials"
  const FEED_ENDPOINT := "getFinancialAnnouncement"
  const FEED_BUCKET := "none"

  function EndpointRank(e: string): nat {
    if e == LISTING_ENDPOINT then 0 else if e == FEED_ENDPOINT then 1 else 2
  }

  function BucketRank(b: string): nat {
    if b == "annual" then 0 else if b == "quarterly" then 1 else if b == "other" then 2
    else if b == "web_link" then 3 else if b == FEED_BUCKET then 4 else 5
  }

  /** Python's string order. */
  predicate LexLe(a: string, b: string) {
    a == [] || (b != [] && (a[0] < b[0] || (a[0] == b[0] && LexLe(a[1..], b[1..]))))
  }

  lemma {:induction false} LexTotal(a: string, b: string)
    ensures LexLe(a, b) || LexLe(b, a)
    ensures LexLe(a, b) && LexLe(b, a) ==> a == b
  {
    if a != [] && b != [] && a[0] == b[0] {
      LexTotal(a[1..], b[1..]);
      assert a == [a[0]] + a[1..] && b == [b[0]] + b[1..];
    }
  }

  lemma {:induction false} LexTransitive(a: string, b: string, c: string)
    requires LexLe(a, b) && LexLe(b, c)
    ensures LexLe(a, c)
  {
    if a != [] && a[0] == b[0] && b[0] == c[0] {
      LexTransitive(a[1..], b[1..], c[1..]);
    }
  }

  /** _precedence's tuple order: endpoint rank, endpoint, bucket rank, bucket, query symbol. */
  predicate Precedes(a: Source, b: Source) {
    var (x, y) := (SymbolText(a), SymbolText(b));
    if EndpointRank(a.endpoint) != EndpointRank(b.endpoint) then EndpointRank(a.endpoint) < EndpointRank(b.endpoint)
    else if a.endpoint != b.endpoint then LexLe(a.endpoint, b.endpoint)
    else if BucketRank(a.bucket) != BucketRank(b.bucket) then BucketRank(a.bucket) < BucketRank(b.bucket)
    else if a.bucket != b.bucket then LexLe(a.bucket, b.bucket)
    else LexLe(x, y)
  }

  function SymbolText(a: Source): string {
    if a.symbol.Some? then a.symbol.value else ""
  }

  predicate Clean(a: Source) {
    '|' !in a.endpoint && '|' !in a.bucket && a.symbol != Some("")
  }

  /** a and b first differ at n, where a has ended or has the smaller character. */
  predicate DecidesAt(a: string, b: string, n: nat) {
    n <= |a| && n < |b| && a[..n] == b[..n] && (n == |a| || a[n] < b[n])
  }

  /** a comes before b in Python's string order. */
  ghost predicate LexBefore(a: string, b: string) {
    exists n: nat :: DecidesAt(a, b, n)
  }

  lemma {:induction false} FirstsAgree(a: string, b: string, n: nat)
    requires DecidesAt(a, b, n)
    ensures n > 0 ==> a[0] == b[0]
  {
    if n > 0 {
      assert a[..n][0] == b[..n][0];
    }
  }

  lemma {:induction false} LexIs(a: string, b: string)
    ensures LexLe(a, b) <==> a == b || LexBefore(a, b)
  {
    if a != [] && b != [] && a[0] == b[0] {
      LexIs(a[1..], b[1..]);
      assert a == [a[0]] + a[1..] && b == [b[0]] + b[1..];
      if n: nat :| DecidesAt(a[1..], b[1..], n) {
        assert a[..n + 1] == [a[0]] + a[1..][..n] && b[..n + 1] == [b[0]] + b[1..][..n];
        assert DecidesAt(a, b, n + 1);
      }
      if n: nat :| DecidesAt(a, b, n) {
        assert n > 0;
        assert a[1..][..n - 1] == a[..n][1..] && b[1..][..n - 1] == b[..n][1..];
        assert DecidesAt(a[1..], b[1..], n - 1);
      }
    } else if a == [] {
      assert b != [] ==> DecidesAt(a, b, 0);
    } else if b != [] {
      assert a[0] < b[0] ==> DecidesAt(a, b, 0);
      if n: nat :| DecidesAt(a, b, n) {
        FirstsAgree(a, b, n);
        assert n == 0;
      }
    }
  }

  /** Where a bucket stands: annual, quarterly, other, web_link, the feed's, and then any other. */
  ghost predicate Stands(bucket: string, place: nat) {
    match place
    case 0 => bucket == "annual"
    case 1 => bucket == "quarterly"
    case 2 => bucket == "other"
    case 3 => bucket == "web_link"
    case 4 => bucket == "none"
    case _ => place == 5 && bucket !in {"annual", "quarterly", "other", "web_link", "none"}
  }

  /** The precedence of two sources: the listing endpoint, the feed's, then any other by name; within one endpoint the
      buckets in their order, then any other by name; within one bucket the query symbols. */
  lemma {:induction false} PrecedenceIs(a: Source, b: Source)
    ensures a.endpoint == "financials" && b.endpoint != "financials" ==> Precedes(a, b) && !Precedes(b, a)
    ensures (a.endpoint == "getFinancialAnnouncement" && b.endpoint !in {"financials", "getFinancialAnnouncement"}) ==>
              Precedes(a, b) && !Precedes(b, a)
    ensures (a.endpoint != b.endpoint && a.endpoint !in {"financials", "getFinancialAnnouncement"}
             && b.endpoint !in {"financials", "getFinancialAnnouncement"}) ==>
              (Precedes(a, b) <==> LexBefore(a.endpoint, b.endpoint))
    ensures forall i: nat, j: nat :: a.endpoint == b.endpoint && Stands(a.bucket, i) && Stands(b.bucket, j) && i < j ==>
              Precedes(a, b) && !Precedes(b, a)
    ensures a.endpoint == b.endpoint && Stands(a.bucket, 5) && Stands(b.bucket, 5) && a.bucket != b.bucket ==>
              (Precedes(a, b) <==> LexBefore(a.bucket, b.bucket))
    ensures a.endpoint == b.endpoint && a.bucket == b.bucket ==>
              (Precedes(a, b) <==> SymbolText(a) == SymbolText(b) || LexBefore(SymbolText(a), SymbolText(b)))
  {
    hide LexLe, LexBefore;
    LexIs(a.endpoint, b.endpoint);
    LexIs(a.bucket, b.bucket);
    LexIs(SymbolText(a), SymbolText(b));
  }

  lemma {:induction false} PrecedesIsTotal(a: Source, b: Source)
    requires Clean(a) && Clean(b)
    ensures Precedes(a, b) || Precedes(b, a)
    ensures Precedes(a, b) && Precedes(b, a) ==> a == b
  {
    LexTotal(a.endpoint, b.endpoint);
    LexTotal(a.bucket, b.bucket);
    LexTotal(SymbolText(a), SymbolText(b));
  }

  lemma {:induction false} PrecedesIsTransitive(a: Source, b: Source, c: Source)
    requires Precedes(a, b) && Precedes(b, c)
    ensures Precedes(a, c)
  {
    if a.endpoint == c.endpoint && a.endpoint != b.endpoint { LexTotal(a.endpoint, b.endpoint); }
    if LexLe(a.endpoint, b.endpoint) && LexLe(b.endpoint, c.endpoint) {
      LexTransitive(a.endpoint, b.endpoint, c.endpoint);
    }
    if a.bucket == c.bucket && a.bucket != b.bucket { LexTotal(a.bucket, b.bucket); }
    if LexLe(a.bucket, b.bucket) && LexLe(b.bucket, c.bucket) { LexTransitive(a.bucket, b.bucket, c.bucket); }
    if LexLe(SymbolText(a), SymbolText(b)) && LexLe(SymbolText(b), SymbolText(c)) {
      LexTransitive(SymbolText(a), SymbolText(b), SymbolText(c));
    }
  }

  // ---------------------------------------------------------------- normalize_filing

  predicate GoodKey(key: string) {
    SplitSourceKey(key).Some?
  }

  function SourceOf(key: string): Source
    requires GoodKey(key)
  {
    SplitSourceKey(key).value
  }

  lemma {:induction false} SplitAtBar(s: string)
    requires BarAt(s) < |s|
    ensures s == s[..BarAt(s)] + "|" + s[BarAt(s) + 1..] && '|' !in s[..BarAt(s)]
  {
  }

  /** A key that splits is clean, and is its source's own key: no two keys share a source. */
  lemma {:induction false} GoodKeyRoundTrip(key: string)
    requires GoodKey(key)
    ensures Clean(SourceOf(key))
    ensures SourceKey(SourceOf(key).endpoint, SourceOf(key).bucket, SourceOf(key).symbol) == key
  {
    hide BarAt;
    var a := BarAt(key);
    var rest := key[a + 1..];
    var b := BarAt(rest);
    SplitAtBar(key);
    SplitAtBar(rest);
    var tail := rest[b + 1..];
    JoinedTwice(key[..a], rest[..b], tail);
  }

  lemma {:induction false} JoinedTwice(a: string, b: string, c: string)
    ensures a + "|" + (b + "|" + c) == a + "|" + b + "|" + c
  {
  }

  predicate Provides(items: map<string, Item>, c: Column, k: string) {
    k in items && FieldKey(c) in items[k]
  }

  /** k is the highest-precedence source whose entry contains the column's field. */
  ghost predicate Chosen(items: map<string, Item>, c: Column, k: string) {
    && Provides(items, c, k) && GoodKey(k)
    && forall o :: Provides(items, c, o) && GoodKey(o) ==> Precedes(SourceOf(k), SourceOf(o))
  }

  datatype Resolution = ExactListingSymbol | CompanyConflict | CompanyUnresolved

  datatype Normal = Normal(columns: map<Column, Value>, fieldSources: map<Column, string>, endpoints: set<string>,
                           buckets: set<string>, symbols: set<string>, company: Option<string>, resolution: Resolution)

  ghost predicate ColumnAs(rules: Rules, items: map<string, Item>, c: Column, row: Normal) {
    && c in row.columns
    && (c in row.fieldSources ==>
          Chosen(items, c, row.fieldSources[c]) &&
          row.columns[c] == rules.parse(c, items[row.fieldSources[c]][FieldKey(c)]))
    && (c !in row.fieldSources ==> row.columns[c] == Null && forall k :: !Provides(items, c, k))
  }

  function SymbolsOf(keys: set<string>): set<string>
    requires forall k :: k in keys ==> GoodKey(k)
  {
    set k | k in keys && SourceOf(k).symbol.Some? :: SourceOf(k).symbol.value
  }

  function EndpointsOf(keys: set<string>): set<string>
    requires forall k :: k in keys ==> GoodKey(k)
  {
    set k | k in keys :: SourceOf(k).endpoint
  }

  function BucketsOf(keys: set<string>): set<string>
    requires forall k :: k in keys ==> GoodKey(k)
  {
    set k | k in keys && SourceOf(k).bucket != FEED_BUCKET :: SourceOf(k).bucket
  }

  function Linked(symbols: set<string>, companies: map<string, string>): set<string> {
    set s | s in symbols && s in companies :: companies[s]
  }

  ghost predicate CompanyAs(linked: set<string>, row: Normal) {
    && (row.resolution == ExactListingSymbol <==> |linked| == 1)
    && (row.resolution == CompanyConflict <==> |linked| > 1)
    && (row.company.Some? <==> |linked| == 1)
    && (row.company.Some? ==> linked == {row.company.value})
  }

  /** Which endpoints, buckets and query symbols a row lists: those of its sources, the feed's bucket apart. */
  ghost predicate ListsSources(keys: set<string>, row: Normal) {
    && (forall e :: e in row.endpoints <==> exists k :: k in keys && GoodKey(k) && SourceOf(k).endpoint == e)
    && (forall b :: b in row.buckets <==>
          b != "none" && exists k :: k in keys && GoodKey(k) && SourceOf(k).bucket == b)
    && (forall s :: s in row.symbols <==> exists k :: k in keys && GoodKey(k) && SourceOf(k).symbol == Some(s))
  }

  ghost predicate GoodKeys(items: map<string, Item>) {
    forall k :: k in items ==> GoodKey(k)
  }

  /** The normalised row of a set of current entries: a property of the mapping's contents, with no order in it. */
  ghost predicate NormalisedAs(rules: Rules, items: map<string, Item>, companies: map<string, string>, row: Normal)
    requires GoodKeys(items)
  {
    && (forall c :: ColumnAs(rules, items, c, row))
    && row.endpoints == EndpointsOf(items.Keys)
    && row.buckets == BucketsOf(items.Keys)
    && row.symbols == SymbolsOf(items.Keys)
    && CompanyAs(Linked(row.symbols, companies), row)
  }

  lemma {:induction false} ColumnIsUnique(rules: Rules, items: map<string, Item>, c: Column, a: Normal, b: Normal)
    requires GoodKeys(items) && ColumnAs(rules, items, c, a) && ColumnAs(rules, items, c, b)
    ensures c in a.fieldSources <==> c in b.fieldSources
    ensures c in a.fieldSources ==> a.fieldSources[c] == b.fieldSources[c]
    ensures a.columns[c] == b.columns[c]
  {
    if c in a.fieldSources && c in b.fieldSources {
      var j, k := a.fieldSources[c], b.fieldSources[c];
      GoodKeyRoundTrip(j);
      GoodKeyRoundTrip(k);
      PrecedesIsTotal(SourceOf(j), SourceOf(k));
    }
  }

  /** The row is determined by the entries: whatever order they arrived in, there is only one. */
  lemma {:induction false} NormalRowIsUnique(rules: Rules, items: map<string, Item>, companies: map<string, string>,
                                             a: Normal, b: Normal)
    requires GoodKeys(items) && NormalisedAs(rules, items, companies, a) && NormalisedAs(rules, items, companies, b)
    ensures a == b
  {
    forall c ensures c in a.columns && c in b.columns && a.columns[c] == b.columns[c] {
      ColumnIsUnique(rules, items, c, a, b);
    }
    forall c ensures (c in a.fieldSources <==> c in b.fieldSources)
                     && (c in a.fieldSources ==> a.fieldSources[c] == b.fieldSources[c]) {
      ColumnIsUnique(rules, items, c, a, b);
    }
    assert a.columns == b.columns && a.fieldSources == b.fieldSources;
    if a.company.Some? {
      assert a.company.value in {b.company.value};
    }
  }

  /** And it depends on each entry only through its metadata hash: the branding and any other key outside
      HASH_FIELDS never reach the row. */
  lemma {:induction false} RowDependsOnHashesOnly(rules: Rules, items: map<string, Item>, hashes: map<string, Hash>,
                                                  companies: map<string, string>, row: Normal)
    requires items.Keys == hashes.Keys && forall k :: k in items ==> MetadataHash(items[k]) == MetadataHash(hashes[k])
    requires GoodKeys(items) && NormalisedAs(rules, items, companies, row)
    ensures GoodKeys(hashes) && NormalisedAs(rules, hashes, companies, row)
  {
    forall c, k ensures Provides(items, c, k) <==> Provides(hashes, c, k) {
      if k in items { SameHashedField(items[k], hashes[k], c); }
    }
    forall c ensures ColumnAs(rules, hashes, c, row) {
      assert ColumnAs(rules, items, c, row);
      if c in row.fieldSources {
        SameHashedField(items[row.fieldSources[c]], hashes[row.fieldSources[c]], c);
      }
    }
  }

  /** The reported differences do too. */
  lemma {:induction false} DifferencesDependOnHashesOnly(rules: Rules, items: map<string, Item>,
                                                         hashes: map<string, Hash>, row: Normal, diffs: Differences)
    requires items.Keys == hashes.Keys && forall k :: k in items ==> MetadataHash(items[k]) == MetadataHash(hashes[k])
    requires DifferencesAs(rules, items, row, diffs)
    ensures DifferencesAs(rules, hashes, row, diffs)
  {
    hide MetadataHash;
    forall c, x, k | x in items && k in items
      ensures Differs(rules, items, c, x, k) <==> Differs(rules, hashes, c, x, k)
    {
      SameHashedField(items[x], hashes[x], c);
      SameHashedField(items[k], hashes[k], c);
    }
    forall c | c in diffs
      ensures diffs[c] == set k | k in hashes && Differs(rules, hashes, c, row.fieldSources[c], k)
    {
      forall k | k in items ensures Differs(rules, items, c, row.fieldSources[c], k) <==>
                                    Differs(rules, hashes, c, row.fieldSources[c], k)
      {
        if row.fieldSources[c] !in items {
          assert row.fieldSources[c] !in hashes;
        }
      }
    }
  }

  lemma {:induction false} SameHashedField(a: Item, b: Item, c: Column)
    requires MetadataHash(a) == MetadataHash(b)
    ensures FieldKey(c) in a <==> FieldKey(c) in b
    ensures FieldKey(c) in a ==> a[FieldKey(c)] == b[FieldKey(c)]
  {
    ColumnsAreHashed(c);
    var f := FieldKey(c);
    assert f in a <==> f in MetadataHash(a);
    assert f in b <==> f in MetadataHash(b);
    assert f in a ==> MetadataHash(a)[f] == a[f];
    assert f in b ==> MetadataHash(b)[f] == b[f];
  }

  predicate KeyLe(a: string, b: string) {
    GoodKey(a) && GoodKey(b) ==> Precedes(SourceOf(a), SourceOf(b))
  }

  ghost predicate Ordered(keys: seq<string>) {
    && (forall k :: k in keys ==> GoodKey(k))
    && (forall i, j :: 0 <= i < j < |keys| ==> Precedes(SourceOf(keys[i]), SourceOf(keys[j])))
  }

  /** sorted(current_items, key=_precedence), by insertion. */
  method SortedKeys(items: map<string, Item>) returns (keys: seq<string>)
    requires GoodKeys(items)
    ensures Ordered(keys) && forall k :: k in keys <==> k in items
  {
    keys := [];
    var rest := items.Keys;
    while rest != {}
      invariant rest <= items.Keys
      invariant Ordered(keys) && forall k :: k in keys <==> k in items && k !in rest
      decreases rest
    {
      var k :| k in rest;
      keys := InsertKey(keys, k);
      rest := rest - {k};
    }
  }

  method InsertKey(keys: seq<string>, k: string) returns (r: seq<string>)
    requires Ordered(keys) && GoodKey(k)
    ensures Ordered(r) && forall x :: x in r <==> x in keys || x == k
  {
    hide Precedes, GoodKey, SourceOf;
    var i := 0;
    while i < |keys| && Precedes(SourceOf(keys[i]), SourceOf(k))
      invariant 0 <= i <= |keys|
      invariant forall j :: 0 <= j < i ==> Precedes(SourceOf(keys[j]), SourceOf(k))
    {
      i := i + 1;
    }
    r := keys[..i] + [k] + keys[i..];
    LaterKeys(keys, k, i);
    InsertedInOrder(keys, k, i);
  }

  /** A key that does not precede the new one follows it, and so do all after it. */
  lemma {:induction false} LaterKeys(keys: seq<string>, k: string, i: nat)
    requires Ordered(keys) && GoodKey(k) && i <= |keys|
    requires i < |keys| ==> !Precedes(SourceOf(keys[i]), SourceOf(k))
    ensures forall j :: i <= j < |keys| ==> Precedes(SourceOf(k), SourceOf(keys[j]))
  {
    hide Precedes;
    forall j | i <= j < |keys| ensures Precedes(SourceOf(k), SourceOf(keys[j])) {
      GoodKeyRoundTrip(k);
      GoodKeyRoundTrip(keys[i]);
      PrecedesIsTotal(SourceOf(keys[i]), SourceOf(k));
      if j > i {
        PrecedesIsTransitive(SourceOf(k), SourceOf(keys[i]), SourceOf(keys[j]));
      }
    }
  }

  lemma {:induction false} InsertedInOrder(keys: seq<string>, k: string, i: nat)
    requires Ordered(keys) && GoodKey(k) && i <= |keys|
    requires forall j :: 0 <= j < i ==> Precedes(SourceOf(keys[j]), SourceOf(k))
    requires forall j :: i <= j < |keys| ==> Precedes(SourceOf(k), SourceOf(keys[j]))
    ensures Ordered(keys[..i] + [k] + keys[i..])
    ensures forall x :: x in keys[..i] + [k] + keys[i..] <==> x in keys || x == k
  {
    var r := keys[..i] + [k] + keys[i..];
    hide Precedes, GoodKey, SourceOf;
    InsertedMembers(keys, k, i);
    forall a: nat, b: nat | a < b < |r| ensures Precedes(SourceOf(r[a]), SourceOf(r[b])) {
      InsertedAt(keys, k, i, a);
      InsertedAt(keys, k, i, b);
    }
  }

  lemma {:induction false} InsertedMembers(keys: seq<string>, k: string, i: nat)
    requires i <= |keys|
    ensures forall x :: x in keys[..i] + [k] + keys[i..] <==> x in keys || x == k
  {
    assert keys == keys[..i] + keys[i..];
  }

  lemma {:induction false} InsertedAt(keys: seq<string>, k: string, i: nat, j: nat)
    requires i <= |keys| && j <= |keys|
    ensures (keys[..i] + [k] + keys[i..])[j] == if j < i then keys[j] else if j == i then k else keys[j - 1]
  {
  }

  /** Provider k disagrees with the chosen provider of column c. */
  predicate Differs(rules: Rules, items: map<string, Item>, c: Column, chosen: string, k: string) {
    && Provides(items, c, chosen) && Provides(items, c, k) && k != chosen
    && !rules.same(c, rules.parse(c, items[chosen][FieldKey(c)]), rules.parse(c, items[k][FieldKey(c)]))
  }

  type Differences = map<Column, set<string>>

  ghost predicate DifferencesAs(rules: Rules, items: map<string, Item>, row: Normal, diffs: Differences) {
    && diffs.Keys == row.fieldSources.Keys
    && forall c :: c in diffs ==> diffs[c] == set k | k in items && Differs(rules, items, c, row.fieldSources[c], k)
  }

  ghost predicate FirstProvider(items: map<string, Item>, keys: seq<string>, c: Column, k: string) {
    exists j :: 0 <= j < |keys| && keys[j] == k && Provides(items, c, k)
                && forall m :: 0 <= m < j ==> !Provides(items, c, keys[m])
  }

  lemma {:induction false} FirstProviderStays(items: map<string, Item>, keys: seq<string>, c: Column, k: string,
                                              next: string)
    requires FirstProvider(items, keys, c, k)
    ensures FirstProvider(items, keys + [next], c, k)
  {
    var j :| 0 <= j < |keys| && keys[j] == k && Provides(items, c, k)
             && forall m :: 0 <= m < j ==> !Provides(items, c, keys[m]);
    assert (keys + [next])[j] == k;
  }

  /** One column: the first provider in precedence order supplies the value, the others are compared with it. */
  method PickColumn(rules: Rules, items: map<string, Item>, keys: seq<string>, c: Column)
    returns (source: Option<string>, diffs: set<string>)
    requires GoodKeys(items) && Ordered(keys) && forall k :: k in keys <==> k in items
    ensures source.None? ==> forall k :: !Provides(items, c, k)
    ensures source.Some? ==> Chosen(items, c, source.value)
                             && diffs == set k | k in items && Differs(rules, items, c, source.value, k)
  {
    hide Ordered, Differs, Provides, FirstProvider;
    source, diffs := None, {};
    for i := 0 to |keys|
      invariant source.None? ==> diffs == {} && forall j :: 0 <= j < i ==> !Provides(items, c, keys[j])
      invariant source.Some? ==> FirstProvider(items, keys[..i], c, source.value)
      invariant source.Some? ==> diffs == set k | k in keys[..i] && Differs(rules, items, c, source.value, k)
    {
      var k := keys[i];
      assert keys[..i + 1] == keys[..i] + [k];
      if Provides(items, c, k) {
        if source.None? {
          source := Some(k);
          NoneBefore(rules, items, keys, c, k, i);
        } else {
          FirstProviderStays(items, keys[..i], c, source.value, k);
          if Differs(rules, items, c, source.value, k) {
            diffs := diffs + {k};
          }
          assert diffs == set x | x in keys[..i + 1] && Differs(rules, items, c, source.value, x);
        }
      } else {
        NonProviderNeverDiffers(rules, items, keys[..i], c, source, k);
      }
    }
    assert keys[..|keys|] == keys;
    if source.Some? {
      FirstIsChosen(items, keys, c, source.value);
    } else {
      NoProviderAtAll(items, keys, c);
    }
  }

  lemma {:induction false} NonProviderNeverDiffers(rules: Rules, items: map<string, Item>, keys: seq<string>, c: Column,
                                                   source: Option<string>, k: string)
    requires !Provides(items, c, k)
    ensures source.Some? ==> !Differs(rules, items, c, source.value, k)
    ensures source.Some? && FirstProvider(items, keys, c, source.value) ==>
              FirstProvider(items, keys + [k], c, source.value)
  {
    if source.Some? && FirstProvider(items, keys, c, source.value) {
      FirstProviderStays(items, keys, c, source.value, k);
    }
  }

  lemma {:induction false} NoneBefore(rules: Rules, items: map<string, Item>, keys: seq<string>, c: Column, k: string,
                                      i: nat)
    requires i < |keys| && keys[i] == k && Provides(items, c, k)
    requires forall j :: 0 <= j < i ==> !Provides(items, c, keys[j])
    ensures FirstProvider(items, keys[..i + 1], c, k)
    ensures (set x | x in keys[..i + 1] && Differs(rules, items, c, k, x)) == {}
  {
    assert keys[..i + 1][i] == k;
    forall x | x in keys[..i + 1] ensures !Differs(rules, items, c, k, x) {
      var j :| 0 <= j < i + 1 && keys[..i + 1][j] == x;
    }
  }

  lemma {:induction false} NoProviderAtAll(items: map<string, Item>, keys: seq<string>, c: Column)
    requires (forall k :: k in keys <==> k in items) && forall j :: 0 <= j < |keys| ==> !Provides(items, c, keys[j])
    ensures forall k :: !Provides(items, c, k)
  {
    forall k ensures !Provides(items, c, k) {
      if k in items { assert k in keys; }
    }
  }

  lemma {:induction false} ProvidedIsAnEntry(items: map<string, Item>, c: Column)
    ensures forall k :: Provides(items, c, k) ==> k in items
  {
  }

  lemma {:induction false} FirstIsChosen(items: map<string, Item>, keys: seq<string>, c: Column, k: string)
    requires GoodKeys(items) && Ordered(keys) && (forall x :: x in keys <==> x in items)
             && FirstProvider(items, keys, c, k)
    ensures Chosen(items, c, k)
  {
    hide Precedes, Provides, GoodKey, SourceOf;
    var j :| 0 <= j < |keys| && keys[j] == k && forall m :: 0 <= m < j ==> !Provides(items, c, keys[m]);
    ProvidedIsAnEntry(items, c);
    forall o | Provides(items, c, o) && GoodKey(o) ensures Precedes(SourceOf(k), SourceOf(o)) {
      var m :| 0 <= m < |keys| && keys[m] == o;
      GoodKeyRoundTrip(k);
      PrecedesIsTotal(SourceOf(k), SourceOf(k));
    }
  }

  /** Every column is one of the eight. */
  lemma {:induction false} ColumnsAreAll(c: Column)
    ensures c in COLUMNS
  {
    assert COLUMNS[0] == FileText && COLUMNS[1] == Path && COLUMNS[2] == Path2 && COLUMNS[3] == ManualDateRaw
           && COLUMNS[4] == UploadedAt && COLUMNS[5] == AuthorizedAt && COLUMNS[6] == SourceName
           && COLUMNS[7] == SourceSymbol;
  }

  /** What a finished column holds: its chosen source, its value, and the sources that disagree. */
  datatype Cell = Cell(source: Option<string>, value: Value, others: set<string>)

  ghost predicate CellAs(rules: Rules, items: map<string, Item>, c: Column, cell: Cell) {
    && (cell.source.None? ==> cell.value == Null && forall k :: !Provides(items, c, k))
    && (cell.source.Some? ==>
          && Chosen(items, c, cell.source.value)
          && cell.value == rules.parse(c, items[cell.source.value][FieldKey(c)])
          && cell.others == set k | k in items && Differs(rules, items, c, cell.source.value, k))
  }

  method FillCell(rules: Rules, items: map<string, Item>, keys: seq<string>, c: Column) returns (cell: Cell)
    requires GoodKeys(items) && Ordered(keys) && forall k :: k in keys <==> k in items
    ensures CellAs(rules, items, c, cell)
  {
    hide Differs, Ordered;
    var source, others := PickColumn(rules, items, keys, c);
    if source.Some? {
      ChosenProvides(items, c, source.value);
      cell := Cell(source, rules.parse(c, items[source.value][FieldKey(c)]), others);
    } else {
      cell := Cell(None, Null, {});
    }
  }

  /** normalize_filing: the normalised row, and every disagreement between sources. */
  method NormalizeFiling(rules: Rules, items: map<string, Item>, companies: map<string, string>)
    returns (row: Normal, diffs: Differences)
    requires GoodKeys(items)
    ensures NormalisedAs(rules, items, companies, row) && ListsSources(items.Keys, row)
    ensures DifferencesAs(rules, items, row, diffs)
  {
    hide CellAs, Ordered;
    var keys := SortedKeys(items);
    var cells: map<Column, Cell> := map[];
    for i := 0 to |COLUMNS|
      invariant forall c :: c in cells <==> c in COLUMNS[..i]
      invariant forall c :: c in cells ==> CellAs(rules, items, c, cells[c])
    {
      var cell := FillCell(rules, items, keys, COLUMNS[i]);
      cells := cells[COLUMNS[i] := cell];
      assert COLUMNS[..i + 1] == COLUMNS[..i] + [COLUMNS[i]];
    }
    assert COLUMNS[..|COLUMNS|] == COLUMNS;
    var symbols := SymbolsOf(items.Keys);
    var company, resolution := LinkCompany(Linked(symbols, companies));
    row := Normal(map c | c in cells :: cells[c].value,
                  map c | c in cells && cells[c].source.Some? :: cells[c].source.value,
                  EndpointsOf(items.Keys), BucketsOf(items.Keys), symbols, company, resolution);
    diffs := map c | c in cells && cells[c].source.Some? :: cells[c].others;
    forall c ensures c in cells {
      ColumnsAreAll(c);
    }
    CellsMakeColumns(rules, items, cells, row, diffs);
  }

  lemma {:induction false} CellsMakeColumns(rules: Rules, items: map<string, Item>, cells: map<Column, Cell>,
                                            row: Normal, diffs: Differences)
    requires forall c :: c in cells && CellAs(rules, items, c, cells[c])
    requires row.columns == map c | c in cells :: cells[c].value
    requires row.fieldSources == map c | c in cells && cells[c].source.Some? :: cells[c].source.value
    requires diffs == map c | c in cells && cells[c].source.Some? :: cells[c].others
    ensures forall c :: ColumnAs(rules, items, c, row)
    ensures DifferencesAs(rules, items, row, diffs)
  {
    hide Chosen, Differs, Provides;
    forall c ensures ColumnAs(rules, items, c, row) {
      assert CellAs(rules, items, c, cells[c]);
    }
    forall c | c in diffs ensures diffs[c] == set k | k in items && Differs(rules, items, c, row.fieldSources[c], k) {
      assert CellAs(rules, items, c, cells[c]);
    }
  }

  lemma {:induction false} ChosenProvides(items: map<string, Item>, c: Column, k: string)
    requires Chosen(items, c, k)
    ensures k in items && FieldKey(c) in items[k]
  {
  }

  method LinkCompany(linked: set<string>) returns (company: Option<string>, resolution: Resolution)
    ensures resolution ==
            if |linked| == 1 then ExactListingSymbol else if |linked| > 1 then CompanyConflict else CompanyUnresolved
    ensures company.Some? <==> |linked| == 1
    ensures company.Some? ==> linked == {company.value}
  {
    if |linked| == 1 {
      var id :| id in linked;
      assert linked == {id} by {
        assert |linked - {id}| == 0;
      }
      company, resolution := Some(id), ExactListingSymbol;
    } else if |linked| > 1 {
      company, resolution := None, CompanyConflict;
    } else {
      company, resolution := None, CompanyUnresolved;
    }
  }

  // ---------------------------------------------------------------- the two stores

  /** A parsed listing entry, from one source. */
  datatype Observed = Observed(id: int, endpoint: string, bucket: string, symbol: Option<string>, item: Item)

  /** Endpoint and bucket names are the stage's own constants; none contains the key separator. */
  predicate WellNamed(o: Observed) {
    '|' !in o.endpoint && '|' !in o.bucket
  }

  function KeyOf(o: Observed): string {
    SourceKey(o.endpoint, o.bucket, o.symbol)
  }

  lemma {:induction false} KeyOfSplits(o: Observed)
    requires WellNamed(o)
    ensures GoodKey(KeyOf(o)) && SourceOf(KeyOf(o)).endpoint == o.endpoint && SourceOf(KeyOf(o)).bucket == o.bucket
  {
    if o.symbol == Some("") {
      assert KeyOf(o) == SourceKey(o.endpoint, o.bucket, None);
      SplitUndoesSourceKey(o.endpoint, o.bucket, None);
    } else {
      SplitUndoesSourceKey(o.endpoint, o.bucket, o.symbol);
    }
  }

  datatype ObsKey = ObsKey(id: int, endpoint: string, bucket: string, hash: Hash)

  datatype Row = Row(normal: Normal, versions: map<string, Hash>, firstSeen: int, firstRun: int, changedAt: Option<int>,
                     lastSeen: int, lastRun: int)

  datatype Change = NewFiling | NewSource | Unchanged | MetadataChanged

  datatype State = State(filings: map<int, Row>, observations: map<ObsKey, Item>)

  /** What an observation is to its filing: the first one, the first of its source, the source's current version
      again, or another one. */
  ghost predicate ChangeIs(existing: Option<Row>, key: string, hash: Hash, change: Change) {
    && (change == NewFiling <==> existing.None?)
    && (change == NewSource <==> existing.Some? && key !in existing.value.versions)
    && (change == Unchanged <==>
          existing.Some? && key in existing.value.versions && existing.value.versions[key] == hash)
    && (change == MetadataChanged <==>
          existing.Some? && key in existing.value.versions && existing.value.versions[key] != hash)
  }

  /** classify_observation, relative to the source's current version. */
  function Classify(existing: Option<Row>, o: Observed): Change {
    if existing.None? then NewFiling
    else if KeyOf(o) !in existing.value.versions then NewSource
    else if existing.value.versions[KeyOf(o)] == MetadataHash(o.item) then Unchanged else MetadataChanged
  }

  function Existing(s: State, id: int): Option<Row> {
    if id in s.filings then Some(s.filings[id]) else None
  }

  function ObsKeyFor(id: int, key: string, h: Hash): ObsKey
    requires GoodKey(key)
  {
    ObsKey(id, SourceOf(key).endpoint, SourceOf(key).bucket, h)
  }

  ghost predicate VersionStored(s: State, id: int, key: string, h: Hash) {
    GoodKey(key) && ObsKeyFor(id, key, h) in s.observations
  }

  /** The store's invariant: every current version of every filing has its observation row, every observation is
      filed under its own hash, and every row is the normalised row of its current versions. */
  ghost predicate ValidStore(rules: Rules, companies: map<string, string>, s: State) {
    && (forall id, k :: id in s.filings && k in s.filings[id].versions ==>
          VersionStored(s, id, k, s.filings[id].versions[k]))
    && (forall k :: k in s.observations ==> MetadataHash(s.observations[k]) == k.hash)
    && (forall id :: id in s.filings ==> RowIsNormal(rules, companies, s.filings[id]))
  }

  /** The stored columns are a function of the current versions alone. */
  ghost predicate RowIsNormal(rules: Rules, companies: map<string, string>, r: Row) {
    GoodKeys(r.versions) && NormalisedAs(rules, r.versions, companies, r.normal)
  }

  function Versions(existing: Option<Row>): map<string, Hash> {
    if existing.Some? then existing.value.versions else map[]
  }

  /** The new state and report of one observation. */
  ghost predicate Applied(rules: Rules, companies: map<string, string>, s: State, o: Observed, run: int, now: int,
                          after: State, change: Change)
  {
    var existing := Existing(s, o.id);
    && ChangeIs(existing, KeyOf(o), MetadataHash(o.item), change)
    && o.id in after.filings && after.filings == s.filings[o.id := after.filings[o.id]]
    && after.observations == (if ObsKeyOf(o) in s.observations then s.observations
                              else s.observations[ObsKeyOf(o) := o.item])
    && var r := after.filings[o.id];
       && r.versions == Versions(existing)[KeyOf(o) := MetadataHash(o.item)]
       && RowIsNormal(rules, companies, r)
       && r.firstSeen == (if existing.Some? then existing.value.firstSeen else now)
       && r.firstRun == (if existing.Some? then existing.value.firstRun else run)
       && r.changedAt == (if change == MetadataChanged then Some(now)
                          else if existing.Some? then existing.value.changedAt else None)
       && r.lastSeen == now && r.lastRun == run
  }

  function ObsKeyOf(o: Observed): ObsKey {
    ObsKey(o.id, o.endpoint, o.bucket, MetadataHash(o.item))
  }

  lemma {:induction false} AppliedKeepsValid(rules: Rules, companies: map<string, string>, s: State, o: Observed,
                                             run: int, now: int, after: State, change: Change)
    requires WellNamed(o) && ValidStore(rules, companies, s) && Applied(rules, companies, s, o, run, now, after, change)
    ensures ValidStore(rules, companies, after)
  {
    hide RowIsNormal, VersionStored, MetadataHash, Classify, WellNamed;
    forall id, k | id in after.filings && k in after.filings[id].versions
      ensures VersionStored(after, id, k, after.filings[id].versions[k])
    {
      if id == o.id && k == KeyOf(o) {
        OwnVersionIsStored(o, after);
      } else {
        assert id in s.filings && k in s.filings[id].versions;
        StoredStays(s, after, o, id, k, s.filings[id].versions[k]);
      }
    }
    HashOfHash(o.item);
    forall k | k in after.observations ensures MetadataHash(after.observations[k]) == k.hash {
      OwnHash(o);
    }
  }

  lemma {:induction false} OwnHash(o: Observed)
    ensures ObsKeyOf(o).hash == MetadataHash(o.item)
  {
  }

  lemma {:induction false} OwnVersionIsStored(o: Observed, after: State)
    requires WellNamed(o) && ObsKeyOf(o) in after.observations
    ensures VersionStored(after, o.id, KeyOf(o), MetadataHash(o.item))
  {
    KeyOfSplits(o);
    assert ObsKeyFor(o.id, KeyOf(o), MetadataHash(o.item)) == ObsKeyOf(o);
  }

  lemma {:induction false} StoredStays(s: State, after: State, o: Observed, id: int, k: string, h: Hash)
    requires VersionStored(s, id, k, h) && forall x :: x in s.observations ==> x in after.observations
    ensures VersionStored(after, id, k, h)
  {
  }

  lemma {:induction false} HashOfHash(item: Item)
    ensures MetadataHash(MetadataHash(item)) == MetadataHash(item)
  {
  }

  /** The result of applying an observation is unique: any two implementations that meet it agree completely. */
  lemma {:induction false} AppliedIsUnique(rules: Rules, companies: map<string, string>, s: State, o: Observed,
                                           run: int, now: int, a: State, b: State, x: Change, y: Change)
    requires Applied(rules, companies, s, o, run, now, a, x) && Applied(rules, companies, s, o, run, now, b, y)
    ensures a == b && x == y
  {
    hide NormalisedAs, GoodKeys;
    var v := Versions(Existing(s, o.id))[KeyOf(o) := MetadataHash(o.item)];
    SameNormal(rules, companies, a.filings[o.id], b.filings[o.id]);
  }

  lemma {:induction false} SameNormal(rules: Rules, companies: map<string, string>, a: Row, b: Row)
    requires RowIsNormal(rules, companies, a) && RowIsNormal(rules, companies, b) && a.versions == b.versions
    ensures a.normal == b.normal
  {
    NormalRowIsUnique(rules, a.versions, companies, a.normal, b.normal);
  }

  // ---------------------------------------------------------------- InMemoryFilingStore

  class InMemoryFilingStore {
    const rules: Rules
    const companies: map<string, string>
    var filings: map<int, Row>
    var observations: map<ObsKey, Item>

    function Contents(): State
      reads this
    {
      State(filings, observations)
    }

    ghost predicate Valid()
      reads this
    {
      ValidStore(rules, companies, Contents())
    }

    constructor (rules: Rules, companies: map<string, string>)
      ensures Valid() && Contents() == State(map[], map[]) && this.rules == rules && this.companies == companies
    {
      this.rules, this.companies := rules, companies;
      filings, observations := map[], map[];
    }

    /** apply_observation: both writes only after all computation succeeded. Every lookup of a stored version
        finds its observation, and the row is normalised from the entries looked up. */
    method ApplyObservation(o: Observed, run: int, now: int) returns (change: Change, diffs: Differences)
      requires Valid() && WellNamed(o)
      modifies this
      ensures Valid()
      ensures Applied(rules, companies, old(Contents()), o, run, now, Contents(), change)
      ensures Reported(rules, Contents(), o, diffs)
    {
      var before := Contents();
      var existing := Existing(before, o.id);
      change := Classify(existing, o);
      var key := KeyOf(o);
      KeyOfSplits(o);
      var versions := Versions(existing)[key := MetadataHash(o.item)];
      var items := LookedUp(rules, companies, before, o, versions);
      LookupsAreHashed(rules, companies, before, o, versions);
      var normal;
      normal, diffs := NormalizeFiling(rules, items, companies);
      LookupsMakeRow(rules, companies, before, o, versions, normal, diffs);
      var row := BuildRow(existing, change, versions, normal, run, now);
      filings := filings[o.id := row];
      if ObsKeyOf(o) !in observations {
        observations := observations[ObsKeyOf(o) := o.item];
      }
      RowApplied(rules, companies, before, o, run, now, Contents(), change, row);
      AppliedKeepsValid(rules, companies, before, o, run, now, Contents(), change);
    }
  }

  /** The differences reported with an observation are those between the current versions of its filing. */
  ghost predicate Reported(rules: Rules, after: State, o: Observed, diffs: Differences) {
    o.id in after.filings
    && DifferencesAs(rules, after.filings[o.id].versions, after.filings[o.id].normal, diffs)
  }

  /** So the two stores report the same differences. */
  lemma {:induction false} ReportIsUnique(rules: Rules, after: State, o: Observed, d: Differences, e: Differences)
    requires Reported(rules, after, o, d) && Reported(rules, after, o, e)
    ensures d == e
  {
    hide Differs;
  }

  /** The current entry of every source: the new one for its own key, the stored one for the others. */
  function LookedUp(rules: Rules, companies: map<string, string>, s: State, o: Observed, versions: map<string, Hash>)
    : map<string, Item>
    requires WellNamed(o) && ValidStore(rules, companies, s)
    requires versions == Versions(Existing(s, o.id))[KeyOf(o) := MetadataHash(o.item)]
  {
    KeyOfSplits(o);
    assert forall k :: k in versions && k != KeyOf(o) ==> VersionStored(s, o.id, k, versions[k]);
    map k | k in versions :: if k == KeyOf(o) then o.item else s.observations[ObsKeyFor(o.id, k, versions[k])]
  }

  /** Every looked-up entry exists: the new one, and for each other source its stored version. */
  lemma {:induction false} LookedUpEntries(rules: Rules, companies: map<string, string>, s: State, o: Observed,
                                           versions: map<string, Hash>)
    requires WellNamed(o) && ValidStore(rules, companies, s)
    requires versions == Versions(Existing(s, o.id))[KeyOf(o) := MetadataHash(o.item)]
    ensures LookedUp(rules, companies, s, o, versions).Keys == versions.Keys
    ensures LookedUp(rules, companies, s, o, versions)[KeyOf(o)] == o.item
    ensures forall k :: k in versions && k != KeyOf(o) ==>
              GoodKey(k) && ObsKeyFor(o.id, k, versions[k]) in s.observations
              && LookedUp(rules, companies, s, o, versions)[k] == s.observations[ObsKeyFor(o.id, k, versions[k])]
  {
    hide NormalisedAs;
    forall k | k in versions && k != KeyOf(o) ensures GoodKey(k) && ObsKeyFor(o.id, k, versions[k]) in s.observations {
      assert VersionStored(s, o.id, k, versions[k]);
    }
  }

  lemma {:induction false} LookupsAreHashed(rules: Rules, companies: map<string, string>, s: State, o: Observed,
                                            versions: map<string, Hash>)
    requires WellNamed(o) && ValidStore(rules, companies, s)
    requires versions == Versions(Existing(s, o.id))[KeyOf(o) := MetadataHash(o.item)]
    ensures var items := LookedUp(rules, companies, s, o, versions);
            GoodKeys(items) && items.Keys == versions.Keys
            && forall k :: k in items ==> MetadataHash(items[k]) == MetadataHash(versions[k])
  {
    KeyOfSplits(o);
    HashOfHash(o.item);
    hide NormalisedAs, GoodKey;
    forall k | k in versions
      ensures GoodKey(k) && MetadataHash(LookedUp(rules, companies, s, o, versions)[k]) == MetadataHash(versions[k])
    {
      if k != KeyOf(o) {
        assert VersionStored(s, o.id, k, versions[k]);
        HashOfHash(s.observations[ObsKeyFor(o.id, k, versions[k])]);
      }
    }
  }

  lemma {:induction false} LookupsMakeRow(rules: Rules, companies: map<string, string>, s: State, o: Observed,
                                          versions: map<string, Hash>, normal: Normal, diffs: Differences)
    requires WellNamed(o) && ValidStore(rules, companies, s)
    requires versions == Versions(Existing(s, o.id))[KeyOf(o) := MetadataHash(o.item)]
    requires var items := LookedUp(rules, companies, s, o, versions);
             GoodKeys(items) && NormalisedAs(rules, items, companies, normal)
             && DifferencesAs(rules, items, normal, diffs)
    ensures GoodKeys(versions) && NormalisedAs(rules, versions, companies, normal)
    ensures DifferencesAs(rules, versions, normal, diffs)
  {
    hide NormalisedAs, DifferencesAs, ValidStore, GoodKeys, LookedUp, WellNamed;
    var items := LookedUp(rules, companies, s, o, versions);
    LookupsAreHashed(rules, companies, s, o, versions);
    RowDependsOnHashesOnly(rules, items, versions, companies, normal);
    DifferencesDependOnHashesOnly(rules, items, versions, normal, diffs);
  }

  /** build_filing_row: normalised columns and discovery bookkeeping. */
  function BuildRow(existing: Option<Row>, change: Change, versions: map<string, Hash>, normal: Normal, run: int,
                    now: int): Row {
    var kept := if existing.Some? then existing.value.changedAt else None;
    Row(normal, versions, if existing.Some? then existing.value.firstSeen else now,
        if existing.Some? then existing.value.firstRun else run,
        if change == MetadataChanged then Some(now) else kept, now, run)
  }

  lemma {:induction false} RowApplied(rules: Rules, companies: map<string, string>, s: State, o: Observed, run: int,
                                      now: int, after: State, change: Change, row: Row)
    requires WellNamed(o) && ValidStore(rules, companies, s)
    requires change == Classify(Existing(s, o.id), o)
    requires row == BuildRow(Existing(s, o.id), change, row.versions, row.normal, run, now)
    requires row.versions == Versions(Existing(s, o.id))[KeyOf(o) := MetadataHash(o.item)]
    requires RowIsNormal(rules, companies, row)
    requires after.filings == s.filings[o.id := row]
    requires after.observations == if ObsKeyOf(o) in s.observations then s.observations
                                   else s.observations[ObsKeyOf(o) := o.item]
    ensures Applied(rules, companies, s, o, run, now, after, change)
  {
    hide RowIsNormal, ValidStore, KeyOf;
  }

  // ---------------------------------------------------------------- PostgresFilingStore

  class PostgresFilingStore {
    const rules: Rules
    const companies: map<string, string>
    var reportFilings: map<int, Row>
    var reportFilingObservations: map<ObsKey, Item>

    function Contents(): State
      reads this
    {
      State(reportFilings, reportFilingObservations)
    }

    ghost predicate Valid()
      reads this
    {
      ValidStore(rules, companies, Contents())
    }

    constructor (rules: Rules, companies: map<string, string>)
      ensures Valid() && Contents() == State(map[], map[]) && this.rules == rules && this.companies == companies
    {
      this.rules, this.companies := rules, companies;
      reportFilings, reportFilingObservations := map[], map[];
    }

    /** The stored entry of every other source's current version; `found` is false when one is missing. */
    method CurrentItems(o: Observed, versions: map<string, Hash>) returns (items: map<string, Item>, found: bool)
      requires Valid() && WellNamed(o)
      requires versions == Versions(Existing(Contents(), o.id))[KeyOf(o) := MetadataHash(o.item)]
      ensures found && items == LookedUp(rules, companies, Contents(), o, versions)
    {
      hide NormalisedAs, ValidStore, VersionStored, LookedUp, WellNamed;
      var key := KeyOf(o);
      KeyOfSplits(o);
      found, items := true, map[key := o.item];
      var all := LookedUp(rules, companies, Contents(), o, versions);
      LookedUpEntries(rules, companies, Contents(), o, versions);
      var rest := Keys(versions);
      for i := 0 to |rest|
        invariant found
        invariant forall k :: k in items <==> k == key || k in rest[..i]
        invariant forall k :: k in items ==> k in all && items[k] == all[k]
      {
        var k := rest[i];
        assert rest[..i + 1] == rest[..i] + [k];
        if k == key {
          continue;
        }
        var at := ObsKeyFor(o.id, k, versions[k]);
        if at !in reportFilingObservations {
          found := false;
          return;
        }
        items := items[k := reportFilingObservations[at]];
      }
      assert rest[..|rest|] == rest;
    }

    /** _apply, under the filing's row lock: an insert or update of the filing, and an insert of the observation
        unless unchanged, which a conflicting row silences. `found` is false where the code raises because a
        current version has no observation row: it never does. */
    method Apply(o: Observed, run: int, now: int) returns (change: Change, diffs: Differences, found: bool)
      requires Valid() && WellNamed(o)
      modifies this
      ensures found && Valid()
      ensures Applied(rules, companies, old(Contents()), o, run, now, Contents(), change)
      ensures Reported(rules, Contents(), o, diffs)
    {
      var before := Contents();
      var existing := Existing(before, o.id);
      change := Classify(existing, o);
      var key := KeyOf(o);
      KeyOfSplits(o);
      var versions := Versions(existing)[key := MetadataHash(o.item)];
      var items;
      items, found := CurrentItems(o, versions);
      if !found {
        return;
      }
      LookupsAreHashed(rules, companies, before, o, versions);
      var normal;
      normal, diffs := NormalizeFiling(rules, items, companies);
      LookupsMakeRow(rules, companies, before, o, versions, normal, diffs);
      hide NormalisedAs, DifferencesAs, ValidStore;
      var row := BuildRow(existing, change, versions, normal, run, now);
      reportFilings := reportFilings[o.id := row];
      if change != Unchanged {
        if ObsKeyOf(o) !in reportFilingObservations {
          reportFilingObservations := reportFilingObservations[ObsKeyOf(o) := o.item];
        }
      } else {
        UnchangedIsStored(rules, companies, before, o);
      }
      RowApplied(rules, companies, before, o, run, now, Contents(), change, row);
      AppliedKeepsValid(rules, companies, before, o, run, now, Contents(), change);
    }
  }

  method Keys(m: map<string, Hash>) returns (ks: seq<string>)
    ensures forall k :: k in ks <==> k in m
  {
    ks := [];
    var rest := m.Keys;
    while rest != {}
      invariant rest <= m.Keys
      invariant forall k :: k in ks <==> k in m && k !in rest
      decreases rest
    {
      var k :| k in rest;
      ks, rest := ks + [k], rest - {k};
    }
  }

  /** Why 'insert unless unchanged' loses nothing: an unchanged observation's row is already there. */
  lemma {:induction false} UnchangedIsStored(rules: Rules, companies: map<string, string>, s: State, o: Observed)
    requires WellNamed(o) && ValidStore(rules, companies, s) && Classify(Existing(s, o.id), o) == Unchanged
    ensures ObsKeyOf(o) in s.observations
  {
    KeyOfSplits(o);
    assert VersionStored(s, o.id, KeyOf(o), s.filings[o.id].versions[KeyOf(o)]);
  }

  // ---------------------------------------------------------------- whole histories

  /** s is a state the store can be in after these observations, in this order. */
  ghost predicate After(rules: Rules, companies: map<string, string>, obs: seq<Observed>, s: State) {
    if obs == [] then s == State(map[], map[])
    else
      var rest, o := obs[..|obs| - 1], obs[|obs| - 1];
      exists before :: After(rules, companies, rest, before) && Steps(rules, companies, before, o, s)
  }

  ghost predicate Steps(rules: Rules, companies: map<string, string>, s: State, o: Observed, after: State) {
    WellNamed(o) && exists run, now, change :: Applied(rules, companies, s, o, run, now, after, change)
  }

  /** The hash of the last observation of a source, if any. */
  function LastHash(obs: seq<Observed>, id: int, key: string): Option<Hash> {
    if obs == [] then None
    else
      var o := obs[|obs| - 1];
      if o.id == id && KeyOf(o) == key then Some(MetadataHash(o.item)) else LastHash(obs[..|obs| - 1], id, key)
  }

  ghost predicate VersionsAre(obs: seq<Observed>, s: State) {
    && (forall id, key :: id in s.filings && key in s.filings[id].versions ==>
          LastHash(obs, id, key) == Some(s.filings[id].versions[key]))
    && (forall id, key :: LastHash(obs, id, key).Some? ==> id in s.filings && key in s.filings[id].versions)
    && (forall id :: id in s.filings <==> exists o :: o in obs && o.id == id)
    && (forall k :: k in s.observations <==> exists o :: o in obs && ObsKeyOf(o) == k)
  }

  lemma {:induction false} EmptyStore(rules: Rules, companies: map<string, string>)
    ensures ValidStore(rules, companies, State(map[], map[])) && VersionsAre([], State(map[], map[]))
  {
  }

  lemma {:induction false} RowOfValid(rules: Rules, companies: map<string, string>, s: State, id: int)
    requires ValidStore(rules, companies, s) && id in s.filings
    ensures RowIsNormal(rules, companies, s.filings[id])
  {
    hide RowIsNormal;
  }

  lemma {:induction false} HistoriesAreValid(rules: Rules, companies: map<string, string>, obs: seq<Observed>, s: State)
    requires After(rules, companies, obs, s)
    ensures ValidStore(rules, companies, s) && VersionsAre(obs, s)
  {
    hide ValidStore, VersionsAre, Applied;
    if obs == [] {
      EmptyStore(rules, companies);
    } else {
      var o, rest := obs[|obs| - 1], obs[..|obs| - 1];
      var before :| After(rules, companies, rest, before) && Steps(rules, companies, before, o, s);
      var run, now, change :| Applied(rules, companies, before, o, run, now, s, change);
      HistoriesAreValid(rules, companies, rest, before);
      AppliedKeepsValid(rules, companies, before, o, run, now, s, change);
      VersionsOneMore(rules, companies, rest, before, o, run, now, s, change);
      assert obs == rest + [o];
    }
  }

  lemma {:induction false} VersionsOneMore(rules: Rules, companies: map<string, string>, obs: seq<Observed>,
                                           before: State, o: Observed, run: int, now: int, s: State, change: Change)
    requires VersionsAre(obs, before) && Applied(rules, companies, before, o, run, now, s, change)
    ensures VersionsAre(obs + [o], s)
  {
    hide RowIsNormal, KeyOf, MetadataHash;
    assert s.filings == before.filings[o.id := s.filings[o.id]];
    assert s.observations.Keys == before.observations.Keys + {ObsKeyOf(o)};
    SeenOneMore(obs, before, o, s);
    hide Applied, ObsKeyOf, LastHash;
    forall id, key ensures VersionIs(obs + [o], s, id, key) {
      assert VersionIs(obs, before, id, key) by {
        VersionOf(obs, before, id, key);
      }
      VersionOneMore(obs, before, o, s, id, key);
    }
    AllVersions(obs + [o], s);
  }

  /** The version of one source of one filing is the last hash seen for it. */
  ghost predicate VersionIs(obs: seq<Observed>, s: State, id: int, key: string) {
    LastHash(obs, id, key) ==
    if id in s.filings && key in s.filings[id].versions then Some(s.filings[id].versions[key]) else None
  }

  lemma {:induction false} VersionOf(obs: seq<Observed>, s: State, id: int, key: string)
    requires VersionsAre(obs, s)
    ensures VersionIs(obs, s, id, key)
  {
    hide LastHash, ObsKeyOf;
  }

  lemma {:induction false} AllVersions(obs: seq<Observed>, s: State)
    requires forall id, key :: VersionIs(obs, s, id, key)
    requires forall id :: id in s.filings <==> exists o :: o in obs && o.id == id
    requires forall k :: k in s.observations <==> exists o :: o in obs && ObsKeyOf(o) == k
    ensures VersionsAre(obs, s)
  {
    hide LastHash, ObsKeyOf;
    forall id, key | id in s.filings && key in s.filings[id].versions
      ensures LastHash(obs, id, key) == Some(s.filings[id].versions[key])
    {
      assert VersionIs(obs, s, id, key);
    }
    forall id, key | LastHash(obs, id, key).Some? ensures id in s.filings && key in s.filings[id].versions {
      assert VersionIs(obs, s, id, key);
    }
  }

  lemma {:induction false} VersionOneMore(obs: seq<Observed>, before: State, o: Observed, s: State, id: int,
                                          key: string)
    requires VersionIs(obs, before, id, key)
    requires o.id in s.filings && s.filings == before.filings[o.id := s.filings[o.id]]
    requires s.filings[o.id].versions == Versions(Existing(before, o.id))[KeyOf(o) := MetadataHash(o.item)]
    ensures VersionIs(obs + [o], s, id, key)
  {
    hide KeyOf, MetadataHash;
    assert (obs + [o])[..|obs + [o]| - 1] == obs;
  }

  /** The filings and observation rows present are exactly those of the observations made. */
  lemma {:induction false} SeenOneMore(obs: seq<Observed>, before: State, o: Observed, s: State)
    requires VersionsAre(obs, before) && o.id in s.filings && s.filings.Keys == before.filings.Keys + {o.id}
    requires s.observations.Keys == before.observations.Keys + {ObsKeyOf(o)}
    ensures forall id :: id in s.filings <==> exists x :: x in obs + [o] && x.id == id
    ensures forall k :: k in s.observations <==> exists x :: x in obs + [o] && ObsKeyOf(x) == k
  {
    hide ObsKeyOf;
    var more := obs + [o];
    forall x ensures x in more <==> x in obs || x == o {
    }
    forall id ensures id in s.filings <==> exists x :: x in more && x.id == id {
      if id in before.filings {
        var x :| x in obs && x.id == id;
        assert x in more;
      }
      assert o in more;
    }
    forall k ensures k in s.observations <==> exists x :: x in more && ObsKeyOf(x) == k {
      if k in before.observations {
        var x :| x in obs && ObsKeyOf(x) == k;
        assert x in more;
      }
      assert o in more;
    }
  }

  /** Order independence: two histories that end each source on the same metadata hash, however interleaved and
      whatever came before, leave every filing with the same versions and the same normalised row. */
  lemma {:induction false} OrderNeverMatters(rules: Rules, companies: map<string, string>, a: seq<Observed>,
                                             b: seq<Observed>, s: State, t: State)
    requires After(rules, companies, a, s) && After(rules, companies, b, t)
    requires forall id, key :: LastHash(a, id, key) == LastHash(b, id, key)
    ensures s.filings.Keys == t.filings.Keys
    ensures forall id :: id in s.filings ==>
              s.filings[id].versions == t.filings[id].versions && s.filings[id].normal == t.filings[id].normal
  {
    HistoriesAreValid(rules, companies, a, s);
    HistoriesAreValid(rules, companies, b, t);
    hide LastHash, RowIsNormal, VersionsAre, After, ValidStore;
    forall id | id in s.filings ensures id in t.filings {
      SameFilings(a, b, s, t, id);
    }
    forall id | id in t.filings ensures id in s.filings {
      SameFilings(b, a, t, s, id);
    }
    forall id | id in s.filings
      ensures s.filings[id].versions == t.filings[id].versions && s.filings[id].normal == t.filings[id].normal
    {
      RowOfValid(rules, companies, s, id);
      RowOfValid(rules, companies, t, id);
      SameRow(rules, companies, a, b, s, t, id);
    }
  }

  lemma {:induction false} SameRow(rules: Rules, companies: map<string, string>, a: seq<Observed>, b: seq<Observed>,
                                   s: State, t: State, id: int)
    requires VersionsAre(a, s) && VersionsAre(b, t) && id in s.filings && id in t.filings
    requires RowIsNormal(rules, companies, s.filings[id]) && RowIsNormal(rules, companies, t.filings[id])
    requires forall key :: LastHash(a, id, key) == LastHash(b, id, key)
    ensures s.filings[id].versions == t.filings[id].versions && s.filings[id].normal == t.filings[id].normal
  {
    hide LastHash, RowIsNormal, ObsKeyOf;
    var v, w := s.filings[id].versions, t.filings[id].versions;
    forall key ensures (key in v <==> key in w) && (key in v ==> v[key] == w[key]) {
      VersionOf(a, s, id, key);
      VersionOf(b, t, id, key);
    }
    assert v == w;
    SameNormal(rules, companies, s.filings[id], t.filings[id]);
  }

  lemma {:induction false} SameFilings(a: seq<Observed>, b: seq<Observed>, s: State, t: State, id: int)
    requires VersionsAre(a, s) && VersionsAre(b, t) && id in s.filings
    requires forall i, key :: LastHash(a, i, key) == LastHash(b, i, key)
    ensures id in t.filings
  {
    var o :| o in a && o.id == id;
    LastHashExists(a, o);
    assert LastHash(b, id, KeyOf(o)).Some?;
  }

  lemma {:induction false} LastHashExists(obs: seq<Observed>, o: Observed)
    requires o in obs
    ensures LastHash(obs, o.id, KeyOf(o)).Some?
  {
    var last := obs[|obs| - 1];
    if !(last.id == o.id && KeyOf(last) == KeyOf(o)) {
      assert o in obs[..|obs| - 1];
      LastHashExists(obs[..|obs| - 1], o);
    }
  }
}
