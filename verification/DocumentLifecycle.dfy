// The temporary-document lifecycle (worker/document_retrieval.py): a private directory per document,
// redirects, streaming, validation, the consumer, and a deletion that is verified. The network, the
// hashes, the consumer and the deletion are an arbitrary environment, and SIGTERM may unwind the process at
// any point of it; the records that come out are not arbitrary.
module DocumentLifecycle {
  import opened Prelude

  const MAX_REDIRECTS := 2
  const PDF_HEADER_WINDOW := 1024

  // ---------------------------------------------------------------- the environment

  /** What streaming one chunk does: n bytes, an interrupted stream, or a hash that fails after n bytes. */
  datatype Chunk = Bytes(n: nat) | StreamBreaks | HashBreaks(n: nat) | StreamUnwinds

  datatype Etag = NotComparable | EtagMatches | EtagDiffers

  /** What the file turns out to hold: where '%PDF-' is in its head, whether its tail holds '%%EOF', whether it is a
      zip, and whether it can be hashed and read back with the streamed size. */
  datatype Content = Content(pdfAt: Option<nat>, eof: bool, zip: bool, sizeAgrees: bool)

  /** declared: no Content-Length, an unparseable one, or a number. */
  datatype Declared = NoLength | BadLength | Length(n: int)

  datatype Response = Response(status: int, locationAllowed: bool, chunks: seq<Chunk>, declared: Declared, etag: Etag,
                               content: Content)

  /** fetcher.fetch: a response, an exception, or a BaseException (SIGTERM's SystemExit). */
  datatype FetchResult = Fetched(r: Response) | FetchRaises(timeout: bool) | FetchUnwinds

  class Fetcher {
    var pending: seq<FetchResult>
    var requests: nat

    constructor (script: seq<FetchResult>)
      ensures pending == script && requests == 0
    {
      pending, requests := script, 0;
    }

    method Fetch() returns (r: FetchResult)
      modifies this
      ensures requests == old(requests) + 1
      ensures r == Answer(old(pending)) && pending == Later(old(pending))
    {
      requests := requests + 1;
      r, pending := Answer(pending), Later(pending);
    }
  }

  /** What the network answers next; once it has nothing more to say, every request fails. */
  function Answer(script: seq<FetchResult>): FetchResult {
    if script == [] then FetchRaises(false) else script[0]
  }

  function Later(script: seq<FetchResult>): seq<FetchResult> {
    if script == [] then [] else script[1..]
  }

  datatype ConsumerBehaviour = ConsumerReturns | ConsumerRaises | ConsumerUnwinds

  /** rmtree and its confirmation: it removes the directory, finds it gone, raises, or returns and leaves it there; or
      it (or what follows it) is unwound, which nothing catches, with the directory left or not. */
  datatype Removal = Removes | FindsItGone | RemovalRaises(left: bool) | LeavesIt | RemovalUnwinds(left: bool)

  /** _remove_tree: the directory is confirmed gone, that fails, or it is unwound before it can say. */
  datatype Verdict = Gone | NotConfirmed | Unwinding

  /** A directory entry of the temporary root; documents' own directories carry the 'cse_f2_' prefix. */
  datatype Entry = Entry(ours: bool, filing: int, unique: nat)

  /** The temporary root. Names are handed out by `next`: mkdtemp never returns an existing name. */
  class TempRoot {
    var entries: set<Entry>
    var next: nat

    ghost predicate Valid()
      reads this
    {
      forall e :: e in entries ==> e.unique < next
    }

    constructor (existing: set<Entry>, next: nat)
      requires forall e :: e in existing ==> e.unique < next
      ensures Valid() && entries == existing
    {
      entries, this.next := existing, next;
    }

    /** tempfile.mkdtemp(prefix='cse_f2_<id>_') */
    method MakeDirectory(filing: int) returns (dir: Entry)
      requires Valid()
      modifies this
      ensures Valid() && dir !in old(entries) && entries == old(entries) + {dir} && dir.ours
    {
      dir := Entry(true, filing, next);
      entries := entries + {dir};
      next := next + 1;
    }

    /** _remove_tree */
    method RemoveTree(dir: Entry, removal: Removal) returns (verdict: Verdict)
      requires Valid()
      modifies this`entries
      ensures Valid()
      ensures verdict == Gone <==> VerifiedGone(removal)
      ensures verdict == Unwinding <==> removal.RemovalUnwinds?
      ensures entries == if removal in {LeavesIt, RemovalRaises(true), RemovalUnwinds(true)} then old(entries)
                         else old(entries) - {dir}
    {
      if !StillThere(removal) {
        entries := entries - {dir};
      }
      match removal {
        case Removes => verdict := Gone;
        case FindsItGone => verdict := Gone;
        case RemovalUnwinds(_) => verdict := Unwinding;
        case _ => verdict := NotConfirmed;
      }
    }
  }

  /** _remove_tree's verdict: the directory is confirmed gone. */
  predicate VerifiedGone(removal: Removal) {
    removal == Removes || removal == FindsItGone
  }

  predicate StillThere(removal: Removal) {
    removal == LeavesIt || removal == RemovalRaises(true) || removal == RemovalUnwinds(true)
  }

  // ---------------------------------------------------------------- records

  datatype Outcome = Pending | Succeeded | NoDocument | InvalidPath | DownloadFailed | ValidationFailed | HashFailed
                   | ConsumerFailed | InternalError | CleanupFailed

  datatype Category =
    | NoCategory | NoCompanionPath | NullPath | BadPath
    | ForbiddenOrMissing | NotFound | ServerError | UnexpectedStatus | TooLarge | UnexpectedRedirect | TooManyRedirects
    | NetworkError | Timeout | DownloadInterrupted | HashCategory | TempRootProblem | Bug
    | Truncated | LengthMismatch | EtagMismatch | EmptyBody | NotPdf | TruncatedOrMalformed | NotExpectedType

  datatype ConsumerStatus = NotRun | ConsumerSucceeded | ConsumerFailedStatus
  datatype Cleanup = NotNeeded | CleanupPending | Deleted | CleanupFailedStatus

  datatype Record = Record(outcome: Outcome, category: Category, status: Option<int>, validated: bool,
                           consumer: ConsumerStatus, cleanup: Cleanup)

  const NEW_RECORD := Record(Pending, NoCategory, None, false, NotRun, NotNeeded)

  // ---------------------------------------------------------------- download

  predicate IsRedirect(status: int) {
    status == 301 || status == 302 || status == 303 || status == 307 || status == 308
  }

  datatype Opened = Open(r: Response) | RedirectError(category: Category, status: Option<int>)
                  | OpenRaises(timeout: bool) | OpenUnwinds

  /** Where following redirects leads, with this many requests left, and what the network says after that. */
  function Followed(script: seq<FetchResult>, left: nat): (Opened, seq<FetchResult>) {
    if left == 0 then (RedirectError(TooManyRedirects, None), script)
    else
      match Answer(script)
      case FetchRaises(timeout) => (OpenRaises(timeout), Later(script))
      case FetchUnwinds => (OpenUnwinds, Later(script))
      case Fetched(r) =>
        if !IsRedirect(r.status) then (Open(r), Later(script))
        else if !r.locationAllowed then (RedirectError(UnexpectedRedirect, Some(r.status)), Later(script))
        else Followed(Later(script), left - 1)
  }

  /** _open_following_redirects: at most MAX_REDIRECTS redirects, each to the CDN only. */
  method OpenFollowingRedirects(f: Fetcher) returns (o: Opened)
    modifies f
    ensures (o, f.pending) == Followed(old(f.pending), MAX_REDIRECTS + 1)
    ensures f.requests <= old(f.requests) + MAX_REDIRECTS + 1
    ensures o.Open? ==> !IsRedirect(o.r.status)
    ensures o.RedirectError? ==> o.category in {UnexpectedRedirect, TooManyRedirects}
                                 && (o.status.Some? ==> IsRedirect(o.status.value))
  {
    for i := 0 to MAX_REDIRECTS + 1
      invariant f.requests == old(f.requests) + i
      invariant Followed(f.pending, MAX_REDIRECTS + 1 - i) == Followed(old(f.pending), MAX_REDIRECTS + 1)
    {
      var got := f.Fetch();
      match got {
        case FetchRaises(timeout) => return OpenRaises(timeout);
        case FetchUnwinds => return OpenUnwinds;
        case Fetched(r) =>
          if !IsRedirect(r.status) {
            return Open(r);
          }
          if !r.locationAllowed {
            return RedirectError(UnexpectedRedirect, Some(r.status));
          }
      }
    }
    o := RedirectError(TooManyRedirects, None);
  }

  /** n: bytes streamed. A download without an error category is the whole stream of a 200 response. */
  datatype Download = Downloaded(r: Response, n: nat) | DownloadError(category: Category, status: Option<int>)
                    | DownloadUnwinds

  /** The bytes of a stream in which nothing goes wrong. */
  function StreamLength(chunks: seq<Chunk>): nat {
    if chunks == [] then 0
    else (match chunks[0] case Bytes(n) => n case HashBreaks(n) => n case _ => 0) + StreamLength(chunks[1..])
  }

  predicate Streams(chunks: seq<Chunk>) {
    forall c :: c in chunks ==> c.Bytes? || (c.HashBreaks? && c.n == 0)
  }

  /** How a stream ends, n bytes having been written before it: chunk by chunk. */
  function Streamed(r: Response, chunks: seq<Chunk>, n: nat, maxBytes: nat): Download {
    if chunks == [] then Downloaded(r, n)
    else
      match chunks[0]
      case StreamBreaks => DownloadError(DownloadInterrupted, Some(200))
      case StreamUnwinds => DownloadUnwinds
      case Bytes(k) =>
        if n + k > maxBytes then DownloadError(TooLarge, Some(200)) else Streamed(r, chunks[1..], n + k, maxBytes)
      case HashBreaks(k) =>
        if k == 0 then Streamed(r, chunks[1..], n, maxBytes)
        else if n + k > maxBytes then DownloadError(TooLarge, Some(200))
        else DownloadError(HashCategory, Some(200))
  }

  function StatusError(status: int): Category {
    if status == 403 then ForbiddenOrMissing else if status == 404 then NotFound
    else if status >= 500 then ServerError else UnexpectedStatus
  }

  /** One candidate's download, and what the network says after it. */
  function DownloadOf(script: seq<FetchResult>, maxBytes: nat): (Download, seq<FetchResult>) {
    var (answer, rest) := Followed(script, MAX_REDIRECTS + 1);
    (match answer
     case OpenUnwinds => DownloadUnwinds
     case OpenRaises(timeout) => DownloadError(if timeout then Timeout else NetworkError, None)
     case RedirectError(category, status) => DownloadError(category, status)
     case Open(r) =>
       if r.status == 200 then Streamed(r, r.chunks, 0, maxBytes)
       else if r.chunks != [] && r.chunks[0] == StreamUnwinds then DownloadUnwinds
       else DownloadError(StatusError(r.status), Some(r.status)),
     rest)
  }

  const DOWNLOAD_CATEGORIES :=
    {Timeout, NetworkError, UnexpectedRedirect, TooManyRedirects, ForbiddenOrMissing, NotFound, ServerError,
     UnexpectedStatus, TooLarge, HashCategory, DownloadInterrupted}

  /** _download of one candidate. */
  method DownloadOne(f: Fetcher, maxBytes: nat) returns (d: Download)
    modifies f
    ensures (d, f.pending) == DownloadOf(old(f.pending), maxBytes)
    ensures f.requests <= old(f.requests) + MAX_REDIRECTS + 1
    ensures d.Downloaded? ==>
              d.r.status == 200 && Streams(d.r.chunks) && d.n == StreamLength(d.r.chunks) && d.n <= maxBytes
    ensures d.DownloadError? ==> d.category in DOWNLOAD_CATEGORIES
    ensures d.DownloadError? && d.category in {ForbiddenOrMissing, NotFound, ServerError, UnexpectedStatus} ==>
              d.status.Some? && d.status.value != 200 && d.category == StatusError(d.status.value)
    ensures d.DownloadError? && d.status.Some? && d.status.value in {403, 404} ==>
              d.category in {ForbiddenOrMissing, NotFound}
  {
    var answer := OpenFollowingRedirects(f);
    match answer {
      case OpenUnwinds => d := DownloadUnwinds;
      case OpenRaises(timeout) => d := DownloadError(if timeout then Timeout else NetworkError, None);
      case RedirectError(category, status) => d := DownloadError(category, status);
      case Open(r) =>
        if r.status != 200 {
          if r.chunks != [] && r.chunks[0] == StreamUnwinds {
            return DownloadUnwinds;
          }
          return DownloadError(StatusError(r.status), Some(r.status));
        }
        d := StreamBody(r, maxBytes);
    }
  }

  method StreamBody(r: Response, maxBytes: nat) returns (d: Download)
    requires r.status == 200
    ensures d == Streamed(r, r.chunks, 0, maxBytes)
    ensures d.Downloaded? ==> d.r == r && Streams(r.chunks) && d.n == StreamLength(r.chunks) && d.n <= maxBytes
    ensures d.DownloadError? ==> d.category in {TooLarge, HashCategory, DownloadInterrupted} && d.status == Some(200)
  {
    var n := 0;
    for i := 0 to |r.chunks|
      invariant n + StreamLength(r.chunks[i..]) == StreamLength(r.chunks)
      invariant Streams(r.chunks[..i]) && n <= maxBytes
      invariant Streamed(r, r.chunks[i..], n, maxBytes) == Streamed(r, r.chunks, 0, maxBytes)
    {
      var chunk := r.chunks[i];
      assert r.chunks[i..][1..] == r.chunks[i + 1..];
      assert r.chunks[..i + 1] == r.chunks[..i] + [chunk];
      match chunk {
        case StreamBreaks => return DownloadError(DownloadInterrupted, Some(200));
        case StreamUnwinds => return DownloadUnwinds;
        case Bytes(k) =>
          n := n + k;
          if n > maxBytes {
            return DownloadError(TooLarge, Some(200));
          }
        case HashBreaks(k) =>
          if k > 0 {
            if n + k > maxBytes {
              return DownloadError(TooLarge, Some(200));
            }
            return DownloadError(HashCategory, Some(200));
          }
      }
    }
    assert r.chunks[..|r.chunks|] == r.chunks;
    d := Downloaded(r, n);
  }

  // ---------------------------------------------------------------- validation

  datatype Kind = Pdf | Zip

  /** validate_content: the category, or None when the document is valid. */
  function ValidateContent(kind: Kind, r: Response, n: nat): (c: Option<Category>)
    ensures c.Some? ==>
              c.value in {Truncated, LengthMismatch, EtagMismatch, EmptyBody, NotPdf, TruncatedOrMalformed,
                          NotExpectedType}
  {
    if r.declared.Length? && r.declared.n != n then Some(if n < r.declared.n then Truncated else LengthMismatch)
    else if r.etag == EtagDiffers then Some(EtagMismatch)
    else if n == 0 then Some(EmptyBody)
    else match kind
      case Pdf =>
        if r.content.pdfAt.None? || r.content.pdfAt.value >= PDF_HEADER_WINDOW then Some(NotPdf)
        else if !r.content.eof then Some(TruncatedOrMalformed) else None
      case Zip => if r.content.zip then None else Some(NotExpectedType)
  }

  /** What a validated document is: no smaller and no larger than declared, not contradicted by a strong ETag, not
      empty, and structurally of its kind. */
  ghost predicate ValidDocument(kind: Kind, r: Response, n: nat) {
    && (r.declared.Length? ==> r.declared.n == n)
    && r.etag != EtagDiffers && n > 0
    && (kind == Pdf ==> r.content.pdfAt.Some? && r.content.pdfAt.value < PDF_HEADER_WINDOW && r.content.eof)
    && (kind == Zip ==> r.content.zip)
  }

  /** The first rule that the document violates, in the order length, ETag, emptiness, structure, as its category. */
  predicate Violates(kind: Kind, r: Response, n: nat, category: Category) {
    var sized := r.declared.Length? ==> r.declared.n == n;
    var sound := sized && r.etag != EtagDiffers && n > 0;
    var headed := r.content.pdfAt.Some? && r.content.pdfAt.value < PDF_HEADER_WINDOW;
    && (category == Truncated ==> r.declared.Length? && n < r.declared.n)
    && (category == LengthMismatch ==> r.declared.Length? && n > r.declared.n)
    && (category == EtagMismatch ==> sized && r.etag == EtagDiffers)
    && (category == EmptyBody ==> sized && r.etag != EtagDiffers && n == 0)
    && (category == NotPdf ==> sound && kind == Pdf && !headed)
    && (category == TruncatedOrMalformed ==> sound && kind == Pdf && headed && !r.content.eof)
    && (category == NotExpectedType ==> sound && kind == Zip && !r.content.zip)
    && category in {Truncated, LengthMismatch, EtagMismatch, EmptyBody, NotPdf, TruncatedOrMalformed, NotExpectedType}
  }

  lemma {:induction false} ValidationIsExact(kind: Kind, r: Response, n: nat)
    ensures ValidateContent(kind, r, n) == None <==> ValidDocument(kind, r, n)
    ensures forall c :: ValidateContent(kind, r, n) == Some(c) <==> Violates(kind, r, n, c)
  {
  }

  // ---------------------------------------------------------------- retrieve_into

  /** The filing's path: absent, malformed, or valid; a legacy path has a second URL candidate. */
  datatype PathShape = AbsentPath | MalformedPath | PlainPath | LegacyPath

  function Candidates(p: PathShape): nat {
    match p case PlainPath => 1 case LegacyPath => 2 case _ => 0
  }

  /** A document in the directory, a record without one, an internal exception, or an unwinding BaseException. */
  datatype Retrieval = Document(rec: Record) | NoDocumentRecord(rec: Record) | RetrievalRaises | RetrievalUnwinds

  ghost predicate RetrievalRecord(rec: Record) {
    && rec.consumer == NotRun && rec.cleanup == NotNeeded
    && rec.outcome in {NoDocument, InvalidPath, DownloadFailed, ValidationFailed, HashFailed} && !rec.validated
    && rec.category != TempRootProblem
    && (rec.outcome == DownloadFailed ==> rec.category in DOWNLOAD_CATEGORIES - {HashCategory})
  }

  function Ended(trouble: Trouble): Retrieval {
    if trouble.unwinds then RetrievalUnwinds else RetrievalRaises
  }

  /** How the downloads of retrieve_into go: they end with this last one, an exception is raised, or it is unwound. */
  datatype Course = Ends(d: Download) | Raises | Unwound

  predicate FallsBack(d: Download, i: nat, path: PathShape) {
    d.DownloadError? && d.status.Some? && d.status.value in {403, 404} && i + 1 < Candidates(path)
  }

  /** Something unexpected in retrieve_into, outside the network's own answers: an exception, or an unwinding. It
      happens before the download of candidate `at`, or after the last download if there is no such one: in removing a
      partial file, in closing a response, or in validating; or it is unwound in hashing. */
  datatype Trouble = Trouble(at: nat, unwinds: bool)

  function TroubleCourse(trouble: Trouble): Course {
    if trouble.unwinds then Unwound else Raises
  }

  function CourseOf(script: seq<FetchResult>, path: PathShape, maxBytes: nat, trouble: Option<Trouble>, i: nat)
    : (Course, seq<FetchResult>)
    decreases Candidates(path) - i
  {
    if trouble.Some? && (trouble.value.at == i || i >= Candidates(path)) then (TroubleCourse(trouble.value), script)
    else if i >= Candidates(path) then (Ends(DownloadError(NoCategory, None)), script)
    else
      var (d, rest) := DownloadOf(script, maxBytes);
      if d.DownloadUnwinds? then (Unwound, rest)
      else if FallsBack(d, i, path) then CourseOf(rest, path, maxBytes, trouble, i + 1)
      else if trouble.Some? && trouble.value.at > i then (TroubleCourse(trouble.value), rest)
      else (Ends(d), rest)
  }

  /** The last download is a document that may reach the consumer: written in full, and valid. */
  ghost predicate Acceptable(kind: Kind, c: Course) {
    c.Ends? && c.d.Downloaded? && c.d.r.content.sizeAgrees && ValidDocument(kind, c.d.r, c.d.n)
  }

  /** The record of a retrieval without a document: no path, a path that is none, or what its last download was. */
  ghost predicate Records(path: PathShape, companion: bool, c: Course, rec: Record) {
    && rec.consumer == NotRun && rec.cleanup == NotNeeded && !rec.validated
    && match path
       case AbsentPath =>
         rec.outcome == NoDocument && rec.category == (if companion then NoCompanionPath else NullPath)
         && rec.status.None?
       case MalformedPath => rec.outcome == InvalidPath && rec.category == BadPath && rec.status.None?
       case _ =>
         c.Ends? &&
         match c.d
         case DownloadError(category, status) =>
           rec.outcome == (if category == HashCategory then HashFailed else DownloadFailed)
           && rec.category == category && rec.status == status
         case Downloaded(r, n) =>
           rec.status == Some(200)
           && if !r.content.sizeAgrees then rec.outcome == HashFailed && rec.category == HashCategory
              else rec.outcome == ValidationFailed && Violates(if companion then Zip else Pdf, r, n, rec.category)
         case DownloadUnwinds => false
  }

  /** retrieve_into. `companion`: the companion role's archive. */
  method RetrieveInto(f: Fetcher, path: PathShape, companion: bool, maxBytes: nat, trouble: Option<Trouble>)
    returns (got: Retrieval)
    modifies f
    ensures f.requests <= old(f.requests) + Candidates(path) * (MAX_REDIRECTS + 1)
    ensures f.pending == CourseOf(old(f.pending), path, maxBytes, trouble, 0).1
    ensures got.RetrievalUnwinds? <==> CourseOf(old(f.pending), path, maxBytes, trouble, 0).0 == Unwound
    ensures got.RetrievalRaises? <==> CourseOf(old(f.pending), path, maxBytes, trouble, 0).0 == Raises
    ensures got.Document? ==> got.rec == NEW_RECORD.(validated := true, status := Some(200))
    ensures got.Document? <==>
              Acceptable(if companion then Zip else Pdf, CourseOf(old(f.pending), path, maxBytes, trouble, 0).0)
    ensures got.NoDocumentRecord? ==> RetrievalRecord(got.rec)
    ensures got.NoDocumentRecord? ==>
              Records(path, companion, CourseOf(old(f.pending), path, maxBytes, trouble, 0).0, got.rec)
  {
    if trouble.Some? && Candidates(path) == 0 {
      return Ended(trouble.value);
    }
    if companion && path == AbsentPath {
      return NoDocumentRecord(NEW_RECORD.(outcome := NoDocument, category := NoCompanionPath));
    }
    if path == AbsentPath {
      return NoDocumentRecord(NEW_RECORD.(outcome := NoDocument, category := NullPath));
    }
    if path == MalformedPath {
      return NoDocumentRecord(NEW_RECORD.(outcome := InvalidPath, category := BadPath));
    }
    var d := DownloadUnwinds;
    var i := 0;
    while true
      invariant i < Candidates(path)
      invariant f.requests <= old(f.requests) + i * (MAX_REDIRECTS + 1)
      invariant CourseOf(f.pending, path, maxBytes, trouble, i) == CourseOf(old(f.pending), path, maxBytes, trouble, 0)
      invariant trouble.Some? ==> trouble.value.at >= i
      decreases Candidates(path) - i
    {
      if trouble.Some? && trouble.value.at == i {
        return Ended(trouble.value);
      }
      d := DownloadOne(f, maxBytes);
      if d.DownloadUnwinds? {
        return RetrievalUnwinds;
      }
      if !FallsBack(d, i, path) {
        break;
      }
      i := i + 1;
    }
    if trouble.Some? {
      return Ended(trouble.value);
    }
    if d.DownloadError? {
      var outcome := if d.category == HashCategory then HashFailed else DownloadFailed;
      return NoDocumentRecord(NEW_RECORD.(outcome := outcome, category := d.category, status := d.status));
    }
    var rec := NEW_RECORD.(status := Some(d.r.status));
    if !d.r.content.sizeAgrees {
      return NoDocumentRecord(rec.(outcome := HashFailed, category := HashCategory));
    }
    var kind := if companion then Zip else Pdf;
    var problem := ValidateContent(kind, d.r, d.n);
    ValidationIsExact(kind, d.r, d.n);
    if problem.Some? {
      return NoDocumentRecord(rec.(outcome := ValidationFailed, category := problem.value));
    }
    got := Document(rec.(validated := true));
  }

  // ---------------------------------------------------------------- the lifecycle of one filing

  /** How process_filing begins: the temporary root is refused; an exception or an unwinding comes before there is a
      private directory; an unwinding comes after mkdtemp and before anything guards the directory; or all is well. */
  datatype Start = RootRefused | NoWorkspace | WorkspaceUnwound | WorkspaceMade

  /** What one filing meets: its path, a trouble in its retrieval, its consumer (none when not given), the deletion, and
      how it begins. */
  datatype Filing = Filing(id: int, path: PathShape, companion: bool, trouble: Option<Trouble>,
                           consumer: Option<ConsumerBehaviour>, removal: Removal, start: Start)

  /** process_filing returns a record, or an exception leaves it. */
  datatype Exit = Returned(rec: Record) | Escaped

  /** The laws every returned record obeys, whatever the network, the hashes, the consumer and the deletion do. */
  predicate LawfulRecord(rec: Record, consumerGiven: bool) {
    && rec.outcome != Pending && rec.cleanup != CleanupPending
    && (rec.outcome == CleanupFailed <==> rec.cleanup == CleanupFailedStatus)
    && (rec.outcome in {Succeeded, ConsumerFailed} ==> rec.validated && rec.cleanup == Deleted)
    && (rec.consumer != NotRun ==> rec.validated)
    && (rec.outcome == Succeeded ==> rec.consumer == if consumerGiven then ConsumerSucceeded else NotRun)
    && (rec.outcome == ConsumerFailed ==> rec.consumer == ConsumerFailedStatus)
    && (rec.outcome !in {Succeeded, ConsumerFailed, CleanupFailed} ==> rec.consumer == NotRun && !rec.validated)
    && (rec.category == TempRootProblem ==> rec.outcome == DownloadFailed && rec.cleanup == NotNeeded)
    && (rec.cleanup == NotNeeded ==> rec.category == TempRootProblem)
  }

  function CourseOfFiling(script: seq<FetchResult>, filing: Filing, maxBytes: nat): (Course, seq<FetchResult>) {
    CourseOf(script, filing.path, maxBytes, filing.trouble, 0)
  }

  function KindOf(filing: Filing): Kind {
    if filing.companion then Zip else Pdf
  }

  /** The filing's document reaches its consumer. */
  ghost predicate Reaches(script: seq<FetchResult>, filing: Filing, maxBytes: nat) {
    Acceptable(KindOf(filing), CourseOfFiling(script, filing, maxBytes).0)
  }

  /** The process is being unwound before the deletion: inside a request or its stream, elsewhere in the retrieval, or
      inside the consumer. */
  ghost predicate Unwinds(script: seq<FetchResult>, filing: Filing, maxBytes: nat) {
    || CourseOfFiling(script, filing, maxBytes).0.Unwound?
    || (Reaches(script, filing, maxBytes) && filing.consumer == Some(ConsumerUnwinds))
  }

  /** Exactly when an exception leaves process_filing instead of a record. */
  ghost predicate Escapes(script: seq<FetchResult>, filing: Filing, maxBytes: nat) {
    match filing.start
    case RootRefused => false
    case NoWorkspace => true
    case WorkspaceUnwound => true
    case WorkspaceMade =>
      filing.removal.RemovalUnwinds? || (VerifiedGone(filing.removal) && Unwinds(script, filing, maxBytes))
  }

  /** The record of a filing whose directory is verified gone: what its retrieval came to, and what its consumer did
      with a document. */
  ghost predicate CourseRecord(c: Course, filing: Filing, rec: Record) {
    if c.Raises? then rec == NEW_RECORD.(outcome := InternalError, category := Bug, cleanup := Deleted)
    else if Acceptable(KindOf(filing), c) then
      var done := NEW_RECORD.(validated := true, status := Some(200), cleanup := Deleted);
      match filing.consumer
      case None => rec == done.(outcome := Succeeded)
      case Some(ConsumerReturns) => rec == done.(outcome := Succeeded, consumer := ConsumerSucceeded)
      case Some(ConsumerRaises) => rec == done.(outcome := ConsumerFailed, consumer := ConsumerFailedStatus)
      case Some(ConsumerUnwinds) => false
    else rec.cleanup == Deleted && Records(filing.path, filing.companion, c, rec.(cleanup := NotNeeded))
  }

  ghost predicate FilingRecord(script: seq<FetchResult>, filing: Filing, maxBytes: nat, rec: Record) {
    CourseRecord(CourseOfFiling(script, filing, maxBytes).0, filing, rec)
  }

  /** Exactly when the filing's private directory is still there afterwards. */
  predicate LeavesDirectory(filing: Filing) {
    filing.start == WorkspaceUnwound || (filing.start == WorkspaceMade && StillThere(filing.removal))
  }

  function AfterFiling(script: seq<FetchResult>, filing: Filing, maxBytes: nat): seq<FetchResult> {
    if filing.start == WorkspaceMade then CourseOfFiling(script, filing, maxBytes).1 else script
  }

  // ---------------------------------------------------------------- when nothing unwinds

  predicate QuietAnswer(a: FetchResult) {
    !a.FetchUnwinds? && (a.Fetched? ==> StreamUnwinds !in a.r.chunks)
  }

  /** No answer of the network unwinds the process. */
  predicate Quiet(script: seq<FetchResult>) {
    forall i :: 0 <= i < |script| ==> QuietAnswer(script[i])
  }

  lemma {:induction false} QuietFollowed(script: seq<FetchResult>, left: nat)
    requires Quiet(script)
    ensures var (answer, rest) := Followed(script, left);
            Quiet(rest) && !answer.OpenUnwinds? && (answer.Open? ==> StreamUnwinds !in answer.r.chunks)
  {
    if left > 0 {
      assert QuietAnswer(Answer(script));
      QuietFollowed(Later(script), left - 1);
    }
  }

  lemma {:induction false} QuietStream(r: Response, chunks: seq<Chunk>, n: nat, maxBytes: nat)
    requires StreamUnwinds !in chunks
    ensures !Streamed(r, chunks, n, maxBytes).DownloadUnwinds?
  {
    if chunks != [] {
      assert chunks[0] in chunks;
      QuietStream(r, chunks[1..], n, maxBytes);
      QuietStream(r, chunks[1..], n + (if chunks[0].Bytes? then chunks[0].n else 0), maxBytes);
    }
  }

  lemma {:induction false} QuietDownload(script: seq<FetchResult>, maxBytes: nat)
    requires Quiet(script)
    ensures !DownloadOf(script, maxBytes).0.DownloadUnwinds? && Quiet(DownloadOf(script, maxBytes).1)
  {
    hide Streamed, Followed, Quiet;
    QuietFollowed(script, MAX_REDIRECTS + 1);
    var answer := Followed(script, MAX_REDIRECTS + 1).0;
    if answer.Open? {
      QuietStream(answer.r, answer.r.chunks, 0, maxBytes);
    }
  }

  lemma {:induction false} QuietCourse(script: seq<FetchResult>, path: PathShape, maxBytes: nat,
                                       trouble: Option<Trouble>, i: nat)
    requires Quiet(script) && (trouble.Some? ==> !trouble.value.unwinds)
    ensures !CourseOf(script, path, maxBytes, trouble, i).0.Unwound?
    ensures Quiet(CourseOf(script, path, maxBytes, trouble, i).1)
    decreases Candidates(path) - i
  {
    hide DownloadOf, Quiet;
    if i < Candidates(path) {
      QuietDownload(script, maxBytes);
      if FallsBack(DownloadOf(script, maxBytes).0, i, path) {
        QuietCourse(DownloadOf(script, maxBytes).1, path, maxBytes, trouble, i + 1);
      }
    }
  }

  /** Outside the network, nothing unwinds this filing, and its directory can be made. */
  predicate QuietFiling(filing: Filing) {
    && filing.start in {RootRefused, WorkspaceMade}
    && (filing.trouble.Some? ==> !filing.trouble.value.unwinds)
    && filing.consumer != Some(ConsumerUnwinds) && !filing.removal.RemovalUnwinds?
  }

  /** Whatever the network answers short of unwinding the process, and whatever the retrieval, the hashes, the consumer
      and the deletion do short of that, process_filing returns a record once its directory could be made. */
  lemma {:induction false} QuietFilingReturns(script: seq<FetchResult>, filing: Filing, maxBytes: nat)
    requires Quiet(script) && QuietFiling(filing)
    ensures !Escapes(script, filing, maxBytes) && Quiet(AfterFiling(script, filing, maxBytes))
  {
    hide CourseOf, Quiet, Acceptable;
    QuietCourse(script, filing.path, maxBytes, filing.trouble, 0);
  }

  /** It does not always return one. A request that is being unwound leaves it by the exception when the deletion is
      verified, or is unwound itself; a deletion that merely fails turns the unwinding into a record. */
  lemma {:induction false} UnwindingEscapes(filing: Filing, maxBytes: nat, later: seq<FetchResult>)
    requires filing.path == PlainPath && filing.trouble == None && filing.start == WorkspaceMade
    ensures Escapes([FetchUnwinds] + later, filing, maxBytes) <==>
            VerifiedGone(filing.removal) || filing.removal.RemovalUnwinds?
  {
    var script := [FetchUnwinds] + later;
    assert Answer(script) == FetchUnwinds;
    assert Followed(script, MAX_REDIRECTS + 1).0 == OpenUnwinds;
  }

  /** ... and an unwinding in the deletion itself, or right after mkdtemp, leaves it whatever else happened, the network
      quiet included: with the deletion unverified, and the directory there in some of these cases. */
  lemma {:induction false} UnwoundDeletionEscapes(script: seq<FetchResult>, filing: Filing, maxBytes: nat, left: bool)
    requires filing.start in {WorkspaceMade, WorkspaceUnwound}
    ensures Escapes(script, filing.(start := WorkspaceMade, removal := RemovalUnwinds(left)), maxBytes)
    ensures LeavesDirectory(filing.(start := WorkspaceMade, removal := RemovalUnwinds(left))) <==> left
    ensures Escapes(script, filing.(start := WorkspaceUnwound), maxBytes)
    ensures LeavesDirectory(filing.(start := WorkspaceUnwound))
    ensures !VerifiedGone(RemovalUnwinds(left))
  {
  }

  // ---------------------------------------------------------------- what the network's answers come to

  predicate RedirectsOn(a: FetchResult) {
    a.Fetched? && a.r.status in {301, 302, 303, 307, 308} && a.r.locationAllowed
  }

  /** A candidate's answer after k redirects; the third redirect is not followed any more. */
  ghost predicate AnswersAfter(script: seq<FetchResult>, k: nat, a: FetchResult) {
    && k <= 2 && k <= |script| && (forall j :: 0 <= j < k ==> RedirectsOn(script[j]))
    && a == (if k < |script| then script[k] else FetchRaises(false)) && (k < 2 ==> !RedirectsOn(a))
  }

  predicate SaysMissing(a: FetchResult) {
    a.Fetched? && a.r.status in {403, 404} && (a.r.chunks != [] ==> a.r.chunks[0] != StreamUnwinds)
  }

  /** The answer that decides: the only candidate's, or, if a legacy path's first candidate is missing, the second's. */
  ghost predicate LastAnswer(script: seq<FetchResult>, path: PathShape, a: FetchResult) {
    match path
    case PlainPath => AnswersFirst(script, a)
    case LegacyPath => (AnswersFirst(script, a) && !SaysMissing(a)) || exists k: nat :: AnswersSecond(script, k, a)
    case _ => false
  }

  ghost predicate AnswersFirst(script: seq<FetchResult>, a: FetchResult) {
    exists k: nat :: AnswersAfter(script, k, a)
  }

  /** Whatever the network says, some answer decides. */
  lemma {:induction false} SomeAnswerDecides(script: seq<FetchResult>, path: PathShape)
    requires path in {PlainPath, LegacyPath}
    ensures exists a :: LastAnswer(script, path, a)
  {
    var (k, a) := SomeAnswer(script);
    if path == LegacyPath && SaysMissing(a) {
      var (j, b) := SomeAnswer(script[k + 1..]);
      assert AnswersSecond(script, k, b);
      assert LastAnswer(script, path, b);
    } else {
      assert LastAnswer(script, path, a);
    }
  }

  ghost function SomeAnswer(script: seq<FetchResult>): (found: (nat, FetchResult))
    ensures AnswersAfter(script, found.0, found.1)
  {
    if script == [] || !RedirectsOn(script[0]) then (0, Answer(script))
    else if |script| == 1 || !RedirectsOn(script[1]) then (1, Answer(script[1..]))
    else (2, Answer(script[2..]))
  }

  /** Answer k says that the first candidate is missing, and this answers the second. */
  ghost predicate AnswersSecond(script: seq<FetchResult>, k: nat, a: FetchResult) {
    && k < |script| && AnswersAfter(script, k, script[k]) && SaysMissing(script[k])
    && AnswersFirst(script[k + 1..], a)
  }

  /** What the download of such an answer is. */
  ghost predicate DownloadIs(a: FetchResult, maxBytes: nat, d: Download) {
    match a
    case FetchRaises(timeout) => d == DownloadError(if timeout then Timeout else NetworkError, None)
    case FetchUnwinds => d == DownloadUnwinds
    case Fetched(r) =>
      if r.status in {301, 302, 303, 307, 308} then
        d == if r.locationAllowed then DownloadError(TooManyRedirects, None)
             else DownloadError(UnexpectedRedirect, Some(r.status))
      else if r.status == 200 then StreamIs(r, maxBytes, d)
      else if r.chunks != [] && r.chunks[0] == StreamUnwinds then d == DownloadUnwinds
      else
        && d.DownloadError? && d.status == Some(r.status)
        && (d.category == ForbiddenOrMissing <==> r.status == 403) && (d.category == NotFound <==> r.status == 404)
        && (d.category == ServerError <==> r.status >= 500)
        && (d.category == UnexpectedStatus <==> r.status !in {403, 404} && r.status < 500)
  }

  /** A stream is downloaded whole when nothing goes wrong in it and it fits; or it ends at the first chunk that is too
      much, breaks, cannot be hashed, or unwinds. */
  ghost predicate StreamIs(r: Response, maxBytes: nat, d: Download) {
    && (d.DownloadError? ==> d.status == Some(200) && d.category in {DownloadInterrupted, TooLarge, HashCategory})
    && (Streams(r.chunks) && StreamLength(r.chunks) <= maxBytes ==> d == Downloaded(r, StreamLength(r.chunks)))
    && forall b :: 0 <= b < |r.chunks| && Streams(r.chunks[..b]) && StreamLength(r.chunks[..b]) <= maxBytes ==>
         StreamEndsAt(r.chunks, b, maxBytes, d)
  }

  /** d is what chunk b makes of the stream, if that is its end. */
  predicate StreamEndsAt(chunks: seq<Chunk>, b: nat, maxBytes: nat, d: Download)
    requires b < |chunks|
  {
    var room := maxBytes - StreamLength(chunks[..b]);
    match chunks[b]
    case StreamBreaks => d == DownloadError(DownloadInterrupted, Some(200))
    case StreamUnwinds => d == DownloadUnwinds
    case Bytes(k) => k > room ==> d == DownloadError(TooLarge, Some(200))
    case HashBreaks(k) => k > 0 ==> d == DownloadError(if k > room then TooLarge else HashCategory, Some(200))
  }

  lemma {:induction false} StreamedFrom(r: Response, chunks: seq<Chunk>, b: nat, n: nat, maxBytes: nat)
    requires b <= |chunks| && Streams(chunks[..b]) && n + StreamLength(chunks[..b]) <= maxBytes
    ensures Streamed(r, chunks, n, maxBytes) == Streamed(r, chunks[b..], n + StreamLength(chunks[..b]), maxBytes)
    decreases b
  {
    if b == 0 {
      assert chunks[0..] == chunks;
    } else {
      var first := chunks[..b];
      assert first[0] in first && first[1..] == chunks[1..][..b - 1] && chunks[1..][b - 1..] == chunks[b..];
      StreamedFrom(r, chunks[1..], b - 1, n + (if chunks[0].Bytes? then chunks[0].n else 0), maxBytes);
    }
  }

  lemma {:induction false} StreamedStatus(r: Response, chunks: seq<Chunk>, n: nat, maxBytes: nat)
    ensures var d := Streamed(r, chunks, n, maxBytes);
            d.DownloadError? ==> d.status == Some(200) && d.category in {DownloadInterrupted, TooLarge, HashCategory}
  {
    if chunks != [] {
      StreamedStatus(r, chunks[1..], n, maxBytes);
      StreamedStatus(r, chunks[1..], n + (if chunks[0].Bytes? then chunks[0].n else 0), maxBytes);
    }
  }

  lemma {:induction false} StreamedIs(r: Response, maxBytes: nat)
    ensures StreamIs(r, maxBytes, Streamed(r, r.chunks, 0, maxBytes))
  {
    var d := Streamed(r, r.chunks, 0, maxBytes);
    StreamedStatus(r, r.chunks, 0, maxBytes);
    if Streams(r.chunks) && StreamLength(r.chunks) <= maxBytes {
      assert r.chunks[..|r.chunks|] == r.chunks;
      StreamedFrom(r, r.chunks, |r.chunks|, 0, maxBytes);
    }
    forall b | 0 <= b < |r.chunks| && Streams(r.chunks[..b]) && StreamLength(r.chunks[..b]) <= maxBytes
      ensures StreamEndsAt(r.chunks, b, maxBytes, d)
    {
      StreamedFrom(r, r.chunks, b, 0, maxBytes);
    }
  }

  lemma {:induction false} FollowedAfter(script: seq<FetchResult>, k: nat, a: FetchResult, left: nat)
    requires AnswersAfter(script, k, a) && left + k == MAX_REDIRECTS + 1
    ensures Followed(script, MAX_REDIRECTS + 1) == Followed(script[k..], left)
  {
    if k == 0 {
      assert script[0..] == script;
    } else if k == 2 {
      assert RedirectsOn(script[0]) && RedirectsOn(script[1]);
      assert script[1..][1..] == script[2..];
    } else {
      assert RedirectsOn(script[0]);
    }
  }

  lemma {:induction false} DownloadAfter(script: seq<FetchResult>, k: nat, a: FetchResult, maxBytes: nat)
    requires AnswersAfter(script, k, a)
    ensures DownloadIs(a, maxBytes, DownloadOf(script, maxBytes).0)
    ensures DownloadOf(script, maxBytes).1 == if k < |script| then script[k + 1..] else []
  {
    hide StreamIs, Streamed;
    FollowedAfter(script, k, a, MAX_REDIRECTS + 1 - k);
    assert Answer(script[k..]) == a;
    assert Later(script[k..]) == if k < |script| then script[k + 1..] else [];
    if a.Fetched? {
      StreamedIs(a.r, maxBytes);
    }
  }

  lemma {:induction false} IsNotMissing(a: FetchResult, maxBytes: nat, d: Download)
    ensures DownloadIs(a, maxBytes, d) && d.DownloadError? && d.status.Some? && d.status.value in {403, 404} ==>
              SaysMissing(a)
  {
  }

  /** The retrieval of a valid path in which only the network acts ends with the download of the deciding answer. */
  lemma {:induction false} LastAnswerDecides(script: seq<FetchResult>, path: PathShape, maxBytes: nat, a: FetchResult)
    requires LastAnswer(script, path, a)
    ensures var c := CourseOf(script, path, maxBytes, None, 0).0;
            !c.Raises? && DownloadIs(a, maxBytes, if c.Ends? then c.d else DownloadUnwinds)
  {
    hide AnswersAfter, DownloadOf, StreamIs;
    if AnswersFirst(script, a) && (path == PlainPath || !SaysMissing(a)) {
      var k: nat :| AnswersAfter(script, k, a);
      IsNotMissing(a, maxBytes, DownloadOf(script, maxBytes).0);
      DownloadAfter(script, k, a, maxBytes);
    } else {
      var k: nat :| AnswersSecond(script, k, a);
      var rest := script[k + 1..];
      var j: nat :| AnswersAfter(rest, j, a);
      DownloadAfter(script, k, script[k], maxBytes);
      DownloadAfter(rest, j, a, maxBytes);
    }
  }

  /** process_filing: resolve, download, validate, hash, consume, delete and verify. A deletion that is not
      confirmed overrides everything else, an unwinding SystemExit included, unless it is unwound itself. */
  method ProcessFiling(root: TempRoot, f: Fetcher, filing: Filing, maxBytes: nat) returns (x: Exit)
    requires root.Valid()
    modifies root, f
    ensures root.Valid()
    ensures f.requests <= old(f.requests) + Candidates(filing.path) * (MAX_REDIRECTS + 1)
    ensures f.pending == AfterFiling(old(f.pending), filing, maxBytes)
    ensures x.Escaped? <==> Escapes(old(f.pending), filing, maxBytes)
    ensures x.Returned? ==> LawfulRecord(x.rec, filing.consumer.Some?)
    ensures x.Returned? && x.rec.consumer == ConsumerSucceeded ==> filing.consumer == Some(ConsumerReturns)
    ensures filing.start == RootRefused ==>
              x == Returned(NEW_RECORD.(outcome := DownloadFailed, category := TempRootProblem))
    ensures x.Returned? && VerifiedGone(filing.removal) && filing.start == WorkspaceMade ==>
              (x.rec.outcome in {Succeeded, ConsumerFailed} <==> Reaches(old(f.pending), filing, maxBytes))
    ensures x.Returned? && VerifiedGone(filing.removal) && filing.start == WorkspaceMade ==>
              FilingRecord(old(f.pending), filing, maxBytes, x.rec)
    ensures x.Returned? && x.rec.outcome == ConsumerFailed ==> filing.consumer == Some(ConsumerRaises)
    ensures x.Returned? ==> (x.rec.cleanup == CleanupFailedStatus <==>
                             filing.start == WorkspaceMade && !VerifiedGone(filing.removal))
    ensures x.Returned? && x.rec.cleanup == Deleted ==> VerifiedGone(filing.removal)
    ensures old(root.entries) <= root.entries
    ensures forall e :: e in root.entries - old(root.entries) ==> e.ours
    ensures root.entries != old(root.entries) <==> LeavesDirectory(filing)
    ensures root.entries != old(root.entries) ==> x.Escaped? || x.rec.cleanup == CleanupFailedStatus
  {
    var rec := NEW_RECORD;
    if filing.start == RootRefused {
      return Returned(rec.(outcome := DownloadFailed, category := TempRootProblem));
    }
    if filing.start == NoWorkspace {
      return Escaped;
    }
    var dir := root.MakeDirectory(filing.id);
    assert dir in root.entries && dir !in old(root.entries);
    if filing.start == WorkspaceUnwound {
      return Escaped;
    }
    var unwinds := false;
    var got := RetrieveInto(f, filing.path, filing.companion, maxBytes, filing.trouble);
    match got {
      case RetrievalUnwinds => unwinds := true;
      case RetrievalRaises => rec := rec.(outcome := InternalError, category := Bug);
      case NoDocumentRecord(r) => rec := r;
      case Document(r) => rec := r;
    }
    if !unwinds {
      rec := rec.(cleanup := CleanupPending);
      if got.Document? {
        rec := rec.(outcome := Succeeded);
        if filing.consumer.Some? {
          match filing.consumer.value {
            case ConsumerReturns => rec := rec.(consumer := ConsumerSucceeded);
            case ConsumerRaises => rec := rec.(consumer := ConsumerFailedStatus, outcome := ConsumerFailed);
            case ConsumerUnwinds => unwinds := true;
          }
        }
      }
    }
    var verdict := root.RemoveTree(dir, filing.removal);
    assert old(root.entries) + {dir} - {dir} == old(root.entries);
    match verdict {
      case Unwinding => x := Escaped;
      case NotConfirmed => x := Returned(rec.(cleanup := CleanupFailedStatus, outcome := CleanupFailed));
      case Gone => x := if unwinds then Escaped else Returned(rec.(cleanup := Deleted));
    }
  }

  // ---------------------------------------------------------------- a batch

  datatype Batch = Batch(records: seq<Record>, leftovers: set<Entry>, ok: bool)

  ghost predicate AnyCleanupFailed(records: seq<Record>) {
    exists r :: r in records && r.cleanup == CleanupFailedStatus
  }

  /** Exactly when an exception leaves a batch from filing i on: one of the filings is left by one, or it comes outside
      them: before filing `interrupted` (in the pause, or in listing the root), or after the last one. */
  ghost predicate BatchEscapes(script: seq<FetchResult>, filings: seq<Filing>, maxBytes: nat, interrupted: Option<nat>,
                               i: nat)
    requires i <= |filings|
    decreases |filings| - i
  {
    || interrupted == Some(i)
    || (i < |filings|
        && (Escapes(script, filings[i], maxBytes)
            || BatchEscapes(AfterFiling(script, filings[i], maxBytes), filings, maxBytes, interrupted, i + 1)))
  }

  lemma {:induction false} QuietBatchReturns(script: seq<FetchResult>, filings: seq<Filing>, maxBytes: nat, i: nat)
    requires i <= |filings| && Quiet(script) && forall g :: g in filings ==> QuietFiling(g)
    ensures !BatchEscapes(script, filings, maxBytes, None, i)
    decreases |filings| - i
  {
    hide Quiet, QuietFiling, Escapes, AfterFiling;
    if i < |filings| {
      assert filings[i] in filings;
      QuietFilingReturns(script, filings[i], maxBytes);
      QuietBatchReturns(AfterFiling(script, filings[i], maxBytes), filings, maxBytes, i + 1);
    }
  }

  /** What the network has left to say before filing i. */
  function ScriptBefore(script: seq<FetchResult>, filings: seq<Filing>, maxBytes: nat, i: nat): seq<FetchResult>
    requires i <= |filings|
  {
    if i == 0 then script else AfterFiling(ScriptBefore(script, filings, maxBytes, i - 1), filings[i - 1], maxBytes)
  }

  /** process_batch; None when an exception leaves it. */
  method ProcessBatch(root: TempRoot, f: Fetcher, rootValid: bool, filings: seq<Filing>, maxBytes: nat,
                      interrupted: Option<nat>)
    returns (b: Option<Batch>)
    requires root.Valid()
    modifies root, f
    ensures root.Valid()
    ensures b.None? <==> !rootValid || BatchEscapes(old(f.pending), filings, maxBytes, interrupted, 0)
    ensures b.Some? ==> |b.value.records| == |filings|
    ensures b.Some? ==> forall i :: 0 <= i < |filings| ==> LawfulRecord(b.value.records[i], filings[i].consumer.Some?)
    ensures b.Some? ==> forall i :: 0 <= i < |filings| && filings[i].start == WorkspaceMade
                                    && VerifiedGone(filings[i].removal) ==>
              FilingRecord(ScriptBefore(old(f.pending), filings, maxBytes, i), filings[i], maxBytes, b.value.records[i])
    ensures b.Some? ==> b.value.leftovers == set e | e in root.entries && e !in old(root.entries) && e.ours
    ensures b.Some? ==> (b.value.ok <==> b.value.leftovers == {} && !AnyCleanupFailed(b.value.records))
    ensures b.Some? && b.value.ok ==> root.entries == old(root.entries)
    ensures b.Some? && b.value.leftovers != {} ==> AnyCleanupFailed(b.value.records)
    ensures old(root.entries) <= root.entries
    ensures root.entries != old(root.entries) ==> exists g :: g in filings && LeavesDirectory(g)
  {
    hide LawfulRecord, Escapes, AfterFiling, Reaches, LeavesDirectory, FilingRecord;
    if !rootValid {
      return None;
    }
    var before := root.entries;
    var records: seq<Record> := [];
    for i := 0 to |filings|
      invariant root.Valid() && |records| == i
      invariant BatchEscapes(f.pending, filings, maxBytes, interrupted, i)
                == BatchEscapes(old(f.pending), filings, maxBytes, interrupted, 0)
      invariant f.pending == ScriptBefore(old(f.pending), filings, maxBytes, i)
      invariant forall j :: 0 <= j < i ==> LawfulRecord(records[j], filings[j].consumer.Some?)
      invariant forall j :: 0 <= j < i && filings[j].start == WorkspaceMade && VerifiedGone(filings[j].removal) ==>
                  FilingRecord(ScriptBefore(old(f.pending), filings, maxBytes, j), filings[j], maxBytes, records[j])
      invariant before <= root.entries && forall e :: e in root.entries - before ==> e.ours
      invariant root.entries != before ==> AnyCleanupFailed(records) && exists g :: g in filings && LeavesDirectory(g)
    {
      if interrupted == Some(i) {
        return None;
      }
      var x := ProcessFiling(root, f, filings[i], maxBytes);
      assert filings[i] in filings;
      if x.Escaped? {
        return None;
      }
      ghost var sofar := records;
      records := records + [x.rec];
      assert x.rec in records && forall r :: r in sofar ==> r in records;
    }
    if interrupted == Some(|filings|) {
      return None;
    }
    var leftovers := set e | e in root.entries && e !in before && e.ours;
    assert root.entries == before + leftovers;
    var failed := exists r :: r in records && r.cleanup == CleanupFailedStatus;
    b := Some(Batch(records, leftovers, leftovers == {} && !failed));
  }
}
