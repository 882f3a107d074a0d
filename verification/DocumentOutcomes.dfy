// What happens to a document item after one retrieval pass (worker/backfill_documents/outcomes.py), as a
// classification of the lifecycle's records.
module DocumentOutcomes {
  import opened Prelude
  import opened DocumentLifecycle

  datatype Disposition = CleanupStop | LeftoverStop | Persist | Consumer | Terminal | Retryable | Local

  const RETRIEVAL_FAILED_OUTCOMES :=
    {NoDocument, InvalidPath, DownloadFailed, ValidationFailed, HashFailed, InternalError}
  const TERMINAL_CATEGORIES := {ForbiddenOrMissing, NotFound, TooLarge, UnexpectedRedirect, TooManyRedirects, NotPdf,
                                NullPath, BadPath, NotExpectedType}
  const RETRYABLE_CATEGORIES := {ServerError, NetworkError, Timeout, DownloadInterrupted, Truncated, LengthMismatch,
                                 EtagMismatch, TruncatedOrMalformed, EmptyBody}
  const RATE_LIMITED_STATUS := 429

  /** disposition(rec, leftovers) */
  function DispositionOf(rec: Record, leftovers: nat): Disposition {
    if rec.cleanup == CleanupFailedStatus || rec.outcome == CleanupFailed then CleanupStop
    else if leftovers > 0 then LeftoverStop
    else if rec.outcome == Succeeded then
      (if rec.consumer == ConsumerSucceeded && rec.cleanup == Deleted then Persist else CleanupStop)
    else if rec.outcome == ConsumerFailed then Consumer
    else if rec.outcome in {NoDocument, InvalidPath, InternalError} then Terminal
    else if rec.outcome == HashFailed then Retryable
    else if rec.outcome == ValidationFailed then (if rec.category in TERMINAL_CATEGORIES then Terminal else Retryable)
    else if rec.outcome == DownloadFailed then
      (if rec.category == TempRootProblem then Local
       else if rec.category in RETRYABLE_CATEGORIES then Retryable
       else if rec.category == UnexpectedStatus then
         (if rec.status == Some(RATE_LIMITED_STATUS) then Retryable else Terminal)
       else Terminal)
    else Terminal
  }

  /** retrieved(rec): the document reached the consumer. */
  predicate ReachedConsumer(rec: Record) {
    rec.consumer == ConsumerSucceeded || rec.consumer == ConsumerFailedStatus
  }

  datatype ItemState = RetryWait | RetrievalFailed

  /** live_state, for the retrieval failures it accepts. */
  function LiveState(kind: Disposition, claims: nat, itemMax: nat): ItemState
    requires kind in {Terminal, Retryable, Local}
  {
    match kind
    case Terminal => RetrievalFailed
    case Retryable => if claims < itemMax then RetryWait else RetrievalFailed
    case Local => RetryWait
  }

  /** The composition of the lifecycle with its classification. For every lawful record (whatever the fetcher, the
      hashes, the consumer and the deletion did) each disposition means what the item's next step relies on. */
  lemma {:induction false} DispositionIsSound(rec: Record, leftovers: nat)
    requires LawfulRecord(rec, true)
    ensures DispositionOf(rec, leftovers) == Persist <==>
            rec.outcome == Succeeded && rec.validated && rec.consumer == ConsumerSucceeded && rec.cleanup == Deleted
            && leftovers == 0
    ensures DispositionOf(rec, leftovers) == CleanupStop <==> rec.cleanup == CleanupFailedStatus
    ensures DispositionOf(rec, leftovers) == CleanupStop ==> rec.outcome == CleanupFailed
    ensures DispositionOf(rec, leftovers) == LeftoverStop <==> leftovers > 0 && rec.cleanup != CleanupFailedStatus
    ensures DispositionOf(rec, leftovers) == Consumer <==> rec.outcome == ConsumerFailed && leftovers == 0
    ensures DispositionOf(rec, leftovers) in {Terminal, Retryable} <==>
              leftovers == 0 && rec.category != TempRootProblem
              && rec.outcome in {NoDocument, InvalidPath, DownloadFailed, ValidationFailed, HashFailed, InternalError}
    ensures leftovers == 0 ==>
              (DispositionOf(rec, leftovers) == Retryable <==>
                 || rec.outcome == HashFailed
                 || (rec.outcome == ValidationFailed
                     && rec.category !in {ForbiddenOrMissing, NotFound, TooLarge, UnexpectedRedirect, TooManyRedirects,
                                          NotPdf, NullPath, BadPath, NotExpectedType})
                 || (rec.outcome == DownloadFailed
                     && rec.category in {ServerError, NetworkError, Timeout, DownloadInterrupted, Truncated,
                                         LengthMismatch, EtagMismatch, TruncatedOrMalformed, EmptyBody})
                 || (rec.outcome == DownloadFailed && rec.category == UnexpectedStatus && rec.status == Some(429)))
    ensures DispositionOf(rec, leftovers) == Local <==> rec.category == TempRootProblem && leftovers == 0
    ensures DispositionOf(rec, leftovers) in {Terminal, Retryable, Local} ==> !ReachedConsumer(rec)
  {
  }

  /** A lifecycle run without a consumer is never persisted: its success is classified as a cleanup stop. */
  lemma {:induction false} NoConsumerNeverPersists(rec: Record, leftovers: nat)
    requires LawfulRecord(rec, false)
    ensures DispositionOf(rec, leftovers) != Persist
    ensures rec.outcome == Succeeded && leftovers == 0 ==> DispositionOf(rec, leftovers) == CleanupStop
  {
  }

  /** What the deciding answer of the network makes of a document, for its consumer: a failed or unavailable server, a
      rate limit, a broken or unhashable stream and a body that is not what it should be are tried again; a document
      that is missing, moved, too large or no PDF is not. */
  ghost predicate Disposes(a: FetchResult, consumer: ConsumerBehaviour, maxBytes: nat, kind: Disposition) {
    match a
    case FetchRaises(_) => kind == Retryable
    case FetchUnwinds => false
    case Fetched(r) =>
      if r.status != 200 then kind == if r.status >= 500 || r.status == 429 then Retryable else Terminal
      else
        && (Streams(r.chunks) && StreamLength(r.chunks) <= maxBytes ==>
              kind == BodyDisposes(r, StreamLength(r.chunks), consumer))
        && forall b :: 0 <= b < |r.chunks| && Streams(r.chunks[..b]) && StreamLength(r.chunks[..b]) <= maxBytes ==>
             ChunkDisposes(r.chunks[b], maxBytes - StreamLength(r.chunks[..b]), kind)
  }

  /** ... of a body that arrived in full. */
  function BodyDisposes(r: Response, n: nat, consumer: ConsumerBehaviour): Disposition {
    var sound := (r.declared.Length? ==> r.declared.n == n) && r.etag != EtagDiffers && n > 0;
    var headed := r.content.pdfAt.Some? && r.content.pdfAt.value < 1024;
    if !r.content.sizeAgrees || !sound then Retryable
    else if !headed then Terminal
    else if !r.content.eof then Retryable
    else if consumer == ConsumerReturns then Persist else Consumer
  }

  /** ... of a chunk with this much room, if the stream ends there. */
  predicate ChunkDisposes(chunk: Chunk, room: int, kind: Disposition) {
    match chunk
    case StreamBreaks => kind == Retryable
    case StreamUnwinds => false
    case Bytes(k) => k > room ==> kind == Terminal
    case HashBreaks(k) => k > 0 ==> kind == if k > room then Terminal else Retryable
  }

  lemma {:induction false} DownloadDisposes(d: Download, filing: Filing, maxBytes: nat, rec: Record, a: FetchResult)
    requires filing.consumer.Some? && !filing.companion && filing.path in {PlainPath, LegacyPath}
    requires DownloadIs(a, maxBytes, d) && CourseRecord(Ends(d), filing, rec) && d.DownloadError?
    ensures Disposes(a, filing.consumer.value, maxBytes, DispositionOf(rec, 0))
  {
    hide Streams, StreamLength;
  }

  lemma {:induction false} BodyDisposesSo(d: Download, filing: Filing, maxBytes: nat, rec: Record, a: FetchResult)
    requires filing.consumer.Some? && !filing.companion && filing.path in {PlainPath, LegacyPath}
    requires DownloadIs(a, maxBytes, d) && CourseRecord(Ends(d), filing, rec) && d.Downloaded?
    ensures Disposes(a, filing.consumer.value, maxBytes, DispositionOf(rec, 0))
  {
    hide Streams, StreamLength;
  }

  lemma {:induction false} AnswerDisposes(script: seq<FetchResult>, filing: Filing, maxBytes: nat, rec: Record,
                                          a: FetchResult)
    requires filing.consumer.Some? && !filing.companion && filing.trouble.None?
    requires LastAnswer(script, filing.path, a) && FilingRecord(script, filing, maxBytes, rec)
    ensures Disposes(a, filing.consumer.value, maxBytes, DispositionOf(rec, 0))
  {
    hide CourseOf, DispositionOf, ValidDocument, DownloadIs, Disposes;
    LastAnswerDecides(script, filing.path, maxBytes, a);
    var c := CourseOfFiling(script, filing, maxBytes).0;
    if c.d.DownloadError? {
      DownloadDisposes(c.d, filing, maxBytes, rec, a);
    } else {
      BodyDisposesSo(c.d, filing, maxBytes, rec, a);
    }
  }

  lemma {:induction false} OneFilingEscapes(script: seq<FetchResult>, filing: Filing, maxBytes: nat,
                                            interrupted: Option<nat>)
    ensures BatchEscapes(script, [filing], maxBytes, interrupted, 0) <==>
              interrupted in {Some(0), Some(1)} || Escapes(script, filing, maxBytes)
  {
    hide Escapes;
    assert BatchEscapes(AfterFiling(script, filing, maxBytes), [filing], maxBytes, interrupted, 1)
           <==> interrupted == Some(1);
  }

  lemma {:induction false} EscapeNeverPersists(script: seq<FetchResult>, filing: Filing, maxBytes: nat)
    ensures filing.start in {NoWorkspace, WorkspaceUnwound} ==> Escapes(script, filing, maxBytes)
    ensures (Escapes(script, filing, maxBytes) && filing.start == WorkspaceMade && VerifiedGone(filing.removal)
             && Reaches(script, filing, maxBytes)) ==> filing.consumer == Some(ConsumerUnwinds)
  {
    hide CourseOf, ValidDocument;
  }

  lemma {:induction false} PersistsExactly(script: seq<FetchResult>, filing: Filing, maxBytes: nat, rec: Record)
    requires filing.consumer.Some? && LawfulRecord(rec, true) && FilingRecord(script, filing, maxBytes, rec)
    ensures DispositionOf(rec, 0) == Persist <==>
            Reaches(script, filing, maxBytes) && filing.consumer == Some(ConsumerReturns)
    ensures DispositionOf(rec, 0) == Persist ==> rec.validated
    ensures DispositionOf(rec, 0) !in {CleanupStop, LeftoverStop}
  {
    hide CourseOf, ValidDocument, DispositionOf, LawfulRecord;
    DispositionIsSound(rec, 0);
  }

  /** A filing that did not begin, or whose deletion is not verified. */
  lemma {:induction false} NeverPersists(rec: Record, leftovers: nat)
    requires LawfulRecord(rec, true) && (rec.cleanup == CleanupFailedStatus || rec.category == TempRootProblem)
    ensures DispositionOf(rec, leftovers) != Persist
    ensures rec.cleanup == CleanupFailedStatus ==> DispositionOf(rec, leftovers) == CleanupStop
  {
  }

  /** One pass of one document, from an arbitrary environment: at most six requests (the worst case the arming
      budgets for), persisted only on validated bytes whose directory is verified gone, and the temporary root
      unchanged unless the stage stops or an exception leaves the pass. None when an exception leaves it: the filing, or
      the batch of this one filing around it. */
  method RetrieveOnce(root: TempRoot, f: Fetcher, rootValid: bool, filing: Filing, maxBytes: nat,
                      interrupted: Option<nat>)
    returns (rec: Record, leftovers: nat, kind: Option<Disposition>)
    requires root.Valid() && filing.consumer.Some? && !filing.companion
    modifies root, f
    ensures f.requests <= old(f.requests) + 6
    ensures kind.None? <==> !rootValid || BatchEscapes(old(f.pending), [filing], maxBytes, interrupted, 0)
    ensures kind == Some(Persist) <==>
              && rootValid && interrupted !in {Some(0), Some(1)}
              && filing.start == WorkspaceMade && VerifiedGone(filing.removal)
              && Reaches(old(f.pending), filing, maxBytes) && filing.consumer == Some(ConsumerReturns)
    ensures kind.Some? ==> LawfulRecord(rec, true) && kind == Some(DispositionOf(rec, leftovers))
    ensures kind.Some? && filing.start == WorkspaceMade && VerifiedGone(filing.removal) ==>
              leftovers == 0 && FilingRecord(old(f.pending), filing, maxBytes, rec)
    ensures kind.Some? && filing.start == WorkspaceMade && VerifiedGone(filing.removal) && filing.trouble.None? ==>
              forall a :: LastAnswer(old(f.pending), filing.path, a) ==>
                Disposes(a, filing.consumer.value, maxBytes, kind.value)
    ensures kind == Some(Persist) ==>
              filing.consumer == Some(ConsumerReturns) && rec.validated && VerifiedGone(filing.removal)
    ensures kind.Some? && filing.start == WorkspaceMade && !VerifiedGone(filing.removal) ==> kind == Some(CleanupStop)
    ensures root.entries != old(root.entries) ==> LeavesDirectory(filing)
    ensures root.entries != old(root.entries) ==> kind.None? || kind in {Some(CleanupStop), Some(LeftoverStop)}
  {
    hide Reaches, Escapes, BatchEscapes, FilingRecord, LastAnswer, Disposes, LawfulRecord, DispositionOf;
    rec, leftovers, kind := NEW_RECORD, 0, None;
    ghost var script := f.pending;
    OneFilingEscapes(script, filing, maxBytes, interrupted);
    EscapeNeverPersists(script, filing, maxBytes);
    if !rootValid || interrupted == Some(0) {
      return;
    }
    var before := root.entries;
    var x := ProcessFiling(root, f, filing, maxBytes);
    if x.Escaped? || interrupted == Some(1) {
      return;
    }
    rec := x.rec;
    leftovers := |set e | e in root.entries && e !in before && e.ours|;
    kind := Some(DispositionOf(rec, leftovers));
    if VerifiedGone(filing.removal) && filing.start == WorkspaceMade {
      assert root.entries == before;
      assert (set e | e in root.entries && e !in before && e.ours) == {};
      PersistsExactly(script, filing, maxBytes, rec);
      if filing.trouble.None? {
        forall a | LastAnswer(script, filing.path, a) ensures Disposes(a, filing.consumer.value, maxBytes, kind.value) {
          AnswerDisposes(script, filing, maxBytes, rec, a);
        }
      }
    } else {
      NeverPersists(rec, leftovers);
    }
  }
}
