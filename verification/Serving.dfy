/** Serving files: which response a request gets, with which body. */
module Serving {
  import opened Base
  import opened Decimal
  import opened StoreSpec
  import opened RangeHeader
  import opened RangeDelivery
  import opened LocalBackend

  datatype Response =
    | Partial(start: nat, end: nat, total: nat, length: nat, body: seq<Item>)   // 206: Content-Range, Content-Length, body
    | Whole(length: nat, body: seq<Item>)                                       // 200
    | NotSatisfiable(total: nat)                                                // 416
    | Missing
    | Failed

  /** What a range header, if there is one, asks for. */
  function Wanted(range: Option<string>, size: nat, maxLen: nat): (w: RangeResult)
    requires 0 < maxLen && size <= U64_MAX
    ensures w.Satisfiable? ==> w.start <= w.end < size && w.end - w.start + 1 <= maxLen
  {
    match range
    case None => Ignore
    case Some(header) => RangeInBounds(header, size, maxLen); ParseRange(header, size, maxLen)
  }

  /** The response for a file with these bytes. */
  function Served(bytes: Bytes, wanted: RangeResult, calls: nat -> Read): Response
    requires wanted.Satisfiable? ==> wanted.start <= wanted.end
  {
    match wanted
    case Satisfiable(start, end) =>
      Partial(start, end, |bytes|, end - start + 1, RangeStream(bytes, start, end - start + 1, calls, 0))
    case Unsatisfiable => NotSatisfiable(|bytes|)
    case Ignore => Whole(|bytes|, FileStream(bytes, 0, calls, 0))
  }

  /** The response for a file with these bytes, which cannot always be opened. */
  function ServedIf(bytes: Bytes, wanted: RangeResult, calls: nat -> Read, opens: bool): Response
    requires wanted.Satisfiable? ==> wanted.start <= wanted.end
  {
    if opens || wanted.Unsatisfiable? then Served(bytes, wanted, calls) else Failed
  }

  /** The stream of a range inside a stored file, with the length that its headers announce. */
  method OpenRangeStream(backend: Backend, id: string, start: nat, end: nat, calls: nat -> Read, env: Env) returns (r: Result<seq<Item>>)
    requires backend.Valid() && id in backend.store.files && start <= end < |backend.store.files[id].bytes|
    modifies backend`metaCache
    ensures backend.Valid()
    ensures r == if env.read then Ok(RangeStream(backend.store.files[id].bytes, start, end - start + 1, calls, 0)) else Err(Io)
  {
    r := backend.GetRange(id, start, end, calls, env);
  }

  /** The 206 response. */
  method RespondPartly(backend: Backend, id: string, size: nat, start: nat, end: nat, calls: nat -> Read, env: Env) returns (r: Response)
    requires backend.Valid() && id in backend.store.files && size == |backend.store.files[id].bytes| && start <= end < size
    modifies backend`metaCache
    ensures backend.Valid()
    ensures r == ServedIf(backend.store.files[id].bytes, Satisfiable(start, end), calls, env.read)
  {
    ghost var bytes := backend.store.files[id].bytes;
    var stream := OpenRangeStream(backend, id, start, end, calls, env);
    r := PartialResponse(size, start, end, stream);
    PartlyServed(bytes, start, end, calls, env.read, stream);
  }

  function PartialResponse(size: nat, start: nat, end: nat, stream: Result<seq<Item>>): Response
    requires start <= end
  {
    match stream
    case Ok(items) => Partial(start, end, size, end - start + 1, items)
    case Err(_) => Failed
  }

  lemma PartlyServed(bytes: Bytes, start: nat, end: nat, calls: nat -> Read, opens: bool, stream: Result<seq<Item>>)
    requires start <= end
    requires stream == if opens then Ok(RangeStream(bytes, start, end - start + 1, calls, 0)) else Err(Io)
    ensures PartialResponse(|bytes|, start, end, stream) == ServedIf(bytes, Satisfiable(start, end), calls, opens)
  {
  }

  /** The 200 response: the stream of the whole file. */
  method RespondWholly(backend: Backend, id: string, size: nat, calls: nat -> Read, env: Env) returns (r: Response)
    requires backend.Valid() && id in backend.store.files && size == |backend.store.files[id].bytes|
    ensures r == ServedIf(backend.store.files[id].bytes, Ignore, calls, env.read)
  {
    var stream := backend.GetWhole(id, calls, env);
    if stream.Err? { return Failed; }
    return Whole(size, stream.value);
  }

  method Respond(backend: Backend, id: string, size: nat, wanted: RangeResult, calls: nat -> Read, env: Env) returns (r: Response)
    requires backend.Valid() && id in backend.store.files && size == |backend.store.files[id].bytes|
    requires wanted.Satisfiable? ==> wanted.start <= wanted.end < size
    modifies backend`metaCache
    ensures backend.Valid()
    ensures r == ServedIf(backend.store.files[id].bytes, wanted, calls, env.read)
  {
    if wanted.Satisfiable? {
      r := RespondPartly(backend, id, size, wanted.start, wanted.end, calls, env);
    } else if wanted.Unsatisfiable? {
      r := NotSatisfiable(size);
    } else {
      r := RespondWholly(backend, id, size, calls, env);
    }
  }

  // ---- Which response a request gets ----

  /** 200, with the whole file. */
  ghost predicate SendsAll(r: Response, bytes: Bytes) {
    r.Whole? && r.length == |bytes| && Observe(r.body) == Observation(bytes, None)
  }

  /** 206, with the bytes from `start` to `end` and the headers that say so. */
  ghost predicate SendsPart(r: Response, bytes: Bytes, start: nat, end: nat) {
    && start <= end < |bytes| && r.Partial? && r.start == start && r.end == end && r.total == |bytes|
    && r.length == end - start + 1 && Observe(r.body) == Observation(bytes[start..end + 1], None)
  }

  /** The answer to `first-last`. */
  ghost predicate SendsInterval(r: Response, bytes: Bytes, maxLen: nat, first: nat, last: nat)
    requires 0 < maxLen
  {
    if first > U64_MAX then SendsAll(r, bytes)
    else if first >= |bytes| then r == NotSatisfiable(|bytes|)
    else if last > U64_MAX || last < first then SendsAll(r, bytes)
    else SendsPart(r, bytes, first, Min(Min(last, |bytes| - 1), first + maxLen - 1))
  }

  /** The answer to `-n`. */
  ghost predicate SendsLast(r: Response, bytes: Bytes, maxLen: nat, n: nat)
    requires bytes != []
  {
    if n > U64_MAX then SendsAll(r, bytes)
    else if n == 0 then r == NotSatisfiable(|bytes|)
    else SendsPart(r, bytes, |bytes| - Min(Min(n, |bytes|), maxLen), |bytes| - 1)
  }

  /** What a range header is answered with. */
  ghost predicate AnswersHeader(r: Response, bytes: Bytes, maxLen: nat, header: string)
    requires 0 < maxLen
  {
    && (!NamesBytes(header) || ',' in header ==> SendsAll(r, bytes))
    && (bytes == [] && NamesBytes(header) && ',' !in header ==> r == NotSatisfiable(0))
    && (bytes != [] ==>
          && ('-' !in header ==> SendsAll(r, bytes))
          && (forall first, last :: Padded(header, Dec(first), Dec(last)) ==> SendsInterval(r, bytes, maxLen, first, last))
          && (forall first :: Padded(header, Dec(first), "") ==> SendsInterval(r, bytes, maxLen, first, U64_MAX))
          && (forall n :: Padded(header, "", Dec(n)) ==> SendsLast(r, bytes, maxLen, n)))
  }

  /** What a request is answered with, as long as the file can be read. */
  ghost predicate Answers(r: Response, bytes: Bytes, maxLen: nat, range: Option<string>)
    requires 0 < maxLen
  {
    match range case None => SendsAll(r, bytes) case Some(header) => AnswersHeader(r, bytes, maxLen, header)
  }

  lemma IgnoredSendsAll(bytes: Bytes, calls: nat -> Read)
    requires NoFailingRead(calls)
    ensures SendsAll(Served(bytes, Ignore, calls), bytes)
  {
    FileExact(bytes, 0, calls, 0);
  }

  lemma SatisfiedSendsPart(bytes: Bytes, start: nat, end: nat, calls: nat -> Read)
    requires start <= end < |bytes| && NoFailingRead(calls)
    ensures SendsPart(Served(bytes, Satisfiable(start, end), calls), bytes, start, end)
  {
    RangeExact(bytes, start, end - start + 1, calls, 0);
  }

  lemma IntervalIsSent(bytes: Bytes, maxLen: nat, first: nat, last: nat, calls: nat -> Read)
    requires bytes != [] && 0 < maxLen && NoFailingRead(calls)
    ensures SendsInterval(Served(bytes, Interval(first, last, |bytes|, maxLen), calls), bytes, maxLen, first, last)
  {
    var wanted := Interval(first, last, |bytes|, maxLen);
    match wanted
    case Ignore => IgnoredSendsAll(bytes, calls);
    case Satisfiable(start, end) => SatisfiedSendsPart(bytes, start, end, calls);
    case Unsatisfiable =>
  }

  lemma SuffixIsSent(bytes: Bytes, maxLen: nat, n: nat, header: string, calls: nat -> Read)
    requires bytes != [] && |bytes| <= U64_MAX && 0 < maxLen && NoFailingRead(calls) && Padded(header, "", Dec(n))
    ensures SendsLast(Served(bytes, Wanted(Some(header), |bytes|, maxLen), calls), bytes, maxLen, n)
  {
    PaddedSuffix(header, n, |bytes|, maxLen);
    if n > U64_MAX {
      IgnoredSendsAll(bytes, calls);
    } else if n > 0 {
      SatisfiedSendsPart(bytes, |bytes| - Min(Min(n, |bytes|), maxLen), |bytes| - 1, calls);
    }
  }

  lemma IgnoredHeader(bytes: Bytes, maxLen: nat, header: string, calls: nat -> Read)
    requires 0 < maxLen && |bytes| <= U64_MAX && NoFailingRead(calls)
    requires !NamesBytes(header) || ',' in header || (bytes != [] && '-' !in header)
    ensures SendsAll(Served(bytes, Wanted(Some(header), |bytes|, maxLen), calls), bytes)
  {
    if !NamesBytes(header) || ',' in header {
      ForeignHeader(header, |bytes|, maxLen);
    } else {
      DashlessHeader(header, |bytes|, maxLen);
    }
    IgnoredSendsAll(bytes, calls);
  }

  lemma HeaderIsAnswered(bytes: Bytes, maxLen: nat, header: string, calls: nat -> Read)
    requires 0 < maxLen && |bytes| <= U64_MAX && NoFailingRead(calls)
    ensures AnswersHeader(Served(bytes, Wanted(Some(header), |bytes|, maxLen), calls), bytes, maxLen, header)
  {
    var r := Served(bytes, Wanted(Some(header), |bytes|, maxLen), calls);
    if !NamesBytes(header) || ',' in header || (bytes != [] && '-' !in header) {
      IgnoredHeader(bytes, maxLen, header, calls);
    }
    if bytes == [] && NamesBytes(header) && ',' !in header { EmptyFileHeader(header, maxLen); }
    if bytes != [] {
      forall first, last | Padded(header, Dec(first), Dec(last)) ensures SendsInterval(r, bytes, maxLen, first, last) {
        PaddedClosed(header, first, last, |bytes|, maxLen);
        IntervalIsSent(bytes, maxLen, first, last, calls);
      }
      forall first | Padded(header, Dec(first), "") ensures SendsInterval(r, bytes, maxLen, first, U64_MAX) {
        PaddedOpen(header, first, |bytes|, maxLen);
        IntervalIsSent(bytes, maxLen, first, U64_MAX, calls);
      }
      forall n | Padded(header, "", Dec(n)) ensures SendsLast(r, bytes, maxLen, n) {
        SuffixIsSent(bytes, maxLen, n, header, calls);
      }
    }
  }

  /** Every request gets the response that its range header, or the lack of one, calls for. */
  lemma RequestIsAnswered(bytes: Bytes, maxLen: nat, range: Option<string>, calls: nat -> Read)
    requires 0 < maxLen && |bytes| <= U64_MAX && NoFailingRead(calls)
    ensures Answers(Served(bytes, Wanted(range, |bytes|, maxLen), calls), bytes, maxLen, range)
  {
    match range
    case None => IgnoredSendsAll(bytes, calls);
    case Some(header) => HeaderIsAnswered(bytes, maxLen, header, calls);
  }

  /** The range branch of `serve_file_inner`; the size comes from `stat`, which may answer from the metadata cache. */
  method ServeFile(backend: Backend, id: string, range: Option<string>, maxLen: nat, calls: nat -> Read, env: Env) returns (r: Response)
    requires backend.Valid() && 0 < maxLen
    requires id in backend.store.files ==> |backend.store.files[id].bytes| <= U64_MAX
    modifies backend`metaCache
    ensures backend.Valid()
    ensures r == Missing <==> id !in backend.store.files
    ensures id in backend.store.files && env.read && NoFailingRead(calls) ==>
              Answers(r, backend.store.files[id].bytes, maxLen, range)
    ensures id in backend.store.files && !env.read ==> r == Failed || r == NotSatisfiable(|backend.store.files[id].bytes|)
    ensures id in backend.store.files ==>
              ServedMatches(backend.store.files[id].bytes, range, maxLen, calls, env.read, r)
  {
    var meta := backend.Stat(id);
    if meta.Err? { return Missing; }
    ghost var bytes := backend.store.files[id].bytes;
    r := Respond(backend, id, meta.value.size, Wanted(range, meta.value.size, maxLen), calls, env);
    AnsweredOrFailed(bytes, range, maxLen, calls, env.read, r);
  }

  lemma AnsweredOrFailed(bytes: Bytes, range: Option<string>, maxLen: nat, calls: nat -> Read, opens: bool, r: Response)
    requires 0 < maxLen && |bytes| <= U64_MAX && ServedMatches(bytes, range, maxLen, calls, opens, r)
    ensures r != Missing
    ensures opens && NoFailingRead(calls) ==> Answers(r, bytes, maxLen, range)
    ensures !opens ==> r == Failed || r == NotSatisfiable(|bytes|)
  {
    if NoFailingRead(calls) { RequestIsAnswered(bytes, maxLen, range, calls); }
  }

  /** The response is the one for the stored bytes, also when a read fails. */
  ghost predicate ServedMatches(bytes: Bytes, range: Option<string>, maxLen: nat, calls: nat -> Read, opens: bool, r: Response)
    requires 0 < maxLen && |bytes| <= U64_MAX
  {
    r == ServedIf(bytes, Wanted(range, |bytes|, maxLen), calls, opens)
  }

  /**
   Whatever the range header, and however short the reads: while they succeed, the headers of a response match its
   body, and the body is exactly the announced, non-empty, not over-long piece of the file.
   */
  lemma HeadersMatchBody(bytes: Bytes, range: Option<string>, maxLen: nat, calls: nat -> Read, opens: bool, r: Response)
    requires 0 < maxLen && |bytes| <= U64_MAX && NoFailingRead(calls)
    requires ServedMatches(bytes, range, maxLen, calls, opens, r)
    ensures r.Partial? ==> SendsPart(r, bytes, r.start, r.end) && 0 < r.length <= maxLen
    ensures r.Whole? ==> SendsAll(r, bytes)
    ensures r.NotSatisfiable? ==> r.total == |bytes|
  {
    match Wanted(range, |bytes|, maxLen)
    case Satisfiable(start, end) => SatisfiedSendsPart(bytes, start, end, calls);
    case Ignore => IgnoredSendsAll(bytes, calls);
    case Unsatisfiable =>
  }
}
