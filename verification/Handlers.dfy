/** Request handlers over the local backend: uploads and concat. */
module Handlers {
  import opened Base
  import opened Names
  import opened Filenames
  import opened StoreSpec
  import opened StoreLaws
  import opened Answers
  import opened Uploads
  import opened LocalBackend
  import opened Conservation

  datatype Reply<+T> = Fine(value: T) | Error(error: HandlerError)

  // ---- Uploads ----

  /** `Put`, as a function of what a consumer of the body sees. */
  function PutSeen(st: Store, minFree: nat, id: string, filename: string, seen: Observation, env: Env): Outcome<nat> {
    match First(ReserveError(st, id, env), First(SpaceError(minFree, env),
          First(TempError(env), First(seen.error, PublishError(env)))))
    case Some(e) => Unchanged(st, e)
    case None => Outcome(WithFile(st, id, SafeExtension(filename), seen.bytes), Ok(Min(|seen.bytes|, U64_MAX)))
  }

  function PutSeenWith(st: Store, minFree: nat, id: string, filename: string, seen: Observation, cap: Option<Bytes>, env: Env): Outcome<nat> {
    if cap.None? then PutSeen(st, minFree, id, filename, seen, env)
    else
      var made := CreateCapability(st, id, cap.value, env);
      match made.result
      case Err(e) => Outcome(made.store, Err(e))
      case Ok(_) =>
        var put := PutSeen(made.store, minFree, id, filename, seen, env);
        if put.result.Err? then Outcome(RemoveCapability(put.store, id), put.result) else put
  }

  function PutWith(st: Store, minFree: nat, id: string, filename: string, items: seq<Item>, cap: Option<Bytes>, env: Env): Outcome<nat> {
    if cap.None? then Put(st, minFree, id, filename, items, env)
    else PutWithCapability(st, minFree, id, filename, items, cap.value, env)
  }

  /** Unless a write fails, storing a body depends on its bytes and its error alone. */
  lemma PutDependsOnBytes(st: Store, minFree: nat, id: string, filename: string, items: seq<Item>, cap: Option<Bytes>, env: Env)
    requires env.write.None?
    ensures PutWith(st, minFree, id, filename, items, cap, env) == PutSeenWith(st, minFree, id, filename, Observe(items), cap, env)
  {
    CalmWrites(items, 0);
  }

  /** The limits of an upload: the largest size, and the exact size when a ticket signs one. */
  datatype Limits = Limits(maxSize: nat, exact: Option<nat>)

  /** What an upload comes to, as a function of what the client's body looks like to a consumer. */
  function UploadOutcome(st: Store, minFree: nat, id: string, filename: string, seen: Observation, limits: Limits,
                         inspector: Inspector, cap: Option<Bytes>, env: Env): (Store, Reply<nat>) {
    match SniffError(seen, filename, inspector)
    case Some(e) => (st, Error(e))
    case None =>
      var sized := match SizeVerdict(seen, limits.maxSize, limits.exact)
        case None => seen
        case Some(e) => Observation([], Some(e));
      var stored := ContentFilename(filename, inspector.detect(Prefix(seen.bytes)));
      var o := PutSeenWith(st, minFree, id, stored, sized, cap, env);
      (o.store, AsReply(o.result))
  }

  /** A refused body leaves the same outcome whatever bytes came before the error. */
  lemma ErrorHidesBytes(st: Store, minFree: nat, id: string, filename: string, a: Observation, b: Observation, cap: Option<Bytes>, env: Env)
    requires a.error == b.error && a.error.Some?
    ensures PutSeenWith(st, minFree, id, filename, a, cap, env) == PutSeenWith(st, minFree, id, filename, b, cap, env)
  {
  }

  /** The capability file of the upload is created, and then cannot be written. */
  predicate UploadBreaks(st: Store, id: string, cap: Option<Bytes>, env: Env) {
    cap.Some? && ValidComponent(id) && env.capCreate && id !in st.caps && env.capWrite.Some?
  }

  /**
   All or nothing, whatever call fails: an accepted upload has stored exactly the body, whole and within its limits,
   and reports its true length; a refused one has changed nothing.
   */
  ghost predicate AllOrNothing(st: Store, st': Store, r: Reply<nat>, id: string, filename: string, seen: Observation,
                               limits: Limits, inspector: Inspector, cap: Option<Bytes>, env: Env) {
    && (r.Fine? ==>
          && seen.error.None? && |seen.bytes| <= limits.maxSize
          && (limits.exact.Some? ==> |seen.bytes| == limits.exact.value)
          && r.value == |seen.bytes|
          && inspector.allowed(filename, Prefix(seen.bytes))
          && id !in st.files && id in st'.files && st'.files[id].bytes == seen.bytes
          && st'.files[id].ext == SafeExtension(ContentFilename(filename, inspector.detect(Prefix(seen.bytes))))
          && ExtensionFits(filename, inspector.detect(Prefix(seen.bytes)), st'.files[id].ext)
          && st'.files - {id} == st.files
          && st'.caps == (if cap.None? then st.caps else st.caps[id := cap.value]))
    && (r.Error? && !UploadBreaks(st, id, cap, env) ==> st' == st)
  }

  lemma {:induction false} WrittenWhole(items: seq<Item>, failing: Option<nat>, j: nat)
    requires WriteError(items, failing, j).None?
    ensures Observe(items).error.None?
  {
    if items != [] { WrittenWhole(items[1..], failing, j + 1); }
  }

  function AsReply(r: Result<nat>): Reply<nat> {
    match r case Ok(n) => Fine(n) case Err(e) => Error(HandlerError.Storage(e))
  }

  lemma RefusedPut(st: Store, minFree: nat, id: string, filename: string, items: seq<Item>, cap: Option<Bytes>, env: Env)
    requires PutWith(st, minFree, id, filename, items, cap, env).result.Err? && !UploadBreaks(st, id, cap, env)
    ensures PutWith(st, minFree, id, filename, items, cap, env).store == st
  {
    if cap.Some? && id !in st.caps { CreateThenRemove(st, id, cap.value); }
  }

  lemma AcceptedPut(st: Store, minFree: nat, id: string, filename: string, items: seq<Item>, cap: Option<Bytes>, env: Env)
    requires PutWith(st, minFree, id, filename, items, cap, env).result.Ok?
    ensures var o, bytes := PutWith(st, minFree, id, filename, items, cap, env), Observe(items).bytes;
            && Observe(items).error.None? && id !in st.files && o.result == Ok(Min(|bytes|, U64_MAX))
            && o.store == Store(st.files[id := Blob(SafeExtension(filename), bytes)],
                                if cap.None? then st.caps else st.caps[id := cap.value])
  {
    WrittenWhole(items, env.write, 0);
  }

  lemma StoredAllOrNothing(st: Store, minFree: nat, id: string, filename: string, seen: Observation, items: seq<Item>,
                           limits: Limits, inspector: Inspector, cap: Option<Bytes>, env: Env)
    requires limits.maxSize <= U64_MAX && inspector.allowed(filename, Prefix(seen.bytes))
    requires Observe(items).error == SizeVerdict(seen, limits.maxSize, limits.exact)
    requires Observe(items).error.None? ==> Observe(items).bytes == seen.bytes
    ensures var o := PutWith(st, minFree, id, ContentFilename(filename, inspector.detect(Prefix(seen.bytes))), items, cap, env);
            AllOrNothing(st, o.store, AsReply(o.result), id, filename, seen, limits, inspector, cap, env)
  {
    var stored := ContentFilename(filename, inspector.detect(Prefix(seen.bytes)));
    var o := PutWith(st, minFree, id, stored, items, cap, env);
    if o.result.Ok? {
      AcceptedPut(st, minFree, id, stored, items, cap, env);
      StoredExtensionFits(filename, inspector.detect(Prefix(seen.bytes)));
      assert o.store.files - {id} == st.files;
    } else if !UploadBreaks(st, id, cap, env) {
      RefusedPut(st, minFree, id, stored, items, cap, env);
    }
  }

  /** What an upload is answered with, as long as no write fails. */
  ghost predicate UploadAnswer(st: Store, minFree: nat, r: Reply<nat>, id: string, filename: string, seen: Observation,
                               limits: Limits, inspector: Inspector, cap: Option<Bytes>, env: Env) {
    if seen.error.Some? && |seen.bytes| < 512 then r == Error(InternalServerError)
    else if !inspector.allowed(filename, Prefix(seen.bytes)) then r == Error(BlockedFileType)
    else if CapRefusal(st, id, cap, env).Some? then r == Error(HandlerError.Storage(CapRefusal(st, id, cap, env).value))
    else if StartRefusal(st, minFree, id, env).Some? then r == Error(HandlerError.Storage(StartRefusal(st, minFree, id, env).value))
    else if |seen.bytes| > limits.maxSize
    then r == Error(HandlerError.Storage(if limits.exact.Some? then SizeMismatch else PayloadTooLarge))
    else if seen.error.Some? then r == Error(HandlerError.Storage(Io))
    else if limits.exact.Some? && limits.exact.value != |seen.bytes| then r == Error(HandlerError.Storage(SizeMismatch))
    else if !env.flush || !env.link then r == Error(HandlerError.Storage(Io))
    else r == Fine(|seen.bytes|)
  }

  lemma OutcomeAnswers(st: Store, minFree: nat, id: string, filename: string, seen: Observation, limits: Limits,
                       inspector: Inspector, cap: Option<Bytes>, env: Env)
    requires limits.maxSize <= U64_MAX
    ensures var (st', r) := UploadOutcome(st, minFree, id, filename, seen, limits, inspector, cap, env);
            UploadAnswer(st, minFree, r, id, filename, seen, limits, inspector, cap, env)
  {
  }

  /** The common part of the upload handlers: sniff, check the size, store. */
  method Upload(backend: Backend, id: string, filename: string, items: seq<Item>, limits: Limits,
                inspector: Inspector, cap: Option<Bytes>, env: Env) returns (r: Reply<nat>)
    requires backend.Valid() && ChunksFit(items) && limits.maxSize + CHUNK_MAX + SNIFF <= U64_MAX
    modifies backend
    ensures backend.Valid()
    ensures AllOrNothing(old(backend.store), backend.store, r, id, filename, Observe(items), limits, inspector, cap, env)
    ensures env.write.None? ==>
      (backend.store, r) ==
      UploadOutcome(old(backend.store), backend.minFree, id, filename, Observe(items), limits, inspector, cap, env)
    ensures env.write.None? ==>
      UploadAnswer(old(backend.store), backend.minFree, r, id, filename, Observe(items), limits, inspector, cap, env)
  {
    OutcomeAnswers(backend.store, backend.minFree, id, filename, Observe(items), limits, inspector, cap, env);
    var sniffed := SniffAndValidate(items, filename, inspector);
    if sniffed.Rejected? { return Error(sniffed.error); }
    var sized := Sized(sniffed.body, limits.maxSize, limits.exact, 0);
    SizedBody(sniffed.body, limits.maxSize, limits.exact);
    NeverOverflows(sniffed.body, limits.maxSize, 0);
    var stored := ContentFilename(filename, sniffed.detected);
    StoredAllOrNothing(backend.store, backend.minFree, id, filename, Observe(items), sized, limits, inspector, cap, env);
    if env.write.None? {
      PutDependsOnBytes(backend.store, backend.minFree, id, stored, sized, cap, env);
      if Observe(sized).error.Some? {
        ErrorHidesBytes(backend.store, backend.minFree, id, stored, Observe(sized), Observation([], Observe(sized).error), cap, env);
      }
    }
    var total: Result<nat>;
    if cap.Some? {
      total := backend.PutStreamWithCapability(id, stored, sized, cap.value, env);
    } else {
      total := backend.PutStream(id, stored, sized, env);
    }
    return AsReply(total);
  }

  /** What a ticket upload's headers say about the length: nothing, something unreadable, or a number. */
  datatype Declared = Absent | Unreadable | Length(n: nat)

  /** What both upload handlers promise once they read the body. */
  ghost predicate Uploaded(st: Store, st': Store, minFree: nat, r: Reply<nat>, id: string, filename: string, seen: Observation,
                           limits: Limits, inspector: Inspector, cap: Option<Bytes>, env: Env) {
    && AllOrNothing(st, st', r, id, filename, seen, limits, inspector, cap, env)
    && (env.write.None? ==>
          && (st', r) == UploadOutcome(st, minFree, id, filename, seen, limits, inspector, cap, env)
          && UploadAnswer(st, minFree, r, id, filename, seen, limits, inspector, cap, env))
  }

  /** An upload that has all it needs: a new id, room, a working file system, and an allowed body that comes in time. */
  ghost predicate Welcome(st: Store, minFree: nat, id: string, filename: string, body: seq<Item>, late: nat -> bool,
                          inspector: Inspector, cap: Option<Bytes>, env: Env) {
    && (forall i :: 0 <= i < |body| ==> body[i].Chunk?) && (forall k :: !late(k))
    && inspector.allowed(filename, Prefix(Body(body)))
    && Reservable(st, id, env) && CapMade(st, id, cap, env) && EnoughSpace(minFree, env) && env.temp && env.write.None?
    && Published(env)
  }

  lemma {:induction false} ChunksObserved(body: seq<Item>)
    requires forall i :: 0 <= i < |body| ==> body[i].Chunk?
    ensures Observe(body) == Observation(Body(body), None)
  {
    if body != [] { ChunksObserved(body[1..]); }
  }

  lemma WelcomeIsStored(st: Store, st': Store, minFree: nat, r: Reply<nat>, id: string, filename: string, body: seq<Item>,
                        late: nat -> bool, limits: Limits, inspector: Inspector, cap: Option<Bytes>, env: Env)
    requires Uploaded(st, st', minFree, r, id, filename, Observe(Deadline(body, late, 0)), limits, inspector, cap, env)
    requires Welcome(st, minFree, id, filename, body, late, inspector, cap, env)
    requires |Body(body)| <= limits.maxSize && (limits.exact.Some? ==> limits.exact.value == |Body(body)|)
    ensures r == Fine(|Body(body)|) && id in st'.files && st'.files[id].bytes == Body(body)
  {
    PunctualBodyPasses(body, late);
    ChunksObserved(body);
  }

  /**
   `store_file_ticket`, behind the body deadline: the outcome depends on the bytes that arrive in time and on how the
   body ends, not on its chunks.
   */
  method StoreFileTicket(backend: Backend, id: string, ticketId: string, filename: string, size: nat, maxFileSize: nat,
                         declared: Declared, body: seq<Item>, late: nat -> bool, inspector: Inspector,
                         cap: Option<Bytes>, env: Env) returns (r: Reply<nat>)
    requires backend.Valid() && ChunksFit(body) && maxFileSize + CHUNK_MAX + SNIFF <= U64_MAX
    modifies backend
    ensures backend.Valid()
    ensures !ValidComponent(id) ==> r == Error(BadRequest) && backend.store == old(backend.store)
    ensures ValidComponent(id) && ticketId != id ==> r == Error(Denied) && backend.store == old(backend.store)
    ensures ValidComponent(id) && ticketId == id && size > maxFileSize ==> r == Error(TooLarge) && backend.store == old(backend.store)
    ensures ValidComponent(id) && ticketId == id && size <= maxFileSize && declared.Unreadable? ==>
              r == Error(BadRequest) && backend.store == old(backend.store)
    ensures ValidComponent(id) && ticketId == id && size <= maxFileSize && declared.Length? && declared.n != size ==>
              r == Error(WrongSize) && backend.store == old(backend.store)
    ensures ValidComponent(id) && ticketId == id && size <= maxFileSize && (declared.Absent? || declared == Length(size)) ==>
              Uploaded(old(backend.store), backend.store, backend.minFree, r, id, filename, Observe(Deadline(body, late, 0)),
                       Limits(size, Some(size)), inspector, cap, env)
    ensures r.Fine? ==>
              ValidComponent(id) && ticketId == id && size <= maxFileSize && (declared.Absent? || declared == Length(size))
    ensures ticketId == id && size <= maxFileSize && (declared.Absent? || declared == Length(size)) && |Body(body)| == size
            && Welcome(old(backend.store), backend.minFree, id, filename, body, late, inspector, cap, env) ==>
              r == Fine(size)
  {
    ghost var st := backend.store;
    if !ValidComponent(id) { return Error(BadRequest); }
    if ticketId != id { return Error(Denied); }
    if size > maxFileSize { return Error(TooLarge); }
    match declared {
      case Absent =>
      case Unreadable => return Error(BadRequest);
      case Length(n) => if n != size { return Error(WrongSize); }
    }
    DeadlineFits(body, late);
    r := Upload(backend, id, filename, Deadline(body, late, 0), Limits(size, Some(size)), inspector, cap, env);
    if Welcome(st, backend.minFree, id, filename, body, late, inspector, cap, env) && |Body(body)| == size {
      WelcomeIsStored(st, backend.store, backend.minFree, r, id, filename, body, late, Limits(size, Some(size)), inspector, cap, env);
    }
  }

  /** `store_file_streaming`, behind the body deadline. */
  method StoreFileStreaming(backend: Backend, id: string, filename: string, maxFileSize: nat, body: seq<Item>,
                            late: nat -> bool, inspector: Inspector, cap: Option<Bytes>, env: Env) returns (r: Reply<nat>)
    requires backend.Valid() && ChunksFit(body) && maxFileSize + CHUNK_MAX + SNIFF <= U64_MAX
    modifies backend
    ensures backend.Valid()
    ensures !ValidComponent(id) ==> r == Error(BadRequest) && backend.store == old(backend.store)
    ensures ValidComponent(id) ==>
              Uploaded(old(backend.store), backend.store, backend.minFree, r, id, filename, Observe(Deadline(body, late, 0)),
                       Limits(maxFileSize, None), inspector, cap, env)
    ensures |Body(body)| <= maxFileSize
            && Welcome(old(backend.store), backend.minFree, id, filename, body, late, inspector, cap, env) ==>
              r == Fine(|Body(body)|)
  {
    ghost var st := backend.store;
    if !ValidComponent(id) { return Error(BadRequest); }
    DeadlineFits(body, late);
    r := Upload(backend, id, filename, Deadline(body, late, 0), Limits(maxFileSize, None), inspector, cap, env);
    if Welcome(st, backend.minFree, id, filename, body, late, inspector, cap, env) && |Body(body)| <= maxFileSize {
      WelcomeIsStored(st, backend.store, backend.minFree, r, id, filename, body, late, Limits(maxFileSize, None), inspector, cap, env);
    }
  }

  /** A ticket upload that is accepted has stored the client's whole body, at the signed size. */
  lemma TicketStoresWholeBody(st: Store, st': Store, r: Reply<nat>, id: string, filename: string, body: seq<Item>,
                              late: nat -> bool, size: nat, inspector: Inspector, cap: Option<Bytes>, env: Env)
    requires AllOrNothing(st, st', r, id, filename, Observe(Deadline(body, late, 0)), Limits(size, Some(size)), inspector, cap, env)
    requires r.Fine?
    ensures Observe(body).error.None? && |Observe(body).bytes| == size == r.value
    ensures id in st'.files && st'.files[id].bytes == Observe(body).bytes
  {
    DeadlineIsHonest(body, late, 0);
  }

  // ---- Concat ----

  predicate BadConcat(id: string, parts: seq<string>, maxParts: nat) {
    parts == [] || |parts| > maxParts || !Distinct(parts) || !ValidComponent(id)
    || exists p :: p in parts && (!ValidComponent(p) || p == id)
  }

  /** The loop that adds up the sizes of the parts, from a running total on. */
  function SizesError(files: map<string, Blob>, parts: seq<string>, total: nat, maxFileSize: nat): Option<HandlerError> {
    if parts == [] then None
    else if parts[0] !in files then Some(HandlerError.Storage(NotFound))
    else
      var next := total + |files[parts[0]].bytes|;
      if next > U64_MAX || next > maxFileSize then Some(TooLarge)
      else SizesError(files, parts[1..], next, maxFileSize)
  }

  lemma {:induction false} SizesAddUp(files: map<string, Blob>, parts: seq<string>, total: nat, maxFileSize: nat)
    requires SizesError(files, parts, total, maxFileSize).None? && total <= maxFileSize
    ensures (forall p :: p in parts ==> p in files) && total + |Joined(files, parts)| <= maxFileSize
  {
    if parts != [] {
      SizesAddUp(files, parts[1..], total + |files[parts[0]].bytes|, maxFileSize);
    }
  }

  function ConcatWith(st: Store, minFree: nat, id: string, filename: string, parts: seq<string>, cap: Option<Bytes>, env: Env): Outcome<()> {
    if cap.None? then Concat(st, minFree, id, filename, parts, env)
    else ConcatWithCapability(st, minFree, id, filename, parts, cap.value, env)
  }

  function ConcatRequest(st: Store, minFree: nat, id: string, filename: string, parts: seq<string>, maxParts: nat,
                         maxFileSize: nat, cap: Option<Bytes>, env: Env): (Store, Reply<()>) {
    if BadConcat(id, parts, maxParts) then (st, Error(BadRequest))
    else match SizesError(st.files, parts, 0, maxFileSize)
      case Some(e) => (st, Error(e))
      case None =>
        var o := ConcatWith(st, minFree, id, filename, parts, cap, env);
        (o.store, match o.result case Ok(_) => Fine(()) case Err(e) => Error(HandlerError.Storage(e)))
  }

  method SizeOf(backend: Backend, id: string) returns (size: Result<nat>)
    requires backend.Valid()
    modifies backend`metaCache
    ensures backend.Valid()
    ensures size == if id in backend.store.files then Ok(|backend.store.files[id].bytes|) else Err(NotFound)
  {
    var meta := backend.Stat(id);
    return if meta.Ok? then Ok(meta.value.size) else Err(meta.error);
  }

  /** The loop that adds up the sizes; they come from `stat`, which may answer from the metadata cache. */
  method AddSizes(backend: Backend, parts: seq<string>, maxFileSize: nat) returns (e: Option<HandlerError>)
    requires backend.Valid()
    modifies backend`metaCache
    ensures backend.Valid()
    ensures e == SizesError(backend.store.files, parts, 0, maxFileSize)
  {
    ghost var files := backend.store.files;
    ghost var outcome := SizesError(files, parts, 0, maxFileSize);
    var aggregate: nat := 0;
    var j := 0;
    assert parts[0..] == parts;
    while j < |parts|
      invariant j <= |parts| && backend.Valid() && backend.store.files == files
      invariant outcome == SizesError(files, parts[j..], aggregate, maxFileSize)
    {
      SizesStep(files, parts, j, aggregate, maxFileSize);
      var size := SizeOf(backend, parts[j]);
      if size.Err? { return Some(HandlerError.Storage(size.error)); }
      aggregate := aggregate + size.value;
      if aggregate > U64_MAX || aggregate > maxFileSize { return Some(TooLarge); }
      j := j + 1;
    }
    assert parts[j..] == [];
    return None;
  }

  lemma SizesStep(files: map<string, Blob>, parts: seq<string>, j: nat, total: nat, maxFileSize: nat)
    requires j < |parts|
    ensures SizesError(files, parts[j..], total, maxFileSize) ==
            if parts[j] !in files then Some(HandlerError.Storage(NotFound))
            else if total + |files[parts[j]].bytes| > U64_MAX || total + |files[parts[j]].bytes| > maxFileSize then Some(TooLarge)
            else SizesError(files, parts[j + 1..], total + |files[parts[j]].bytes|, maxFileSize)
  {
    assert parts[j..][1..] == parts[j + 1..];
  }

  /** The sizes of the parts up to part `j` add up to at most the limit. */
  ghost predicate SizeFits(files: map<string, Blob>, parts: seq<string>, maxFileSize: nat, j: nat)
    requires j < |parts|
  {
    parts[j] in files && |Joined(files, parts[..j + 1])| <= maxFileSize && |Joined(files, parts[..j + 1])| <= U64_MAX
  }

  ghost predicate AllFit(files: map<string, Blob>, parts: seq<string>, maxFileSize: nat) {
    forall j :: 0 <= j < |parts| ==> SizeFits(files, parts, maxFileSize, j)
  }

  /** Part `k` is the first that is missing, or with which the parts become too much. */
  ghost predicate FirstUnfit(files: map<string, Blob>, parts: seq<string>, maxFileSize: nat, k: nat) {
    && k < |parts| && !SizeFits(files, parts, maxFileSize, k)
    && forall j :: 0 <= j < k ==> SizeFits(files, parts, maxFileSize, j)
  }

  /** The sum of sizes gets as far as part `k`. */
  lemma {:induction false} SizesStop(files: map<string, Blob>, parts: seq<string>, total: nat, maxFileSize: nat) returns (k: nat)
    ensures k <= |parts|
    ensures forall j :: 0 <= j < k ==> parts[j] in files && total + |Joined(files, parts[..j + 1])| <= Min(maxFileSize, U64_MAX)
    ensures k == |parts| ==> SizesError(files, parts, total, maxFileSize).None?
    ensures k < |parts| ==>
              && (parts[k] !in files || total + |Joined(files, parts[..k + 1])| > Min(maxFileSize, U64_MAX))
              && SizesError(files, parts, total, maxFileSize) ==
                 Some(if parts[k] !in files then HandlerError.Storage(NotFound) else TooLarge)
  {
    k := 0;
    if parts != [] {
      OnePart(files, parts);
      if parts[0] in files && total + |files[parts[0]].bytes| <= Min(maxFileSize, U64_MAX) {
        var next := total + |files[parts[0]].bytes|;
        var rest := SizesStop(files, parts[1..], next, maxFileSize);
        k := rest + 1;
        forall j | 0 <= j < |parts|
          ensures j > 0 ==> total + |Joined(files, parts[..j + 1])| == next + |Joined(files, parts[1..][..j])|
        {
          if j > 0 { assert parts[..j + 1][1..] == parts[1..][..j]; }
        }
        forall j | 0 <= j < k
          ensures parts[j] in files && total + |Joined(files, parts[..j + 1])| <= Min(maxFileSize, U64_MAX)
        {
          if j > 0 { assert parts[j] == parts[1..][j - 1] && parts[1..][..j] == parts[1..][..j - 1 + 1]; }
        }
      }
    }
  }

  lemma OnePart(files: map<string, Blob>, parts: seq<string>)
    requires parts != []
    ensures parts[0] in files ==> Joined(files, parts[..1]) == files[parts[0]].bytes
  {
    assert parts[..1] == [parts[0]] && parts[..1][1..] == [];
  }

  /** The first part that is missing or too much decides. */
  lemma SizesAnswer(files: map<string, Blob>, parts: seq<string>, maxFileSize: nat)
    ensures SizesError(files, parts, 0, maxFileSize).None? <==> AllFit(files, parts, maxFileSize)
    ensures SizesError(files, parts, 0, maxFileSize).Some? ==>
              SizesError(files, parts, 0, maxFileSize).value in {HandlerError.Storage(NotFound), TooLarge}
    ensures forall k: nat :: FirstUnfit(files, parts, maxFileSize, k) ==>
              SizesError(files, parts, 0, maxFileSize) == Some(if parts[k] !in files then HandlerError.Storage(NotFound) else TooLarge)
  {
    var k := SizesStop(files, parts, 0, maxFileSize);
    assert k < |parts| ==> !SizeFits(files, parts, maxFileSize, k);
    forall j | 0 <= j < k ensures SizeFits(files, parts, maxFileSize, j) { }
  }

  /** A request names a valid new id and, once each, between one and `maxParts` other valid ids. */
  ghost predicate WellAsked(id: string, parts: seq<string>, maxParts: nat) {
    && 0 < |parts| <= maxParts && ValidComponent(id)
    && (forall i, j :: 0 <= i < j < |parts| ==> parts[i] != parts[j])
    && forall i :: 0 <= i < |parts| ==> ValidComponent(parts[i]) && parts[i] != id
  }

  /** `concat_files`. */
  method ConcatFilesRequest(backend: Backend, id: string, filename: string, parts: seq<string>, maxParts: nat,
                            maxFileSize: nat, cap: Option<Bytes>, env: Env) returns (r: Reply<()>)
    requires backend.Valid()
    modifies backend
    ensures backend.Valid()
    ensures (backend.store, r) ==
            ConcatRequest(old(backend.store), backend.minFree, id, filename, parts, maxParts, maxFileSize, cap, env)
    ensures r == Error(BadRequest) <==> !WellAsked(id, parts, maxParts)
    ensures r.Fine? <==>
              && WellAsked(id, parts, maxParts)
              && AllFit(old(backend.store.files), parts, maxFileSize)
              && Can(old(backend.store), backend.minFree, ConcatOp(id, filename, parts, cap), env)
    ensures forall k: nat :: WellAsked(id, parts, maxParts) && FirstUnfit(old(backend.store.files), parts, maxFileSize, k) ==>
              r == Error(if parts[k] !in old(backend.store.files) then HandlerError.Storage(NotFound) else TooLarge)
  {
    ConcatAnswers(backend.store, backend.minFree, id, filename, parts, maxParts, maxFileSize, cap, env);
    if BadConcat(id, parts, maxParts) { return Error(BadRequest); }
    var e := AddSizes(backend, parts, maxFileSize);
    if e.Some? { return Error(e.value); }
    var joined: Result<()>;
    if cap.Some? {
      joined := backend.ConcatFilesWithCapability(id, filename, parts, cap.value, env);
    } else {
      joined := backend.ConcatFiles(id, filename, parts, env);
    }
    return match joined case Ok(_) => Fine(()) case Err(e) => Error(HandlerError.Storage(e));
  }

  lemma WellAskedIsGood(id: string, parts: seq<string>, maxParts: nat)
    ensures BadConcat(id, parts, maxParts) <==> !WellAsked(id, parts, maxParts)
  {
    assert forall i :: 0 <= i < |parts| ==> parts[i] in parts;
  }

  lemma ConcatWithSucceeds(st: Store, minFree: nat, id: string, filename: string, parts: seq<string>, cap: Option<Bytes>, env: Env)
    ensures ConcatWith(st, minFree, id, filename, parts, cap, env).result.Ok? <==> Can(st, minFree, ConcatOp(id, filename, parts, cap), env)
  {
    SucceedsExactly(st, minFree, ConcatOp(id, filename, parts, cap), env);
  }

  lemma ConcatAnswers(st: Store, minFree: nat, id: string, filename: string, parts: seq<string>, maxParts: nat,
                      maxFileSize: nat, cap: Option<Bytes>, env: Env)
    ensures var r := ConcatRequest(st, minFree, id, filename, parts, maxParts, maxFileSize, cap, env).1;
            && (r == Error(BadRequest) <==> !WellAsked(id, parts, maxParts))
            && (r.Fine? <==>
                  && WellAsked(id, parts, maxParts) && AllFit(st.files, parts, maxFileSize)
                  && Can(st, minFree, ConcatOp(id, filename, parts, cap), env))
            && (WellAsked(id, parts, maxParts) && AllFit(st.files, parts, maxFileSize) ==>
                  var o := Apply(st, minFree, ConcatOp(id, filename, parts, cap), env).result;
                  o.Err? ==> r == Error(HandlerError.Storage(o.error)))
            && forall k: nat :: WellAsked(id, parts, maxParts) && FirstUnfit(st.files, parts, maxFileSize, k) ==>
                 r == Error(if parts[k] !in st.files then HandlerError.Storage(NotFound) else TooLarge)
  {
    WellAskedIsGood(id, parts, maxParts);
    SizesAnswer(st.files, parts, maxFileSize);
    ConcatWithSucceeds(st, minFree, id, filename, parts, cap, env);
  }

  /**
   An accepted concat request has joined the parts in their order into a file within the size limit, removed every
   part it could unlink, and left other files and capabilities alone.
   */
  lemma ConcatRequestCorrect(st: Store, minFree: nat, id: string, filename: string, parts: seq<string>, maxParts: nat,
                             maxFileSize: nat, cap: Option<Bytes>, env: Env)
    requires ConcatRequest(st, minFree, id, filename, parts, maxParts, maxFileSize, cap, env).1.Fine?
    ensures var st' := ConcatRequest(st, minFree, id, filename, parts, maxParts, maxFileSize, cap, env).0;
            && id !in st.files && id in st'.files
            && st'.files[id].bytes == Joined(st.files, parts) && |st'.files[id].bytes| <= maxFileSize
            && (forall p :: p in parts ==> p in st.files && (p in st'.files <==> p in env.stuck))
            && (forall i :: i != id && i !in parts ==> SameFor(st, st', i))
  {
    SizesAddUp(st.files, parts, 0, maxFileSize);
    ConcatPublished(st, minFree, id, filename, parts, cap, env);
    ConcatMade(MadeReady(st, id, cap), minFree, id, filename, parts, env);
  }

  lemma ConcatMade(st: Store, minFree: nat, id: string, filename: string, parts: seq<string>, env: Env)
    requires ConcatError(st, minFree, id, parts, env).None?
    requires id !in st.files && forall p :: p in parts ==> p in st.files
    ensures var st' := Concat(st, minFree, id, filename, parts, env).store;
            && id in st'.files && st'.files[id].bytes == Joined(st.files, parts)
            && (forall p :: p in parts ==> (p in st'.files <==> p in env.stuck))
            && (forall i :: i != id && i !in parts ==> SameFor(st, st', i))
  {
  }

  /** When it could unlink all parts, it has kept the number of stored bytes. */
  lemma ConcatRequestConserves(st: Store, minFree: nat, id: string, filename: string, parts: seq<string>, maxParts: nat,
                               maxFileSize: nat, cap: Option<Bytes>, env: Env)
    requires ConcatRequest(st, minFree, id, filename, parts, maxParts, maxFileSize, cap, env).1.Fine?
    requires forall p :: p in parts ==> p !in env.stuck
    ensures Total(ConcatRequest(st, minFree, id, filename, parts, maxParts, maxFileSize, cap, env).0.files) == Total(st.files)
  {
    SizesAddUp(st.files, parts, 0, maxFileSize);
    ConcatPublished(st, minFree, id, filename, parts, cap, env);
    ConcatConserves(MadeReady(st, id, cap), minFree, id, filename, parts, env);
  }

  /** A request that names a missing part leaves every file as it is. */
  lemma MissingPartKeepsAll(st: Store, minFree: nat, id: string, filename: string, parts: seq<string>, maxParts: nat,
                            maxFileSize: nat, cap: Option<Bytes>, env: Env)
    requires exists p :: p in parts && p !in st.files
    ensures var (st', r) := ConcatRequest(st, minFree, id, filename, parts, maxParts, maxFileSize, cap, env);
            st' == st && r.Error?
  {
    if SizesError(st.files, parts, 0, maxFileSize).None? { SizesAddUp(st.files, parts, 0, maxFileSize); }
  }

  /** The store a concat starts from once its own capability, if any, is in place. */
  function MadeReady(st: Store, id: string, cap: Option<Bytes>): Store {
    if cap.None? then st else st.(caps := st.caps[id := cap.value])
  }

  lemma ConcatPublished(st: Store, minFree: nat, id: string, filename: string, parts: seq<string>, cap: Option<Bytes>, env: Env)
    requires ConcatWith(st, minFree, id, filename, parts, cap, env).result.Ok?
    ensures ConcatWith(st, minFree, id, filename, parts, cap, env) == Concat(MadeReady(st, id, cap), minFree, id, filename, parts, env)
    ensures id !in st.files && ConcatError(MadeReady(st, id, cap), minFree, id, parts, env).None?
  {
  }
}
