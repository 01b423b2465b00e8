/** Laws of the storage operations over every call and every run. */
module StoreLaws {
  import opened Base
  import opened Names
  import opened StoreSpec

  datatype Op =
    | PutOp(id: string, filename: string, items: seq<Item>, cap: Option<Bytes>)
    | DeleteOp(id: string, cap: Option<Bytes>)
    | RenameOp(from: string, to: string, cap: Option<Bytes>)
    | ConcatOp(id: string, filename: string, parts: seq<string>, cap: Option<Bytes>)
    | GetOp(id: string)
    | StatOp(id: string)

  datatype Reply =
    | Stored(n: nat)
    | Deleted(found: bool)
    | Finished
    | Fetched(bytes: Bytes, ext: string)
    | Examined(size: nat, ext: string)

  /** The capability an operation presents. */
  function CapOf(op: Op): Option<Bytes> {
    if op.GetOp? || op.StatOp? then None else op.cap
  }

  function AsReply<T>(o: Outcome<T>, reply: T -> Reply): Outcome<Reply> {
    Outcome(o.store, match o.result case Ok(v) => Ok(reply(v)) case Err(e) => Err(e))
  }

  function Apply(st: Store, minFree: nat, op: Op, env: Env): Outcome<Reply> {
    match op
    case PutOp(id, filename, items, cap) =>
      AsReply(if cap.None? then Put(st, minFree, id, filename, items, env)
              else PutWithCapability(st, minFree, id, filename, items, cap.value, env), n => Stored(n))
    case DeleteOp(id, cap) =>
      AsReply(if cap.None? then Delete(st, id, env) else DeleteWithCapability(st, id, cap.value, env), b => Deleted(b))
    case RenameOp(from, to, cap) =>
      AsReply(if cap.None? then Rename(st, from, to, env) else RenameWithCapability(st, from, to, cap.value, env), _ => Finished)
    case ConcatOp(id, filename, parts, cap) =>
      AsReply(if cap.None? then Concat(st, minFree, id, filename, parts, env)
              else ConcatWithCapability(st, minFree, id, filename, parts, cap.value, env), _ => Finished)
    case GetOp(id) =>
      Outcome(st, match Get(st, id, env) case Ok(blob) => Ok(Fetched(blob.bytes, blob.ext)) case Err(e) => Err(e))
    case StatOp(id) =>
      Outcome(st, if id in st.files then Ok(Examined(|st.files[id].bytes|, st.files[id].ext)) else Err(NotFound))
  }

  // ---- Failure atomicity ----

  /** The files whose capability an operation checks. */
  function Consumed(op: Op): seq<string> {
    match op
    case PutOp(_, _, _, _) => []
    case DeleteOp(id, _) => [id]
    case RenameOp(from, _, _) => [from]
    case ConcatOp(_, _, parts, _) => parts
    case GetOp(_) | StatOp(_) => []
  }

  predicate Authorised(st: Store, op: Op) {
    CapOf(op).None? || AllVerified(st, Consumed(op), CapOf(op).value)
  }

  /** A new capability file is created and then cannot be written. */
  predicate CapWriteBreaks(st: Store, op: Op, env: Env) {
    (op.PutOp? || op.ConcatOp?) && op.cap.Some? && Authorised(st, op)
    && ValidComponent(op.id) && env.capCreate && op.id !in st.caps && env.capWrite.Some?
  }

  /** A rename has moved the file and then cannot move the capability file it found. */
  predicate CapMoveBreaks(st: Store, op: Op, env: Env) {
    op.RenameOp? && Authorised(st, op) && RenameError(st, op.from, op.to, env).None?
    && CapFound(st, op.from, op.to).Some? && env.capProbe && !env.capMove
  }

  lemma CreateThenRemove(st: Store, id: string, hash: Bytes)
    requires id !in st.caps
    ensures RemoveCapability(st.(caps := st.caps[id := hash]), id) == st
  {
    assert st.caps[id := hash] - {id} == st.caps;
  }

  /** A failed operation changes nothing, unless it fails while it writes or moves a capability file; then it does. */
  lemma FailureIsAtomic(st: Store, minFree: nat, op: Op, env: Env)
    requires Apply(st, minFree, op, env).result.Err?
    ensures Apply(st, minFree, op, env).store == st <==> !CapWriteBreaks(st, op, env) && !CapMoveBreaks(st, op, env)
  {
    match op
    case PutOp(id, _, _, cap) => if cap.Some? && id !in st.caps { CreateThenRemove(st, id, cap.value); }
    case DeleteOp(_, _) =>
    case RenameOp(_, _, _) => RenameFailure(st, minFree, op, env);
    case ConcatOp(id, _, _, cap) => if cap.Some? && id !in st.caps { CreateThenRemove(st, id, cap.value); }
    case GetOp(_) | StatOp(_) =>
  }

  lemma RenameFailure(st: Store, minFree: nat, op: Op, env: Env)
    requires op.RenameOp? && Apply(st, minFree, op, env).result.Err?
    ensures Apply(st, minFree, op, env).store == st <==> !CapMoveBreaks(st, op, env)
  {
    if RenameError(st, op.from, op.to, env).None? {
      assert op.to in WithMovedFile(st, op.from, op.to).files && op.to !in st.files;
    }
  }

  // ---- Authorisation ----

  /** An operation that presents a capability changes the store only if the capability is that of every file it consumes. */
  lemma ChangeNeedsCapability(st: Store, minFree: nat, op: Op, env: Env)
    requires !op.PutOp? && CapOf(op).Some? && Apply(st, minFree, op, env).store != st
    ensures forall p :: p in Consumed(op) ==> p in st.caps && st.caps[p] == CapOf(op).value
  {
  }

  // ---- What stays unchanged ----

  function Touched(op: Op): set<string> {
    match op
    case PutOp(id, _, _, _) => {id}
    case DeleteOp(id, _) => {id}
    case RenameOp(from, to, _) => {from, to}
    case ConcatOp(id, _, parts, _) => {id} + Elements(parts)
    case GetOp(_) | StatOp(_) => {}
  }

  ghost predicate SameFor(st: Store, st': Store, id: string) {
    && (id in st.files <==> id in st'.files) && (id in st.files ==> st'.files[id] == st.files[id])
    && (id in st.caps <==> id in st'.caps) && (id in st.caps ==> st'.caps[id] == st.caps[id])
  }

  lemma ConcatLeavesOthers(st: Store, minFree: nat, op: Op, env: Env, id: string)
    requires op.ConcatOp? && id !in Touched(op)
    ensures SameFor(st, Apply(st, minFree, op, env).store, id)
  {
  }

  /** Whatever happens, files and capabilities of other ids stay as they are. */
  lemma OthersUntouched(st: Store, minFree: nat, op: Op, env: Env, id: string)
    requires id !in Touched(op)
    ensures SameFor(st, Apply(st, minFree, op, env).store, id)
  {
    if op.ConcatOp? { ConcatLeavesOthers(st, minFree, op, env, id); }
  }

  /** When no write fails, the only error a body can end with is its own. */
  lemma {:induction false} CalmWrites(items: seq<Item>, j: nat)
    ensures WriteError(items, None, j) == Observe(items).error
  {
    if items != [] && items[0].Chunk? { CalmWrites(items[1..], j + 1); }
  }
}
