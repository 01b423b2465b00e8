/**
 What the storage operations do, as functions on the stored files and the stored capability hashes. `Env` says what
 the machine does during one call: free space, and which filesystem call, if any, fails.
 */
module StoreSpec {
  import opened Base
  import opened Names
  import opened Filenames

  datatype Blob = Blob(ext: string, bytes: Bytes)

  datatype Store = Store(files: map<string, Blob>, caps: map<string, Bytes>)

  datatype Env = Env(
    free: Option<nat>,           // available space, or the query fails
    reserve: bool,               // the reservation can be created, unless it exists
    temp: bool,                  // the temporary file can be created
    open: Option<nat>,           // the part that cannot be opened
    write: Option<nat>,          // the write or copy that fails
    flush: bool,
    link: bool,
    stat: bool,
    unlink: bool,                // a file can be unlinked by delete and rename
    stuck: set<string>,          // parts that cannot be unlinked after a concat
    capCreate: bool,             // a capability file can be created, unless it exists
    capWrite: Option<nat>,       // writing a new capability file fails after this many bytes
    capProbe: bool,
    capMove: bool,
    read: bool,                  // a stored file can be opened for reading
    now: nat)

  datatype Outcome<+T> = Outcome(store: Store, result: Result<T>)

  function Unchanged<T>(st: Store, e: StorageError): Outcome<T> {
    Outcome(st, Err(e))
  }

  // ---- Creating a file ----

  /** The reservation of `cap` is the capability file of `reserve`. */
  predicate Blocked(st: Store, id: string) {
    id == "cap" && "reserve" in st.caps
  }

  function ReserveError(st: Store, id: string, env: Env): Option<StorageError> {
    if !ValidComponent(id) || !env.reserve then Some(Io)
    else if Blocked(st, id) || id in st.files then Some(Conflict)
    else None
  }

  function SpaceError(minFree: nat, env: Env): Option<StorageError> {
    match env.free
    case None => Some(Io)
    case Some(free) => if free < minFree then Some(InsufficientStorage) else None
  }

  /** The error that ends the loop over the chunks, from chunk `j` on. */
  function WriteError(items: seq<Item>, failing: Option<nat>, j: nat): Option<StorageError> {
    if items == [] then None
    else if items[0].Fail? then Some(items[0].error)
    else if failing == Some(j) then Some(Io)
    else WriteError(items[1..], failing, j + 1)
  }

  function PublishError(env: Env): Option<StorageError> {
    if env.flush && env.link then None else Some(Io)
  }

  /** The first error, in the order in which the steps are made. */
  function First(a: Option<StorageError>, b: Option<StorageError>): Option<StorageError> {
    if a.Some? then a else b
  }

  function TempError(env: Env): Option<StorageError> {
    if env.temp then None else Some(Io)
  }

  function FillError(items: seq<Item>, env: Env): Option<StorageError> {
    First(TempError(env), First(WriteError(items, env.write, 0), PublishError(env)))
  }

  function PutError(st: Store, minFree: nat, id: string, items: seq<Item>, env: Env): Option<StorageError> {
    First(ReserveError(st, id, env), First(SpaceError(minFree, env), FillError(items, env)))
  }

  function WithFile(st: Store, id: string, ext: string, bytes: Bytes): Store {
    st.(files := st.files[id := Blob(ext, bytes)])
  }

  function Put(st: Store, minFree: nat, id: string, filename: string, items: seq<Item>, env: Env): Outcome<nat> {
    match PutError(st, minFree, id, items, env)
    case Some(e) => Unchanged(st, e)
    case None =>
      var bytes := Observe(items).bytes;
      Outcome(WithFile(st, id, SafeExtension(filename), bytes), Ok(Min(|bytes|, U64_MAX)))
  }

  // ---- Get ----

  function Get(st: Store, id: string, env: Env): Result<Blob> {
    if id !in st.files then Err(NotFound) else if !env.read then Err(Io) else Ok(st.files[id])
  }

  // ---- Delete and rename ----

  function Delete(st: Store, id: string, env: Env): Outcome<bool> {
    if id !in st.files then Outcome(st, Ok(false))
    else if !env.unlink then Unchanged(st, Io)
    else Outcome(Without(st, {id}), Ok(true))
  }

  /** The capability file that rename finds for the old id; for `reserve`, the reservation of `cap` looks like one. */
  function CapFound(st: Store, from: string, to: string): Option<Bytes> {
    if from in st.caps then Some(st.caps[from])
    else if from == "reserve" && to == "cap" then Some([])
    else None
  }

  function MoveError(st: Store, from: string, env: Env): Option<StorageError> {
    if from !in st.files || !env.stat then Some(NotFound)
    else if !env.link || !env.unlink then Some(Io)
    else None
  }

  function RenameError(st: Store, from: string, to: string, env: Env): Option<StorageError> {
    First(ReserveError(st, to, env), MoveError(st, from, env))
  }

  function WithMovedFile(st: Store, from: string, to: string): Store
    requires from in st.files
  {
    st.(files := (st.files - {from})[to := st.files[from]])
  }

  function MoveCap(st: Store, from: string, to: string, env: Env): Outcome<()> {
    var found := CapFound(st, from, to);
    if found.None? || !env.capProbe then Outcome(st, Ok(()))
    else if !env.capMove then Outcome(st, Err(Io))
    else Outcome(st.(caps := (st.caps - {from})[to := found.value]), Ok(()))
  }

  function Rename(st: Store, from: string, to: string, env: Env): Outcome<()> {
    match RenameError(st, from, to, env)
    case Some(e) => Unchanged(st, e)
    case None => MoveCap(WithMovedFile(st, from, to), from, to, env)
  }

  // ---- Concat ----

  function Joined(files: map<string, Blob>, parts: seq<string>): Bytes {
    if parts == [] then []
    else (if parts[0] in files then files[parts[0]].bytes else []) + Joined(files, parts[1..])
  }

  function PartError(st: Store, part: string, env: Env, j: nat): Option<StorageError> {
    if part !in st.files then Some(NotFound)
    else if env.open == Some(j) || env.write == Some(j) then Some(Io)
    else None
  }

  function CopyError(st: Store, parts: seq<string>, env: Env, j: nat): Option<StorageError> {
    if parts == [] then None
    else First(PartError(st, parts[0], env, j), CopyError(st, parts[1..], env, j + 1))
  }

  function JoinError(st: Store, parts: seq<string>, env: Env): Option<StorageError> {
    First(TempError(env), First(CopyError(st, parts, env, 0), PublishError(env)))
  }

  function ConcatError(st: Store, minFree: nat, id: string, parts: seq<string>, env: Env): Option<StorageError> {
    First(ReserveError(st, id, env), First(SpaceError(minFree, env), JoinError(st, parts, env)))
  }

  function Without(st: Store, gone: set<string>): Store {
    Store(st.files - gone, st.caps - gone)
  }

  function Elements(parts: seq<string>): set<string> {
    set p | p in parts
  }

  function Removed(parts: seq<string>, env: Env): set<string> {
    set p | p in parts && p !in env.stuck
  }

  function Concat(st: Store, minFree: nat, id: string, filename: string, parts: seq<string>, env: Env): Outcome<()> {
    match ConcatError(st, minFree, id, parts, env)
    case Some(e) => Unchanged(st, e)
    case None =>
      var joined := WithFile(st, id, SafeExtension(filename), Joined(st.files, parts));
      Outcome(Without(joined, Removed(parts, env)), Ok(()))
  }

  // ---- Capabilities ----

  function CreateCapability(st: Store, id: string, hash: Bytes, env: Env): Outcome<()> {
    if !ValidComponent(id) || !env.capCreate then Unchanged(st, Io)
    else if id in st.caps then Unchanged(st, Conflict)
    else match env.capWrite
      case Some(n) => Outcome(st.(caps := st.caps[id := if n < |hash| then hash[..n] else hash]), Err(Io))
      case None => Outcome(st.(caps := st.caps[id := hash]), Ok(()))
  }

  function RemoveCapability(st: Store, id: string): Store {
    st.(caps := st.caps - {id})
  }

  predicate Verified(st: Store, id: string, hash: Bytes) {
    id in st.caps && st.caps[id] == hash
  }

  predicate AllVerified(st: Store, ids: seq<string>, hash: Bytes) {
    forall p :: p in ids ==> Verified(st, p, hash)
  }

  function PutWithCapability(st: Store, minFree: nat, id: string, filename: string, items: seq<Item>, hash: Bytes, env: Env): Outcome<nat> {
    var made := CreateCapability(st, id, hash, env);
    match made.result
    case Err(e) => Outcome(made.store, Err(e))
    case Ok(_) =>
      var put := Put(made.store, minFree, id, filename, items, env);
      if put.result.Err? then Outcome(RemoveCapability(put.store, id), put.result) else put
  }

  function DeleteWithCapability(st: Store, id: string, hash: Bytes, env: Env): Outcome<bool> {
    if Verified(st, id, hash) then Delete(st, id, env) else Unchanged(st, Forbidden)
  }

  function RenameWithCapability(st: Store, from: string, to: string, hash: Bytes, env: Env): Outcome<()> {
    if Verified(st, from, hash) then Rename(st, from, to, env) else Unchanged(st, Forbidden)
  }

  function ConcatWithCapability(st: Store, minFree: nat, id: string, filename: string, parts: seq<string>, hash: Bytes, env: Env): Outcome<()> {
    if !AllVerified(st, parts, hash) then Unchanged(st, Forbidden)
    else
      var made := CreateCapability(st, id, hash, env);
      match made.result
      case Err(e) => Outcome(made.store, Err(e))
      case Ok(_) =>
        var joined := Concat(made.store, minFree, id, filename, parts, env);
        if joined.result.Err? then Outcome(RemoveCapability(joined.store, id), joined.result) else joined
  }
}
