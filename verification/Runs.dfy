/** Whole runs of the backend, against the simple map. */
module Runs {
  import opened Base
  import opened StoreSpec
  import opened StoreLaws
  import opened LocalState
  import opened SimpleStore
  import opened LocalBackend

  function Answered<T>(r: Result<T>, reply: T -> Reply): Result<Reply> {
    match r case Ok(v) => Ok(reply(v)) case Err(e) => Err(e)
  }

  method PerformPut(backend: Backend, op: Op, env: Env) returns (r: Result<Reply>)
    requires backend.Valid() && op.PutOp?
    modifies backend
    ensures backend.Valid() && Outcome(backend.store, r) == Apply(old(backend.store), backend.minFree, op, env)
    ensures Frames(old(backend.Fields()), backend.Fields(), Touched(op))
  {
    var put: Result<nat>;
    if op.cap.None? {
      put := backend.PutStream(op.id, op.filename, op.items, env);
    } else {
      put := backend.PutStreamWithCapability(op.id, op.filename, op.items, op.cap.value, env);
    }
    return Answered(put, n => Stored(n));
  }

  method PerformDelete(backend: Backend, op: Op, env: Env) returns (r: Result<Reply>)
    requires backend.Valid() && op.DeleteOp?
    modifies backend
    ensures backend.Valid() && Outcome(backend.store, r) == Apply(old(backend.store), backend.minFree, op, env)
    ensures Frames(old(backend.Fields()), backend.Fields(), Touched(op))
  {
    var deleted: Result<bool>;
    if op.cap.None? {
      deleted := backend.DeleteFile(op.id, env);
    } else {
      deleted := backend.DeleteFileWithCapability(op.id, op.cap.value, env);
    }
    return Answered(deleted, found => Deleted(found));
  }

  method PerformRename(backend: Backend, op: Op, env: Env) returns (r: Result<Reply>)
    requires backend.Valid() && op.RenameOp?
    modifies backend
    ensures backend.Valid() && Outcome(backend.store, r) == Apply(old(backend.store), backend.minFree, op, env)
    ensures Frames(old(backend.Fields()), backend.Fields(), Touched(op))
  {
    var renamed: Result<()>;
    if op.cap.None? {
      renamed := backend.RenameFile(op.from, op.to, env);
    } else {
      renamed := backend.RenameFileWithCapability(op.from, op.to, op.cap.value, env);
    }
    return Answered(renamed, _ => Finished);
  }

  method PerformConcat(backend: Backend, op: Op, env: Env) returns (r: Result<Reply>)
    requires backend.Valid() && op.ConcatOp?
    modifies backend
    ensures backend.Valid() && Outcome(backend.store, r) == Apply(old(backend.store), backend.minFree, op, env)
    ensures Frames(old(backend.Fields()), backend.Fields(), Touched(op))
  {
    var joined: Result<()>;
    if op.cap.None? {
      joined := backend.ConcatFiles(op.id, op.filename, op.parts, env);
    } else {
      joined := backend.ConcatFilesWithCapability(op.id, op.filename, op.parts, op.cap.value, env);
    }
    return Answered(joined, _ => Finished);
  }

  method PerformGet(backend: Backend, op: Op, env: Env) returns (r: Result<Reply>)
    requires backend.Valid() && op.GetOp?
    modifies backend
    ensures backend.Valid() && Outcome(backend.store, r) == Apply(old(backend.store), backend.minFree, op, env)
    ensures Frames(old(backend.Fields()), backend.Fields(), Touched(op))
  {
    var file := backend.GetFile(op.id, env);
    SameFrames(old(backend.Fields()), backend.Fields(), {});
    return if file.Ok? then Ok(Fetched(file.value.0, file.value.1.extension)) else Err(file.error);
  }

  method PerformStat(backend: Backend, op: Op, env: Env) returns (r: Result<Reply>)
    requires backend.Valid() && op.StatOp?
    modifies backend
    ensures backend.Valid() && Outcome(backend.store, r) == Apply(old(backend.store), backend.minFree, op, env)
    ensures Frames(old(backend.Fields()), backend.Fields(), Touched(op))
  {
    var meta := backend.Stat(op.id);
    SameFrames(old(backend.Fields()), backend.Fields(), {});
    return if meta.Ok? then Ok(Examined(meta.value.size, meta.value.extension)) else Err(meta.error);
  }

  /** Any operation: what is specified, and for other ids the same metadata, entity tags included. */
  method Perform(backend: Backend, op: Op, env: Env) returns (r: Result<Reply>)
    requires backend.Valid()
    modifies backend
    ensures backend.Valid() && Outcome(backend.store, r) == Apply(old(backend.store), backend.minFree, op, env)
    ensures forall id :: id !in Touched(op) ==> MetaOfId(backend.Fields(), id) == old(MetaOfId(backend.Fields(), id))
  {
    match op {
      case PutOp(_, _, _, _) => r := PerformPut(backend, op, env);
      case DeleteOp(_, _) => r := PerformDelete(backend, op, env);
      case RenameOp(_, _, _) => r := PerformRename(backend, op, env);
      case ConcatOp(_, _, _, _) => r := PerformConcat(backend, op, env);
      case GetOp(_) => r := PerformGet(backend, op, env);
      case StatOp(_) => r := PerformStat(backend, op, env);
    }
    OthersKeepMeta(old(backend.Fields()), backend.Fields(), Touched(op));
  }

  /** A run of operations, each under its own environment. */
  method Run(backend: Backend, ops: seq<Op>, envs: seq<Env>) returns (results: seq<Result<Reply>>)
    requires backend.Valid() && |ops| == |envs|
    modifies backend
    ensures backend.Valid()
    ensures (backend.store, results) == RunStore(old(backend.store), backend.minFree, ops, envs)
    decreases |ops|
  {
    if ops == [] { return []; }
    var r := Perform(backend, ops[0], envs[0]);
    var rest := Run(backend, ops[1..], envs[1..]);
    return [r] + rest;
  }

  /**
   While no call fails and no operation makes the id `cap`, a run of the backend gives the results of the simple map,
   and leaves what the simple map leaves: the same files, with the same capabilities.
   */
  method RunCalmly(backend: Backend, ops: seq<Op>, envs: seq<Env>) returns (results: seq<Result<Reply>>)
    requires backend.Valid() && |ops| == |envs| && Tidy(backend.store)
    requires AllCalm(envs, backend.minFree) && NoneMakesCap(ops)
    modifies backend
    ensures backend.Valid() && Tidy(backend.store)
    ensures (View(backend.store), results) == RunSimple(View(old(backend.store)), ops)
  {
    RunRefines(backend.store, backend.minFree, ops, envs);
    results := Run(backend, ops, envs);
  }
}
