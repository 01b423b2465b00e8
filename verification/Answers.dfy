/**
 When each storage operation succeeds, what it then leaves, and which error it gives otherwise: for every store and
 every environment, in terms of the fields of the environment and of what is stored.
 */
module Answers {
  import opened Base
  import opened Names
  import opened Filenames
  import opened StoreSpec
  import opened StoreLaws

  // ---- What an operation needs ----

  /** The id is a valid new one, and its reservation can be made. */
  predicate Reservable(st: Store, id: string, env: Env) {
    ValidComponent(id) && env.reserve && id !in st.files && !(id == "cap" && "reserve" in st.caps)
  }

  predicate EnoughSpace(minFree: nat, env: Env) {
    env.free.Some? && env.free.value >= minFree
  }

  /** The capability file that goes with a new file, if any, can be made. */
  predicate CapMade(st: Store, id: string, cap: Option<Bytes>, env: Env) {
    cap.None? || (ValidComponent(id) && env.capCreate && id !in st.caps && env.capWrite.None?)
  }

  predicate Presented(st: Store, id: string, cap: Option<Bytes>) {
    cap.None? || (id in st.caps && st.caps[id] == cap.value)
  }

  /** Item `j` arrives and is written. */
  predicate WritesItem(items: seq<Item>, env: Env, j: nat)
    requires j < |items|
  {
    items[j].Chunk? && env.write != Some(j)
  }

  /** Part `j` is stored, can be opened, and can be copied. */
  predicate CopiesPart(st: Store, parts: seq<string>, env: Env, j: nat)
    requires j < |parts|
  {
    parts[j] in st.files && env.open != Some(j) && env.write != Some(j)
  }

  predicate Published(env: Env) { env.flush && env.link }

  /** A capability file is found for the file that is renamed. */
  predicate CapInTheWay(st: Store, from: string, to: string) {
    from in st.caps || (from == "reserve" && to == "cap")
  }

  /** The operation can do all it has to. */
  predicate Can(st: Store, minFree: nat, op: Op, env: Env) {
    match op
    case PutOp(id, _, items, cap) =>
      && Reservable(st, id, env) && CapMade(st, id, cap, env) && EnoughSpace(minFree, env) && env.temp
      && (forall j :: 0 <= j < |items| ==> WritesItem(items, env, j)) && Published(env)
    case DeleteOp(id, cap) =>
      Presented(st, id, cap) && (id in st.files ==> env.unlink)
    case RenameOp(from, to, cap) =>
      && Presented(st, from, cap) && Reservable(st, to, env) && from in st.files && env.stat && env.link && env.unlink
      && (CapInTheWay(st, from, to) && env.capProbe ==> env.capMove)
    case ConcatOp(id, _, parts, cap) =>
      && (forall p :: p in parts ==> Presented(st, p, cap))
      && Reservable(st, id, env) && CapMade(st, id, cap, env) && EnoughSpace(minFree, env) && env.temp
      && (forall j :: 0 <= j < |parts| ==> CopiesPart(st, parts, env, j)) && Published(env)
    case GetOp(id) => id in st.files && env.read
    case StatOp(id) => id in st.files
  }

  // ---- The loops ----

  /** The write of a body gets as far as item `k`. */
  lemma {:induction false} WriteStops(items: seq<Item>, failing: Option<nat>, from: nat) returns (k: nat)
    ensures k <= |items| && forall j :: 0 <= j < k ==> items[j].Chunk? && failing != Some(from + j)
    ensures k == |items| ==> WriteError(items, failing, from).None?
    ensures k < |items| ==>
              && (items[k].Fail? || failing == Some(from + k))
              && WriteError(items, failing, from) == Some(if items[k].Fail? then items[k].error else Io)
  {
    k := 0;
    if items != [] && items[0].Chunk? && failing != Some(from) {
      var rest := WriteStops(items[1..], failing, from + 1);
      k := rest + 1;
      forall j | 0 <= j < k ensures items[j].Chunk? && failing != Some(from + j) {
        if j > 0 { assert items[j] == items[1..][j - 1]; }
      }
    }
  }

  /** The copy of the parts gets as far as part `k`. */
  lemma {:induction false} CopyStops(st: Store, parts: seq<string>, env: Env, from: nat) returns (k: nat)
    ensures k <= |parts|
    ensures forall j :: 0 <= j < k ==> parts[j] in st.files && env.open != Some(from + j) && env.write != Some(from + j)
    ensures k == |parts| ==> CopyError(st, parts, env, from).None?
    ensures k < |parts| ==>
              && (parts[k] !in st.files || env.open == Some(from + k) || env.write == Some(from + k))
              && CopyError(st, parts, env, from) == Some(if parts[k] !in st.files then NotFound else Io)
  {
    k := 0;
    if parts != [] && PartError(st, parts[0], env, from).None? {
      var rest := CopyStops(st, parts[1..], env, from + 1);
      k := rest + 1;
      forall j | 0 <= j < k
        ensures parts[j] in st.files && env.open != Some(from + j) && env.write != Some(from + j)
      {
        if j > 0 { assert parts[j] == parts[1..][j - 1]; }
      }
    }
  }

  /** The write ends at item `k`, and not before. */
  predicate StopsAt(items: seq<Item>, env: Env, k: nat) {
    k < |items| && !WritesItem(items, env, k) && forall j :: 0 <= j < k ==> WritesItem(items, env, j)
  }

  /** The copy ends at part `k`, and not before. */
  predicate CopyStopsAt(st: Store, parts: seq<string>, env: Env, k: nat) {
    k < |parts| && !CopiesPart(st, parts, env, k) && forall j :: 0 <= j < k ==> CopiesPart(st, parts, env, j)
  }

  lemma WriteAnswers(items: seq<Item>, env: Env)
    ensures WriteError(items, env.write, 0).None? <==> forall j :: 0 <= j < |items| ==> WritesItem(items, env, j)
    ensures forall k: nat :: StopsAt(items, env, k) ==> WriteError(items, env.write, 0) == Some(if items[k].Fail? then items[k].error else Io)
  {
    var k := WriteStops(items, env.write, 0);
    assert k < |items| ==> !WritesItem(items, env, k);
    forall j | 0 <= j < k ensures WritesItem(items, env, j) { }
    forall i: nat | StopsAt(items, env, i) ensures i == k { }
  }

  lemma CopyAnswers(st: Store, parts: seq<string>, env: Env)
    ensures CopyError(st, parts, env, 0).None? <==> forall j :: 0 <= j < |parts| ==> CopiesPart(st, parts, env, j)
    ensures forall k: nat :: CopyStopsAt(st, parts, env, k) ==> CopyError(st, parts, env, 0) == Some(if parts[k] !in st.files then NotFound else Io)
  {
    var k := CopyStops(st, parts, env, 0);
    assert k < |parts| ==> !CopiesPart(st, parts, env, k);
    forall j | 0 <= j < k ensures CopiesPart(st, parts, env, j) { }
    forall i: nat | CopyStopsAt(st, parts, env, i) ensures i == k { }
  }

  // ---- Success ----

  lemma PutSucceeds(st: Store, minFree: nat, op: Op, env: Env)
    requires op.PutOp?
    ensures Apply(st, minFree, op, env).result.Ok? <==> Can(st, minFree, op, env)
  {
    WriteAnswers(op.items, env);
  }

  lemma {:induction false} CopyIgnoresCaps(st: Store, caps: map<string, Bytes>, parts: seq<string>, env: Env, from: nat)
    ensures CopyError(st.(caps := caps), parts, env, from) == CopyError(st, parts, env, from)
  {
    if parts != [] { CopyIgnoresCaps(st, caps, parts[1..], env, from + 1); }
  }

  /** The target's own capability file is in no one's way. */
  lemma OwnCapDoesNotMatter(st: Store, minFree: nat, id: string, hash: Bytes, parts: seq<string>, env: Env)
    ensures ConcatError(st.(caps := st.caps[id := hash]), minFree, id, parts, env) == ConcatError(st, minFree, id, parts, env)
  {
    CopyIgnoresCaps(st, st.caps[id := hash], parts, env, 0);
  }

  lemma ConcatSucceeds(st: Store, minFree: nat, op: Op, env: Env)
    requires op.ConcatOp?
    ensures Apply(st, minFree, op, env).result.Ok? <==> Can(st, minFree, op, env)
  {
    CopyAnswers(st, op.parts, env);
    if op.cap.Some? { OwnCapDoesNotMatter(st, minFree, op.id, op.cap.value, op.parts, env); }
  }

  /** An operation succeeds exactly when it can do all it has to. */
  lemma SucceedsExactly(st: Store, minFree: nat, op: Op, env: Env)
    ensures Apply(st, minFree, op, env).result.Ok? <==> Can(st, minFree, op, env)
  {
    match op
    case PutOp(_, _, _, _) => PutSucceeds(st, minFree, op, env);
    case ConcatOp(_, _, _, _) => ConcatSucceeds(st, minFree, op, env);
    case _ =>
  }

  /** The parts that a concat unlinks. */
  predicate Unlinked(op: Op, env: Env, id: string)
    requires op.ConcatOp?
  {
    id in op.parts && id !in env.stuck
  }

  function CapsWith(caps: map<string, Bytes>, id: string, cap: Option<Bytes>): map<string, Bytes> {
    if cap.None? then caps else caps[id := cap.value]
  }

  lemma PutLeaves(st: Store, minFree: nat, op: Op, env: Env)
    requires op.PutOp? && Apply(st, minFree, op, env).result.Ok?
    ensures var bytes := Observe(op.items).bytes;
            Apply(st, minFree, op, env) ==
            Outcome(Store(st.files[op.id := Blob(SafeExtension(op.filename), bytes)], CapsWith(st.caps, op.id, op.cap)),
                    Ok(Stored(Min(|bytes|, U64_MAX))))
  {
  }

  lemma DeleteLeaves(st: Store, minFree: nat, op: Op, env: Env)
    requires op.DeleteOp? && Apply(st, minFree, op, env).result.Ok?
    ensures Apply(st, minFree, op, env) ==
            if op.id in st.files then Outcome(Store(st.files - {op.id}, st.caps - {op.id}), Ok(Deleted(true)))
            else Outcome(st, Ok(Deleted(false)))
  {
  }

  lemma RenameLeaves(st: Store, minFree: nat, op: Op, env: Env)
    requires op.RenameOp? && Apply(st, minFree, op, env).result.Ok?
    ensures op.from in st.files && op.to !in st.files
    ensures Apply(st, minFree, op, env) ==
            Outcome(Store((st.files - {op.from})[op.to := st.files[op.from]],
                          if !env.capProbe then st.caps
                          else if op.from in st.caps then (st.caps - {op.from})[op.to := st.caps[op.from]]
                          else if op.from == "reserve" && op.to == "cap" then (st.caps - {op.from})[op.to := []]
                          else st.caps),
                    Ok(Finished))
  {
  }

  lemma ConcatLeaves(st: Store, minFree: nat, op: Op, env: Env)
    requires op.ConcatOp? && Apply(st, minFree, op, env).result.Ok?
    ensures var o := Apply(st, minFree, op, env);
            && o.result == Ok(Finished)
            && (forall id :: id in o.store.files <==> (id == op.id || id in st.files) && !Unlinked(op, env, id))
            && (forall id :: id in o.store.files ==>
                  o.store.files[id] == if id == op.id then Blob(SafeExtension(op.filename), Joined(st.files, op.parts)) else st.files[id])
            && (forall id :: id in o.store.caps <==> id in CapsWith(st.caps, op.id, op.cap) && !Unlinked(op, env, id))
            && (forall id :: id in o.store.caps ==> o.store.caps[id] == CapsWith(st.caps, op.id, op.cap)[id])
  {
  }

  lemma ReadLeaves(st: Store, minFree: nat, op: Op, env: Env)
    requires (op.GetOp? || op.StatOp?) && Apply(st, minFree, op, env).result.Ok?
    ensures op.id in st.files
    ensures Apply(st, minFree, op, env) ==
            Outcome(st, Ok(if op.GetOp? then Fetched(st.files[op.id].bytes, st.files[op.id].ext)
                           else Examined(|st.files[op.id].bytes|, st.files[op.id].ext)))
  {
  }

  // ---- Failure ----

  /** The capability file of a new file cannot be made, for this reason. */
  function CapRefusal(st: Store, id: string, cap: Option<Bytes>, env: Env): Option<StorageError> {
    if cap.None? then None
    else if !ValidComponent(id) || !env.capCreate then Some(Io)
    else if id in st.caps then Some(Conflict)
    else if env.capWrite.Some? then Some(Io)
    else None
  }

  /** The new id cannot be reserved, or there is no room, for this reason. */
  function StartRefusal(st: Store, minFree: nat, id: string, env: Env): Option<StorageError> {
    if !ValidComponent(id) || !env.reserve then Some(Io)
    else if id in st.files || (id == "cap" && "reserve" in st.caps) then Some(Conflict)
    else if env.free.None? then Some(Io)
    else if env.free.value < minFree then Some(InsufficientStorage)
    else if !env.temp then Some(Io)
    else None
  }

  lemma PutRefused(st: Store, minFree: nat, op: Op, env: Env)
    requires op.PutOp? && Apply(st, minFree, op, env).result.Err?
    ensures var e := Apply(st, minFree, op, env).result.error;
            if CapRefusal(st, op.id, op.cap, env).Some? then e == CapRefusal(st, op.id, op.cap, env).value
            else if StartRefusal(st, minFree, op.id, env).Some? then e == StartRefusal(st, minFree, op.id, env).value
            else if exists j :: 0 <= j < |op.items| && !WritesItem(op.items, env, j)
            then forall k: nat :: StopsAt(op.items, env, k) ==> e == if op.items[k].Fail? then op.items[k].error else Io
            else e == Io
  {
    WriteAnswers(op.items, env);
  }

  lemma ConcatRefused(st: Store, minFree: nat, op: Op, env: Env)
    requires op.ConcatOp? && Apply(st, minFree, op, env).result.Err?
    ensures var e := Apply(st, minFree, op, env).result.error;
            if exists p :: p in op.parts && !Presented(st, p, op.cap) then e == Forbidden
            else if CapRefusal(st, op.id, op.cap, env).Some? then e == CapRefusal(st, op.id, op.cap, env).value
            else if StartRefusal(st, minFree, op.id, env).Some? then e == StartRefusal(st, minFree, op.id, env).value
            else if exists j :: 0 <= j < |op.parts| && !CopiesPart(st, op.parts, env, j)
            then forall k: nat :: CopyStopsAt(st, op.parts, env, k) ==> e == if op.parts[k] !in st.files then NotFound else Io
            else e == Io
  {
    CopyAnswers(st, op.parts, env);
    if op.cap.Some? { OwnCapDoesNotMatter(st, minFree, op.id, op.cap.value, op.parts, env); }
  }

  lemma OthersRefused(st: Store, minFree: nat, op: Op, env: Env)
    requires !op.PutOp? && !op.ConcatOp? && Apply(st, minFree, op, env).result.Err?
    ensures var e := Apply(st, minFree, op, env).result.error;
            match op
            case DeleteOp(id, cap) => e == if !Presented(st, id, cap) then Forbidden else Io
            case RenameOp(from, to, cap) =>
              e == if !Presented(st, from, cap) then Forbidden
                   else if !ValidComponent(to) || !env.reserve then Io
                   else if to in st.files || (to == "cap" && "reserve" in st.caps) then Conflict
                   else if from !in st.files || !env.stat then NotFound
                   else Io
            case GetOp(id) => e == if id !in st.files then NotFound else Io
            case _ => e == NotFound
  {
  }

  /** What the two failures leave that change something: a broken capability file, or a moved file without its own. */
  lemma BrokenCapLeaves(st: Store, minFree: nat, op: Op, env: Env)
    requires Apply(st, minFree, op, env).result.Err?
    ensures CapWriteBreaks(st, op, env) ==>
              exists n: nat :: n <= |CapOf(op).value| && Apply(st, minFree, op, env).store == Store(st.files, st.caps[op.id := CapOf(op).value[..n]])
    ensures CapMoveBreaks(st, op, env) ==>
              && op.from in st.files
              && Apply(st, minFree, op, env).store == Store((st.files - {op.from})[op.to := st.files[op.from]], st.caps)
  {
    if CapWriteBreaks(st, op, env) {
      var hash := op.cap.value;
      var n: nat := if env.capWrite.value < |hash| then env.capWrite.value else |hash|;
      assert hash[..|hash|] == hash;
      assert Apply(st, minFree, op, env).store == Store(st.files, st.caps[op.id := hash[..n]]);
    }
  }

  // ---- Free space ----

  /** A put or a concat that has all it needs but room is refused for that, and changes nothing. */
  lemma LowSpaceRefuses(st: Store, minFree: nat, op: Op, env: Env)
    requires (op.PutOp? || op.ConcatOp?) && env.free.Some? && env.free.value < minFree
    requires Can(st, minFree, op, env.(free := Some(minFree)))
    ensures Apply(st, minFree, op, env) == Outcome(st, Err(InsufficientStorage))
  {
    if op.cap.Some? { CreateThenRemove(st, op.id, op.cap.value); }
  }

  /** Whatever was stored by a put or a concat, there was room for it. */
  lemma SuccessHadSpace(st: Store, minFree: nat, op: Op, env: Env)
    requires (op.PutOp? || op.ConcatOp?) && Apply(st, minFree, op, env).result.Ok?
    ensures env.free.Some? && env.free.value >= minFree
  {
    SucceedsExactly(st, minFree, op, env);
  }
}
