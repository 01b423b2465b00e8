/**
 The simple picture of the store: one map from an id to its extension, bytes and optional capability hash. While no
 call fails, the backend is this map, except for what the file names of `cap` and `reserve` have in common.
 */
module SimpleStore {
  import opened Base
  import opened Names
  import opened Filenames
  import opened StoreSpec
  import opened StoreLaws

  datatype Rec = Rec(ext: string, bytes: Bytes, cap: Option<Bytes>)

  type Simple = map<string, Rec>

  function View(st: Store): Simple {
    map id | id in st.files ::
      Rec(st.files[id].ext, st.files[id].bytes, if id in st.caps then Some(st.caps[id]) else None)
  }

  /** Every capability belongs to a stored file. */
  ghost predicate Tidy(st: Store) {
    st.caps.Keys <= st.files.Keys
  }

  // ---- The operations on the simple map ----

  datatype Answer = Answer(m: Simple, result: Result<Reply>)

  predicate May(m: Simple, id: string, cap: Option<Bytes>) {
    cap.None? || (id in m && m[id].cap == cap)
  }

  function SimplePut(m: Simple, id: string, filename: string, items: seq<Item>, cap: Option<Bytes>): Answer {
    if !ValidComponent(id) then Answer(m, Err(Io))
    else if id in m then Answer(m, Err(Conflict))
    else
      var seen := Observe(items);
      if seen.error.Some? then Answer(m, Err(seen.error.value))
      else Answer(m[id := Rec(SafeExtension(filename), seen.bytes, cap)], Ok(Stored(Min(|seen.bytes|, U64_MAX))))
  }

  function SimpleDelete(m: Simple, id: string, cap: Option<Bytes>): Answer {
    if !May(m, id, cap) then Answer(m, Err(Forbidden))
    else Answer(m - {id}, Ok(Deleted(id in m)))
  }

  function SimpleRename(m: Simple, from: string, to: string, cap: Option<Bytes>): Answer {
    if !May(m, from, cap) then Answer(m, Err(Forbidden))
    else if !ValidComponent(to) then Answer(m, Err(Io))
    else if to in m then Answer(m, Err(Conflict))
    else if from !in m then Answer(m, Err(NotFound))
    else Answer((m - {from})[to := m[from]], Ok(Finished))
  }

  function Glued(m: Simple, parts: seq<string>): Bytes {
    if parts == [] then [] else (if parts[0] in m then m[parts[0]].bytes else []) + Glued(m, parts[1..])
  }

  predicate MayAll(m: Simple, ids: seq<string>, cap: Option<Bytes>) {
    forall p :: p in ids ==> May(m, p, cap)
  }

  predicate Present(ids: set<string>, parts: seq<string>) {
    forall p :: p in parts ==> p in ids
  }

  function SimpleConcat(m: Simple, id: string, filename: string, parts: seq<string>, cap: Option<Bytes>): Answer {
    if !MayAll(m, parts, cap) then Answer(m, Err(Forbidden))
    else if !ValidComponent(id) then Answer(m, Err(Io))
    else if id in m then Answer(m, Err(Conflict))
    else if !Present(m.Keys, parts) then Answer(m, Err(NotFound))
    else Answer((m - (set p | p in parts))[id := Rec(SafeExtension(filename), Glued(m, parts), cap)], Ok(Finished))
  }

  function SimpleApply(m: Simple, op: Op): Answer {
    match op
    case PutOp(id, filename, items, cap) => SimplePut(m, id, filename, items, cap)
    case DeleteOp(id, cap) => SimpleDelete(m, id, cap)
    case RenameOp(from, to, cap) => SimpleRename(m, from, to, cap)
    case ConcatOp(id, filename, parts, cap) => SimpleConcat(m, id, filename, parts, cap)
    case GetOp(id) => Answer(m, if id in m then Ok(Fetched(m[id].bytes, m[id].ext)) else Err(NotFound))
    case StatOp(id) => Answer(m, if id in m then Ok(Examined(|m[id].bytes|, m[id].ext)) else Err(NotFound))
  }

  // ---- When nothing fails ----

  predicate Calm(env: Env, minFree: nat) {
    && env.free.Some? && env.free.value >= minFree && env.reserve && env.temp && env.open.None? && env.write.None?
    && env.flush && env.link && env.stat && env.unlink && env.stuck == {}
    && env.capCreate && env.capWrite.None? && env.capProbe && env.capMove && env.read
  }

  lemma CalmIsPossible(minFree: nat, now: nat)
    ensures Calm(Env(Some(minFree), true, true, None, None, true, true, true, true, {}, true, None, true, true, true, now), minFree)
  {
  }

  /** The new id of an operation that makes one. */
  function Target(op: Op): Option<string> {
    match op
    case PutOp(id, _, _, _) => Some(id)
    case DeleteOp(_, _) => None
    case RenameOp(_, to, _) => Some(to)
    case ConcatOp(id, _, _, _) => Some(id)
    case GetOp(_) | StatOp(_) => None
  }

  /** The operation goes ahead to make the id `cap`, and the names of `cap` and `reserve` get in each other's way. */
  predicate Quirky(st: Store, op: Op) {
    && Target(op) == Some("cap") && "cap" !in st.files && Authorised(st, op)
    && ("reserve" in st.caps || (op.RenameOp? && op.from == "reserve" && "reserve" in st.files))
    && (op.PutOp? ==> Observe(op.items).error != Some(Conflict))
  }

  ghost predicate Agrees(st: Store, minFree: nat, op: Op, env: Env) {
    var o, a := Apply(st, minFree, op, env), SimpleApply(View(st), op);
    View(o.store) == a.m && o.result == a.result && Tidy(o.store)
  }

  lemma {:induction false} CalmCopies(st: Store, parts: seq<string>, env: Env, j: nat)
    requires env.open.None? && env.write.None?
    ensures CopyError(st, parts, env, j) == if Present(st.files.Keys, parts) then None else Some(NotFound)
  {
    if parts != [] {
      CalmCopies(st, parts[1..], env, j + 1);
      assert parts[0] in parts;
      assert forall p :: p in parts <==> p == parts[0] || p in parts[1..];
    }
  }

  lemma {:induction false} GluedIsJoined(st: Store, parts: seq<string>)
    ensures Glued(View(st), parts) == Joined(st.files, parts)
  {
    if parts != [] { GluedIsJoined(st, parts[1..]); }
  }

  lemma CapIsValid()
    ensures ValidComponent("cap")
  {
  }

  /** What a put comes to when nothing fails, as a change of the store. */
  function CalmPut(st: Store, id: string, filename: string, items: seq<Item>, cap: Option<Bytes>): Outcome<Reply> {
    var seen := Observe(items);
    if !ValidComponent(id) then Unchanged(st, Io)
    else if id in st.files || Blocked(st, id) then Unchanged(st, Conflict)
    else if seen.error.Some? then Unchanged(st, seen.error.value)
    else Outcome(Store(st.files[id := Blob(SafeExtension(filename), seen.bytes)],
                       if cap.None? then st.caps else st.caps[id := cap.value]),
                 Ok(Stored(Min(|seen.bytes|, U64_MAX))))
  }

  lemma PutIsCalm(st: Store, minFree: nat, op: Op, env: Env)
    requires Tidy(st) && Calm(env, minFree) && op.PutOp?
    ensures Apply(st, minFree, op, env) == CalmPut(st, op.id, op.filename, op.items, op.cap)
  {
    CalmWrites(op.items, 0);
    if op.cap.Some? && op.id !in st.caps { CreateThenRemove(st, op.id, op.cap.value); }
  }

  lemma ViewWith(st: Store, id: string, blob: Blob, cap: Option<Bytes>)
    requires Tidy(st) && id !in st.files
    ensures var st' := Store(st.files[id := blob], if cap.None? then st.caps else st.caps[id := cap.value]);
            Tidy(st') && View(st') == View(st)[id := Rec(blob.ext, blob.bytes, cap)]
  {
  }

  lemma PutViews(st: Store, op: Op)
    requires Tidy(st) && op.PutOp?
    ensures var o, a := CalmPut(st, op.id, op.filename, op.items, op.cap), SimpleApply(View(st), op);
            (View(o.store) == a.m && o.result == a.result && Tidy(o.store)) <==> !Quirky(st, op)
  {
    CapIsValid();
    var seen := Observe(op.items);
    if ValidComponent(op.id) && op.id !in st.files {
      if Blocked(st, op.id) {
        assert CalmPut(st, op.id, op.filename, op.items, op.cap) == Unchanged(st, Conflict);
      } else if seen.error.None? {
        ViewWith(st, op.id, Blob(SafeExtension(op.filename), seen.bytes), op.cap);
      }
    }
  }

  lemma PutAgrees(st: Store, minFree: nat, op: Op, env: Env)
    requires Tidy(st) && Calm(env, minFree) && op.PutOp?
    ensures Agrees(st, minFree, op, env) <==> !Quirky(st, op)
  {
    PutIsCalm(st, minFree, op, env);
    PutViews(st, op);
  }

  lemma DeleteAgrees(st: Store, minFree: nat, op: Op, env: Env)
    requires Tidy(st) && Calm(env, minFree) && op.DeleteOp?
    ensures Agrees(st, minFree, op, env)
  {
    var o := Apply(st, minFree, op, env);
    if o.result.Ok? {
      if op.id in st.files { assert View(o.store) == View(st) - {op.id}; } else { assert View(st) - {op.id} == View(st); }
    }
  }

  /** What a rename comes to when nothing fails. */
  function CalmRename(st: Store, from: string, to: string, cap: Option<Bytes>): Outcome<Reply> {
    if cap.Some? && !Verified(st, from, cap.value) then Unchanged(st, Forbidden)
    else if !ValidComponent(to) then Unchanged(st, Io)
    else if to in st.files || Blocked(st, to) then Unchanged(st, Conflict)
    else if from !in st.files then Unchanged(st, NotFound)
    else
      var found := CapFound(st, from, to);
      Outcome(Store((st.files - {from})[to := st.files[from]],
                    if found.None? then st.caps else (st.caps - {from})[to := found.value]), Ok(Finished))
  }

  lemma RenameIsCalm(st: Store, minFree: nat, op: Op, env: Env)
    requires Calm(env, minFree) && op.RenameOp?
    ensures Apply(st, minFree, op, env) == CalmRename(st, op.from, op.to, op.cap)
  {
  }

  lemma RenameViews(st: Store, op: Op)
    requires Tidy(st) && op.RenameOp?
    ensures var o, a := CalmRename(st, op.from, op.to, op.cap), SimpleApply(View(st), op);
            (View(o.store) == a.m && o.result == a.result && Tidy(o.store)) <==> !Quirky(st, op)
  {
    var o, a := CalmRename(st, op.from, op.to, op.cap), SimpleApply(View(st), op);
    CapIsValid();
    if o.result.Ok? {
      var m := (View(st) - {op.from})[op.to := View(st)[op.from]];
      assert a.m == m;
      if op.from !in st.caps && op.from == "reserve" && op.to == "cap" {
        assert View(o.store)["cap"].cap == Some([]) && m["cap"].cap == None;
      } else {
        assert View(o.store) == m;
      }
    }
  }

  lemma RenameAgrees(st: Store, minFree: nat, op: Op, env: Env)
    requires Tidy(st) && Calm(env, minFree) && op.RenameOp?
    ensures Agrees(st, minFree, op, env) <==> !Quirky(st, op)
  {
    RenameIsCalm(st, minFree, op, env);
    RenameViews(st, op);
  }

  /** What a concat comes to when nothing fails. */
  function CalmConcat(st: Store, id: string, filename: string, parts: seq<string>, cap: Option<Bytes>): Outcome<Reply> {
    if cap.Some? && !AllVerified(st, parts, cap.value) then Unchanged(st, Forbidden)
    else if !ValidComponent(id) then Unchanged(st, Io)
    else if id in st.files || Blocked(st, id) then Unchanged(st, Conflict)
    else if !Present(st.files.Keys, parts) then Unchanged(st, NotFound)
    else
      var gone := set p | p in parts;
      Outcome(Store(st.files[id := Blob(SafeExtension(filename), Joined(st.files, parts))] - gone,
                    (if cap.None? then st.caps else st.caps[id := cap.value]) - gone), Ok(Finished))
  }

  lemma ConcatIsCalm(st: Store, minFree: nat, op: Op, env: Env)
    requires Tidy(st) && Calm(env, minFree) && op.ConcatOp?
    ensures Apply(st, minFree, op, env) == CalmConcat(st, op.id, op.filename, op.parts, op.cap)
  {
    CalmCopies(st, op.parts, env, 0);
    assert Removed(op.parts, env) == set p | p in op.parts;
    if op.cap.Some? {
      var made := st.(caps := st.caps[op.id := op.cap.value]);
      CalmCopies(made, op.parts, env, 0);
      if op.id !in st.caps { CreateThenRemove(st, op.id, op.cap.value); }
    }
  }

  lemma ViewGlued(st: Store, id: string, blob: Blob, cap: Option<Bytes>, gone: set<string>)
    requires Tidy(st) && id !in st.files && gone <= st.files.Keys
    ensures var st' := Store(st.files[id := blob] - gone, (if cap.None? then st.caps else st.caps[id := cap.value]) - gone);
            Tidy(st') && View(st') == (View(st) - gone)[id := Rec(blob.ext, blob.bytes, cap)]
  {
  }

  lemma MayIsVerified(st: Store, parts: seq<string>, cap: Option<Bytes>)
    requires Tidy(st)
    ensures MayAll(View(st), parts, cap) <==> cap.None? || AllVerified(st, parts, cap.value)
    ensures View(st).Keys == st.files.Keys
  {
    assert forall p :: May(View(st), p, cap) <==> cap.None? || Verified(st, p, cap.value);
  }

  lemma ConcatViews(st: Store, op: Op)
    requires Tidy(st) && op.ConcatOp?
    ensures var o, a := CalmConcat(st, op.id, op.filename, op.parts, op.cap), SimpleApply(View(st), op);
            (View(o.store) == a.m && o.result == a.result && Tidy(o.store)) <==> !Quirky(st, op)
  {
    CapIsValid();
    GluedIsJoined(st, op.parts);
    MayIsVerified(st, op.parts, op.cap);
    if CalmConcat(st, op.id, op.filename, op.parts, op.cap).result.Ok? {
      var gone := set p | p in op.parts;
      ViewGlued(st, op.id, Blob(SafeExtension(op.filename), Joined(st.files, op.parts)), op.cap, gone);
    }
  }

  lemma ConcatAgrees(st: Store, minFree: nat, op: Op, env: Env)
    requires Tidy(st) && Calm(env, minFree) && op.ConcatOp?
    ensures Agrees(st, minFree, op, env) <==> !Quirky(st, op)
  {
    ConcatIsCalm(st, minFree, op, env);
    ConcatViews(st, op);
  }

  /**
   While no call fails, every operation gives the result of the simple map, and leaves what the simple map leaves,
   exactly unless it is one of the quirks around `cap` and `reserve`.
   */
  lemma Simulation(st: Store, minFree: nat, op: Op, env: Env)
    requires Tidy(st) && Calm(env, minFree)
    ensures Agrees(st, minFree, op, env) <==> !Quirky(st, op)
  {
    match op
    case PutOp(_, _, _, _) => PutAgrees(st, minFree, op, env);
    case DeleteOp(_, _) => DeleteAgrees(st, minFree, op, env);
    case RenameOp(_, _, _) => RenameAgrees(st, minFree, op, env);
    case ConcatOp(_, _, _, _) => ConcatAgrees(st, minFree, op, env);
    case GetOp(_) | StatOp(_) =>
  }

  // ---- Whole runs ----

  /** The stores and results along a run. */
  function RunStore(st: Store, minFree: nat, ops: seq<Op>, envs: seq<Env>): (Store, seq<Result<Reply>>)
    requires |ops| == |envs|
    decreases |ops|
  {
    if ops == [] then (st, [])
    else
      var o := Apply(st, minFree, ops[0], envs[0]);
      var (last, results) := RunStore(o.store, minFree, ops[1..], envs[1..]);
      (last, [o.result] + results)
  }

  function RunSimple(m: Simple, ops: seq<Op>): (Simple, seq<Result<Reply>>)
    decreases |ops|
  {
    if ops == [] then (m, [])
    else
      var a := SimpleApply(m, ops[0]);
      var (last, results) := RunSimple(a.m, ops[1..]);
      (last, [a.result] + results)
  }

  predicate AllCalm(envs: seq<Env>, minFree: nat) {
    forall i :: 0 <= i < |envs| ==> Calm(envs[i], minFree)
  }

  predicate NoneMakesCap(ops: seq<Op>) {
    forall i :: 0 <= i < |ops| ==> Target(ops[i]) != Some("cap")
  }

  /**
   Over every run in which no call fails and no operation makes the id `cap`, the backend is the simple map: the same
   results, and the same files with the same capabilities.
   */
  lemma {:induction false} RunRefines(st: Store, minFree: nat, ops: seq<Op>, envs: seq<Env>)
    requires |ops| == |envs| && Tidy(st) && AllCalm(envs, minFree) && NoneMakesCap(ops)
    ensures var (last, results) := RunStore(st, minFree, ops, envs);
            Tidy(last) && (View(last), results) == RunSimple(View(st), ops)
    decreases |ops|
  {
    if ops != [] {
      Simulation(st, minFree, ops[0], envs[0]);
      assert !Quirky(st, ops[0]);
      RunRefines(Apply(st, minFree, ops[0], envs[0]).store, minFree, ops[1..], envs[1..]);
    }
  }

  // ---- Where a capability comes from ----

  /** What becomes of the file of id `x` in one operation: it is gone, or it has an id, maybe a new one. */
  function Next(m: Simple, op: Op, x: string): Option<string> {
    if SimpleApply(m, op).result.Err? then Some(x)
    else match op
      case DeleteOp(id, _) => if id == x then None else Some(x)
      case RenameOp(from, to, _) => if from == x then Some(to) else Some(x)
      case ConcatOp(_, _, parts, _) => if x in parts then None else Some(x)
      case _ => Some(x)
  }

  /** The id that the file of id `x` has after the operations. */
  function Trail(m: Simple, ops: seq<Op>, x: string): Option<string>
    decreases |ops|
  {
    if ops == [] then Some(x)
    else match Next(m, ops[0], x)
      case None => None
      case Some(y) => Trail(SimpleApply(m, ops[0]).m, ops[1..], y)
  }

  /** The map before operation `k`. */
  function Before(m: Simple, ops: seq<Op>, k: nat): Simple
    requires k <= |ops|
    decreases k
  {
    if k == 0 then m else Before(SimpleApply(m, ops[0]).m, ops[1..], k - 1)
  }

  predicate Makes(op: Op) { op.PutOp? || op.ConcatOp? }

  /** Operation `k` succeeds in making a file, which ends up, perhaps renamed, as `id`. */
  predicate Origin(m: Simple, ops: seq<Op>, k: nat, id: string) {
    && k < |ops| && Makes(ops[k])
    && var before := Before(m, ops, k);
       && ops[k].id !in before && SimpleApply(before, ops[k]).result.Ok?
       && Trail(SimpleApply(before, ops[k]).m, ops[k + 1..], ops[k].id) == Some(id)
  }

  /** Whatever the map holds after an operation was there before, perhaps under another id, or has just been made. */
  lemma StepLineage(m: Simple, op: Op, y: string) returns (x: string)
    requires y in SimpleApply(m, op).m
    ensures || (Makes(op) && x == y == op.id && y !in m && SimpleApply(m, op).result.Ok?
                && SimpleApply(m, op).m[y].cap == op.cap)
            || (x in m && Next(m, op, x) == Some(y) && SimpleApply(m, op).m[y] == m[x])
  {
    x := if op.RenameOp? && SimpleApply(m, op).result.Ok? && y == op.to then op.from else y;
  }

  lemma LaterOrigin(m: Simple, ops: seq<Op>, k: nat, id: string)
    requires ops != [] && Origin(SimpleApply(m, ops[0]).m, ops[1..], k, id)
    ensures Origin(m, ops, k + 1, id) && ops[k + 1] == ops[1..][k]
  {
    assert ops[1..][k + 1..] == ops[k + 2..];
  }

  /** Over every run: a file was there at the start, or some operation has made it, with the capability it has. */
  lemma {:induction false} Lineage(m: Simple, ops: seq<Op>, id: string) returns (k: Option<nat>, x: string)
    requires id in RunSimple(m, ops).0
    ensures k.Some? ==> Origin(m, ops, k.value, id) && RunSimple(m, ops).0[id].cap == ops[k.value].cap
    ensures k.None? ==> x in m && Trail(m, ops, x) == Some(id) && RunSimple(m, ops).0[id] == m[x]
    decreases |ops|
  {
    if ops == [] {
      k, x := None, id;
    } else {
      var next := SimpleApply(m, ops[0]).m;
      var later, y := Lineage(next, ops[1..], id);
      if later.Some? {
        LaterOrigin(m, ops, later.value, id);
        k, x := Some(later.value + 1), id;
      } else {
        x := StepLineage(m, ops[0], y);
        k := if Makes(ops[0]) && x == ops[0].id && x !in m then Some(0) else None;
      }
    }
  }

  /**
   From an empty store: every stored capability hash is that of a stored file, and is the one given to the put or
   concat that made the file, which has since come through any number of renames.
   */
  lemma CapabilityLineage(minFree: nat, ops: seq<Op>, envs: seq<Env>, id: string) returns (k: nat)
    requires |ops| == |envs| && AllCalm(envs, minFree) && NoneMakesCap(ops)
    requires id in RunStore(Store(map[], map[]), minFree, ops, envs).0.caps
    ensures id in RunStore(Store(map[], map[]), minFree, ops, envs).0.files
    ensures Origin(map[], ops, k, id)
    ensures ops[k].cap == Some(RunStore(Store(map[], map[]), minFree, ops, envs).0.caps[id])
  {
    var empty := Store(map[], map[]);
    RunRefines(empty, minFree, ops, envs);
    assert View(empty) == map[];
    var last := RunStore(empty, minFree, ops, envs).0;
    var made, x := Lineage(map[], ops, id);
    assert View(last)[id].cap == Some(last.caps[id]);
    k := made.value;
  }

  /** The quirk is real: renaming an uncapped `reserve` to `cap` gives it an empty capability, which is no hash. */
  lemma RenameMintsCapability(blob: Blob, minFree: nat, env: Env)
    requires Calm(env, minFree)
    ensures var o := Rename(Store(map["reserve" := blob], map[]), "reserve", "cap", env);
            && o.result == Ok(()) && o.store == Store(map["cap" := blob], map["cap" := []])
            && forall h :: h != [] ==> !Verified(o.store, "cap", h)
  {
    CapIsValid();
    assert map["reserve" := blob] - {"reserve"} == map[];
  }

  /** And with a capped `reserve`, the absent id `cap` cannot be put at all. */
  lemma CapIsRefused(blob: Blob, hash: Bytes, minFree: nat, filename: string, items: seq<Item>, env: Env)
    requires Calm(env, minFree)
    ensures Put(Store(map["reserve" := blob], map["reserve" := hash]), minFree, "cap", filename, items, env).result == Err(Conflict)
  {
    CapIsValid();
  }
}
