/** The local disk backend: every operation, with any filesystem call failing, does what the specification says. */
module LocalBackend {
  import opened Base
  import opened Names
  import opened Filenames
  import opened StoreSpec
  import opened LocalState
  import opened LocalScan
  import opened RangeDelivery
  import Uploads

  lemma UnusedInode(used: set<nat>) returns (n: nat)
    ensures forall m :: m in used ==> m < n
  {
    if used == {} {
      n := 0;
    } else {
      var x :| x in used;
      n := UnusedInode(used - {x});
      assert used == (used - {x}) + {x};
      if n <= x { n := x + 1; }
    }
  }

  class Backend {
    // The files directory: names, and what they are linked to
    var dir: map<Name, nat>
    var inodes: map<nat, Inode>
    // The index of extensions and the metadata cache
    var extensions: map<string, string>
    var metaCache: map<string, Meta>
    // The counter behind temporary names
    var tempCounter: nat
    const pid: nat
    const minFree: nat
    // What is stored
    ghost var store: Store

    ghost function Fields(): State
      reads this
    {
      State(dir, inodes, extensions, metaCache)
    }

    /** The fields without one name that is in use while an operation runs. */
    ghost function Sans(held: Name): State
      reads this
    {
      WithoutName(Fields(), held)
    }

    ghost predicate Valid()
      reads this
    {
      Represents(Fields(), store)
    }

    /** `new`, on an empty directory. */
    constructor (pid: nat, minFree: nat)
      ensures Valid() && store == Store(map[], map[]) && this.pid == pid && this.minFree == minFree
    {
      this.pid, this.minFree := pid, minFree;
      dir, inodes, extensions, metaCache, tempCounter := map[], map[], map[], map[], 0;
      store := Store(map[], map[]);
    }

    // ---- Filesystem calls ----

    /** Create a file that must not exist. */
    method CreateNew(name: Name, ok: bool, now: nat) returns (r: Result<nat>)
      modifies `dir, `inodes
      ensures r.Err? ==> dir == old(dir) && inodes == old(inodes) && r.error == (if !ok then Io else Conflict)
      ensures r.Ok? <==> ok && name !in old(dir)
      ensures r.Ok? ==> r.value !in old(inodes) && dir == old(dir)[name := r.value]
      ensures r.Ok? ==> inodes == old(inodes)[r.value := Inode([], now)]
    {
      if !ok { return Err(Io); }
      if name in dir { return Err(Conflict); }
      ghost var top := UnusedInode(inodes.Keys);
      assert top !in inodes;
      var ino: nat :| ino !in inodes;
      dir, inodes := dir[name := ino], inodes[ino := Inode([], now)];
      return Ok(ino);
    }

    method RemoveName(name: Name)
      modifies `dir
      ensures dir == old(dir) - {name}
    {
      dir := dir - {name};
    }

    // ---- Reservations ----

    method ReserveId(id: string, env: Env) returns (e: Option<StorageError>)
      requires Valid()
      modifies `dir, `inodes
      ensures e == ReserveError(store, id, env)
      ensures e.Some? ==> Valid()
      ensures Frames(old(Fields()), Fields(), {})
      ensures e.None? ==>
        var held := Canon(Reserve(id));
        Represents(Sans(held), store) && Sans(held).dir == old(dir) && Holds(Fields(), held, [])
    {
      if !ValidComponent(id) { return Some(Io); }
      var path := Canon(Reserve(id));
      ReservationFree(Fields(), store, id);
      var made := CreateNew(path, env.reserve, env.now);
      if made.Err? { return Some(made.error); }
      assert dir - {path} == old(dir);
      Untouched(old(Fields()), Sans(path), store);
      NewNameFrames(old(Fields()), Fields(), path, made.value);
      if id in extensions {
        ghost var reserved := Fields();
        RemoveName(path);
        RemovalFrames(reserved, Fields(), path, {});
        FramesThen(old(Fields()), reserved, Fields(), {}, {});
        return Some(Conflict);
      }
      return None;
    }

    method DropReservation(held: Name)
      requires Represents(Sans(held), store) && !held.Data?
      modifies `dir
      ensures Valid() && dir == old(dir) - {held}
      ensures Frames(old(Fields()), Fields(), {})
    {
      RemoveName(held);
      RemovalFrames(old(Fields()), Fields(), held, {});
    }

    // ---- Put ----

    /** The loop that writes the chunks, and the flush. */
    method FillTemp(ino: nat, items: seq<Item>, env: Env) returns (error: Option<StorageError>, total: nat)
      requires ino in inodes && inodes[ino].bytes == []
      modifies `inodes
      ensures inodes.Keys == old(inodes).Keys && inodes == old(inodes)[ino := inodes[ino]]
      ensures error == First(WriteError(items, env.write, 0), if env.flush then None else Some(Io))
      ensures error.None? ==> inodes[ino].bytes == Observe(items).bytes && total == Min(|Observe(items).bytes|, U64_MAX)
      ensures old(inodes[ino].mtime) == env.now ==> inodes[ino].mtime == env.now
    {
      error, total := None, 0;
      var j := 0;
      assert items[..0] == [] && items[0..] == items;
      while j < |items| && error.None?
        invariant j <= |items|
        invariant ino in inodes && inodes.Keys == old(inodes).Keys && inodes == old(inodes)[ino := inodes[ino]]
        invariant error.None? ==> Observe(items[..j]) == Observation(inodes[ino].bytes, None)
        invariant error.None? ==> WriteError(items, env.write, 0) == WriteError(items[j..], env.write, j)
        invariant error.None? ==> total == Min(|inodes[ino].bytes|, U64_MAX)
        invariant old(inodes[ino].mtime) == env.now ==> inodes[ino].mtime == env.now
        invariant error.Some? ==> WriteError(items, env.write, 0) == error
        decreases |items| - j, error.None?
      {
        assert items[j..][1..] == items[j + 1..];
        Uploads.ObserveSnoc(items, j);
        match items[j] {
          case Fail(e) => error := Some(e);
          case Chunk(chunk) =>
            total := Min(total + |chunk|, U64_MAX);
            if env.write == Some(j) {
              error := Some(Io);
            } else {
              inodes := inodes[ino := Inode(inodes[ino].bytes + chunk, env.now)];
              j := j + 1;
            }
        }
      }
      if error.None? {
        assert items[..j] == items && items[j..] == [];
        if !env.flush { error := Some(Io); }
      }
    }

    /** A successful `publish_new_file`, then the index entry: the temporary file becomes the file of `id`. */
    method LinkAndIndex(temp: Name, id: string, ext: string, ghost held: Name, ghost before: State)
      requires temp.Temp? && temp in dir && dir[temp] in inodes && !held.Data? && held != temp
      requires before == Sans(held).(dir := dir - {held} - {temp}) && Represents(before, store)
      requires id !in extensions && ValidComponent(id) && ValidComponent(ext)
      modifies `dir, `extensions, `metaCache, `store
      ensures Represents(Sans(held), store)
      ensures store == WithFile(old(store), id, ext, inodes[old(dir)[temp]].bytes)
      ensures Data(id, ext) in dir && dir[Data(id, ext)] == old(dir)[temp]
      ensures Frames(old(Fields()), Fields(), {id})
    {
      var ino := dir[temp];
      dir := dir[Data(id, ext) := ino];
      RemoveName(temp);
      extensions := extensions[id := ext];
      metaCache := metaCache - {id};
      assert dir - {held} == before.dir[Data(id, ext) := ino];
      FileAdded(before, Sans(held), store, id, ext, ino);
      store := WithFile(store, id, ext, inodes[ino].bytes);
      PublishFrames(old(Fields()), Fields(), temp, id, ext, ino);
    }

    /** `publish_new_file` and what follows it. */
    method Publish(temp: Name, id: string, ext: string, ok: bool, ghost held: Name) returns (e: Option<StorageError>)
      requires temp.Temp? && temp in dir && dir[temp] in inodes && !held.Data? && held != temp
      requires Represents(Sans(held).(dir := dir - {held} - {temp}), store)
      requires id !in extensions && ValidComponent(id) && ValidComponent(ext)
      modifies `dir, `extensions, `metaCache, `store
      ensures e == (if ok then None else Some(Io))
      ensures Represents(Sans(held), store)
      ensures e.Some? ==> store == old(store)
      ensures e.None? ==> store == WithFile(old(store), id, ext, inodes[old(dir)[temp]].bytes)
      ensures e.None? ==> Data(id, ext) in dir && dir[Data(id, ext)] == old(dir)[temp]
      ensures Frames(old(Fields()), Fields(), {id})
    {
      ghost var before := Sans(held).(dir := dir - {held} - {temp});
      assert Data(id, ext) !in before.dir;
      if ok && Data(id, ext) !in dir {
        LinkAndIndex(temp, id, ext, held, before);
        return None;
      }
      e := Some(if !ok then Io else Conflict);
      RemoveName(temp);
      assert dir - {held} == before.dir;
      RemovalFrames(old(Fields()), Fields(), temp, {id});
    }

    /** Create the temporary file of an operation that holds a reservation. */
    method OpenTemp(id: string, env: Env, ghost held: Name) returns (made: Option<Name>)
      requires Represents(Sans(held), store) && (held.Reserve? || held.Cap?)
      requires held in dir ==> dir[held] in inodes
      modifies `dir, `inodes, `tempCounter
      ensures made.Some? <==> env.temp
      ensures tempCounter == old(tempCounter) + 1
      ensures made.None? ==> Represents(Sans(held), store)
      ensures made.Some? ==>
        var temp := made.value;
        && temp.Temp? && Holds(Fields(), temp, []) && Represents(Sans(held).(dir := dir - {held} - {temp}), store)
        && dir[temp] !in old(inodes) && inodes[dir[temp]].mtime == env.now && forall n :: n in dir && n != temp ==> dir[n] != dir[temp]
      ensures Frames(old(Fields()), Fields(), {})
    {
      var temp := Temp(id, pid, tempCounter);
      assert temp !in dir - {held};
      tempCounter := tempCounter + 1;
      var r := CreateNew(temp, env.temp, env.now);
      if r.Err? {
        RemoveName(temp);
        assert dir == old(dir);
        SameFrames(old(Fields()), Fields(), {});
        return None;
      }
      TempMade(old(Fields()), Fields(), store, held, temp, r.value);
      return Some(temp);
    }

    method DropTemp(temp: Name, ghost held: Name)
      requires Represents(Sans(held).(dir := dir - {held} - {temp}), store) && temp.Temp?
      modifies `dir
      ensures Represents(Sans(held), store)
      ensures Frames(old(Fields()), Fields(), {})
    {
      RemoveName(temp);
      RemovalFrames(old(Fields()), Fields(), temp, {});
      assert dir - {held} == old(dir) - {held} - {temp};
    }

    /** Writing to the temporary file leaves what is stored alone. */
    lemma FilledTemp(before: State, ino: nat, temp: Name, held: Name)
      requires Represents(before, store) && before == Sans(held).(dir := dir - {held} - {temp}, inodes := before.inodes)
      requires ino in inodes && inodes.Keys == before.inodes.Keys && inodes == before.inodes[ino := inodes[ino]]
      requires forall n :: n in before.dir ==> before.dir[n] != ino
      ensures Represents(Sans(held).(dir := dir - {held} - {temp}), store)
    {
      OtherInode(before, inodes, ino, store);
    }

    /** `write_local`, which is also the body of `put_stream`: fill a temporary file, publish it, index it. */
    method WriteLocal(id: string, ext: string, items: seq<Item>, env: Env, ghost held: Name) returns (r: Result<nat>)
      requires Represents(Sans(held), store) && (held.Reserve? || held.Cap?) && (held in dir ==> dir[held] in inodes)
      requires id !in extensions && ValidComponent(id) && ValidComponent(ext)
      modifies `dir, `inodes, `extensions, `metaCache, `tempCounter, `store
      ensures Represents(Sans(held), store)
      ensures r == match FillError(items, env)
                   case Some(e) => Err(e)
                   case None => Ok(Min(|Observe(items).bytes|, U64_MAX))
      ensures r.Err? ==> store == old(store)
      ensures r.Ok? ==> store == WithFile(old(store), id, ext, Observe(items).bytes)
      ensures r.Ok? ==> NewFile(old(Fields()), Fields(), id, ext, env.now)
      ensures Frames(old(Fields()), Fields(), {id})
    {
      var made := OpenTemp(id, env, held);
      if made.None? { return Err(Io); }
      var temp := made.value;
      ghost var before := Sans(held).(dir := dir - {held} - {temp});
      ghost var begun := Fields();
      var error, total := FillTemp(dir[temp], items, env);
      FilledTemp(before, dir[temp], temp, held);
      ghost var filled := Fields();
      WriteFrames(old(Fields()), begun, filled, {}, dir[temp]);
      if error.Some? {
        DropTemp(temp, held);
        FramesThen(old(Fields()), filled, Fields(), {}, {});
        return Err(error.value);
      }
      error := Publish(temp, id, ext, env.link, held);
      FramesThen(old(Fields()), filled, Fields(), {}, {id});
      return if error.Some? then Err(error.value) else Ok(total);
    }

    /** `put_stream`; `put` is the case of a single chunk. */
    method PutStream(id: string, filename: string, items: seq<Item>, env: Env) returns (r: Result<nat>)
      requires Valid()
      modifies this
      ensures Valid()
      ensures Outcome(store, r) == Put(old(store), minFree, id, filename, items, env)
      ensures r.Ok? ==> NewFile(old(Fields()), Fields(), id, SafeExtension(filename), env.now)
      ensures Frames(old(Fields()), Fields(), {id})
    {
      var ext := SafeExtension(filename);
      SafeExtensionIsSafe(filename);
      var refused := ReserveId(id, env);
      if refused.Some? { return Err(refused.value); }
      var held := Canon(Reserve(id));
      ghost var reserved := Fields();
      if env.free.None? || env.free.value < minFree {
        DropReservation(held);
        FramesThen(old(Fields()), reserved, Fields(), {}, {});
        return Err(if env.free.None? then Io else InsufficientStorage);
      }
      r := WriteLocal(id, ext, items, env, held);
      ghost var written := Fields();
      DropReservation(held);
      FramesThen(old(Fields()), reserved, written, {}, {id});
      FramesThen(old(Fields()), written, Fields(), {id}, {});
    }

    // ---- Capability files ----

    method CreateCapabilityFile(id: string, hash: Bytes, env: Env) returns (r: Result<()>)
      requires Valid()
      modifies `dir, `inodes, `store
      ensures Valid()
      ensures Outcome(store, r) == CreateCapability(old(store), id, hash, env)
      ensures Frames(old(Fields()), Fields(), {})
    {
      SameFrames(old(Fields()), Fields(), {});
      if !ValidComponent(id) { return Err(Io); }
      var made := CreateNew(Cap(id), env.capCreate, env.now);
      if made.Err? { return Err(made.error); }
      var ino := made.value;
      match env.capWrite {
        case Some(n) =>
          inodes := inodes[ino := Inode(if n < |hash| then hash[..n] else hash, env.now)];
          r := Err(Io);
        case None =>
          inodes := inodes[ino := Inode(hash, env.now)];
          r := Ok(());
      }
      CapSet(old(Fields()), Fields(), store, id, ino);
      NewNameFrames(old(Fields()), Fields(), Cap(id), ino);
      store := store.(caps := store.caps[id := inodes[ino].bytes]);
    }

    method RemoveCapabilityFile(id: string)
      requires Valid()
      modifies `dir, `store
      ensures Valid() && store == RemoveCapability(old(store), id)
      ensures Frames(old(Fields()), Fields(), {})
    {
      RemoveName(Cap(id));
      RemovalFrames(old(Fields()), Fields(), Cap(id), {});
      CapDropped(old(Fields()), Fields(), store, id);
      store := RemoveCapability(store, id);
    }

    method VerifyCapability(id: string, hash: Bytes) returns (ok: bool)
      requires Valid()
      ensures ok <==> id in store.caps && store.caps[id] == hash
    {
      ok := ValidComponent(id) && Cap(id) in dir && inodes[dir[Cap(id)]].bytes == hash;
    }

    method PutStreamWithCapability(id: string, filename: string, items: seq<Item>, hash: Bytes, env: Env) returns (r: Result<nat>)
      requires Valid()
      modifies this
      ensures Valid()
      ensures Outcome(store, r) == PutWithCapability(old(store), minFree, id, filename, items, hash, env)
      ensures r.Ok? ==> NewFile(old(Fields()), Fields(), id, SafeExtension(filename), env.now)
      ensures Frames(old(Fields()), Fields(), {id})
    {
      var made := CreateCapabilityFile(id, hash, env);
      if made.Err? { return Err(made.error); }
      ghost var capped := Fields();
      r := PutStream(id, filename, items, env);
      FramesThen(old(Fields()), capped, Fields(), {}, {id});
      if r.Err? {
        ghost var tried := Fields();
        RemoveCapabilityFile(id);
        FramesThen(old(Fields()), tried, Fields(), {id}, {});
      }
    }

    // ---- Delete ----

    /** `delete`, also while a reservation is held. */
    method DeleteHolding(id: string, ok: bool, ghost held: Name) returns (r: Result<bool>)
      requires !held.Data? && Represents(Sans(held), store)
      modifies `dir, `extensions, `metaCache, `store
      ensures Represents(Sans(held), store)
      ensures id !in old(store).files ==> r == Ok(false) && store == old(store) && dir == old(dir)
      ensures id in old(store).files && !ok ==> r == Err(Io) && store == old(store) && dir == old(dir)
      ensures id in old(store).files && ok ==>
        r == Ok(true) && store == Without(old(store), {id})
        && dir == old(dir) - {Data(id, old(store).files[id].ext)} - {Cap(id)}
      ensures Frames(old(Fields()), Fields(), {id})
    {
      SameFrames(old(Fields()), Fields(), {id});
      if id !in extensions { return Ok(false); }
      var path := Data(id, extensions[id]);
      if !ok { return Err(Io); }
      if path !in dir { return Ok(false); }
      RemoveName(path);
      extensions := extensions - {id};
      metaCache := metaCache - {id};
      RemoveName(Cap(id));
      assert dir - {held} == old(dir - {held}) - {path} - {Cap(id)};
      FileRemoved(old(Sans(held)), Sans(held), store, id);
      DeleteFrames(old(Fields()), Fields(), id);
      store := Without(store, {id});
      return Ok(true);
    }

    method DeleteFile(id: string, env: Env) returns (r: Result<bool>)
      requires Valid()
      modifies this
      ensures Valid()
      ensures Outcome(store, r) == Delete(old(store), id, env)
      ensures Frames(old(Fields()), Fields(), {id})
    {
      assert Reserve(id) !in dir;
      assert dir - {Reserve(id)} == dir;
      r := DeleteHolding(id, env.unlink, Reserve(id));
      assert dir - {Reserve(id)} == dir;
    }

    method DeleteFileWithCapability(id: string, hash: Bytes, env: Env) returns (r: Result<bool>)
      requires Valid()
      modifies this
      ensures Valid()
      ensures Outcome(store, r) == DeleteWithCapability(old(store), id, hash, env)
      ensures Frames(old(Fields()), Fields(), {id})
    {
      var verified := VerifyCapability(id, hash);
      SameFrames(old(Fields()), Fields(), {id});
      if !verified { return Err(Forbidden); }
      r := DeleteFile(id, env);
    }

    // ---- Rename ----

    /** The capability file follows its file; for `reserve`, the reservation of `cap` is taken for one. */
    method MoveCapability(from: string, to: string, env: Env) returns (r: Result<()>)
      requires ValidComponent(to) && from != to
      requires Represents(Sans(Canon(Reserve(to))), store) && Holds(Fields(), Canon(Reserve(to)), [])
      modifies `dir, `store
      ensures Represents(Sans(Canon(Reserve(to))), store)
      ensures Outcome(store, r) == MoveCap(old(store), from, to, env)
      ensures Frames(old(Fields()), Fields(), {})
      ensures SameData(old(Fields()), Fields())
    {
      ghost var held := Canon(Reserve(to));
      SameFrames(old(Fields()), Fields(), {});
      if Cap(from) !in dir || !env.capProbe { return Ok(()); }
      if !env.capMove { return Err(Io); }
      var ino := dir[Cap(from)];
      ghost var found := CapFound(store, from, to).value;
      ghost var before := Sans(held);
      dir := (dir - {Cap(from)})[Cap(to) := ino];
      assert dir - {held} == (before.dir - {Cap(from)})[Cap(to) := ino];
      CapMoved(before, Sans(held), store, from, to, ino);
      CapMoveFrames(old(Fields()), Fields(), from, to, ino);
      store := store.(caps := (store.caps - {from})[to := found]);
      return Ok(());
    }

    /** The commit of a rename: the old name goes, the index follows, both cached entries are dropped. */
    method UnlinkAndReindex(from: string, to: string, ext: string, ghost held: Name, ghost before: State)
      requires Represents(before, store) && !held.Data? && to !in extensions && ValidComponent(to)
      requires from in extensions && extensions[from] == ext && Data(from, ext) in before.dir
      requires before == Sans(held).(dir := before.dir)
      requires dir - {held} == before.dir[Data(to, ext) := before.dir[Data(from, ext)]]
      modifies `dir, `extensions, `metaCache, `store
      ensures Represents(Sans(held), store) && store == WithMovedFile(old(store), from, to)
      ensures dir == old(dir) - {Data(from, ext)} && extensions == (old(extensions) - {from})[to := ext]
    {
      RemoveName(Data(from, ext));
      extensions := (extensions - {from})[to := ext];
      metaCache := metaCache - {from} - {to};
      MoveEnds(before, Fields(), old(dir), store, held, from, to);
      store := WithMovedFile(store, from, to);
    }

    /** The file gets the new name, then loses the old one; a failure in between is undone. */
    method LinkAndUnlink(from: string, to: string, ext: string, env: Env, ghost held: Name) returns (ok: bool)
      requires Represents(Sans(held), store) && !held.Data?
      requires to !in extensions && ValidComponent(to) && from in extensions && extensions[from] == ext
      requires Data(from, ext) in dir && Data(to, ext) !in dir
      modifies `dir, `extensions, `metaCache, `store
      ensures Represents(Sans(held), store) && ok == env.unlink
      ensures !ok ==> store == old(store) && dir == old(dir) && extensions == old(extensions)
      ensures ok ==> store == WithMovedFile(old(store), from, to) && extensions == (old(extensions) - {from})[to := ext]
      ensures ok ==> dir == old(dir)[Data(to, ext) := old(dir)[Data(from, ext)]] - {Data(from, ext)}
    {
      ghost var before := Sans(held);
      dir := dir[Data(to, ext) := dir[Data(from, ext)]];
      if !env.unlink {
        RemoveName(Data(to, ext));
        assert dir == old(dir);
        return false;
      }
      UnlinkAndReindex(from, to, ext, held, before);
      return true;
    }

    /** The steps of a rename between its reservation and the move of its capability file. */
    method MoveFile(from: string, to: string, env: Env, ghost held: Name) returns (e: Option<StorageError>)
      requires Represents(Sans(held), store) && !held.Data? && held in dir
      requires to !in extensions && ValidComponent(to)
      modifies `dir, `extensions, `metaCache, `store
      ensures Represents(Sans(held), store) && held in dir && dir[held] == old(dir)[held]
      ensures e == MoveError(old(store), from, env)
      ensures e.Some? ==> store == old(store)
      ensures e.None? ==> store == WithMovedFile(old(store), from, to)
      ensures e.None? ==>
        var ext := old(store).files[from].ext;
        && Data(from, ext) in old(dir) && Data(to, ext) in dir && dir[Data(to, ext)] == old(dir)[Data(from, ext)]
        && extensions[to] == ext
      ensures Frames(old(Fields()), Fields(), {from, to})
    {
      SameFrames(old(Fields()), Fields(), {from, to});
      MoveBegins(Sans(held), store, from, to);
      if from !in extensions { return Some(NotFound); }
      var ext := extensions[from];
      if Data(from, ext) !in dir || !env.stat { return Some(NotFound); }
      if !env.link || Data(to, ext) in dir { return Some(if Data(to, ext) in dir then Conflict else Io); }
      var ok := LinkAndUnlink(from, to, ext, env, held);
      if !ok {
        SameFrames(old(Fields()), Fields(), {from, to});
        return Some(Io);
      }
      MoveFrames(old(Fields()), Fields(), from, to, ext);
      return None;
    }

    method RenameFile(from: string, to: string, env: Env) returns (r: Result<()>)
      requires Valid()
      modifies this
      ensures Valid()
      ensures Outcome(store, r) == Rename(old(store), from, to, env)
      ensures RenameError(old(store), from, to, env).None? ==> MetaOfId(Fields(), to) == MetaOfId(old(Fields()), from)
      ensures Frames(old(Fields()), Fields(), {from, to})
    {
      var refused := ReserveId(to, env);
      if refused.Some? { return Err(refused.value); }
      var held := Canon(Reserve(to));
      ghost var reserved := Fields();
      var e := MoveFile(from, to, env, held);
      ghost var moved := Fields();
      FramesThen(old(Fields()), reserved, moved, {}, {from, to});
      if e.Some? {
        DropReservation(held);
        FramesThen(old(Fields()), moved, Fields(), {from, to}, {});
        return Err(e.value);
      }
      ghost var ext := extensions[to];
      r := MoveCapability(from, to, env);
      label Moved:
      FramesThen(old(Fields()), moved, Fields(), {from, to}, {});
      DropReservation(held);
      FramesThen(old(Fields()), old@Moved(Fields()), Fields(), {from, to}, {});
      assert SameLink(old@Moved(Fields()), Fields(), Data(to, ext));
      MovedMeta(old(Fields()), Fields(), from, to, ext);
    }

    method RenameFileWithCapability(from: string, to: string, hash: Bytes, env: Env) returns (r: Result<()>)
      requires Valid()
      modifies this
      ensures Valid()
      ensures Outcome(store, r) == RenameWithCapability(old(store), from, to, hash, env)
      ensures Frames(old(Fields()), Fields(), {from, to})
    {
      var verified := VerifyCapability(from, hash);
      SameFrames(old(Fields()), Fields(), {from, to});
      if !verified { return Err(Forbidden); }
      r := RenameFile(from, to, env);
    }

    // ---- Concat ----

    /** Append one part to the temporary file. */
    method CopyPart(ino: nat, part: string, j: nat, env: Env, ghost clean: State) returns (error: Option<StorageError>)
      requires Represents(clean, store) && clean.extensions == extensions && ino in inodes
      requires forall n :: n in clean.dir && n.Data? ==> n in dir && dir[n] == clean.dir[n] && dir[n] != ino
      requires forall n :: n in dir && n.Data? ==> n in clean.dir
      requires inodes.Keys == clean.inodes.Keys && inodes == clean.inodes[ino := inodes[ino]]
      modifies `inodes
      ensures error == PartError(store, part, env, j)
      ensures inodes.Keys == old(inodes).Keys && inodes == old(inodes)[ino := inodes[ino]]
      ensures error.None? ==> inodes[ino].bytes == old(inodes[ino].bytes) + store.files[part].bytes
      ensures old(inodes[ino].mtime) == env.now ==> inodes[ino].mtime == env.now
    {
      if part !in extensions { return Some(NotFound); }
      var path := Data(part, extensions[part]);
      assert Holds(clean, path, store.files[part].bytes);
      if path !in dir { return Some(NotFound); }
      if env.open == Some(j) || env.write == Some(j) { return Some(Io); }
      inodes := inodes[ino := Inode(inodes[ino].bytes + inodes[dir[path]].bytes, env.now)];
      return None;
    }

    /** The loop that copies the parts, and the flush. */
    method CopyParts(ino: nat, parts: seq<string>, env: Env, ghost clean: State) returns (error: Option<StorageError>)
      requires Represents(clean, store) && clean.extensions == extensions && clean.inodes == inodes
      requires ino in inodes && inodes[ino].bytes == []
      requires forall n :: n in clean.dir && n.Data? ==> n in dir && dir[n] == clean.dir[n] && dir[n] != ino
      requires forall n :: n in dir && n.Data? ==> n in clean.dir
      modifies `inodes
      ensures inodes.Keys == old(inodes).Keys && inodes == old(inodes)[ino := inodes[ino]]
      ensures error == First(CopyError(store, parts, env, 0), if env.flush then None else Some(Io))
      ensures error.None? ==> inodes[ino].bytes == Joined(store.files, parts)
      ensures old(inodes[ino].mtime) == env.now ==> inodes[ino].mtime == env.now
    {
      error := None;
      var j := 0;
      assert parts[..0] == [] && parts[0..] == parts;
      while j < |parts|
        invariant j <= |parts|
        invariant ino in inodes && inodes.Keys == old(inodes).Keys && inodes == old(inodes)[ino := inodes[ino]]
        invariant inodes[ino].bytes == Joined(store.files, parts[..j])
        invariant old(inodes[ino].mtime) == env.now ==> inodes[ino].mtime == env.now
        invariant CopyError(store, parts, env, 0) == CopyError(store, parts[j..], env, j)
      {
        assert parts[j..][1..] == parts[j + 1..];
        error := CopyPart(ino, parts[j], j, env, clean);
        if error.Some? { return; }
        JoinedSnoc(store.files, parts, j);
        j := j + 1;
      }
      assert parts[..j] == parts && parts[j..] == [];
      return if env.flush then None else Some(Io);
    }

    /** Fill a temporary file with the parts, publish it, index it. */
    method JoinParts(id: string, ext: string, parts: seq<string>, env: Env, ghost held: Name) returns (e: Option<StorageError>)
      requires Represents(Sans(held), store) && (held.Reserve? || held.Cap?) && (held in dir ==> dir[held] in inodes)
      requires id !in extensions && ValidComponent(id) && ValidComponent(ext)
      modifies `dir, `inodes, `extensions, `metaCache, `tempCounter, `store
      ensures Represents(Sans(held), store)
      ensures e == JoinError(old(store), parts, env)
      ensures e.Some? ==> store == old(store)
      ensures e.None? ==> store == WithFile(old(store), id, ext, Joined(old(store).files, parts))
      ensures e.None? ==> NewFile(old(Fields()), Fields(), id, ext, env.now)
      ensures Frames(old(Fields()), Fields(), {id})
    {
      var made := OpenTemp(id, env, held);
      if made.None? { return Some(Io); }
      var temp := made.value;
      ghost var before := Sans(held).(dir := dir - {held} - {temp});
      ghost var begun := Fields();
      e := CopyParts(dir[temp], parts, env, before);
      FilledTemp(before, dir[temp], temp, held);
      ghost var filled := Fields();
      WriteFrames(old(Fields()), begun, filled, {}, dir[temp]);
      if e.Some? {
        DropTemp(temp, held);
        FramesThen(old(Fields()), filled, Fields(), {}, {});
        return;
      }
      e := Publish(temp, id, ext, env.link, held);
      FramesThen(old(Fields()), filled, Fields(), {}, {id});
    }

    method DeletePart(parts: seq<string>, j: nat, env: Env, ghost held: Name, ghost start: Store)
      requires Represents(Sans(held), store) && !held.Data? && j < |parts| && parts[j] in start.files
      requires store == Without(start, Removed(parts[..j], env))
      modifies `dir, `extensions, `metaCache, `store
      ensures Represents(Sans(held), store) && store == Without(start, Removed(parts[..j + 1], env))
      ensures Frames(old(Fields()), Fields(), {parts[j]})
    {
      RemoveNext(start, parts, j, env);
      var r := DeleteHolding(parts[j], parts[j] !in env.stuck, held);
    }

    /** The parts are deleted one by one; a failure leaves that part and goes on. */
    method DeleteParts(parts: seq<string>, env: Env, ghost held: Name)
      requires Represents(Sans(held), store) && !held.Data? && forall p :: p in parts ==> p in store.files
      modifies `dir, `extensions, `metaCache, `store
      ensures Represents(Sans(held), store) && store == Without(old(store), Removed(parts, env))
      ensures Frames(old(Fields()), Fields(), Elements(parts))
    {
      var j := 0;
      RemovedNone(store, parts, env);
      SameFrames(old(Fields()), Fields(), Ids(parts, 0));
      while j < |parts|
        invariant j <= |parts|
        invariant Represents(Sans(held), store) && store == Without(old(store), Removed(parts[..j], env))
        invariant Frames(old(Fields()), Fields(), Ids(parts, j))
      {
        ghost var last := Fields();
        DeletePart(parts, j, env, held, old(store));
        FramesThen(old(Fields()), last, Fields(), Ids(parts, j), {parts[j]});
        NextId(parts, j);
        j := j + 1;
      }
      assert parts[..j] == parts && Ids(parts, j) == Elements(parts);
    }

    method ConcatFiles(id: string, filename: string, parts: seq<string>, env: Env) returns (r: Result<()>)
      requires Valid()
      modifies this
      ensures Valid()
      ensures Outcome(store, r) == Concat(old(store), minFree, id, filename, parts, env)
      ensures r.Ok? ==> NewFile(old(Fields()), Fields(), id, SafeExtension(filename), env.now)
      ensures Frames(old(Fields()), Fields(), {id} + Elements(parts))
    {
      var ext := SafeExtension(filename);
      SafeExtensionIsSafe(filename);
      var refused := ReserveId(id, env);
      if refused.Some? { return Err(refused.value); }
      var held := Canon(Reserve(id));
      ghost var reserved := Fields();
      if env.free.None? || env.free.value < minFree {
        DropReservation(held);
        FramesThen(old(Fields()), reserved, Fields(), {}, {});
        return Err(if env.free.None? then Io else InsufficientStorage);
      }
      var e := JoinParts(id, ext, parts, env, held);
      ghost var joined := Fields();
      FramesThen(old(Fields()), reserved, joined, {}, {id});
      if e.Some? {
        DropReservation(held);
        FramesThen(old(Fields()), joined, Fields(), {id}, {});
        return Err(e.value);
      }
      CopiedPartsExist(old(store), parts, env, 0);
      DeleteParts(parts, env, held);
      ghost var deleted := Fields();
      FramesThen(old(Fields()), joined, deleted, {id}, Elements(parts));
      NewFileStays(old(Fields()), joined, deleted, id, ext, env.now, Elements(parts));
      DropReservation(held);
      NewFileStays(old(Fields()), deleted, Fields(), id, ext, env.now, {});
      FramesThen(old(Fields()), deleted, Fields(), {id} + Elements(parts), {});
      return Ok(());
    }

    /** Every part must carry the presented capability. */
    method VerifyParts(parts: seq<string>, hash: Bytes) returns (ok: bool)
      requires Valid()
      ensures ok <==> AllVerified(store, parts, hash)
    {
      for j := 0 to |parts|
        invariant forall i :: 0 <= i < j ==> Verified(store, parts[i], hash)
      {
        ok := VerifyCapability(parts[j], hash);
        assert ok <==> Verified(store, parts[j], hash);
        if !ok { return; }
      }
      return true;
    }

    method ConcatFilesWithCapability(id: string, filename: string, parts: seq<string>, hash: Bytes, env: Env) returns (r: Result<()>)
      requires Valid()
      modifies this
      ensures Valid()
      ensures Outcome(store, r) == ConcatWithCapability(old(store), minFree, id, filename, parts, hash, env)
      ensures r.Ok? ==> NewFile(old(Fields()), Fields(), id, SafeExtension(filename), env.now)
      ensures Frames(old(Fields()), Fields(), {id} + Elements(parts))
    {
      var verified := VerifyParts(parts, hash);
      SameFrames(old(Fields()), Fields(), {id} + Elements(parts));
      if !verified { return Err(Forbidden); }
      var made := CreateCapabilityFile(id, hash, env);
      if made.Err? { return Err(made.error); }
      ghost var capped := Fields();
      r := ConcatFiles(id, filename, parts, env);
      FramesThen(old(Fields()), capped, Fields(), {}, {id} + Elements(parts));
      if r.Err? {
        ghost var tried := Fields();
        RemoveCapabilityFile(id);
        FramesThen(old(Fields()), tried, Fields(), {id} + Elements(parts), {});
      }
    }

    // ---- Reading ----

    /** `stat_cached`: what is returned is what an uncached stat would compute, and so is what is cached. */
    method Stat(id: string) returns (r: Result<Meta>)
      requires Valid()
      modifies `metaCache
      ensures Valid()
      ensures r.Ok? <==> id in store.files
      ensures r.Err? ==> r.error == NotFound && metaCache == old(metaCache)
      ensures r.Ok? ==> metaCache == old(metaCache)[id := r.value]
      ensures r.Ok? ==>
        var file := Data(id, store.files[id].ext);
        && file in dir && dir[file] in inodes && inodes[dir[file]].bytes == store.files[id].bytes
        && r.value == Meta(|store.files[id].bytes|, ETag(dir[file], inodes[dir[file]].mtime, |store.files[id].bytes|),
                           store.files[id].ext)
    {
      if id in metaCache {
        assert Fresh(Fields(), id);
        assert Holds(Fields(), Data(id, store.files[id].ext), store.files[id].bytes);
        return Ok(metaCache[id]);
      }
      if !ValidComponent(id) || id !in extensions { return Err(NotFound); }
      var path := Data(id, extensions[id]);
      assert Holds(Fields(), path, store.files[id].bytes);
      if path !in dir { return Err(NotFound); }
      var meta := MetaOf(dir[path], inodes[dir[path]], extensions[id]);
      metaCache := metaCache[id := meta];
      CacheFilled(old(Fields()), Fields(), store, id);
      return Ok(meta);
    }

    method GetFile(id: string, env: Env) returns (r: Result<(Bytes, Meta)>)
      requires Valid()
      modifies `metaCache
      ensures Valid()
      ensures id !in store.files ==> r == Err(NotFound)
      ensures id in store.files && !env.read ==> r == Err(Io)
      ensures id in store.files && env.read ==>
        var blob := store.files[id];
        var file := Data(id, blob.ext);
        && file in dir && dir[file] in inodes
        && r == Ok((blob.bytes, Meta(|blob.bytes|, ETag(dir[file], inodes[dir[file]].mtime, |blob.bytes|), blob.ext)))
      ensures r.Ok? ==> metaCache == old(metaCache)[id := r.value.1]
    {
      if !ValidComponent(id) || id !in extensions { return Err(NotFound); }
      var path := Data(id, extensions[id]);
      assert Holds(Fields(), path, store.files[id].bytes);
      if path !in dir { return Err(NotFound); }
      if !env.read { return Err(Io); }
      var meta := MetaOf(dir[path], inodes[dir[path]], extensions[id]);
      metaCache := metaCache[id := meta];
      CacheFilled(old(Fields()), Fields(), store, id);
      return Ok((inodes[dir[path]].bytes, meta));
    }

    /** `get_range_stream`, under a schedule of read calls. */
    method GetRange(id: string, start: nat, end: nat, calls: nat -> Read, env: Env) returns (r: Result<seq<Item>>)
      requires Valid()
      modifies `metaCache
      ensures Valid()
      ensures r == if id !in store.files then Err(NotFound)
                   else if start > |store.files[id].bytes| || end >= |store.files[id].bytes| || !env.read then Err(Io)
                   else Ok(RangeStream(store.files[id].bytes, start, RangeLength(start, end), calls, 0))
    {
      var meta := Stat(id);
      if meta.Err? { return Err(meta.error); }
      if start > meta.value.size || end >= meta.value.size || !env.read { return Err(Io); }
      assert Holds(Fields(), Data(id, store.files[id].ext), store.files[id].bytes);
      return Ok(RangeStream(inodes[dir[Data(id, extensions[id])]].bytes, start, RangeLength(start, end), calls, 0));
    }

    /** `get_stream`, under a schedule of read calls. */
    method GetWhole(id: string, calls: nat -> Read, env: Env) returns (r: Result<seq<Item>>)
      requires Valid()
      ensures r == if id !in store.files then Err(NotFound)
                   else if !env.read then Err(Io)
                   else Ok(FileStream(store.files[id].bytes, 0, calls, 0))
    {
      if !ValidComponent(id) || id !in extensions { return Err(NotFound); }
      assert Holds(Fields(), Data(id, store.files[id].ext), store.files[id].bytes);
      if !env.read { return Err(Io); }
      return Ok(FileStream(inodes[dir[Data(id, extensions[id])]].bytes, 0, calls, 0));
    }

    // ---- Startup ----

    /** One directory entry; the answer is false when its id is already indexed. */
    method ScanEntry(n: Name, ghost whole: State, ghost seen: set<Name>) returns (ok: bool)
      requires Scanned(whole, seen, dir, extensions, store) && Backed(whole) && inodes == whole.inodes && n in dir
      requires n in whole.dir && n !in seen && whole.dir[n] == dir[n] && Classify(Render(n)) == Verdict(n)
      modifies `dir, `extensions, `store
      ensures ok <==> !(n.Data? && n.id in old(extensions))
      ensures ok ==> Scanned(whole, seen + {n}, dir, extensions, store)
    {
      match Classify(Render(n)) {
        case Capability =>
          if n.Cap? {
            ScanCap(whole, seen, dir, extensions, store, n);
            store := store.(caps := store.caps[n.id := inodes[dir[n]].bytes]);
          } else {
            ScanMistaken(whole, seen, dir, extensions, store, n);
          }
        case Debris =>
          ScanDebris(whole, seen, dir, extensions, store, n);
          RemoveName(n);
        case File(id, ext) =>
          if id in extensions { return false; }
          ScanFile(whole, seen, dir, extensions, store, n);
          extensions := extensions[id := ext];
          store := store.(files := store.files[id := Blob(ext, inodes[dir[n]].bytes)]);
      }
      return true;
    }

    method ScanEntryAt(entries: seq<Name>, i: nat, ghost whole: State) returns (ok: bool)
      requires i < |entries| && Lists(entries, whole.dir) && Scannable(whole.dir) && Backed(whole) && inodes == whole.inodes
      requires Scanned(whole, Seen(entries, i), dir, extensions, store)
      modifies `dir, `extensions, `store
      ensures !ok ==> !UniqueIds(whole.dir.Keys)
      ensures ok ==> Scanned(whole, Seen(entries, i + 1), dir, extensions, store)
    {
      ScanNext(whole, entries, i, dir, extensions, store);
      ok := ScanEntry(entries[i], whole, Seen(entries, i));
      if !ok { DuplicateId(whole, Seen(entries, i), entries[i]); }
    }

    /**
     `init_cache` in a new process: whatever the order of the directory entries, it fails exactly when two data files
     have the same id; otherwise it removes the debris and indexes exactly the data files. The backend is then
     consistent but for the temporary files of `cap`, which stay.
     */
    method InitCache(entries: seq<Name>) returns (ok: bool)
      requires Backed(Fields()) && extensions == map[] && metaCache == map[]
      requires Scannable(dir) && Lists(entries, dir)
      modifies `dir, `extensions, `store
      ensures ok <==> UniqueIds(old(dir).Keys)
      ensures ok ==> extensions == IndexOf(old(dir).Keys) && dir == old(dir) - DebrisIn(old(dir).Keys)
      ensures ok ==> Represents(Fields().(dir := dir - Mistaken(old(dir).Keys)), store)
      ensures ok ==> (Valid() <==> Mistaken(old(dir).Keys) == {})
    {
      store := Store(map[], map[]);
      var i := 0;
      ghost var whole := old(Fields());
      ScanStart(whole, entries);
      while i < |entries|
        invariant i <= |entries|
        invariant Scanned(whole, Seen(entries, i), dir, extensions, store)
      {
        var added := ScanEntryAt(entries, i, whole);
        if !added { return false; }
        i := i + 1;
      }
      ScanComplete(whole, entries, Fields(), store);
      return true;
    }
  }

  /** The first `j` parts of a concat. */
  ghost function Ids(parts: seq<string>, j: nat): set<string>
    requires j <= |parts|
  {
    set p | p in parts[..j]
  }

  lemma NextId(parts: seq<string>, j: nat)
    requires j < |parts|
    ensures Ids(parts, j) + {parts[j]} == Ids(parts, j + 1)
  {
    assert parts[..j + 1] == parts[..j] + [parts[j]];
  }

  lemma RemovedNone(st: Store, parts: seq<string>, env: Env)
    ensures Without(st, Removed(parts[..0], env)) == st
  {
    assert st.files - {} == st.files && st.caps - {} == st.caps;
  }

  /** Deleting the next part of a concat, or finding it already deleted. */
  lemma RemoveNext(st: Store, parts: seq<string>, j: nat, env: Env)
    requires j < |parts| && parts[j] in st.files
    ensures var before, after := Without(st, Removed(parts[..j], env)), Without(st, Removed(parts[..j + 1], env));
            && (parts[j] in before.files && parts[j] !in env.stuck ==> after == Without(before, {parts[j]}))
            && (parts[j] !in before.files || parts[j] in env.stuck ==> after == before)
  {
    var a, b := Removed(parts[..j], env), Removed(parts[..j + 1], env);
    assert parts[..j + 1] == parts[..j] + [parts[j]];
    if parts[j] in env.stuck {
      assert b == a;
    } else {
      assert b == a + {parts[j]};
      assert st.files - b == st.files - a - {parts[j]};
      assert st.caps - b == st.caps - a - {parts[j]};
      if parts[j] in a { assert b == a; }
    }
  }

  lemma {:induction false} CopiedPartsExist(st: Store, parts: seq<string>, env: Env, j: nat)
    requires CopyError(st, parts, env, j).None?
    ensures forall p :: p in parts ==> p in st.files
  {
    if parts != [] { CopiedPartsExist(st, parts[1..], env, j + 1); }
  }

  lemma {:induction false} JoinedSnoc(files: map<string, Blob>, parts: seq<string>, j: nat)
    requires j < |parts| && parts[j] in files
    ensures Joined(files, parts[..j + 1]) == Joined(files, parts[..j]) + files[parts[j]].bytes
  {
    if j == 0 {
      assert parts[..1] == [parts[0]] && parts[..1][1..] == [] && parts[..0] == [];
    } else {
      assert parts[..j + 1][1..] == parts[1..][..j] && parts[..j][1..] == parts[1..][..j - 1];
      JoinedSnoc(files, parts[1..], j - 1);
      assert parts[1..][j - 1] == parts[j] && parts[..j + 1][0] == parts[..j][0] == parts[0];
      var first := if parts[0] in files then files[parts[0]].bytes else [];
      assert first + (Joined(files, parts[1..][..j - 1]) + files[parts[j]].bytes)
          == first + Joined(files, parts[1..][..j - 1]) + files[parts[j]].bytes;
    }
  }
}
